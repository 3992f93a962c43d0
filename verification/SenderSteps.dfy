/** Every step of a sender keeps the invariant. */
module SenderSteps {
  import opened Prelude
  import opened Sums
  import opened Protocol
  import opened Invariant

  predicate SameMemory(s: State, s': State) {
    s'.cells == s.cells && s'.log == s.log && s'.receivers == s.receivers && s'.numReceivers == s.numReceivers
  }

  lemma MemoryFrame(s: State, s': State)
    requires Shape(s) && CellIdsInv(s) && CountersInv(s) && ReceiversInv(s) && SameMemory(s, s')
    ensures Shape(s') && CellIdsInv(s') && CountersInv(s') && ReceiversInv(s')
    ensures HasReceiver(s') <==> HasReceiver(s)
  {
  }

  lemma FlightFrame(s: State, s': State, t: nat, pc: SenderPc)
    requires FlightInv(s) && t < |s.senders| && s'.senders == s.senders[t := pc] && s'.log == s.log
    requires FlightId(pc) == FlightId(s.senders[t])
    ensures FlightInv(s')
  {
  }

  lemma SafeFrame(s: State, s': State, t: nat, pc: SenderPc)
    requires SafeInv(s) && t < |s.senders| && s'.senders == s.senders[t := pc] && SameMemory(s, s')
    requires SawSafe(pc) ==> forall r :: 0 <= r < |s.receivers| && Live(s.receivers[r]) ==>
                               |s.log| < s.receivers[r].held + |s.cells|
    ensures SafeInv(s')
  {
  }

  lemma ContentsFrame(s: State, s': State, t: nat, pc: SenderPc)
    requires Shape(s) && ContentsInv(s)
    requires t < |s.senders| && s'.senders == s.senders[t := pc] && SameMemory(s, s') && !pc.Storing?
    ensures Shape(s') && ContentsInv(s')
  {
  }

  /** A move of one sender that touches neither cells, log nor receivers. */
  lemma QuietMove(s: State, s': State, t: nat, pc: SenderPc)
    requires Inv(s) && t < |s.senders| && s'.senders == s.senders[t := pc] && SameMemory(s, s')
    requires OpFits(pc) && FlightId(pc) == FlightId(s.senders[t]) && !pc.Storing?
    requires TokenInv(s')
    requires SawSafe(pc) ==> forall r :: 0 <= r < |s.receivers| && Live(s.receivers[r]) ==>
                               |s.log| < s.receivers[r].held + |s.cells|
    ensures Inv(s')
  {
    MemoryFrame(s, s');
    FlightFrame(s, s', t, pc);
    SafeFrame(s, s', t, pc);
    if HasReceiver(s) {
      ContentsFrame(s, s', t, pc);
    }
  }

  lemma TokenStays(s: State, t: nat, pc: SenderPc)
    requires TokenInv(s) && t < |s.senders| && TokenId(pc) == TokenId(s.senders[t])
    ensures TokenInv(Put(s, t, pc))
  {
  }

  /** A sender moves between points that hold the same token and flight. */
  lemma LocalMove(s: State, t: nat, pc: SenderPc)
    requires Inv(s) && t < |s.senders| && OpFits(pc)
    requires TokenId(pc) == TokenId(s.senders[t]) && FlightId(pc) == FlightId(s.senders[t])
    requires SawSafe(pc) ==> SawSafe(s.senders[t])
    requires !pc.Storing?
    ensures Inv(Put(s, t, pc))
  {
    TokenStays(s, t, pc);
    QuietMove(s, Put(s, t, pc), t, pc);
  }

  lemma NewSenderContents(s: State)
    requires Shape(s) && ContentsInv(s)
    ensures Shape(s.(senders := s.senders + [SenderIdle(NotCalled)]))
            && ContentsInv(s.(senders := s.senders + [SenderIdle(NotCalled)]))
  {
  }

  lemma NewSenderToken(s: State)
    requires TokenInv(s) && SafeInv(s) && FlightInv(s)
    ensures var s' := s.(senders := s.senders + [SenderIdle(NotCalled)]);
            TokenInv(s') && SafeInv(s') && FlightInv(s')
  {
  }

  lemma NewSenderInv(s: State)
    requires Inv(s)
    ensures Inv(s.(senders := s.senders + [SenderIdle(NotCalled)]))
  {
    var s' := s.(senders := s.senders + [SenderIdle(NotCalled)]);
    MemoryFrame(s, s');
    NewSenderToken(s);
    if HasReceiver(s) {
      NewSenderContents(s);
    }
  }

  lemma TakeToken(s: State, t: nat)
    requires TokenInv(s) && t < |s.senders| && s.senders[t].Taking? && s.writeHead != TAKEN
    ensures TokenInv(Take(s, t))
  {
  }

  lemma TakeInv(s: State, t: nat)
    requires Inv(s) && t < |s.senders| && s.senders[t].Taking?
    ensures Inv(Take(s, t))
  {
    var s' := Take(s, t);
    if s.writeHead == TAKEN {
      LocalMove(s, t, s'.senders[t]);
    } else {
      TakeToken(s, t);
      QuietMove(s, s', t, s'.senders[t]);
    }
  }

  /** A zero counter on the cell of the next id: no live receiver is on that cell, so none
      sits at the far end of the window. */
  lemma ZeroMeansSafe(s: State, r: nat)
    requires Inv(s) && r < |s.receivers| && Live(s.receivers[r])
    requires CellOf(s, |s.log|).readCounter == 0
    ensures |s.log| < s.receivers[r].held + |s.cells|
  {
    var n := |s.cells|;
    var i := Slot(|s.log|, n);
    SumCovers(s.receivers, r, UnitsOn(i, n));
    assert Units(s.receivers[r], i, n) == 0;
  }

  lemma SawZeroInv(s: State, t: nat, pc: SenderPc)
    requires Inv(s) && t < |s.senders| && OpFits(pc) && SawSafe(pc)
    requires TokenId(s.senders[t]).Some? && TokenId(pc) == TokenId(s.senders[t])
    requires CellOf(s, TokenId(pc).value).readCounter == 0
    ensures Inv(Put(s, t, pc))
  {
    forall r | 0 <= r < |s.receivers| && Live(s.receivers[r])
      ensures |s.log| < s.receivers[r].held + |s.cells|
    {
      ZeroMeansSafe(s, r);
    }
    TokenStays(s, t, pc);
    QuietMove(s, Put(s, t, pc), t, pc);
  }

  lemma LookAtCounterInv(s: State, t: nat)
    requires Inv(s) && t < |s.senders| && s.senders[t].Looking?
    ensures Inv(LookAtCounter(s, t))
  {
    var pc := LookAtCounter(s, t).senders[t];
    if CellOf(s, s.senders[t].id).readCounter == 0 {
      SawZeroInv(s, t, pc);
    } else {
      LocalMove(s, t, pc);
    }
  }

  lemma WaitForCounterInv(s: State, t: nat)
    requires Inv(s) && t < |s.senders| && s.senders[t].Waiting?
    ensures Inv(WaitForCounter(s, t))
  {
    if CellOf(s, s.senders[t].id).readCounter == 0 {
      SawZeroInv(s, t, WaitForCounter(s, t).senders[t]);
    }
  }

  lemma PollAgainInv(s: State, t: nat)
    requires Inv(s) && t < |s.senders| && s.senders[t].Polling?
    ensures Inv(PollAgain(s, t))
  {
    LocalMove(s, t, PollAgain(s, t).senders[t]);
  }

  lemma ReleaseToken(s: State, s': State, t: nat, pc: SenderPc)
    requires TokenInv(s) && t < |s.senders| && TokenId(s.senders[t]).Some? && TokenId(pc).None?
    requires s'.senders == s.senders[t := pc]
    requires |s'.log| < TAKEN
    requires (s'.token == Abandoned && s'.writeHead == s.writeHead)
             || (s'.token == Free && s'.writeHead == |s'.log|)
    ensures TokenInv(s')
  {
  }

  lemma ConfirmInv(s: State, t: nat)
    requires Inv(s) && t < |s.senders| && s.senders[t].Confirming?
    ensures Inv(Confirm(s, t))
  {
    var s' := Confirm(s, t);
    if s.numReceivers != 0 {
      LocalMove(s, t, s'.senders[t]);
    } else {
      ReleaseToken(s, s', t, s'.senders[t]);
      QuietMove(s, s', t, s'.senders[t]);
    }
  }

  lemma RollBackInv(s: State, t: nat)
    requires Inv(s) && t < |s.senders| && s.senders[t].RollingBack?
    ensures Inv(RollBack(s, t))
  {
    var s' := RollBack(s, t);
    assert TokenId(s.senders[t]) == Some(|s.log|);
    ReleaseToken(s, s', t, s'.senders[t]);
    QuietMove(s, s', t, s'.senders[t]);
  }

  lemma GrantFlight(s: State, t: nat)
    requires Shape(s) && FlightInv(s) && t < |s.senders| && s.senders[t].Restoring? && s.senders[t].id == |s.log|
    ensures FlightInv(RestoreNext(s, t))
  {
    var s' := RestoreNext(s, t);
    assert s'.log[|s.log|] == Entry(t, None);
    forall id | 1 <= id < |s'.log| && s'.log[id].value.None?
      ensures s'.log[id].author < |s'.senders| && FlightId(s'.senders[s'.log[id].author]) == Some(id)
    {
      if id < |s.log| {
        assert s'.log[id] == s.log[id];
      }
    }
  }

  lemma GrantReceivers(s: State, t: nat)
    requires Inv(s) && t < |s.senders| && s.senders[t].Restoring? && s.senders[t].id + 1 < TAKEN
    ensures Shape(RestoreNext(s, t)) && ReceiversInv(RestoreNext(s, t)) && Grows(s.log, RestoreNext(s, t).log)
  {
    var s' := RestoreNext(s, t);
    forall r | 0 <= r < |s.receivers|
      ensures FieldsFit(s'.receivers[r], |s'.cells|)
      ensures InWindow(s'.receivers[r], s'.log, |s'.cells|) && Delivered(s'.receivers[r], s'.log)
    {
      assert SawSafe(s.senders[t]);
      LogGrowthKeepsReceiver(s.receivers[r], s.log, s'.log, |s.cells|);
    }
  }

  lemma GrantContents(s: State, t: nat)
    requires Shape(s) && ContentsInv(s) && t < |s.senders| && s.senders[t].Restoring?
    requires s.senders[t].id + 1 < TAKEN && s.senders[t].id == |s.log|
    ensures Shape(RestoreNext(s, t)) && ContentsInv(RestoreNext(s, t))
  {
    var s' := RestoreNext(s, t);
    forall id | 1 <= id < |s'.log| <= id + |s.cells| && s'.log[id].value.Some?
      ensures CellOf(s', id).currentId == id && CellOf(s', id).value == s'.log[id].value
    {
      assert id < |s.log| && s'.log[id] == s.log[id];
    }
  }

  lemma GrantCells(s: State, t: nat)
    requires Shape(s) && CellIdsInv(s) && CountersInv(s) && t < |s.senders| && s.senders[t].Restoring?
    requires Shape(RestoreNext(s, t))
    ensures CellIdsInv(RestoreNext(s, t)) && CountersInv(RestoreNext(s, t))
  {
  }

  /** Granting the next id slides the window by one; nobody sits on the id that leaves it. */
  lemma RestoreNextInv(s: State, t: nat)
    requires Inv(s) && t < |s.senders| && s.senders[t].Restoring? && s.senders[t].id + 1 < TAKEN
    ensures Inv(RestoreNext(s, t))
  {
    var s' := RestoreNext(s, t);
    assert TokenId(s.senders[t]) == Some(|s.log|);
    GrantFlight(s, t);
    GrantReceivers(s, t);
    GrantCells(s, t);
    ReleaseToken(s, s', t, s'.senders[t]);
    assert SafeInv(s') by {
      forall u | 0 <= u < |s'.senders|
        ensures !SawSafe(s'.senders[u])
      {
        assert u != t ==> TokenId(s.senders[u]).None?;
      }
    }
    assert HasReceiver(s') <==> HasReceiver(s);
    if HasReceiver(s) {
      GrantContents(s, t);
    }
  }

  lemma NotifyHeadInv(s: State, t: nat)
    requires Inv(s) && t < |s.senders| && s.senders[t].NotifyingHead?
    ensures Inv(NotifyHead(s, t))
  {
    LocalMove(s, t, NotifyHead(s, t).senders[t]);
  }

  /** With a live receiver every id in flight is one of the last n granted, and lies beyond
      everything that any receiver has moved to or scanned. */
  lemma FlightInWindow(s: State, t: nat)
    requires Inv(s) && HasReceiver(s) && t < |s.senders| && FlightId(s.senders[t]).Some?
    ensures var id := FlightId(s.senders[t]).value;
            && id < |s.log| < id + |s.cells|
            && forall r :: 0 <= r < |s.receivers| && Live(s.receivers[r]) ==> Reach(s.receivers[r]) < id
  {
    var id := FlightId(s.senders[t]).value;
    forall r | 0 <= r < |s.receivers| && Live(s.receivers[r])
      ensures s.receivers[r].held <= Reach(s.receivers[r]) < id
    {
      assert InWindow(s.receivers[r], s.log, |s.cells|) && FieldsFit(s.receivers[r], |s.cells|);
    }
    var r :| 0 <= r < |s.receivers| && Live(s.receivers[r]);
    assert InWindow(s.receivers[r], s.log, |s.cells|);
  }

  /** So two ids in flight never share a cell. */
  lemma FlightsApart(s: State, t: nat, u: nat)
    requires Inv(s) && HasReceiver(s) && t < |s.senders| && u < |s.senders| && t != u
    requires FlightId(s.senders[t]).Some? && FlightId(s.senders[u]).Some?
    ensures Slot(FlightId(s.senders[t]).value, |s.cells|) != Slot(FlightId(s.senders[u]).value, |s.cells|)
  {
    FlightInWindow(s, t);
    FlightInWindow(s, u);
    var a, b := FlightId(s.senders[t]).value, FlightId(s.senders[u]).value;
    assert s.log[a].author == t && s.log[b].author == u;
    if Slot(a, |s.cells|) == Slot(b, |s.cells|) {
      SameSlotFar(a, b, |s.cells|);
    }
  }

  /** And none shares a cell with a published id of the window. */
  lemma FlightAvoidsPublished(s: State, t: nat, id: nat)
    requires Inv(s) && HasReceiver(s) && t < |s.senders| && FlightId(s.senders[t]).Some?
    requires 1 <= id < |s.log| <= id + |s.cells| && s.log[id].value.Some?
    ensures Slot(FlightId(s.senders[t]).value, |s.cells|) != Slot(id, |s.cells|)
  {
    FlightInWindow(s, t);
    var g := FlightId(s.senders[t]).value;
    if Slot(g, |s.cells|) == Slot(id, |s.cells|) {
      SameSlotFar(g, id, |s.cells|);
    }
  }

  /** What follows from the cells' counters and ids alone. */
  lemma SumsAgree(s: State, s': State)
    requires Shape(s) && CountersInv(s)
    requires Shape(s') && |s'.cells| == |s.cells| && s'.receivers == s.receivers
    requires s'.numReceivers == s.numReceivers
    requires forall i :: 0 <= i < |s.cells| ==> s'.cells[i].readCounter == s.cells[i].readCounter
    ensures CountersInv(s')
  {
  }

  /** The flight of t shares its cell with no published id of the last n and no other flight. */
  ghost predicate FlightClear(s: State, t: nat)
    requires Shape(s) && t < |s.senders| && FlightId(s.senders[t]).Some?
  {
    var i := Slot(FlightId(s.senders[t]).value, |s.cells|);
    && (forall id :: 1 <= id < |s.log| <= id + |s.cells| && s.log[id].value.Some? ==> Slot(id, |s.cells|) != i)
    && (forall u :: 0 <= u < |s.senders| && u != t && FlightId(s.senders[u]).Some? ==>
          Slot(FlightId(s.senders[u]).value, |s.cells|) != i)
  }

  lemma LiveFlightClear(s: State, t: nat)
    requires Inv(s) && HasReceiver(s) && t < |s.senders| && FlightId(s.senders[t]).Some?
    ensures FlightClear(s, t)
  {
    forall id | 1 <= id < |s.log| <= id + |s.cells| && s.log[id].value.Some?
      ensures Slot(id, |s.cells|) != Slot(FlightId(s.senders[t]).value, |s.cells|)
    {
      FlightAvoidsPublished(s, t, id);
    }
    forall u | 0 <= u < |s.senders| && u != t && FlightId(s.senders[u]).Some?
      ensures Slot(FlightId(s.senders[u]).value, |s.cells|) != Slot(FlightId(s.senders[t]).value, |s.cells|)
    {
      FlightsApart(s, t, u);
    }
  }

  lemma ReplaceContents(s: State, t: nat)
    requires Shape(s) && ContentsInv(s) && t < |s.senders| && s.senders[t].Writing? && FlightClear(s, t)
    ensures Shape(Replace(s, t)) && ContentsInv(Replace(s, t))
  {
    var s' := Replace(s, t);
    forall id | 1 <= id < |s.log| <= id + |s.cells| && s.log[id].value.Some?
      ensures CellOf(s', id).currentId == id && CellOf(s', id).value == s.log[id].value
    {
      assert CellOf(s, id).currentId == id;
    }
    forall u | 0 <= u < |s'.senders| && s'.senders[u].Storing?
      ensures CellOf(s', s'.senders[u].id).value == Some(s'.senders[u].value)
    {
      if u != t {
        assert FlightId(s.senders[u]) == Some(s.senders[u].id);
      }
    }
  }

  lemma ReplaceFrame(s: State, t: nat)
    requires Shape(s) && CellIdsInv(s) && ReceiversInv(s) && TokenInv(s) && t < |s.senders| && s.senders[t].Writing?
    ensures Shape(Replace(s, t)) && CellIdsInv(Replace(s, t)) && ReceiversInv(Replace(s, t)) && TokenInv(Replace(s, t))
    ensures HasReceiver(Replace(s, t)) <==> HasReceiver(s)
  {
  }

  lemma WriterFrame(s: State, s': State, t: nat, pc: SenderPc)
    requires SafeInv(s) && OpsInv(s) && t < |s.senders| && s'.senders == s.senders[t := pc]
    requires |s'.log| == |s.log| && |s'.cells| == |s.cells| && s'.receivers == s.receivers
    requires !SawSafe(pc) && OpFits(pc)
    ensures SafeInv(s') && OpsInv(s')
  {
  }

  lemma ReplaceInv(s: State, t: nat)
    requires Inv(s) && t < |s.senders| && s.senders[t].Writing?
    ensures Inv(Replace(s, t))
  {
    var s' := Replace(s, t);
    ReplaceFrame(s, t);
    SumsAgree(s, s');
    FlightFrame(s, s', t, s'.senders[t]);
    WriterFrame(s, s', t, s'.senders[t]);
    if HasReceiver(s) {
      LiveFlightClear(s, t);
      ReplaceContents(s, t);
    }
  }

  lemma StoreContents(s: State, t: nat)
    requires Shape(s) && ContentsInv(s) && t < |s.senders| && s.senders[t].Storing? && FlightClear(s, t)
    requires Shape(StoreId(s, t)) && s.senders[t].id < |s.log|
    ensures ContentsInv(StoreId(s, t))
  {
    var s' := StoreId(s, t);
    var g := s.senders[t].id;
    forall id | 1 <= id < |s'.log| <= id + |s.cells| && s'.log[id].value.Some?
      ensures CellOf(s', id).currentId == id && CellOf(s', id).value == s'.log[id].value
    {
      if id != g {
        assert s'.log[id] == s.log[id];
        assert CellOf(s, id).currentId == id;
      }
    }
    forall u | 0 <= u < |s'.senders| && s'.senders[u].Storing?
      ensures CellOf(s', s'.senders[u].id).value == Some(s'.senders[u].value)
    {
      assert CellOf(s', s'.senders[u].id).value == CellOf(s, s.senders[u].id).value;
    }
  }

  lemma StoreReceivers(s: State, t: nat)
    requires Shape(s) && ReceiversInv(s) && t < |s.senders| && s.senders[t].Storing?
    requires 1 <= s.senders[t].id < |s.log| && s.log[s.senders[t].id].value.None?
    ensures var s' := StoreId(s, t); Shape(s') && Grows(s.log, s'.log) && ReceiversInv(s')
  {
    var s' := StoreId(s, t);
    forall r | 0 <= r < |s.receivers|
      ensures FieldsFit(s'.receivers[r], |s'.cells|)
      ensures InWindow(s'.receivers[r], s'.log, |s'.cells|) && Delivered(s'.receivers[r], s'.log)
    {
      LogGrowthKeepsReceiver(s.receivers[r], s.log, s'.log, |s.cells|);
    }
  }

  lemma StoreLog(s: State, t: nat)
    requires Shape(s) && FlightInv(s) && CellIdsInv(s) && TokenInv(s) && t < |s.senders| && s.senders[t].Storing?
    requires Shape(StoreId(s, t))
    ensures FlightInv(StoreId(s, t)) && CellIdsInv(StoreId(s, t)) && TokenInv(StoreId(s, t))
  {
    assert FlightId(s.senders[t]) == Some(s.senders[t].id);
  }

  /** Publishing fills the log entry; the cell then holds the id with its own value. */
  lemma StoreIdInv(s: State, t: nat)
    requires Inv(s) && t < |s.senders| && s.senders[t].Storing?
    ensures Inv(StoreId(s, t))
  {
    var s' := StoreId(s, t);
    assert FlightId(s.senders[t]) == Some(s.senders[t].id);
    StoreReceivers(s, t);
    StoreLog(s, t);
    SumsAgree(s, s');
    WriterFrame(s, s', t, s'.senders[t]);
    assert HasReceiver(s') <==> HasReceiver(s);
    if HasReceiver(s) {
      LiveFlightClear(s, t);
      StoreContents(s, t);
    }
  }

  lemma AdvanceInv(s: State, t: nat)
    requires Inv(s) && Enabled(s, Advance(t))
    ensures Inv(AdvanceSender(s, t))
  {
    match s.senders[t]
    case Checking(_) => LocalMove(s, t, CheckReceivers(s, t).senders[t]);
    case Taking(_) => TakeInv(s, t);
    case Looking(_, _) => LookAtCounterInv(s, t);
    case Waiting(_, _) => WaitForCounterInv(s, t);
    case Polling(_) => PollAgainInv(s, t);
    case Confirming(_, _) => ConfirmInv(s, t);
    case Restoring(_, _) => RestoreNextInv(s, t);
    case RollingBack(_, _) => RollBackInv(s, t);
    case NotifyingHead(_, _) => NotifyHeadInv(s, t);
    case Writing(_, _) => ReplaceInv(s, t);
    case Storing(_, _) => StoreIdInv(s, t);
    case NotifyingCell(_) => LocalMove(s, t, SenderIdle(Sent));
  }
}
