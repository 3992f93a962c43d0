/** Every step of a receiver keeps the invariant. */
module ReceiverSteps {
  import opened Prelude
  import opened Sums
  import opened Protocol
  import opened Invariant

  /** A receiver changes neither what senders own nor what was published. */
  ghost predicate SameWrites(s: State, s': State) {
    && s'.senders == s.senders && s'.writeHead == s.writeHead && s'.token == s.token && s'.log == s.log
    && |s'.cells| == |s.cells|
    && forall i :: 0 <= i < |s.cells| ==>
         s'.cells[i].value == s.cells[i].value && s'.cells[i].currentId == s.cells[i].currentId
  }

  lemma WritesFrame(s: State, s': State)
    requires Shape(s) && TokenInv(s) && OpsInv(s) && FlightInv(s) && CellIdsInv(s) && SameWrites(s, s')
    ensures Shape(s') && TokenInv(s') && OpsInv(s') && FlightInv(s') && CellIdsInv(s')
  {
  }

  lemma ContentsFrame(s: State, s': State)
    requires Shape(s) && ContentsInv(s) && Shape(s') && SameWrites(s, s')
    ensures ContentsInv(s')
  {
    forall id | 1 <= id < |s'.log| <= id + |s'.cells| && s'.log[id].value.Some?
      ensures CellOf(s', id).currentId == id && CellOf(s', id).value == s'.log[id].value
    {
      assert CellOf(s, id).currentId == id;
    }
  }

  /** One receiver becomes x; the counters follow it. */
  ghost predicate CountersFollow(s: State, s': State, r: nat, x: Receiver)
    requires Shape(s) && |s'.cells| == |s.cells| && r < |s.receivers|
  {
    var n := |s.cells|;
    && s'.numReceivers + Registered(s.receivers[r]) == s.numReceivers + Registered(x)
    && forall i :: 0 <= i < n ==>
         s'.cells[i].readCounter + Units(s.receivers[r], i, n) == s.cells[i].readCounter + Units(x, i, n)
  }

  lemma CountersMove(s: State, s': State, r: nat, x: Receiver)
    requires Shape(s) && CountersInv(s) && Shape(s') && |s'.cells| == |s.cells|
    requires r < |s.receivers| && s'.receivers == s.receivers[r := x]
    requires CountersFollow(s, s', r, x)
    ensures CountersInv(s')
  {
    var n := |s.cells|;
    SumUpdate(s.receivers, r, x, Registered);
    forall i | 0 <= i < n
      ensures s'.cells[i].readCounter == Sum(s'.receivers, UnitsOn(i, n))
    {
      SumUpdate(s.receivers, r, x, UnitsOn(i, n));
    }
  }

  /** A live receiver stays where it is or moves on; it never moves back. */
  predicate MovesOn(x: Receiver, y: Receiver) {
    Live(y) ==> Live(x) && x.held <= y.held
  }

  lemma ReceiverMove(s: State, s': State, r: nat, x: Receiver)
    requires Inv(s) && SameWrites(s, s')
    requires r < |s.receivers| && s'.receivers == s.receivers[r := x]
    requires Fits(x, s.log, |s.cells|)
    requires MovesOn(s.receivers[r], x) && CountersFollow(s, s', r, x)
    ensures Inv(s')
  {
    WritesFrame(s, s');
    CountersMove(s, s', r, x);
    assert ReceiversInv(s');
    assert SafeInv(s');
    if HasReceiver(s') {
      var q :| 0 <= q < |s'.receivers| && Live(s'.receivers[q]);
      assert Live(s.receivers[q]);
      ContentsFrame(s, s');
    }
  }

  /** What the invariant says of one receiver. */
  lemma AboutReceiver(s: State, r: nat)
    requires Inv(s) && r < |s.receivers|
    ensures Fits(s.receivers[r], s.log, |s.cells|)
  {
  }

  /** A move that leaves the receiver counted on the same single cell. */
  lemma PcMove(s: State, r: nat, x: Receiver)
    requires Inv(s) && r < |s.receivers| && Fits(x, s.log, |s.cells|)
    requires var y := s.receivers[r];
             && x.held == y.held && Live(x) && Live(y)
             && !x.pc.OnBoth? && !y.pc.OnBoth? && !x.pc.Cloning? && !y.pc.Cloning? && !x.pc.Dropping? && !y.pc.Dropping?
    ensures Inv(PutR(s, r, x))
  {
    ReceiverMove(s, PutR(s, r, x), r, x);
  }

  /** A receiver is counted on the cell its field `previous` names. */
  lemma CountedOnPrevious(s: State, r: nat)
    requires Inv(s) && r < |s.receivers| && Live(s.receivers[r]) && !s.receivers[r].pc.Leaving?
    ensures s.receivers[r].previous == Slot(s.receivers[r].held, |s.cells|)
    ensures s.cells[s.receivers[r].previous].readCounter >= 1
  {
    var n, x := |s.cells|, s.receivers[r];
    AboutReceiver(s, r);
    SumCovers(s.receivers, r, UnitsOn(x.previous, n));
  }

  /** A cell whose id equals a receiver's next id holds a published id of the window. */
  lemma SeenIsPublished(s: State, id: nat)
    requires Shape(s) && CellIdsInv(s) && CellOf(s, id).currentId == id && id <= |s.log|
    ensures 1 <= id < |s.log| && s.log[id].value.Some?
  {
    assert s.cells[Slot(id, |s.cells|)].currentId == id;
  }

  lemma ReadFits(x: Receiver, log: seq<Entry>, n: nat, v: Value)
    requires n > 0 && Fits(x, log, n) && x.pc.Reading? && log[x.held].value == Some(v)
    ensures Fits(x.(got := x.got + [v], pc := ReceiverIdle), log, n)
  {
  }

  lemma CopyFits(x: Receiver, log: seq<Entry>, n: nat, v: Value)
    requires n > 0 && Fits(x, log, n) && x.pc.Copying? && log[x.cursor + x.pc.k].value == Some(v)
    ensures Fits(x.(got := x.got + [v], pc := Scanning(x.pc.max, x.pc.k + 1)), log, n)
  {
  }

  lemma ScanFits(x: Receiver, log: seq<Entry>, n: nat)
    requires n > 0 && Fits(x, log, n) && x.pc.Scanning?
    ensures x.pc.k < x.pc.max && x.cursor + x.pc.k < |log| && log[x.cursor + x.pc.k].value.Some? ==>
              Fits(x.(pc := Copying(x.pc.max, x.pc.k)), log, n)
    ensures x.pc.k == 0 ==> Fits(x.(pc := ReceiverIdle), log, n)
    ensures x.pc.k > 0 ==> Fits(x.(cursor := x.cursor + x.pc.k, pc := Moving(x.cursor + x.pc.k - 1, Batch)), log, n)
  {
  }

  lemma MoveFits(x: Receiver, log: seq<Entry>, n: nat)
    requires n > 0 && Fits(x, log, n) && (x.pc.Moving? || x.pc.OnBoth?)
    ensures Fits(x.(pc := OnBoth(x.pc.to, x.pc.mode)), log, n)
    ensures Fits(x.(held := x.pc.to, pc := Leaving(x.pc.mode)), log, n)
    ensures Fits(Arrived(x.(held := x.pc.to), x.pc.mode, n), log, n)
  {
  }

  lemma LookResultFits(s: State, r: nat)
    requires Shape(s) && CellIdsInv(s) && r < |s.receivers| && s.receivers[r].pc.ReceiverIdle?
    requires Fits(s.receivers[r], s.log, |s.cells|)
    ensures Fits(LookForNext(s, r).receivers[r], s.log, |s.cells|)
  {
    var x := s.receivers[r];
    if CellOf(s, x.cursor).currentId == x.cursor {
      SeenIsPublished(s, x.cursor);
    }
  }

  lemma LookInv(s: State, r: nat)
    requires Inv(s) && r < |s.receivers| && s.receivers[r].pc.ReceiverIdle?
    ensures Inv(LookForNext(s, r))
  {
    var y := LookForNext(s, r).receivers[r];
    LookResultFits(s, r);
    assert LookForNext(s, r) == PutR(s, r, y);
    PcMove(s, r, y);
  }

  lemma MoveToInv(s: State, r: nat)
    requires Inv(s) && r < |s.receivers| && s.receivers[r].pc.Moving?
    ensures Inv(MoveTo(s, r))
  {
    AboutReceiver(s, r);
    MoveFits(s.receivers[r], s.log, |s.cells|);
    ReceiverMove(s, MoveTo(s, r), r, MoveTo(s, r).receivers[r]);
  }

  lemma MoveFromInv(s: State, r: nat)
    requires Inv(s) && r < |s.receivers| && s.receivers[r].pc.OnBoth?
    ensures Inv(MoveFrom(s, r))
  {
    AboutReceiver(s, r);
    CountedOnPrevious(s, r);
    var s' := MoveFrom(s, r);
    var x, y := s.receivers[r], s'.receivers[r];
    MoveFits(x, s.log, |s.cells|);
    ReceiverMove(s, s', r, y);
  }

  lemma NotifyLeftInv(s: State, r: nat)
    requires Inv(s) && r < |s.receivers| && s.receivers[r].pc.Leaving?
    ensures Inv(NotifyLeft(s, r))
  {
    AboutReceiver(s, r);
    PcMove(s, r, NotifyLeft(s, r).receivers[r]);
  }

  /** The cell of a published id of the window holds its value. */
  lemma WindowValue(s: State, r: nat, id: nat)
    requires Inv(s) && r < |s.receivers| && Live(s.receivers[r])
    requires s.receivers[r].held <= id <= Reach(s.receivers[r]) && id >= 1
    ensures id < |s.log| && s.log[id].value.Some? && CellOf(s, id).value == s.log[id].value
  {
    AboutReceiver(s, r);
    assert HasReceiver(s);
    assert s.log[id].value.Some?;
  }

  lemma ReadInv(s: State, r: nat)
    requires Inv(s) && r < |s.receivers| && s.receivers[r].pc.Reading?
    ensures Inv(Read(s, r))
  {
    var x, y := s.receivers[r], Read(s, r).receivers[r];
    AboutReceiver(s, r);
    WindowValue(s, r, x.held);
    ReadFits(x, s.log, |s.cells|, s.log[x.held].value.value);
    PcMove(s, r, y);
  }

  lemma StartBatchInv(s: State, r: nat, max: nat)
    requires Inv(s) && r < |s.receivers| && s.receivers[r].pc.ReceiverIdle?
    ensures Inv(StartBatch(s, r, max))
  {
    AboutReceiver(s, r);
    if max != 0 {
      PcMove(s, r, StartBatch(s, r, max).receivers[r]);
    }
  }

  lemma ScanResultFits(s: State, r: nat)
    requires Shape(s) && CellIdsInv(s) && r < |s.receivers| && s.receivers[r].pc.Scanning?
    requires Fits(s.receivers[r], s.log, |s.cells|)
    ensures Fits(Scan(s, r).receivers[r], s.log, |s.cells|)
  {
    var x := s.receivers[r];
    var id := x.cursor + x.pc.k;
    ScanFits(x, s.log, |s.cells|);
    if x.pc.k < x.pc.max && CellOf(s, id).currentId == id {
      SeenIsPublished(s, id);
    }
  }

  lemma ScanInv(s: State, r: nat)
    requires Inv(s) && r < |s.receivers| && s.receivers[r].pc.Scanning?
    ensures Inv(Scan(s, r))
  {
    var y := Scan(s, r).receivers[r];
    ScanResultFits(s, r);
    assert Scan(s, r) == PutR(s, r, y);
    PcMove(s, r, y);
  }

  lemma CopyInv(s: State, r: nat)
    requires Inv(s) && r < |s.receivers| && s.receivers[r].pc.Copying?
    ensures Inv(Copy(s, r))
  {
    var x, y := s.receivers[r], Copy(s, r).receivers[r];
    AboutReceiver(s, r);
    WindowValue(s, r, x.cursor + x.pc.k);
    CopyFits(x, s.log, |s.cells|, s.log[x.cursor + x.pc.k].value.value);
    assert Copy(s, r) == PutR(s, r, y);
    PcMove(s, r, y);
  }

  lemma CountCloneInv(s: State, r: nat)
    requires Inv(s) && r < |s.receivers| && s.receivers[r].pc.ReceiverIdle?
    ensures Inv(CountClone(s, r))
  {
    AboutReceiver(s, r);
    ReceiverMove(s, CountClone(s, r), r, CountClone(s, r).receivers[r]);
  }

  lemma CloneCounters(s: State, r: nat)
    requires Inv(s) && r < |s.receivers| && s.receivers[r].pc.Cloning?
    ensures Shape(FinishClone(s, r)) && CountersInv(FinishClone(s, r))
  {
    var s' := FinishClone(s, r);
    var n, x := |s.cells|, s.receivers[r].(pc := ReceiverIdle);
    var child := x.(start := x.cursor, got := []);
    var mid := s.receivers[r := x];
    SumUpdate(s.receivers, r, x, Registered);
    SumAppend(mid, child, Registered);
    forall i | 0 <= i < n
      ensures s'.cells[i].readCounter == Sum(s'.receivers, UnitsOn(i, n))
    {
      SumUpdate(s.receivers, r, x, UnitsOn(i, n));
      SumAppend(mid, child, UnitsOn(i, n));
    }
  }

  lemma CloneReceivers(s: State, r: nat)
    requires Shape(s) && ReceiversInv(s) && SafeInv(s) && r < |s.receivers| && s.receivers[r].pc.Cloning?
    requires Shape(FinishClone(s, r))
    ensures ReceiversInv(FinishClone(s, r)) && SafeInv(FinishClone(s, r))
  {
    var s' := FinishClone(s, r);
    var x := s.receivers[r];
    forall q | 0 <= q < |s'.receivers|
      ensures Fits(s'.receivers[q], s.log, |s.cells|)
      ensures Live(s'.receivers[q]) ==> exists p :: 0 <= p < |s.receivers| && Live(s.receivers[p])
                                                    && s.receivers[p].held == s'.receivers[q].held
    {
      var p := if q < |s.receivers| then q else r;
      assert Fits(s.receivers[p], s.log, |s.cells|);
      assert s.receivers[p].held == s'.receivers[q].held;
    }
  }

  /** A clone starts where its parent stands, counted on the same cell. */
  lemma FinishCloneInv(s: State, r: nat)
    requires Inv(s) && r < |s.receivers| && s.receivers[r].pc.Cloning?
    ensures Inv(FinishClone(s, r))
  {
    var s' := FinishClone(s, r);
    CloneCounters(s, r);
    WritesFrame(s, s');
    CloneReceivers(s, r);
    assert Live(s.receivers[r]);
    ContentsFrame(s, s');
  }

  lemma CountedInTotal(s: State, r: nat)
    requires Inv(s) && r < |s.receivers| && Registered(s.receivers[r]) == 1
    ensures s.numReceivers >= 1
  {
    SumCovers(s.receivers, r, Registered);
  }

  lemma StartDropInv(s: State, r: nat)
    requires Inv(s) && r < |s.receivers| && s.receivers[r].pc.ReceiverIdle?
    ensures Inv(StartDrop(s, r))
  {
    AboutReceiver(s, r);
    CountedInTotal(s, r);
    ReceiverMove(s, StartDrop(s, r), r, StartDrop(s, r).receivers[r]);
  }

  lemma DropLeaveInv(s: State, r: nat)
    requires Inv(s) && r < |s.receivers| && s.receivers[r].pc.Dropping?
    ensures Inv(DropLeave(s, r))
  {
    AboutReceiver(s, r);
    CountedOnPrevious(s, r);
    ReceiverMove(s, DropLeave(s, r), r, DropLeave(s, r).receivers[r]);
  }

  lemma FinishDropInv(s: State, r: nat)
    requires Inv(s) && r < |s.receivers| && s.receivers[r].pc.DropNotifying?
    ensures Inv(PutR(s, r, s.receivers[r].(pc := Gone)))
  {
    AboutReceiver(s, r);
    var x := s.receivers[r].(pc := Gone);
    ReceiverMove(s, PutR(s, r, x), r, x);
  }

  lemma ContinueInv(s: State, r: nat)
    requires Inv(s) && Enabled(s, Continue(r))
    ensures Inv(ContinueReceiver(s, r))
  {
    match s.receivers[r].pc
    case Moving(_, _) => MoveToInv(s, r);
    case OnBoth(_, _) => MoveFromInv(s, r);
    case Leaving(_) => NotifyLeftInv(s, r);
    case Reading => ReadInv(s, r);
    case Scanning(_, _) => ScanInv(s, r);
    case Copying(_, _) => CopyInv(s, r);
    case Cloning => FinishCloneInv(s, r);
    case Dropping => DropLeaveInv(s, r);
    case DropNotifying => FinishDropInv(s, r);
  }
}
