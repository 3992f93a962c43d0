/** What the invariant gives in every state that any interleaving reaches. */
module Safety {
  import opened Prelude
  import opened Sums
  import opened Protocol
  import opened Invariant
  import SenderSteps
  import ReceiverSteps

  /** Which thread a step belongs to. */
  datatype Thread = SenderThread(t: nat) | ReceiverThread(r: nat) | Nobody

  function Actor(step: Step): Thread {
    match step
    case NewSender => Nobody
    case Begin(t, _) => SenderThread(t)
    case Advance(t) => SenderThread(t)
    case GiveUp(t) => SenderThread(t)
    case Pend(t) => SenderThread(t)
    case Repoll(t) => SenderThread(t)
    case StartSend(t, _) => SenderThread(t)
    case Look(r) => ReceiverThread(r)
    case BeginBatch(r, _) => ReceiverThread(r)
    case BeginClone(r) => ReceiverThread(r)
    case BeginDrop(r) => ReceiverThread(r)
    case Continue(r) => ReceiverThread(r)
  }

  lemma AdvanceTouchesOwn(s: State, t: nat)
    requires Enabled(s, Advance(t))
    ensures var s' := AdvanceSender(s, t);
            && |s'.cells| == |s.cells| && s'.receivers == s.receivers
            && |s'.senders| == |s.senders| && s'.senders == s.senders[t := s'.senders[t]]
  {
  }

  lemma ContinueTouchesOwn(s: State, r: nat)
    requires Enabled(s, Continue(r))
    ensures var s' := ContinueReceiver(s, r);
            && |s'.cells| == |s.cells| && s'.senders == s.senders && |s.receivers| <= |s'.receivers|
            && forall q :: 0 <= q < |s.receivers| && q != r ==> s'.receivers[q] == s.receivers[q]
  {
  }

  /** Only the acting thread's own state changes; threads are only added. */
  lemma OthersUntouched(s: State, step: Step)
    requires Enabled(s, step)
    ensures var s' := Apply(s, step);
            && |s'.cells| == |s.cells|
            && |s.senders| <= |s'.senders| && |s.receivers| <= |s'.receivers|
            && (forall t :: 0 <= t < |s.senders| && Actor(step) != SenderThread(t) ==> s'.senders[t] == s.senders[t])
            && (forall r :: 0 <= r < |s.receivers| && Actor(step) != ReceiverThread(r) ==> s'.receivers[r] == s.receivers[r])
  {
    if step.Advance? {
      AdvanceTouchesOwn(s, step.t);
    } else if step.Continue? {
      ContinueTouchesOwn(s, step.r);
    }
  }

  /** The log changes only by a grant or a publication. */
  lemma LogEffect(s: State, step: Step)
    requires Enabled(s, step)
    ensures Apply(s, step).log ==
            if step.Advance? && s.senders[step.t].Restoring? then s.log + [Entry(step.t, None)]
            else if step.Advance? && s.senders[step.t].Storing? then StoreId(s, step.t).log
            else s.log
  {
  }

  /** A cell's id changes only by a publication. */
  lemma CellIdEffect(s: State, step: Step, i: nat)
    requires Enabled(s, step) && i < |s.cells|
    ensures i < |Apply(s, step).cells|
    ensures Apply(s, step).cells[i].currentId ==
            if step.Advance? && s.senders[step.t].Storing? && i == Slot(s.senders[step.t].id, |s.cells|)
            then s.senders[step.t].id else s.cells[i].currentId
  {
  }

  lemma {:induction false} StepInv(s: State, step: Step)
    requires Inv(s) && Enabled(s, step)
    ensures Inv(Apply(s, step))
  {
    match step
    case NewSender => SenderSteps.NewSenderInv(s);
    case Begin(t, op) => SenderSteps.LocalMove(s, t, FirstPc(op));
    case Advance(t) => SenderSteps.AdvanceInv(s, t);
    case GiveUp(t) => SenderSteps.LocalMove(s, t, Apply(s, step).senders[t]);
    case Pend(t) => SenderSteps.LocalMove(s, t, Apply(s, step).senders[t]);
    case Repoll(t) => SenderSteps.LocalMove(s, t, Apply(s, step).senders[t]);
    case StartSend(t, v) => SenderSteps.LocalMove(s, t, Writing(v, s.senders[t].id));
    case Look(r) => ReceiverSteps.LookInv(s, r);
    case BeginBatch(r, max) => ReceiverSteps.StartBatchInv(s, r, max);
    case BeginClone(r) => ReceiverSteps.CountCloneInv(s, r);
    case BeginDrop(r) => ReceiverSteps.StartDropInv(s, r);
    case Continue(r) => ReceiverSteps.ContinueInv(s, r);
  }

  lemma {:induction false} RunInv(s: State, steps: seq<Step>)
    requires Inv(s) && Legal(s, steps)
    ensures Inv(Execute(s, steps))
    decreases |steps|
  {
    if steps == [] {
    } else {
      StepInv(s, steps[0]);
      RunInv(Apply(s, steps[0]), steps[1..]);
    }
  }

  /** s is the end of some run of some channel. */
  ghost predicate Reachable(s: State) {
    |s.cells| > 0 && exists n: nat, steps: seq<Step> :: n > 0 && Legal(Init(n), steps) && s == Execute(Init(n), steps)
  }

  lemma RunReachable(s: State, steps: seq<Step>)
    requires Reachable(s) && Legal(s, steps)
    ensures Reachable(Execute(s, steps))
  {
    var n: nat, before: seq<Step> :| n > 0 && Legal(Init(n), before) && s == Execute(Init(n), before);
    ExecuteConcat(Init(n), before, steps);
    CellsKept(s, steps);
    assert Legal(Init(n), before + steps);
  }

  lemma StepReachable(s: State, step: Step)
    requires Reachable(s) && Enabled(s, step)
    ensures Reachable(Apply(s, step))
  {
    assert [step][1..] == [];
    assert Legal(Apply(s, step), []);
    assert Legal(s, [step]);
    assert Execute(s, [step]) == Apply(s, step);
    RunReachable(s, [step]);
  }

  lemma {:induction false} CellsKept(s: State, steps: seq<Step>)
    requires Legal(s, steps)
    ensures |Execute(s, steps).cells| == |s.cells|
    decreases |steps|
  {
    if steps == [] {
    } else {
      OthersUntouched(s, steps[0]);
      CellsKept(Apply(s, steps[0]), steps[1..]);
    }
  }

  lemma ReachableInv(s: State)
    requires Reachable(s)
    ensures Inv(s)
  {
    var n: nat, steps: seq<Step> :| n > 0 && Legal(Init(n), steps) && s == Execute(Init(n), steps);
    InitInv(n);
    RunInv(Init(n), steps);
  }

  /** Either the head holds the next id and nobody has the token, or the head is taken and
      at most one sender has it, with exactly the next id. */
  lemma TokenIsUnique(s: State)
    requires Reachable(s)
    ensures s.writeHead == |s.log| || s.writeHead == TAKEN
    ensures s.writeHead != TAKEN ==> forall t :: 0 <= t < |s.senders| ==> TokenId(s.senders[t]).None?
    ensures forall t, u :: 0 <= t < u < |s.senders| ==> TokenId(s.senders[t]).None? || TokenId(s.senders[u]).None?
    ensures forall t :: 0 <= t < |s.senders| && TokenId(s.senders[t]).Some? ==> TokenId(s.senders[t]) == Some(|s.log|)
  {
    ReachableInv(s);
  }

  /** Granted ids are 1, 2, 3, ...: a step either grants exactly the next id, to the sender
      that restores it, or grants nothing; and it never takes back or changes an entry. */
  lemma GrantsAreGapFree(s: State, step: Step)
    requires Reachable(s) && Enabled(s, step)
    ensures var s' := Apply(s, step);
            && Grows(s.log, s'.log)
            && if step.Advance? && s.senders[step.t].Restoring? then
                 s.senders[step.t].id == |s.log| && s'.log == s.log + [Entry(step.t, None)] && s'.writeHead == |s.log| + 1
               else
                 |s'.log| == |s.log|
  {
    ReachableInv(s);
    LogEffect(s, step);
    if step.Advance? && s.senders[step.t].Restoring? {
      assert TokenId(s.senders[step.t]) == Some(|s.log|);
    } else if step.Advance? && s.senders[step.t].Storing? {
      assert FlightId(s.senders[step.t]) == Some(s.senders[step.t].id);
    }
  }

  /** The ids that are granted along a run, in order. */
  function GrantedIn(s: State, steps: seq<Step>): seq<nat>
    requires Legal(s, steps)
    decreases |steps|
  {
    if steps == [] then []
    else
      var x := steps[0];
      (if x.Advance? && s.senders[x.t].Restoring? then [s.senders[x.t].id] else [])
      + GrantedIn(Apply(s, x), steps[1..])
  }

  /** Over any run the granted ids are consecutive, each granted once, rollbacks included;
      from the start of a channel they are 1, 2, 3, ... */
  lemma {:induction false} GrantsAreConsecutive(s: State, steps: seq<Step>)
    requires Reachable(s) && Legal(s, steps)
    ensures |Execute(s, steps).log| == |s.log| + |GrantedIn(s, steps)|
    ensures forall i :: 0 <= i < |GrantedIn(s, steps)| ==> GrantedIn(s, steps)[i] == |s.log| + i
    decreases |steps|
  {
    if steps == [] {
    } else {
      GrantsAreGapFree(s, steps[0]);
      StepReachable(s, steps[0]);
      GrantsAreConsecutive(Apply(s, steps[0]), steps[1..]);
    }
  }

  /** The window: a live receiver stands on one of the last n granted ids. */
  lemma WindowHolds(s: State, r: nat)
    requires Reachable(s) && r < |s.receivers| && Live(s.receivers[r])
    ensures |s.log| - |s.cells| <= s.receivers[r].held <= |s.log| - 1
  {
    ReachableInv(s);
    ReceiverSteps.AboutReceiver(s, r);
  }

  /** Every live receiver stands beyond id p. */
  ghost predicate AllBeyond(s: State, p: int) {
    forall r :: 0 <= r < |s.receivers| && Live(s.receivers[r]) ==> s.receivers[r].held > p
  }

  /** Every live receiver after a step stands no further back than some live one before. */
  lemma StandsOn(s: State, step: Step, q: nat) returns (p: nat)
    requires Enabled(s, step) && q < |Apply(s, step).receivers| && Live(Apply(s, step).receivers[q])
    requires forall r :: 0 <= r < |s.receivers| && s.receivers[r].pc.OnBoth? ==> s.receivers[r].held < s.receivers[r].pc.to
    ensures p < |s.receivers| && Live(s.receivers[p]) && s.receivers[p].held <= Apply(s, step).receivers[q].held
  {
    p := if q < |s.receivers| then q else step.r;
  }

  lemma BeyondStep(s: State, step: Step, p: int)
    requires Inv(s) && Enabled(s, step) && AllBeyond(s, p)
    ensures AllBeyond(Apply(s, step), p)
  {
    forall r | 0 <= r < |s.receivers| && s.receivers[r].pc.OnBoth?
      ensures s.receivers[r].held < s.receivers[r].pc.to
    {
      ReceiverSteps.AboutReceiver(s, r);
    }
    forall q | 0 <= q < |Apply(s, step).receivers| && Live(Apply(s, step).receivers[q])
      ensures Apply(s, step).receivers[q].held > p
    {
      var q' := StandsOn(s, step, q);
    }
  }

  lemma {:induction false} BeyondRun(s: State, steps: seq<Step>, p: int)
    requires Inv(s) && Legal(s, steps) && AllBeyond(s, p)
    ensures AllBeyond(Execute(s, steps), p)
    decreases |steps|
  {
    if steps == [] {
    } else {
      BeyondStep(s, steps[0], p);
      StepInv(s, steps[0]);
      BeyondRun(Apply(s, steps[0]), steps[1..], p);
    }
  }

  /** A zero counter on the next id's cell is final for that cell's old id: whatever happens
      next, no receiver is ever counted on an id so far back again. */
  lemma ZeroIsFinal(s: State, steps: seq<Step>)
    requires Reachable(s) && CellOf(s, |s.log|).readCounter == 0 && Legal(s, steps)
    ensures AllBeyond(Execute(s, steps), |s.log| - |s.cells|)
  {
    ReachableInv(s);
    forall r | 0 <= r < |s.receivers| && Live(s.receivers[r])
      ensures s.receivers[r].held > |s.log| - |s.cells|
    {
      SenderSteps.ZeroMeansSafe(s, r);
    }
    BeyondRun(s, steps, |s.log| - |s.cells|);
  }

  /** The cell a receiver is cloning a value out of. */
  function ReadsCell(x: Receiver, n: nat): Option<nat>
    requires n > 0
  {
    match x.pc
    case Reading => Some(Slot(x.held, n))
    case Copying(_, k) => Some(Slot(x.cursor + k, n))
    case _ => None
  }

  /** The cell a sender is about to write or has written without storing its id. */
  function WritesCell(pc: SenderPc, n: nat): Option<nat>
    requires n > 0
  {
    match pc
    case Writing(_, id) => Some(Slot(id, n))
    case Storing(_, id) => Some(Slot(id, n))
    case _ => None
  }

  /** No sender writes a cell that a receiver reads: not the cell recv has advanced to, nor
      one that try_recv_batch reads ahead of the cell it is counted on. */
  lemma NoReadWriteOverlap(s: State, r: nat, t: nat)
    requires Reachable(s) && r < |s.receivers| && t < |s.senders|
    requires ReadsCell(s.receivers[r], |s.cells|).Some? && WritesCell(s.senders[t], |s.cells|).Some?
    ensures ReadsCell(s.receivers[r], |s.cells|) != WritesCell(s.senders[t], |s.cells|)
  {
    ReachableInv(s);
    var n, x := |s.cells|, s.receivers[r];
    ReceiverSteps.AboutReceiver(s, r);
    assert Live(x);
    SenderSteps.FlightInWindow(s, t);
    var id := FlightId(s.senders[t]).value;
    var target := if x.pc.Reading? then x.held else x.cursor + x.pc.k;
    assert x.held <= target <= Reach(x) < id < x.held + n;
    SlotsApart(target, id, n);
  }

  /** While a receiver lives, the ids in flight lie strictly between its position and n
      beyond it, and no two of them target the same cell. */
  lemma WritersApart(s: State, r: nat)
    requires Reachable(s) && r < |s.receivers| && Live(s.receivers[r])
    ensures forall t :: 0 <= t < |s.senders| && FlightId(s.senders[t]).Some? ==>
              s.receivers[r].held < FlightId(s.senders[t]).value < s.receivers[r].held + |s.cells|
    ensures forall t, u :: 0 <= t < u < |s.senders| && FlightId(s.senders[t]).Some? && FlightId(s.senders[u]).Some? ==>
              Slot(FlightId(s.senders[t]).value, |s.cells|) != Slot(FlightId(s.senders[u]).value, |s.cells|)
  {
    ReachableInv(s);
    ReceiverSteps.AboutReceiver(s, r);
    forall t | 0 <= t < |s.senders| && FlightId(s.senders[t]).Some?
      ensures s.receivers[r].held < FlightId(s.senders[t]).value < s.receivers[r].held + |s.cells|
    {
      SenderSteps.FlightInWindow(s, t);
      assert s.receivers[r].held <= Reach(s.receivers[r]);
    }
    forall t, u | 0 <= t < u < |s.senders| && FlightId(s.senders[t]).Some? && FlightId(s.senders[u]).Some?
      ensures Slot(FlightId(s.senders[t]).value, |s.cells|) != Slot(FlightId(s.senders[u]).value, |s.cells|)
    {
      SenderSteps.FlightsApart(s, t, u);
    }
  }

  /** Whatever a live receiver has not consumed is intact in its cell, once published. */
  lemma UnreadIsIntact(s: State, r: nat, id: nat)
    requires Reachable(s) && r < |s.receivers| && Live(s.receivers[r])
    requires s.receivers[r].held < id < |s.log| && s.log[id].value.Some?
    ensures CellOf(s, id).currentId == id && CellOf(s, id).value == s.log[id].value
  {
    ReachableInv(s);
    ReceiverSteps.AboutReceiver(s, r);
    assert HasReceiver(s);
  }

  ghost predicate IsPublished(s: State, id: nat) {
    id < |s.log| && s.log[id].value.Some?
  }

  /** The cell at the cursor of a resting receiver shows exactly that id, if and only if the id
      is published; so a receiver that waits for its exact next id cannot miss it. */
  lemma PublishedIsSeen(s: State, r: nat)
    requires Reachable(s) && r < |s.receivers| && s.receivers[r].pc.ReceiverIdle?
    ensures IsPublished(s, s.receivers[r].cursor) <==> CellOf(s, s.receivers[r].cursor).currentId == s.receivers[r].cursor
  {
    ReachableInv(s);
    ReceiverSteps.AboutReceiver(s, r);
    assert HasReceiver(s);
    if CellOf(s, s.receivers[r].cursor).currentId == s.receivers[r].cursor {
      ReceiverSteps.SeenIsPublished(s, s.receivers[r].cursor);
    }
  }

  /** While a receiver lives, a cell's id only moves forward, by publishing an id of the same
      slot. */
  lemma PublicationOrder(s: State, step: Step, i: nat)
    requires Reachable(s) && HasReceiver(s) && Enabled(s, step) && i < |s.cells|
    ensures var was, now := s.cells[i].currentId, Apply(s, step).cells[i].currentId;
            now == was || (Slot(now, |s.cells|) == i && (was == UNPUBLISHED || was < now))
  {
    ReachableInv(s);
    CellIdEffect(s, step, i);
    if step.Advance? && s.senders[step.t].Storing? {
      var g, n := s.senders[step.t].id, |s.cells|;
      var was := s.cells[i].currentId;
      SenderSteps.FlightInWindow(s, step.t);
      if i == Slot(g, n) && was != UNPUBLISHED {
        SameSlotFar(g, was, n);
      }
    }
  }

  /** The unchecked unwrap: whenever a value is about to be read the cell holds one, and it
      is the log's value for the id the receiver means to read. */
  lemma UnwrapIsJustified(s: State, r: nat)
    requires Reachable(s) && r < |s.receivers| && ReadsCell(s.receivers[r], |s.cells|).Some?
    ensures var x := s.receivers[r];
            var id := x.start + |x.got|;
            && ReadsCell(x, |s.cells|) == Some(Slot(id, |s.cells|))
            && id < |s.log| && s.log[id].value.Some?
            && CellOf(s, id).value == s.log[id].value
  {
    ReachableInv(s);
    ReceiverSteps.AboutReceiver(s, r);
    var x := s.receivers[r];
    ReceiverSteps.WindowValue(s, r, x.start + |x.got|);
  }

  /** Counters are exact, are never zero when a receiver leaves a cell or is dropped, and are
      all zero once nobody is left. */
  lemma CountersExact(s: State)
    requires Reachable(s)
    ensures forall i :: 0 <= i < |s.cells| ==> s.cells[i].readCounter == Sum(s.receivers, UnitsOn(i, |s.cells|))
    ensures s.numReceivers == Sum(s.receivers, Registered)
    ensures forall r :: 0 <= r < |s.receivers| && (s.receivers[r].pc.OnBoth? || s.receivers[r].pc.Dropping?) ==>
              s.receivers[r].previous < |s.cells| && s.cells[s.receivers[r].previous].readCounter >= 1
    ensures forall r :: 0 <= r < |s.receivers| && s.receivers[r].pc.ReceiverIdle? ==> s.numReceivers >= 1
    ensures !HasReceiver(s) ==> s.numReceivers == 0 && forall i :: 0 <= i < |s.cells| ==> s.cells[i].readCounter == 0
  {
    ReachableInv(s);
    forall r | 0 <= r < |s.receivers| && (s.receivers[r].pc.OnBoth? || s.receivers[r].pc.Dropping?)
      ensures s.receivers[r].previous < |s.cells| && s.cells[s.receivers[r].previous].readCounter >= 1
    {
      ReceiverSteps.CountedOnPrevious(s, r);
    }
    forall r | 0 <= r < |s.receivers| && s.receivers[r].pc.ReceiverIdle?
      ensures s.numReceivers >= 1
    {
      ReceiverSteps.CountedInTotal(s, r);
    }
    if !HasReceiver(s) {
      NobodyLeft(s);
    }
  }

  lemma NobodyLeft(s: State)
    requires Shape(s) && CountersInv(s) && !HasReceiver(s)
    ensures s.numReceivers == 0 && forall i :: 0 <= i < |s.cells| ==> s.cells[i].readCounter == 0
  {
    assert forall k :: 0 <= k < |s.receivers| ==> !Live(s.receivers[k]);
    SumZero(s.receivers, Registered);
    forall i | 0 <= i < |s.cells|
      ensures s.cells[i].readCounter == 0
    {
      SumZero(s.receivers, UnitsOn(i, |s.cells|));
    }
  }

  lemma NoneRegistered(s: State)
    requires Inv(s) && s.numReceivers == 0
    ensures forall r :: 0 <= r < |s.receivers| ==> Registered(s.receivers[r]) == 0
  {
    forall r | 0 <= r < |s.receivers|
      ensures Registered(s.receivers[r]) == 0
    {
      SumCovers(s.receivers, r, Registered);
    }
  }

  /** Once num_receivers is zero it stays zero. */
  lemma NoReceiversStep(s: State, step: Step)
    requires Inv(s) && Enabled(s, step) && s.numReceivers == 0
    ensures Apply(s, step).numReceivers == 0
  {
    NoneRegistered(s);
    assert step.Continue? ==> Registered(s.receivers[step.r]) == 0;
  }

  lemma {:induction false} NoReceiversForever(s: State, steps: seq<Step>)
    requires Inv(s) && Legal(s, steps) && s.numReceivers == 0
    ensures Execute(s, steps).numReceivers == 0
    decreases |steps|
  {
    if steps == [] {
    } else {
      NoReceiversStep(s, steps[0]);
      StepInv(s, steps[0]);
      NoReceiversForever(Apply(s, steps[0]), steps[1..]);
    }
  }
}
