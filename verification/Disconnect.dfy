/** What still holds, and what does not, once the last receiver is gone. */
module Disconnect {
  import opened Prelude
  import opened Protocol
  import opened Invariant
  import opened Safety
  import SenderSteps
  import ReceiverSteps

  datatype Kind = Sends | TrySends | TimedSends | Polls

  function KindOf(op: Op): Kind {
    match op
    case Send(_) => Sends
    case TrySend(_) => TrySends
    case TrySendBefore(_) => TimedSends
    case PollReady => Polls
  }

  /** The run calls only operations of these kinds. */
  predicate UsesOnly(steps: seq<Step>, kinds: set<Kind>) {
    forall i :: 0 <= i < |steps| && steps[i].Begin? ==> KindOf(steps[i].op) in kinds
  }

  /** The operations that look at num_receivers after they have the token, if at all. */
  const CHECKED: set<Kind> := {Sends, TimedSends}

  lemma OnlyChecked(steps: seq<Step>, kinds: set<Kind>)
    requires UsesOnly(steps, kinds) && TrySends !in kinds && Polls !in kinds
    ensures UsesOnly(steps, CHECKED)
  {
    forall i | 0 <= i < |steps| && steps[i].Begin?
      ensures KindOf(steps[i].op) in CHECKED
    {
      assert KindOf(steps[i].op) in kinds;
    }
  }

  /** No two granted, unpublished ids target the same cell. */
  ghost predicate WritersDistinct(s: State) {
    |s.cells| > 0 &&
    forall t, u :: 0 <= t < u < |s.senders| && FlightId(s.senders[t]).Some? && FlightId(s.senders[u]).Some? ==>
      Slot(FlightId(s.senders[t]).value, |s.cells|) != Slot(FlightId(s.senders[u]).value, |s.cells|)
  }

  // ---- runs of send and try_send_before ----

  /** The sender is inside an operation of one of these kinds, if inside any. */
  predicate InKinds(pc: SenderPc, kinds: set<Kind>) {
    match pc
    case Checking(op) => KindOf(op) in kinds
    case Taking(op) => KindOf(op) in kinds
    case Looking(op, _) => KindOf(op) in kinds
    case Waiting(op, _) => KindOf(op) in kinds
    case Pended(_) => Polls in kinds
    case Polling(_) => Polls in kinds
    case Confirming(op, _) => KindOf(op) in kinds
    case Restoring(op, _) => KindOf(op) in kinds
    case RollingBack(op, _) => KindOf(op) in kinds
    case NotifyingHead(op, _) => KindOf(op) in kinds
    case Granted(_) => Polls in kinds
    case _ => true
  }

  ghost predicate AllInKinds(s: State, kinds: set<Kind>) {
    forall t :: 0 <= t < |s.senders| ==> InKinds(s.senders[t], kinds)
  }

  lemma KindsStep(s: State, step: Step, kinds: set<Kind>)
    requires AllInKinds(s, kinds) && Enabled(s, step) && (step.Begin? ==> KindOf(step.op) in kinds)
    ensures AllInKinds(Apply(s, step), kinds)
  {
    OthersUntouched(s, step);
    if Actor(step).SenderThread? {
      var t := Actor(step).t;
      assert InKinds(s.senders[t], kinds);
      assert InKinds(Apply(s, step).senders[t], kinds);
    }
  }

  /** A sender that will grant its id without another look at num_receivers. */
  predicate Committed(pc: SenderPc) {
    pc.Waiting? || pc.Restoring?
  }

  /** The last receiver left its cell at id p, when q was the next id to grant. */
  ghost predicate Late(s: State, p: nat, q: nat) {
    && !HasReceiver(s)
    && p < q <= p + |s.cells|
    && q <= |s.log| <= q + 1
    && (|s.log| == q + 1 ==> forall t :: 0 <= t < |s.senders| ==> !Committed(s.senders[t]))
    && (forall t :: 0 <= t < |s.senders| && FlightId(s.senders[t]).Some? ==> FlightId(s.senders[t]).value > p)
  }

  lemma NobodyReturns(s: State, step: Step)
    requires !HasReceiver(s) && Enabled(s, step)
    ensures !HasReceiver(Apply(s, step))
  {
    assert forall r :: 0 <= r < |s.receivers| ==> !Live(s.receivers[r]);
    assert |Apply(s, step).receivers| == |s.receivers|;
  }

  lemma LateGrant(s: State, t: nat, p: nat, q: nat)
    requires Inv(s) && Late(s, p, q) && t < |s.senders| && s.senders[t].Restoring?
    ensures Late(RestoreNext(s, t), p, q)
  {
    var s' := RestoreNext(s, t);
    assert Committed(s.senders[t]) && s.token == Held(t) && TokenId(s.senders[t]) == Some(|s.log|);
    forall u | 0 <= u < |s'.senders|
      ensures !Committed(s'.senders[u])
    {
      assert u != t ==> TokenId(s.senders[u]).None?;
    }
    assert forall r :: 0 <= r < |s.receivers| ==> !Live(s.receivers[r]);
  }

  lemma LateQuiet(s: State, s': State, t: nat, pc: SenderPc, p: nat, q: nat)
    requires Late(s, p, q) && t < |s.senders| && s'.senders == s.senders[t := pc]
    requires |s'.log| == |s.log| && |s'.cells| == |s.cells| && !HasReceiver(s')
    requires FlightId(pc).Some? ==> FlightId(pc) == FlightId(s.senders[t])
    requires Committed(pc) ==> Committed(s.senders[t])
    ensures Late(s', p, q)
  {
  }

  lemma LateQuietSender(s: State, step: Step, p: nat, q: nat)
    requires Enabled(s, step) && AllInKinds(s, CHECKED) && OpsInv(s) && Late(s, p, q)
    requires step.Begin? ==> KindOf(step.op) in CHECKED
    requires Actor(step).SenderThread? && !(step.Advance? && s.senders[step.t].Restoring?)
    requires s.numReceivers == 0 && forall i :: 0 <= i < |s.cells| ==> s.cells[i].readCounter == 0
    requires !HasReceiver(Apply(s, step))
    ensures Late(Apply(s, step), p, q)
  {
    var s', t := Apply(s, step), Actor(step).t;
    LogEffect(s, step);
    OthersUntouched(s, step);
    assert s'.senders == s.senders[t := s'.senders[t]];
    assert InKinds(s.senders[t], CHECKED) && OpFits(s.senders[t]);
    LateQuiet(s, s', t, s'.senders[t], p, q);
  }

  lemma LateStep(s: State, step: Step, p: nat, q: nat)
    requires Inv(s) && AllInKinds(s, CHECKED) && Late(s, p, q) && Enabled(s, step)
    requires step.Begin? ==> KindOf(step.op) in CHECKED
    ensures Late(Apply(s, step), p, q)
  {
    NobodyReturns(s, step);
    NobodyLeft(s);
    if step.Advance? && s.senders[step.t].Restoring? {
      LateGrant(s, step.t, p, q);
    } else if Actor(step).SenderThread? {
      LateQuietSender(s, step, p, q);
    } else {
      OthersUntouched(s, step);
    }
  }

  lemma OnlyDropLeaves(s: State, step: Step, k: nat)
    requires Enabled(s, step) && k < |s.receivers| && Live(s.receivers[k])
    requires k < |Apply(s, step).receivers| && !Live(Apply(s, step).receivers[k])
    ensures step == Continue(k) && s.receivers[k].pc.Dropping?
    ensures Apply(s, step).senders == s.senders && Apply(s, step).log == s.log
  {
  }

  /** The moment the last receiver leaves its cell. */
  lemma LastLeaves(s: State, step: Step) returns (p: nat)
    requires Inv(s) && Enabled(s, step) && HasReceiver(s) && !HasReceiver(Apply(s, step))
    ensures Late(Apply(s, step), p, |s.log|) && step.Continue?
  {
    var s' := Apply(s, step);
    var k :| 0 <= k < |s.receivers| && Live(s.receivers[k]);
    OthersUntouched(s, step);
    OnlyDropLeaves(s, step, k);
    p := s.receivers[k].held;
    ReceiverSteps.AboutReceiver(s, k);
    forall t | 0 <= t < |s.senders| && FlightId(s.senders[t]).Some?
      ensures FlightId(s.senders[t]).value > p
    {
      SenderSteps.FlightInWindow(s, t);
    }
  }

  ghost predicate LiveOrLate(s: State) {
    HasReceiver(s) || exists p: nat, q: nat :: Late(s, p, q)
  }

  /** Late flights have their cells to themselves as well. */
  lemma LateFlightClear(s: State, p: nat, q: nat, t: nat)
    requires Inv(s) && Late(s, p, q) && t < |s.senders| && FlightId(s.senders[t]).Some?
    ensures SenderSteps.FlightClear(s, t)
  {
    var n, g := |s.cells|, FlightId(s.senders[t]).value;
    forall id | 1 <= id < |s.log| <= id + n && s.log[id].value.Some?
      ensures Slot(id, n) != Slot(g, n)
    {
      if Slot(id, n) == Slot(g, n) {
        SameSlotFar(id, g, n);
      }
    }
    forall u | 0 <= u < |s.senders| && u != t && FlightId(s.senders[u]).Some?
      ensures Slot(FlightId(s.senders[u]).value, n) != Slot(g, n)
    {
      var h := FlightId(s.senders[u]).value;
      assert s.log[g].author == t && s.log[h].author == u;
      if Slot(h, n) == Slot(g, n) {
        SameSlotFar(h, g, n);
      }
    }
  }

  ghost predicate AllFlightsClear(s: State)
    requires Shape(s)
  {
    forall t :: 0 <= t < |s.senders| && FlightId(s.senders[t]).Some? ==> SenderSteps.FlightClear(s, t)
  }

  lemma CheckedFlightsClear(s: State)
    requires Inv(s) && LiveOrLate(s)
    ensures AllFlightsClear(s)
  {
    forall t | 0 <= t < |s.senders| && FlightId(s.senders[t]).Some?
      ensures SenderSteps.FlightClear(s, t)
    {
      if HasReceiver(s) {
        SenderSteps.LiveFlightClear(s, t);
      } else {
        var p: nat, q: nat :| Late(s, p, q);
        LateFlightClear(s, p, q, t);
      }
    }
  }

  lemma QuietContents(s: State, step: Step)
    requires Enabled(s, step) && Shape(s) && ContentsInv(s)
    requires step.Advance? ==> var pc := s.senders[step.t]; !pc.Restoring? && !pc.Writing? && !pc.Storing?
    requires Shape(Apply(s, step))
    ensures ContentsInv(Apply(s, step))
  {
    var s' := Apply(s, step);
    forall i | 0 <= i < |s.cells|
      ensures s'.cells[i].currentId == s.cells[i].currentId && s'.cells[i].value == s.cells[i].value
    {
      SameContents(s, step, i);
    }
    OthersUntouched(s, step);
    LogEffect(s, step);
    forall u | 0 <= u < |s'.senders| && s'.senders[u].Storing?
      ensures CellOf(s', s'.senders[u].id).value == Some(s'.senders[u].value)
    {
      NobodyStarts(s, step, u);
    }
  }

  lemma SameContents(s: State, step: Step, i: nat)
    requires Enabled(s, step) && i < |s.cells|
    requires step.Advance? ==> !s.senders[step.t].Writing? && !s.senders[step.t].Storing?
    ensures i < |Apply(s, step).cells|
    ensures Apply(s, step).cells[i].currentId == s.cells[i].currentId && Apply(s, step).cells[i].value == s.cells[i].value
  {
  }

  lemma NobodyStarts(s: State, step: Step, u: nat)
    requires Enabled(s, step) && u < |Apply(s, step).senders| && Apply(s, step).senders[u].Storing?
    requires step.Advance? ==> !s.senders[step.t].Writing? && !s.senders[step.t].Storing?
    ensures u < |s.senders| && Apply(s, step).senders[u] == s.senders[u]
  {
  }

  /** What the cells hold stays what the log says, as long as flights keep apart. */
  lemma ContentsStep(s: State, step: Step)
    requires Inv(s) && Enabled(s, step) && ContentsInv(s) && AllFlightsClear(s)
    ensures Shape(Apply(s, step)) && ContentsInv(Apply(s, step))
  {
    StepInv(s, step);
    if step.Advance? && s.senders[step.t].Restoring? {
      assert TokenId(s.senders[step.t]) == Some(|s.log|);
      SenderSteps.GrantContents(s, step.t);
    } else if step.Advance? && s.senders[step.t].Writing? {
      SenderSteps.ReplaceContents(s, step.t);
    } else if step.Advance? && s.senders[step.t].Storing? {
      assert FlightId(s.senders[step.t]) == Some(s.senders[step.t].id);
      SenderSteps.StoreContents(s, step.t);
    } else {
      QuietContents(s, step);
    }
  }

  lemma LiveOrLateStep(s: State, step: Step)
    requires Inv(s) && AllInKinds(s, CHECKED) && LiveOrLate(s) && Enabled(s, step)
    requires step.Begin? ==> KindOf(step.op) in CHECKED
    ensures LiveOrLate(Apply(s, step))
  {
    if HasReceiver(s) {
      if !HasReceiver(Apply(s, step)) {
        var p := LastLeaves(s, step);
      }
    } else {
      var p: nat, q: nat :| Late(s, p, q);
      LateStep(s, step, p, q);
    }
  }

  ghost predicate CheckedInv(s: State) {
    Inv(s) && AllInKinds(s, CHECKED) && LiveOrLate(s) && ContentsInv(s)
  }

  lemma {:induction false} CheckedRun(s: State, steps: seq<Step>)
    requires CheckedInv(s) && Legal(s, steps) && UsesOnly(steps, CHECKED)
    ensures CheckedInv(Execute(s, steps))
    decreases |steps|
  {
    if steps == [] {
    } else {
      StepInv(s, steps[0]);
      KindsStep(s, steps[0], CHECKED);
      LiveOrLateStep(s, steps[0]);
      CheckedFlightsClear(s);
      ContentsStep(s, steps[0]);
      CheckedRun(Apply(s, steps[0]), steps[1..]);
    }
  }

  lemma InitChecked(n: nat)
    requires n > 0
    ensures CheckedInv(Init(n))
  {
    InitInv(n);
    assert Live(Init(n).receivers[0]);
  }

  /** With only send and try_send_before, writers keep to distinct cells in every run, also
      after the last receiver left. */
  lemma CheckedWritersDistinct(n: nat, steps: seq<Step>)
    requires n > 0 && Legal(Init(n), steps) && UsesOnly(steps, CHECKED)
    ensures WritersDistinct(Execute(Init(n), steps))
  {
    InitChecked(n);
    CheckedRun(Init(n), steps);
    var s := Execute(Init(n), steps);
    CheckedFlightsClear(s);
    forall t, u | 0 <= t < u < |s.senders| && FlightId(s.senders[t]).Some? && FlightId(s.senders[u]).Some?
      ensures Slot(FlightId(s.senders[t]).value, |s.cells|) != Slot(FlightId(s.senders[u]).value, |s.cells|)
    {
      assert SenderSteps.FlightClear(s, t);
    }
  }

  lemma {:induction false} LateRun(s: State, steps: seq<Step>, p: nat, q: nat)
    requires Inv(s) && AllInKinds(s, CHECKED) && Late(s, p, q) && Legal(s, steps) && UsesOnly(steps, CHECKED)
    ensures Late(Execute(s, steps), p, q)
    decreases |steps|
  {
    if steps == [] {
    } else {
      StepInv(s, steps[0]);
      KindsStep(s, steps[0], CHECKED);
      LateStep(s, steps[0], p, q);
      LateRun(Apply(s, steps[0]), steps[1..], p, q);
    }
  }

  /** And after the last receiver has left its cell, at most one more id is granted. */
  lemma {:induction false} AtMostOneMoreGrant(n: nat, before: seq<Step>, leave: Step, after: seq<Step>)
    requires n > 0 && Legal(Init(n), before) && UsesOnly(before, CHECKED)
    requires var s := Execute(Init(n), before);
             && HasReceiver(s) && Enabled(s, leave) && !HasReceiver(Apply(s, leave))
             && Legal(Apply(s, leave), after) && UsesOnly(after, CHECKED)
    ensures var s := Apply(Execute(Init(n), before), leave);
            |s.log| <= |Execute(s, after).log| <= |s.log| + 1
  {
    InitChecked(n);
    CheckedRun(Init(n), before);
    var s := Execute(Init(n), before);
    var p := LastLeaves(s, leave);
    LogEffect(s, leave);
    OthersUntouched(s, leave);
    StepInv(s, leave);
    KindsStep(s, leave, CHECKED);
    LateRun(Apply(s, leave), after, p, |s.log|);
  }
}
