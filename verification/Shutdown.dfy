/** Receivers can always finish what they are at and be dropped, and nobody else notices more
    than the counters. */
module Shutdown {
  import opened Prelude
  import opened Sums
  import opened Protocol
  import opened Invariant
  import opened Safety

  /** More than the number of steps to the end of the receiver. */
  function StepsLeft(x: Receiver): nat {
    match x.pc
    case Gone => 0
    case DropNotifying => 1
    case Dropping => 2
    case ReceiverIdle => 3
    case Reading => 4
    case Leaving(_) => 5
    case OnBoth(_, _) => 6
    case Moving(_, _) => 7
    case Cloning => 7
    case Scanning(max, k) => if k <= max then 8 + 2 * (max - k) else 8
    case Copying(max, k) => if k < max then 7 + 2 * (max - k) else 9
  }

  function AllStepsLeft(s: State): nat {
    Sum(s.receivers, StepsLeft)
  }

  /** Nothing but cells' counters, num_receivers and receivers differs. */
  ghost predicate SendersAsBefore(s: State, e: State) {
    && e.senders == s.senders && e.token == s.token && e.writeHead == s.writeHead && e.log == s.log
    && |e.cells| == |s.cells|
  }

  lemma OneStepOn(s: State, r: nat) returns (step: Step)
    requires |s.cells| > 0 && r < |s.receivers| && !s.receivers[r].pc.Gone?
    ensures Enabled(s, step) && Actor(step) == ReceiverThread(r)
    ensures SendersAsBefore(s, Apply(s, step)) && AllStepsLeft(Apply(s, step)) < AllStepsLeft(s)
  {
    step := if s.receivers[r].pc.ReceiverIdle? then BeginDrop(r) else Continue(r);
    var s' := Apply(s, step);
    StepLeavesLess(s, r, step);
    if s.receivers[r].pc.Cloning? {
      var x := s.receivers[r].(pc := ReceiverIdle);
      SumUpdate(s.receivers, r, x, StepsLeft);
      SumAppend(s.receivers[r := x], x.(start := x.cursor, got := []), StepsLeft);
    } else {
      SumUpdate(s.receivers, r, s'.receivers[r], StepsLeft);
    }
  }

  lemma StepLeavesLess(s: State, r: nat, step: Step)
    requires r < |s.receivers| && Enabled(s, step) && (step == BeginDrop(r) || step == Continue(r))
    ensures SendersAsBefore(s, Apply(s, step)) && r < |Apply(s, step).receivers|
    ensures StepsLeft(Apply(s, step).receivers[r]) < StepsLeft(s.receivers[r])
    ensures !s.receivers[r].pc.Cloning? ==> Apply(s, step).receivers == s.receivers[r := Apply(s, step).receivers[r]]
  {
  }

  lemma {:induction false} ShutDown(s: State) returns (steps: seq<Step>)
    requires |s.cells| > 0
    ensures forall i :: 0 <= i < |steps| ==> Actor(steps[i]).ReceiverThread?
    ensures Legal(s, steps) && SendersAsBefore(s, Execute(s, steps)) && !HasReceiver(Execute(s, steps))
    decreases AllStepsLeft(s)
  {
    if r :| 0 <= r < |s.receivers| && !s.receivers[r].pc.Gone? {
      var step := OneStepOn(s, r);
      var rest := ShutDown(Apply(s, step));
      steps := [step] + rest;
      assert steps[1..] == rest;
    } else {
      steps := [];
    }
  }
}
