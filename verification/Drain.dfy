/** Deadlock freedom: from two cells on, whoever is blocked on a full cell can be freed by the
    others, without a new call and without dropping a receiver. */
module Drain {
  import opened Prelude
  import opened Sums
  import opened Protocol
  import opened Invariant
  import opened Safety
  import opened Progress
  import ReceiverSteps
  import LateSends

  /** Receivers read on or finish what they are at; senders finish what they are at. Nothing
      is called anew but recv, and start_send after a Ready. */
  predicate Helps(step: Step) {
    step.Look? || step.Continue? || step.Advance? || step.StartSend?
  }

  /** A run in which only threads other than sender t help. */
  predicate HelpFor(t: nat, steps: seq<Step>) {
    forall i :: 0 <= i < |steps| ==> Helps(steps[i]) && Actor(steps[i]) != SenderThread(t)
  }

  // ---- what is left to do until nobody stands on id `base` ----

  /** More than the number of steps a receiver on `base` takes to get off it. */
  function ReceiverWork(x: Receiver, base: int): nat {
    if !Live(x) || x.held != base then 0
    else match x.pc
      case OnBoth(_, _) => 1
      case Dropping => 1
      case Moving(_, _) => 2
      case ReceiverIdle => 3
      case Reading => 4
      case Leaving(_) => 5
      case Cloning => 7
      case Scanning(max, k) => if k <= max then 4 + 2 * (max - k) else 4
      case Copying(max, k) => if k < max then 3 + 2 * (max - k) else 5
      case _ => 0
  }

  /** The steps a sender takes to publish an id it was granted. */
  function SenderWork(pc: SenderPc): nat {
    match pc
    case NotifyingHead(_, _) => 4
    case Granted(_) => 3
    case Writing(_, _) => 2
    case Storing(_, _) => 1
    case _ => 0
  }

  function WorkOn(base: int): Receiver -> nat {
    (x: Receiver) => ReceiverWork(x, base)
  }

  function Work(s: State, base: int): nat {
    Sum(s.receivers, WorkOn(base)) + Sum(s.senders, SenderWork)
  }

  lemma ContinueWorks(s: State, r: nat, base: int)
    requires Inv(s) && Enabled(s, Continue(r)) && Live(s.receivers[r]) && s.receivers[r].held == base
    ensures var s' := ContinueReceiver(s, r);
            && s'.senders == s.senders && s'.log == s.log
            && Work(s', base) < Work(s, base)
  {
    var s', x := ContinueReceiver(s, r), s.receivers[r];
    ReceiverSteps.AboutReceiver(s, r);
    if x.pc.Cloning? {
      var y := x.(pc := ReceiverIdle);
      SumUpdate(s.receivers, r, y, WorkOn(base));
      SumAppend(s.receivers[r := y], y.(start := y.cursor, got := []), WorkOn(base));
    } else {
      ContinueFalls(s, r, base);
      SumUpdate(s.receivers, r, s'.receivers[r], WorkOn(base));
    }
  }

  lemma ContinueFalls(s: State, r: nat, base: int)
    requires Enabled(s, Continue(r)) && Live(s.receivers[r]) && s.receivers[r].held == base
    requires !s.receivers[r].pc.Cloning? && FieldsFit(s.receivers[r], |s.cells|)
    ensures var s' := ContinueReceiver(s, r);
            && s'.senders == s.senders && s'.log == s.log
            && r < |s'.receivers| && s'.receivers == s.receivers[r := s'.receivers[r]]
            && ReceiverWork(s'.receivers[r], base) < ReceiverWork(s.receivers[r], base)
  {
  }

  lemma LookWorks(s: State, r: nat, base: int)
    requires Enabled(s, Look(r)) && s.receivers[r].held == base
    requires CellOf(s, s.receivers[r].cursor).currentId == s.receivers[r].cursor
    ensures var s' := Apply(s, Look(r));
            && s'.senders == s.senders && s'.log == s.log
            && Work(s', base) < Work(s, base)
  {
    SumUpdate(s.receivers, r, Apply(s, Look(r)).receivers[r], WorkOn(base));
  }

  lemma FlightWorks(s: State, u: nat, v: Value, base: int) returns (step: Step)
    requires Inv(s) && u < |s.senders| && FlightId(s.senders[u]).Some?
    ensures Enabled(s, step) && Helps(step) && Actor(step) == SenderThread(u)
    ensures |Apply(s, step).log| == |s.log| && Work(Apply(s, step), base) < Work(s, base)
  {
    step := if s.senders[u].Granted? then StartSend(u, v) else Advance(u);
    var s' := Apply(s, step);
    assert s'.senders == s.senders[u := s'.senders[u]] && s'.receivers == s.receivers;
    SumUpdate(s.senders, u, s'.senders[u], SenderWork);
  }

  /** One helpful step. */
  lemma HelpOnce(s: State, t: nat, v: Value) returns (step: Step)
    requires Inv(s) && |s.cells| >= 2 && Blocked(s, t)
    ensures Enabled(s, step) && Helps(step) && Actor(step) != SenderThread(t)
    ensures |Apply(s, step).log| == |s.log|
    ensures Work(Apply(s, step), |s.log| - |s.cells|) < Work(s, |s.log| - |s.cells|)
  {
    var r := BlockedSenderHasHelp(s, t);
    var base := |s.log| - |s.cells|;
    if Enabled(s, Continue(r)) {
      step := Continue(r);
      ContinueWorks(s, r, base);
    } else if Enabled(s, Look(r)) && CellOf(s, s.receivers[r].cursor).currentId == s.receivers[r].cursor {
      step := Look(r);
      LookWorks(s, r, base);
    } else {
      step := FlightWorks(s, s.log[s.receivers[r].cursor].author, v, base);
    }
  }

  /** The sender stands where it stood, and its cell is free. */
  ghost predicate Freed(s: State, t: nat, e: State) {
    && |e.cells| > 0 && t < |s.senders| && t < |e.senders| && e.senders[t] == s.senders[t]
    && TokenId(e.senders[t]).Some? && CellOf(e, TokenId(e.senders[t]).value).readCounter == 0
  }

  lemma {:induction false} HelpUntilFreed(s: State, t: nat, v: Value) returns (steps: seq<Step>)
    requires Inv(s) && |s.cells| >= 2 && t < |s.senders| && BeforeItsCell(s.senders[t])
    ensures Legal(s, steps) && HelpFor(t, steps) && Freed(s, t, Execute(s, steps))
    decreases Work(s, |s.log| - |s.cells|)
  {
    if !Blocked(s, t) {
      steps := [];
    } else {
      var step := HelpOnce(s, t, v);
      StepInv(s, step);
      OthersUntouched(s, step);
      var rest := HelpUntilFreed(Apply(s, step), t, v);
      steps := [step] + rest;
      assert steps[1..] == rest;
    }
  }

  /** The others can free it. */
  ghost predicate CanBeFreed(s: State, t: nat) {
    exists steps: seq<Step> :: Legal(s, steps) && HelpFor(t, steps) && Freed(s, t, Execute(s, steps))
  }

  // ---- one cell ----

  lemma {:induction false} OneCellStaysStuck(v: Value, s: State, steps: seq<Step>)
    requires s == Put(Init(1).(writeHead := TAKEN, token := Held(0)), 0, Waiting(Send(v), 1))
    requires Legal(s, steps) && HelpFor(0, steps)
    ensures Execute(s, steps) == s
    decreases |steps|
  {
    if steps == [] {
    } else {
      assert s.senders == [Waiting(Send(v), 1)];
      assert Helps(steps[0]) && Actor(steps[0]) != SenderThread(0);
      assert steps[0] == Look(0);
      OneCellStaysStuck(v, s, steps[1..]);
    }
  }

  /** Why the constructor refuses fewer than two cells: exactly from two cells on, every
      blocked sender can be freed by the others, in every reachable state. */
  lemma DeadlockFreeExactlyFromTwo(n: nat, v: Value)
    requires n > 0
    ensures (forall steps: seq<Step>, t: nat :: Legal(Init(n), steps) && Blocked(Execute(Init(n), steps), t) ==>
               CanBeFreed(Execute(Init(n), steps), t))
            <==> n >= 2
  {
    if n >= 2 {
      forall steps: seq<Step>, t: nat | Legal(Init(n), steps) && Blocked(Execute(Init(n), steps), t)
        ensures CanBeFreed(Execute(Init(n), steps), t)
      {
        CellsKept(Init(n), steps);
        InitInv(n);
        RunInv(Init(n), steps);
        var more := HelpUntilFreed(Execute(Init(n), steps), t, v);
      }
    } else {
      var steps := OneCellBlocks(v);
      var s := Execute(Init(1), steps);
      forall more: seq<Step> | Legal(s, more) && HelpFor(0, more)
        ensures !Freed(s, 0, Execute(s, more))
      {
        OneCellStaysStuck(v, s, more);
      }
      assert n == 1 && Blocked(Execute(Init(n), steps), 0) && !CanBeFreed(Execute(Init(n), steps), 0);
    }
  }

  lemma OneCellBlocks(v: Value) returns (steps: seq<Step>)
    ensures Legal(Init(1), steps)
    ensures var s := Execute(Init(1), steps);
            s == Put(Init(1).(writeHead := TAKEN, token := Held(0)), 0, Waiting(Send(v), 1)) && Blocked(s, 0)
  {
    var a := Advance(0);
    LateSends.RunThree(Init(1), Begin(0, Send(v)), a, a);
    steps := [Begin(0, Send(v)), a, a];
    assert Apply(Init(1), Begin(0, Send(v))).senders == [Taking(Send(v))];
    assert Execute(Init(1), steps).senders == [Waiting(Send(v), 1)];
  }
}
