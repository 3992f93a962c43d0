/** When Full is reported, and why a blocked sender is not blocked for good. */
module Progress {
  import opened Prelude
  import opened Sums
  import opened Protocol
  import opened Invariant
  import opened Safety
  import SenderSteps
  import ReceiverSteps
  import LateSends

  /** How many granted ids a receiver has not moved past. */
  function Unread(s: State, x: Receiver): int {
    |s.log| - 1 - x.held
  }

  /** The next id's cell is counted on if and only if some live receiver is a whole window
      behind, n - 1 ids unread. Receivers in the middle of a move make no difference. */
  lemma CountedMeansFull(s: State)
    requires Inv(s)
    ensures CellOf(s, |s.log|).readCounter != 0 <==>
            SomeoneFullyBehind(s)
  {
    var n := |s.cells|;
    var i := Slot(|s.log|, n);
    if s.cells[i].readCounter != 0 {
      var r := SumPositive(s.receivers, UnitsOn(i, n));
      assert Units(s.receivers[r], i, n) > 0;
      OnNextIsFarBehind(s, r);
    } else {
      forall r | 0 <= r < |s.receivers| && Live(s.receivers[r])
        ensures Unread(s, s.receivers[r]) != n - 1
      {
        SenderSteps.ZeroMeansSafe(s, r);
      }
    }
  }

  lemma OnNextIsFarBehind(s: State, r: nat)
    requires Inv(s) && r < |s.receivers| && Units(s.receivers[r], Slot(|s.log|, |s.cells|), |s.cells|) > 0
    ensures Live(s.receivers[r]) && s.receivers[r].held + |s.cells| == |s.log|
  {
    var n, x := |s.cells|, s.receivers[r];
    ReceiverSteps.AboutReceiver(s, r);
    assert x.held < |s.log| <= x.held + n;
    assert x.held <= Reach(x) < |s.log|;
    if Slot(x.held, n) == Slot(|s.log|, n) {
      SameSlotFar(x.held, |s.log|, n);
    } else {
      assert x.pc.OnBoth? && Slot(x.pc.to, n) == Slot(|s.log|, n);
      SameSlotFar(x.pc.to, |s.log|, n);
    }
  }

  /** Take the free token, then look at the counter. */
  lemma TakeAndLook(s: State, t: nat, op: Op)
    requires Inv(s) && t < |s.senders| && s.senders[t] == Taking(op) && !op.PollReady? && s.token.Free?
    ensures Legal(s, [Advance(t), Advance(t)])
    ensures var taken := s.(writeHead := TAKEN, token := Held(t));
            Execute(s, [Advance(t), Advance(t)]) == LookAtCounter(Put(taken, t, Looking(op, |s.log|)), t)
  {
    var a := Advance(t);
    var taken := s.(writeHead := TAKEN, token := Held(t));
    assert Apply(s, a) == Put(taken, t, Looking(op, |s.log|));
    LateSends.RunTwo(s, a, a);
  }

  lemma RollBackRestores(s: State, t: nat, op: Op)
    requires Inv(s) && t < |s.senders| && s.token.Free?
    ensures RollBack(Put(s.(writeHead := TAKEN, token := Held(t)), t, RollingBack(op, |s.log|)), t)
         == Put(s, t, SenderIdle(Refusal(op)))
  {
    assert s.senders[t := RollingBack(op, |s.log|)][t := SenderIdle(Refusal(op))] == s.senders[t := SenderIdle(Refusal(op))];
  }

  ghost predicate SomeoneFullyBehind(s: State) {
    exists r :: 0 <= r < |s.receivers| && Live(s.receivers[r]) && Unread(s, s.receivers[r]) == |s.cells| - 1
  }

  /** Full is exact: with the token free, a try_send that is not disturbed reports Full if
      and only if some receiver has n - 1 unread ids; then nothing but its result has
      changed, and otherwise it goes on to be granted the next id. */
  lemma {:induction false} FullIsExact(s: State, t: nat, v: Value)
    requires Reachable(s) && t < |s.senders| && s.senders[t] == Taking(TrySend(v)) && s.token.Free?
    ensures Legal(s, [Advance(t), Advance(t)])
    ensures var looked := Execute(s, [Advance(t), Advance(t)]);
            if SomeoneFullyBehind(s) then
              Enabled(looked, Advance(t)) && Apply(looked, Advance(t)) == Put(s, t, SenderIdle(Full(v)))
            else
              t < |looked.senders| && looked.senders[t] == Restoring(TrySend(v), |s.log|)
  {
    ReachableInv(s);
    CountedMeansFull(s);
    TakeAndLook(s, t, TrySend(v));
    RollBackRestores(s, t, TrySend(v));
    var looked := Execute(s, [Advance(t), Advance(t)]);
    if SomeoneFullyBehind(s) {
      assert looked == Put(s.(writeHead := TAKEN, token := Held(t)), t, RollingBack(TrySend(v), |s.log|));
    }
  }

  /** Under any interference: a try_send reports Full exactly if the head is TAKEN when it
      swaps, or some receiver has n - 1 unread ids when it looks. */
  lemma FullWheneverItLooks(s: State, t: nat)
    requires Reachable(s) && t < |s.senders| && (s.senders[t].Taking? || s.senders[t].Looking?) && s.senders[t].op.TrySend?
    ensures var pc, op := Apply(s, Advance(t)).senders[t], s.senders[t].op;
            if s.senders[t].Taking? then
              (pc == SenderIdle(Full(op.value)) <==> s.writeHead == TAKEN)
              && (pc == Looking(op, |s.log|) <==> s.writeHead != TAKEN)
            else
              (pc == RollingBack(op, |s.log|) <==> SomeoneFullyBehind(s))
              && (pc == Restoring(op, |s.log|) <==> !SomeoneFullyBehind(s))
  {
    ReachableInv(s);
    if s.senders[t].Looking? {
      assert TokenId(s.senders[t]) == Some(|s.log|);
      CountedMeansFull(s);
    }
  }

  /** A check that fails k times. */
  lemma {:induction false} ChecksInVain(s: State, t: nat, k: nat)
    requires Enabled(s, Advance(t)) && Apply(s, Advance(t)) == s
    ensures Legal(s, seq(k, i => Advance(t))) && Execute(s, seq(k, i => Advance(t))) == s
  {
    var steps := seq(k, i => Advance(t));
    if k == 0 {
    } else {
      assert steps[1..] == seq(k - 1, i => Advance(t));
      ChecksInVain(s, t, k - 1);
    }
  }

  /** A try_send_before that takes the token and runs into its deadline, after however many
      checks, leaves nothing behind either. */
  lemma {:induction false} TimeoutLeavesNoTrace(s: State, t: nat, v: Value, k: nat)
    requires Reachable(s) && t < |s.senders| && s.senders[t] == Taking(TrySendBefore(v)) && s.token.Free?
    requires CellOf(s, |s.log|).readCounter != 0
    ensures var steps := [Advance(t), Advance(t)] + (seq(k, i => Advance(t)) + [GiveUp(t), Advance(t)]);
            Legal(s, steps) && Execute(s, steps) == Put(s, t, SenderIdle(Timeout(v)))
  {
    ReachableInv(s);
    var waiting := Put(s.(writeHead := TAKEN, token := Held(t)), t, Waiting(TrySendBefore(v), |s.log|));
    TakeThenWait(s, t, v);
    WaitThenGiveUp(s, t, v);
    ChecksInVain(waiting, t, k);
    ExecuteConcat(waiting, seq(k, i => Advance(t)), [GiveUp(t), Advance(t)]);
    ExecuteConcat(s, [Advance(t), Advance(t)], seq(k, i => Advance(t)) + [GiveUp(t), Advance(t)]);
  }

  lemma TakeThenWait(s: State, t: nat, v: Value)
    requires Inv(s) && t < |s.senders| && s.senders[t] == Taking(TrySendBefore(v)) && s.token.Free?
    requires CellOf(s, |s.log|).readCounter != 0
    ensures Legal(s, [Advance(t), Advance(t)])
    ensures var waiting := Put(s.(writeHead := TAKEN, token := Held(t)), t, Waiting(TrySendBefore(v), |s.log|));
            Execute(s, [Advance(t), Advance(t)]) == waiting
            && Enabled(waiting, Advance(t)) && Apply(waiting, Advance(t)) == waiting
  {
    TakeAndLook(s, t, TrySendBefore(v));
  }

  lemma WaitThenGiveUp(s: State, t: nat, v: Value)
    requires Inv(s) && t < |s.senders| && s.senders[t] == Taking(TrySendBefore(v)) && s.token.Free?
    ensures var waiting := Put(s.(writeHead := TAKEN, token := Held(t)), t, Waiting(TrySendBefore(v), |s.log|));
            && Legal(waiting, [GiveUp(t), Advance(t)])
            && Execute(waiting, [GiveUp(t), Advance(t)]) == Put(s, t, SenderIdle(Timeout(v)))
  {
    var taken := s.(writeHead := TAKEN, token := Held(t));
    var waiting := Put(taken, t, Waiting(TrySendBefore(v), |s.log|));
    RollBackRestores(s, t, TrySendBefore(v));
    assert Apply(waiting, GiveUp(t)) == Put(taken, t, RollingBack(TrySendBefore(v), |s.log|));
    LateSends.RunTwo(waiting, GiveUp(t), Advance(t));
  }

  /** One that never gets the token leaves nothing behind whenever its deadline passes. */
  lemma {:induction false} TimeoutWithoutToken(s: State, t: nat, v: Value, k: nat)
    requires Reachable(s) && t < |s.senders| && s.senders[t] == Taking(TrySendBefore(v)) && !s.token.Free?
    ensures var steps := seq(k, i => Advance(t)) + [GiveUp(t)];
            Legal(s, steps) && Execute(s, steps) == Put(s, t, SenderIdle(Timeout(v)))
  {
    ReachableInv(s);
    assert Apply(s, Advance(t)) == s;
    ChecksInVain(s, t, k);
    assert [GiveUp(t)][1..] == [] && Legal(Apply(s, GiveUp(t)), []);
    assert Legal(s, [GiveUp(t)]);
    ExecuteConcat(s, seq(k, i => Advance(t)), [GiveUp(t)]);
  }

  // ---- failed attempts under any interference ----

  /** Inside a call of op that has not been granted an id, or after it ended in Full or Timeout. */
  predicate Attempting(pc: SenderPc, op: Op) {
    match pc
    case Checking(o) => o == op
    case Taking(o) => o == op
    case Looking(o, _) => o == op
    case Waiting(o, _) => o == op
    case Confirming(o, _) => o == op
    case Restoring(o, _) => o == op
    case RollingBack(o, _) => o == op
    case SenderIdle(result) => result == Refusal(op)
    case _ => false
  }

  /** Inside a call that has been granted an id, or after it ended in success, or in
      Disconnected. */
  predicate EndsOtherwise(pc: SenderPc, op: Op) {
    || pc.NotifyingHead? || pc.Writing? || pc.Storing? || pc.NotifyingCell? || pc == SenderIdle(Sent)
    || pc == SenderIdle(Disconnected(ValueOf(op)))
  }

  predicate NoCallBy(t: nat, steps: seq<Step>) {
    forall i :: 0 <= i < |steps| && steps[i].Begin? ==> steps[i].t != t
  }

  lemma {:induction false} OtherEndsStay(s: State, steps: seq<Step>, t: nat, op: Op)
    requires Legal(s, steps) && NoCallBy(t, steps) && t < |s.senders| && EndsOtherwise(s.senders[t], op)
    requires s.senders[t].NotifyingHead? ==> !s.senders[t].op.PollReady?
    ensures t < |Execute(s, steps).senders| && EndsOtherwise(Execute(s, steps).senders[t], op)
    decreases |steps|
  {
    if steps == [] {
    } else {
      OthersUntouched(s, steps[0]);
      OtherEndsStay(Apply(s, steps[0]), steps[1..], t, op);
    }
  }

  /** The step leaves cells, counters, log and receivers alone. It may take the token, and may
      put it back, with the id that was taken with it; it does nothing else to it. */
  ghost predicate TouchesNothing(s: State, step: Step, t: nat)
    requires Enabled(s, step) && t < |s.senders|
  {
    var s' := Apply(s, step);
    && s'.cells == s.cells && s'.log == s.log && s'.numReceivers == s.numReceivers && s'.receivers == s.receivers
    && t < |s'.senders|
    && ((s'.token == s.token && s'.writeHead == s.writeHead)
        || (s.token.Free? && s'.token == Held(t) && s'.writeHead == TAKEN && TokenId(s'.senders[t]) == Some(s.writeHead))
        || (s.token == Held(t) && s'.token.Free? && TokenId(s.senders[t]) == Some(s'.writeHead)))
  }

  ghost predicate OwnStepsTouchNothing(s: State, steps: seq<Step>, t: nat)
    requires Legal(s, steps) && t < |s.senders|
    decreases |steps|
  {
    steps != [] ==>
      && (Actor(steps[0]) == SenderThread(t) ==> TouchesNothing(s, steps[0], t))
      && t < |Apply(s, steps[0]).senders|
      && OwnStepsTouchNothing(Apply(s, steps[0]), steps[1..], t)
  }

  lemma AttemptStep(s: State, step: Step, t: nat, op: Op)
    requires Inv(s) && Enabled(s, step) && (op.TrySend? || op.TrySendBefore?)
    requires t < |s.senders| && Attempting(s.senders[t], op) && (step.Begin? ==> step.t != t)
    ensures t < |Apply(s, step).senders|
    ensures Attempting(Apply(s, step).senders[t], op) || EndsOtherwise(Apply(s, step).senders[t], op)
    ensures Apply(s, step).senders[t].NotifyingHead? ==> Apply(s, step).senders[t].op == op
    ensures Actor(step) == SenderThread(t) && Attempting(Apply(s, step).senders[t], op) ==> TouchesNothing(s, step, t)
  {
    OthersUntouched(s, step);
  }

  /** A try_send that ends in Full and a try_send_before that ends in Timeout, whatever other
      threads do meanwhile: no step of the call has touched a cell, a counter or the log, and
      it has not abandoned the token. If it took it, it has put it back with the same id. */
  lemma {:induction false} FailedAttemptLeavesNoTrace(s: State, steps: seq<Step>, t: nat, op: Op)
    requires Inv(s) && Legal(s, steps) && NoCallBy(t, steps) && (op.TrySend? || op.TrySendBefore?)
    requires t < |s.senders| && Attempting(s.senders[t], op)
    requires t < |Execute(s, steps).senders| && Execute(s, steps).senders[t] == SenderIdle(Refusal(op))
    ensures OwnStepsTouchNothing(s, steps, t)
    ensures Execute(s, steps).token != Held(t)
    decreases |steps|
  {
    if steps == [] {
    } else {
      AttemptStep(s, steps[0], t, op);
      if EndsOtherwise(Apply(s, steps[0]).senders[t], op) {
        OtherEndsStay(Apply(s, steps[0]), steps[1..], t, op);
      } else {
        StepInv(s, steps[0]);
        FailedAttemptLeavesNoTrace(Apply(s, steps[0]), steps[1..], t, op);
      }
    }
  }

  /** The sender holds an id and has yet to find its cell free; a poll may be between calls. */
  predicate BeforeItsCell(pc: SenderPc) {
    pc.Looking? || pc.Waiting? || pc.Polling? || (pc.Pended? && pc.held.Some?)
  }

  /** And the cell is still counted on. */
  ghost predicate Blocked(s: State, t: nat) {
    && |s.cells| > 0 && t < |s.senders| && BeforeItsCell(s.senders[t])
    && CellOf(s, TokenId(s.senders[t]).value).readCounter != 0
  }

  /** A receiver a whole window behind that can move: it is inside an operation, or the id
      it needs is published where it looks, or that id is in flight with a sender. */
  ghost predicate CanBeHelped(s: State, r: nat) {
    && |s.cells| > 0 && r < |s.receivers| && Live(s.receivers[r])
    && s.receivers[r].held + |s.cells| == |s.log|
    && var x := s.receivers[r];
       || Enabled(s, Continue(r))
       || (Enabled(s, Look(r)) && CellOf(s, x.cursor).currentId == x.cursor)
       || (x.cursor < |s.log|
           && var u := s.log[x.cursor].author;
              u < |s.senders| && FlightId(s.senders[u]) == Some(x.cursor)
              && (Enabled(s, Advance(u)) || s.senders[u].Granted?))
  }

  lemma IdleReceiverIsServed(s: State, r: nat)
    requires Inv(s) && |s.cells| >= 2 && r < |s.receivers| && s.receivers[r].pc.ReceiverIdle?
    requires s.receivers[r].held + |s.cells| == |s.log|
    ensures CanBeHelped(s, r)
  {
    ReceiverSteps.AboutReceiver(s, r);
    var x := s.receivers[r];
    assert x.cursor < |s.log| <= x.cursor + |s.cells|;
    assert Live(x);
    if s.log[x.cursor].value.Some? {
      assert HasReceiver(s);
      assert CellOf(s, x.cursor).currentId == x.cursor;
    } else {
      var u := s.log[x.cursor].author;
      assert FlightId(s.senders[u]) == Some(x.cursor);
    }
  }

  lemma SlowestReceiver(s: State) returns (r: nat)
    requires Inv(s) && CellOf(s, |s.log|).readCounter != 0
    ensures r < |s.receivers| && Live(s.receivers[r]) && s.receivers[r].held + |s.cells| == |s.log|
  {
    CountedMeansFull(s);
    r :| 0 <= r < |s.receivers| && Live(s.receivers[r]) && Unread(s, s.receivers[r]) == |s.cells| - 1;
  }

  /** A blocked sender always has a slowest receiver that can move on or that a sender in
      flight is about to serve, if there are at least two cells. */
  lemma BlockedSenderHasHelp(s: State, t: nat) returns (r: nat)
    requires Inv(s) && Blocked(s, t) && |s.cells| >= 2
    ensures CanBeHelped(s, r)
  {
    assert TokenId(s.senders[t]) == Some(|s.log|);
    r := SlowestReceiver(s);
    if s.receivers[r].pc.ReceiverIdle? {
      IdleReceiverIsServed(s, r);
    }
  }
}
