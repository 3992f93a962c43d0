/** Exactly which operations can lose a wake-up on the write head, and why a sleeping sender is
    never stuck for want of a thread that can run. */
module HeadWakeups {
  import opened Prelude
  import opened Protocol
  import opened Invariant
  import opened Safety
  import opened Disconnect
  import opened Wakeups
  import Progress
  import LateSends
  import opened FirstSends
  import ReceiverSteps

  ghost predicate WUsesOnly(xs: seq<WStep>, kinds: set<Kind>) {
    forall i :: 0 <= i < |xs| && xs[i].Do? && xs[i].step.Begin? ==> KindOf(xs[i].step.op) in kinds
  }

  lemma {:induction false} KindsAtEnd(n: nat, path: seq<WState>, xs: seq<WStep>, kinds: set<Kind>)
    requires WRun(n, path, xs) && WUsesOnly(xs, kinds)
    ensures AllInKinds(path[|xs|].s, kinds) && Inv(path[|xs|].s)
    decreases |xs|
  {
    if xs == [] {
      InitInv(n);
    } else {
      var k := |xs| - 1;
      WRunPrefix(n, path, xs);
      KindsAtEnd(n, path[..k + 1], xs[..k], kinds);
      if xs[k].Do? {
        KindsStep(path[k].s, xs[k].step, kinds);
        StepInv(path[k].s, xs[k].step);
      }
    }
  }

  lemma KindsAlongRun(n: nat, path: seq<WState>, xs: seq<WStep>, kinds: set<Kind>)
    requires WRun(n, path, xs) && WUsesOnly(xs, kinds)
    ensures forall i :: 0 <= i < |path| ==> AllInKinds(path[i].s, kinds) && Inv(path[i].s)
  {
    forall i | 0 <= i < |path|
      ensures AllInKinds(path[i].s, kinds) && Inv(path[i].s)
    {
      assert WRun(n, path[..i + 1], xs[..i]);
      KindsAtEnd(n, path[..i + 1], xs[..i], kinds);
    }
  }

  // ---- a rollback forgets a sleeper ----

  function AllAwake(s: State): WState {
    WState(s, seq(|s.senders|, i => Awake), seq(|s.receivers|, i => Awake), seq(|s.receivers|, i => None))
  }

  lemma AwakeStep(s: State, step: Step)
    requires Enabled(s, step) && !step.Repoll? && !step.Pend?
    ensures WNext(AllAwake(s), Do(step), AllAwake(Apply(s, step)))
  {
    OthersUntouched(s, step);
  }

  predicate NothingPolledAgain(steps: seq<Step>) {
    forall i :: 0 <= i < |steps| ==> !steps[i].Repoll? && !steps[i].Pend?
  }

  /** A run that goes on without anybody waiting. */
  lemma {:induction false} AwakeRun(n: nat, path: seq<WState>, xs: seq<WStep>, steps: seq<Step>, kinds: set<Kind>)
    returns (path': seq<WState>, xs': seq<WStep>)
    requires WRun(n, path, xs) && WUsesOnly(xs, kinds) && path[|xs|] == AllAwake(path[|xs|].s)
    requires Legal(path[|xs|].s, steps) && UsesOnly(steps, kinds) && NothingPolledAgain(steps)
    ensures WRun(n, path', xs') && WUsesOnly(xs', kinds)
    ensures path'[|xs'|] == AllAwake(Execute(path[|xs|].s, steps))
    decreases |steps|
  {
    if steps == [] {
      path', xs' := path, xs;
    } else {
      var s := path[|xs|].s;
      AwakeStep(s, steps[0]);
      path', xs' := Extend(n, path, xs, Do(steps[0]), AllAwake(Apply(s, steps[0])), kinds);
      path', xs' := AwakeRun(n, path', xs', steps[1..], kinds);
    }
  }

  /** Without a call of poll_ready there is nothing to poll again. */
  lemma {:induction false} NoPollsNoRepoll(s: State, steps: seq<Step>, kinds: set<Kind>)
    requires AllInKinds(s, kinds) && Legal(s, steps) && UsesOnly(steps, kinds) && Polls !in kinds
    ensures NothingPolledAgain(steps)
    decreases |steps|
  {
    if steps == [] {
    } else {
      KindsStep(s, steps[0], kinds);
      NoPollsNoRepoll(Apply(s, steps[0]), steps[1..], kinds);
    }
  }

  lemma Extend(n: nat, path: seq<WState>, xs: seq<WStep>, x: WStep, w: WState, kinds: set<Kind>)
    returns (path': seq<WState>, xs': seq<WStep>)
    requires WRun(n, path, xs) && WUsesOnly(xs, kinds) && WNext(path[|xs|], x, w)
    requires x.Do? && x.step.Begin? ==> KindOf(x.step.op) in kinds
    ensures WRun(n, path', xs') && WUsesOnly(xs', kinds) && |xs'| == |xs| + 1 && path'[|xs'|] == w
  {
    path', xs' := path + [w], xs + [x];
  }

  /** The first sender is about to put its token back, the second is about to take. */
  function AboutToRollBack(a: Op, b: Op, v: Value): State {
    Published(v, [RollingBack(a, 2), Taking(b)]).(writeHead := TAKEN, token := Held(0))
  }

  /** Both senders call again and stand before the swap. */
  lemma GetBothTaking(a: Op, b: Op, v: Value) returns (steps: seq<Step>)
    requires CanRollBack(a) && ValueOf(a) == Some(v) && (b.Send? || b.TrySendBefore?)
    ensures Legal(Init(2), steps) && UsesOnly(steps, {KindOf(a), KindOf(b)})
    ensures Execute(Init(2), steps) == Published(v, [Taking(a), Taking(b)])
  {
    steps := FirstSend(a, v);
    var s := Init(2);
    RunStep(s, steps, Begin(1, b));
    steps := steps + [Begin(1, b)];
    RunStep(s, steps, Begin(0, a));
    steps := steps + [Begin(0, a)];
    if a.TrySend? {
      RunStep(s, steps, Advance(0));
      steps := steps + [Advance(0)];
    }
  }

  lemma GetAboutToRollBack(a: Op, b: Op, v: Value) returns (steps: seq<Step>)
    requires CanRollBack(a) && ValueOf(a) == Some(v) && (b.Send? || b.TrySendBefore?)
    ensures Legal(Init(2), steps) && UsesOnly(steps, {KindOf(a), KindOf(b)})
    ensures Execute(Init(2), steps) == AboutToRollBack(a, b, v)
  {
    steps := GetBothTaking(a, b, v);
    var s, x := Init(2), Advance(0);
    RunStep(s, steps, x);
    steps := steps + [x];
    assert Execute(s, steps) == Published(v, [Looking(a, 2), Taking(b)]).(writeHead := TAKEN, token := Held(0));
    RunStep(s, steps, x);
    steps := steps + [x];
    if a.TrySendBefore? {
      RunStep(s, steps, x);
      steps := steps + [x];
      RunStep(s, steps, GiveUp(0));
      steps := steps + [GiveUp(0)];
    }
  }

  /** The second sender registers, tries in vain and parks; ... */
  lemma FallAsleep(a: Op, b: Op, v: Value)
    requires CanRollBack(a) && (b.Send? || b.TrySendBefore?)
    ensures var s := AboutToRollBack(a, b, v);
            var listening := WState(s, [Awake, Listening(false)], [Awake], [None]);
            && WNext(AllAwake(s), Listen(SenderThread(1)), listening)
            && WNext(listening, Do(Advance(1)), WState(s, [Awake, Parked(false)], [Awake], [None]))
  {
    var s := AboutToRollBack(a, b, v);
    assert AllAwake(s) == WState(s, [Awake, Awake], [Awake], [None]);
    assert Apply(s, Advance(1)) == s;
  }

  /** ... the first puts the token back. */
  lemma RollBackOverSleeper(a: Op, b: Op, v: Value) returns (w: WState)
    requires CanRollBack(a) && (b.Send? || b.TrySendBefore?)
    ensures WNext(WState(AboutToRollBack(a, b, v), [Awake, Parked(false)], [Awake], [None]), Do(Advance(0)), w)
    ensures !HeadRemembered(w)
  {
    var s' := Apply(AboutToRollBack(a, b, v), Advance(0));
    assert s'.senders == [SenderIdle(Refusal(a)), Taking(b)] && s'.writeHead == 2;
    w := WState(s', [Awake, Parked(false)], [Awake], [None]);
    assert OnHead(w, 1) && Asleep(w.ss[1]);
  }

  /** A Full or a Timeout puts the token back and wakes nobody: the sender that went to sleep
      meanwhile sleeps on a free head without hope. */
  lemma RollBackForgets(a: Op, b: Op, v: Value) returns (path: seq<WState>, xs: seq<WStep>)
    requires CanRollBack(a) && ValueOf(a) == Some(v) && (b.Send? || b.TrySendBefore?)
    ensures WRun(2, path, xs) && WUsesOnly(xs, {KindOf(a), KindOf(b)})
    ensures !HeadRemembered(path[|xs|])
  {
    var kinds := {KindOf(a), KindOf(b)};
    var s := AboutToRollBack(a, b, v);
    var steps := GetAboutToRollBack(a, b, v);
    FallAsleep(a, b, v);
    var w := RollBackOverSleeper(a, b, v);
    assert WInit(2) == AllAwake(Init(2));
    NoPollsNoRepoll(Init(2), steps, kinds);
    path, xs := AwakeRun(2, [WInit(2)], [], steps, kinds);
    path, xs := Extend(2, path, xs, Listen(SenderThread(1)), WState(s, [Awake, Listening(false)], [Awake], [None]), kinds);
    path, xs := Extend(2, path, xs, Do(Advance(1)), WState(s, [Awake, Parked(false)], [Awake], [None]), kinds);
    path, xs := Extend(2, path, xs, Do(Advance(0)), w, kinds);
  }

  // ---- and so does a poll that returns Disconnected ----

  /** Three polls: the first has the token and a safe cell, the others are about to take. */
  function ThreePolls(): State {
    Init(2).(senders := [Restoring(PollReady, 1), Taking(PollReady), Taking(PollReady)], writeHead := TAKEN, token := Held(0))
  }

  lemma GetThreePolls(v: Value) returns (steps: seq<Step>)
    ensures Legal(Init(2), steps) && UsesOnly(steps, {Polls}) && NothingPolledAgain(steps)
    ensures Execute(Init(2), steps) == ThreePolls()
  {
    var poised := LateSends.GetPoised(2, true, [v, v, v]);
    var s, a := Execute(Init(2), poised), Advance(0);
    assert s.senders == [Taking(PollReady), Taking(PollReady), Taking(PollReady)];
    LateSends.RunTwo(s, a, a);
    ExecuteConcat(Init(2), poised, [a, a]);
    steps := poised + [a, a];
  }

  /** A poll registers, tries in vain and returns Pending. */
  lemma PollPends(w: WState, t: nat) returns (w1: WState, w2: WState, w3: WState)
    requires Sized(w) && w.s.writeHead == TAKEN && t < |w.ss|
    requires w.s.senders[t] == Taking(PollReady) && w.ss[t].Awake?
    ensures WNext(w, Listen(SenderThread(t)), w1) && WNext(w1, Do(Advance(t)), w2) && WNext(w2, Do(Pend(t)), w3)
    ensures w3 == w.(s := Put(w.s, t, Pended(None)), ss := w.ss[t := Parked(false)])
  {
    assert Apply(w.s, Advance(t)) == w.s;
    w1 := w.(ss := w.ss[t := Listening(false)]);
    w2 := w.(ss := w.ss[t := Parked(false)]);
    w3 := w.(s := Put(w.s, t, Pended(None)), ss := w.ss[t := Parked(false)]);
  }

  const TWO_PENDING: seq<SenderPc> := [Pended(None), Pended(None)]

  /** The first puts the token back, the receiver leaves num_receivers, ... */
  lemma FirstPollGranted(w: WState) returns (w1: WState, w2: WState)
    requires Sized(w) && w.ss == [Awake, Parked(false), Parked(false)]
    requires w.s == ThreePolls().(senders := [Restoring(PollReady, 1)] + TWO_PENDING) && w.rs == [Awake]
    ensures WNext(w, Do(Advance(0)), w1) && WNext(w1, Do(BeginDrop(0)), w2) && Sized(w2)
    ensures w2.ss == w.ss && w2.rs == w.rs && w2.gs == w.gs && |w2.s.receivers| == 1
    ensures w2.s.senders == [NotifyingHead(PollReady, 1)] + TWO_PENDING
    ensures w2.s.writeHead == 2 && w2.s.numReceivers == 0
  {
    var s1 := Apply(w.s, Advance(0));
    assert s1.senders == [NotifyingHead(PollReady, 1)] + TWO_PENDING;
    w1 := w.(s := s1);
    w2 := w.(s := Apply(s1, BeginDrop(0)));
  }

  /** ... the second poll is notified; ... */
  lemma SecondPollNotified(w: WState) returns (w': WState)
    requires Sized(w) && w.ss == [Awake, Parked(false), Parked(false)] && |w.s.receivers| == 1
    requires w.s.senders == [NotifyingHead(PollReady, 1)] + TWO_PENDING
    ensures WNext(w, Do(Advance(0)), w') && w'.ss == [Awake, Parked(true), Parked(false)] && w'.rs == w.rs && w'.gs == w.gs
    ensures w'.s == w.s.(senders := [Granted(1)] + TWO_PENDING)
  {
    w' := w.(s := w.s.(senders := [Granted(1)] + TWO_PENDING), ss := [Awake, Parked(true), Parked(false)]);
    assert w'.s == Apply(w.s, Advance(0));
    assert OnHead(w', 1) && Notified(w'.ss[1]);
  }

  /** ... it is polled again, ... */
  lemma SecondPollAgain(w: WState) returns (w': WState)
    requires Sized(w) && w.ss == [Awake, Parked(true), Parked(false)] && w.s.senders == [Granted(1)] + TWO_PENDING
    ensures WNext(w, Do(Repoll(1)), w') && Sized(w') && w'.ss == [Awake, Listening(true), Parked(false)]
    ensures w'.s.senders == [Granted(1), Checking(PollReady), Pended(None)]
    ensures w'.s.writeHead == w.s.writeHead && w'.s.numReceivers == w.s.numReceivers
  {
    w' := w.(s := Apply(w.s, Repoll(1)), ss := [Awake, Listening(true), Parked(false)]);
  }

  /** ... finds no receivers, and keeps the wake-up to itself. */
  lemma SecondPollStrays(w: WState) returns (w': WState)
    requires Sized(w) && w.ss == [Awake, Listening(true), Parked(false)]
    requires w.s.senders == [Granted(1), Checking(PollReady), Pended(None)] && w.s.writeHead == 2 && w.s.numReceivers == 0
    ensures WNext(w, Do(Advance(1)), w') && Strays(w, Do(Advance(1)))
    ensures !HeadRemembered(w')
  {
    w' := w.(s := Apply(w.s, Advance(1)));
    assert w'.s.senders == [Granted(1), SenderIdle(Disconnected(None)), Pended(None)];
    assert OnHead(w', 2) && Asleep(w'.ss[2]);
  }

  /** With poll_ready alone and without a rollback: the poll that was notified returns
      Disconnected, and another sleeps on a free head without hope. */
  lemma StrayForgets(v: Value) returns (path: seq<WState>, xs: seq<WStep>)
    ensures WRun(2, path, xs) && WUsesOnly(xs, {Polls})
    ensures !HeadRemembered(path[|xs|])
  {
    var kinds := {Polls};
    var steps := GetThreePolls(v);
    assert WInit(2) == AllAwake(Init(2));
    path, xs := AwakeRun(2, [WInit(2)], [], steps, kinds);
    path, xs := PollsPendAlong(path, xs, kinds);
    var w1, w2 := FirstPollGranted(path[|xs|]);
    path, xs := Extend(2, path, xs, Do(Advance(0)), w1, kinds);
    path, xs := Extend(2, path, xs, Do(BeginDrop(0)), w2, kinds);
    var w3 := SecondPollNotified(w2);
    path, xs := Extend(2, path, xs, Do(Advance(0)), w3, kinds);
    var w4 := SecondPollAgain(w3);
    path, xs := Extend(2, path, xs, Do(Repoll(1)), w4, kinds);
    var w5 := SecondPollStrays(w4);
    path, xs := Extend(2, path, xs, Do(Advance(1)), w5, kinds);
  }

  lemma PollPendsAlong(path: seq<WState>, xs: seq<WStep>, t: nat, kinds: set<Kind>) returns (path': seq<WState>, xs': seq<WStep>)
    requires WRun(2, path, xs) && WUsesOnly(xs, kinds)
    requires var w := path[|xs|];
             Sized(w) && w.s.writeHead == TAKEN && t < |w.ss| && w.s.senders[t] == Taking(PollReady) && w.ss[t].Awake?
    ensures WRun(2, path', xs') && WUsesOnly(xs', kinds)
    ensures var w := path[|xs|];
            path'[|xs'|] == w.(s := Put(w.s, t, Pended(None)), ss := w.ss[t := Parked(false)])
  {
    var w1, w2, w3 := PollPends(path[|xs|], t);
    path', xs' := Extend(2, path, xs, Listen(SenderThread(t)), w1, kinds);
    path', xs' := Extend(2, path', xs', Do(Advance(t)), w2, kinds);
    path', xs' := Extend(2, path', xs', Do(Pend(t)), w3, kinds);
  }

  lemma PollsPendAlong(path: seq<WState>, xs: seq<WStep>, kinds: set<Kind>) returns (path': seq<WState>, xs': seq<WStep>)
    requires WRun(2, path, xs) && WUsesOnly(xs, kinds) && path[|xs|] == AllAwake(ThreePolls())
    ensures WRun(2, path', xs') && WUsesOnly(xs', kinds)
    ensures var w := path'[|xs'|];
            && Sized(w) && w.ss == [Awake, Parked(false), Parked(false)] && w.rs == [Awake]
            && w.s == ThreePolls().(senders := [Restoring(PollReady, 1)] + TWO_PENDING)
  {
    path', xs' := PollPendsAlong(path, xs, 1, kinds);
    path', xs' := PollPendsAlong(path', xs', 2, kinds);
  }

  // ---- exactly when the head is safe ----

  lemma KindsKeepHead(n: nat, path: seq<WState>, xs: seq<WStep>, kinds: set<Kind>)
    requires WRun(n, path, xs) && WUsesOnly(xs, kinds) && Polls !in kinds && TimedSends !in kinds
    requires TrySends !in kinds || Sends !in kinds
    ensures HeadRemembered(path[|xs|])
  {
    KindsAlongRun(n, path, xs, kinds);
    if TrySends !in kinds {
      forall i | 0 <= i < |xs|
        ensures !MayForget(path[i], xs[i])
      {
        NoPollNoStray(path[i], xs[i], kinds);
        NoTimedNoRollBack(path[i].s, xs[i], kinds);
      }
      NoLostWakeupOnHead(n, path, xs);
    } else {
      forall i | 0 <= i < |xs|
        ensures !Strays(path[i], xs[i])
      {
        NoPollNoStray(path[i], xs[i], kinds);
      }
      NoStraysRun(n, path, xs);
      var w := path[|xs|];
      forall t
        ensures !(OnHead(w, t) && Asleep(w.ss[t]))
      {
        assert 0 <= t < |w.s.senders| ==> InKinds(w.s.senders[t], kinds);
      }
    }
  }

  lemma NoPollNoStray(w: WState, x: WStep, kinds: set<Kind>)
    requires AllInKinds(w.s, kinds) && Polls !in kinds
    ensures !Strays(w, x)
  {
  }

  lemma NoTimedNoRollBack(s: State, x: WStep, kinds: set<Kind>)
    requires AllInKinds(s, kinds) && OpsInv(s) && TrySends !in kinds && TimedSends !in kinds
    ensures !IsRollBack(s, x)
  {
    assert IsRollBack(s, x) ==> InKinds(s.senders[x.step.t], kinds) && OpFits(s.senders[x.step.t]);
  }

  /** Wake-ups on the write head are safe for exactly these sets of operations: no poll_ready,
      no try_send_before, and not both of try_send and send. Otherwise some call puts the
      token back without a notification, or keeps a notification, while another sleeps. */
  lemma HeadSafeExactlyWithout(kinds: set<Kind>, v: Value)
    ensures (forall n: nat, path: seq<WState>, xs: seq<WStep> :: WRun(n, path, xs) && WUsesOnly(xs, kinds) ==>
               HeadRemembered(path[|xs|]))
            <==> Polls !in kinds && TimedSends !in kinds && (TrySends !in kinds || Sends !in kinds)
  {
    if Polls in kinds {
      var path, xs := StrayForgets(v);
      assert WUsesOnly(xs, kinds);
    } else if TimedSends !in kinds && (TrySends !in kinds || Sends !in kinds) {
      forall n: nat, path: seq<WState>, xs: seq<WStep> | WRun(n, path, xs) && WUsesOnly(xs, kinds)
        ensures HeadRemembered(path[|xs|])
      {
        KindsKeepHead(n, path, xs, kinds);
      }
    } else {
      var a := if TimedSends in kinds then TrySendBefore(v) else TrySend(v);
      var b := if TimedSends in kinds then TrySendBefore(v) else Send(v);
      var path, xs := RollBackForgets(a, b, v);
      assert WUsesOnly(xs, kinds);
    }
  }

  // ---- sleeping senders and the threads that help them ----

  /** The receiver is not asleep: it is running, or its listener is notified. */
  ghost predicate ReceiverCanRun(w: WState, r: nat)
    requires Sized(w) && r < |w.rs|
  {
    !Asleep(w.rs[r]) && !Dozes(w, r)
  }

  /** The cell on which a sleeping receiver listens. */
  function ListensOn(w: WState, r: nat): nat
    requires |w.s.cells| > 0 && r < |w.s.receivers| && r < |w.rs| && r < |w.gs|
  {
    if w.rs[r].Dozing? && w.gs[r].Some? then w.gs[r].value.cell else Slot(w.s.receivers[r].cursor, |w.s.cells|)
  }

  /** What keeps a sleeping sender's hope alive. */
  ghost predicate HelpAtHand(w: WState, i: nat)
    requires Sized(w)
  {
    || CellNotifier(w.s, i)
    || (exists r :: 0 <= r < |w.rs| && Progress.CanBeHelped(w.s, r)
          && (|| (Enabled(w.s, Continue(r)) && ReceiverCanRun(w, r))
              || (Enabled(w.s, Look(r)) && CellOf(w.s, w.s.receivers[r].cursor).currentId == w.s.receivers[r].cursor
                  && (ReceiverCanRun(w, r) || CellNotifier(w.s, ListensOn(w, r))))
              || (exists u :: 0 <= u < |w.ss| && FlightId(w.s.senders[u]) == Some(w.s.receivers[r].cursor)
                              && !Asleep(w.ss[u]) && (Enabled(w.s, Advance(u)) || w.s.senders[u].Granted?))))
  }

  /** Deadlock freedom with sleeping threads: a sender that sleeps on a full cell, or a poll of
      it that returned Pending, has a thread that is about to wake it, or a slowest receiver
      that can run and move, or one that is about to be woken where it listens, or one whose
      next id is with a sender that can run, be it by its start_send. */
  lemma SleepingSenderHasHelp(n: nat, path: seq<WState>, xs: seq<WStep>, t: nat)
    requires WRun(n, path, xs) && n >= 2
    requires var w := path[|xs|]; t < |w.s.senders| && t < |w.ss| && HoldsOnCell(w.s.senders[t]) && Asleep(w.ss[t])
    ensures var w := path[|xs|];
            Sized(w) && |w.s.cells| >= 2 && HelpAtHand(w, Slot(TokenId(w.s.senders[t]).value, |w.s.cells|))
  {
    CellRun(n, path, xs);
    CellsAlongRun(n, path, xs);
    var w := path[|xs|];
    var i := Slot(TokenId(w.s.senders[t]).value, |w.s.cells|);
    if w.s.cells[i].readCounter != 0 {
      var r := Progress.BlockedSenderHasHelp(w.s, t);
      HelperRuns(w, r, i);
    }
  }

  lemma HelperRuns(w: WState, r: nat, i: nat)
    requires CellsInv(w) && Progress.CanBeHelped(w.s, r)
    ensures HelpAtHand(w, i)
  {
    var x := w.s.receivers[r];
    if !x.pc.ReceiverIdle? {
      assert ReceiverEvent(w.s, r).None?;
      assert w.rs[r].Awake?;
    } else if CellOf(w.s, x.cursor).currentId == x.cursor {
      ReadableRuns(w, r);
    } else {
      var u := w.s.log[x.cursor].author;
      assert SenderEvent(w.s, u).None?;
      assert !Asleep(w.ss[u]);
    }
  }

  lemma ReadableRuns(w: WState, r: nat)
    requires CellsInv(w) && r < |w.rs| && w.s.receivers[r].pc.ReceiverIdle?
    requires CellOf(w.s, w.s.receivers[r].cursor).currentId == w.s.receivers[r].cursor
    ensures ReceiverCanRun(w, r) || CellNotifier(w.s, ListensOn(w, r))
  {
    if Dozes(w, r) {
      ReceiverSteps.AboutReceiver(w.s, r);
      ReceiverSteps.SeenIsPublished(w.s, w.s.receivers[r].cursor);
      DozerRemembered(w, r);
    }
  }

  lemma {:induction false} CellsAlongRun(n: nat, path: seq<WState>, xs: seq<WStep>)
    requires WRun(n, path, xs)
    ensures |path[|xs|].s.cells| == n
    decreases |xs|
  {
    if xs == [] {
    } else {
      var k := |xs| - 1;
      WRunPrefix(n, path, xs);
      CellsAlongRun(n, path[..k + 1], xs[..k]);
      if xs[k].Do? {
        OthersUntouched(path[k].s, xs[k].step);
      }
    }
  }
}
