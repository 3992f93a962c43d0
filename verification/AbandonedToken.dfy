/** The Disconnected returns of send, try_send_before and a poll_ready that holds an id keep the
    token, and what follows from it. */
module AbandonedToken {
  import opened Prelude
  import opened Protocol
  import opened Invariant
  import opened Safety
  import LateSends
  import Progress
  import Disconnect
  import Shutdown
  import ReceiverSteps
  import FirstSends

  // ---- when the token is lost ----

  /** Without receivers, a sender that stands here will never restore its id: it is about to
      find that there are no receivers, or it has, and holds the id between two polls. */
  predicate KeepsToken(s: State, pc: SenderPc)
    requires |s.cells| > 0
  {
    match pc
    case Pended(held) => held.Some?
    case Polling(_) => true
    case Confirming(_, _) => true
    case Looking(op, id) => !op.TrySend? && CellOf(s, id).readCounter == 0
    case _ => false
  }

  /** Some Disconnected has kept the token, or is bound to. */
  ghost predicate TokenLost(s: State) {
    && |s.cells| > 0
    && match s.token
       case Free => false
       case Abandoned => true
       case Held(h) => s.numReceivers == 0 && h < |s.senders| && KeepsToken(s, s.senders[h])
  }

  /** The poll that holds an id stays between polls or at the load of num_receivers. */
  predicate InVain(pc: SenderPc, id: nat) {
    pc == Pended(Some(id)) || pc == Polling(id)
  }

  lemma NobodyHolds(s: State)
    requires Inv(s) && s.token.Abandoned?
    ensures forall t :: 0 <= t < |s.senders| ==> TokenId(s.senders[t]).None?
  {
  }

  /** Nobody steps on a cell any more once num_receivers is zero. */
  lemma ZeroCounterStays(s: State, step: Step, i: nat)
    requires Inv(s) && Enabled(s, step) && s.numReceivers == 0 && i < |s.cells| && s.cells[i].readCounter == 0
    ensures i < |Apply(s, step).cells| && Apply(s, step).cells[i].readCounter == 0
  {
    NoneRegistered(s);
    if step.Continue? && (s.receivers[step.r].pc.OnBoth? || s.receivers[step.r].pc.Dropping?) {
      ReceiverSteps.CountedOnPrevious(s, step.r);
    }
  }

  /** A step that is not the holder's does nothing to a token that is not in the head. */
  lemma OthersLeaveToken(s: State, step: Step)
    requires Enabled(s, step) && s.writeHead == TAKEN
    requires step.Advance? ==> TokenId(s.senders[step.t]).None?
    ensures var s' := Apply(s, step);
            s'.token == s.token && s'.writeHead == TAKEN && |s'.log| == |s.log|
  {
    LogEffect(s, step);
  }

  lemma NotTheHolder(s: State, step: Step)
    requires Inv(s) && Enabled(s, step) && !s.token.Free? && step.Advance?
    requires s.token.Held? ==> step.t != s.token.holder
    ensures TokenId(s.senders[step.t]).None?
  {
  }

  lemma TokenStays(s: State, step: Step)
    requires Inv(s) && Enabled(s, step) && !s.token.Free?
    requires s.token.Held? ==> Actor(step) != SenderThread(s.token.holder)
    ensures var s' := Apply(s, step);
            s'.token == s.token && s'.writeHead == TAKEN && |s'.log| == |s.log|
  {
    if step.Advance? {
      NotTheHolder(s, step);
    }
    OthersLeaveToken(s, step);
  }

  /** Nor does the holder, when it keeps the token. */
  lemma HolderKeeps(s: State, step: Step)
    requires Inv(s) && Enabled(s, step) && TokenLost(s) && s.token.Held? && Actor(step) == SenderThread(s.token.holder)
    ensures var s', h := Apply(s, step), s.token.holder;
            && s'.writeHead == TAKEN && |s'.log| == |s.log| && h < |s'.senders|
            && (s'.token.Abandoned? || (s'.token == s.token && KeepsToken(s', s'.senders[h])))
            && (forall id :: InVain(s.senders[h], id) ==> s'.token == s.token && InVain(s'.senders[h], id))
  {
    LogEffect(s, step);
    assert OpFits(s.senders[s.token.holder]);
  }

  lemma LostStep(s: State, step: Step)
    requires Inv(s) && Enabled(s, step) && TokenLost(s)
    ensures var s' := Apply(s, step);
            && TokenLost(s') && s'.writeHead == TAKEN && |s'.log| == |s.log|
            && (s.token.Held? ==>
                  forall id :: InVain(s.senders[s.token.holder], id) ==>
                    s'.token == s.token && s.token.holder < |s'.senders| && InVain(s'.senders[s.token.holder], id))
  {
    OthersUntouched(s, step);
    if s.token.Held? {
      NoReceiversStep(s, step);
      if Actor(step) == SenderThread(s.token.holder) {
        HolderKeeps(s, step);
      } else {
        TokenStays(s, step);
        if s.senders[s.token.holder].Looking? {
          ZeroCounterStays(s, step, Slot(s.senders[s.token.holder].id, |s.cells|));
        }
      }
    } else {
      TokenStays(s, step);
    }
  }

  lemma SwapInVain(s: State, step: Step, t: nat)
    requires Enabled(s, step) && s.writeHead == TAKEN && t < |s.senders| && s.senders[t].Taking? && s.senders[t].op.Send?
    ensures t < |Apply(s, step).senders| && Apply(s, step).senders[t] == s.senders[t]
  {
    OthersUntouched(s, step);
  }

  /** Once lost, the token never comes back: no id is granted any more, a send that waits for
      the token waits forever, and a poll that holds the id is never Ready, in every
      continuation. */
  lemma {:induction false} AbandonedForever(s: State, steps: seq<Step>)
    requires Inv(s) && TokenLost(s) && Legal(s, steps)
    ensures var s' := Execute(s, steps);
            && TokenLost(s') && s'.writeHead == TAKEN && |s'.log| == |s.log| && |s.senders| <= |s'.senders|
            && (forall t :: 0 <= t < |s.senders| && s.senders[t].Taking? && s.senders[t].op.Send? ==> s'.senders[t] == s.senders[t])
            && (s.token.Held? ==>
                  forall id :: InVain(s.senders[s.token.holder], id) ==>
                    s'.token == s.token && InVain(s'.senders[s.token.holder], id))
    decreases |steps|
  {
    if steps == [] {
    } else {
      var s1 := Apply(s, steps[0]);
      LostStep(s, steps[0]);
      OthersUntouched(s, steps[0]);
      StepInv(s, steps[0]);
      AbandonedForever(s1, steps[1..]);
      forall t | 0 <= t < |s.senders| && s.senders[t].Taking? && s.senders[t].op.Send?
        ensures Execute(s, steps).senders[t] == s.senders[t]
      {
        SwapInVain(s, steps[0], t);
      }
    }
  }

  /** A send or try_send_before alone on a channel without receivers whose token is free: it
      returns Disconnected and abandons the token. */
  lemma FreeSendDisconnects(s: State, t: nat, op: Op)
    requires Inv(s) && !HasReceiver(s) && t < |s.senders| && s.token.Free?
    requires s.senders[t] == Taking(op) && (op.Send? || op.TrySendBefore?)
    ensures var steps := [Advance(t), Advance(t), Advance(t)];
            && Legal(s, steps)
            && Execute(s, steps) == Put(s.(writeHead := TAKEN, token := Abandoned), t, SenderIdle(Disconnected(ValueOf(op))))
  {
    NobodyLeft(s);
    var a := Advance(t);
    var taken := Apply(s, a);
    assert taken == Put(s.(writeHead := TAKEN, token := Held(t)), t, Looking(op, |s.log|));
    assert Apply(taken, a) == Put(taken, t, Confirming(op, |s.log|));
    LateSends.RunThree(s, a, a, a);
  }

  /** t runs alone for k steps. */
  function Alone(t: nat, k: nat): seq<Step> {
    seq(k, i => Advance(t))
  }

  /** "Continued use will always return this error" holds of a send or a try_send_before that is
      left alone exactly if the head is not taken: without receivers it returns Disconnected,
      with its value, if and only if the write head is not TAKEN at the call. */
  lemma SendReturnsExactlyWhenHeadIsFree(s: State, t: nat, op: Op)
    requires Reachable(s) && !HasReceiver(s) && t < |s.senders| && s.senders[t].SenderIdle?
    requires op.Send? || op.TrySendBefore?
    ensures var called := Apply(s, Begin(t, op));
            (exists k: nat :: Legal(called, Alone(t, k)) && t < |Execute(called, Alone(t, k)).senders|
                              && Execute(called, Alone(t, k)).senders[t] == SenderIdle(Disconnected(ValueOf(op))))
            <==> s.writeHead != TAKEN
  {
    ReachableInv(s);
    var called := Apply(s, Begin(t, op));
    if s.writeHead != TAKEN {
      StepInv(s, Begin(t, op));
      FreeSendDisconnects(called, t, op);
      assert Alone(t, 3) == [Advance(t), Advance(t), Advance(t)];
      assert Execute(called, Alone(t, 3)).senders[t].SenderIdle?;
    } else {
      assert Apply(called, Advance(t)) == called;
      forall k: nat
        ensures Legal(called, Alone(t, k)) && Execute(called, Alone(t, k)) == called
      {
        Progress.ChecksInVain(called, t, k);
      }
    }
  }

  // ---- whether a send can return at all ----

  predicate LetsGo(pc: SenderPc) {
    pc.Waiting? || pc.Restoring? || pc.RollingBack?
  }

  /** The holder comes past its checks of num_receivers, unless the token is lost. */
  lemma HolderPassesChecks(s: State, h: nat) returns (steps: seq<Step>)
    requires Inv(s) && s.token == Held(h) && !TokenLost(s)
    ensures Legal(s, steps)
    ensures var e := Execute(s, steps);
            && h < |s.senders| && |e.senders| == |s.senders| && LetsGo(e.senders[h]) && e == Put(s, h, e.senders[h])
  {
    var a, pc := Advance(h), s.senders[h];
    assert TokenId(pc).Some? && OpFits(pc);
    assert Put(s, h, pc) == s;
    if LetsGo(pc) {
      steps := [];
    } else if pc.Pended? {
      steps := [Repoll(h), a];
      LateSends.RunTwo(s, Repoll(h), a);
    } else if pc.Looking? && !pc.op.TrySend? && CellOf(s, pc.id).readCounter == 0 {
      steps := [a, a];
      LateSends.RunTwo(s, a, a);
    } else {
      steps := [a];
      RunOne(s, a);
    }
  }

  lemma RunOne(s: State, a: Step)
    requires Enabled(s, a)
    ensures Legal(s, [a]) && Execute(s, [a]) == Apply(s, a)
  {
    assert [a][1..] == [] && Legal(Apply(s, a), []);
    assert Legal(s, [a]);
  }

  /** And then it puts the token back, when the receivers are gone. */
  lemma HolderPutsBack(s: State, h: nat) returns (steps: seq<Step>)
    requires Inv(s) && s.token == Held(h) && LetsGo(s.senders[h]) && !HasReceiver(s) && |s.log| + 1 < TAKEN
    ensures Legal(s, steps)
    ensures var e := Execute(s, steps);
            && e.token.Free? && |e.senders| == |s.senders| && e.senders == s.senders[h := e.senders[h]]
            && e.receivers == s.receivers
  {
    var a, pc := Advance(h), s.senders[h];
    assert TokenId(pc) == Some(|s.log|);
    NobodyLeft(s);
    if pc.Waiting? {
      assert Apply(s, a) == Put(s, h, Restoring(pc.op, pc.id));
      steps := [a, a];
      LateSends.RunTwo(s, a, a);
    } else {
      steps := [a];
      RunOne(s, a);
    }
  }

  /** A state in which t still stands before its swap, reached from s. */
  ghost predicate StillBefore(s: State, steps: seq<Step>, t: nat, v: Value) {
    && Legal(s, steps) && t < |Execute(s, steps).senders| && Execute(s, steps).senders[t] == Taking(Send(v))
    && Inv(Execute(s, steps))
  }

  lemma GoOn(s: State, a: seq<Step>, b: seq<Step>, t: nat, v: Value) returns (c: seq<Step>)
    requires StillBefore(s, a, t, v) && Legal(Execute(s, a), b)
    requires t < |Execute(Execute(s, a), b).senders| && Execute(Execute(s, a), b).senders[t] == Taking(Send(v))
    ensures StillBefore(s, c, t, v) && Execute(s, c) == Execute(Execute(s, a), b)
  {
    ExecuteConcat(s, a, b);
    RunInv(Execute(s, a), b);
    c := a + b;
  }

  /** If the token is not lost, the others can bring it back and be gone. */
  lemma TokenComesBack(s: State, t: nat, v: Value) returns (steps: seq<Step>)
    requires Inv(s) && t < |s.senders| && s.senders[t] == Taking(Send(v)) && |s.log| + 1 < TAKEN && !TokenLost(s)
    ensures StillBefore(s, steps, t, v) && Execute(s, steps).token.Free? && !HasReceiver(Execute(s, steps))
  {
    steps := [];
    if s.token.Held? {
      var pass := HolderPassesChecks(s, s.token.holder);
      assert TokenId(s.senders[s.token.holder]).Some?;
      steps := GoOn(s, steps, pass, t, v);
    }
    var s1 := Execute(s, steps);
    var down := Shutdown.ShutDown(s1);
    steps := GoOn(s, steps, down, t, v);
    var s2 := Execute(s, steps);
    if s2.token.Held? {
      var back := HolderPutsBack(s2, s2.token.holder);
      assert TokenId(s2.senders[s2.token.holder]).Some?;
      steps := GoOn(s, steps, back, t, v);
    }
  }

  /** The sender's call returns in some continuation. */
  ghost predicate CanReturn(s: State, t: nat) {
    exists steps: seq<Step> :: Legal(s, steps) && t < |Execute(s, steps).senders| && Execute(s, steps).senders[t].SenderIdle?
  }

  lemma ReturnsUnlessLost(s: State, t: nat, v: Value) returns (steps: seq<Step>)
    requires Inv(s) && t < |s.senders| && s.senders[t] == Taking(Send(v)) && |s.log| + 1 < TAKEN && !TokenLost(s)
    ensures Legal(s, steps) && t < |Execute(s, steps).senders| && Execute(s, steps).senders[t].SenderIdle?
  {
    var back := TokenComesBack(s, t, v);
    FreeSendDisconnects(Execute(s, back), t, Send(v));
    ExecuteConcat(s, back, [Advance(t), Advance(t), Advance(t)]);
    steps := back + [Advance(t), Advance(t), Advance(t)];
  }

  /** In every reachable state, with or without receivers, and whatever else is under way: a
      send that stands before its swap returns in some continuation if and only if the token
      is not lost. */
  lemma {:induction false} SendCanReturnExactlyUnlessTokenIsLost(s: State, t: nat, v: Value)
    requires Reachable(s) && t < |s.senders| && s.senders[t] == Taking(Send(v)) && |s.log| + 1 < TAKEN
    ensures CanReturn(s, t) <==> !TokenLost(s)
  {
    ReachableInv(s);
    if TokenLost(s) {
      forall steps: seq<Step> | Legal(s, steps)
        ensures t < |Execute(s, steps).senders| && !Execute(s, steps).senders[t].SenderIdle?
      {
        AbandonedForever(s, steps);
      }
    } else {
      var steps := ReturnsUnlessLost(s, t, v);
    }
  }

  // ---- under interference ----

  /** How far a send or try_send_before without receivers has come since it could take the
      token. A try_send_before may give up before it has. */
  predicate AtStage(pc: SenderPc, op: Op, k: nat) {
    match pc
    case Taking(o) => k == 0 && o == op
    case Looking(o, _) => k == 1 && o == op
    case Confirming(o, _) => k == 2 && o == op
    case SenderIdle(result) =>
      || (k == 3 && result == Disconnected(ValueOf(op)))
      || (k == 0 && op.TrySendBefore? && result == Timeout(op.value))
    case _ => false
  }

  /** The sender's own steps in the run, failed swaps left out. The first is the swap that
      takes the token. */
  function OwnMoves(s: State, steps: seq<Step>, t: nat): nat
    requires Legal(s, steps)
    decreases |steps|
  {
    if steps == [] then 0
    else
      (if steps[0] == Advance(t) && (s.senders[t].Taking? ==> s.writeHead != TAKEN) then 1 else 0)
      + OwnMoves(Apply(s, steps[0]), steps[1..], t)
  }

  lemma StageStep(s: State, step: Step, t: nat, op: Op, k: nat)
    requires Shape(s) && Enabled(s, step) && t < |s.senders| && AtStage(s.senders[t], op, k)
    requires op.Send? || op.TrySendBefore?
    requires s.numReceivers == 0 && forall i :: 0 <= i < |s.cells| ==> s.cells[i].readCounter == 0
    requires step.Begin? ==> step.t != t
    ensures t < |Apply(s, step).senders|
    ensures AtStage(Apply(s, step).senders[t], op,
                    if step == Advance(t) && (s.senders[t].Taking? ==> s.writeHead != TAKEN) then k + 1 else k)
  {
    OthersUntouched(s, step);
  }

  /** A send or try_send_before without receivers, whatever other threads do meanwhile: it
      returns Disconnected if and only if it takes the token and then has two more steps; a
      try_send_before returns Timeout only if it has not taken it, and a send nothing else. */
  lemma {:induction false} SendReturnsOnceItTakes(s: State, steps: seq<Step>, t: nat, op: Op, k: nat)
    requires Inv(s) && !HasReceiver(s) && Legal(s, steps) && Progress.NoCallBy(t, steps)
    requires t < |s.senders| && AtStage(s.senders[t], op, k) && (op.Send? || op.TrySendBefore?)
    ensures t < |Execute(s, steps).senders| && AtStage(Execute(s, steps).senders[t], op, k + OwnMoves(s, steps, t))
    decreases |steps|
  {
    if steps == [] {
    } else {
      NobodyLeft(s);
      StageStep(s, steps[0], t, op, k);
      StepInv(s, steps[0]);
      Disconnect.NobodyReturns(s, steps[0]);
      SendReturnsOnceItTakes(Apply(s, steps[0]), steps[1..], t, op,
                             if steps[0] == Advance(t) && (s.senders[t].Taking? ==> s.writeHead != TAKEN) then k + 1 else k);
    }
  }

  lemma BeginsAndRuns(s: State, t: nat, op: Op, rest: seq<Step>)
    requires Enabled(s, Begin(t, op)) && Legal(Apply(s, Begin(t, op)), rest)
    ensures Legal(s, [Begin(t, op)] + rest)
    ensures Execute(s, [Begin(t, op)] + rest) == Execute(Apply(s, Begin(t, op)), rest)
  {
    assert ([Begin(t, op)] + rest)[1..] == rest;
  }

  /** Sender t calls send, then u does, and u runs first. */
  function Overtaken(t: nat, u: nat, v: Value, w: Value): seq<Step> {
    [Begin(t, Send(v))] + ([Begin(u, Send(w))] + [Advance(u), Advance(u), Advance(u)])
  }

  /** So a free head at the call is no promise: another send that swaps first returns
      Disconnected, and this one never returns. */
  lemma {:induction false} OvertakenSendNeverReturns(s: State, t: nat, u: nat, v: Value, w: Value)
    requires Reachable(s) && !HasReceiver(s) && s.writeHead != TAKEN && t != u
    requires t < |s.senders| && s.senders[t].SenderIdle? && u < |s.senders| && s.senders[u].SenderIdle?
    ensures Legal(s, Overtaken(t, u, v, w))
    ensures var e := Execute(s, Overtaken(t, u, v, w));
            && |e.senders| == |s.senders|
            && e.senders[u] == SenderIdle(Disconnected(Some(w)))
            && forall more: seq<Step> :: Legal(e, more) ==>
                 t < |Execute(e, more).senders| && Execute(e, more).senders[t] == Taking(Send(v))
  {
    ReachableInv(s);
    var called := Apply(s, Begin(t, Send(v)));
    StepInv(s, Begin(t, Send(v)));
    StepInv(called, Begin(u, Send(w)));
    FreeSendDisconnects(Apply(called, Begin(u, Send(w))), u, Send(w));
    BeginsAndRuns(called, u, Send(w), [Advance(u), Advance(u), Advance(u)]);
    BeginsAndRuns(s, t, Send(v), [Begin(u, Send(w))] + [Advance(u), Advance(u), Advance(u)]);
    var e := Execute(s, Overtaken(t, u, v, w));
    assert e == Put(called.(writeHead := TAKEN, token := Abandoned), u, SenderIdle(Disconnected(Some(w))));
    RunInv(s, Overtaken(t, u, v, w));
    forall more: seq<Step> | Legal(e, more)
      ensures t < |Execute(e, more).senders| && Execute(e, more).senders[t] == Taking(Send(v))
    {
      AbandonedForever(e, more);
    }
  }

  // ---- what calls return once the token is lost ----

  /** The token is abandoned only when there are no receivers. */
  lemma AbandonStep(s: State, step: Step)
    requires Enabled(s, step) && Apply(s, step).token.Abandoned? && !s.token.Abandoned?
    ensures s.numReceivers == 0
  {
  }

  lemma {:induction false} AbandonedRun(s: State, steps: seq<Step>)
    requires Inv(s) && Legal(s, steps) && (s.token.Abandoned? ==> s.numReceivers == 0)
    ensures Execute(s, steps).token.Abandoned? ==> Execute(s, steps).numReceivers == 0
    decreases |steps|
  {
    if steps == [] {
    } else {
      if Apply(s, steps[0]).token.Abandoned? {
        if !s.token.Abandoned? {
          AbandonStep(s, steps[0]);
        }
        NoReceiversStep(s, steps[0]);
      }
      StepInv(s, steps[0]);
      AbandonedRun(Apply(s, steps[0]), steps[1..]);
    }
  }

  lemma AbandonedMeansNoReceivers(s: State)
    requires Reachable(s) && s.token.Abandoned?
    ensures s.numReceivers == 0
  {
    var n: nat, steps: seq<Step> :| n > 0 && Legal(Init(n), steps) && s == Execute(Init(n), steps);
    InitInv(n);
    AbandonedRun(Init(n), steps);
  }

  lemma LostMeansNoReceivers(s: State)
    requires Reachable(s) && TokenLost(s)
    ensures s.numReceivers == 0
  {
    if s.token.Abandoned? {
      AbandonedMeansNoReceivers(s);
    }
  }

  /** The one result a call can have; send has none. */
  function LostResult(op: Op): Option<SendResult> {
    match op
    case Send(_) => None
    case TrySend(v) => Some(Disconnected(Some(v)))
    case TrySendBefore(v) => Some(Timeout(v))
    case PollReady => Some(Disconnected(None))
  }

  /** Where a call that began after the token was lost can stand. */
  predicate AfterLoss(pc: SenderPc, op: Op) {
    match pc
    case Checking(o) => o == op && !op.Send? && !op.TrySendBefore?
    case Taking(o) => o == op && (op.Send? || op.TrySendBefore?)
    case SenderIdle(result) => Some(result) == LostResult(op)
    case _ => false
  }

  lemma LostCallStep(s: State, step: Step, t: nat, op: Op)
    requires Enabled(s, step) && s.writeHead == TAKEN && s.numReceivers == 0
    requires t < |s.senders| && AfterLoss(s.senders[t], op) && (step.Begin? ==> step.t != t)
    ensures t < |Apply(s, step).senders| && AfterLoss(Apply(s, step).senders[t], op)
  {
    OthersUntouched(s, step);
  }

  lemma {:induction false} LostCall(s: State, steps: seq<Step>, t: nat, op: Op)
    requires Inv(s) && TokenLost(s) && s.numReceivers == 0 && Legal(s, steps) && Progress.NoCallBy(t, steps)
    requires t < |s.senders| && AfterLoss(s.senders[t], op)
    ensures t < |Execute(s, steps).senders| && AfterLoss(Execute(s, steps).senders[t], op)
    decreases |steps|
  {
    if steps == [] {
    } else {
      LostStep(s, steps[0]);
      LostCallStep(s, steps[0], t, op);
      NoReceiversStep(s, steps[0]);
      StepInv(s, steps[0]);
      LostCall(Apply(s, steps[0]), steps[1..], t, op);
    }
  }

  /** What continued use returns, whatever other threads do: a call that returns has exactly
      the result above, and Disconnected is possible if and only if it is a try_send or a
      poll_ready. A try_send_before can only time out, a send cannot return. */
  lemma ContinuedUse(s: State, t: nat, op: Op)
    requires Reachable(s) && TokenLost(s) && t < |s.senders| && s.senders[t].SenderIdle?
    ensures var called := Apply(s, Begin(t, op));
            && (forall steps: seq<Step> :: Legal(called, steps) && Progress.NoCallBy(t, steps) ==>
                  var e := Execute(called, steps);
                  t < |e.senders| && (e.senders[t].SenderIdle? ==> Some(e.senders[t].result) == LostResult(op)))
            && ((exists steps: seq<Step> :: Legal(called, steps) && Progress.NoCallBy(t, steps)
                   && t < |Execute(called, steps).senders| && Execute(called, steps).senders[t].SenderIdle?)
                <==> !op.Send?)
            && ((exists steps: seq<Step> :: Legal(called, steps) && Progress.NoCallBy(t, steps)
                   && t < |Execute(called, steps).senders|
                   && Execute(called, steps).senders[t] == SenderIdle(Disconnected(ValueOf(op))))
                <==> op.TrySend? || op.PollReady?)
  {
    ReachableInv(s);
    LostMeansNoReceivers(s);
    LostStep(s, Begin(t, op));
    var called := Apply(s, Begin(t, op));
    StepInv(s, Begin(t, op));
    forall steps: seq<Step> | Legal(called, steps) && Progress.NoCallBy(t, steps)
      ensures t < |Execute(called, steps).senders| && AfterLoss(Execute(called, steps).senders[t], op)
    {
      LostCall(called, steps, t, op);
    }
    if !op.Send? {
      var last := if op.TrySendBefore? then GiveUp(t) else Advance(t);
      assert [last][1..] == [] && Legal(Apply(called, last), []);
      assert Legal(called, [last]) && Execute(called, [last]) == Apply(called, last);
      assert Progress.NoCallBy(t, [last]);
      assert Execute(called, [last]).senders[t].SenderIdle?;
    }
  }

  lemma OnlyReceiverDropped(n: nat)
    requires n > 0
    ensures Legal(Init(n), [BeginDrop(0), Continue(0)])
    ensures var s := Execute(Init(n), [BeginDrop(0), Continue(0)]);
            Inv(s) && !HasReceiver(s) && s.token.Free? && s.senders == [SenderIdle(NotCalled)]
  {
    LateSends.RunTwo(Init(n), BeginDrop(0), Continue(0));
    InitInv(n);
    RunInv(Init(n), [BeginDrop(0), Continue(0)]);
  }

  lemma FirstSendDisconnects(n: nat, v: Value) returns (steps: seq<Step>)
    requires n > 0
    ensures Legal(Init(n), steps)
    ensures Execute(Init(n), steps).senders == [SenderIdle(Disconnected(Some(v)))]
    ensures Execute(Init(n), steps).token.Abandoned? && Inv(Execute(Init(n), steps))
  {
    var drop := [BeginDrop(0), Continue(0)];
    OnlyReceiverDropped(n);
    var alone := Execute(Init(n), drop);
    StepInv(alone, Begin(0, Send(v)));
    FreeSendDisconnects(Apply(alone, Begin(0, Send(v))), 0, Send(v));
    var sending := [Advance(0), Advance(0), Advance(0)];
    var call := [Begin(0, Send(v))] + sending;
    assert call[0] == Begin(0, Send(v)) && call[1..] == sending;
    assert Legal(alone, call) && Execute(alone, call) == Execute(Apply(alone, call[0]), sending);
    ExecuteConcat(Init(n), drop, call);
    steps := drop + call;
    RunInv(alone, call);
  }

  /** And it does get taken: after the only receiver is dropped, the first send returns
      Disconnected and the second never returns. */
  lemma SecondSendNeverReturns(n: nat, v: Value, w: Value) returns (steps: seq<Step>)
    requires n > 0
    ensures Legal(Init(n), steps)
    ensures var s := Execute(Init(n), steps);
            && s.senders == [SenderIdle(Disconnected(Some(v)))] && Enabled(s, Begin(0, Send(w)))
            && forall more: seq<Step> :: Legal(Apply(s, Begin(0, Send(w))), more) ==>
                 var s' := Execute(Apply(s, Begin(0, Send(w))), more);
                 |s'.senders| > 0 && s'.senders[0] == Taking(Send(w))
  {
    steps := FirstSendDisconnects(n, v);
    var s := Execute(Init(n), steps);
    StepInv(s, Begin(0, Send(w)));
    var called := Apply(s, Begin(0, Send(w)));
    assert called.senders[0] == Taking(Send(w));
    forall more: seq<Step> | Legal(called, more)
      ensures |Execute(called, more).senders| > 0 && Execute(called, more).senders[0] == Taking(Send(w))
    {
      AbandonedForever(called, more);
    }
  }

  // ---- the token kept by a poll ----

  /** The channel after one send, a poll that found the next cell full, and the drop. */
  lemma PollWaits(v: Value) returns (steps: seq<Step>)
    ensures Legal(Init(2), steps)
    ensures Execute(Init(2), steps) ==
            FirstSends.Published(v, [SenderIdle(Sent), Pended(Some(2))]).(writeHead := TAKEN, token := Held(1))
  {
    steps := FirstSends.FirstSend(TrySend(v), v);
    var s, x := Init(2), Advance(1);
    FirstSends.RunStep(s, steps, Begin(1, PollReady));
    steps := steps + [Begin(1, PollReady)];
    FirstSends.RunStep(s, steps, x);
    steps := steps + [x];
    assert Execute(s, steps) == FirstSends.Published(v, [SenderIdle(Sent), Taking(PollReady)]);
    FirstSends.RunStep(s, steps, x);
    steps := steps + [x];
    FirstSends.RunStep(s, steps, x);
    steps := steps + [x];
    FirstSends.RunStep(s, steps, Pend(1));
    steps := steps + [Pend(1)];
  }

  /** The receiver goes, and the next poll returns Disconnected, with its id in hand. */
  lemma PollFindsNobody(v: Value) returns (steps: seq<Step>)
    ensures Legal(Init(2), steps)
    ensures var s := Execute(Init(2), steps);
            && s.senders == [SenderIdle(Sent), Pended(Some(2))] && s.token == Held(1) && s.numReceivers == 0
            && |steps| >= 2 && steps[|steps| - 2] == Repoll(1) && steps[|steps| - 1] == Advance(1)
  {
    steps := PollWaits(v);
    var s := Init(2);
    FirstSends.RunStep(s, steps, BeginDrop(0));
    steps := steps + [BeginDrop(0)];
    FirstSends.RunStep(s, steps, Continue(0));
    steps := steps + [Continue(0)];
    FirstSends.RunStep(s, steps, Repoll(1));
    steps := steps + [Repoll(1)];
    FirstSends.RunStep(s, steps, Advance(1));
    steps := steps + [Advance(1)];
  }

  /** So a poll_ready keeps the token just as send does: from there on every send by the other
      handle waits forever, and the poll is never Ready. */
  lemma PollKeepsToken(v: Value, w: Value) returns (steps: seq<Step>)
    ensures Legal(Init(2), steps)
    ensures var s := Execute(Init(2), steps);
            && s.senders == [SenderIdle(Sent), Pended(Some(2))] && s.token == Held(1) && TokenLost(s)
            && |steps| >= 2 && steps[|steps| - 2] == Repoll(1) && steps[|steps| - 1] == Advance(1)
            && Enabled(s, Begin(0, Send(w)))
            && forall more: seq<Step> :: Legal(Apply(s, Begin(0, Send(w))), more) ==>
                 var e := Execute(Apply(s, Begin(0, Send(w))), more);
                 |e.senders| >= 2 && e.senders[0] == Taking(Send(w)) && InVain(e.senders[1], 2)
  {
    steps := PollFindsNobody(v);
    var s := Execute(Init(2), steps);
    InitInv(2);
    RunInv(Init(2), steps);
    CellsKept(Init(2), steps);
    StepInv(s, Begin(0, Send(w)));
    var called := Apply(s, Begin(0, Send(w)));
    assert called.senders[0] == Taking(Send(w)) && InVain(called.senders[1], 2);
    forall more: seq<Step> | Legal(called, more)
      ensures var e := Execute(called, more);
              |e.senders| >= 2 && e.senders[0] == Taking(Send(w)) && InVain(e.senders[1], 2)
    {
      AbandonedForever(called, more);
    }
  }
}
