/** src/sender.rs: the operations of a sender handle, with other threads running between any
    two atomic operations. A handle is two senders of the protocol: its calls of send, try_send
    and try_send_before are one, its polls another, so that a call may come between two polls. */
module SendSide {
  import opened Prelude
  import opened Protocol
  import opened Invariant
  import opened Safety
  import opened Channel
  import opened WaitStrategy

  /** From s to s', sender t was granted the id and nothing else, and sender `other` of the
      same handle did nothing. */
  ghost predicate GrantedOnce(s: State, s': State, t: nat, other: nat, id: nat) {
    && Grows(s.log, s'.log) && |s'.cells| == |s.cells| && |s.senders| <= |s'.senders|
    && (other < |s.senders| ==> s'.senders[other] == s.senders[other])
    && |s.log| <= id < |s'.log| && s'.log[id].author == t
    && forall k :: |s.log| <= k < |s'.log| && k != id ==> s'.log[k].author != t && s'.log[k].author != other
  }

  /** And it published v under that id. */
  ghost predicate SentOnce(s: State, s': State, t: nat, other: nat, v: Value) {
    exists id: nat :: GrantedOnce(s, s', t, other, id) && s'.log[id] == Entry(t, Some(v))
  }

  lemma GrantThenSince(a: State, b: State, c: State, t: nat, other: nat, id: nat)
    requires GrantedOnce(a, b, t, other, id) && Since(b, c, SenderThread(t), {other})
    ensures GrantedOnce(a, c, t, other, id)
  {
    GrowsTransitive(a.log, b.log, c.log);
    forall k | |a.log| <= k < |c.log| && k != id
      ensures c.log[k].author != t && c.log[k].author != other
    {
      if k < |b.log| {
        assert c.log[k].author == b.log[k].author;
      }
    }
  }

  lemma SinceThenGrant(a: State, b: State, t: nat, other: nat, op: Op, id: nat)
    requires Sound(b) && Since(a, b, SenderThread(t), {other}) && t != other
    requires t < |b.senders| && b.senders[t] == Restoring(op, id) && id + 1 < TAKEN
    ensures id == |b.log| && GrantedOnce(a, RestoreNext(b, t), t, other, id)
  {
    SoundIsReachable(b);
    ReachableInv(b);
    assert TokenId(b.senders[t]) == Some(|b.log|);
    GrowsTransitive(a.log, b.log, RestoreNext(b, t).log);
  }

  /** How a call ended, or why it was cut off: it still waits for the token or its cell, or it
      holds the last id below usize::MAX, which the model does not grant. */
  datatype CallOutcome = Finished(result: SendResult) | Blocked | OutOfIds

  datatype Readiness = Ready | Pending | Closed | NoMoreIds

  lemma TokenBelowMax(s: State, t: nat)
    requires Sound(s) && t < |s.senders| && TokenId(s.senders[t]).Some?
    ensures TokenId(s.senders[t]).value < TAKEN && TokenId(s.senders[t]).value == |s.log|
  {
    SoundIsReachable(s);
    ReachableInv(s);
  }

  lemma FlightIsLogged(s: State, t: nat)
    requires Sound(s) && t < |s.senders| && FlightId(s.senders[t]).Some?
    ensures FlightId(s.senders[t]).value < |s.log| && s.log[FlightId(s.senders[t]).value] == Entry(t, None)
  {
    SoundIsReachable(s);
    ReachableInv(s);
  }

  // ---- what a call did, step by step ----

  ghost predicate AllAdvance(ms: seq<Moment>, t: nat) {
    forall i :: 0 <= i < |ms| ==> ms[i].step == Advance(t)
  }

  /** wait_for_write_safe and the check of num_receivers: one look at the counter of the id's
      cell. If it is zero, one look at num_receivers, which decides; otherwise a wait of k
      checks for zero, after which num_receivers is not looked at. */
  ghost predicate LookedSafe(ms: seq<Moment>, t: nat, id: nat, n: nat, safe: Option<bool>, k: nat) {
    && n > 0 && |ms| >= 1 && ms[0].step == Advance(t) && |ms[0].before.cells| == n
    && if CellOf(ms[0].before, id).readCounter == 0 then
         |ms| == 2 && ms[1].step == Advance(t) && safe == Some(ms[1].before.numReceivers != 0)
       else
         && safe != Some(false)
         && CheckedUpTo(ms[1..], ForCounter(Slot(id, n)), t, if safe.Some? then Some(0) else None, k)
  }

  /** How a send or try_send_before went: its swaps, and the id it took, if any; its looks at
      the cell and at num_receivers; and the rest. */
  datatype Path = Path(taken: Option<nat>, swaps: seq<Moment>, safe: Option<bool>, looks: seq<Moment>, rest: seq<Moment>)

  /** The end of a call that did not get the token: send is cut off, try_send_before gives up. */
  ghost predicate NeverTook(rest: seq<Moment>, t: nat, op: Op, c: CallOutcome) {
    if op.Send? then rest == [] && c == Blocked
    else op.TrySendBefore? && |rest| == 1 && rest[0].step == GiveUp(t) && c == Finished(Timeout(op.value))
  }

  /** The end of a call that got it. */
  ghost predicate Ended(rest: seq<Moment>, t: nat, op: Op, safe: Option<bool>, c: CallOutcome) {
    && (op.Send? || op.TrySendBefore?)
    && match safe
       case None =>
         if op.Send? then rest == [] && c == Blocked
         else |rest| == 2 && rest[0].step == GiveUp(t) && rest[1].step == Advance(t) && c == Finished(Timeout(op.value))
       case Some(false) => rest == [] && c == Finished(Disconnected(Some(op.value)))
       case Some(true) => AllAdvance(rest, t) && ((c == Finished(Sent) && |rest| == 5) || (c == OutOfIds && rest == []))
  }

  /** The outcome is the one that the checks of the call decide, and they are as many as its
      waits allow. */
  ghost predicate Followed(path: Path, t: nat, op: Op, n: nat, headChecks: nat, cellChecks: nat, c: CallOutcome) {
    && CheckedUpTo(path.swaps, ForToken, t, path.taken, headChecks)
    && match path.taken
       case None => path.looks == [] && NeverTook(path.rest, t, op, c)
       case Some(id) => LookedSafe(path.looks, t, id, n, path.safe, cellChecks) && Ended(path.rest, t, op, path.safe, c)
  }

  /** try_send: a look at num_receivers, a swap, a look at the counter, each deciding. */
  ghost predicate TriedOnce(ms: seq<Moment>, t: nat, v: Value, n: nat, c: CallOutcome) {
    && n > 0 && AllAdvance(ms, t) && |ms| >= 1
    && if ms[0].before.numReceivers == 0 then |ms| == 1 && c == Finished(Disconnected(Some(v)))
       else
         && |ms| >= 2
         && if ms[1].before.writeHead == TAKEN then |ms| == 2 && c == Finished(Full(v))
            else
              && |ms| >= 3 && |ms[2].before.cells| == n
              && if CellOf(ms[2].before, ms[1].before.writeHead).readCounter != 0 then |ms| == 4 && c == Finished(Full(v))
                 else (|ms| == 8 && c == Finished(Sent)) || (|ms| == 3 && c == OutOfIds)
  }

  /** How a poll went: its load of num_receivers; its swaps, if it held nothing, and the id it
      held then; its looks at the cell; and the rest. */
  datatype PollPath = PollPath(load: Moment, held: Option<nat>, swaps: seq<Moment>, zero: Option<nat>, looks: seq<Moment>, rest: seq<Moment>)

  /** num_receivers alone decides about Disconnected; otherwise the checks decide, k of each. */
  ghost predicate PollFollowed(path: PollPath, p: nat, before: Option<nat>, n: nat, headChecks: nat, cellChecks: nat, r: Readiness) {
    && n > 0 && path.load.step == Advance(p)
    && if path.load.before.numReceivers == 0 then r == Closed && path.swaps == path.looks == path.rest == []
       else
         && r != Closed
         && (if before.Some? then path.held == before && path.swaps == []
             else CheckedUpTo(path.swaps, ForToken, p, path.held, headChecks))
         && match path.held
            case None => path.looks == [] && r == Pending && Pends(path.rest, p)
            case Some(id) =>
              && CheckedUpTo(path.looks, ForCounter(Slot(id, n)), p, path.zero, cellChecks)
              && if path.zero.None? then r == Pending && Pends(path.rest, p)
                 else AllAdvance(path.rest, p) && ((r == Ready && |path.rest| == 2) || (r == NoMoreIds && path.rest == []))
  }

  ghost predicate Pends(rest: seq<Moment>, p: nat) {
    |rest| == 1 && rest[0].step == Pend(p)
  }

  class SenderHandle {
    const nexus: Nexus
    ghost const t: nat   // the protocol's sender for calls
    ghost const p: nat   // and for polls
    const headWait: HybridWait
    const cellWait: HybridWait

    /** async_state.id: the id a poll took and has not used in start_send. */
    var asyncId: Option<nat>

    constructor (nexus: Nexus, ghost t: nat, ghost p: nat, headWait: HybridWait, cellWait: HybridWait)
      ensures this.nexus == nexus && this.t == t && this.p == p && asyncId == None
      ensures this.headWait == headWait && this.cellWait == cellWait
    {
      this.nexus, this.t, this.p, this.headWait, this.cellWait := nexus, t, p, headWait, cellWait;
      asyncId := None;
    }

    ghost function Other(me: nat): nat {
      if me == t then p else t
    }

    ghost predicate Mine(me: nat)
      reads this, nexus, nexus.buffer
    {
      nexus.Valid() && t != p && t < |nexus.senders| && p < |nexus.senders| && (me == t || me == p)
    }

    ghost predicate At(me: nat, pc: SenderPc)
      reads this, nexus, nexus.buffer
    {
      Mine(me) && nexus.senders[me] == pc
    }

    /** No call of this handle is under way. */
    ghost predicate Idle()
      reads this, nexus, nexus.buffer
    {
      Mine(t) && nexus.senders[t].SenderIdle?
    }

    /** Since s, the sender of this handle has granted nothing, and the other did nothing. */
    ghost predicate Quiet(s: State, me: nat)
      reads this, nexus, nexus.buffer
    {
      Since(s, nexus.View(), SenderThread(me), {Other(me)})
    }

    /** What this sender of the handle has done so far. */
    ghost function Done(me: nat): seq<Moment>
      reads nexus
    {
      nexus.Trace(SenderThread(me))
    }

    /** It took exactly one step, at once. */
    twostate predicate Stepped(me: nat, step: Step)
      reads nexus, nexus.buffer
    {
      Done(me) == old(Done(me)) + [Moment(old(nexus.View()), step)]
    }

    /** It went on by exactly k steps. */
    twostate predicate Moved(me: nat, k: nat)
      reads nexus
    {
      old(Done(me)) <= Done(me) && |Done(me)| == |old(Done(me))| + k && AllAdvance(Done(me)[|old(Done(me))|..], me)
    }

    method Yield(ghost me: nat)
      requires Mine(me)
      modifies nexus, nexus.buffer
      ensures At(me, old(nexus.senders[me])) && Quiet(old(nexus.View()), me) && Done(me) == old(Done(me))
    {
      nexus.Yield(SenderThread(me), {Other(me)});
    }

    /** Other threads run in the middle of what began at start. */
    method YieldOn(ghost start: State, ghost me: nat)
      requires Mine(me) && Quiet(start, me)
      modifies nexus, nexus.buffer
      ensures At(me, old(nexus.senders[me])) && Quiet(start, me) && Done(me) == old(Done(me))
    {
      ghost var s := nexus.View();
      Yield(me);
      SinceTransitive(start, s, nexus.View(), SenderThread(me), {Other(me)});
    }

    /** Sender::clone, and new_sender of a receiver: a handle on the same channel, at rest. */
    method CloneHandle() returns (child: SenderHandle)
      requires Mine(t)
      modifies nexus`senders, nexus`receivers, nexus`log, nexus`token, nexus`history
      ensures fresh(child) && child.nexus == nexus && child.Idle() && child.Polled() && child.asyncId == None
      ensures child.headWait == headWait && child.cellWait == cellWait
      ensures nexus.View() == old(nexus.View()).(senders := old(nexus.senders) + [SenderIdle(NotCalled), SenderIdle(NotCalled)])
    {
      ghost var n := |nexus.senders|;
      nexus.Silent(NewSender);
      nexus.Silent(NewSender);
      child := new SenderHandle(nexus, n, n + 1, headWait, cellWait);
    }

    /** The call begins: a step that grants nothing. */
    method CallBegins(op: Op)
      requires Idle()
      modifies nexus, nexus.buffer
      ensures At(t, FirstPc(op)) && Quiet(old(nexus.View()), t) && Stepped(t, Begin(t, op))
    {
      ghost var s := nexus.View();
      OwnStep(s, Begin(t, op), {p});
      nexus.Silent(Begin(t, op));
      ghost var s1 := nexus.View();
      Yield(t);
      SinceTransitive(s, s1, nexus.View(), SenderThread(t), {p});
    }

    method ReplaceInCell(value: Value, id: nat, ghost me: nat)
      requires At(me, Writing(value, id))
      modifies nexus, nexus.buffer
      ensures At(me, Storing(value, id)) && Quiet(old(nexus.View()), me) && Stepped(me, Advance(me))
    {
      ghost var s := nexus.View();
      var i := nexus.CellIndex(id);
      OwnStep(s, Advance(me), {Other(me)});
      var previous := nexus.ReplaceValue(i, value, Advance(me));
      ghost var s1 := nexus.View();
      Yield(me);
      SinceTransitive(s, s1, nexus.View(), SenderThread(me), {Other(me)});
    }

    method PublishInCell(value: Value, id: nat, ghost me: nat)
      requires At(me, Storing(value, id))
      modifies nexus, nexus.buffer
      ensures At(me, NotifyingCell(id)) && Quiet(old(nexus.View()), me) && Stepped(me, Advance(me))
      ensures id < |nexus.log| && nexus.log[id] == Entry(me, Some(value))
    {
      ghost var s := nexus.View();
      var i := nexus.CellIndex(id);
      OwnStep(s, Advance(me), {Other(me)});
      FlightIsLogged(s, me);
      nexus.StoreCurrentId(i, id, Advance(me));
      ghost var s1 := nexus.View();
      Yield(me);
      SinceTransitive(s, s1, nexus.View(), SenderThread(me), {Other(me)});
    }

    /** Cell::write_and_publish: replace the value, store the id, wake every listener of the
        cell, drop the old value. */
    method WriteAndPublish(value: Value, id: nat, ghost me: nat)
      requires At(me, Writing(value, id))
      modifies nexus, nexus.buffer
      ensures At(me, SenderIdle(Sent)) && Quiet(old(nexus.View()), me) && Moved(me, 3)
      ensures id < |nexus.log| && nexus.log[id] == Entry(me, Some(value))
    {
      ghost var s, th, still := nexus.View(), SenderThread(me), {Other(me)};
      ReplaceInCell(value, id, me);
      ghost var s1 := nexus.View();
      PublishInCell(value, id, me);
      ghost var s2 := nexus.View();
      SinceTransitive(s, s1, s2, th, still);
      OwnStep(s2, Advance(me), still);
      nexus.Silent(Advance(me));
      SinceTransitive(s, s2, nexus.View(), th, still);
    }

    /** The token goes back one further. */
    method RestoreNextId(ghost start: State, op: Op, id: nat, ghost me: nat)
      requires At(me, Restoring(op, id)) && id + 1 < TAKEN && Quiet(start, me)
      modifies nexus, nexus.buffer
      ensures At(me, NotifyingHead(op, id)) && GrantedOnce(start, nexus.View(), me, Other(me), id)
      ensures Stepped(me, Advance(me))
    {
      SinceThenGrant(start, nexus.View(), me, Other(me), op, id);
      ModUnique(id + 1, USIZE_MAX + 1, 0, id + 1);
      nexus.Restore(WrappingAdd(id, 1), Advance(me));
      ghost var s1 := nexus.View();
      Yield(me);
      GrantThenSince(start, s1, nexus.View(), me, Other(me), id);
    }

    /** notify_one on the write head. */
    method NotifyNext(op: Op, id: nat, ghost me: nat)
      requires At(me, NotifyingHead(op, id))
      modifies nexus, nexus.buffer
      ensures At(me, if op.PollReady? then Granted(id) else Writing(op.value, id)) && Quiet(old(nexus.View()), me)
      ensures Stepped(me, Advance(me))
    {
      ghost var s := nexus.View();
      OwnStep(s, Advance(me), {Other(me)});
      nexus.Silent(Advance(me));
      YieldOn(s, me);
    }

    /** The end of every successful send: put the token back one further, wake one sender. */
    method Grant(ghost start: State, op: Op, id: nat, ghost me: nat)
      requires At(me, Restoring(op, id)) && id + 1 < TAKEN && Quiet(start, me)
      modifies nexus, nexus.buffer
      ensures At(me, if op.PollReady? then Granted(id) else Writing(op.value, id))
      ensures GrantedOnce(start, nexus.View(), me, Other(me), id) && Moved(me, 2)
    {
      RestoreNextId(start, op, id, me);
      ghost var s := nexus.View();
      NotifyNext(op, id, me);
      GrantThenSince(start, s, nexus.View(), me, Other(me), id);
    }

    method GrantAndPublish(ghost start: State, op: Op, id: nat)
      requires At(t, Restoring(op, id)) && id + 1 < TAKEN && !op.PollReady? && Quiet(start, t)
      modifies nexus, nexus.buffer
      ensures At(t, SenderIdle(Sent)) && SentOnce(start, nexus.View(), t, p, op.value) && Moved(t, 5)
    {
      Grant(start, op, id, t);
      ghost var s1 := nexus.View();
      WriteAndPublish(op.value, id, t);
      GrantThenSince(start, s1, nexus.View(), t, p, id);
    }

    /** The check for receivers that follows an immediate zero. */
    method ConfirmReceivers(ghost start: State, op: Op, id: nat) returns (present: bool)
      requires At(t, Confirming(op, id)) && Quiet(start, t)
      modifies nexus, nexus.buffer
      ensures Mine(t) && Quiet(start, t)
      ensures Stepped(t, Advance(t)) && present == old(nexus.numReceivers != 0)
      ensures present ==> At(t, Restoring(op, id))
      ensures !present ==> At(t, SenderIdle(Disconnected(ValueOf(op)))) && nexus.numReceivers == 0 && nexus.token.Abandoned?
    {
      ghost var s := nexus.View();
      OwnStep(s, Advance(t), {p});
      var receivers := nexus.LoadNumReceivers(Advance(t));
      present := receivers != 0;
      SinceTransitive(start, s, nexus.View(), SenderThread(t), {p});
    }

    /** The first load of the counter, which alone decides whether receivers are checked. */
    method FirstLook(ghost start: State, op: Op, id: nat) returns (zero: bool)
      requires At(t, Looking(op, id)) && !op.TrySend? && Quiet(start, t)
      modifies nexus, nexus.buffer
      ensures At(t, if zero then Confirming(op, id) else Waiting(op, id)) && Quiet(start, t)
      ensures Stepped(t, Advance(t)) && (zero <==> CellOf(old(nexus.View()), id).readCounter == 0)
    {
      ghost var s := nexus.View();
      var i := nexus.CellIndex(id);
      OwnStep(s, Advance(t), {p});
      var count := nexus.LoadReadCounter(i, Advance(t));
      zero := count == 0;
      SinceTransitive(start, s, nexus.View(), SenderThread(t), {p});
      YieldOn(start, t);
    }

    /** The checks that the waits of op make at most, and exactly if they fail. */
    function HeadChecks(op: Op, patience: nat): nat {
      if op.Send? then headWait.Checks(patience) else headWait.ChecksUntil(patience)
    }

    function CellChecks(op: Op, patience: nat): nat {
      if op.Send? then cellWait.Checks(patience) else cellWait.ChecksUntil(patience)
    }

    /** The wait of wait_for_write_safe, or of wait_for_write_safe_before. */
    method WaitForZero(ghost start: State, op: Op, id: nat, patience: nat) returns (zero: bool, ghost ms: seq<Moment>)
      requires At(t, Waiting(op, id)) && (op.Send? || op.TrySendBefore?) && Quiet(start, t)
      modifies nexus, nexus.buffer
      ensures At(t, if zero then Restoring(op, id) else Waiting(op, id)) && Quiet(start, t)
      ensures Done(t) == old(Done(t)) + ms
      ensures CheckedUpTo(ms, ForCounter(Slot(id, nexus.buffer.Length)), t, if zero then Some(0) else None, CellChecks(op, patience))
    {
      ghost var s, done := nexus.View(), Done(t);
      var i := nexus.CellIndex(id);
      var r: Option<nat>;
      if op.Send? {
        r := cellWait.Wait(nexus, ForCounter(i), t, {p}, patience);
      } else {
        r := cellWait.WaitUntil(nexus, ForCounter(i), t, {p}, patience);
      }
      zero := r.Some?;
      ms := Done(t)[|done|..];
      SinceTransitive(start, s, nexus.View(), SenderThread(t), {p});
    }

    /** Cell::wait_for_write_safe(_before) and, if the counter was zero at once, the check for
        receivers. None: still waiting. */
    method WaitForWriteSafe(ghost start: State, op: Op, id: nat, patience: nat) returns (safe: Option<bool>, ghost ms: seq<Moment>)
      requires At(t, Looking(op, id)) && (op.Send? || op.TrySendBefore?) && Quiet(start, t)
      modifies nexus, nexus.buffer
      ensures Mine(t) && Quiet(start, t)
      ensures safe == Some(true) ==> At(t, Restoring(op, id))
      ensures safe == Some(false) ==> At(t, SenderIdle(Disconnected(ValueOf(op)))) && nexus.numReceivers == 0 && nexus.token.Abandoned?
      ensures safe == None ==> At(t, Waiting(op, id))
      ensures Done(t) == old(Done(t)) + ms && LookedSafe(ms, t, id, nexus.buffer.Length, safe, CellChecks(op, patience))
    {
      ghost var s := nexus.View();
      var zero := FirstLook(start, op, id);
      ghost var s2, look := nexus.View(), Moment(s, Advance(t));
      if zero {
        var present := ConfirmReceivers(start, op, id);
        safe := Some(present);
        ms := [look, Moment(s2, Advance(t))];
      } else {
        var waited;
        waited, ms := WaitForZero(start, op, id, patience);
        safe := if waited then Some(true) else None;
        assert ([look] + ms)[1..] == ms;
        ms := [look] + ms;
      }
    }

    /** What a call did since s. Sent: it appended exactly one entry, which holds the value.
        Anything else: it appended nothing. Either way the handle's polls stand as before. */
    ghost predicate Did(s: State, c: CallOutcome, value: Value)
      reads this, nexus, nexus.buffer
    {
      && Mine(t)
      && (if c == Finished(Sent) then SentOnce(s, nexus.View(), t, p, value) else Quiet(s, t))
      && match c
         case Finished(result) => nexus.senders[t] == SenderIdle(result)
         case Blocked => nexus.senders[t].Taking? || nexus.senders[t].Waiting?
         case OutOfIds => nexus.senders[t].Restoring? && nexus.senders[t].id + 1 == TAKEN
    }

    /** From a safe cell to the end of the call. Others may run between the check and the
        store of the next id. */
    method FinishSafe(ghost start: State, op: Op, id: nat) returns (c: CallOutcome)
      requires At(t, Restoring(op, id)) && !op.PollReady? && Quiet(start, t)
      modifies nexus, nexus.buffer
      ensures Did(start, c, op.value) && (c == Finished(Sent) || c == OutOfIds)
      ensures Moved(t, if c == Finished(Sent) then 5 else 0)
    {
      YieldOn(start, t);
      TokenBelowMax(nexus.View(), t);
      if id + 1 == TAKEN {
        return OutOfIds;
      }
      GrantAndPublish(start, op, id);
      c := Finished(Sent);
    }

    /** What send and try_send_before do once they have the token. Blocked: not done yet. */
    method SendHolding(ghost start: State, op: Op, id: nat, patience: nat)
      returns (c: CallOutcome, ghost safe: Option<bool>, ghost looks: seq<Moment>, ghost rest: seq<Moment>)
      requires At(t, Looking(op, id)) && (op.Send? || op.TrySendBefore?) && Quiet(start, t)
      modifies nexus, nexus.buffer
      ensures Did(start, c, op.value)
      ensures c.Finished? ==> c.result == Sent || c.result == Disconnected(Some(op.value))
      ensures c.Finished? && c.result != Sent ==> nexus.numReceivers == 0 && nexus.token.Abandoned?
      ensures c.Blocked? ==> nexus.senders[t] == Waiting(op, id)
      ensures Done(t) == old(Done(t)) + looks + rest
      ensures LookedSafe(looks, t, id, nexus.buffer.Length, safe, CellChecks(op, patience))
      ensures if safe.None? then rest == [] && c == Blocked else Ended(rest, t, op, safe, c)
    {
      YieldOn(start, t);
      var isSafe;
      isSafe, looks := WaitForWriteSafe(start, op, id, patience);
      safe, rest := isSafe, [];
      if isSafe.None? {
        c := Blocked;
      } else if !isSafe.value {
        c := Finished(Disconnected(Some(op.value)));
      } else {
        ghost var done := Done(t);
        c := FinishSafe(start, op, id);
        rest := Done(t)[|done|..];
      }
    }

    /** A send or try_send_before begins, and waits for the token. */
    method BeginsAndTakes(op: Op, patience: nat) returns (taken: Option<nat>, ghost swaps: seq<Moment>)
      requires Idle() && (op.Send? || op.TrySendBefore?)
      modifies nexus, nexus.buffer
      ensures At(t, if taken.None? then Taking(op) else Looking(op, taken.value)) && Quiet(old(nexus.View()), t)
      ensures Done(t) == old(Done(t)) + [Moment(old(nexus.View()), Begin(t, op))] + swaps
      ensures CheckedUpTo(swaps, ForToken, t, taken, HeadChecks(op, patience))
    {
      ghost var s := nexus.View();
      CallBegins(op);
      ghost var s1, done := nexus.View(), Done(t);
      if op.Send? {
        taken := headWait.Wait(nexus, ForToken, t, {p}, patience);
      } else {
        taken := headWait.WaitUntil(nexus, ForToken, t, {p}, patience);
      }
      swaps := Done(t)[|done|..];
      SinceTransitive(s, s1, nexus.View(), SenderThread(t), {p});
    }

    /** Sender::send: Disconnected returns the value and keeps the token. The outcome is the one
        that its own checks decide; Blocked only if all of them failed. */
    method Send(value: Value, patience: nat) returns (c: CallOutcome, ghost path: Path)
      requires Idle()
      modifies nexus, nexus.buffer
      ensures Did(old(nexus.View()), c, value)
      ensures c.Finished? ==> c.result == Sent || c.result == Disconnected(Some(value))
      ensures c.Finished? && c.result != Sent ==> nexus.numReceivers == 0 && nexus.token.Abandoned?
      ensures Done(t) == old(Done(t)) + [Moment(old(nexus.View()), Begin(t, Op.Send(value)))] + path.swaps + path.looks + path.rest
      ensures Followed(path, t, Op.Send(value), nexus.buffer.Length, headWait.Checks(patience), cellWait.Checks(patience), c)
    {
      ghost var s, swaps := nexus.View(), [];
      var taken;
      taken, swaps := BeginsAndTakes(Op.Send(value), patience);
      path := Path(taken, swaps, None, [], []);
      if taken.None? {
        c := Blocked;
      } else {
        ghost var safe, looks, rest;
        c, safe, looks, rest := SendHolding(s, Op.Send(value), taken.value, patience);
        path := path.(safe := safe, looks := looks, rest := rest);
      }
    }

    /** A failed attempt is over: what it took, if anything, is back in the head. */
    ghost predicate GaveBack(took: Option<nat>)
      reads this, nexus, nexus.buffer
    {
      took.Some? ==> nexus.writeHead == took.value == |nexus.log| && nexus.token.Free?
    }

    /** Sender::try_send_before; `late` tells whether the deadline has passed at the call, and
        takeLooks and safeLooks how often the clock shows time left in the two waits. The
        outcome is the one that its own checks decide; Timeout only if all that it had time
        for failed. */
    method TrySendBefore(value: Value, late: bool, takeLooks: nat, safeLooks: nat)
      returns (c: CallOutcome, ghost path: Path)
      requires Idle()
      modifies nexus, nexus.buffer
      ensures late ==> c == Finished(Timeout(value)) && nexus.View() == old(nexus.View()) && Done(t) == old(Done(t))
      ensures !late ==> Did(old(nexus.View()), c, value) && !c.Blocked?
      ensures c.Finished? ==> c.result == Sent || c.result == Timeout(value) || c.result == Disconnected(Some(value))
      ensures c.Finished? && c.result.Disconnected? ==> nexus.numReceivers == 0 && nexus.token.Abandoned?
      ensures !late && c == Finished(Timeout(value)) ==> GaveBack(path.taken)
      ensures !late ==>
                Done(t) == old(Done(t)) + [Moment(old(nexus.View()), Begin(t, Op.TrySendBefore(value)))]
                           + path.swaps + path.looks + path.rest
      ensures !late ==>
                Followed(path, t, Op.TrySendBefore(value), nexus.buffer.Length,
                         headWait.ChecksUntil(takeLooks), cellWait.ChecksUntil(safeLooks), c)
    {
      path := Path(None, [], None, [], []);
      if late {
        return Finished(Timeout(value)), path;
      }
      ghost var s, swaps := nexus.View(), [];
      var taken;
      taken, swaps := BeginsAndTakes(Op.TrySendBefore(value), takeLooks);
      path := path.(taken := taken, swaps := swaps);
      if taken.None? {
        ghost var gaveUp := Moment(nexus.View(), GiveUp(t));
        TimesOut(s, SenderIdle(Timeout(value)));
        c, path := Finished(Timeout(value)), path.(rest := [gaveUp]);
      } else {
        ghost var safe, looks, rest;
        c, safe, looks, rest := SendUntil(s, value, taken.value, safeLooks);
        path := path.(safe := safe, looks := looks, rest := rest);
      }
    }

    /** The rest of try_send_before once it has the token. */
    method SendUntil(ghost start: State, value: Value, id: nat, safeLooks: nat)
      returns (c: CallOutcome, ghost safe: Option<bool>, ghost looks: seq<Moment>, ghost rest: seq<Moment>)
      requires At(t, Looking(Op.TrySendBefore(value), id)) && Quiet(start, t)
      modifies nexus, nexus.buffer
      ensures Did(start, c, value) && !c.Blocked?
      ensures c.Finished? ==> c.result == Sent || c.result == Timeout(value) || c.result == Disconnected(Some(value))
      ensures c.Finished? && c.result.Disconnected? ==> nexus.numReceivers == 0 && nexus.token.Abandoned?
      ensures c == Finished(Timeout(value)) ==> GaveBack(Some(id))
      ensures Done(t) == old(Done(t)) + looks + rest
      ensures LookedSafe(looks, t, id, nexus.buffer.Length, safe, cellWait.ChecksUntil(safeLooks))
      ensures Ended(rest, t, Op.TrySendBefore(value), safe, c)
    {
      c, safe, looks, rest := SendHolding(start, Op.TrySendBefore(value), id, safeLooks);
      if c.Blocked? {
        rest := TimesOutHolding(start, value, id);
        c := Finished(Timeout(value));
      }
    }

    /** The deadline passes while it holds the token. */
    method TimesOutHolding(ghost start: State, value: Value, id: nat) returns (ghost ms: seq<Moment>)
      requires At(t, Waiting(Op.TrySendBefore(value), id)) && Quiet(start, t)
      modifies nexus, nexus.buffer
      ensures At(t, SenderIdle(Timeout(value))) && Quiet(start, t) && GaveBack(Some(id))
      ensures Done(t) == old(Done(t)) + ms && |ms| == 2 && ms[0].step == GiveUp(t) && ms[1].step == Advance(t)
    {
      ghost var gaveUp := Moment(nexus.View(), GiveUp(t));
      TimesOut(start, RollingBack(Op.TrySendBefore(value), id));
      ghost var restored := PutBack(start, Op.TrySendBefore(value), id);
      ms := [gaveUp, restored];
    }

    /** The deadline passes: no shared memory is touched. */
    ghost method TimesOut(start: State, pc: SenderPc)
      requires Mine(t) && Quiet(start, t) && Enabled(nexus.View(), GiveUp(t))
      requires pc == Apply(nexus.View(), GiveUp(t)).senders[t]
      modifies nexus`senders, nexus`receivers, nexus`log, nexus`token, nexus`history
      ensures At(t, pc) && Quiet(start, t) && Stepped(t, GiveUp(t))
    {
      var s := nexus.View();
      OwnStep(s, GiveUp(t), {p});
      nexus.Silent(GiveUp(t));
      SinceTransitive(start, s, nexus.View(), SenderThread(t), {p});
    }

    /** Restore the id that was taken, waking nobody. */
    method PutBack(ghost start: State, op: Op, id: nat) returns (ghost m: Moment)
      requires At(t, RollingBack(op, id)) && Quiet(start, t)
      modifies nexus, nexus.buffer
      ensures At(t, SenderIdle(Refusal(op))) && Quiet(start, t)
      ensures GaveBack(Some(id)) && m.step == Advance(t) && Done(t) == old(Done(t)) + [m]
    {
      ghost var th := SenderThread(t);
      YieldOn(start, t);
      ghost var s2 := nexus.View();
      TokenBelowMax(s2, t);
      OwnStep(s2, Advance(t), {p});
      m := Moment(s2, Advance(t));
      nexus.Restore(id, Advance(t));
      SinceTransitive(start, s2, nexus.View(), th, {p});
    }

    /** Sender::try_send: never blocks. Full: either the head was TAKEN at the swap, and still
        is, or the id that was taken is back. */
    method TrySend(value: Value) returns (c: CallOutcome, ghost took: Option<nat>, ghost ms: seq<Moment>)
      requires Idle()
      modifies nexus, nexus.buffer
      ensures Did(old(nexus.View()), c, value) && !c.Blocked?
      ensures c.Finished? ==> c.result == Sent || c.result == Full(value) || c.result == Disconnected(Some(value))
      ensures c.Finished? && c.result.Disconnected? ==> nexus.numReceivers == 0 && took.None?
      ensures c == Finished(Full(value)) ==> GaveBack(took) && (took.None? ==> nexus.writeHead == TAKEN)
      ensures c == Finished(Sent) ==> took.Some?
      ensures Done(t) == old(Done(t)) + [Moment(old(nexus.View()), Begin(t, Op.TrySend(value)))] + ms
      ensures TriedOnce(ms, t, value, nexus.buffer.Length, c)
    {
      took := None;
      ghost var s, th := nexus.View(), SenderThread(t);
      CallBegins(Op.TrySend(value));
      ghost var s1, load := nexus.View(), Moment(nexus.View(), Advance(t));
      OwnStep(s1, Advance(t), {p});
      var receivers := nexus.LoadNumReceivers(Advance(t));
      ghost var s2 := nexus.View();
      SinceTransitive(s, s1, s2, th, {p});
      if receivers == 0 {
        c, ms := Finished(Disconnected(Some(value))), [load];
      } else {
        c, took, ms := TryPresent(s, value);
        ms := [load] + ms;
      }
    }

    /** The rest of try_send once it has seen a receiver. */
    method TryPresent(ghost start: State, value: Value) returns (c: CallOutcome, ghost took: Option<nat>, ghost ms: seq<Moment>)
      requires At(t, Taking(Op.TrySend(value))) && Quiet(start, t)
      modifies nexus, nexus.buffer
      ensures Did(start, c, value) && !c.Blocked?
      ensures c.Finished? ==> c.result == Sent || c.result == Full(value)
      ensures c == Finished(Full(value)) ==> GaveBack(took) && (took.None? ==> nexus.writeHead == TAKEN)
      ensures c == Finished(Sent) ==> took.Some?
      ensures Done(t) == old(Done(t)) + ms && AllAdvance(ms, t) && |ms| >= 1
      ensures if ms[0].before.writeHead == TAKEN then |ms| == 1 && c == Finished(Full(value))
              else |ms| >= 2 && TriedHolding(ms[1..], ms[0].before.writeHead, nexus.buffer.Length, c, value)
    {
      ghost var swap;
      var taken;
      taken, swap := SwapOnce(start, value);
      took := taken;
      if taken.None? {
        c, ms := Finished(Full(value)), [swap];
      } else {
        c, ms := TrySendHolding(start, value, taken.value);
        assert ([swap] + ms)[1..] == ms;
        ms := [swap] + ms;
      }
    }

    /** One look at the counter decides. */
    ghost predicate TriedHolding(ms: seq<Moment>, id: nat, n: nat, c: CallOutcome, value: Value) {
      && n > 0 && |ms| >= 1 && |ms[0].before.cells| == n
      && if CellOf(ms[0].before, id).readCounter != 0 then |ms| == 2 && c == Finished(Full(value))
         else (|ms| == 6 && c == Finished(Sent)) || (|ms| == 1 && c == OutOfIds)
    }

    method SwapOnce(ghost start: State, value: Value) returns (taken: Option<nat>, ghost swap: Moment)
      requires At(t, Taking(Op.TrySend(value))) && Quiet(start, t)
      modifies nexus, nexus.buffer
      ensures Quiet(start, t)
      ensures At(t, if taken.None? then SenderIdle(Full(value)) else Looking(Op.TrySend(value), taken.value))
      ensures taken.None? ==> nexus.writeHead == TAKEN
      ensures Done(t) == old(Done(t)) + [swap] && swap.step == Advance(t)
      ensures taken == if swap.before.writeHead == TAKEN then None else Some(swap.before.writeHead)
    {
      YieldOn(start, t);
      ghost var s := nexus.View();
      swap := Moment(s, Advance(t));
      OwnStep(s, Advance(t), {p});
      taken := nexus.TryTake(t);
      SinceTransitive(start, s, nexus.View(), SenderThread(t), {p});
    }

    /** The rest of try_send once it has the token. */
    method TrySendHolding(ghost start: State, value: Value, id: nat) returns (c: CallOutcome, ghost ms: seq<Moment>)
      requires At(t, Looking(Op.TrySend(value), id)) && Quiet(start, t)
      modifies nexus, nexus.buffer
      ensures Did(start, c, value) && !c.Blocked?
      ensures c.Finished? ==> c.result == Sent || c.result == Full(value)
      ensures c == Finished(Full(value)) ==> GaveBack(Some(id))
      ensures Done(t) == old(Done(t)) + ms && AllAdvance(ms, t)
      ensures TriedHolding(ms, id, nexus.buffer.Length, c, value)
    {
      ghost var look;
      var zero;
      zero, look := TryLook(start, value, id);
      if !zero {
        ghost var restored := PutBack(start, Op.TrySend(value), id);
        c, ms := Finished(Full(value)), [look, restored];
      } else {
        ghost var done := Done(t);
        c := FinishSafe(start, Op.TrySend(value), id);
        ms := [look] + Done(t)[|done|..];
      }
    }

    method TryLook(ghost start: State, value: Value, id: nat) returns (zero: bool, ghost look: Moment)
      requires At(t, Looking(Op.TrySend(value), id)) && Quiet(start, t)
      modifies nexus, nexus.buffer
      ensures At(t, if zero then Restoring(Op.TrySend(value), id) else RollingBack(Op.TrySend(value), id)) && Quiet(start, t)
      ensures Done(t) == old(Done(t)) + [look] && look.step == Advance(t) && |look.before.cells| == nexus.buffer.Length > 0
      ensures zero <==> CellOf(look.before, id).readCounter == 0
    {
      YieldOn(start, t);
      ghost var s := nexus.View();
      look := Moment(s, Advance(t));
      OwnStep(s, Advance(t), {p});
      var i := nexus.CellIndex(id);
      var count := nexus.LoadReadCounter(i, Advance(t));
      zero := count == 0;
      SinceTransitive(start, s, nexus.View(), SenderThread(t), {p});
    }

    // ---- the Sink interface ----

    /** Between two polls: nothing taken, or an id taken whose cell is not free yet. */
    ghost predicate Polled()
      reads this, nexus, nexus.buffer
    {
      && Mine(p)
      && match asyncId
         case None => nexus.senders[p].SenderIdle? || nexus.senders[p] == Pended(None)
         case Some(id) => nexus.senders[p] == Pended(Some(id))
    }

    /** The step with which the next poll begins. */
    ghost function FirstOfPoll(): Step
      requires Polled()
      reads this, nexus, nexus.buffer
    {
      if nexus.senders[p].SenderIdle? then Begin(p, Op.PollReady) else Repoll(p)
    }

    /** A poll begins, or begins again with what the last one left. */
    ghost method PollBegins()
      requires Polled()
      modifies nexus`senders, nexus`receivers, nexus`log, nexus`token, nexus`history
      ensures At(p, if asyncId.None? then Checking(Op.PollReady) else Polling(asyncId.value))
      ensures Quiet(old(nexus.View()), p) && Stepped(p, old(FirstOfPoll()))
    {
      var first := FirstOfPoll();
      OwnStep(nexus.View(), first, {t});
      nexus.Silent(first);
    }

    /** The load of num_receivers with which every poll_ready starts. */
    method PollStarts() returns (present: bool, ghost load: Moment)
      requires Polled()
      modifies nexus, nexus.buffer
      ensures Quiet(old(nexus.View()), p)
      ensures present ==> At(p, if asyncId.None? then Taking(Op.PollReady) else Waiting(Op.PollReady, asyncId.value))
      ensures !present ==> Polled() && nexus.numReceivers == 0
      ensures Done(p) == old(Done(p)) + [Moment(old(nexus.View()), old(FirstOfPoll())), load]
      ensures load.step == Advance(p) && (present <==> load.before.numReceivers != 0)
    {
      ghost var s, th := nexus.View(), SenderThread(p);
      PollBegins();
      ghost var s1 := nexus.View();
      load := Moment(s1, Advance(p));
      OwnStep(s1, Advance(p), {t});
      var receivers := nexus.LoadNumReceivers(Advance(p));
      present := receivers != 0;
      ghost var s2 := nexus.View();
      SinceTransitive(s, s1, s2, th, {t});
      if present {
        Yield(p);
        SinceTransitive(s, s2, nexus.View(), th, {t});
      }
    }

    /** Sink::poll_ready. Ready: exactly one id was granted in this poll, kept for start_send.
        Otherwise nothing was granted, and an id that was taken is kept for the next poll.
        Closed: there are no receivers, by the load with which the poll starts. Otherwise the
        poll's own checks decide, and Pending comes only if all of them failed. The handle's
        calls stand as before. */
    method PollReady(patience: nat) returns (r: Readiness, ghost path: PollPath)
      requires Polled()
      modifies this, nexus, nexus.buffer
      ensures r == Ready ==> asyncId.Some? && At(p, Granted(asyncId.value))
                             && GrantedOnce(old(nexus.View()), nexus.View(), p, t, asyncId.value)
      ensures r != Ready ==> Mine(p) && Quiet(old(nexus.View()), p)
      ensures r == Pending || r == Closed ==> Polled()
      ensures r == Closed ==> nexus.numReceivers == 0 && asyncId == old(asyncId)
      ensures r == NoMoreIds ==> asyncId.Some? && At(p, Restoring(Op.PollReady, asyncId.value)) && asyncId.value + 1 == TAKEN
      ensures r != Closed ==> asyncId == path.held
      ensures old(asyncId).Some? ==> asyncId == old(asyncId)
      ensures Done(p) == old(Done(p)) + [Moment(old(nexus.View()), old(FirstOfPoll())), path.load]
                         + path.swaps + path.looks + path.rest
      ensures PollFollowed(path, p, old(asyncId), nexus.buffer.Length,
                           headWait.TryChecks(patience), cellWait.TryChecks(patience), r)
    {
      ghost var s := nexus.View();
      ghost var load;
      var present;
      present, load := PollStarts();
      path := PollPath(load, asyncId, [], None, [], []);
      if !present {
        r := Closed;
      } else if asyncId.None? {
        r, path := PollFresh(s, path, patience);
      } else {
        r, path := PollHeld(s, path, asyncId.value, patience);
      }
    }

    /** What a poll that holds an id does once it has seen a receiver. */
    method PollHeld(ghost start: State, ghost loaded: PollPath, id: nat, patience: nat) returns (r: Readiness, ghost path: PollPath)
      requires asyncId == Some(id) && At(p, Waiting(Op.PollReady, id)) && Quiet(start, p)
      requires loaded.load.step == Advance(p) && loaded.load.before.numReceivers != 0
      modifies nexus, nexus.buffer
      ensures r == Ready ==> asyncId.Some? && At(p, Granted(asyncId.value))
                             && GrantedOnce(start, nexus.View(), p, t, asyncId.value)
      ensures r != Ready ==> Mine(p) && Quiet(start, p)
      ensures r == Pending ==> Polled()
      ensures r == NoMoreIds ==> asyncId.Some? && At(p, Restoring(Op.PollReady, asyncId.value)) && asyncId.value + 1 == TAKEN
      ensures asyncId == path.held && path.load == loaded.load
      ensures Done(p) == old(Done(p)) + path.swaps + path.looks + path.rest
      ensures PollFollowed(path, p, Some(id), nexus.buffer.Length,
                           headWait.TryChecks(patience), cellWait.TryChecks(patience), r)
    {
      ghost var zero, looks, rest;
      r, zero, looks, rest := PollHolding(start, id, patience);
      path := PollPath(loaded.load, Some(id), [], zero, looks, rest);
    }

    /** What one that holds none does. */
    method PollFresh(ghost start: State, ghost loaded: PollPath, patience: nat) returns (r: Readiness, ghost path: PollPath)
      requires asyncId.None? && At(p, Taking(Op.PollReady)) && Quiet(start, p)
      requires loaded.load.step == Advance(p) && loaded.load.before.numReceivers != 0
      modifies this, nexus, nexus.buffer
      ensures r == Ready ==> asyncId.Some? && At(p, Granted(asyncId.value))
                             && GrantedOnce(start, nexus.View(), p, t, asyncId.value)
      ensures r != Ready ==> Mine(p) && Quiet(start, p)
      ensures r == Pending ==> Polled()
      ensures r == NoMoreIds ==> asyncId.Some? && At(p, Restoring(Op.PollReady, asyncId.value)) && asyncId.value + 1 == TAKEN
      ensures asyncId == path.held && path.load == loaded.load
      ensures Done(p) == old(Done(p)) + path.swaps + path.looks + path.rest
      ensures PollFollowed(path, p, None, nexus.buffer.Length,
                           headWait.TryChecks(patience), cellWait.TryChecks(patience), r)
    {
      var taken;
      taken, path := PollTakes(start, loaded, patience);
      if taken.None? {
        r := Pending;
      } else {
        asyncId := taken;
        ghost var zero, looks, rest;
        r, zero, looks, rest := PollHolding(start, taken.value, patience);
        path := path.(zero := zero, looks := looks, rest := rest);
      }
    }

    method PollTakes(ghost start: State, ghost loaded: PollPath, patience: nat) returns (taken: Option<nat>, ghost path: PollPath)
      requires asyncId.None? && At(p, Taking(Op.PollReady)) && Quiet(start, p)
      modifies nexus, nexus.buffer
      ensures At(p, if taken.None? then Pended(None) else Waiting(Op.PollReady, taken.value)) && Quiet(start, p)
      ensures path == PollPath(loaded.load, taken, path.swaps, None, [], path.rest)
      ensures Done(p) == old(Done(p)) + path.swaps + path.rest
      ensures CheckedUpTo(path.swaps, ForToken, p, taken, headWait.TryChecks(patience))
      ensures if taken.None? then Pends(path.rest, p) else path.rest == []
    {
      ghost var swaps, rest;
      taken, swaps, rest := PollHead(start, patience);
      path := PollPath(loaded.load, taken, swaps, None, [], rest);
    }

    method PollHead(ghost start: State, patience: nat) returns (taken: Option<nat>, ghost swaps: seq<Moment>, ghost rest: seq<Moment>)
      requires At(p, Taking(Op.PollReady)) && Quiet(start, p)
      modifies nexus, nexus.buffer
      ensures At(p, if taken.None? then Pended(None) else Waiting(Op.PollReady, taken.value))
      ensures Quiet(start, p)
      ensures Done(p) == old(Done(p)) + swaps + rest
      ensures CheckedUpTo(swaps, ForToken, p, taken, headWait.TryChecks(patience))
      ensures if taken.None? then Pends(rest, p) else rest == []
    {
      ghost var s, done := nexus.View(), Done(p);
      taken := headWait.Poll(nexus, ForToken, p, {t}, patience);
      swaps, rest := Done(p)[|done|..], [];
      ghost var s1 := nexus.View();
      SinceTransitive(start, s, s1, SenderThread(p), {t});
      if taken.Some? {
        Yield(p);
        SinceTransitive(start, s1, nexus.View(), SenderThread(p), {t});
      } else {
        rest := [Moment(s1, Pend(p))];
        ReturnsPending(start);
      }
    }

    /** A poll returns Pending, with the id it holds, if any. */
    ghost method ReturnsPending(start: State)
      requires Mine(p) && Quiet(start, p) && Enabled(nexus.View(), Pend(p))
      modifies nexus`senders, nexus`receivers, nexus`log, nexus`token, nexus`history
      ensures Quiet(start, p) && Stepped(p, Pend(p))
      ensures At(p, Pended(if old(nexus.senders[p]).Taking? then None else Some(old(nexus.senders[p]).id)))
    {
      var s := nexus.View();
      OwnStep(s, Pend(p), {t});
      nexus.Silent(Pend(p));
      SinceTransitive(start, s, nexus.View(), SenderThread(p), {t});
    }

    method PollHolding(ghost start: State, id: nat, patience: nat)
      returns (r: Readiness, ghost zero: Option<nat>, ghost looks: seq<Moment>, ghost rest: seq<Moment>)
      requires asyncId == Some(id) && At(p, Waiting(Op.PollReady, id)) && Quiet(start, p)
      modifies nexus, nexus.buffer
      ensures r == Ready ==> At(p, Granted(id)) && GrantedOnce(start, nexus.View(), p, t, id)
      ensures r != Ready ==> Mine(p) && Quiet(start, p)
      ensures r == Pending ==> Polled()
      ensures r == NoMoreIds ==> At(p, Restoring(Op.PollReady, id)) && id + 1 == TAKEN
      ensures r != Closed && Done(p) == old(Done(p)) + looks + rest
      ensures CheckedUpTo(looks, ForCounter(Slot(id, nexus.buffer.Length)), p, zero, cellWait.TryChecks(patience))
      ensures if zero.None? then r == Pending && Pends(rest, p)
              else AllAdvance(rest, p) && ((r == Ready && |rest| == 2) || (r == NoMoreIds && rest == []))
    {
      var isZero;
      isZero, looks := PollCell(start, id, patience);
      zero, rest := isZero, [];
      if isZero.None? {
        rest := [Moment(nexus.View(), Pend(p))];
        ReturnsPending(start);
        r := Pending;
      } else {
        ghost var done := Done(p);
        r := PollFinds(start, id);
        rest := Done(p)[|done|..];
      }
    }

    method PollCell(ghost start: State, id: nat, patience: nat) returns (zero: Option<nat>, ghost looks: seq<Moment>)
      requires At(p, Waiting(Op.PollReady, id)) && Quiet(start, p)
      modifies nexus, nexus.buffer
      ensures At(p, if zero.None? then Waiting(Op.PollReady, id) else Restoring(Op.PollReady, id)) && Quiet(start, p)
      ensures Done(p) == old(Done(p)) + looks
      ensures CheckedUpTo(looks, ForCounter(Slot(id, nexus.buffer.Length)), p, zero, cellWait.TryChecks(patience))
    {
      ghost var s, done := nexus.View(), Done(p);
      var i := nexus.CellIndex(id);
      zero := cellWait.Poll(nexus, ForCounter(i), p, {t}, patience);
      looks := Done(p)[|done|..];
      SinceTransitive(start, s, nexus.View(), SenderThread(p), {t});
    }

    /** The poll has found its cell free. */
    method PollFinds(ghost start: State, id: nat) returns (r: Readiness)
      requires asyncId == Some(id) && At(p, Restoring(Op.PollReady, id)) && Quiet(start, p)
      modifies nexus, nexus.buffer
      ensures r == Ready ==> At(p, Granted(id)) && GrantedOnce(start, nexus.View(), p, t, id) && Moved(p, 2)
      ensures r != Ready ==> r == NoMoreIds && At(p, Restoring(Op.PollReady, id)) && Quiet(start, p) && id + 1 == TAKEN && Moved(p, 0)
    {
      YieldOn(start, p);
      TokenBelowMax(nexus.View(), p);
      if id + 1 == TAKEN {
        return NoMoreIds;
      }
      Grant(start, Op.PollReady, id, p);
      r := Ready;
    }

    /** start_send and then three steps: replace, store, notify. */
    twostate predicate StartedSend(item: Value)
      reads nexus, nexus.buffer
    {
      && old(Done(p)) <= Done(p) && |Done(p)| == |old(Done(p))| + 4
      && Done(p)[|old(Done(p))|] == Moment(old(nexus.View()), Step.StartSend(p, item))
      && AllAdvance(Done(p)[|old(Done(p))| + 1..], p)
    }

    /** Sink::start_send: publishes the item under the id that poll_ready was granted. */
    method StartSend(item: Value)
      requires asyncId.Some? && At(p, Granted(asyncId.value))
      modifies this, nexus, nexus.buffer
      ensures Polled() && asyncId == None && Quiet(old(nexus.View()), p)
      ensures StartedSend(item)
      ensures var id := old(asyncId.value); id < |nexus.log| && nexus.log[id] == Entry(p, Some(item))
    {
      ghost var s := nexus.View();
      var id := asyncId.value;
      asyncId := None;
      OwnStep(s, Step.StartSend(p, item), {t});
      nexus.Silent(Step.StartSend(p, item));
      ghost var s1 := nexus.View();
      WriteAndPublish(item, id, p);
      SinceTransitive(s, s1, nexus.View(), SenderThread(p), {t});
    }
  }
}
