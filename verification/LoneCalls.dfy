/** What follows from the contracts of the calls: how they end when no other thread runs, and
    what a wait for an id cannot miss. */
module LoneCalls {
  import opened Prelude
  import opened Protocol
  import opened Invariant
  import opened Safety
  import opened Channel
  import opened WaitStrategy
  import opened SendSide

  /** A stretch of history that leads from s to s'. */
  ghost predicate ChainedFrom(ms: seq<Moment>, s: State, s': State) {
    && StateAt(ms, s', 0) == s
    && forall i :: 0 <= i < |ms| ==>
         Enabled(ms[i].before, ms[i].step) && StateAt(ms, s', i + 1) == Apply(ms[i].before, ms[i].step)
  }

  lemma ChainedSplits(a: seq<Moment>, b: seq<Moment>, s: State, s': State) returns (mid: State)
    requires ChainedFrom(a + b, s, s')
    ensures ChainedFrom(a, s, mid) && ChainedFrom(b, mid, s') && mid == StateAt(b, s', 0)
  {
    mid := StateAt(b, s', 0);
    var ms := a + b;
    forall i | 0 <= i < |a|
      ensures Enabled(a[i].before, a[i].step) && StateAt(a, mid, i + 1) == Apply(a[i].before, a[i].step)
    {
      assert a[i] == ms[i];
      assert StateAt(a, mid, i + 1) == StateAt(ms, s', i + 1);
    }
    forall i | 0 <= i < |b|
      ensures Enabled(b[i].before, b[i].step) && StateAt(b, s', i + 1) == Apply(b[i].before, b[i].step)
    {
      assert b[i] == ms[|a| + i];
      assert StateAt(b, s', i + 1) == StateAt(ms, s', |a| + i + 1);
    }
    assert StateAt(a, mid, 0) == StateAt(ms, s', 0);
  }

  /** The call that made these moments ran alone: they are all that the history has got since. */
  lemma AloneIsChained(h: seq<Moment>, s: State, own: seq<Moment>, s': State, n: nat)
    requires Kept(h, s, n) && Kept(h + own, s', n)
    ensures ChainedFrom(own, s, s')
  {
    KeptIsChained(h, s, n);
    KeptIsChained(h + own, s', n);
    var h' := h + own;
    forall i | 0 <= i < |own|
      ensures Enabled(own[i].before, own[i].step) && StateAt(own, s', i + 1) == Apply(own[i].before, own[i].step)
    {
      assert own[i] == h'[|h| + i];
      assert StateAt(own, s', i + 1) == StateAt(h', s', |h| + i + 1);
    }
    ChainedBefore(h', s', n, |h|);
    assert h'[..|h|] == h;
    ChainedOnce(h, s, StateAt(h', s', |h|), n);
    assert StateAt(own, s', 0) == StateAt(h', s', |h|);
  }

  /** A step that changes nothing, again and again. */
  lemma {:induction false} StandsStill(ms: seq<Moment>, s: State, s': State, step: Step, i: nat)
    requires ChainedFrom(ms, s, s') && i <= |ms| && Enabled(s, step) && Apply(s, step) == s
    requires forall j :: 0 <= j < |ms| ==> ms[j].step == step
    ensures StateAt(ms, s', i) == s
    decreases i
  {
    if i == 0 {
    } else {
      StandsStill(ms, s, s', step, i - 1);
      assert ms[i - 1].before == s;
    }
  }

  lemma LoneSwaps(ms: seq<Moment>, s: State, s': State, t: nat, op: Op, taken: Option<nat>, k: nat)
    requires ChainedFrom(ms, s, s') && CheckedUpTo(ms, ForToken, t, taken, k) && k >= 1
    requires |s.cells| > 0 && t < |s.senders| && s.senders[t] == Taking(op) && !op.TrySend?
    ensures taken == if s.writeHead == TAKEN then None else Some(s.writeHead)
    ensures s' == if s.writeHead == TAKEN then s else Take(s, t)
  {
    assert ms[0].before == s && ms[0].step == Advance(t);
    if s.writeHead == TAKEN {
      assert Apply(s, Advance(t)) == s;
      StandsStill(ms, s, s', Advance(t), |ms| - 1);
      StandsStill(ms, s, s', Advance(t), |ms|);
    } else {
      assert !FailsAt(ms[0].before, ForToken);
      assert |ms| == 1 && StateAt(ms, s', 1) == s';
    }
  }

  lemma LoneWaits(ms: seq<Moment>, s: State, s': State, t: nat, cell: nat, zero: Option<nat>, k: nat)
    requires ChainedFrom(ms, s, s') && CheckedUpTo(ms, ForCounter(cell), t, zero, k) && k >= 1
    requires t < |s.senders| && s.senders[t].Waiting? && cell < |s.cells| && cell == Slot(s.senders[t].id, |s.cells|)
    ensures zero.Some? <==> s.cells[cell].readCounter == 0
    ensures s' == WaitForCounter(s, t)
  {
    assert ms[0].before == s && ms[0].step == Advance(t);
    if s.cells[cell].readCounter != 0 {
      assert Apply(s, Advance(t)) == s;
      StandsStill(ms, s, s', Advance(t), |ms| - 1);
      StandsStill(ms, s, s', Advance(t), |ms|);
    } else {
      assert !FailsAt(ms[0].before, ForCounter(cell));
      assert |ms| == 1 && StateAt(ms, s', 1) == s';
    }
  }

  lemma LoneLooks(ms: seq<Moment>, s: State, s': State, t: nat, op: Op, id: nat, safe: Option<bool>, k: nat)
    requires ChainedFrom(ms, s, s') && LookedSafe(ms, t, id, |s.cells|, safe, k) && k >= 1
    requires |s.cells| > 0 && t < |s.senders| && s.senders[t] == Looking(op, id) && !op.TrySend?
    ensures safe == if CellOf(s, id).readCounter != 0 then None else Some(s.numReceivers != 0)
  {
    assert ms[0].before == s && ms[0].step == Advance(t);
    var s1 := Apply(s, Advance(t));
    assert StateAt(ms, s', 1) == s1;
    if CellOf(s, id).readCounter == 0 {
      assert ms[1].before == s1;
    } else {
      OneOff(ms, s, s');
      LoneWaits(ms[1..], s1, s', t, Slot(id, |s.cells|), if safe.Some? then Some(0) else None, k);
    }
  }

  lemma OneOff(ms: seq<Moment>, s: State, s': State)
    requires ChainedFrom(ms, s, s') && ms != []
    ensures ms[0].before == s && Enabled(s, ms[0].step) && ChainedFrom(ms[1..], Apply(s, ms[0].step), s')
  {
    assert ms == [ms[0]] + ms[1..];
    var mid := ChainedSplits([ms[0]], ms[1..], s, s');
    assert StateAt([ms[0]], mid, 1) == mid;
  }

  /** How a send or try_send_before ends that is left alone. */
  function LoneOutcome(s: State, op: Op): CallOutcome
    requires |s.cells| > 0 && (op.Send? || op.TrySendBefore?)
  {
    var gaveUp := if op.Send? then Blocked else Finished(Timeout(op.value));
    if s.writeHead == TAKEN then gaveUp
    else if CellOf(s, s.writeHead).readCounter != 0 then gaveUp
    else if s.numReceivers == 0 then Finished(Disconnected(Some(op.value)))
    else Finished(Sent)
  }

  /** A send, or a try_send_before whose deadline is ahead, during which nobody else runs: with
      a free head and a free cell it is Sent if there is a receiver and Disconnected if there
      is none; otherwise it ends without either. (Or it would use the last id.) */
  lemma {:induction false} LoneSend(h: seq<Moment>, s: State, path: Path, s': State, n: nat, t: nat, op: Op, headChecks: nat, cellChecks: nat, c: CallOutcome)
    requires |s.cells| == n > 0 && Kept(h, s, n)
    requires Kept(h + ([Moment(s, Begin(t, op))] + (path.swaps + (path.looks + path.rest))), s', n)
    requires Followed(path, t, op, n, headChecks, cellChecks, c) && headChecks >= 1 && cellChecks >= 1
    requires (op.Send? || op.TrySendBefore?) && t < |s.senders| && s.senders[t].SenderIdle?
    ensures c == LoneOutcome(s, op) || (c == OutOfIds && LoneOutcome(s, op) == Finished(Sent))
  {
    var begin := [Moment(s, Begin(t, op))];
    AloneIsChained(h, s, begin + (path.swaps + (path.looks + path.rest)), s', n);
    var s1 := ChainedSplits(begin, path.swaps + (path.looks + path.rest), s, s');
    assert s1 == Apply(s, Begin(t, op)) by {
      assert StateAt(begin, s1, 1) == Apply(begin[0].before, begin[0].step);
    }
    var s2 := ChainedSplits(path.swaps, path.looks + path.rest, s1, s');
    LoneSwaps(path.swaps, s1, s2, t, op, path.taken, headChecks);
    if path.taken.Some? {
      var s3 := ChainedSplits(path.looks, path.rest, s2, s');
      LoneLooks(path.looks, s2, s3, t, op, path.taken.value, path.safe, cellChecks);
      assert CellOf(s2, s.writeHead).readCounter == CellOf(s, s.writeHead).readCounter;
    }
  }

  /** How a poll ends that is left alone. */
  function LonePollOutcome(s: State, held: Option<nat>): Readiness
    requires |s.cells| > 0
  {
    if s.numReceivers == 0 then Closed
    else if held.None? && s.writeHead == TAKEN then Pending
    else if CellOf(s, if held.Some? then held.value else s.writeHead).readCounter != 0 then Pending
    else Ready
  }

  /** A poll_ready during which nobody else runs: Disconnected without receivers, Pending if the
      head or the cell is not free, Ready otherwise. (Or it would use the last id.) */
  lemma {:induction false} LonePoll(h: seq<Moment>, s: State, first: Step, path: PollPath, s': State, n: nat, p: nat, held: Option<nat>,
                 headChecks: nat, cellChecks: nat, r: Readiness)
    requires |s.cells| == n > 0 && Kept(h, s, n)
    requires Kept(h + ([Moment(s, first)] + ([path.load] + (path.swaps + (path.looks + path.rest)))), s', n)
    requires PollFollowed(path, p, held, n, headChecks, cellChecks, r) && headChecks >= 1 && cellChecks >= 1
    requires p < |s.senders|
    requires if s.senders[p].SenderIdle? then held.None? && first == Begin(p, PollReady)
             else s.senders[p] == Pended(held) && first == Repoll(p)
    ensures r == LonePollOutcome(s, held) || (r == NoMoreIds && LonePollOutcome(s, held) == Ready)
  {
    var begin, more := [Moment(s, first)], path.swaps + (path.looks + path.rest);
    AloneIsChained(h, s, begin + ([path.load] + more), s', n);
    var s1 := ChainedSplits(begin, [path.load] + more, s, s');
    assert s1 == Apply(s, first) by {
      assert StateAt(begin, s1, 1) == Apply(begin[0].before, begin[0].step);
    }
    var s2 := ChainedSplits([path.load], more, s1, s');
    assert path.load.before == s1 && s2 == Apply(s1, Advance(p)) by {
      assert StateAt([path.load], s2, 1) == Apply([path.load][0].before, [path.load][0].step);
    }
    if s.numReceivers != 0 {
      LonePollChecks(path, s2, s', n, p, held, headChecks, cellChecks, r);
    }
  }

  lemma LonePollChecks(path: PollPath, s: State, s': State, n: nat, p: nat, held: Option<nat>,
                       headChecks: nat, cellChecks: nat, r: Readiness)
    requires n > 0 && |s.cells| == n && ChainedFrom(path.swaps + (path.looks + path.rest), s, s')
    requires PollFollowed(path, p, held, n, headChecks, cellChecks, r) && headChecks >= 1 && cellChecks >= 1
    requires path.load.before.numReceivers != 0 && s.numReceivers != 0 && p < |s.senders|
    requires s.senders[p] == if held.None? then Taking(PollReady) else Waiting(PollReady, held.value)
    ensures r == LonePollOutcome(s, held) || (r == NoMoreIds && LonePollOutcome(s, held) == Ready)
  {
    var s3 := ChainedSplits(path.swaps, path.looks + path.rest, s, s');
    if held.None? {
      LoneSwaps(path.swaps, s, s3, p, PollReady, path.held, headChecks);
    } else {
      assert s3 == s;
    }
    if path.held.Some? {
      var s4 := ChainedSplits(path.looks, path.rest, s3, s');
      LoneWaits(path.looks, s3, s4, p, Slot(path.held.value, n), path.zero, cellChecks);
    }
  }

  // ---- what a wait for an id cannot miss ----

  /** What is published stays published. */
  lemma {:induction false} PublishedStays(h: seq<Moment>, s: State, n: nat, i: nat, j: nat, id: nat)
    requires n > 0 && Chained(h, s, n) && i <= j <= |h| && IsPublished(StateAt(h, s, i), id)
    ensures IsPublished(StateAt(h, s, j), id)
    decreases j
  {
    if j == i {
    } else {
      PublishedStays(h, s, n, i, j - 1, id);
      ChainedBefore(h, s, n, j - 1);
      ChainedRun(h[..j - 1], StateAt(h, s, j - 1), n);
      StepGrows(h[j - 1].before, h[j - 1].step);
    }
  }

  /** recv, try_recv_until and poll_next with the checks `ms` in the history h: if the id was
      published at any time before the last check that was allowed, it has been received. */
  lemma {:induction false} PublishedInTimeIsSeen(h: seq<Moment>, s: State, n: nat, ms: seq<Moment>, cell: nat, id: nat, r: nat, seen: Option<nat>, k: nat,
                              i: nat, last: nat)
    requires Kept(h, s, n) && CheckedUpTo(ms, ForId(cell, id), r, seen, k) && k >= 1
    requires i <= last < |h| && h[last] == ms[|ms| - 1] && IsPublished(StateAt(h, s, i), id)
    ensures seen.Some?
  {
    KeptIsChained(h, s, n);
    PublishedStays(h, s, n, i, last, id);
    assert seen.None? ==> FailsAt(ms[|ms| - 1].before, ForId(cell, id));
  }
}
