/** The retry loops of HybridWait and BlockStrategy (src/wait_strategy/hybrid.rs, block.rs):
    check, spin; check, yield; check once more; then listen, check, park, check, again and
    again. Other threads run after every failed check. A call that waits without bound is cut
    off after it parked `patience` times; one with a deadline looks at the clock after each
    failed spin or yield check and when it parks, and finds time left `looks` times. */
module WaitStrategy {
  import opened Prelude
  import opened Protocol
  import opened Invariant
  import opened Channel
  import opened Safety

  /** What is waited for: the token of the write head, a zero read counter, or an id. */
  datatype Waiter =
    | ForToken
    | ForCounter(cell: nat)
    | ForId(cell: nat, expected: nat)

  function ThreadOf(w: Waiter, who: nat): Thread {
    if w.ForId? then ReceiverThread(who) else SenderThread(who)
  }

  /** The thread stands in front of the check. */
  ghost predicate Pending(s: State, w: Waiter, who: nat) {
    && |s.cells| > 0
    && match w
       case ForToken => who < |s.senders| && s.senders[who].Taking? && !s.senders[who].op.TrySend?
       case ForCounter(cell) =>
         who < |s.senders| && s.senders[who].Waiting? && cell == Slot(s.senders[who].id, |s.cells|)
       case ForId(cell, expected) =>
         who < |s.receivers| && s.receivers[who].pc.ReceiverIdle? && s.receivers[who].cursor == expected
         && cell == Slot(expected, |s.cells|)
  }

  /** The check of the state `before` succeeded, with the value taken. */
  ghost predicate Succeeded(before: State, s: State, w: Waiter, who: nat, value: nat)
    requires Pending(before, w, who)
  {
    match w
    case ForToken =>
      && who < |s.senders|
      && var op := before.senders[who].op;
         s.senders[who] == if op.PollReady? then Waiting(op, value) else Looking(op, value)
    case ForCounter(_) =>
      who < |s.senders| && s.senders[who] == Restoring(before.senders[who].op, before.senders[who].id)
    case ForId(_, expected) =>
      who < |s.receivers| && s.receivers[who] == before.receivers[who].(pc := Moving(expected, Single))
  }

  ghost predicate Unmoved(before: State, s: State, w: Waiter, who: nat) {
    if w.ForId? then
      who < |before.receivers| && who < |s.receivers| && s.receivers[who] == before.receivers[who]
    else
      who < |before.senders| && who < |s.senders| && s.senders[who] == before.senders[who]
  }

  /** Nothing has come of waiting so far. */
  ghost predicate InVain(before: State, s: State, w: Waiter, who: nat, still: set<nat>) {
    Since(before, s, ThreadOf(w, who), still) && Unmoved(before, s, w, who) && Pending(s, w, who)
  }

  /** What any number of checks can have done, none included. */
  ghost predicate Tried(before: State, s: State, w: Waiter, who: nat, still: set<nat>, r: Option<nat>)
    requires Pending(before, w, who)
  {
    if r.Some? then Since(before, s, ThreadOf(w, who), still) && Succeeded(before, s, w, who, r.value)
    else InVain(before, s, w, who, still)
  }

  /** The outcome of waiting, after at least one check. An id that was published when the wait
      began has been seen. */
  ghost predicate Outcome(before: State, s: State, w: Waiter, who: nat, still: set<nat>, r: Option<nat>)
    requires Pending(before, w, who)
  {
    Tried(before, s, w, who, still, r) && (r.None? && w.ForId? ==> !IsPublished(before, w.expected))
  }

  lemma TriedChains(a: State, b: State, c: State, w: Waiter, who: nat, still: set<nat>, r: Option<nat>)
    requires Pending(a, w, who) && InVain(a, b, w, who, still) && Tried(b, c, w, who, still, r)
    ensures Tried(a, c, w, who, still, r)
  {
    SinceTransitive(a, b, c, ThreadOf(w, who), still);
  }

  lemma OutcomeChains(a: State, b: State, c: State, w: Waiter, who: nat, still: set<nat>, r: Option<nat>)
    requires Pending(a, w, who) && InVain(a, b, w, who, still) && Outcome(b, c, w, who, still, r)
    ensures Outcome(a, c, w, who, still, r)
  {
    TriedChains(a, b, c, w, who, still, r);
  }

  // ---- what a wait did, check by check ----

  function CheckStep(w: Waiter, who: nat): Step {
    if w.ForId? then Look(who) else Advance(who)
  }

  /** A check in this state fails. One for an id fails only while the id is not published. */
  ghost predicate FailsAt(s: State, w: Waiter) {
    match w
    case ForToken => s.writeHead == TAKEN
    case ForCounter(cell) => cell < |s.cells| && s.cells[cell].readCounter != 0
    case ForId(cell, expected) => cell < |s.cells| && s.cells[cell].currentId != expected && !IsPublished(s, expected)
  }

  ghost predicate HoldsAt(s: State, w: Waiter, value: nat) {
    match w
    case ForToken => s.writeHead == value && value != TAKEN
    case ForCounter(cell) => cell < |s.cells| && s.cells[cell].readCounter == 0
    case ForId(cell, expected) => cell < |s.cells| && s.cells[cell].currentId == expected
  }

  /** The moments are the checks of a wait: all of them failed, or all but the last, which held. */
  ghost predicate Checked(ms: seq<Moment>, w: Waiter, who: nat, r: Option<nat>) {
    && (forall i :: 0 <= i < |ms| ==> ms[i].step == CheckStep(w, who))
    && match r
       case None => forall i :: 0 <= i < |ms| ==> FailsAt(ms[i].before, w)
       case Some(value) =>
         && 1 <= |ms| && HoldsAt(ms[|ms| - 1].before, w, value)
         && forall i :: 0 <= i < |ms| - 1 ==> FailsAt(ms[i].before, w)
  }

  /** Of k checks that were allowed, all failed, or one held. */
  ghost predicate CheckedUpTo(ms: seq<Moment>, w: Waiter, who: nat, r: Option<nat>, k: nat) {
    Checked(ms, w, who, r) && |ms| <= k && (r.None? ==> |ms| == k)
  }

  /** Where a wait began, and what the thread had done by then. */
  datatype Start = Start(s: State, trace: seq<Moment>)

  /** What a wait that began at b has come to in the state s. An id that was published when the
      wait began has been seen by the first check. */
  ghost predicate Waited(b: Start, s: State, trace: seq<Moment>, w: Waiter, who: nat, still: set<nat>, r: Option<nat>) {
    && Pending(b.s, w, who) && Tried(b.s, s, w, who, still, r)
    && b.trace <= trace && Checked(trace[|b.trace|..], w, who, r)
    && (r.None? && w.ForId? && |trace| > |b.trace| ==> !IsPublished(b.s, w.expected))
  }

  lemma WaitedMore(b: Start, s: State, trace: seq<Moment>, s': State, m: Moment,
                   w: Waiter, who: nat, still: set<nat>, r: Option<nat>)
    requires Waited(b, s, trace, w, who, still, None)
    requires Outcome(s, s', w, who, still, r) && Checked([m], w, who, r)
    ensures Waited(b, s', trace + [m], w, who, still, r)
  {
    OutcomeChains(b.s, s, s', w, who, still, r);
    assert (trace + [m])[|b.trace|..] == trace[|b.trace|..] + [m];
  }

  /** A wait that is just beginning. */
  lemma WaitBegins(s: State, trace: seq<Moment>, w: Waiter, who: nat, still: set<nat>)
    requires Pending(s, w, who)
    ensures Waited(Start(s, trace), s, trace, w, who, still, None)
  {
  }

  lemma SeenIfPublished(s: State, r: nat)
    requires Sound(s) && r < |s.receivers| && s.receivers[r].pc.ReceiverIdle?
    ensures IsPublished(s, s.receivers[r].cursor) <==> CellOf(s, s.receivers[r].cursor).currentId == s.receivers[r].cursor
  {
    SoundIsReachable(s);
    PublishedIsSeen(s, r);
  }

  class HybridWait {
    const numSpin: nat
    const numYield: nat

    constructor (numSpin: nat, numYield: nat)
      ensures this.numSpin == numSpin && this.numYield == numYield
    {
      this.numSpin, this.numYield := numSpin, numYield;
    }

    /** The checks of a wait without a deadline that parks `patience` times. */
    function Checks(patience: nat): nat {
      numSpin + numYield + TryChecks(patience)
    }

    /** The checks from the one before blocking on; all those of a poll. */
    function TryChecks(patience: nat): nat {
      2 + 2 * patience
    }

    /** The checks of a wait whose clock shows time left `looks` times. */
    function ChecksUntil(looks: nat): nat {
      if looks < numSpin + numYield then looks + 1
      else numSpin + numYield + TryChecks(looks - (numSpin + numYield))
    }

    /** The wait of this thread that began at b has come to r. */
    ghost predicate Came(q: Nexus, b: Start, w: Waiter, who: nat, still: set<nat>, r: Option<nat>)
      reads q, q.buffer
    {
      q.Valid() && Waited(b, q.View(), q.Trace(ThreadOf(w, who)), w, who, still, r)
    }

    /** How much the thread has done. */
    ghost function Count(q: Nexus, w: Waiter, who: nat): nat
      reads q
    {
      |q.Trace(ThreadOf(w, who))|
    }

    method CheckCounter(q: Nexus, cell: nat, ghost who: nat, ghost still: set<nat>) returns (r: Option<nat>)
      requires q.Valid() && Pending(q.View(), ForCounter(cell), who) && who !in still
      modifies q`senders, q`receivers, q`log, q`token, q`history
      ensures q.Valid() && Outcome(old(q.View()), q.View(), ForCounter(cell), who, still, r)
      ensures q.Trace(SenderThread(who)) == old(q.Trace(SenderThread(who))) + [Moment(old(q.View()), Advance(who))]
      ensures Checked([Moment(old(q.View()), Advance(who))], ForCounter(cell), who, r)
    {
      OwnStep(q.View(), Advance(who), still);
      var count := q.LoadReadCounter(cell, Advance(who));
      r := if count == 0 then Some(0) else None;
    }

    method CheckId(q: Nexus, cell: nat, expected: nat, ghost who: nat, ghost still: set<nat>) returns (r: Option<nat>)
      requires q.Valid() && Pending(q.View(), ForId(cell, expected), who)
      modifies q`senders, q`receivers, q`log, q`token, q`history
      ensures q.Valid() && Outcome(old(q.View()), q.View(), ForId(cell, expected), who, still, r)
      ensures q.Trace(ReceiverThread(who)) == old(q.Trace(ReceiverThread(who))) + [Moment(old(q.View()), Look(who))]
      ensures Checked([Moment(old(q.View()), Look(who))], ForId(cell, expected), who, r)
    {
      OwnStep(q.View(), Look(who), still);
      SeenIfPublished(q.View(), who);
      var id := q.LoadCurrentId(cell, Look(who));
      r := if id == expected then Some(0) else None;
    }

    method CheckToken(q: Nexus, ghost who: nat, ghost still: set<nat>) returns (r: Option<nat>)
      requires q.Valid() && Pending(q.View(), ForToken, who) && who !in still
      modifies q
      ensures q.Valid() && Outcome(old(q.View()), q.View(), ForToken, who, still, r)
      ensures q.Trace(SenderThread(who)) == old(q.Trace(SenderThread(who))) + [Moment(old(q.View()), Advance(who))]
      ensures Checked([Moment(old(q.View()), Advance(who))], ForToken, who, r)
    {
      OwnStep(q.View(), Advance(who), still);
      r := q.TryTake(who);
    }

    /** One atomic check or swap. */
    method Check(q: Nexus, w: Waiter, ghost who: nat, ghost still: set<nat>) returns (r: Option<nat>)
      requires q.Valid() && Pending(q.View(), w, who) && (!w.ForId? ==> who !in still)
      modifies q
      ensures q.Valid() && Outcome(old(q.View()), q.View(), w, who, still, r)
      ensures q.Trace(ThreadOf(w, who)) == old(q.Trace(ThreadOf(w, who))) + [Moment(old(q.View()), CheckStep(w, who))]
      ensures Checked([Moment(old(q.View()), CheckStep(w, who))], w, who, r)
    {
      match w
      case ForToken => r := CheckToken(q, who, still);
      case ForCounter(cell) => r := CheckCounter(q, cell, who, still);
      case ForId(cell, expected) => r := CheckId(q, cell, expected, who, still);
    }

    /** A check, and a turn of the other threads if it failed. */
    method CheckOrYield(q: Nexus, w: Waiter, ghost who: nat, ghost still: set<nat>) returns (r: Option<nat>)
      requires q.Valid() && Pending(q.View(), w, who) && (!w.ForId? ==> who !in still)
      modifies q, q.buffer
      ensures q.Valid() && Outcome(old(q.View()), q.View(), w, who, still, r)
      ensures q.Trace(ThreadOf(w, who)) == old(q.Trace(ThreadOf(w, who))) + [Moment(old(q.View()), CheckStep(w, who))]
      ensures Checked([Moment(old(q.View()), CheckStep(w, who))], w, who, r)
    {
      r := Check(q, w, who, still);
      if r.None? {
        ghost var s := q.View();
        q.Yield(ThreadOf(w, who), still);
        TriedChains(old(q.View()), s, q.View(), w, who, still, None);
      }
    }

    /** One more check of a wait. */
    method Again(q: Nexus, ghost b: Start, w: Waiter, ghost who: nat, ghost still: set<nat>) returns (r: Option<nat>)
      requires Came(q, b, w, who, still, None) && (!w.ForId? ==> who !in still)
      modifies q, q.buffer
      ensures Came(q, b, w, who, still, r) && Count(q, w, who) == old(Count(q, w, who)) + 1
    {
      ghost var s, trace := q.View(), q.Trace(ThreadOf(w, who));
      r := CheckOrYield(q, w, who, still);
      WaitedMore(b, s, trace, q.View(), Moment(s, CheckStep(w, who)), w, who, still, r);
    }

    /** Up to k checks more: k, or fewer if one held. */
    twostate predicate Within(q: Nexus, w: Waiter, who: nat, r: Option<nat>, k: nat)
      reads q
    {
      Count(q, w, who) <= old(Count(q, w, who)) + k && (r.None? ==> Count(q, w, who) == old(Count(q, w, who)) + k)
    }

    /** BlockStrategy: listen, check, park until notified, check, again and again. The last
        round ends when it would park. */
    method Block(q: Nexus, ghost b: Start, w: Waiter, ghost who: nat, ghost still: set<nat>, patience: nat) returns (r: Option<nat>)
      requires Came(q, b, w, who, still, None) && (!w.ForId? ==> who !in still)
      modifies q, q.buffer
      ensures Came(q, b, w, who, still, r) && Within(q, w, who, r, 1 + 2 * patience)
    {
      r := Again(q, b, w, who, still);
      for i := 0 to patience
        invariant Came(q, b, w, who, still, r) && Within(q, w, who, r, 1 + 2 * i)
      {
        if r.Some? {
          return;
        }
        r := Again(q, b, w, who, still);
        if r.Some? {
          return;
        }
        r := Again(q, b, w, who, still);
      }
    }

    /** The spins or the yields of wait_for and take. */
    method Retry(q: Nexus, ghost b: Start, w: Waiter, ghost who: nat, ghost still: set<nat>, times: nat) returns (r: Option<nat>)
      requires Came(q, b, w, who, still, None) && (!w.ForId? ==> who !in still)
      modifies q, q.buffer
      ensures Came(q, b, w, who, still, r) && Within(q, w, who, r, times)
    {
      r := None;
      for i := 0 to times
        invariant r.None? && Came(q, b, w, who, still, None) && Within(q, w, who, None, i)
      {
        r := Again(q, b, w, who, still);
        if r.Some? {
          return;
        }
      }
    }

    /** Those of wait_until and take_before: each failed check is followed by a look at the
        clock, which finds time left `looks` times. */
    method RetryUntil(q: Nexus, ghost b: Start, w: Waiter, ghost who: nat, ghost still: set<nat>, times: nat, looks: nat)
      returns (r: Option<nat>)
      requires Came(q, b, w, who, still, None) && (!w.ForId? ==> who !in still)
      modifies q, q.buffer
      ensures Came(q, b, w, who, still, r) && Within(q, w, who, r, if looks < times then looks + 1 else times)
    {
      r := None;
      for i := 0 to times
        invariant r.None? && i <= looks && Came(q, b, w, who, still, None) && Within(q, w, who, None, i)
      {
        r := Again(q, b, w, who, still);
        if r.Some? || i == looks {
          return;
        }
      }
    }

    /** The check before blocking, and blocking. */
    method LastTries(q: Nexus, ghost b: Start, w: Waiter, ghost who: nat, ghost still: set<nat>, patience: nat)
      returns (r: Option<nat>)
      requires Came(q, b, w, who, still, None) && (!w.ForId? ==> who !in still)
      modifies q, q.buffer
      ensures Came(q, b, w, who, still, r) && Within(q, w, who, r, TryChecks(patience))
    {
      r := Again(q, b, w, who, still);
      if r.None? {
        r := Block(q, b, w, who, still, patience);
      }
    }

    /** What follows the spins of wait_for and take. */
    method AfterSpins(q: Nexus, ghost b: Start, w: Waiter, ghost who: nat, ghost still: set<nat>, patience: nat)
      returns (r: Option<nat>)
      requires Came(q, b, w, who, still, None) && (!w.ForId? ==> who !in still)
      modifies q, q.buffer
      ensures Came(q, b, w, who, still, r) && Within(q, w, who, r, numYield + TryChecks(patience))
    {
      r := Retry(q, b, w, who, still, numYield);
      if r.None? {
        r := LastTries(q, b, w, who, still, patience);
      }
    }

    /** HybridWait::wait_for and take: spin, yield, one more check, then block. It succeeds
        only by a check that held, having granted nothing meanwhile, and otherwise leaves the
        caller where it was, after exactly so many checks that failed. */
    method Wait(q: Nexus, w: Waiter, ghost who: nat, ghost still: set<nat>, patience: nat) returns (r: Option<nat>)
      requires q.Valid() && Pending(q.View(), w, who) && (!w.ForId? ==> who !in still)
      modifies q, q.buffer
      ensures Came(q, Start(old(q.View()), old(q.Trace(ThreadOf(w, who)))), w, who, still, r)
      ensures Within(q, w, who, r, Checks(patience))
    {
      ghost var b := Start(q.View(), q.Trace(ThreadOf(w, who)));
      WaitBegins(b.s, b.trace, w, who, still);
      r := Retry(q, b, w, who, still, numSpin);
      if r.None? {
        r := AfterSpins(q, b, w, who, still, patience);
      }
    }

    /** HybridWait::wait_until and take_before: the deadline can end them after any failed
        spin or yield check, or when they would park. */
    method WaitUntil(q: Nexus, w: Waiter, ghost who: nat, ghost still: set<nat>, looks: nat) returns (r: Option<nat>)
      requires q.Valid() && Pending(q.View(), w, who) && (!w.ForId? ==> who !in still)
      modifies q, q.buffer
      ensures Came(q, Start(old(q.View()), old(q.Trace(ThreadOf(w, who)))), w, who, still, r)
      ensures Within(q, w, who, r, ChecksUntil(looks))
    {
      ghost var b := Start(q.View(), q.Trace(ThreadOf(w, who)));
      WaitBegins(b.s, b.trace, w, who, still);
      r := RetryUntil(q, b, w, who, still, numSpin, looks);
      if r.None? && looks >= numSpin {
        r := AfterSpinsUntil(q, b, w, who, still, looks - numSpin);
      }
    }

    method AfterSpinsUntil(q: Nexus, ghost b: Start, w: Waiter, ghost who: nat, ghost still: set<nat>, looks: nat)
      returns (r: Option<nat>)
      requires Came(q, b, w, who, still, None) && (!w.ForId? ==> who !in still)
      modifies q, q.buffer
      ensures Came(q, b, w, who, still, r)
      ensures Within(q, w, who, r, if looks < numYield then looks + 1 else numYield + TryChecks(looks - numYield))
    {
      r := RetryUntil(q, b, w, who, still, numYield, looks);
      if r.None? && looks >= numYield {
        r := LastTries(q, b, w, who, still, looks - numYield);
      }
    }

    /** HybridWait::poll: BlockStrategy::poll. It checks, and checks again with a listener;
        Pending comes where the blocking loop would park. */
    method Poll(q: Nexus, w: Waiter, ghost who: nat, ghost still: set<nat>, patience: nat) returns (r: Option<nat>)
      requires q.Valid() && Pending(q.View(), w, who) && (!w.ForId? ==> who !in still)
      modifies q, q.buffer
      ensures Came(q, Start(old(q.View()), old(q.Trace(ThreadOf(w, who)))), w, who, still, r)
      ensures Within(q, w, who, r, TryChecks(patience))
    {
      ghost var b := Start(q.View(), q.Trace(ThreadOf(w, who)));
      WaitBegins(b.s, b.trace, w, who, still);
      r := LastTries(q, b, w, who, still, patience);
    }
  }
}
