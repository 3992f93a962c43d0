/** try_recv_batch against repeated try_recv. */
module Batch {
  import opened Prelude
  import opened Protocol
  import opened Invariant
  import opened Safety
  import ReceiverSteps
  import Refinement

  // ---- a receiver that runs on its own until its operation is over ----

  function Rank(pc: ReceiverPc): nat {
    match pc
    case Scanning(max, k) => if k <= max then 5 + 2 * (max - k) else 5
    case Copying(max, k) => if k < max then 4 + 2 * (max - k) else 6
    case Moving(_, _) => 4
    case OnBoth(_, _) => 3
    case Leaving(_) => 2
    case Dropping => 2
    case Reading => 1
    case Cloning => 1
    case DropNotifying => 1
    case _ => 0
  }

  predicate AtEnd(s: State, r: nat) {
    r < |s.receivers| && (s.receivers[r].pc.ReceiverIdle? || s.receivers[r].pc.Gone?)
  }

  lemma RankFalls(s: State, r: nat)
    requires Enabled(s, Continue(r))
    ensures r < |ContinueReceiver(s, r).receivers| && |ContinueReceiver(s, r).cells| == |s.cells|
    ensures Rank(ContinueReceiver(s, r).receivers[r].pc) < Rank(s.receivers[r].pc)
  {
  }

  /** Receiver r takes all its steps, nobody else any. */
  function Finish(s: State, r: nat): (s': State)
    requires |s.cells| > 0 && r < |s.receivers|
    ensures |s'.cells| == |s.cells| && AtEnd(s', r)
    decreases Rank(s.receivers[r].pc)
  {
    if AtEnd(s, r) then s
    else
      RankFalls(s, r);
      Finish(ContinueReceiver(s, r), r)
  }

  lemma {:induction false} FinishIsARun(s: State, r: nat) returns (steps: seq<Step>)
    requires |s.cells| > 0 && r < |s.receivers|
    ensures forall i :: 0 <= i < |steps| ==> steps[i] == Continue(r)
    ensures Legal(s, steps) && Execute(s, steps) == Finish(s, r)
    decreases Rank(s.receivers[r].pc)
  {
    if AtEnd(s, r) {
      steps := [];
    } else {
      RankFalls(s, r);
      var rest := FinishIsARun(ContinueReceiver(s, r), r);
      steps := [Continue(r)] + rest;
      assert steps[1..] == rest;
    }
  }

  /** The cell of id shows that id: try_recv would not say NoNewData. */
  predicate Shows(s: State, id: nat)
    requires |s.cells| > 0
  {
    CellOf(s, id).currentId == id
  }

  function TryRecvAlone(s: State, r: nat): State
    requires |s.cells| > 0 && AtEnd(s, r)
  {
    Finish(LookForNext(s, r), r)
  }

  /** try_recv up to m times, stopping at the first NoNewData. */
  function ReadSingly(s: State, r: nat, m: nat): State
    requires |s.cells| > 0 && AtEnd(s, r)
    decreases m
  {
    if m == 0 || !Shows(s, s.receivers[r].cursor) then s else ReadSingly(TryRecvAlone(s, r), r, m - 1)
  }

  function BatchAlone(s: State, r: nat, max: nat): State
    requires |s.cells| > 0 && AtEnd(s, r)
  {
    Finish(StartBatch(s, r, max), r)
  }

  // ---- both in closed form ----

  /** The values in the cells of m ids. */
  function Values(s: State, id: nat, m: nat): seq<Value>
    requires |s.cells| > 0
  {
    if m == 0 then [] else Values(s, id, m - 1) + Unwrapped(CellOf(s, id + m - 1).value)
  }

  /** m ids from the cursor on are shown, and then none or no more are wanted. */
  ghost predicate StopsAt(s: State, cursor: nat, total: nat, m: nat)
    requires |s.cells| > 0
  {
    && m <= total
    && (forall id :: cursor <= id < cursor + m ==> Shows(s, id))
    && (m < total ==> !Shows(s, cursor + m))
  }

  function Transfer(cells: seq<Cell>, a: nat, b: nat): seq<Cell> {
    CountOff(CountOn(cells, b), a)
  }

  /** The receiver x of s, m ids further on, with the values in between. */
  function Further(s: State, x: Receiver, m: nat): Receiver
    requires |s.cells| > 0
  {
    x.(cursor := x.cursor + m, previous := Slot(x.held + m, |s.cells|), held := x.held + m,
       got := x.got + Values(s, x.cursor, m))
  }

  /** Receiver r has become y, and is counted on cell i instead of where it was. */
  function Moved(s: State, r: nat, i: nat, y: Receiver): State
    requires r < |s.receivers|
  {
    PutR(s.(cells := Transfer(s.cells, s.receivers[r].previous, i)), r, y)
  }

  function Advanced(s: State, r: nat, m: nat): State
    requires |s.cells| > 0 && r < |s.receivers|
  {
    Moved(s, r, Slot(s.receivers[r].held + m, |s.cells|), Further(s, s.receivers[r], m))
  }

  /** Between two operations of receiver r. */
  predicate Settled(s: State, r: nat) {
    && |s.cells| > 0 && r < |s.receivers|
    && var x := s.receivers[r];
       && x.pc.ReceiverIdle? && x.cursor == x.held + 1
       && x.previous == Slot(x.held, |s.cells|) && s.cells[x.previous].readCounter >= 1
  }

  lemma AdvancedByNone(s: State, r: nat)
    requires Settled(s, r)
    ensures Advanced(s, r, 0) == s
  {
    var x := s.receivers[r];
    assert Transfer(s.cells, x.previous, x.previous) == s.cells;
    assert x.got + [] == x.got;
    assert Advanced(s, r, 0).receivers[r] == x;
  }

  lemma Transfers(cells: seq<Cell>, a: nat, b: nat, c: nat)
    requires a < |cells| && b < |cells| && c < |cells| && cells[a].readCounter >= 1
    ensures Transfer(Transfer(cells, a, b), b, c) == Transfer(cells, a, c)
    ensures Transfer(cells, a, b)[b].readCounter >= 1
  {
  }

  lemma OneValue(s: State, id: nat)
    requires |s.cells| > 0
    ensures Values(s, id, 1) == Unwrapped(CellOf(s, id).value)
  {
    assert Values(s, id, 0) == [];
  }

  lemma ValuesGrow(s: State, id: nat, m: nat)
    requires |s.cells| > 0
    ensures Values(s, id, m + 1) == Values(s, id, m) + Unwrapped(CellOf(s, id + m).value)
  {
  }

  lemma Reassociate(a: seq<Value>, b: seq<Value>, c: seq<Value>)
    ensures a + (b + c) == a + b + c
  {
  }

  lemma FurtherOnce(s: State, s1: State, x: Receiver, m: nat)
    requires |s.cells| == |s1.cells| > 0 && CellOf(s1, x.cursor + m).value == CellOf(s, x.cursor + m).value
    ensures Further(s1, Further(s, x, m), 1) == Further(s, x, m + 1)
  {
    OneValue(s1, x.cursor + m);
    ValuesGrow(s, x.cursor, m);
    Reassociate(x.got, Values(s, x.cursor, m), Unwrapped(CellOf(s, x.cursor + m).value));
  }

  lemma AdvancedSettles(s: State, r: nat, m: nat)
    requires Settled(s, r)
    ensures Settled(Advanced(s, r, m), r)
  {
    var x, n := s.receivers[r], |s.cells|;
    Transfers(s.cells, x.previous, Slot(x.held + m, n), Slot(x.held + m, n));
  }

  lemma AdvancedShows(s: State, r: nat, m: nat, id: nat)
    requires Settled(s, r)
    ensures Shows(Advanced(s, r, m), id) <==> Shows(s, id)
    ensures CellOf(Advanced(s, r, m), id).value == CellOf(s, id).value
  {
  }

  lemma MovedTwice(s: State, r: nat, i: nat, y: Receiver, j: nat, z: Receiver)
    requires r < |s.receivers| && s.receivers[r].previous < |s.cells| && s.cells[s.receivers[r].previous].readCounter >= 1
    requires i == y.previous < |s.cells| && j < |s.cells|
    ensures Moved(Moved(s, r, i, y), r, j, z) == Moved(s, r, j, z)
  {
    Transfers(s.cells, s.receivers[r].previous, i, j);
  }

  lemma FurtherInAdvanced(s: State, r: nat, m: nat)
    requires Settled(s, r)
    ensures Further(Advanced(s, r, m), Further(s, s.receivers[r], m), 1) == Further(s, s.receivers[r], m + 1)
  {
    AdvancedShows(s, r, m, s.receivers[r].cursor + m);
    FurtherOnce(s, Advanced(s, r, m), s.receivers[r], m);
  }

  lemma AdvancedOnce(s: State, r: nat, m: nat)
    requires Settled(s, r)
    ensures Advanced(Advanced(s, r, m), r, 1) == Advanced(s, r, m + 1)
  {
    var x, n := s.receivers[r], |s.cells|;
    FurtherInAdvanced(s, r, m);
    MovedTwice(s, r, Slot(x.held + m, n), Further(s, x, m), Slot(x.held + m + 1, n), Further(s, x, m + 1));
  }

  lemma FinishStep(s: State, r: nat)
    requires |s.cells| > 0 && r < |s.receivers| && !AtEnd(s, r)
    ensures |ContinueReceiver(s, r).cells| == |s.cells| && r < |ContinueReceiver(s, r).receivers|
    ensures Finish(s, r) == Finish(ContinueReceiver(s, r), r)
  {
    RankFalls(s, r);
  }

  /** Counted on both cells: off the previous one and, if it was the last there, past the
      notification. */
  lemma LeaveAlone(s: State, r: nat)
    requires |s.cells| > 0 && r < |s.receivers| && s.receivers[r].pc.OnBoth?
    ensures var x := s.receivers[r];
            Finish(s, r) == Finish(PutR(s.(cells := CountOff(s.cells, x.previous)), r,
                                        Arrived(x.(held := x.pc.to), x.pc.mode, |s.cells|)), r)
  {
    FinishStep(s, r);
    if LastOn(s.cells, s.receivers[r].previous) {
      FinishStep(MoveFrom(s, r), r);
    }
  }

  /** From the first step of the hand-over to its last. */
  lemma CrossAlone(s: State, r: nat)
    requires |s.cells| > 0 && r < |s.receivers| && s.receivers[r].pc.Moving?
    ensures var x, n := s.receivers[r], |s.cells|;
            Finish(s, r) == Finish(PutR(s.(cells := Transfer(s.cells, x.previous, Slot(x.pc.to, n))), r,
                                        Arrived(x.(held := x.pc.to), x.pc.mode, n)), r)
  {
    FinishStep(s, r);
    LeaveAlone(MoveTo(s, r), r);
  }

  lemma BatchHandOver(s: State, r: nat)
    requires |s.cells| > 0 && r < |s.receivers| && s.receivers[r].pc.Moving? && s.receivers[r].pc.mode.Batch?
    ensures var x, n := s.receivers[r], |s.cells|;
            Finish(s, r) == PutR(s.(cells := Transfer(s.cells, x.previous, Slot(x.pc.to, n))), r,
                                 x.(held := x.pc.to, previous := Slot(x.pc.to, n), pc := ReceiverIdle))
  {
    CrossAlone(s, r);
  }

  lemma ReadOnce(s: State, r: nat)
    requires Settled(s, r) && Shows(s, s.receivers[r].cursor)
    ensures TryRecvAlone(s, r) == Advanced(s, r, 1)
  {
    var moving, x, n := LookForNext(s, r), s.receivers[r], |s.cells|;
    CrossAlone(moving, r);
    var arrived := PutR(moving.(cells := Transfer(s.cells, x.previous, Slot(x.cursor, n))), r,
                        Arrived(x.(held := x.cursor), Single, n));
    FinishStep(arrived, r);
    OneValue(s, x.cursor);
    assert CellOf(arrived, x.cursor).value == CellOf(s, x.cursor).value;
    assert Read(arrived, r) == Advanced(s, r, 1);
  }

  /** One successful try_recv leads from a to b. */
  ghost predicate ReadLeads(a: State, b: State, r: nat) {
    && |a.cells| > 0 && AtEnd(a, r) && |b.cells| > 0 && AtEnd(b, r)
    && Shows(a, a.receivers[r].cursor) && TryRecvAlone(a, r) == b
  }

  ghost predicate IsChain(chain: seq<State>, r: nat) {
    && (forall k :: 0 <= k < |chain| - 1 ==> ReadLeads(chain[k], chain[k + 1], r))
    && (forall k :: 0 <= k < |chain| ==> |chain[k].cells| > 0 && AtEnd(chain[k], r))
  }

  lemma {:induction false} ReadAlong(chain: seq<State>, r: nat, left: nat)
    requires chain != [] && IsChain(chain, r)
    ensures ReadSingly(chain[0], r, |chain| - 1 + left) == ReadSingly(chain[|chain| - 1], r, left)
    decreases |chain|
  {
    if |chain| == 1 {
    } else {
      assert ReadLeads(chain[0], chain[1], r);
      ReadAlong(chain[1..], r, left);
    }
  }

  lemma AdvancedLeads(s: State, r: nat, m: nat)
    requires Settled(s, r) && Shows(s, s.receivers[r].cursor + m)
    ensures ReadLeads(Advanced(s, r, m), Advanced(s, r, m + 1), r)
  {
    AdvancedSettles(s, r, m);
    AdvancedShows(s, r, m, s.receivers[r].cursor + m);
    ReadOnce(Advanced(s, r, m), r);
    AdvancedOnce(s, r, m);
  }

  lemma AdvancedStops(s: State, r: nat, total: nat, m: nat, end: State)
    requires Settled(s, r) && StopsAt(s, s.receivers[r].cursor, total, m) && end == Advanced(s, r, m)
    ensures |end.cells| > 0 && AtEnd(end, r) && ReadSingly(end, r, total - m) == end
  {
    AdvancedShows(s, r, m, s.receivers[r].cursor + m);
  }

  lemma {:induction false} ChainTo(s: State, r: nat, m: nat, end: State) returns (chain: seq<State>)
    requires Settled(s, r) && end == Advanced(s, r, m)
    requires forall id :: s.receivers[r].cursor <= id < s.receivers[r].cursor + m ==> Shows(s, id)
    ensures |chain| == m + 1 && IsChain(chain, r) && chain[0] == s && chain[m] == end
    decreases m
  {
    AdvancedSettles(s, r, m);
    if m == 0 {
      AdvancedByNone(s, r);
      chain := [s];
    } else {
      var before := Advanced(s, r, m - 1);
      AdvancedLeads(s, r, m - 1);
      chain := ChainTo(s, r, m - 1, before);
      chain := Prolong(chain, r, end);
    }
  }

  lemma Prolong(chain: seq<State>, r: nat, b: State) returns (longer: seq<State>)
    requires chain != [] && IsChain(chain, r) && ReadLeads(chain[|chain| - 1], b, r)
    ensures longer == chain + [b] && IsChain(longer, r)
  {
    longer := chain + [b];
  }

  lemma SinglesAdvance(s: State, r: nat, total: nat, m: nat, end: State)
    requires Settled(s, r) && StopsAt(s, s.receivers[r].cursor, total, m) && end == Advanced(s, r, m)
    ensures ReadSingly(s, r, total) == end
  {
    AdvancedStops(s, r, total, m, end);
    var chain := ChainTo(s, r, m, end);
    ReadAlong(chain, r, total - m);
  }

  /** The state of a batch that has read k values since s, before its next look. */
  function MidBatch(s: State, r: nat, max: nat, k: nat): State
    requires |s.cells| > 0 && r < |s.receivers|
  {
    var x := s.receivers[r];
    PutR(s, r, x.(got := x.got + Values(s, x.cursor, k), pc := Scanning(max, k)))
  }

  lemma BatchEnds(s: State, r: nat, max: nat, k: nat)
    requires Settled(s, r) && (k == max || !Shows(s, s.receivers[r].cursor + k))
    ensures Finish(MidBatch(s, r, max, k), r) == Advanced(s, r, k)
  {
    var x, mid := s.receivers[r], MidBatch(s, r, max, k);
    FinishStep(mid, r);
    if k == 0 {
      AdvancedByNone(s, r);
      assert x.got + [] == x.got;
      assert Scan(mid, r).receivers[r] == x;
      assert Scan(mid, r) == s;
    } else {
      BatchHandOver(Scan(mid, r), r);
      assert Finish(mid, r).receivers == Advanced(s, r, k).receivers;
    }
  }

  lemma BatchCopies(s: State, r: nat, max: nat, k: nat, mid: State)
    requires |s.cells| > 0 && r < |s.receivers| && k < max && mid == MidBatch(s, r, max, k)
    requires Shows(s, s.receivers[r].cursor + k)
    ensures Enabled(mid, Continue(r)) && Enabled(Scan(mid, r), Continue(r)) && Scan(mid, r).receivers[r].pc.Copying?
    ensures Copy(Scan(mid, r), r) == MidBatch(s, r, max, k + 1)
  {
    var x := s.receivers[r];
    ValuesGrow(s, x.cursor, k);
    Reassociate(x.got, Values(s, x.cursor, k), Unwrapped(CellOf(s, x.cursor + k).value));
  }

  lemma BatchGoesOn(s: State, r: nat, max: nat, k: nat)
    requires Settled(s, r) && k < max && Shows(s, s.receivers[r].cursor + k)
    ensures Finish(MidBatch(s, r, max, k), r) == Finish(MidBatch(s, r, max, k + 1), r)
  {
    var mid := MidBatch(s, r, max, k);
    BatchCopies(s, r, max, k, mid);
    FinishTwoSteps(mid, r);
  }

  lemma FinishTwoSteps(mid: State, r: nat)
    requires Enabled(mid, Continue(r)) && mid.receivers[r].pc.Scanning?
    requires Enabled(Scan(mid, r), Continue(r)) && Scan(mid, r).receivers[r].pc.Copying?
    ensures |Copy(Scan(mid, r), r).cells| == |mid.cells| && r < |Copy(Scan(mid, r), r).receivers|
    ensures Finish(mid, r) == Finish(Copy(Scan(mid, r), r), r)
  {
    FinishStep(mid, r);
    FinishStep(Scan(mid, r), r);
  }

  lemma {:induction false} BatchReaches(s: State, r: nat, max: nat, k: nat)
    requires Settled(s, r) && k <= max
    requires forall id :: s.receivers[r].cursor <= id < s.receivers[r].cursor + k ==> Shows(s, id)
    ensures Finish(MidBatch(s, r, max, 0), r) == Finish(MidBatch(s, r, max, k), r)
    decreases k
  {
    if k == 0 {
    } else {
      BatchReaches(s, r, max, k - 1);
      BatchGoesOn(s, r, max, k - 1);
    }
  }

  lemma FindStop(s: State, cursor: nat, total: nat) returns (m: nat)
    requires |s.cells| > 0
    ensures StopsAt(s, cursor, total, m)
  {
    m := 0;
    while m < total && Shows(s, cursor + m)
      invariant m <= total && forall id :: cursor <= id < cursor + m ==> Shows(s, id)
    {
      m := m + 1;
    }
  }

  lemma IdleIsSettled(s: State, r: nat)
    requires Reachable(s) && r < |s.receivers| && s.receivers[r].pc.ReceiverIdle?
    ensures Settled(s, r)
  {
    ReachableInv(s);
    ReceiverSteps.AboutReceiver(s, r);
    ReceiverSteps.CountedOnPrevious(s, r);
  }

  /** The bound of a batch. */
  function Limit(s: State, max: nat): nat
    requires |s.cells| > 0
  {
    if max < |s.cells| - 1 then max else |s.cells| - 1
  }

  lemma BatchStarts(s: State, r: nat, max: nat)
    requires Settled(s, r) && max > 0
    ensures StartBatch(s, r, max) == MidBatch(s, r, Limit(s, max), 0)
  {
    assert s.receivers[r].got + [] == s.receivers[r].got;
  }

  lemma LoopIsRepeatedReads(s: State, r: nat, limit: nat)
    requires Settled(s, r)
    ensures Finish(MidBatch(s, r, limit, 0), r) == ReadSingly(s, r, limit)
  {
    var m := FindStop(s, s.receivers[r].cursor, limit);
    BatchReaches(s, r, limit, m);
    BatchEnds(s, r, limit, m);
    SinglesAdvance(s, r, limit, m, Advanced(s, r, m));
  }

  /** On a state that stays put, try_recv_batch(max) is min(max, n - 1) calls of try_recv that
      stop at the first NoNewData: same values, same cursor and previous cell, same counters. */
  lemma BatchIsRepeatedReads(s: State, r: nat, max: nat)
    requires Reachable(s) && r < |s.receivers| && s.receivers[r].pc.ReceiverIdle?
    ensures BatchAlone(s, r, max) == ReadSingly(s, r, Limit(s, max))
  {
    IdleIsSettled(s, r);
    if max > 0 {
      BatchStarts(s, r, max);
      LoopIsRepeatedReads(s, r, Limit(s, max));
    }
  }

  // ---- under concurrent threads ----

  /** Other threads do not see what receiver r does to itself. */
  lemma OthersDoNotSee(s: State, r: nat, x: Receiver, step: Step)
    requires r < |s.receivers| && Enabled(s, step) && Actor(step) != ReceiverThread(r)
    ensures Enabled(PutR(s, r, x), step)
    ensures r < |Apply(s, step).receivers| && Apply(PutR(s, r, x), step) == PutR(Apply(s, step), r, x)
  {
    if Actor(step).ReceiverThread? {
      ReceiversDoNotSee(s, r, x, step);
    } else {
      SendersDoNotSee(s, r, x, step);
    }
  }

  lemma SendersDoNotSee(s: State, r: nat, x: Receiver, step: Step)
    requires r < |s.receivers| && Enabled(s, step) && !Actor(step).ReceiverThread?
    ensures Enabled(PutR(s, r, x), step)
    ensures r < |Apply(s, step).receivers| && Apply(PutR(s, r, x), step) == PutR(Apply(s, step), r, x)
  {
    if step.Advance? {
      AdvanceDoesNotSee(s, r, x, step.t);
    }
  }

  lemma AdvanceDoesNotSee(s: State, r: nat, x: Receiver, t: nat)
    requires r < |s.receivers| && Enabled(s, Advance(t))
    ensures Enabled(PutR(s, r, x), Advance(t))
    ensures AdvanceSender(s, t).receivers == s.receivers
    ensures AdvanceSender(PutR(s, r, x), t) == PutR(AdvanceSender(s, t), r, x)
  {
  }

  lemma ReceiversDoNotSee(s: State, r: nat, x: Receiver, step: Step)
    requires r < |s.receivers| && Enabled(s, step) && Actor(step).ReceiverThread? && Actor(step).r != r
    ensures Enabled(PutR(s, r, x), step)
    ensures r < |Apply(s, step).receivers| && Apply(PutR(s, r, x), step) == PutR(Apply(s, step), r, x)
  {
    var q := Actor(step).r;
    assert PutR(s, r, x).receivers[q] == s.receivers[q];
    var y := Apply(s, step).receivers[q];
    assert s.receivers[r := x][q := y] == s.receivers[q := y][r := x];
    if step.Continue? && s.receivers[q].pc.Cloning? {
      assert Apply(PutR(s, r, x), step).receivers == PutR(Apply(s, step), r, x).receivers;
    }
  }

  function Without(steps: seq<Step>, r: nat): seq<Step> {
    if steps == [] then []
    else if Actor(steps[0]) == ReceiverThread(r) then Without(steps[1..], r)
    else [steps[0]] + Without(steps[1..], r)
  }

  predicate InLoop(x: Receiver) {
    x.pc.Scanning? || x.pc.Copying?
  }

  /** Receiver r is in the loop of a batch before each of its own steps. */
  predicate LoopOnly(s: State, steps: seq<Step>, r: nat)
    requires Legal(s, steps)
    decreases |steps|
  {
    steps != [] ==>
      && (Actor(steps[0]) == ReceiverThread(r) ==> steps[0] == Continue(r) && InLoop(s.receivers[r]))
      && LoopOnly(Apply(s, steps[0]), steps[1..], r)
  }

  /** The loop of a batch can be left out of a run: nobody else notices. */
  lemma {:induction false} LoopIsInvisible(s: State, steps: seq<Step>, r: nat, x: Receiver)
    requires Legal(s, steps) && LoopOnly(s, steps, r) && r < |s.receivers|
    ensures var base := PutR(s, r, x);
            && Legal(base, Without(steps, r))
            && r < |Execute(s, steps).receivers|
            && Execute(base, Without(steps, r)) == PutR(Execute(s, steps), r, x)
    decreases |steps|
  {
    if steps == [] {
    } else {
      var s1 := Apply(s, steps[0]);
      OthersUntouched(s, steps[0]);
      LoopIsInvisible(s1, steps[1..], r, x);
      if Actor(steps[0]) == ReceiverThread(r) {
        assert PutR(s1, r, x) == PutR(s, r, x);
      } else {
        OthersDoNotSee(s, r, x, steps[0]);
        assert Without(steps, r)[1..] == Without(steps[1..], r);
      }
    }
  }

  /** How the loop of a batch that receiver x began has left it so far. */
  ghost predicate FromBatch(x: Receiver, y: Receiver, limit: nat) {
    && y.held == x.held && y.previous == x.previous && y.start == x.start && x.got <= y.got
    && var m := |y.got| - |x.got|;
       match y.pc
       case Scanning(max, k) => max == limit && k == m <= limit && y.cursor == x.cursor
       case Copying(max, k) => max == limit && k == m < limit && y.cursor == x.cursor
       case Moving(to, mode) => mode.Batch? && 1 <= m <= limit && to + 1 == y.cursor == x.cursor + m
       case OnBoth(to, mode) => mode.Batch? && 1 <= m <= limit && to + 1 == y.cursor == x.cursor + m
       case ReceiverIdle => y == x
       case _ => false
  }

  lemma LoopStep(s: State, r: nat, x: Receiver, limit: nat)
    requires |s.cells| > 0 && r < |s.receivers| && InLoop(s.receivers[r])
    requires FromBatch(x, s.receivers[r], limit) && x.pc.ReceiverIdle?
    requires s.receivers[r].pc.Copying? ==> CellOf(s, s.receivers[r].cursor + s.receivers[r].pc.k).value.Some?
    ensures r < |ContinueReceiver(s, r).receivers| && FromBatch(x, ContinueReceiver(s, r).receivers[r], limit)
    ensures !ContinueReceiver(s, r).receivers[r].pc.OnBoth?
  {
  }

  lemma CopiedIsThere(s: State, r: nat)
    requires Reachable(s) && r < |s.receivers| && s.receivers[r].pc.Copying?
    ensures CellOf(s, s.receivers[r].cursor + s.receivers[r].pc.k).value.Some?
  {
    UnwrapIsJustified(s, r);
  }

  lemma {:induction false} LoopRun(s: State, steps: seq<Step>, r: nat, x: Receiver, limit: nat)
    requires Reachable(s) && Legal(s, steps) && LoopOnly(s, steps, r) && r < |s.receivers|
    requires FromBatch(x, s.receivers[r], limit) && x.pc.ReceiverIdle?
    ensures var e := Execute(s, steps); Reachable(e) && r < |e.receivers| && FromBatch(x, e.receivers[r], limit)
    ensures !s.receivers[r].pc.OnBoth? ==> !Execute(s, steps).receivers[r].pc.OnBoth?
    decreases |steps|
  {
    if steps == [] {
    } else {
      StepReachable(s, steps[0]);
      OthersUntouched(s, steps[0]);
      if Actor(steps[0]) == ReceiverThread(r) {
        if s.receivers[r].pc.Copying? {
          CopiedIsThere(s, r);
        }
        LoopStep(s, r, x, limit);
      }
      LoopRun(Apply(s, steps[0]), steps[1..], r, x, limit);
    }
  }

  /** What the loop has read is still in the cells when it moves. */
  lemma ReadIsStillThere(e: State, r: nat, x: Receiver, limit: nat, i: nat)
    requires Reachable(e) && r < |e.receivers| && (e.receivers[r].pc.Moving? || e.receivers[r].pc.OnBoth?)
    requires FromBatch(x, e.receivers[r], limit) && x.start + |x.got| == x.cursor == x.held + 1
    requires i < |e.receivers[r].got| - |x.got|
    ensures Shows(e, x.cursor + i) && CellOf(e, x.cursor + i).value == Some(e.receivers[r].got[|x.got| + i])
  {
    var y := e.receivers[r];
    Refinement.NothingLostRepeatedOrReordered(e, r);
    assert e.log[y.start + (|x.got| + i)].value == Some(y.got[|x.got| + i]);
    UnreadIsIntact(e, r, x.cursor + i);
  }

  lemma {:induction false} ValuesAre(s: State, id: nat, values: seq<Value>)
    requires |s.cells| > 0 && forall i :: 0 <= i < |values| ==> CellOf(s, id + i).value == Some(values[i])
    ensures Values(s, id, |values|) == values
    decreases |values|
  {
    if values == [] {
    } else {
      var last := |values| - 1;
      ValuesAre(s, id, values[..last]);
      ValuesGrow(s, id, last);
      assert values == values[..last] + [values[last]];
    }
  }

  lemma LoopReadTheCells(e: State, r: nat, x: Receiver, limit: nat, m: nat)
    requires Reachable(e) && r < |e.receivers| && (e.receivers[r].pc.Moving? || e.receivers[r].pc.OnBoth?)
    requires FromBatch(x, e.receivers[r], limit) && x.start + |x.got| == x.cursor == x.held + 1
    requires m == |e.receivers[r].got| - |x.got|
    ensures StopsAt(e, x.cursor, m, m) && e.receivers[r].got == x.got + Values(e, x.cursor, m)
  {
    var values := e.receivers[r].got[|x.got|..];
    forall i | 0 <= i < m
      ensures CellOf(e, x.cursor + i).value == Some(values[i])
    {
      ReadIsStillThere(e, r, x, limit, i);
    }
    forall id | x.cursor <= id < x.cursor + m
      ensures Shows(e, id)
    {
      ReadIsStillThere(e, r, x, limit, id - x.cursor);
    }
    ValuesAre(e, x.cursor, values);
  }

  lemma {:induction false} SameCells(e: State, e0: State, id: nat, m: nat)
    requires |e.cells| > 0 && e0.cells == e.cells
    ensures Values(e0, id, m) == Values(e, id, m)
    ensures StopsAt(e, id, m, m) ==> StopsAt(e0, id, m, m)
  {
    if m == 0 {
    } else {
      SameCells(e, e0, id, m - 1);
    }
    forall i | StopsAt(e, id, m, m) && id <= i < id + m
      ensures Shows(e0, i)
    {
      assert Shows(e, i);
    }
  }

  lemma MoveIsAdvance(e: State, r: nat, x: Receiver, limit: nat, m: nat)
    requires |e.cells| > 0 && r < |e.receivers| && e.receivers[r].pc.Moving? && x.pc.ReceiverIdle?
    requires FromBatch(x, e.receivers[r], limit) && x.cursor == x.held + 1
    requires e.receivers[r].got == x.got + Values(PutR(e, r, x), x.cursor, m) && m == |e.receivers[r].got| - |x.got|
    ensures Finish(e, r) == Advanced(PutR(e, r, x), r, m)
  {
    BatchHandOver(e, r);
  }

  /** The end of a batch whose loop is over, as an advance of the receiver that began it. */
  lemma MoveAdvances(e: State, r: nat, x: Receiver, limit: nat) returns (m: nat)
    requires Reachable(e) && r < |e.receivers| && !InLoop(e.receivers[r])
    requires FromBatch(x, e.receivers[r], limit) && x.start + |x.got| == x.cursor == x.held + 1
    requires Settled(PutR(e, r, x), r) && !e.receivers[r].pc.OnBoth?
    ensures m == |e.receivers[r].got| - |x.got| <= limit && StopsAt(PutR(e, r, x), x.cursor, m, m)
    ensures Finish(e, r) == Advanced(PutR(e, r, x), r, m)
  {
    m := |e.receivers[r].got| - |x.got|;
    if e.receivers[r].pc.ReceiverIdle? {
      assert PutR(e, r, x) == e;
      AdvancedByNone(e, r);
    } else {
      LoopReadTheCells(e, r, x, limit, m);
      SameCells(e, PutR(e, r, x), x.cursor, m);
      MoveIsAdvance(e, r, x, limit, m);
    }
  }

  /** Whatever other threads do during the loop of try_recv_batch, the batch is as good as
      that many successful calls of try_recv at the moment it moves: leave its loop out of
      the run, let the same receiver call try_recv m times there, and the result is the same
      state, with the same values returned. */
  lemma ConcurrentBatchIsRepeatedReads(s: State, steps: seq<Step>, r: nat, max: nat) returns (m: nat)
    requires Reachable(s) && r < |s.receivers| && s.receivers[r].pc.ReceiverIdle?
    requires Legal(StartBatch(s, r, max), steps) && LoopOnly(StartBatch(s, r, max), steps, r)
    requires var e := Execute(StartBatch(s, r, max), steps); r < |e.receivers| && !InLoop(e.receivers[r])
    ensures var e := Execute(StartBatch(s, r, max), steps);
            && |e.cells| > 0 && m <= Limit(s, max)
            && Legal(s, Without(steps, r)) && AtEnd(Execute(s, Without(steps, r)), r)
            && Execute(s, Without(steps, r)) == PutR(e, r, s.receivers[r])
            && StopsAt(Execute(s, Without(steps, r)), s.receivers[r].cursor, m, m)
            && Finish(e, r) == ReadSingly(Execute(s, Without(steps, r)), r, m)
  {
    var x, s1 := s.receivers[r], StartBatch(s, r, max);
    IdleIsSettled(s, r);
    AboutIdle(s, r);
    StepReachable(s, BeginBatch(r, max));
    LoopRun(s1, steps, r, x, Limit(s, max));
    LoopIsInvisible(s1, steps, r, x);
    var e := Execute(s1, steps);
    var e0 := PutR(e, r, x);
    assert PutR(s1, r, x) == s;
    RunReachable(s, Without(steps, r));
    IdleIsSettled(e0, r);
    m := MoveAdvances(e, r, x, Limit(s, max));
    SinglesAdvance(e0, r, m, m, Finish(e, r));
  }

  lemma AboutIdle(s: State, r: nat)
    requires Reachable(s) && r < |s.receivers| && s.receivers[r].pc.ReceiverIdle?
    ensures s.receivers[r].start + |s.receivers[r].got| == s.receivers[r].cursor
  {
    ReachableInv(s);
    ReceiverSteps.AboutReceiver(s, r);
  }
}
