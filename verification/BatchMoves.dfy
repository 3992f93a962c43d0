/** try_recv_batch under concurrent threads from its first step to its last: also while it
    stands on two cells. */
module BatchMoves {
  import opened Prelude
  import opened Sums
  import opened Protocol
  import opened Invariant
  import opened Safety
  import opened Batch
  import ReceiverSteps

  predicate ByOthersOnly(steps: seq<Step>, r: nat) {
    forall i :: 0 <= i < |steps| ==> Actor(steps[i]) != ReceiverThread(r)
  }

  lemma {:induction false} RunDoesNotSee(s: State, steps: seq<Step>, r: nat, x: Receiver)
    requires Legal(s, steps) && ByOthersOnly(steps, r) && r < |s.receivers|
    ensures Legal(PutR(s, r, x), steps)
    ensures r < |Execute(s, steps).receivers| && Execute(s, steps).receivers[r] == s.receivers[r]
    ensures Execute(PutR(s, r, x), steps) == PutR(Execute(s, steps), r, x)
    decreases |steps|
  {
    if steps == [] {
    } else {
      OthersDoNotSee(s, r, x, steps[0]);
      OthersUntouched(s, steps[0]);
      RunDoesNotSee(Apply(s, steps[0]), steps[1..], r, x);
    }
  }

  // ---- one receiver less on a cell ----

  /** The same state, with one receiver less counted on cell i. */
  function Less(s: State, i: nat): State {
    s.(cells := CountOff(s.cells, i))
  }

  /** Receiver r stands on two cells; i is the one it moves to. */
  ghost predicate Crossing(s: State, r: nat, i: nat) {
    && Inv(s) && r < |s.receivers| && s.receivers[r].pc.OnBoth?
    && i == Slot(s.receivers[r].pc.to, |s.cells|)
  }

  lemma CountedOnTarget(s: State, r: nat, i: nat)
    requires Crossing(s, r, i)
    ensures s.cells[i].readCounter >= 1
  {
    assert UnitsOn(i, |s.cells|)(s.receivers[r]) >= 1;
    SumCovers(s.receivers, r, UnitsOn(i, |s.cells|));
  }

  /** A second receiver that is about to leave the cell is counted there besides r. */
  lemma CountedWithOther(s: State, r: nat, i: nat, q: nat)
    requires Crossing(s, r, i) && q < |s.receivers| && q != r && s.receivers[q].previous == i
    requires s.receivers[q].pc.OnBoth? || s.receivers[q].pc.Dropping?
    ensures s.cells[i].readCounter >= 2
  {
    var f := UnitsOn(i, |s.cells|);
    ReceiverSteps.CountedOnPrevious(s, q);
    assert f(s.receivers[r]) >= 1 && f(s.receivers[q]) >= 1;
    if q < r {
      SumCoversTwo(s.receivers, q, r, f);
    } else {
      SumCoversTwo(s.receivers, r, q, f);
    }
  }

  /** No sender looks at the cell that r moves to: its turn is a whole round away. */
  lemma NobodyLooks(s: State, r: nat, i: nat, t: nat)
    requires Crossing(s, r, i) && t < |s.senders| && TokenId(s.senders[t]).Some?
    ensures Slot(TokenId(s.senders[t]).value, |s.cells|) != i
  {
    ReceiverSteps.AboutReceiver(s, r);
    SlotsApart(s.receivers[r].pc.to, |s.log|, |s.cells|);
  }

  lemma LessSender(s: State, step: Step, i: nat)
    requires Enabled(s, step) && !Actor(step).ReceiverThread? && i < |s.cells|
    requires step.Advance? && (s.senders[step.t].Looking? || s.senders[step.t].Waiting?) ==>
               Slot(s.senders[step.t].id, |s.cells|) != i
    ensures Enabled(Less(s, i), step) && Apply(Less(s, i), step) == Less(Apply(s, step), i)
  {
    if step.Advance? {
      LessAdvance(s, step.t, i);
    }
  }

  lemma LessAdvance(s: State, t: nat, i: nat)
    requires Enabled(s, Advance(t)) && i < |s.cells|
    requires s.senders[t].Looking? || s.senders[t].Waiting? ==> Slot(s.senders[t].id, |s.cells|) != i
    ensures Enabled(Less(s, i), Advance(t)) && AdvanceSender(Less(s, i), t) == Less(AdvanceSender(s, t), i)
  {
    if s.senders[t].Writing? {
      LessReplace(s, t, i);
    } else if s.senders[t].Storing? {
      LessStore(s, t, i);
    }
  }

  lemma LessReplace(s: State, t: nat, i: nat)
    requires |s.cells| > 0 && i < |s.cells| && t < |s.senders| && s.senders[t].Writing?
    ensures Replace(Less(s, i), t) == Less(Replace(s, t), i)
  {
    assert Replace(Less(s, i), t).cells == Less(Replace(s, t), i).cells;
  }

  lemma LessStore(s: State, t: nat, i: nat)
    requires |s.cells| > 0 && i < |s.cells| && t < |s.senders| && s.senders[t].Storing?
    ensures StoreId(Less(s, i), t) == Less(StoreId(s, t), i)
  {
    assert StoreId(Less(s, i), t).cells == Less(StoreId(s, t), i).cells;
  }

  lemma CountsCommute(cells: seq<Cell>, i: nat, j: nat)
    requires i < |cells| && cells[i].readCounter >= 1
    ensures CountOn(CountOff(cells, i), j) == CountOff(CountOn(cells, j), i)
    ensures CountOff(CountOff(cells, i), j) == CountOff(CountOff(cells, j), i)
    ensures j != i ==> (LastOn(CountOff(cells, i), j) <==> LastOn(cells, j))
    ensures cells[i].readCounter >= 2 ==> !LastOn(cells, i)
  {
  }

  /** Receiver steps that leave no cell look at no counter. */
  lemma LessReceiver(s: State, step: Step, i: nat)
    requires Enabled(s, step) && Actor(step).ReceiverThread? && i < |s.cells| && s.cells[i].readCounter >= 1
    requires step.Continue? ==> !s.receivers[step.r].pc.OnBoth? && !s.receivers[step.r].pc.Dropping?
    ensures Enabled(Less(s, i), step) && Apply(Less(s, i), step) == Less(Apply(s, step), i)
  {
    var q := Actor(step).r;
    if step.BeginClone? {
      CountsCommute(s.cells, i, s.receivers[q].previous);
    } else if step.Continue? && s.receivers[q].pc.Moving? {
      CountsCommute(s.cells, i, Slot(s.receivers[q].pc.to, |s.cells|));
    }
  }

  /** A receiver that leaves a cell may find itself the last there, and then it notifies. */
  lemma LessLeaver(s: State, q: nat, i: nat) returns (steps: seq<Step>)
    requires Enabled(s, Continue(q)) && i < |s.cells| && s.cells[i].readCounter >= 1
    requires s.receivers[q].pc.OnBoth? || s.receivers[q].pc.Dropping?
    requires s.receivers[q].previous == i ==> s.cells[i].readCounter >= 2
    ensures steps == [Continue(q)] || steps == [Continue(q), Continue(q)]
    ensures Legal(Less(s, i), steps) && Execute(Less(s, i), steps) == Less(ContinueReceiver(s, q), i)
  {
    var c, x := Continue(q), s.receivers[q];
    CountsCommute(s.cells, i, x.previous);
    var once := ContinueReceiver(Less(s, i), q);
    if once == Less(ContinueReceiver(s, q), i) {
      steps := [c];
      assert [c][1..] == [] && Legal(once, []);
      assert Legal(Less(s, i), [c]);
    } else {
      steps := [c, c];
      NotifiesExtra(s, q, i);
      assert [c, c][1..] == [c] && [c][1..] == [];
      assert Legal(ContinueReceiver(once, q), []);
      assert Legal(once, [c]) && Execute(once, [c]) == ContinueReceiver(once, q);
    }
  }

  lemma NotifiesExtra(s: State, q: nat, i: nat)
    requires Enabled(s, Continue(q)) && i < |s.cells| && s.cells[i].readCounter >= 1
    requires s.receivers[q].pc.OnBoth? || s.receivers[q].pc.Dropping?
    requires s.receivers[q].previous == i ==> s.cells[i].readCounter >= 2
    requires ContinueReceiver(Less(s, i), q) != Less(ContinueReceiver(s, q), i)
    ensures Enabled(ContinueReceiver(Less(s, i), q), Continue(q))
    ensures ContinueReceiver(ContinueReceiver(Less(s, i), q), q) == Less(ContinueReceiver(s, q), i)
  {
    var x := s.receivers[q];
    CountsCommute(s.cells, i, x.previous);
    assert x.previous == i && LastOn(CountOff(s.cells, i), i);
  }

  // ---- other threads do not see that r stands on two cells ----

  /** The same steps, but a receiver that leaves a cell may take one step more, to notify. */
  predicate Padded(steps: seq<Step>, more: seq<Step>)
    decreases |steps|
  {
    if steps == [] then more == []
    else
      && |more| >= 1 && more[0] == steps[0]
      && (Padded(steps[1..], more[1..])
          || (steps[0].Continue? && |more| >= 2 && more[1] == steps[0] && Padded(steps[1..], more[2..])))
  }

  lemma OneLess(s: State, step: Step, r: nat, i: nat) returns (steps: seq<Step>)
    requires Crossing(s, r, i) && Enabled(s, step) && Actor(step) != ReceiverThread(r)
    ensures steps == [step] || (step.Continue? && steps == [step, step])
    ensures Legal(Less(s, i), steps) && Execute(Less(s, i), steps) == Less(Apply(s, step), i)
  {
    CountedOnTarget(s, r, i);
    if step.Continue? && (s.receivers[step.r].pc.OnBoth? || s.receivers[step.r].pc.Dropping?) {
      if s.receivers[step.r].previous == i {
        CountedWithOther(s, r, i, step.r);
      }
      steps := LessLeaver(s, step.r, i);
    } else {
      if Actor(step).ReceiverThread? {
        LessReceiver(s, step, i);
      } else {
        if step.Advance? && TokenId(s.senders[step.t]).Some? {
          NobodyLooks(s, r, i, step.t);
        }
        LessSender(s, step, i);
      }
      steps := [step];
      assert [step][1..] == [] && Legal(Apply(Less(s, i), step), []);
      assert Legal(Less(s, i), [step]);
    }
  }

  lemma CrossingStays(s: State, step: Step, r: nat, i: nat)
    requires Crossing(s, r, i) && Enabled(s, step) && Actor(step) != ReceiverThread(r)
    ensures Crossing(Apply(s, step), r, i) && Apply(s, step).receivers[r] == s.receivers[r]
  {
    OthersUntouched(s, step);
    StepInv(s, step);
  }

  lemma {:induction false} CrossingRun(s: State, steps: seq<Step>, r: nat, i: nat)
    requires Crossing(s, r, i) && Legal(s, steps) && ByOthersOnly(steps, r)
    ensures Crossing(Execute(s, steps), r, i) && Execute(s, steps).receivers[r] == s.receivers[r]
    decreases |steps|
  {
    if steps == [] {
    } else {
      CrossingStays(s, steps[0], r, i);
      CrossingRun(Apply(s, steps[0]), steps[1..], r, i);
    }
  }

  lemma {:induction false} CrossingIsInvisible(s: State, steps: seq<Step>, r: nat, i: nat) returns (more: seq<Step>)
    requires Crossing(s, r, i) && Legal(s, steps) && ByOthersOnly(steps, r)
    ensures Padded(steps, more) && ByOthersOnly(more, r)
    ensures Legal(Less(s, i), more) && Execute(Less(s, i), more) == Less(Execute(s, steps), i)
    decreases |steps|
  {
    if steps == [] {
      more := [];
    } else {
      CrossingStays(s, steps[0], r, i);
      var first := OneLess(s, steps[0], r, i);
      var rest := CrossingIsInvisible(Apply(s, steps[0]), steps[1..], r, i);
      more := first + rest;
      ExecuteConcat(Less(s, i), first, rest);
      PadsOne(steps, first, rest);
    }
  }

  lemma PadsOne(steps: seq<Step>, first: seq<Step>, rest: seq<Step>)
    requires steps != [] && Padded(steps[1..], rest)
    requires first == [steps[0]] || (steps[0].Continue? && first == [steps[0], steps[0]])
    ensures Padded(steps, first + rest)
  {
    assert (first + rest)[|first|..] == rest;
  }

  // ---- the whole batch ----

  /** The rest of a batch that stands on two cells, as an advance of the receiver that began
      it, from the state in which it is not on the second cell. */
  lemma CrossingAdvances(e: State, r: nat, x: Receiver, limit: nat, i: nat) returns (m: nat)
    requires Reachable(e) && Crossing(e, r, i)
    requires FromBatch(x, e.receivers[r], limit) && x.start + |x.got| == x.cursor == x.held + 1
    requires Settled(PutR(Less(e, i), r, x), r)
    ensures m == |e.receivers[r].got| - |x.got| <= limit && StopsAt(PutR(Less(e, i), r, x), x.cursor, m, m)
    ensures Finish(e, r) == Advanced(PutR(Less(e, i), r, x), r, m)
  {
    m := |e.receivers[r].got| - |x.got|;
    LoopReadTheCells(e, r, x, limit, m);
    SameContents(e, PutR(Less(e, i), r, x), x.cursor, m);
    CountedOnTarget(e, r, i);
    UndoneMoveAdvances(e, r, x, limit, i, m);
  }

  /** The state before the move, if it came now. */
  function Undone(e: State, r: nat, i: nat): State
    requires r < |e.receivers| && e.receivers[r].pc.OnBoth?
  {
    PutR(Less(e, i), r, e.receivers[r].(pc := Moving(e.receivers[r].pc.to, e.receivers[r].pc.mode)))
  }

  lemma MoveAgain(e: State, r: nat, i: nat)
    requires |e.cells| > 0 && r < |e.receivers| && e.receivers[r].pc.OnBoth?
    requires i == Slot(e.receivers[r].pc.to, |e.cells|) && e.cells[i].readCounter >= 1
    ensures MoveTo(Undone(e, r, i), r) == e
    ensures Finish(Undone(e, r, i), r) == Finish(e, r)
  {
    assert CountOn(CountOff(e.cells, i), i) == e.cells;
    FinishStep(Undone(e, r, i), r);
  }

  lemma UndoneMoveAdvances(e: State, r: nat, x: Receiver, limit: nat, i: nat, m: nat)
    requires |e.cells| > 0 && r < |e.receivers| && e.receivers[r].pc.OnBoth? && x.pc.ReceiverIdle?
    requires i == Slot(e.receivers[r].pc.to, |e.cells|) && e.cells[i].readCounter >= 1
    requires FromBatch(x, e.receivers[r], limit) && x.cursor == x.held + 1
    requires e.receivers[r].got == x.got + Values(PutR(Less(e, i), r, x), x.cursor, m) && m == |e.receivers[r].got| - |x.got|
    ensures Finish(e, r) == Advanced(PutR(Less(e, i), r, x), r, m)
  {
    var em := Undone(e, r, i);
    assert PutR(em, r, x) == PutR(Less(e, i), r, x);
    MoveAgain(e, r, i);
    MoveIsAdvance(em, r, x, limit, m);
  }

  lemma {:induction false} SameContents(e: State, e0: State, id: nat, m: nat)
    requires |e.cells| == |e0.cells| > 0
    requires forall j :: 0 <= j < |e.cells| ==> e0.cells[j].value == e.cells[j].value && e0.cells[j].currentId == e.cells[j].currentId
    ensures Values(e0, id, m) == Values(e, id, m)
    ensures StopsAt(e, id, m, m) ==> StopsAt(e0, id, m, m)
  {
    if m == 0 {
    } else {
      SameContents(e, e0, id, m - 1);
    }
    forall k | StopsAt(e, id, m, m) && id <= k < id + m
      ensures Shows(e0, k)
    {
      assert Shows(e, k);
    }
  }

  /** A batch that has read something, in three stretches: the loop, with r's own steps in it;
      what others do while r stands on two cells; and what they do after it left the first,
      until it notifies. The states between them are a, b, c, d. */
  ghost predicate WholeBatch(s: State, r: nat, max: nat, loop: seq<Step>, crossing: seq<Step>, after: seq<Step>,
                             a: State, b: State, c: State)
  {
    && Reachable(s) && r < |s.receivers| && s.receivers[r].pc.ReceiverIdle?
    && Legal(StartBatch(s, r, max), loop) && LoopOnly(StartBatch(s, r, max), loop, r)
    && a == Execute(StartBatch(s, r, max), loop) && |a.cells| > 0 && r < |a.receivers| && a.receivers[r].pc.Moving?
    && Legal(MoveTo(a, r), crossing) && ByOthersOnly(crossing, r)
    && b == Execute(MoveTo(a, r), crossing) && |b.cells| > 0 && r < |b.receivers| && b.receivers[r].pc.OnBoth?
    && Legal(MoveFrom(b, r), after) && ByOthersOnly(after, r)
    && c == Execute(MoveFrom(b, r), after) && |c.cells| > 0 && r < |c.receivers|
  }

  lemma LoopThenMove(s: State, r: nat, max: nat, loop: seq<Step>, a: State)
    requires Reachable(s) && r < |s.receivers| && s.receivers[r].pc.ReceiverIdle?
    requires Legal(StartBatch(s, r, max), loop) && LoopOnly(StartBatch(s, r, max), loop, r)
    requires a == Execute(StartBatch(s, r, max), loop) && r < |a.receivers| && a.receivers[r].pc.Moving?
    ensures var x := s.receivers[r];
            && x.start + |x.got| == x.cursor == x.held + 1
            && Reachable(a) && FromBatch(x, a.receivers[r], Limit(s, max)) && Reachable(MoveTo(a, r))
            && FromBatch(x, MoveTo(a, r).receivers[r], Limit(s, max))
            && Legal(s, Without(loop, r)) && Execute(s, Without(loop, r)) == PutR(a, r, x)
  {
    var x, s1 := s.receivers[r], StartBatch(s, r, max);
    IdleIsSettled(s, r);
    AboutIdle(s, r);
    StepReachable(s, BeginBatch(r, max));
    LoopRun(s1, loop, r, x, Limit(s, max));
    LoopIsInvisible(s1, loop, r, x);
    assert PutR(s1, r, x) == s;
    StepReachable(a, Continue(r));
  }

  /** Before the move, r is on one cell; one less than after it is where it was. */
  lemma MoveToIsLess(a: State, r: nat, x: Receiver, i: nat)
    requires Reachable(a) && r < |a.receivers| && a.receivers[r].pc.Moving? && i == Slot(a.receivers[r].pc.to, |a.cells|)
    requires Reachable(MoveTo(a, r))
    ensures Crossing(MoveTo(a, r), r, i) && PutR(Less(MoveTo(a, r), i), r, x) == PutR(a, r, x)
  {
    ReachableInv(MoveTo(a, r));
    assert CountOff(CountOn(a.cells, i), i) == a.cells;
  }

  /** What happens after r left its first cell does not see where r's own bookkeeping stands. */
  lemma AfterIsInvisible(b: State, r: nat, after: seq<Step>, c: State)
    requires |b.cells| > 0 && r < |b.receivers| && b.receivers[r].pc.OnBoth? && b.receivers[r].pc.mode.Batch?
    requires Legal(MoveFrom(b, r), after) && ByOthersOnly(after, r)
    requires c == Execute(MoveFrom(b, r), after) && |c.cells| == |b.cells| && r < |c.receivers|
    ensures Legal(Finish(b, r), after) && Execute(Finish(b, r), after) == Finish(c, r)
  {
    var left, x := MoveFrom(b, r), b.receivers[r];
    var y := Arrived(x.(held := x.pc.to), Batch, |b.cells|);
    LeaveAlone(b, r);
    assert Finish(b, r) == PutR(left, r, y);
    RunDoesNotSee(left, after, r, y);
    if left.receivers[r].pc.Leaving? {
      FinishStep(c, r);
      assert NotifyLeft(c, r) == PutR(c, r, y);
    } else {
      assert left.receivers[r] == y;
      assert PutR(c, r, y) == c;
    }
  }

  /** Whatever other threads do at any time, a batch of m values is as good as m successful
      calls of try_recv at the moment it leaves its first cell: there is a run in which the
      others take the same steps, but for notifications that a receiver sends when it is the
      last on a cell, r takes none before that moment and there calls try_recv m times, and the
      end is the same state. */
  lemma WholeBatchIsRepeatedReads(s: State, r: nat, max: nat, loop: seq<Step>, crossing: seq<Step>, after: seq<Step>,
                                  a: State, b: State, c: State)
    returns (m: nat, others: seq<Step>)
    requires WholeBatch(s, r, max, loop, crossing, after, a, b, c)
    ensures 1 <= m <= Limit(s, max) && Padded(crossing, others)
    ensures var before := Without(loop, r) + others;
            && Legal(s, before) && |Execute(s, before).cells| > 0 && AtEnd(Execute(s, before), r)
            && Execute(s, before).receivers[r] == s.receivers[r]
            && StopsAt(Execute(s, before), s.receivers[r].cursor, m, m)
            && Legal(ReadSingly(Execute(s, before), r, m), after)
            && Execute(ReadSingly(Execute(s, before), r, m), after) == Finish(c, r)
  {
    var x, i := s.receivers[r], Slot(a.receivers[r].pc.to, |a.cells|);
    LoopThenMove(s, r, max, loop, a);
    MoveToIsLess(a, r, x, i);
    CrossingRun(MoveTo(a, r), crossing, r, i);
    others := CrossingIsInvisible(MoveTo(a, r), crossing, r, i);
    RunReachable(MoveTo(a, r), crossing);
    RunDoesNotSee(Less(MoveTo(a, r), i), others, r, x);
    ExecuteConcat(s, Without(loop, r), others);
    var e0 := PutR(Less(b, i), r, x);
    assert Execute(s, Without(loop, r) + others) == e0;
    RunReachable(s, Without(loop, r) + others);
    IdleIsSettled(e0, r);
    m := CrossingAdvances(b, r, x, Limit(s, max), i);
    SinglesAdvance(e0, r, m, m, Finish(b, r));
    CellsKept(MoveFrom(b, r), after);
    AfterIsInvisible(b, r, after, c);
  }
}
