/** Every interleaving behaves like an append-only log with one reading position per
    receiver. */
module Refinement {
  import opened Prelude
  import opened Protocol
  import opened Invariant
  import opened Safety
  import ReceiverSteps

  // ---- the specification: knows nothing of cells, counters or tokens ----

  /** A reader of the log: where it joined, the next entry it will be given, what it was
      given so far. */
  datatype Reader = Reader(joined: nat, next: nat, given: seq<Value>, open: bool)

  /** Entries are reserved in order and filled in any order. Entry 0 is never used. */
  datatype Spec = Spec(entries: seq<Option<Value>>, readers: seq<Reader>)

  ghost predicate Reserve(a: Spec, b: Spec) {
    b == a.(entries := a.entries + [None])
  }

  ghost predicate Fill(a: Spec, b: Spec, id: nat, v: Value) {
    id < |a.entries| && a.entries[id].None? && b == a.(entries := a.entries[id := Some(v)])
  }

  ghost predicate Give(a: Spec, b: Spec, r: nat) {
    && r < |a.readers| && a.readers[r].open
    && a.readers[r].next < |a.entries| && a.entries[a.readers[r].next].Some?
    && var x := a.readers[r];
       b == a.(readers := a.readers[r := x.(next := x.next + 1, given := x.given + [a.entries[x.next].value])])
  }

  ghost predicate Join(a: Spec, b: Spec, r: nat) {
    && r < |a.readers| && a.readers[r].open
    && b == a.(readers := a.readers + [Reader(a.readers[r].next, a.readers[r].next, [], true)])
  }

  ghost predicate Close(a: Spec, b: Spec, r: nat) {
    r < |a.readers| && a.readers[r].open && b == a.(readers := a.readers[r := a.readers[r].(open := false)])
  }

  ghost predicate SpecNext(a: Spec, b: Spec) {
    || b == a
    || Reserve(a, b)
    || (exists id, v :: Fill(a, b, id, v))
    || (exists r :: Give(a, b, r) || Join(a, b, r) || Close(a, b, r))
  }

  // ---- the mapping ----

  function Position(x: Receiver): nat {
    x.start + |x.got|
  }

  function AbsReader(x: Receiver): Reader {
    Reader(x.start, Position(x), x.got, Live(x) && !x.pc.Dropping?)
  }

  function Abs(s: State): Spec {
    Spec(seq(|s.log|, i requires 0 <= i < |s.log| => s.log[i].value),
         seq(|s.receivers|, r requires 0 <= r < |s.receivers| => AbsReader(s.receivers[r])))
  }

  lemma SameReaders(s: State, s': State)
    requires s'.log == s.log && |s'.receivers| == |s.receivers|
    requires forall r :: 0 <= r < |s.receivers| ==> AbsReader(s'.receivers[r]) == AbsReader(s.receivers[r])
    ensures Abs(s') == Abs(s)
  {
  }

  lemma SenderRefines(s: State, step: Step)
    requires Inv(s) && Enabled(s, step) && !Actor(step).ReceiverThread?
    ensures SpecNext(Abs(s), Abs(Apply(s, step)))
  {
    var s' := Apply(s, step);
    LogEffect(s, step);
    assert s'.receivers == s.receivers;
    if step.Advance? && s.senders[step.t].Restoring? {
      assert Abs(s').entries == Abs(s).entries + [None];
      assert Reserve(Abs(s), Abs(s'));
    } else if step.Advance? && s.senders[step.t].Storing? {
      var Storing(v, id) := s.senders[step.t];
      assert FlightId(s.senders[step.t]) == Some(id);
      assert Abs(s').entries == Abs(s).entries[id := Some(v)];
      assert Fill(Abs(s), Abs(s'), id, v);
    } else {
      SameReaders(s, s');
    }
  }

  lemma GiveAt(s: State, s': State, r: nat, v: Value)
    requires r < |s.receivers| && Live(s.receivers[r]) && !s.receivers[r].pc.Dropping?
    requires var x := s.receivers[r]; Position(x) < |s.log| && s.log[Position(x)].value == Some(v)
    requires |s'.receivers| == |s.receivers| && s'.log == s.log
    requires forall q :: 0 <= q < |s.receivers| && q != r ==> s'.receivers[q] == s.receivers[q]
    requires AbsReader(s'.receivers[r]) == AbsReader(s.receivers[r].(got := s.receivers[r].got + [v]))
    ensures Give(Abs(s), Abs(s'), r)
  {
    assert Abs(s').readers == Abs(s).readers[r := AbsReader(s'.receivers[r])];
  }

  lemma ReadGives(s: State, r: nat, v: Value)
    requires Enabled(s, Continue(r)) && (s.receivers[r].pc.Reading? || s.receivers[r].pc.Copying?)
    requires var x := s.receivers[r];
             && Position(x) < |s.log| && s.log[Position(x)].value == Some(v)
             && Position(x) == (if x.pc.Reading? then x.held else x.cursor + x.pc.k)
             && CellOf(s, Position(x)).value == Some(v)
    ensures Give(Abs(s), Abs(ContinueReceiver(s, r)), r)
  {
    GiveAt(s, ContinueReceiver(s, r), r, v);
  }

  /** The heart of it: the value cloned out of the cell is the log's next value. */
  lemma DeliveryRefines(s: State, r: nat)
    requires Inv(s) && r < |s.receivers| && (s.receivers[r].pc.Reading? || s.receivers[r].pc.Copying?)
    ensures Give(Abs(s), Abs(ContinueReceiver(s, r)), r)
  {
    var x := s.receivers[r];
    ReceiverSteps.AboutReceiver(s, r);
    ReceiverSteps.WindowValue(s, r, Position(x));
    ReadGives(s, r, s.log[Position(x)].value.value);
  }

  lemma CloneRefines(s: State, r: nat)
    requires Inv(s) && r < |s.receivers| && s.receivers[r].pc.Cloning?
    ensures Join(Abs(s), Abs(FinishClone(s, r)), r)
  {
    var x, s' := s.receivers[r], FinishClone(s, r);
    ReceiverSteps.AboutReceiver(s, r);
    assert Abs(s').readers == Abs(s).readers + [Reader(Position(x), Position(x), [], true)];
  }

  lemma DropRefines(s: State, r: nat)
    requires r < |s.receivers| && s.receivers[r].pc.ReceiverIdle?
    ensures Close(Abs(s), Abs(StartDrop(s, r)), r)
  {
    assert Abs(StartDrop(s, r)).readers == Abs(s).readers[r := Abs(s).readers[r].(open := false)];
  }

  lemma MovesAreSilent(s: State, step: Step)
    requires Enabled(s, step) && Actor(step).ReceiverThread? && !step.BeginDrop?
    requires var pc := s.receivers[Actor(step).r].pc; !pc.Reading? && !pc.Copying? && !pc.Cloning?
    ensures Abs(Apply(s, step)) == Abs(s)
  {
    SameReaders(s, Apply(s, step));
  }

  lemma ReceiverRefines(s: State, step: Step)
    requires Inv(s) && Enabled(s, step) && Actor(step).ReceiverThread?
    ensures SpecNext(Abs(s), Abs(Apply(s, step)))
  {
    var r := Actor(step).r;
    var pc := s.receivers[r].pc;
    if pc.Reading? || pc.Copying? {
      DeliveryRefines(s, r);
    } else if pc.Cloning? {
      CloneRefines(s, r);
    } else if step.BeginDrop? {
      DropRefines(s, r);
    } else {
      MovesAreSilent(s, step);
    }
  }

  lemma StepRefines(s: State, step: Step)
    requires Inv(s) && Enabled(s, step)
    ensures SpecNext(Abs(s), Abs(Apply(s, step)))
  {
    if Actor(step).ReceiverThread? {
      ReceiverRefines(s, step);
    } else {
      SenderRefines(s, step);
    }
  }

  /** The specification states a run passes through. */
  function Trace(s: State, steps: seq<Step>): (trace: seq<Spec>)
    requires Legal(s, steps)
    ensures |trace| == |steps| + 1 && trace[0] == Abs(s)
    decreases |steps|
  {
    if steps == [] then [Abs(s)] else [Abs(s)] + Trace(Apply(s, steps[0]), steps[1..])
  }

  ghost predicate SpecRun(trace: seq<Spec>) {
    forall i :: 0 <= i < |trace| - 1 ==> SpecNext(trace[i], trace[i + 1])
  }

  lemma {:induction false} RunRefinesFrom(s: State, steps: seq<Step>)
    requires Inv(s) && Legal(s, steps)
    ensures SpecRun(Trace(s, steps))
    ensures Trace(s, steps)[|steps|] == Abs(Execute(s, steps))
    decreases |steps|
  {
    if steps == [] {
    } else {
      var s' := Apply(s, steps[0]);
      StepInv(s, steps[0]);
      StepRefines(s, steps[0]);
      RunRefinesFrom(s', steps[1..]);
      var trace, rest := Trace(s, steps), Trace(s', steps[1..]);
      forall i | 0 <= i < |trace| - 1
        ensures SpecNext(trace[i], trace[i + 1])
      {
        if i > 0 {
          assert trace[i] == rest[i - 1] && trace[i + 1] == rest[i];
        }
      }
    }
  }

  lemma InitAbs(n: nat)
    requires n > 0
    ensures Abs(Init(n)) == Spec([None], [Reader(1, 1, [], true)])
  {
    assert Abs(Init(n)).entries == [None];
    assert Abs(Init(n)).readers == [Reader(1, 1, [], true)];
  }

  /** Every run of the protocol is a run of the log, step by step, from the empty log with
      one reader. */
  lemma {:induction false} RunRefines(n: nat, steps: seq<Step>)
    requires n > 0 && Legal(Init(n), steps)
    ensures Trace(Init(n), steps)[0] == Spec([None], [Reader(1, 1, [], true)])
    ensures SpecRun(Trace(Init(n), steps))
    ensures Trace(Init(n), steps)[|steps|] == Abs(Execute(Init(n), steps))
  {
    InitInv(n);
    RunRefinesFrom(Init(n), steps);
    InitAbs(n);
  }

  /** What it means: a receiver has returned exactly the log from the position it was created
      at up to its present position: nothing lost, repeated or reordered. */
  lemma NothingLostRepeatedOrReordered(s: State, r: nat)
    requires Reachable(s) && r < |s.receivers|
    ensures var x := s.receivers[r];
            && Position(x) <= |s.log|
            && forall j :: 0 <= j < |x.got| ==> s.log[x.start + j].value == Some(x.got[j])
  {
    ReachableInv(s);
    ReceiverSteps.AboutReceiver(s, r);
  }

  /** Two receivers that both passed a stretch of ids returned the same values for it, in
      the same order, whatever the interleaving: every receiver gets every value. */
  lemma ReceiversAgree(s: State, r: nat, q: nat, id: nat)
    requires Reachable(s) && r < |s.receivers| && q < |s.receivers|
    requires s.receivers[r].start <= id < Position(s.receivers[r])
    requires s.receivers[q].start <= id < Position(s.receivers[q])
    ensures s.receivers[r].got[id - s.receivers[r].start] == s.receivers[q].got[id - s.receivers[q].start]
  {
    NothingLostRepeatedOrReordered(s, r);
    NothingLostRepeatedOrReordered(s, q);
    assert s.log[s.receivers[r].start + (id - s.receivers[r].start)].value
        == s.log[s.receivers[q].start + (id - s.receivers[q].start)].value;
  }
}
