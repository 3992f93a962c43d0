/** The shared channel object (src/lib.rs) and the atomic operations of its cells and counters
    (src/cell.rs, src/wait_strategy/mod.rs). The shared memory is real state updated in place;
    the protocol's state and the history of every step that was taken are ghost. Each operation
    names the protocol step that it carries out, and between two operations any run of other
    threads may come (Interfere). */
module Channel {
  import opened Prelude
  import opened Protocol
  import opened Invariant
  import opened Safety

  /** The threads that do not run while `th` does something: itself, and the senders in
      `still`, which belong to the same handle. */
  ghost predicate Foreign(step: Step, th: Thread, still: set<nat>) {
    Actor(step) != th && (Actor(step).SenderThread? ==> Actor(step).t !in still)
  }

  /** A step, and the state it was taken in. */
  datatype Moment = Moment(before: State, step: Step)

  /** The state before the i-th step of a history that has led to s. */
  function StateAt(history: seq<Moment>, s: State, i: nat): State {
    if i < |history| then history[i].before else s
  }

  /** The history is one run of the protocol, from a new channel of n cells to s. */
  ghost predicate Chained(history: seq<Moment>, s: State, n: nat)
    requires n > 0
  {
    && StateAt(history, s, 0) == Init(n)
    && forall i :: 0 <= i < |history| ==>
         Enabled(history[i].before, history[i].step)
         && StateAt(history, s, i + 1) == Apply(history[i].before, history[i].step)
  }

  /** It is one up to each of its steps. */
  lemma ChainedBefore(history: seq<Moment>, s: State, n: nat, i: nat)
    requires n > 0 && Chained(history, s, n) && i <= |history|
    ensures Chained(history[..i], StateAt(history, s, i), n)
  {
    var h, s' := history[..i], StateAt(history, s, i);
    forall j | 0 <= j < |h|
      ensures Enabled(h[j].before, h[j].step) && StateAt(h, s', j + 1) == Apply(h[j].before, h[j].step)
    {
      assert h[j] == history[j];
      assert StateAt(h, s', j + 1) == StateAt(history, s, j + 1);
    }
    assert StateAt(h, s', 0) == StateAt(history, s, 0);
  }

  /** What a thread did in it. */
  function Own(history: seq<Moment>, th: Thread): seq<Moment>
    decreases |history|
  {
    if history == [] then []
    else
      var m := history[|history| - 1];
      Own(history[..|history| - 1], th) + (if Actor(m.step) == th then [m] else [])
  }

  lemma OwnAppend(history: seq<Moment>, m: Moment, th: Thread)
    ensures Own(history + [m], th) == Own(history, th) + (if Actor(m.step) == th then [m] else [])
  {
    assert (history + [m])[..|history|] == history;
  }

  lemma ChainedAppend(history: seq<Moment>, s: State, n: nat, step: Step)
    requires n > 0 && Chained(history, s, n) && Enabled(s, step)
    ensures Chained(history + [Moment(s, step)], Apply(s, step), n)
  {
    var h, s' := history + [Moment(s, step)], Apply(s, step);
    forall j | 0 <= j < |h|
      ensures Enabled(h[j].before, h[j].step) && StateAt(h, s', j + 1) == Apply(h[j].before, h[j].step)
    {
      if j < |history| {
        assert h[j] == history[j];
        assert StateAt(h, s', j + 1) == StateAt(history, s, j + 1);
      }
    }
    assert StateAt(h, s', 0) == StateAt(history, s, 0);
  }

  lemma {:induction false} ChainedRun(history: seq<Moment>, s: State, n: nat)
    requires n > 0 && Chained(history, s, n)
    ensures Reachable(s)
    decreases |history|
  {
    if history == [] {
      assert Legal(Init(n), []) && Execute(Init(n), []) == Init(n);
    } else {
      var k := |history| - 1;
      ChainedBefore(history, s, n, k);
      ChainedRun(history[..k], history[k].before, n);
      StepReachable(history[k].before, history[k].step);
    }
  }

  /** What a thread can rely on over such a run, and over its own steps that grant nothing. */
  ghost predicate Since(s: State, s': State, th: Thread, still: set<nat>) {
    && |s'.cells| == |s.cells| && Grows(s.log, s'.log)
    && |s.senders| <= |s'.senders| && |s.receivers| <= |s'.receivers|
    && (forall t :: t in still && t < |s.senders| ==> s'.senders[t] == s.senders[t])
    && (forall id :: |s.log| <= id < |s'.log| ==> s'.log[id].author !in still && th != SenderThread(s'.log[id].author))
  }

  ghost predicate OwnStateKept(s: State, s': State, th: Thread) {
    && (forall t :: 0 <= t < |s.senders| && t < |s'.senders| && th == SenderThread(t) ==> s'.senders[t] == s.senders[t])
    && (forall r :: 0 <= r < |s.receivers| && r < |s'.receivers| && th == ReceiverThread(r) ==> s'.receivers[r] == s.receivers[r])
  }

  lemma StepGrows(s: State, step: Step)
    requires Reachable(s) && Enabled(s, step)
    ensures Grows(s.log, Apply(s, step).log)
    ensures forall id :: |s.log| <= id < |Apply(s, step).log| ==> Actor(step) == SenderThread(Apply(s, step).log[id].author)
  {
    ReachableInv(s);
    LogEffect(s, step);
    if step.Advance? && s.senders[step.t].Storing? {
      assert FlightId(s.senders[step.t]) == Some(s.senders[step.t].id);
    }
  }

  // ---- what an object knows of its past ----

  /** Always true. A proof mentions it to look into the two predicates below, which would
      otherwise be unfolded at every step of every method. */
  predicate Opened(k: nat) {
    true
  }

  /** The state is reachable in the protocol. */
  ghost predicate Sound(s: State) {
    |s.cells| > 0 && forall k: nat {:trigger Opened(k)} :: Opened(k) ==> Reachable(s)
  }

  /** The history has led to it. */
  ghost predicate Kept(history: seq<Moment>, s: State, n: nat) {
    forall k: nat {:trigger Opened(k)} :: Opened(k) ==> n > 0 && Chained(history, s, n)
  }

  lemma SoundIsReachable(s: State)
    ensures Sound(s) <==> Reachable(s)
  {
    assert Opened(0);
  }

  lemma KeptIsChained(history: seq<Moment>, s: State, n: nat)
    ensures Kept(history, s, n) <==> n > 0 && Chained(history, s, n)
  {
    assert Opened(0);
  }

  /** A step of the thread itself that grants nothing. */
  lemma OwnStep(s: State, step: Step, still: set<nat>)
    requires Sound(s) && Enabled(s, step) && (Actor(step).SenderThread? ==> Actor(step).t !in still)
    requires step.Advance? ==> !s.senders[step.t].Restoring?
    ensures Since(s, Apply(s, step), Actor(step), still)
  {
    SoundIsReachable(s);
    StepGrows(s, step);
    OthersUntouched(s, step);
    LogEffect(s, step);
  }

  lemma SinceTransitive(a: State, b: State, c: State, th: Thread, still: set<nat>)
    requires Since(a, b, th, still) && Since(b, c, th, still)
    ensures Since(a, c, th, still)
  {
    GrowsTransitive(a.log, b.log, c.log);
    forall id | |a.log| <= id < |c.log|
      ensures c.log[id].author !in still && th != SenderThread(c.log[id].author)
    {
      if id < |b.log| {
        assert c.log[id].author == b.log[id].author;
      }
    }
  }

  lemma ForeignStep(s: State, step: Step, th: Thread, still: set<nat>)
    requires Reachable(s) && Enabled(s, step) && Foreign(step, th, still)
    ensures Since(s, Apply(s, step), th, still) && OwnStateKept(s, Apply(s, step), th)
  {
    StepGrows(s, step);
    OthersUntouched(s, step);
  }

  /** Between two histories only other threads took steps. */
  ghost predicate OthersRan(before: seq<Moment>, after: seq<Moment>, th: Thread, still: set<nat>) {
    before <= after && forall i :: |before| <= i < |after| ==> Foreign(after[i].step, th, still)
  }

  lemma {:induction false} OthersKeep(h: seq<Moment>, s: State, h': seq<Moment>, s': State, n: nat, th: Thread, still: set<nat>)
    requires n > 0 && Chained(h, s, n) && Chained(h', s', n) && OthersRan(h, h', th, still)
    ensures Reachable(s') && Since(s, s', th, still) && OwnStateKept(s, s', th) && Own(h', th) == Own(h, th)
    decreases |h'|
  {
    ChainedRun(h', s', n);
    if |h'| == |h| {
      assert h' == h;
      ChainedOnce(h, s, s', n);
    } else {
      var k := |h'| - 1;
      var m := h'[k];
      ChainedBefore(h', s', n, k);
      ChainedRun(h'[..k], m.before, n);
      OthersKeep(h, s, h'[..k], m.before, n, th, still);
      KeepsOneMore(s, m.before, m.step, th, still);
    }
  }

  lemma KeepsOneMore(s: State, mid: State, step: Step, th: Thread, still: set<nat>)
    requires Reachable(mid) && Enabled(mid, step) && Foreign(step, th, still)
    requires Since(s, mid, th, still) && OwnStateKept(s, mid, th)
    ensures Since(s, Apply(mid, step), th, still) && OwnStateKept(s, Apply(mid, step), th)
  {
    ForeignStep(mid, step, th, still);
    SinceTransitive(s, mid, Apply(mid, step), th, still);
  }

  lemma ChainedOnce(h: seq<Moment>, s: State, s': State, n: nat)
    requires n > 0 && Chained(h, s, n) && Chained(h, s', n)
    ensures s == s'
  {
    var k := |h| - 1;
    if h != [] {
      assert StateAt(h, s, k + 1) == Apply(h[k].before, h[k].step);
      assert StateAt(h, s', k + 1) == Apply(h[k].before, h[k].step);
    }
  }

  lemma OthersLeave(h: seq<Moment>, s: State, h': seq<Moment>, s': State, n: nat, th: Thread, still: set<nat>)
    requires Kept(h, s, n) && Kept(h', s', n) && OthersRan(h, h', th, still)
    ensures Since(s, s', th, still) && OwnStateKept(s, s', th) && Own(h', th) == Own(h, th)
  {
    KeptIsChained(h, s, n);
    KeptIsChained(h', s', n);
    OthersKeep(h, s, h', s', n, th, still);
  }

  /** What one step adds to the history. */
  lemma StepRecorded(h: seq<Moment>, s: State, n: nat, step: Step)
    requires Kept(h, s, n) && Enabled(s, step)
    ensures var h' := h + [Moment(s, step)];
            && Kept(h', Apply(s, step), n) && Sound(Apply(s, step))
            && Own(h', Actor(step)) == Own(h, Actor(step)) + [Moment(s, step)]
  {
    KeptIsChained(h, s, n);
    ChainedAppend(h, s, n, step);
    ChainedRun(h + [Moment(s, step)], Apply(s, step), n);
    KeptIsChained(h + [Moment(s, step)], Apply(s, step), n);
    SoundIsReachable(Apply(s, step));
    OwnAppend(h, Moment(s, step), Actor(step));
  }

  class Nexus {
    const buffer: array<Cell>
    var writeHead: nat
    var numReceivers: nat
    ghost var senders: seq<SenderPc>
    ghost var receivers: seq<Receiver>
    ghost var log: seq<Entry>
    ghost var token: Token
    ghost var history: seq<Moment>

    ghost function View(): State
      reads this, buffer
    {
      State(buffer[..], writeHead, numReceivers, senders, receivers, log, token)
    }

    ghost predicate Valid()
      reads this, buffer
    {
      && buffer.Length > 0 && IsPowerOfTwo(buffer.Length)
      && Sound(View()) && Kept(history, View(), buffer.Length)
    }

    /** What the thread has done so far. */
    ghost function Trace(th: Thread): seq<Moment>
      reads this
    {
      Own(history, th)
    }

    /** Exactly one step was taken since the history was h and the state s. */
    ghost predicate Took(h: seq<Moment>, s: State, step: Step)
      requires Enabled(s, step)
      reads this, buffer
    {
      && Valid() && View() == Apply(s, step) && history == h + [Moment(s, step)]
      && Trace(Actor(step)) == Own(h, Actor(step)) + [Moment(s, step)]
    }

    /** NexusQ::with_strategies after its checks, with the sender and the receiver of
        make_channel_with. */
    constructor (size: nat)
      requires IsPowerOfTwo(size) && size >= 1
      ensures fresh(buffer) && buffer.Length == size
      ensures View() == Init(size) && Valid() && history == []
    {
      buffer := new Cell[size](_ => Cell(None, 0, UNPUBLISHED));
      writeHead, numReceivers := 1, 0;
      senders, receivers := [SenderIdle(NotCalled)], [Receiver(1, 0, 0, 1, [], ReceiverIdle)];
      log, token, history := [Entry(0, None)], Free, [];
      new;
      buffer[0] := buffer[0].(readCounter := buffer[0].readCounter + 1);
      numReceivers := numReceivers + 1;
      assert buffer[..] == Init(size).cells;
      assert Legal(Init(size), []) && Execute(Init(size), []) == Init(size);
    }

    /** Other threads run. The body is one of the runs they may do, the empty one; callers
        know only that it is some run of other threads. */
    method Interfere(ghost th: Thread, ghost still: set<nat>)
      requires Valid()
      modifies this, buffer
      ensures Valid() && OthersRan(old(history), history, th, still)
    {
    }

    /** What a thread still knows after others ran. */
    method Yield(ghost th: Thread, ghost still: set<nat>)
      requires Valid()
      modifies this, buffer
      ensures Valid() && Since(old(View()), View(), th, still) && OwnStateKept(old(View()), View(), th)
      ensures Trace(th) == old(Trace(th)) && OthersRan(old(history), history, th, still)
    {
      ghost var h, s := history, View();
      Interfere(th, still);
      OthersLeave(h, s, history, View(), buffer.Length, th, still);
    }

    /** The step goes into the history, and the protocol's state moves on to that after it. */
    ghost method Commit(s: State, step: Step)
      requires Enabled(s, step)
      modifies this`senders, this`receivers, this`log, this`token, this`history
      ensures var s' := Apply(s, step);
              senders == s'.senders && receivers == s'.receivers && log == s'.log && token == s'.token
      ensures history == old(history) + [Moment(s, step)]
    {
      var s' := Apply(s, step);
      senders, receivers, log, token := s'.senders, s'.receivers, s'.log, s'.token;
      history := history + [Moment(s, step)];
    }

    /** id.fast_mod(buffer.len()). */
    method CellIndex(id: nat) returns (i: nat)
      requires Valid()
      ensures i == Slot(id, buffer.Length)
    {
      FastModIsSlot(id, buffer.Length);
      i := FastMod(id, buffer.Length);
    }

    // ---- atomic operations; `step` is the protocol step each one is part of ----

    /** The step leaves the shared memory as it is. */
    ghost predicate OnlyLoads(step: Step)
      requires Enabled(View(), step)
      reads this, buffer
    {
      var s := Apply(View(), step);
      s.cells == buffer[..] && s.writeHead == writeHead && s.numReceivers == numReceivers
    }

    method LoadNumReceivers(ghost step: Step) returns (count: nat)
      requires Valid() && Enabled(View(), step) && OnlyLoads(step)
      modifies this`senders, this`receivers, this`log, this`token, this`history
      ensures Took(old(history), old(View()), step) && count == numReceivers
    {
      count := numReceivers;
      StepRecorded(history, View(), buffer.Length, step);
      Commit(View(), step);
    }

    method LoadReadCounter(i: nat, ghost step: Step) returns (count: nat)
      requires Valid() && Enabled(View(), step) && OnlyLoads(step) && i < buffer.Length
      modifies this`senders, this`receivers, this`log, this`token, this`history
      ensures Took(old(history), old(View()), step) && count == buffer[i].readCounter
    {
      count := buffer[i].readCounter;
      StepRecorded(history, View(), buffer.Length, step);
      Commit(View(), step);
    }

    method LoadCurrentId(i: nat, ghost step: Step) returns (id: nat)
      requires Valid() && Enabled(View(), step) && OnlyLoads(step) && i < buffer.Length
      modifies this`senders, this`receivers, this`log, this`token, this`history
      ensures Took(old(history), old(View()), step) && id == buffer[i].currentId
    {
      id := buffer[i].currentId;
      StepRecorded(history, View(), buffer.Length, step);
      Commit(View(), step);
    }

    method ReadValue(i: nat, ghost step: Step) returns (value: Option<Value>)
      requires Valid() && Enabled(View(), step) && OnlyLoads(step) && i < buffer.Length
      modifies this`senders, this`receivers, this`log, this`token, this`history
      ensures Took(old(history), old(View()), step) && value == buffer[i].value
    {
      value := buffer[i].value;
      StepRecorded(history, View(), buffer.Length, step);
      Commit(View(), step);
    }

    /** notify_one, notify_all, and local steps: nothing in the shared memory. */
    ghost method Silent(step: Step)
      requires Valid() && Enabled(View(), step) && OnlyLoads(step)
      modifies this`senders, this`receivers, this`log, this`token, this`history
      ensures Took(old(history), old(View()), step)
    {
      StepRecorded(history, View(), buffer.Length, step);
      Commit(View(), step);
    }

    /** Takeable::try_take: swap in TAKEN. */
    method TryTake(ghost t: nat) returns (r: Option<nat>)
      requires Valid() && t < |senders| && senders[t].Taking?
      modifies this
      ensures Took(old(history), old(View()), Advance(t))
      ensures r == if old(writeHead) == TAKEN then None else Some(old(writeHead))
    {
      ghost var s := View();
      StepRecorded(history, s, buffer.Length, Advance(t));
      var v := writeHead;
      writeHead := TAKEN;
      Commit(s, Advance(t));
      r := if v == TAKEN then None else Some(v);
    }

    /** Takeable::restore. */
    method Restore(v: nat, ghost step: Step)
      requires Valid() && Enabled(View(), step)
      requires var s := Apply(View(), step);
               s.cells == buffer[..] && s.writeHead == v && s.numReceivers == numReceivers
      modifies this
      ensures Took(old(history), old(View()), step)
    {
      ghost var s := View();
      StepRecorded(history, s, buffer.Length, step);
      writeHead := v;
      Commit(s, step);
      assert View() == Apply(s, step);
    }

    method ReplaceValue(i: nat, value: Value, ghost step: Step) returns (previous: Option<Value>)
      requires Valid() && Enabled(View(), step) && i < buffer.Length
      requires var s := Apply(View(), step);
               && s.cells == buffer[..][i := buffer[i].(value := Some(value))]
               && s.writeHead == writeHead && s.numReceivers == numReceivers
      modifies this, buffer
      ensures Took(old(history), old(View()), step) && previous == old(buffer[i].value)
    {
      ghost var s := View();
      StepRecorded(history, s, buffer.Length, step);
      previous := buffer[i].value;
      buffer[i] := buffer[i].(value := Some(value));
      Commit(s, step);
      assert View() == Apply(s, step);
    }

    method StoreCurrentId(i: nat, id: nat, ghost step: Step)
      requires Valid() && Enabled(View(), step) && i < buffer.Length
      requires var s := Apply(View(), step);
               && s.cells == buffer[..][i := buffer[i].(currentId := id)]
               && s.writeHead == writeHead && s.numReceivers == numReceivers
      modifies this, buffer
      ensures Took(old(history), old(View()), step)
    {
      ghost var s := View();
      StepRecorded(history, s, buffer.Length, step);
      buffer[i] := buffer[i].(currentId := id);
      Commit(s, step);
      assert View() == Apply(s, step);
    }

    /** Cell::move_to. */
    method MoveTo(i: nat, ghost step: Step)
      requires Valid() && Enabled(View(), step) && i < buffer.Length
      requires var s := Apply(View(), step);
               s.cells == CountOn(buffer[..], i) && s.writeHead == writeHead && s.numReceivers == numReceivers
      modifies this, buffer
      ensures Took(old(history), old(View()), step)
    {
      ghost var s := View();
      buffer[i] := buffer[i].(readCounter := buffer[i].readCounter + 1);
      assert buffer[..] == CountOn(s.cells, i);
      StepRecorded(history, s, buffer.Length, step);
      Commit(s, step);
      assert View() == Apply(s, step);
    }

    /** The fetch_sub of Cell::move_from; tells whether it was the last reader. */
    method FetchSub(i: nat, ghost step: Step) returns (wasLast: bool)
      requires Valid() && Enabled(View(), step) && i < buffer.Length
      requires var s := Apply(View(), step);
               s.cells == CountOff(buffer[..], i) && s.writeHead == writeHead && s.numReceivers == numReceivers
      modifies this, buffer
      ensures Took(old(history), old(View()), step) && wasLast == LastOn(old(buffer[..]), i)
    {
      ghost var s := View();
      StepRecorded(history, s, buffer.Length, step);
      var previous := buffer[i].readCounter;
      buffer[i] := buffer[i].(readCounter := WrappingDec(previous));
      wasLast := previous == 1;
      assert buffer[..] == CountOff(s.cells, i);
      Commit(s, step);
      assert View() == Apply(s, step);
    }

    method AddReceiver(ghost step: Step)
      requires Valid() && Enabled(View(), step)
      requires var s := Apply(View(), step);
               s.cells == buffer[..] && s.writeHead == writeHead && s.numReceivers == numReceivers + 1
      modifies this
      ensures Took(old(history), old(View()), step)
    {
      ghost var s := View();
      StepRecorded(history, s, buffer.Length, step);
      numReceivers := numReceivers + 1;
      Commit(s, step);
      assert View() == Apply(s, step);
    }

    method SubReceiver(ghost step: Step)
      requires Valid() && Enabled(View(), step)
      requires var s := Apply(View(), step);
               s.cells == buffer[..] && s.writeHead == writeHead && s.numReceivers == WrappingDec(numReceivers)
      modifies this
      ensures Took(old(history), old(View()), step)
    {
      ghost var s := View();
      StepRecorded(history, s, buffer.Length, step);
      numReceivers := WrappingDec(numReceivers);
      Commit(s, step);
      assert View() == Apply(s, step);
    }
  }
}
