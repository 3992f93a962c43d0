/** Payloads are neither lost nor duplicated: every value offered to the queue is with a
    caller, with a sender under way, in a cell, or dropped by the value that replaced it.
    All totals count the occurrences of one arbitrary value v. */
module Conservation {
  import opened Prelude
  import opened Sums
  import opened Protocol
  import opened Invariant
  import opened Safety
  import opened Disconnect
  import LateSends

  function Occ(o: Option<Value>, v: Value): nat {
    Bit(o == Some(v))
  }

  function InCell(v: Value): Cell -> nat {
    (c: Cell) => Occ(c.value, v)
  }

  function InLog(v: Value): Entry -> nat {
    (e: Entry) => Occ(e.value, v)
  }

  /** The value a sender still has to put into a cell. */
  function HandOf(pc: SenderPc): Option<Value> {
    match pc
    case Checking(op) => ValueOf(op)
    case Taking(op) => ValueOf(op)
    case Looking(op, _) => ValueOf(op)
    case Waiting(op, _) => ValueOf(op)
    case Confirming(op, _) => ValueOf(op)
    case Restoring(op, _) => ValueOf(op)
    case RollingBack(op, _) => ValueOf(op)
    case NotifyingHead(op, _) => ValueOf(op)
    case Writing(v, _) => Some(v)
    case _ => None
  }

  function InHand(v: Value): SenderPc -> nat {
    (pc: SenderPc) => Occ(HandOf(pc), v)
  }

  /** The value a sender still has to publish. */
  function Unlogged(v: Value): SenderPc -> nat {
    (pc: SenderPc) => if pc.Storing? then Occ(Some(pc.value), v) else Occ(HandOf(pc), v)
  }

  /** What a step takes from a caller, ... */
  function Offered(step: Step): Option<Value> {
    match step
    case Begin(_, op) => ValueOf(op)
    case StartSend(_, v) => Some(v)
    case _ => None
  }

  function InResult(r: SendResult): Option<Value> {
    match r
    case Full(v) => Some(v)
    case Timeout(v) => Some(v)
    case Disconnected(v) => v
    case _ => None
  }

  /** ... gives back in the result of a call that ends, ... */
  function Returned(s: State, step: Step): Option<Value>
    requires Enabled(s, step)
  {
    if (step.Advance? || step.GiveUp?) && Apply(s, step).senders[step.t].SenderIdle? then
      InResult(Apply(s, step).senders[step.t].result)
    else None
  }

  /** ... puts into a cell, ... */
  function Written(s: State, step: Step): Option<Value>
    requires Enabled(s, step)
  {
    if step.Advance? && s.senders[step.t].Writing? then Some(s.senders[step.t].value) else None
  }

  /** ... takes out of a cell for good, ... */
  function Dropped(s: State, step: Step): Option<Value>
    requires Enabled(s, step)
  {
    if step.Advance? && s.senders[step.t].Writing? then CellOf(s, s.senders[step.t].id).value else None
  }

  /** ... and publishes. */
  function Published(s: State, step: Step): Option<Value>
    requires Enabled(s, step)
  {
    if step.Advance? && s.senders[step.t].Storing? then Some(s.senders[step.t].value) else None
  }

  function Cells(s: State, v: Value): nat {
    Sum(s.cells, InCell(v))
  }

  function Hands(s: State, v: Value): nat {
    Sum(s.senders, InHand(v))
  }

  function NotLogged(s: State, v: Value): nat {
    Sum(s.senders, Unlogged(v))
  }

  function Logged(s: State, v: Value): nat {
    Sum(s.log, InLog(v))
  }

  // ---- one step ----

  lemma ValuesStay(s: State, step: Step)
    requires Enabled(s, step) && Written(s, step).None?
    ensures |Apply(s, step).cells| == |s.cells|
    ensures forall i :: 0 <= i < |s.cells| ==> Apply(s, step).cells[i].value == s.cells[i].value
  {
  }

  lemma CellsEffect(s: State, step: Step, v: Value)
    requires Enabled(s, step)
    ensures Cells(Apply(s, step), v) + Occ(Dropped(s, step), v) == Cells(s, v) + Occ(Written(s, step), v)
  {
    if step.Advance? && s.senders[step.t].Writing? {
      var Writing(w, id) := s.senders[step.t];
      var i := Slot(id, |s.cells|);
      SumUpdate(s.cells, i, s.cells[i].(value := Some(w)), InCell(v));
    } else {
      ValuesStay(s, step);
      SumAgree(s.cells, Apply(s, step).cells, InCell(v));
    }
  }

  lemma AdvanceEffect(s: State, t: nat, v: Value)
    requires Enabled(s, Advance(t))
    ensures var s' := Apply(s, Advance(t));
            && s'.senders == s.senders[t := s'.senders[t]]
            && Occ(HandOf(s.senders[t]), v) ==
               Occ(HandOf(s'.senders[t]), v) + Occ(Returned(s, Advance(t)), v) + Occ(Written(s, Advance(t)), v)
  {
    match s.senders[t]
    case Checking(_) =>
    case Taking(_) =>
    case Looking(_, _) =>
    case Waiting(_, _) =>
    case Polling(_) =>
    case Confirming(_, _) =>
    case Restoring(_, _) =>
    case RollingBack(_, _) =>
    case NotifyingHead(_, _) =>
    case Writing(_, _) =>
    case Storing(_, _) =>
    case NotifyingCell(_) =>
  }

  /** The acting sender: what it takes, keeps, gives back and writes. */
  lemma HandEffect(s: State, step: Step, v: Value)
    requires Enabled(s, step) && Actor(step).SenderThread?
    ensures var t, s' := Actor(step).t, Apply(s, step);
            && s'.senders == s.senders[t := s'.senders[t]]
            && Occ(HandOf(s.senders[t]), v) + Occ(Offered(step), v) ==
               Occ(HandOf(s'.senders[t]), v) + Occ(Returned(s, step), v) + Occ(Written(s, step), v)
  {
    if step.Advance? {
      AdvanceEffect(s, step.t, v);
    }
  }

  lemma SendersEffect(s: State, step: Step)
    requires Enabled(s, step) && !Actor(step).SenderThread?
    ensures Apply(s, step).senders == if step.NewSender? then s.senders + [SenderIdle(NotCalled)] else s.senders
  {
  }

  lemma HandsEffect(s: State, step: Step, v: Value)
    requires Enabled(s, step)
    ensures Hands(s, v) + Occ(Offered(step), v)
         == Hands(Apply(s, step), v) + Occ(Returned(s, step), v) + Occ(Written(s, step), v)
  {
    if Actor(step).SenderThread? {
      HandEffect(s, step, v);
      SumUpdate(s.senders, Actor(step).t, Apply(s, step).senders[Actor(step).t], InHand(v));
    } else {
      SendersEffect(s, step);
      SumAppend(s.senders, SenderIdle(NotCalled), InHand(v));
    }
  }

  /** No step creates, loses or duplicates a value. */
  lemma StepConserves(s: State, step: Step, v: Value)
    requires Enabled(s, step)
    ensures Hands(s, v) + Cells(s, v) + Occ(Offered(step), v)
         == Hands(Apply(s, step), v) + Cells(Apply(s, step), v) + Occ(Returned(s, step), v) + Occ(Dropped(s, step), v)
  {
    HandsEffect(s, step, v);
    CellsEffect(s, step, v);
  }

  // ---- whole runs ----

  function OfferedIn(steps: seq<Step>, v: Value): nat {
    if steps == [] then 0 else Occ(Offered(steps[0]), v) + OfferedIn(steps[1..], v)
  }

  function ReturnedIn(s: State, steps: seq<Step>, v: Value): nat
    requires Legal(s, steps)
    decreases |steps|
  {
    if steps == [] then 0 else Occ(Returned(s, steps[0]), v) + ReturnedIn(Apply(s, steps[0]), steps[1..], v)
  }

  function DroppedIn(s: State, steps: seq<Step>, v: Value): nat
    requires Legal(s, steps)
    decreases |steps|
  {
    if steps == [] then 0 else Occ(Dropped(s, steps[0]), v) + DroppedIn(Apply(s, steps[0]), steps[1..], v)
  }

  lemma {:induction false} RunConserves(s: State, steps: seq<Step>, v: Value)
    requires Legal(s, steps)
    ensures var s' := Execute(s, steps);
            Hands(s, v) + Cells(s, v) + OfferedIn(steps, v)
            == Hands(s', v) + Cells(s', v) + ReturnedIn(s, steps, v) + DroppedIn(s, steps, v)
    decreases |steps|
  {
    if steps == [] {
    } else {
      StepConserves(s, steps[0], v);
      RunConserves(Apply(s, steps[0]), steps[1..], v);
    }
  }

  lemma InitIsEmpty(n: nat, v: Value)
    requires n > 0
    ensures var s := Init(n); Hands(s, v) == Cells(s, v) == NotLogged(s, v) == Logged(s, v) == 0
  {
    SumZero(Init(n).cells, InCell(v));
    SumZero(Init(n).senders, InHand(v));
    SumZero(Init(n).senders, Unlogged(v));
    SumZero(Init(n).log, InLog(v));
  }

  /** Over any run: what was offered is exactly what was returned in errors, is still with
      senders, is in the cells, or was dropped by replacement. */
  lemma NothingLost(n: nat, steps: seq<Step>, v: Value)
    requires n > 0 && Legal(Init(n), steps)
    ensures var s := Execute(Init(n), steps);
            OfferedIn(steps, v) == ReturnedIn(Init(n), steps, v) + Hands(s, v) + Cells(s, v) + DroppedIn(Init(n), steps, v)
  {
    InitIsEmpty(n, v);
    RunConserves(Init(n), steps, v);
  }

  // ---- the accepted values are the log ----

  lemma LoggedEffect(s: State, step: Step, v: Value)
    requires Inv(s) && Enabled(s, step)
    ensures Logged(Apply(s, step), v) == Logged(s, v) + Occ(Published(s, step), v)
  {
    LogEffect(s, step);
    if step.Advance? && s.senders[step.t].Restoring? {
      SumAppend(s.log, Entry(step.t, None), InLog(v));
    } else if step.Advance? && s.senders[step.t].Storing? {
      var Storing(w, id) := s.senders[step.t];
      assert FlightId(s.senders[step.t]) == Some(id);
      SumUpdate(s.log, id, s.log[id].(value := Some(w)), InLog(v));
    }
  }

  lemma UnloggedEffect(s: State, step: Step, v: Value)
    requires Enabled(s, step) && Actor(step).SenderThread?
    ensures var t, s' := Actor(step).t, Apply(s, step);
            && s'.senders == s.senders[t := s'.senders[t]]
            && Unlogged(v)(s.senders[t]) + Occ(Offered(step), v) ==
               Unlogged(v)(s'.senders[t]) + Occ(Returned(s, step), v) + Occ(Published(s, step), v)
  {
    HandEffect(s, step, v);
  }

  lemma StepLogs(s: State, step: Step, v: Value)
    requires Inv(s) && Enabled(s, step)
    ensures NotLogged(s, v) + Logged(s, v) + Occ(Offered(step), v)
         == NotLogged(Apply(s, step), v) + Logged(Apply(s, step), v) + Occ(Returned(s, step), v)
  {
    LoggedEffect(s, step, v);
    if Actor(step).SenderThread? {
      UnloggedEffect(s, step, v);
      SumUpdate(s.senders, Actor(step).t, Apply(s, step).senders[Actor(step).t], Unlogged(v));
    } else {
      SendersEffect(s, step);
      SumAppend(s.senders, SenderIdle(NotCalled), Unlogged(v));
    }
  }

  lemma {:induction false} RunLogs(s: State, steps: seq<Step>, v: Value)
    requires Inv(s) && Legal(s, steps)
    ensures var s' := Execute(s, steps);
            NotLogged(s, v) + Logged(s, v) + OfferedIn(steps, v)
            == NotLogged(s', v) + Logged(s', v) + ReturnedIn(s, steps, v)
    decreases |steps|
  {
    if steps == [] {
    } else {
      StepLogs(s, steps[0], v);
      StepInv(s, steps[0]);
      RunLogs(Apply(s, steps[0]), steps[1..], v);
    }
  }

  // ---- what the buffer holds at rest ----

  /** A cell no id was granted for yet is empty. */
  ghost predicate FreshInv(s: State) {
    forall i :: 0 <= i < |s.cells| && (i >= |s.log| || (i == 0 && |s.log| <= |s.cells|)) ==> s.cells[i].value.None?
  }

  lemma FreshReplace(s: State, t: nat)
    requires Inv(s) && FreshInv(s) && t < |s.senders| && s.senders[t].Writing?
    ensures FreshInv(Replace(s, t))
  {
    assert FlightId(s.senders[t]) == Some(s.senders[t].id);
  }

  lemma FreshStep(s: State, step: Step)
    requires Inv(s) && FreshInv(s) && Enabled(s, step)
    ensures FreshInv(Apply(s, step))
  {
    if step.Advance? && s.senders[step.t].Writing? {
      FreshReplace(s, step.t);
    } else {
      ValuesStay(s, step);
      LogEffect(s, step);
    }
  }

  lemma {:induction false} FreshRun(s: State, steps: seq<Step>)
    requires Inv(s) && FreshInv(s) && Legal(s, steps)
    ensures FreshInv(Execute(s, steps))
    decreases |steps|
  {
    if steps == [] {
    } else {
      FreshStep(s, steps[0]);
      StepInv(s, steps[0]);
      FreshRun(Apply(s, steps[0]), steps[1..]);
    }
  }

  /** The occurrences of v in the cells of k consecutive ids. */
  function Arc(cells: seq<Cell>, base: nat, k: nat, v: Value): nat
    requires |cells| > 0
  {
    if k == 0 then 0 else Arc(cells, base, k - 1, v) + Occ(cells[Slot(base + k - 1, |cells|)].value, v)
  }

  lemma {:induction false} ArcFront(cells: seq<Cell>, base: nat, k: nat, v: Value)
    requires |cells| > 0 && k > 0
    ensures Arc(cells, base, k, v) == Occ(cells[Slot(base, |cells|)].value, v) + Arc(cells, base + 1, k - 1, v)
  {
    if k == 1 {
    } else {
      ArcFront(cells, base, k - 1, v);
    }
  }

  lemma {:induction false} ArcFromZero(cells: seq<Cell>, k: nat, v: Value)
    requires 0 < |cells| && k <= |cells|
    ensures Arc(cells, 0, k, v) == Sum(cells[..k], InCell(v))
  {
    if k == 0 {
    } else {
      ArcFromZero(cells, k - 1, v);
      assert cells[..k] == cells[..k - 1] + [cells[k - 1]];
      SumAppend(cells[..k - 1], cells[k - 1], InCell(v));
    }
  }

  /** Going once around the ring from anywhere meets every cell once. */
  lemma {:induction false} FullArc(cells: seq<Cell>, base: nat, v: Value)
    requires |cells| > 0
    ensures Arc(cells, base, |cells|, v) == Sum(cells, InCell(v))
  {
    if base == 0 {
      ArcFromZero(cells, |cells|, v);
      assert cells[..|cells|] == cells;
    } else {
      FullArc(cells, base - 1, v);
      ArcFront(cells, base - 1, |cells|, v);
      assert Slot(base - 1 + |cells|, |cells|) == Slot(base - 1, |cells|);
    }
  }

  /** The oldest id whose value is still in the buffer at rest. */
  function Oldest(s: State): nat
    requires |s.log| > 0
  {
    if |s.log| > |s.cells| then |s.log| - |s.cells| else 1
  }

  /** No id is granted and unpublished. Senders may still be waiting with a value in hand. */
  ghost predicate NoFlight(s: State) {
    forall t :: 0 <= t < |s.senders| ==> FlightId(s.senders[t]).None?
  }

  ghost predicate AtRest(s: State) {
    Inv(s) && ContentsInv(s) && NoFlight(s)
  }

  lemma AllLogged(s: State, id: nat)
    requires AtRest(s) && 1 <= id < |s.log|
    ensures s.log[id].value.Some?
  {
    assert s.log[id].value.None? ==> FlightId(s.senders[s.log[id].author]) == Some(id);
  }

  /** At rest, the k-th cell from the head's on holds the value of the id n before, if any. */
  lemma RestingCell(s: State, k: nat)
    requires AtRest(s) && FreshInv(s) && k < |s.cells|
    ensures var id := |s.log| + k;
            CellOf(s, id).value == if id > |s.cells| then s.log[id - |s.cells|].value else None
  {
    var n, id := |s.cells|, |s.log| + k;
    if id > n {
      AllLogged(s, id - n);
      assert Slot(id, n) == Slot(id - n, n);
      assert CellOf(s, id - n).value == s.log[id - n].value;
    } else if id == n {
      assert Slot(n, n) == 0;
    }
  }

  /** The occurrences of v among the log entries from the oldest to before `end`. */
  function Held(s: State, end: nat, v: Value): nat
    requires |s.log| > 0 && end <= |s.log|
  {
    if end <= Oldest(s) then 0 else Sum(s.log[Oldest(s)..end], InLog(v))
  }

  lemma HeldGrows(s: State, end: nat, v: Value)
    requires |s.log| > 0 && Oldest(s) <= end < |s.log|
    ensures Held(s, end + 1, v) == Held(s, end, v) + Occ(s.log[end].value, v)
  {
    var first := Oldest(s);
    assert s.log[first..end + 1] == s.log[first..end] + [s.log[end]];
    SumAppend(s.log[first..end], s.log[end], InLog(v));
  }

  ghost predicate RestingCells(s: State)
    requires |s.cells| > 0 && |s.log| > 0
  {
    forall id :: |s.log| <= id < |s.log| + |s.cells| ==>
      CellOf(s, id).value == if id > |s.cells| then s.log[id - |s.cells|].value else None
  }

  lemma {:induction false} RestingArc(s: State, k: nat, v: Value)
    requires |s.cells| > 0 && |s.log| > 0 && RestingCells(s) && k <= |s.cells|
    ensures var m := |s.log| + k;
            Arc(s.cells, |s.log|, k, v) == if m > |s.cells| then Held(s, m - |s.cells|, v) else 0
  {
    if k == 0 {
    } else {
      RestingArc(s, k - 1, v);
      var id := |s.log| + k - 1;
      assert CellOf(s, id).value == if id > |s.cells| then s.log[id - |s.cells|].value else None;
      if id > |s.cells| {
        HeldGrows(s, id - |s.cells|, v);
      }
    }
  }

  lemma HandsAtRest(s: State, v: Value)
    requires NoFlight(s)
    ensures NotLogged(s, v) == Hands(s, v)
  {
    SumsEqual(s.senders, Unlogged(v), InHand(v));
  }

  /** Where the contents follow the log: a receiver lives, or no call was a try_send or a
      poll_ready. */
  ghost predicate KeepsContents(s: State, steps: seq<Step>) {
    HasReceiver(s) || UsesOnly(steps, CHECKED)
  }

  lemma ContentsKept(n: nat, steps: seq<Step>)
    requires n > 0 && Legal(Init(n), steps) && KeepsContents(Execute(Init(n), steps), steps)
    ensures Inv(Execute(Init(n), steps)) && ContentsInv(Execute(Init(n), steps))
  {
    InitInv(n);
    RunInv(Init(n), steps);
    if !HasReceiver(Execute(Init(n), steps)) {
      InitChecked(n);
      CheckedRun(Init(n), steps);
    }
  }

  /** When nothing is in flight: the accepted values are exactly the log, the buffer holds the
      last min(accepted, n) of them, and the others are exactly those that were dropped. */
  lemma {:induction false} BufferHoldsTheLastN(n: nat, steps: seq<Step>, v: Value)
    requires n > 0 && Legal(Init(n), steps) && NoFlight(Execute(Init(n), steps))
    requires KeepsContents(Execute(Init(n), steps), steps)
    ensures var s := Execute(Init(n), steps);
            && |s.cells| > 0 && |s.log| > 0
            && OfferedIn(steps, v) == ReturnedIn(Init(n), steps, v) + Hands(s, v) + Sum(s.log, InLog(v))
            && Cells(s, v) == Sum(s.log[Oldest(s)..], InLog(v))
            && DroppedIn(Init(n), steps, v) == Sum(s.log[..Oldest(s)], InLog(v))
  {
    var s := Execute(Init(n), steps);
    InitInv(n);
    InitIsEmpty(n, v);
    RunLogs(Init(n), steps, v);
    HandsAtRest(s, v);
    RunConserves(Init(n), steps, v);
    ContentsKept(n, steps);
    FreshRun(Init(n), steps);
    AllCellsRest(s);
    BufferAtRest(s, v);
    LogSplits(s.log, Oldest(s), v);
  }

  lemma AllCellsRest(s: State)
    requires AtRest(s) && FreshInv(s)
    ensures RestingCells(s)
  {
    forall id | |s.log| <= id < |s.log| + |s.cells|
      ensures CellOf(s, id).value == if id > |s.cells| then s.log[id - |s.cells|].value else None
    {
      RestingCell(s, id - |s.log|);
    }
  }

  lemma LogSplits(log: seq<Entry>, first: nat, v: Value)
    requires first <= |log|
    ensures Sum(log, InLog(v)) == Sum(log[..first], InLog(v)) + Sum(log[first..], InLog(v))
  {
    assert log == log[..first] + log[first..];
    SumConcat(log[..first], log[first..], InLog(v));
  }

  lemma BufferAtRest(s: State, v: Value)
    requires |s.cells| > 0 && |s.log| > 0 && RestingCells(s)
    ensures Cells(s, v) == Sum(s.log[Oldest(s)..], InLog(v))
  {
    RestingArc(s, |s.cells|, v);
    FullArc(s.cells, |s.log|, v);
    assert s.log[Oldest(s)..|s.log|] == s.log[Oldest(s)..];
  }

  // ---- and where it does not ----

  /** The buffer is the last n accepted values, counted. */
  ghost predicate BufferIsLastN(s: State) {
    |s.cells| > 0 && |s.log| > 0 && forall x: Value :: Cells(s, x) == Sum(s.log[Oldest(s)..], InLog(x))
  }

  /** n + 1 late flights: the last one has landed, then the first k. All but the last carry v. */
  ghost predicate Landing(s: State, n: nat, k: nat, v: Value, w: Value) {
    && n > 0 && |s.cells| == n && |s.senders| == n + 1 && k <= n && |s.log| == n + 2
    && s.senders[n].SenderIdle? && s.log[n + 1].value == Some(w)
    && (forall t :: 0 <= t < k ==> s.senders[t].SenderIdle? && CellOf(s, t + 1).value == Some(v))
    && (forall t :: k <= t < n ==> s.senders[t] == Writing(v, t + 1))
  }

  /** A sender writes, publishes and notifies without a break. */
  lemma Publishes(s: State, t: nat, v: Value, id: nat)
    requires |s.cells| > 0 && t < |s.senders| && s.senders[t] == Writing(v, id) && id < |s.log|
    ensures Legal(s, [Advance(t), Advance(t), Advance(t)])
    ensures var i := Slot(id, |s.cells|);
            Execute(s, [Advance(t), Advance(t), Advance(t)]) ==
              s.(cells := s.cells[i := s.cells[i].(value := Some(v), currentId := id)],
                 log := s.log[id := s.log[id].(value := Some(v))],
                 senders := s.senders[t := SenderIdle(Sent)])
  {
    var a := Advance(t);
    LateSends.RunThree(s, a, a, a);
  }

  lemma {:induction false} AllLand(s: State, n: nat, k: nat, v: Value, w: Value) returns (steps: seq<Step>)
    requires Landing(s, n, k, v, w)
    ensures Legal(s, steps) && UsesOnly(steps, {})
    ensures Landing(Execute(s, steps), n, n, v, w)
    decreases n - k
  {
    if k == n {
      steps := [];
    } else {
      var a := [Advance(k), Advance(k), Advance(k)];
      Publishes(s, k, v, k + 1);
      var rest := AllLand(Execute(s, a), n, k + 1, v, w);
      ExecuteConcat(s, a, rest);
      steps := a + rest;
    }
  }

  /** The oldest flights have overwritten the latest value. */
  lemma LandedLost(s: State, n: nat, v: Value, w: Value)
    requires Landing(s, n, n, v, w) && v != w
    ensures Cells(s, w) == 0 && Sum(s.log[Oldest(s)..], InLog(w)) > 0
    ensures NoFlight(s) && !BufferIsLastN(s)
  {
    forall i | 0 <= i < n
      ensures s.cells[i].value == Some(v)
    {
      var id := CoveringId(1, n, i);
      var t := id - 1;
      assert s.senders[t].SenderIdle? && CellOf(s, t + 1).value == Some(v);
    }
    SumZero(s.cells, InCell(w));
    var last := s.log[Oldest(s)..];
    assert last[n - 1] == s.log[n + 1];
    SumCovers(last, n - 1, InLog(w));
  }

  /** For every buffer length, n + 1 early calls without a receiver, the last of which lands
      first: at rest the buffer has lost the latest value. */
  lemma LateLandingsLose(n: nat, polls: bool, v: Value, w: Value) returns (steps: seq<Step>)
    requires 0 < n <= ISIZE_MAX + 1 && v != w
    ensures Legal(Init(n), steps) && UsesOnly(steps, {LateSends.EarlyKind(polls)})
    ensures NoFlight(Execute(Init(n), steps)) && !BufferIsLastN(Execute(Init(n), steps))
  {
    var values := seq(n + 1, i => if i == n then w else v);
    var race := LateSends.RaceFor(n, polls, values);
    var racing := Execute(Init(n), race);
    assert racing.senders[n] == Writing(w, n + 1);
    var first := [Advance(n), Advance(n), Advance(n)];
    Publishes(racing, n, w, n + 1);
    var rest := AllLand(Execute(racing, first), n, 0, v, w);
    ExecuteConcat(racing, first, rest);
    ExecuteConcat(Init(n), race, first + rest);
    steps := race + (first + rest);
    LandedLost(Execute(Init(n), steps), n, v, w);
  }

  /** In all runs of a set of operations the buffer at rest is the last n accepted values, if
      and only if neither try_send nor poll_ready is among them. */
  lemma LastNExactlyWhenChecked(n: nat, kinds: set<Kind>, v: Value, w: Value)
    requires 0 < n <= ISIZE_MAX + 1 && v != w
    ensures (forall steps: seq<Step> :: Legal(Init(n), steps) && UsesOnly(steps, kinds) && NoFlight(Execute(Init(n), steps)) ==>
               BufferIsLastN(Execute(Init(n), steps)))
            <==> TrySends !in kinds && Polls !in kinds
  {
    if TrySends !in kinds && Polls !in kinds {
      forall steps: seq<Step> | Legal(Init(n), steps) && UsesOnly(steps, kinds) && NoFlight(Execute(Init(n), steps))
        ensures BufferIsLastN(Execute(Init(n), steps))
      {
        var s := Execute(Init(n), steps);
        OnlyChecked(steps, kinds);
        ContentsKept(n, steps);
        forall x: Value
          ensures Cells(s, x) == Sum(s.log[Oldest(s)..], InLog(x))
        {
          BufferHoldsTheLastN(n, steps, x);
        }
      }
    } else {
      var polls := TrySends !in kinds;
      var steps := LateLandingsLose(n, polls, v, w);
      assert UsesOnly(steps, kinds);
    }
  }
}
