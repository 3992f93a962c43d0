/** Runs that send one value on a channel of two cells; examples start from here. */
module FirstSends {
  import opened Prelude
  import opened Protocol
  import opened Invariant
  import opened Disconnect

  /** Two cells, the first value published, the head free at id 2. */
  function Published(v: Value, senders: seq<SenderPc>): State {
    Init(2).(cells := [Cell(None, 1, UNPUBLISHED), Cell(Some(v), 0, 1)],
             writeHead := 2, senders := senders, log := [Entry(0, None), Entry(0, Some(v))])
  }

  lemma RunStep(s: State, steps: seq<Step>, x: Step)
    requires Legal(s, steps) && Enabled(Execute(s, steps), x)
    ensures Legal(s, steps + [x]) && Execute(s, steps + [x]) == Apply(Execute(s, steps), x)
  {
    var e := Execute(s, steps);
    assert [x][1..] == [] && Legal(Apply(e, x), []);
    assert Legal(e, [x]);
    ExecuteConcat(s, steps, [x]);
  }

  predicate CanRollBack(op: Op) {
    op.TrySend? || op.TrySendBefore?
  }

  /** One whole send on the empty channel of two cells: up to the swap, ... */
  lemma FirstCall(a: Op, v: Value) returns (steps: seq<Step>)
    requires CanRollBack(a) && ValueOf(a) == Some(v)
    ensures Legal(Init(2), steps) && UsesOnly(steps, {KindOf(a)})
    ensures Execute(Init(2), steps) == Init(2).(senders := [Taking(a), SenderIdle(NotCalled)])
  {
    var s, x := Init(2), Advance(0);
    assert Apply(s, NewSender) == s.(senders := [SenderIdle(NotCalled), SenderIdle(NotCalled)]);
    steps := [];
    RunStep(s, steps, NewSender);
    steps := steps + [NewSender];
    RunStep(s, steps, Begin(0, a));
    steps := steps + [Begin(0, a)];
    if a.TrySend? {
      RunStep(s, steps, x);
      steps := steps + [x];
    }
  }

  /** ... on to the grant, ... */
  lemma FirstGrant(a: Op, v: Value) returns (steps: seq<Step>)
    requires CanRollBack(a) && ValueOf(a) == Some(v)
    ensures Legal(Init(2), steps) && UsesOnly(steps, {KindOf(a)})
    ensures Execute(Init(2), steps) ==
            Init(2).(senders := [NotifyingHead(a, 1), SenderIdle(NotCalled)], writeHead := 2,
                     log := [Entry(0, None), Entry(0, None)])
  {
    steps := FirstCall(a, v);
    var s, x := Init(2), Advance(0);
    RunStep(s, steps, x);
    steps := steps + [x];
    RunStep(s, steps, x);
    steps := steps + [x];
    if a.TrySendBefore? {
      RunStep(s, steps, x);
      steps := steps + [x];
    }
    assert Execute(s, steps) ==
           s.(senders := [Restoring(a, 1), SenderIdle(NotCalled)], writeHead := TAKEN, token := Held(0));
    RunStep(s, steps, x);
    steps := steps + [x];
  }

  /** ... and to the end. */
  lemma FirstSend(a: Op, v: Value) returns (steps: seq<Step>)
    requires CanRollBack(a) && ValueOf(a) == Some(v)
    ensures Legal(Init(2), steps) && UsesOnly(steps, {KindOf(a)})
    ensures Execute(Init(2), steps) == Published(v, [SenderIdle(Sent), SenderIdle(NotCalled)])
  {
    steps := FirstGrant(a, v);
    var s, x := Init(2), Advance(0);
    RunStep(s, steps, x);
    steps := steps + [x];
    RunStep(s, steps, x);
    steps := steps + [x];
    assert Execute(s, steps).cells == [Cell(None, 1, UNPUBLISHED), Cell(Some(v), 0, UNPUBLISHED)];
    RunStep(s, steps, x);
    steps := steps + [x];
    assert Execute(s, steps) == Published(v, [NotifyingCell(1), SenderIdle(NotCalled)]);
    RunStep(s, steps, x);
    steps := steps + [x];
  }
}
