/** try_send and poll_ready look at num_receivers before they take the token, so any number of
    them can be granted ids after the last receiver left, and two then write one cell. */
module LateSends {
  import opened Prelude
  import opened Protocol
  import opened Invariant
  import opened Safety
  import opened Disconnect

  function EarlyOp(polls: bool, v: Value): Op {
    if polls then PollReady else TrySend(v)
  }

  function EarlyKind(polls: bool): Kind {
    if polls then Polls else TrySends
  }

  /** One sender for each value; all have passed their check of num_receivers and not taken yet. */
  ghost predicate Poised(s: State, n: nat, polls: bool, values: seq<Value>) {
    && n > 0 && |s.senders| == |values|
    && s == Init(n).(senders := s.senders)
    && forall t :: 0 <= t < |values| ==> s.senders[t] == Taking(EarlyOp(polls, values[t]))
  }

  lemma {:induction false} GetPoised(n: nat, polls: bool, values: seq<Value>) returns (steps: seq<Step>)
    requires n > 0 && |values| > 0
    ensures Legal(Init(n), steps) && UsesOnly(steps, {EarlyKind(polls)})
    ensures Poised(Execute(Init(n), steps), n, polls, values)
    ensures forall i :: 0 <= i < |steps| ==> !steps[i].Repoll? && !steps[i].Pend?
    decreases |values|
  {
    var m := |values|;
    var op := EarlyOp(polls, values[m - 1]);
    if m == 1 {
      steps := [Begin(0, op), Advance(0)];
      RunTwo(Init(n), Begin(0, op), Advance(0));
    } else {
      var first := GetPoised(n, polls, values[..m - 1]);
      var s := Execute(Init(n), first);
      var more := [NewSender, Begin(m - 1, op), Advance(m - 1)];
      RunThree(s, NewSender, Begin(m - 1, op), Advance(m - 1));
      ExecuteConcat(Init(n), first, more);
      steps := first + more;
    }
  }

  lemma RunTwo(s: State, a: Step, b: Step)
    requires Enabled(s, a) && Enabled(Apply(s, a), b)
    ensures Legal(s, [a, b]) && Execute(s, [a, b]) == Apply(Apply(s, a), b)
  {
    var s1 := Apply(s, a);
    assert [a, b][1..] == [b] && [b][1..] == [];
    assert Legal(Apply(s1, b), []);
    assert Legal(s1, [b]) && Execute(s1, [b]) == Apply(s1, b);
  }

  lemma RunThree(s: State, a: Step, b: Step, c: Step)
    requires Enabled(s, a) && Enabled(Apply(s, a), b) && Enabled(Apply(Apply(s, a), b), c)
    ensures Legal(s, [a, b, c]) && Execute(s, [a, b, c]) == Apply(Apply(Apply(s, a), b), c)
  {
    RunTwo(Apply(s, a), b, c);
    assert [a, b, c][1..] == [b, c];
  }

  /** Nobody receives; the first k senders are about to write ids 1 to k. */
  ghost predicate Racing(s: State, n: nat, k: nat, polls: bool, values: seq<Value>) {
    && n > 0 && |s.cells| == n && |s.senders| == |values| && k <= |values|
    && s.numReceivers == 0 && (forall i :: 0 <= i < n ==> s.cells[i].readCounter == 0)
    && |s.log| == k + 1 && s.writeHead == k + 1
    && (forall t :: 0 <= t < k ==> s.senders[t] == Writing(values[t], t + 1))
    && (forall t :: k <= t < |values| ==> s.senders[t] == Taking(EarlyOp(polls, values[t])))
  }

  lemma LastReceiverLeaves(s: State, n: nat, polls: bool, values: seq<Value>)
    requires Poised(s, n, polls, values)
    ensures Legal(s, [BeginDrop(0), Continue(0)])
    ensures Racing(Execute(s, [BeginDrop(0), Continue(0)]), n, 0, polls, values)
  {
    RunTwo(s, BeginDrop(0), Continue(0));
  }

  lemma OneMoreGrant(s: State, n: nat, k: nat, polls: bool, values: seq<Value>) returns (steps: seq<Step>)
    requires Racing(s, n, k, polls, values) && k < |values| && k + 2 < TAKEN
    ensures Legal(s, steps) && UsesOnly(steps, {})
    ensures Racing(Execute(s, steps), n, k + 1, polls, values)
  {
    var op := EarlyOp(polls, values[k]);
    var a := Advance(k);
    var taken := Apply(s, a);
    if polls {
      assert taken.senders[k] == Waiting(op, k + 1);
      RunTwo(s, a, a);
      var safe := Execute(s, [a, a]);
      assert safe == Put(taken, k, Restoring(op, k + 1));
      RunThree(safe, a, a, StartSend(k, values[k]));
      ExecuteConcat(s, [a, a], [a, a, StartSend(k, values[k])]);
      steps := [a, a] + [a, a, StartSend(k, values[k])];
    } else {
      assert taken.senders[k] == Looking(op, k + 1);
      RunTwo(s, a, a);
      var safe := Execute(s, [a, a]);
      assert safe == Put(taken, k, Restoring(op, k + 1));
      RunTwo(safe, a, a);
      ExecuteConcat(s, [a, a], [a, a]);
      steps := [a, a] + [a, a];
    }
  }

  lemma {:induction false} AllGranted(s: State, n: nat, k: nat, polls: bool, values: seq<Value>) returns (steps: seq<Step>)
    requires Racing(s, n, k, polls, values) && |values| + 2 < TAKEN
    ensures Legal(s, steps) && UsesOnly(steps, {})
    ensures Racing(Execute(s, steps), n, |values|, polls, values)
    decreases |values| - k
  {
    if k == |values| {
      steps := [];
    } else {
      var one := OneMoreGrant(s, n, k, polls, values);
      var rest := AllGranted(Execute(s, one), n, k + 1, polls, values);
      ExecuteConcat(s, one, rest);
      steps := one + rest;
    }
  }

  /** Any number of early calls are all granted ids after the last receiver has left. */
  lemma RaceFor(n: nat, polls: bool, values: seq<Value>) returns (steps: seq<Step>)
    requires n > 0 && 0 < |values| && |values| + 2 < TAKEN
    ensures Legal(Init(n), steps) && UsesOnly(steps, {EarlyKind(polls)})
    ensures Racing(Execute(Init(n), steps), n, |values|, polls, values)
  {
    var a := GetPoised(n, polls, values);
    var poised := Execute(Init(n), a);
    var b := [BeginDrop(0), Continue(0)];
    LastReceiverLeaves(poised, n, polls, values);
    var c := AllGranted(Execute(poised, b), n, 0, polls, values);
    ExecuteConcat(poised, b, c);
    ExecuteConcat(Init(n), a, b + c);
    steps := a + (b + c);
  }

  /** For every buffer length, n + 1 calls that passed their early check end with two senders
      about to write the same cell. */
  lemma EarlyCheckRaces(n: nat, polls: bool, v: Value) returns (steps: seq<Step>)
    requires 0 < n <= ISIZE_MAX + 1
    ensures Legal(Init(n), steps) && UsesOnly(steps, {EarlyKind(polls)})
    ensures var s := Execute(Init(n), steps);
            && |s.cells| == n && |s.senders| == n + 1
            && WritesCell(s.senders[0], n).Some? && WritesCell(s.senders[0], n) == WritesCell(s.senders[n], n)
            && !WritersDistinct(s)
  {
    var values := seq(n + 1, i => v);
    steps := RaceFor(n, polls, values);
    var s := Execute(Init(n), steps);
    assert s.senders[0] == Writing(v, 1) && s.senders[n] == Writing(v, n + 1);
    assert Slot(n + 1, n) == Slot(1, n);
    assert FlightId(s.senders[0]) == Some(1) && FlightId(s.senders[n]) == Some(n + 1);
  }

  /** Exactly when writers keep apart in every run, also without receivers: when no call in
      it is a try_send or a poll_ready. */
  lemma WritersDistinctExactlyWhenChecked(n: nat, kinds: set<Kind>, v: Value)
    requires 0 < n <= ISIZE_MAX + 1
    ensures (forall steps: seq<Step> :: Legal(Init(n), steps) && UsesOnly(steps, kinds) ==>
               WritersDistinct(Execute(Init(n), steps)))
            <==> TrySends !in kinds && Polls !in kinds
  {
    if TrySends !in kinds && Polls !in kinds {
      forall steps: seq<Step> | Legal(Init(n), steps) && UsesOnly(steps, kinds)
        ensures WritersDistinct(Execute(Init(n), steps))
      {
        OnlyChecked(steps, kinds);
        CheckedWritersDistinct(n, steps);
      }
    } else {
      var polls := TrySends !in kinds;
      var steps := EarlyCheckRaces(n, polls, v);
      assert UsesOnly(steps, kinds);
    }
  }
}
