/** src/receiver.rs: the operations of a receiver handle, with other threads running between
    any two atomic operations. */
module ReceiveSide {
  import opened Prelude
  import opened Protocol
  import opened Invariant
  import opened Safety
  import opened Channel
  import opened WaitStrategy
  import ReceiverSteps

  lemma CountedOnPrevious(s: State, r: nat)
    requires Sound(s) && r < |s.receivers| && Live(s.receivers[r]) && !s.receivers[r].pc.Leaving?
    ensures s.receivers[r].previous < |s.cells| && s.cells[s.receivers[r].previous].readCounter >= 1
  {
    SoundIsReachable(s);
    ReachableInv(s);
    ReceiverSteps.CountedOnPrevious(s, r);
  }

  /** The receiver when the loop of a batch has read k values. */
  ghost function BatchDone(x: Receiver, k: nat): Receiver {
    if k == 0 then x.(pc := ReceiverIdle) else x.(cursor := x.cursor + k, pc := Moving(x.cursor + k - 1, Batch))
  }

  lemma AheadIsSeen(s: State, r: nat, id: nat)
    requires Sound(s) && r < |s.receivers| && s.receivers[r].pc.Scanning? && s.receivers[r].cursor <= id
    ensures IsPublished(s, id) ==> CellOf(s, id).currentId == id
  {
    SoundIsReachable(s);
    ReachableInv(s);
    ReceiverSteps.AboutReceiver(s, r);
    assert HasReceiver(s);
  }

  /** A look at the next cell of a batch: it shows its id as soon as that is published. */
  lemma AboutScanning(s: State, r: nat, x: Receiver, max: nat, k: nat, i: nat) returns (y: Receiver)
    requires Sound(s) && r < |s.receivers| && s.receivers[r] == x.(pc := Scanning(max, k)) && k < max
    requires i == Slot(x.cursor + k, |s.cells|)
    ensures y == if s.cells[i].currentId == x.cursor + k then x.(pc := Copying(max, k)) else BatchDone(x, k)
    ensures Enabled(s, Continue(r)) && Apply(s, Continue(r)) == PutR(s, r, y)
    ensures IsPublished(s, x.cursor + k) ==> s.cells[i].currentId == x.cursor + k
  {
    y := Scan(s, r).receivers[r];
    AheadIsSeen(s, r, x.cursor + k);
  }

  lemma AboutScanEnd(s: State, r: nat, x: Receiver, max: nat)
    requires Sound(s) && r < |s.receivers| && s.receivers[r] == x.(pc := Scanning(max, max))
    ensures Enabled(s, Continue(r)) && Apply(s, Continue(r)) == PutR(s, r, BatchDone(x, max))
  {
  }

  /** A copy in a batch: the cell holds a value, and it joins what was got. */
  lemma AboutCopying(s: State, r: nat, x: Receiver, max: nat, k: nat, i: nat)
    requires Sound(s) && r < |s.receivers| && s.receivers[r] == x.(pc := Copying(max, k))
    requires i == Slot(x.cursor + k, |s.cells|)
    ensures Enabled(s, Continue(r)) && s.cells[i].value.Some?
    ensures Apply(s, Continue(r))
         == PutR(s, r, x.(got := x.got + [s.cells[i].value.value], pc := Scanning(max, k + 1)))
  {
    AboutReading(s, r);
  }

  lemma AboutReading(s: State, r: nat)
    requires Sound(s) && r < |s.receivers| && (s.receivers[r].pc.Reading? || s.receivers[r].pc.Copying?)
    ensures var x := s.receivers[r];
            var id := if x.pc.Reading? then x.held else x.cursor + x.pc.k;
            && id == x.start + |x.got| < |s.log|
            && s.log[id].value.Some? && CellOf(s, id).value == s.log[id].value
  {
    SoundIsReachable(s);
    ReachableInv(s);
    ReceiverSteps.AboutReceiver(s, r);
    ReceiverSteps.WindowValue(s, r, s.receivers[r].start + |s.receivers[r].got|);
  }

  lemma CursorBelowMax(s: State, r: nat)
    requires Sound(s) && r < |s.receivers|
    ensures s.receivers[r].cursor <= |s.log| + 1 && s.receivers[r].cursor + 1 <= USIZE_MAX
    ensures s.receivers[r].pc.ReceiverIdle? ==> s.receivers[r].cursor <= |s.log|
    ensures s.receivers[r].pc.Moving? ==> s.receivers[r].pc.to < |s.log|
  {
    SoundIsReachable(s);
    ReachableInv(s);
    ReceiverSteps.AboutReceiver(s, r);
  }

  /** What a receiver returned last is the log just before its cursor. */
  lemma LastValues(s: State, r: nat, values: seq<Value>, earlier: seq<Value>)
    requires Sound(s) && r < |s.receivers| && s.receivers[r].pc.ReceiverIdle?
    requires s.receivers[r].got == earlier + values && |values| <= s.receivers[r].cursor
    ensures s.receivers[r].cursor <= |s.log|
    ensures forall j :: 0 <= j < |values| ==> s.log[s.receivers[r].cursor - |values| + j].value == Some(values[j])
  {
    var x := s.receivers[r];
    SoundIsReachable(s);
    ReachableInv(s);
    ReceiverSteps.AboutReceiver(s, r);
    forall j | 0 <= j < |values|
      ensures s.log[x.cursor - |values| + j].value == Some(values[j])
    {
      assert x.got[|earlier| + j] == values[j];
    }
  }

  /** A wait for an id, and what the thread did after it. */
  lemma WentOn(before: seq<Moment>, mid: seq<Moment>, now: seq<Moment>, w: Waiter, r: nat, seen: Option<nat>, k: nat)
    requires before <= mid <= now && w.ForId? && Checked(mid[|before|..], w, r, seen)
    requires |mid| - |before| <= k && (seen.None? ==> |mid| - |before| == k)
    requires forall i :: |mid| <= i < |now| ==> now[i].step == Continue(r)
    ensures var ms := now[|before|..];
            && CheckedUpTo(ms[..|mid| - |before|], w, r, if seen.Some? then Some(0) else None, k)
            && forall i :: |mid| - |before| <= i < |ms| ==> ms[i].step == Continue(r)
  {
    assert now[|before|..][..|mid| - |before|] == mid[|before|..];
  }

  class ReceiverHandle {
    const nexus: Nexus
    ghost const r: nat
    const cellWait: HybridWait
    var cursor: nat
    var previousCellIndex: nat

    constructor (nexus: Nexus, ghost r: nat, cellWait: HybridWait, cursor: nat, previousCellIndex: nat)
      ensures this.nexus == nexus && this.r == r && this.cellWait == cellWait
      ensures this.cursor == cursor && this.previousCellIndex == previousCellIndex
    {
      this.nexus, this.r, this.cellWait := nexus, r, cellWait;
      this.cursor, this.previousCellIndex := cursor, previousCellIndex;
    }

    ghost predicate Is(x: Receiver)
      reads this, nexus, nexus.buffer
    {
      nexus.Valid() && r < |nexus.receivers| && nexus.receivers[r] == x
    }

    /** No operation of this handle is under way, and its fields are those of the protocol. */
    ghost predicate Valid()
      reads this, nexus, nexus.buffer
    {
      && nexus.Valid() && r < |nexus.receivers|
      && nexus.receivers[r].pc.ReceiverIdle?
      && nexus.receivers[r].cursor == cursor && nexus.receivers[r].previous == previousCellIndex
    }

    ghost function Me(): Receiver
      reads nexus
      requires r < |nexus.receivers|
    {
      nexus.receivers[r]
    }

    /** The log is longer or the same, and nothing published in it has changed. */
    ghost predicate Later(s: State)
      reads nexus, nexus.buffer
    {
      Grows(s.log, nexus.log) && |s.cells| == nexus.buffer.Length
    }

    /** What this receiver has done so far. */
    ghost function Done(): seq<Moment>
      reads nexus
    {
      nexus.Trace(ReceiverThread(r))
    }

    /** It went on with what it was at, and did nothing else. */
    twostate predicate OnlyContinued()
      reads nexus
    {
      old(Done()) <= Done() && forall i :: |old(Done())| <= i < |Done()| ==> Done()[i].step == Continue(r)
    }

    /** It began with this step, and then went on. */
    twostate predicate StartedWith(first: Step)
      reads nexus, nexus.buffer
    {
      && |Done()| > |old(Done())| && old(Done()) <= Done()
      && Done()[|old(Done())|] == Moment(old(nexus.View()), first)
      && forall i :: |old(Done())| < i < |Done()| ==> Done()[i].step == Continue(r)
    }

    /** It looked for its next id in a wait of k checks, `checks` of them made, and went on if
        one of them saw it. */
    twostate predicate LookedFor(id: nat, seen: Option<nat>, checks: nat, k: nat)
      reads nexus
    {
      && nexus.buffer.Length > 0 && old(Done()) <= Done()
      && var ms := Done()[|old(Done())|..];
         && checks <= |ms| && CheckedUpTo(ms[..checks], ForId(Slot(id, nexus.buffer.Length), id), r, seen, k)
         && (seen.None? ==> |ms| == checks)
         && forall i :: checks <= i < |ms| ==> ms[i].step == Continue(r)
    }

    method Yield()
      requires nexus.Valid() && r < |nexus.receivers|
      modifies nexus, nexus.buffer
      ensures Is(old(Me())) && Later(old(nexus.View())) && Done() == old(Done())
    {
      nexus.Yield(ReceiverThread(r), {});
    }

    /** Cell::move_from on the previous cell: wake its listeners if this was its last reader. */
    method LeavePrevious(ghost to: nat, ghost mode: Mode)
      requires nexus.Valid() && r < |nexus.receivers| && Me().pc == OnBoth(to, mode)
      requires previousCellIndex == Me().previous
      modifies nexus, nexus.buffer
      ensures OnlyContinued()
      ensures Is(Arrived(old(Me()).(held := to), mode, nexus.buffer.Length)) && Later(old(nexus.View()))
    {
      CountedOnPrevious(nexus.View(), r);
      var wasLast := nexus.FetchSub(previousCellIndex, Continue(r));
      if wasLast {
        Yield();
        nexus.Silent(Continue(r));
      }
    }

    /** Count onto the cell of `to`, then leave the previous cell. */
    method HandOver(to: nat, ghost mode: Mode)
      requires nexus.Valid() && r < |nexus.receivers| && Me().pc == Moving(to, mode)
      requires previousCellIndex == Me().previous
      modifies nexus, nexus.buffer
      ensures OnlyContinued()
      ensures Is(Arrived(old(Me()).(held := to), mode, nexus.buffer.Length)) && Later(old(nexus.View()))
    {
      ghost var s := nexus.View();
      var i := nexus.CellIndex(to);
      nexus.MoveTo(i, Continue(r));
      Yield();
      ghost var s1 := nexus.View();
      LeavePrevious(to, mode);
      GrowsTransitive(s.log, s1.log, nexus.View().log);
    }

    /** The unchecked read at the end: there is a value, and it is the log's. */
    method ReadArrived(i: nat) returns (value: Option<Value>)
      requires nexus.Valid() && r < |nexus.receivers| && Me().pc.Reading? && i == Slot(Me().held, nexus.buffer.Length)
      modifies nexus, nexus.buffer
      ensures OnlyContinued()
      ensures value.Some? && Is(old(Me()).(got := old(Me()).got + [value.value], pc := ReceiverIdle))
      ensures Later(old(nexus.View()))
      ensures old(Me()).held < |nexus.log| && nexus.log[old(Me()).held].value == value
    {
      ghost var s := nexus.View();
      Yield();
      AboutReading(nexus.View(), r);
      value := nexus.ReadValue(i, Continue(r));
    }

    method YieldAndHandOver(to: nat, ghost mode: Mode)
      requires nexus.Valid() && r < |nexus.receivers| && Me().pc == Moving(to, mode)
      requires previousCellIndex == Me().previous
      modifies nexus, nexus.buffer
      ensures OnlyContinued()
      ensures Is(Arrived(old(Me()).(held := to), mode, nexus.buffer.Length)) && Later(old(nexus.View()))
    {
      ghost var s := nexus.View();
      Yield();
      ghost var s1 := nexus.View();
      HandOver(to, mode);
      GrowsTransitive(s.log, s1.log, nexus.View().log);
    }

    /** Hand over to the cell of the cursor, and step the cursor. */
    method MoveOn() returns (i: nat)
      requires nexus.Valid() && r < |nexus.receivers| && cursor + 1 <= USIZE_MAX
      requires Me().pc == Moving(cursor, Single) && Me().cursor == cursor && Me().previous == previousCellIndex
      modifies this, nexus, nexus.buffer
      ensures OnlyContinued()
      ensures i == previousCellIndex == Slot(old(cursor), nexus.buffer.Length) && cursor == old(cursor) + 1
      ensures Is(old(Me()).(held := old(cursor), previous := previousCellIndex, cursor := cursor, pc := Reading))
      ensures Later(old(nexus.View()))
    {
      i := nexus.CellIndex(cursor);
      ModUnique(cursor + 1, USIZE_MAX + 1, 0, cursor + 1);
      YieldAndHandOver(cursor, Single);
      previousCellIndex := i;
      cursor := WrappingAdd(cursor, 1);
    }

    /** What recv, try_recv, try_recv_until and poll_next do once they saw their id. */
    method Receive() returns (value: Option<Value>)
      requires nexus.Valid() && r < |nexus.receivers|
      requires Me().pc == Moving(cursor, Single) && Me().cursor == cursor && Me().previous == previousCellIndex
      modifies this, nexus, nexus.buffer
      ensures OnlyContinued()
      ensures Valid() && Later(old(nexus.View()))
      ensures cursor == old(cursor) + 1
      ensures value.Some? && Me().got == old(Me()).got + [value.value] && Me().start == old(Me()).start
      ensures old(cursor) < |nexus.log| && nexus.log[old(cursor)].value == value
    {
      ghost var s := nexus.View();
      CursorBelowMax(s, r);
      var i := MoveOn();
      ghost var s1 := nexus.View();
      value := ReadArrived(i);
      GrowsTransitive(s.log, s1.log, nexus.View().log);
    }

    /** The wait for the id at the cursor, which began at s, has come to `seen`. */
    ghost predicate HasWaited(seen: Option<nat>, s: State, before: seq<Moment>, k: nat)
      reads this, nexus, nexus.buffer
    {
      && r < |s.receivers| && r < |nexus.receivers| && nexus.Valid()
      && s.receivers[r].pc.ReceiverIdle? && s.receivers[r].cursor == cursor && s.receivers[r].previous == previousCellIndex
      && cellWait.Came(nexus, Start(s, before), ForId(Slot(cursor, nexus.buffer.Length), cursor), r, {}, seen)
      && |Done()| - |before| <= k && (seen.None? ==> |Done()| - |before| == k)
    }

    /** After the wait: receive, if the id was seen. */
    method TakeSeen(seen: Option<nat>, ghost s: State, ghost before: seq<Moment>, ghost k: nat) returns (value: Option<Value>)
      requires HasWaited(seen, s, before, k)
      modifies this, nexus, nexus.buffer
      ensures Valid() && Later(s)
      ensures seen.None? ==> value.None? && cursor == old(cursor) && Me() == s.receivers[r] && Done() == old(Done())
      ensures seen.Some? ==>
                && value.Some? && cursor == old(cursor) + 1 && Me().got == s.receivers[r].got + [value.value]
                && old(cursor) < |nexus.log| && nexus.log[old(cursor)].value == value
      ensures before <= Done() && |before| <= |old(Done())| <= |Done()|
      ensures var ms, w := Done()[|before|..], ForId(Slot(old(cursor), nexus.buffer.Length), old(cursor));
              && CheckedUpTo(ms[..|old(Done())| - |before|], w, r, if seen.Some? then Some(0) else None, k)
              && forall i :: |old(Done())| - |before| <= i < |ms| ==> ms[i].step == Continue(r)
    {
      ghost var s1, w := nexus.View(), ForId(Slot(cursor, nexus.buffer.Length), cursor);
      value := None;
      if seen.Some? {
        value := Receive();
        GrowsTransitive(s.log, s1.log, nexus.View().log);
      }
      WentOn(before, old(Done()), Done(), w, r, seen, k);
    }

    /** Receiver::recv; None is a call that is cut off after it parked `patience` times. The
        value is the log's at the cursor, and the cursor moves on by one. */
    method Recv(patience: nat) returns (value: Option<Value>, ghost checks: nat)
      requires Valid()
      modifies this, nexus, nexus.buffer
      ensures Valid() && Later(old(nexus.View()))
      ensures LookedFor(old(cursor), if value.Some? then Some(0) else None, checks, cellWait.Checks(patience))
      ensures value.Some? ==>
                && cursor == old(cursor) + 1 && Me().got == old(Me()).got + [value.value]
                && old(cursor) < |nexus.log| && nexus.log[old(cursor)].value == value
      ensures value.None? ==> cursor == old(cursor) && Me() == old(Me()) && !old(IsPublished(nexus.View(), cursor))
    {
      ghost var s, done := nexus.View(), Done();
      var i := nexus.CellIndex(cursor);
      var seen := cellWait.Wait(nexus, ForId(i, cursor), r, {}, patience);
      checks := |Done()| - |done|;
      value := TakeSeen(seen, s, done, cellWait.Checks(patience));
    }

    /** Receiver::try_recv_until; None is Timeout. Whatever was published at the call is
        received, also past the deadline. */
    method TryRecvUntil(looks: nat) returns (value: Option<Value>, ghost checks: nat)
      requires Valid()
      modifies this, nexus, nexus.buffer
      ensures Valid() && Later(old(nexus.View()))
      ensures LookedFor(old(cursor), if value.Some? then Some(0) else None, checks, cellWait.ChecksUntil(looks))
      ensures value.Some? ==>
                && cursor == old(cursor) + 1 && Me().got == old(Me()).got + [value.value]
                && old(cursor) < |nexus.log| && nexus.log[old(cursor)].value == value
      ensures value.None? ==> cursor == old(cursor) && Me() == old(Me()) && !old(IsPublished(nexus.View(), cursor))
    {
      ghost var s, done := nexus.View(), Done();
      var i := nexus.CellIndex(cursor);
      var seen := cellWait.WaitUntil(nexus, ForId(i, cursor), r, {}, looks);
      checks := |Done()| - |done|;
      value := TakeSeen(seen, s, done, cellWait.ChecksUntil(looks));
    }

    /** Receiver::try_recv. It finds the next id whenever it was published when it looked. */
    method TryRecv() returns (value: Option<Value>)
      requires Valid()
      modifies this, nexus, nexus.buffer
      ensures Valid() && Later(old(nexus.View()))
      ensures value.Some? <==> old(IsPublished(nexus.View(), cursor))
      ensures value.Some? ==>
                && cursor == old(cursor) + 1 && Me().got == old(Me()).got + [value.value]
                && nexus.log[old(cursor)].value == value
      ensures value.None? ==> cursor == old(cursor) && nexus.View() == old(nexus.View())
      ensures StartedWith(Look(r)) && (value.None? ==> |Done()| == |old(Done())| + 1)
    {
      SeenIfPublished(nexus.View(), r);
      var i := nexus.CellIndex(cursor);
      var id := nexus.LoadCurrentId(i, Look(r));
      if id != cursor {
        return None;
      }
      value := Receive();
    }

    /** Stream::poll_next: Ready of a value, never Ready(None); Pending only if the next id was
        not published at the call. */
    method PollNext(patience: nat) returns (ready: Option<Option<Value>>, ghost checks: nat)
      requires Valid()
      modifies this, nexus, nexus.buffer
      ensures Valid() && Later(old(nexus.View()))
      ensures LookedFor(old(cursor), if ready.Some? then Some(0) else None, checks, cellWait.TryChecks(patience))
      ensures ready != Some(None)
      ensures ready.Some? ==>
                && cursor == old(cursor) + 1 && Me().got == old(Me()).got + [ready.value.value]
                && old(cursor) < |nexus.log| && nexus.log[old(cursor)].value == ready.value
      ensures ready.None? ==> cursor == old(cursor) && Me() == old(Me()) && !old(IsPublished(nexus.View(), cursor))
    {
      ghost var s, done := nexus.View(), Done();
      var i := nexus.CellIndex(cursor);
      var seen := cellWait.Poll(nexus, ForId(i, cursor), r, {}, patience);
      checks := |Done()| - |done|;
      var value := TakeSeen(seen, s, done, cellWait.TryChecks(patience));
      ready := if seen.None? then None else Some(value);
    }

    // ---- try_recv_batch ----

    /** The ids from the cursor on, as far as they are published in s. */
    ghost predicate PublishedAhead(s: State, from: nat, count: nat) {
      from + count <= |s.log| && forall id :: from <= id < from + count ==> s.log[id].value.Some?
    }

    /** Load a cell's id in a step that makes this receiver y. */
    method LoadIdAs(i: nat, ghost y: Receiver) returns (id: nat)
      requires nexus.Valid() && r < |nexus.receivers| && i < nexus.buffer.Length
      requires Enabled(nexus.View(), Continue(r)) && Apply(nexus.View(), Continue(r)) == PutR(nexus.View(), r, y)
      modifies nexus`senders, nexus`receivers, nexus`log, nexus`token, nexus`history
      ensures OnlyContinued()
      ensures Is(y) && nexus.log == old(nexus.log) && id == nexus.buffer[i].currentId
    {
      id := nexus.LoadCurrentId(i, Continue(r));
    }

    /** One load of the id in the k-th cell ahead; a published id is always seen. */
    method LookAt(ghost x: Receiver, ghost limit: nat, k: nat) returns (seen: bool)
      requires Is(x.(pc := Scanning(limit, k))) && k < limit && x.cursor == cursor
      modifies nexus`senders, nexus`receivers, nexus`log, nexus`token, nexus`history
      ensures OnlyContinued()
      ensures Is(if seen then x.(pc := Copying(limit, k)) else BatchDone(x, k)) && nexus.log == old(nexus.log)
      ensures IsPublished(old(nexus.View()), cursor + k) ==> seen
    {
      var i := nexus.CellIndex(cursor + k);
      ghost var y := AboutScanning(nexus.View(), r, x, limit, k, i);
      var id := LoadIdAs(i, y);
      seen := id == cursor + k;
    }

    method LookAhead(ghost x: Receiver, ghost limit: nat, k: nat) returns (seen: bool)
      requires Is(x.(pc := Scanning(limit, k))) && k < limit && x.cursor == cursor
      modifies nexus, nexus.buffer
      ensures OnlyContinued()
      ensures Is(if seen then x.(pc := Copying(limit, k)) else BatchDone(x, k)) && Later(old(nexus.View()))
      ensures IsPublished(old(nexus.View()), cursor + k) ==> seen
    {
      seen := LookAt(x, limit, k);
      Yield();
    }

    ghost method EndScan(x: Receiver, limit: nat)
      requires Is(x.(pc := Scanning(limit, limit)))
      modifies nexus`senders, nexus`receivers, nexus`log, nexus`token, nexus`history
      ensures OnlyContinued()
      ensures Is(BatchDone(x, limit)) && nexus.log == old(nexus.log)
    {
      AboutScanEnd(nexus.View(), r, x, limit);
      nexus.Silent(Continue(r));
    }

    /** The unchecked read of the k-th cell ahead: there is a value. */
    method CopyFrom(ghost x: Receiver, ghost limit: nat, k: nat) returns (value: Option<Value>)
      requires Is(x.(pc := Copying(limit, k))) && x.cursor == cursor
      modifies nexus`senders, nexus`receivers, nexus`log, nexus`token, nexus`history
      ensures OnlyContinued()
      ensures value.Some? && Is(x.(got := x.got + [value.value], pc := Scanning(limit, k + 1)))
      ensures nexus.log == old(nexus.log)
    {
      var i := nexus.CellIndex(cursor + k);
      AboutCopying(nexus.View(), r, x, limit, k, i);
      value := nexus.ReadValue(i, Continue(r));
    }

    method CopyAhead(ghost x: Receiver, ghost limit: nat, k: nat) returns (value: Option<Value>)
      requires Is(x.(pc := Copying(limit, k))) && x.cursor == cursor
      modifies nexus, nexus.buffer
      ensures OnlyContinued()
      ensures value.Some? && Is(x.(got := x.got + [value.value], pc := Scanning(limit, k + 1))) && Later(old(nexus.View()))
    {
      value := CopyFrom(x, limit, k);
      Yield();
    }

    /** The k-th cell ahead: its value, if it shows its id. */
    method ReadOne(ghost x: Receiver, ghost limit: nat, k: nat) returns (value: Option<Value>)
      requires Is(x.(pc := Scanning(limit, k))) && k < limit && x.cursor == cursor
      modifies nexus, nexus.buffer
      ensures OnlyContinued()
      ensures value.Some? ==> Is(x.(got := x.got + [value.value], pc := Scanning(limit, k + 1)))
      ensures value.None? ==> Is(BatchDone(x, k)) && !IsPublished(old(nexus.View()), cursor + k)
      ensures Later(old(nexus.View()))
    {
      ghost var s := nexus.View();
      var seen := LookAhead(x, limit, k);
      if !seen {
        return None;
      }
      ghost var s1 := nexus.View();
      value := CopyAhead(x, limit, k);
      GrowsTransitive(s.log, s1.log, nexus.View().log);
    }

    /** The loop: read ahead while the cells show their ids. */
    method ReadAhead(ghost x: Receiver, limit: nat) returns (values: seq<Value>)
      requires Is(x.(pc := Scanning(limit, 0))) && x.cursor == cursor
      modifies nexus, nexus.buffer
      ensures OnlyContinued()
      ensures Is(BatchDone(x.(got := x.got + values), |values|)) && Later(old(nexus.View()))
      ensures |values| <= limit
      ensures |values| < limit ==> !PublishedAhead(old(nexus.View()), cursor, |values| + 1)
    {
      values := [];
      ghost var s := nexus.View();
      assert x.got + values == x.got;
      for numRead := 0 to limit
        invariant numRead == |values|
        invariant Is(x.(got := x.got + values, pc := Scanning(limit, numRead))) && Later(s) && OnlyContinued()
      {
        ghost var y, s1 := x.(got := x.got + values), nexus.View();
        var value := ReadOne(y, limit, numRead);
        GrowsTransitive(s.log, s1.log, nexus.View().log);
        if value.None? {
          return;
        }
        assert y.got + [value.value] == x.got + (values + [value.value]);
        values := values + [value.value];
      }
      EndScan(x.(got := x.got + values), limit);
    }

    /** The bound of a batch: max, but at most n - 1. */
    method StartBatchRead(max: nat) returns (limit: nat)
      requires Valid() && max > 0
      modifies nexus`senders, nexus`receivers, nexus`log, nexus`token, nexus`history
      ensures limit == if max < nexus.buffer.Length - 1 then max else nexus.buffer.Length - 1
      ensures Is(old(Me()).(pc := Scanning(limit, 0))) && nexus.log == old(nexus.log)
      ensures Done() == old(Done()) + [Moment(old(nexus.View()), BeginBatch(r, max))]
    {
      limit := if max < nexus.buffer.Length - 1 then max else nexus.buffer.Length - 1;
      nexus.Silent(BeginBatch(r, max));
    }

    /** The loop with its bound. */
    method ReadBatch(max: nat) returns (values: seq<Value>)
      requires Valid() && max > 0
      modifies nexus, nexus.buffer
      ensures StartedWith(BeginBatch(r, max))
      ensures Is(BatchDone(old(Me()).(got := old(Me()).got + values), |values|)) && Later(old(nexus.View()))
      ensures |values| <= max && |values| <= nexus.buffer.Length - 1
      ensures |values| < max && |values| < nexus.buffer.Length - 1 ==>
                !PublishedAhead(old(nexus.View()), cursor, |values| + 1)
    {
      ghost var x := Me();
      var limit := StartBatchRead(max);
      values := ReadAhead(x, limit);
    }

    /** Receiver::try_recv_batch: the values returned are the log from the cursor on, at most
        max and at most n - 1 of them, and no fewer than were published at the call. */
    method TryRecvBatch(max: nat) returns (values: seq<Value>)
      requires Valid()
      modifies this, nexus, nexus.buffer
      ensures if max == 0 then Done() == old(Done()) else StartedWith(BeginBatch(r, max))
      ensures Valid() && Later(old(nexus.View()))
      ensures |values| <= max && |values| <= nexus.buffer.Length - 1
      ensures cursor == old(cursor) + |values| <= |nexus.log|
      ensures forall j :: 0 <= j < |values| ==> nexus.log[old(cursor) + j].value == Some(values[j])
      ensures Me().got == old(Me()).got + values && Me().start == old(Me()).start
      ensures |values| < max && |values| < nexus.buffer.Length - 1 ==>
                !PublishedAhead(old(nexus.View()), old(cursor), |values| + 1)
    {
      ghost var s, x := nexus.View(), Me();
      if max == 0 {
        CursorBelowMax(s, r);
        return [];
      }
      values := ReadBatch(max);
      ghost var s1 := nexus.View();
      FinishBatch(x, values);
      GrowsTransitive(s.log, s1.log, nexus.View().log);
    }

    /** Move once, to the last cell that was read. */
    method FinishBatch(ghost x: Receiver, values: seq<Value>)
      requires Is(BatchDone(x.(got := x.got + values), |values|)) && x.cursor == cursor && x.previous == previousCellIndex
      modifies this, nexus, nexus.buffer
      ensures OnlyContinued()
      ensures Valid() && Later(old(nexus.View())) && cursor == old(cursor) + |values| <= |nexus.log|
      ensures Me().got == x.got + values && Me().start == x.start
      ensures forall j :: 0 <= j < |values| ==> nexus.log[old(cursor) + j].value == Some(values[j])
    {
      cursor := cursor + |values|;
      if |values| > 0 {
        YieldAndHandOver(cursor - 1, Batch);
        previousCellIndex := nexus.CellIndex(cursor - 1);
      }
      LastValues(nexus.View(), r, values, x.got);
    }

    // ---- Clone and Drop ----

    /** Receiver::clone: a new receiver at the same position, with nothing received yet. It is
        counted once on the previous cell and once in num_receivers, with only other threads
        in between, up to the state `between`. */
    method Clone() returns (child: ReceiverHandle, ghost between: State)
      requires Valid()
      modifies nexus, nexus.buffer
      ensures Valid() && Later(old(nexus.View())) && Me() == old(Me())
      ensures fresh(child) && child.Valid() && child.nexus == nexus && child.cellWait == cellWait
      ensures child.cursor == cursor && child.previousCellIndex == previousCellIndex
      ensures child.Me().start == cursor && child.Me().got == []
      ensures Done() == old(Done()) + [Moment(old(nexus.View()), BeginClone(r)), Moment(between, Continue(r))]
      ensures Enabled(between, Continue(r)) && nexus.View() == Apply(between, Continue(r))
      ensures child.r == |between.receivers| && child.r != r
      ensures nexus.numReceivers == between.numReceivers + 1 && nexus.receivers == between.receivers[r := Me()] + [child.Me()]
    {
      ghost var s := nexus.View();
      CountedOnPrevious(s, r);
      nexus.MoveTo(previousCellIndex, BeginClone(r));
      Yield();
      between := nexus.View();
      nexus.AddReceiver(Continue(r));
      child := new ReceiverHandle(nexus, |between.receivers|, cellWait, cursor, previousCellIndex);
    }

    /** Out of num_receivers. */
    method Unregister()
      requires Valid()
      modifies nexus, nexus.buffer
      ensures Is(old(Me()).(pc := Dropping)) && Later(old(nexus.View()))
      ensures Done() == old(Done()) + [Moment(old(nexus.View()), BeginDrop(r))]
    {
      nexus.SubReceiver(BeginDrop(r));
      Yield();
    }

    /** Off the cell, waking its listeners if this was its last reader. */
    method LeaveForGood()
      requires nexus.Valid() && r < |nexus.receivers| && Me().pc.Dropping? && Me().previous == previousCellIndex
      modifies nexus, nexus.buffer
      ensures OnlyContinued()
      ensures Is(old(Me()).(pc := Gone)) && Later(old(nexus.View()))
    {
      CountedOnPrevious(nexus.View(), r);
      var wasLast := nexus.FetchSub(previousCellIndex, Continue(r));
      if wasLast {
        Yield();
        nexus.Silent(Continue(r));
      }
    }

    /** Drop for Receiver: out of num_receivers first, then off its cell. */
    method Drop()
      requires Valid()
      modifies nexus, nexus.buffer
      ensures StartedWith(BeginDrop(r))
      ensures Is(old(Me()).(pc := Gone)) && Later(old(nexus.View()))
    {
      ghost var s := nexus.View();
      Unregister();
      ghost var s1 := nexus.View();
      LeaveForGood();
      GrowsTransitive(s.log, s1.log, nexus.View().log);
    }
  }
}
