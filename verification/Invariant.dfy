/** The global invariant: the sliding window that ties the write head, every cursor, every
    read counter and every published id together. */
module Invariant {
  import opened Prelude
  import opened Protocol
  import opened Sums

  // ---- who holds what ----

  /** The id a sender took with the token and has not put back. */
  function TokenId(pc: SenderPc): Option<nat> {
    match pc
    case Looking(_, id) => Some(id)
    case Waiting(_, id) => Some(id)
    case Pended(held) => held
    case Polling(id) => Some(id)
    case Confirming(_, id) => Some(id)
    case Restoring(_, id) => Some(id)
    case RollingBack(_, id) => Some(id)
    case _ => None
  }

  /** The granted id a sender has not published yet. */
  function FlightId(pc: SenderPc): Option<nat> {
    match pc
    case NotifyingHead(_, id) => Some(id)
    case Granted(id) => Some(id)
    case Writing(_, id) => Some(id)
    case Storing(_, id) => Some(id)
    case _ => None
  }

  /** The sender saw a zero counter on the cell of its id. */
  predicate SawSafe(pc: SenderPc) {
    pc.Confirming? || pc.Restoring?
  }

  /** The receiver is still counted on a cell. */
  predicate Live(x: Receiver) {
    !x.pc.DropNotifying? && !x.pc.Gone?
  }

  ghost predicate HasReceiver(s: State) {
    exists r :: 0 <= r < |s.receivers| && Live(s.receivers[r])
  }

  // ---- counting ----

  function Bit(b: bool): nat {
    if b then 1 else 0
  }

  /** How often a receiver is counted on cell i. */
  function Units(x: Receiver, i: nat, n: nat): nat
    requires n > 0
  {
    if !Live(x) then 0
    else
      Bit(Slot(x.held, n) == i)
      + (if x.pc.OnBoth? then Bit(Slot(x.pc.to, n) == i) else 0)
      + (if x.pc.Cloning? then Bit(Slot(x.held, n) == i) else 0)
  }

  function UnitsOn(i: nat, n: nat): Receiver -> nat
    requires n > 0
  {
    x => Units(x, i, n)
  }

  /** Is the receiver in num_receivers? A dropped one leaves it before it leaves its cell. */
  function Registered(x: Receiver): nat {
    Bit(Live(x) && !x.pc.Dropping?)
  }

  // ---- the parts of the invariant ----

  ghost predicate Shape(s: State) {
    && |s.cells| >= 1
    && 1 <= |s.log| < TAKEN
    && s.log[0].value.None?
  }

  /** One token: in the write head, with exactly one sender, or abandoned for good. The id
      that goes with it is the next one to grant. */
  ghost predicate TokenInv(s: State) {
    && (s.token.Free? <==> s.writeHead != TAKEN)
    && (s.token.Free? ==> s.writeHead == |s.log|)
    && (s.token.Held? ==> s.token.holder < |s.senders|)
    && (forall t :: 0 <= t < |s.senders| ==> (TokenId(s.senders[t]).Some? <==> s.token == Held(t)))
    && (forall t :: 0 <= t < |s.senders| && TokenId(s.senders[t]).Some? ==> TokenId(s.senders[t]).value == |s.log|)
  }

  /** The operation of a sender fits where it stands. */
  predicate OpFits(pc: SenderPc) {
    match pc
    case Checking(op) => op.TrySend? || op.PollReady?
    case Looking(op, _) => !op.PollReady?
    case Waiting(op, _) => !op.TrySend?
    case Confirming(op, _) => op.Send? || op.TrySendBefore?
    case RollingBack(op, _) => op.TrySend? || op.TrySendBefore?
    case _ => true
  }

  ghost predicate OpsInv(s: State) {
    forall t :: 0 <= t < |s.senders| ==> OpFits(s.senders[t])
  }

  /** A granted id without a published value is in flight with exactly the sender it was
      granted to. */
  ghost predicate FlightInv(s: State) {
    && (forall t :: 0 <= t < |s.senders| && FlightId(s.senders[t]).Some? ==>
          var id := FlightId(s.senders[t]).value;
          1 <= id < |s.log| && s.log[id] == Entry(t, None))
    && (forall id :: 1 <= id < |s.log| && s.log[id].value.None? ==>
          s.log[id].author < |s.senders| && FlightId(s.senders[s.log[id].author]) == Some(id))
  }

  /** A cell's id is one that was published to that cell. */
  ghost predicate CellIdsInv(s: State)
    requires Shape(s)
  {
    forall i :: 0 <= i < |s.cells| ==>
      var id := s.cells[i].currentId;
      id == UNPUBLISHED || (1 <= id < |s.log| && Slot(id, |s.cells|) == i && s.log[id].value.Some?)
  }

  ghost predicate CountersInv(s: State)
    requires Shape(s)
  {
    && (forall i :: 0 <= i < |s.cells| ==> s.cells[i].readCounter == Sum(s.receivers, UnitsOn(i, |s.cells|)))
    && s.numReceivers == Sum(s.receivers, Registered)
  }

  /** The last id a receiver knows to be published. */
  function Reach(x: Receiver): nat {
    match x.pc
    case Moving(to, _) => to
    case OnBoth(to, _) => to
    case Scanning(_, k) => x.held + k
    case Copying(_, k) => x.held + k + 1
    case _ => x.held
  }

  ghost predicate AllPublished(log: seq<Entry>, last: nat) {
    last < |log| && forall id :: 1 <= id <= last ==> log[id].value.Some?
  }

  /** The receiver's own fields agree with the id it is counted on. */
  predicate FieldsFit(x: Receiver, n: nat)
    requires n > 0
  {
    match x.pc
    case Moving(to, mode) => x.held < to && x.previous == Slot(x.held, n)
                             && (if mode.Single? then to == x.held + 1 == x.cursor else to + 1 == x.cursor && to < x.held + n)
    case OnBoth(to, mode) => x.held < to && x.previous == Slot(x.held, n)
                             && (if mode.Single? then to == x.held + 1 == x.cursor else to + 1 == x.cursor && to < x.held + n)
    case Leaving(mode) => x.previous < n && x.cursor == (if mode.Single? then x.held else x.held + 1)
    case Scanning(max, k) => k <= max < n && x.previous == Slot(x.held, n) && x.cursor == x.held + 1
    case Copying(max, k) => k < max < n && x.previous == Slot(x.held, n) && x.cursor == x.held + 1
    case Gone => true
    case _ => x.previous == Slot(x.held, n) && x.cursor == x.held + 1
  }

  /** The window: a live receiver is counted on one of the last n granted ids, and
      everything up to there was published. */
  ghost predicate InWindow(x: Receiver, log: seq<Entry>, n: nat) {
    Live(x) ==> x.held < |log| <= x.held + n && AllPublished(log, Reach(x))
  }

  /** The first id a receiver has not returned to its owner. */
  function DeliveredTo(x: Receiver): int {
    match x.pc
    case Reading => x.cursor - 1
    case Scanning(_, k) => x.cursor + k
    case Copying(_, k) => x.cursor + k
    case _ => x.cursor
  }

  /** What a receiver returned is the log from its start, without gaps or repeats. */
  ghost predicate Delivered(x: Receiver, log: seq<Entry>) {
    && x.start >= 1
    && x.start + |x.got| == DeliveredTo(x) <= |log|
    && forall j :: 0 <= j < |x.got| ==> log[x.start + j].value == Some(x.got[j])
  }

  /** What holds of each receiver. */
  ghost predicate Fits(x: Receiver, log: seq<Entry>, n: nat)
    requires n > 0
  {
    FieldsFit(x, n) && InWindow(x, log, n) && Delivered(x, log)
  }

  ghost predicate ReceiversInv(s: State)
    requires Shape(s)
  {
    forall r :: 0 <= r < |s.receivers| ==> Fits(s.receivers[r], s.log, |s.cells|)
  }

  /** After a sender saw zero, no receiver is or can come back on its cell's old id. */
  ghost predicate SafeInv(s: State) {
    forall t, r :: 0 <= t < |s.senders| && 0 <= r < |s.receivers| && SawSafe(s.senders[t]) && Live(s.receivers[r]) ==>
      |s.log| < s.receivers[r].held + |s.cells|
  }

  /** The last n granted ids, as far as published, are in their cells with their values, and
      a value that was put in a cell stays there until its id is stored. */
  ghost predicate ContentsInv(s: State)
    requires Shape(s)
  {
    && (forall id :: 1 <= id < |s.log| <= id + |s.cells| && s.log[id].value.Some? ==>
          CellOf(s, id).currentId == id && CellOf(s, id).value == s.log[id].value)
    && (forall t :: 0 <= t < |s.senders| && s.senders[t].Storing? ==>
          CellOf(s, s.senders[t].id).value == Some(s.senders[t].value))
  }

  ghost predicate Inv(s: State) {
    && Shape(s)
    && TokenInv(s) && OpsInv(s) && FlightInv(s)
    && CellIdsInv(s) && CountersInv(s)
    && ReceiversInv(s) && SafeInv(s)
    && (HasReceiver(s) ==> ContentsInv(s))
  }

  /** The log only grows, and a published value never changes. */
  ghost predicate Grows(log: seq<Entry>, log': seq<Entry>) {
    && |log| <= |log'|
    && forall id :: 0 <= id < |log| ==>
         log'[id].author == log[id].author && (log[id].value.Some? ==> log'[id] == log[id])
  }

  lemma GrowsTransitive(a: seq<Entry>, b: seq<Entry>, c: seq<Entry>)
    requires Grows(a, b) && Grows(b, c)
    ensures Grows(a, c)
  {
    forall id | 0 <= id < |a|
      ensures c[id].author == a[id].author && (a[id].value.Some? ==> c[id] == a[id])
    {
      assert b[id].author == a[id].author;
    }
  }

  /** A receiver does not notice the log growing, as long as the window still covers it. */
  lemma LogGrowthKeepsReceiver(x: Receiver, log: seq<Entry>, log': seq<Entry>, n: nat)
    requires n > 0 && Grows(log, log') && (Live(x) ==> |log'| <= x.held + n)
    requires InWindow(x, log, n) && Delivered(x, log)
    ensures InWindow(x, log', n) && Delivered(x, log')
  {
  }

  lemma InitInv(n: nat)
    requires n > 0
    ensures Inv(Init(n))
  {
    var s := Init(n);
    forall i | 0 <= i < n
      ensures s.cells[i].readCounter == Sum(s.receivers, UnitsOn(i, n))
    {
      assert Sum(s.receivers, UnitsOn(i, n)) == UnitsOn(i, n)(s.receivers[0]) + Sum(s.receivers[1..], UnitsOn(i, n));
    }
    assert Sum(s.receivers, Registered) == Registered(s.receivers[0]) + Sum(s.receivers[1..], Registered);
  }
}
