/** The queue as a step machine: one function for each atomic operation that a sender or a
    receiver performs on the shared cells, the write head and the receiver count, with the
    thread-local work that follows it. Threads interleave at this granularity. */
module Protocol {
  import opened Prelude

  /** The payload. Nothing below looks inside it. */
  type Value(==, !new)

  /** What the write head holds while some sender has the token. */
  const TAKEN: nat := USIZE_MAX

  /** The id of a cell nothing was published to. */
  const UNPUBLISHED: nat := USIZE_MAX

  /** src/cell.rs: the shared part of a cell. */
  datatype Cell = Cell(value: Option<Value>, readCounter: nat, currentId: nat)

  datatype Op =
    | Send(value: Value)
    | TrySend(value: Value)
    | TrySendBefore(value: Value)
    | PollReady

  datatype SendResult =
    | NotCalled
    | Sent
    | Full(value: Value)
    | Timeout(value: Value)
    | Disconnected(unsent: Option<Value>)

  /** Where a sender stands: each constructor names the atomic operation it does next. */
  datatype SenderPc =
    | SenderIdle(result: SendResult)
    | Checking(op: Op)                  // load num_receivers before taking
    | Taking(op: Op)                    // swap the write head
    | Looking(op: Op, id: nat)          // first load of the target's read counter
    | Waiting(op: Op, id: nat)          // later loads of it, until zero
    | Pended(held: Option<nat>)         // a poll_ready returned without Ready; the next poll comes next
    | Polling(id: nat)                  // load num_receivers at a new poll that holds an id
    | Confirming(op: Op, id: nat)       // load num_receivers after an immediate zero
    | Restoring(op: Op, id: nat)        // store id + 1 in the write head
    | RollingBack(op: Op, id: nat)      // store id in the write head
    | NotifyingHead(op: Op, id: nat)    // wake one sender
    | Granted(id: nat)                  // poll_ready returned Ready; start_send comes next
    | Writing(value: Value, id: nat)    // replace the cell's value
    | Storing(value: Value, id: nat)    // store the cell's id
    | NotifyingCell(id: nat)            // wake the cell's listeners

  datatype Mode = Single | Batch

  datatype ReceiverPc =
    | ReceiverIdle
    | Moving(to: nat, mode: Mode)       // saw id `to`; count onto its cell
    | OnBoth(to: nat, mode: Mode)       // counted on both cells; leave the previous one
    | Leaving(mode: Mode)               // was the last on the previous cell; wake its listeners
    | Reading                           // clone the value of the cell just moved to
    | Scanning(max: nat, k: nat)        // load the id of the k-th cell of the batch
    | Copying(max: nat, k: nat)         // clone the value of the k-th cell of the batch
    | Cloning                           // counted the clone onto the cell; add to num_receivers
    | Dropping                          // subtracted from num_receivers; leave the cell
    | DropNotifying                     // was the last on the cell; wake its listeners
    | Gone

  /** A receiver handle. `cursor` and `previous` are its fields; `held` (the id whose cell
      it is counted on), `start` (its cursor when it was created) and `got` (every value it
      returned) are history. */
  datatype Receiver = Receiver(
    cursor: nat, previous: nat, held: nat, start: nat, got: seq<Value>, pc: ReceiverPc)

  /** History of one granted id: the sender it was granted to and, once published, the value. */
  datatype Entry = Entry(author: nat, value: Option<Value>)

  /** History: who has the write-head token. Abandoned: the holder returned without restoring. */
  datatype Token = Free | Held(holder: nat) | Abandoned

  /** `cells`, `writeHead` and `numReceivers` are the shared memory. `log` holds an entry
      per granted id, with a placeholder for id 0, so its length is the next id to grant. */
  datatype State = State(
    cells: seq<Cell>, writeHead: nat, numReceivers: nat,
    senders: seq<SenderPc>, receivers: seq<Receiver>,
    log: seq<Entry>, token: Token)

  datatype Step =
    | NewSender
    | Begin(t: nat, op: Op)
    | Advance(t: nat)
    | GiveUp(t: nat)                    // the deadline passed
    | Pend(t: nat)                      // poll_ready returns Pending
    | Repoll(t: nat)                    // the next poll begins
    | StartSend(t: nat, value: Value)
    | Look(r: nat)                      // load the id at the cursor: recv, try_recv, poll_next
    | BeginBatch(r: nat, max: nat)
    | BeginClone(r: nat)
    | BeginDrop(r: nat)
    | Continue(r: nat)

  /** src/lib.rs: the channel as make_channel_with leaves it, for a buffer of n cells. */
  function Init(n: nat): State
    requires n > 0
  {
    var empty := Cell(None, 0, UNPUBLISHED);
    State(seq(n, i => if i == 0 then empty.(readCounter := 1) else empty), 1, 1,
          [SenderIdle(NotCalled)], [Receiver(1, 0, 0, 1, [], ReceiverIdle)],
          [Entry(0, None)], Free)
  }

  function CellOf(s: State, id: nat): Cell
    requires |s.cells| > 0
  {
    s.cells[Slot(id, |s.cells|)]
  }

  function Put(s: State, t: nat, pc: SenderPc): State
    requires t < |s.senders|
  {
    s.(senders := s.senders[t := pc])
  }

  function PutR(s: State, r: nat, x: Receiver): State
    requires r < |s.receivers|
  {
    s.(receivers := s.receivers[r := x])
  }

  // ---- src/cell.rs: one cell ----

  function CountOn(cells: seq<Cell>, i: nat): seq<Cell> {
    if i < |cells| then cells[i := cells[i].(readCounter := cells[i].readCounter + 1)] else cells
  }

  /** fetch_sub wraps; that it never meets a zero is CountersExact's concern. */
  function WrappingDec(x: nat): nat {
    if x == 0 then USIZE_MAX else x - 1
  }

  function CountOff(cells: seq<Cell>, i: nat): seq<Cell> {
    if i < |cells| then cells[i := cells[i].(readCounter := WrappingDec(cells[i].readCounter))] else cells
  }

  /** Does leaving cell i take its counter to zero, so that its listeners are woken? */
  predicate LastOn(cells: seq<Cell>, i: nat) {
    i < |cells| && cells[i].readCounter == 1
  }

  // ---- src/sender.rs ----

  function FirstPc(op: Op): SenderPc {
    if op.TrySend? || op.PollReady? then Checking(op) else Taking(op)
  }

  function ValueOf(op: Op): Option<Value> {
    match op
    case PollReady => None
    case Send(v) => Some(v)
    case TrySend(v) => Some(v)
    case TrySendBefore(v) => Some(v)
  }

  /** The error a failed attempt reports. */
  function Refusal(op: Op): SendResult {
    match op
    case TrySend(v) => Full(v)
    case TrySendBefore(v) => Timeout(v)
    case Send(v) => Disconnected(Some(v))
    case PollReady => Disconnected(None)
  }

  function CheckReceivers(s: State, t: nat): State
    requires t < |s.senders| && s.senders[t].Checking?
  {
    var op := s.senders[t].op;
    Put(s, t, if s.numReceivers == 0 then SenderIdle(Disconnected(ValueOf(op))) else Taking(op))
  }

  function Take(s: State, t: nat): State
    requires t < |s.senders| && s.senders[t].Taking?
  {
    var op := s.senders[t].op;
    if s.writeHead == TAKEN then
      Put(s, t, if op.TrySend? then SenderIdle(Full(op.value)) else Taking(op))
    else
      var pc := if op.PollReady? then Waiting(op, s.writeHead) else Looking(op, s.writeHead);
      Put(s.(writeHead := TAKEN, token := Held(t)), t, pc)
  }

  function LookAtCounter(s: State, t: nat): State
    requires |s.cells| > 0 && t < |s.senders| && s.senders[t].Looking?
  {
    var Looking(op, id) := s.senders[t];
    if CellOf(s, id).readCounter == 0 then
      Put(s, t, if op.TrySend? then Restoring(op, id) else Confirming(op, id))
    else
      Put(s, t, if op.TrySend? then RollingBack(op, id) else Waiting(op, id))
  }

  function WaitForCounter(s: State, t: nat): State
    requires |s.cells| > 0 && t < |s.senders| && s.senders[t].Waiting?
  {
    var Waiting(op, id) := s.senders[t];
    if CellOf(s, id).readCounter == 0 then Put(s, t, Restoring(op, id)) else s
  }

  /** The Disconnected return of a poll that holds an id keeps the id, and the token with it. */
  function PollAgain(s: State, t: nat): State
    requires t < |s.senders| && s.senders[t].Polling?
  {
    var id := s.senders[t].id;
    Put(s, t, if s.numReceivers == 0 then Pended(Some(id)) else Waiting(PollReady, id))
  }

  /** The Disconnected return keeps the token. */
  function Confirm(s: State, t: nat): State
    requires t < |s.senders| && s.senders[t].Confirming?
  {
    var Confirming(op, id) := s.senders[t];
    if s.numReceivers == 0 then
      Put(s.(token := Abandoned), t, SenderIdle(Disconnected(ValueOf(op))))
    else
      Put(s, t, Restoring(op, id))
  }

  /** The token goes back, one id further, before the value is written. */
  function RestoreNext(s: State, t: nat): State
    requires t < |s.senders| && s.senders[t].Restoring?
  {
    var Restoring(op, id) := s.senders[t];
    Put(s.(writeHead := id + 1, token := Free, log := s.log + [Entry(t, None)]), t, NotifyingHead(op, id))
  }

  function RollBack(s: State, t: nat): State
    requires t < |s.senders| && s.senders[t].RollingBack?
  {
    var RollingBack(op, id) := s.senders[t];
    Put(s.(writeHead := id, token := Free), t, SenderIdle(Refusal(op)))
  }

  function NotifyHead(s: State, t: nat): State
    requires t < |s.senders| && s.senders[t].NotifyingHead?
  {
    var NotifyingHead(op, id) := s.senders[t];
    Put(s, t, if op.PollReady? then Granted(id) else Writing(op.value, id))
  }

  function Replace(s: State, t: nat): State
    requires |s.cells| > 0 && t < |s.senders| && s.senders[t].Writing?
  {
    var Writing(v, id) := s.senders[t];
    var i := Slot(id, |s.cells|);
    Put(s.(cells := s.cells[i := s.cells[i].(value := Some(v))]), t, Storing(v, id))
  }

  function StoreId(s: State, t: nat): State
    requires |s.cells| > 0 && t < |s.senders| && s.senders[t].Storing?
  {
    var Storing(v, id) := s.senders[t];
    var i := Slot(id, |s.cells|);
    var log := if id < |s.log| then s.log[id := s.log[id].(value := Some(v))] else s.log;
    Put(s.(cells := s.cells[i := s.cells[i].(currentId := id)], log := log), t, NotifyingCell(id))
  }

  function AdvanceSender(s: State, t: nat): State
    requires Enabled(s, Advance(t))
  {
    match s.senders[t]
    case Checking(_) => CheckReceivers(s, t)
    case Taking(_) => Take(s, t)
    case Looking(_, _) => LookAtCounter(s, t)
    case Waiting(_, _) => WaitForCounter(s, t)
    case Polling(_) => PollAgain(s, t)
    case Confirming(_, _) => Confirm(s, t)
    case Restoring(_, _) => RestoreNext(s, t)
    case RollingBack(_, _) => RollBack(s, t)
    case NotifyingHead(_, _) => NotifyHead(s, t)
    case Writing(_, _) => Replace(s, t)
    case Storing(_, _) => StoreId(s, t)
    case NotifyingCell(_) => Put(s, t, SenderIdle(Sent))
  }

  // ---- src/receiver.rs ----

  function LookForNext(s: State, r: nat): State
    requires |s.cells| > 0 && r < |s.receivers|
  {
    var x := s.receivers[r];
    if CellOf(s, x.cursor).currentId == x.cursor then PutR(s, r, x.(pc := Moving(x.cursor, Single))) else s
  }

  function MoveTo(s: State, r: nat): State
    requires |s.cells| > 0 && r < |s.receivers| && s.receivers[r].pc.Moving?
  {
    var x := s.receivers[r];
    PutR(s.(cells := CountOn(s.cells, Slot(x.pc.to, |s.cells|))), r, x.(pc := OnBoth(x.pc.to, x.pc.mode)))
  }

  /** The local work after the previous cell was left. */
  function Arrived(x: Receiver, mode: Mode, n: nat): Receiver
    requires n > 0
  {
    if mode.Single? then
      x.(previous := Slot(x.held, n), cursor := x.cursor + 1, pc := Reading)
    else
      x.(previous := Slot(x.held, n), pc := ReceiverIdle)
  }

  function MoveFrom(s: State, r: nat): State
    requires |s.cells| > 0 && r < |s.receivers| && s.receivers[r].pc.OnBoth?
  {
    var x := s.receivers[r];
    var mode := x.pc.mode;
    var y := x.(held := x.pc.to);
    PutR(s.(cells := CountOff(s.cells, x.previous)), r,
         if LastOn(s.cells, x.previous) then y.(pc := Leaving(mode)) else Arrived(y, mode, |s.cells|))
  }

  function NotifyLeft(s: State, r: nat): State
    requires |s.cells| > 0 && r < |s.receivers| && s.receivers[r].pc.Leaving?
  {
    PutR(s, r, Arrived(s.receivers[r], s.receivers[r].pc.mode, |s.cells|))
  }

  /** `read` unwraps without a check; UnwrapIsJustified shows the None branch is never taken. */
  function Unwrapped(v: Option<Value>): seq<Value> {
    match v
    case Some(x) => [x]
    case None => []
  }

  function Read(s: State, r: nat): State
    requires |s.cells| > 0 && r < |s.receivers| && s.receivers[r].pc.Reading?
  {
    var x := s.receivers[r];
    PutR(s, r, x.(got := x.got + Unwrapped(CellOf(s, x.held).value), pc := ReceiverIdle))
  }

  function StartBatch(s: State, r: nat, max: nat): State
    requires |s.cells| > 0 && r < |s.receivers|
  {
    var x := s.receivers[r];
    var limit := if max < |s.cells| - 1 then max else |s.cells| - 1;
    if max == 0 then s else PutR(s, r, x.(pc := Scanning(limit, 0)))
  }

  function Scan(s: State, r: nat): State
    requires |s.cells| > 0 && r < |s.receivers| && s.receivers[r].pc.Scanning?
  {
    var x := s.receivers[r];
    var Scanning(max, k) := x.pc;
    if k < max && CellOf(s, x.cursor + k).currentId == x.cursor + k then
      PutR(s, r, x.(pc := Copying(max, k)))
    else if k == 0 then
      PutR(s, r, x.(pc := ReceiverIdle))
    else
      PutR(s, r, x.(cursor := x.cursor + k, pc := Moving(x.cursor + k - 1, Batch)))
  }

  function Copy(s: State, r: nat): State
    requires |s.cells| > 0 && r < |s.receivers| && s.receivers[r].pc.Copying?
  {
    var x := s.receivers[r];
    var Copying(max, k) := x.pc;
    PutR(s, r, x.(got := x.got + Unwrapped(CellOf(s, x.cursor + k).value), pc := Scanning(max, k + 1)))
  }

  function CountClone(s: State, r: nat): State
    requires r < |s.receivers|
  {
    var x := s.receivers[r];
    PutR(s.(cells := CountOn(s.cells, x.previous)), r, x.(pc := Cloning))
  }

  function FinishClone(s: State, r: nat): State
    requires r < |s.receivers| && s.receivers[r].pc.Cloning?
  {
    var x := s.receivers[r].(pc := ReceiverIdle);
    s.(numReceivers := s.numReceivers + 1,
       receivers := s.receivers[r := x] + [x.(start := x.cursor, got := [])])
  }

  function StartDrop(s: State, r: nat): State
    requires r < |s.receivers|
  {
    PutR(s.(numReceivers := WrappingDec(s.numReceivers)), r, s.receivers[r].(pc := Dropping))
  }

  function DropLeave(s: State, r: nat): State
    requires r < |s.receivers| && s.receivers[r].pc.Dropping?
  {
    var x := s.receivers[r];
    PutR(s.(cells := CountOff(s.cells, x.previous)), r,
         x.(pc := if LastOn(s.cells, x.previous) then DropNotifying else Gone))
  }

  function ContinueReceiver(s: State, r: nat): State
    requires Enabled(s, Continue(r))
  {
    match s.receivers[r].pc
    case Moving(_, _) => MoveTo(s, r)
    case OnBoth(_, _) => MoveFrom(s, r)
    case Leaving(_) => NotifyLeft(s, r)
    case Reading => Read(s, r)
    case Scanning(_, _) => Scan(s, r)
    case Copying(_, _) => Copy(s, r)
    case Cloning => FinishClone(s, r)
    case Dropping => DropLeave(s, r)
    case DropNotifying => PutR(s, r, s.receivers[r].(pc := Gone))
  }

  // ---- steps and runs ----

  predicate Enabled(s: State, step: Step) {
    |s.cells| > 0 &&
    match step
    case NewSender => true
    case Begin(t, _) => t < |s.senders| && s.senders[t].SenderIdle?
    case Advance(t) =>
      && t < |s.senders| && !s.senders[t].SenderIdle? && !s.senders[t].Granted? && !s.senders[t].Pended?
      && (s.senders[t].Restoring? ==> s.senders[t].id + 1 < TAKEN)  // fewer ids than usize::MAX
    case GiveUp(t) =>
      t < |s.senders| && (s.senders[t].Taking? || s.senders[t].Waiting?) && s.senders[t].op.TrySendBefore?
    case Pend(t) =>
      t < |s.senders| && (s.senders[t].Taking? || s.senders[t].Waiting?) && s.senders[t].op.PollReady?
    case Repoll(t) => t < |s.senders| && s.senders[t].Pended?
    case StartSend(t, _) => t < |s.senders| && s.senders[t].Granted?
    case Look(r) => r < |s.receivers| && s.receivers[r].pc.ReceiverIdle?
    case BeginBatch(r, _) => r < |s.receivers| && s.receivers[r].pc.ReceiverIdle?
    case BeginClone(r) => r < |s.receivers| && s.receivers[r].pc.ReceiverIdle?
    case BeginDrop(r) => r < |s.receivers| && s.receivers[r].pc.ReceiverIdle?
    case Continue(r) => r < |s.receivers| && !s.receivers[r].pc.ReceiverIdle? && !s.receivers[r].pc.Gone?
  }

  function Apply(s: State, step: Step): State
    requires Enabled(s, step)
  {
    match step
    case NewSender => s.(senders := s.senders + [SenderIdle(NotCalled)])
    case Begin(t, op) => Put(s, t, FirstPc(op))
    case Advance(t) => AdvanceSender(s, t)
    case GiveUp(t) =>
      var op := s.senders[t].op;
      Put(s, t, if s.senders[t].Taking? then SenderIdle(Refusal(op)) else RollingBack(op, s.senders[t].id))
    case Pend(t) => Put(s, t, Pended(if s.senders[t].Taking? then None else Some(s.senders[t].id)))
    case Repoll(t) =>
      Put(s, t, if s.senders[t].held.None? then Checking(PollReady) else Polling(s.senders[t].held.value))
    case StartSend(t, v) => Put(s, t, Writing(v, s.senders[t].id))
    case Look(r) => LookForNext(s, r)
    case BeginBatch(r, max) => StartBatch(s, r, max)
    case BeginClone(r) => CountClone(s, r)
    case BeginDrop(r) => StartDrop(s, r)
    case Continue(r) => ContinueReceiver(s, r)
  }

  /** Every step of the run is enabled where it happens. */
  predicate Legal(s: State, steps: seq<Step>)
    decreases |steps|
  {
    steps == [] || (Enabled(s, steps[0]) && Legal(Apply(s, steps[0]), steps[1..]))
  }

  function Execute(s: State, steps: seq<Step>): State
    requires Legal(s, steps)
    decreases |steps|
  {
    if steps == [] then s else Execute(Apply(s, steps[0]), steps[1..])
  }

  lemma {:induction false} ExecuteConcat(s: State, a: seq<Step>, b: seq<Step>)
    requires Legal(s, a) && Legal(Execute(s, a), b)
    ensures Legal(s, a + b) && Execute(s, a + b) == Execute(Execute(s, a), b)
    decreases |a|
  {
    if a == [] {
      assert a + b == b;
    } else {
      assert (a + b)[1..] == a[1..] + b;
      ExecuteConcat(Apply(s, a[0]), a[1..], b);
    }
  }
}
