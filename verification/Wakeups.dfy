/** Sleeping and waking (src/wait_strategy/block.rs, hybrid.rs) on top of the protocol: every
    cell has an event for its two conditions and the write head has one. A waiter spins,
    registers as a listener, checks again, parks, and checks after it was notified. A poll does
    the same, but where a thread would park it returns Pending and keeps its listener. A
    poll_ready keeps it for the next poll_ready. A poll_next keeps it in the receiver, where it
    stays whatever the receiver does next, until a poll_next succeeds or finds it notified; so
    it may be on the cell of an id that is long received. */
module Wakeups {
  import opened Prelude
  import opened Protocol
  import opened Invariant
  import opened Safety
  import ReceiverSteps

  /** A thread's standing with the event of the condition it waits for. */
  datatype Sleep =
    | Awake                       // spinning, yielding or not waiting at all
    | Listening(notified: bool)   // registered, about to check
    | Parked(notified: bool)      // registered, runs again only when notified
    | Woken                       // used up its notification, about to check
    | InPoll                      // in poll_next, with a listener, about to check
    | Dozing                      // poll_next found its listener not notified, and returned Pending

  /** A receiver's current_event: the cell it is registered on, and the id that it was
      registered for. */
  datatype Guard = Guard(cell: nat, id: nat, notified: bool)

  datatype Event = Head | OfCell(i: nat)

  datatype WState = WState(s: State, ss: seq<Sleep>, rs: seq<Sleep>, gs: seq<Option<Guard>>)

  datatype WStep =
    | Do(step: Step)
    | Listen(th: Thread)
    | Wake(th: Thread)
    | Recheck(t: nat)             // a poll_ready checks again with the listener it has
    | StopWaiting(r: nat)         // try_recv_until ran into its deadline
    | PollListen(r: nat)          // poll_next takes its listener, or registers one
    | PollWakes(r: nat)           // poll_next finds its listener notified, and uses it up
    | NextCall(r: nat)            // after Pending, the receiver is used again
    | DropSender(t: nat)          // a sender is dropped, with the listener of its last poll

  predicate Registered(z: Sleep) {
    z.Listening? || z.Parked?
  }

  predicate Notified(z: Sleep) {
    Registered(z) && z.notified
  }

  predicate Asleep(z: Sleep) {
    z == Parked(false)
  }

  function Raise(z: Sleep): Sleep {
    match z
    case Listening(_) => Listening(true)
    case Parked(_) => Parked(true)
    case _ => z
  }

  predicate MayRaise(z: Sleep, z': Sleep) {
    z' == z || z' == Raise(z)
  }

  function RaiseGuard(g: Option<Guard>): Option<Guard> {
    match g
    case Some(x) => Some(x.(notified := true))
    case None => None
  }

  predicate MayRaiseGuard(g: Option<Guard>, g': Option<Guard>) {
    g' == g || g' == RaiseGuard(g)
  }

  /** The event a sender listens to, if it does: in a waiting loop, between two polls, or with
      the listener that a poll kept when it returned Disconnected. try_send never waits. */
  function SenderEvent(s: State, t: nat): Option<Event>
    requires |s.cells| > 0 && t < |s.senders|
  {
    match s.senders[t]
    case SenderIdle(result) => if result == Disconnected(None) then Some(Head) else None
    case Checking(op) => if op.PollReady? then Some(Head) else None
    case Taking(op) => if op.TrySend? then None else Some(Head)
    case Pended(held) => if held.None? then Some(Head) else Some(OfCell(Slot(held.value, |s.cells|)))
    case Polling(id) => Some(OfCell(Slot(id, |s.cells|)))
    case Waiting(_, id) => Some(OfCell(Slot(id, |s.cells|)))
    case _ => None
  }

  /** The event of recv and try_recv_until, which bring their own listener. */
  function ReceiverEvent(s: State, r: nat): Option<Event>
    requires |s.cells| > 0 && r < |s.receivers|
  {
    if s.receivers[r].pc.ReceiverIdle? then Some(OfCell(Slot(s.receivers[r].cursor, |s.cells|))) else None
  }

  /** The cell whose listeners the step wakes. */
  function WakesCell(s: State, step: Step): Option<nat>
    requires Enabled(s, step)
  {
    match step
    case Advance(t) => if s.senders[t].NotifyingCell? then Some(Slot(s.senders[t].id, |s.cells|)) else None
    case Continue(r) =>
      if s.receivers[r].pc.Leaving? || s.receivers[r].pc.DropNotifying? then Some(s.receivers[r].previous) else None
    case _ => None
  }

  /** A check that fails parks a registered thread, and ends a poll; one that succeeds drops
      the listener. */
  function AfterOwnStep(z: Sleep, stays: bool): Sleep {
    if stays && z.Listening? then Parked(z.notified)
    else if stays && z.InPoll? then Dozing
    else Awake
  }

  /** The steps of poll_ready that leave its listener alone: Pending, the next poll, and the
      load of num_receivers, whatever it finds. */
  predicate KeepsListener(s: State, step: Step) {
    match step
    case Begin(_, op) => op.PollReady?
    case Pend(_) => true
    case Repoll(_) => true
    case Advance(t) =>
      t < |s.senders| && ((s.senders[t].Checking? && s.senders[t].op.PollReady?) || s.senders[t].Polling?)
    case _ => false
  }

  function AfterSenderStep(z: Sleep, s: State, step: Step, pc': SenderPc): Sleep
    requires Enabled(s, step) && Actor(step).SenderThread?
  {
    if step.Repoll? && z.Parked? then Listening(z.notified)
    else if KeepsListener(s, step) then z
    else AfterOwnStep(z, pc' == s.senders[Actor(step).t])
  }

  function WokenBy(z: Sleep, ev: Option<Event>, wakes: Option<nat>): Sleep {
    if wakes.Some? && ev == Some(OfCell(wakes.value)) then Raise(z) else z
  }

  /** A sender's standing right after a step, before any further notification. */
  function SenderAfter(w: WState, step: Step, t: nat): Sleep
    requires Enabled(w.s, step) && t < |Apply(w.s, step).senders| && |w.ss| == |w.s.senders|
    requires |Apply(w.s, step).cells| > 0
  {
    var s' := Apply(w.s, step);
    var z :=
      if t >= |w.ss| then Awake
      else if Actor(step) == SenderThread(t) then AfterSenderStep(w.ss[t], w.s, step, s'.senders[t])
      else w.ss[t];
    WokenBy(z, SenderEvent(s', t), WakesCell(w.s, step))
  }

  function ReceiverAfter(w: WState, step: Step, r: nat): Sleep
    requires Enabled(w.s, step) && r < |Apply(w.s, step).receivers| && |w.rs| == |w.s.receivers|
    requires |Apply(w.s, step).cells| > 0
  {
    var s' := Apply(w.s, step);
    var z :=
      if r >= |w.rs| then Awake
      else if Actor(step) == ReceiverThread(r) then AfterOwnStep(w.rs[r], s'.receivers[r] == w.s.receivers[r])
      else w.rs[r];
    WokenBy(z, ReceiverEvent(s', r), WakesCell(w.s, step))
  }

  /** A receiver's guard after a step: a poll that sees its id drops it. The first check of a
      poll looks like that of a try_recv, which keeps it. */
  ghost predicate GuardAfter(w: WState, step: Step, r: nat, g: Option<Guard>)
    requires Enabled(w.s, step) && r < |Apply(w.s, step).receivers|
    requires |w.gs| == |w.s.receivers| && |w.rs| == |w.s.receivers|
  {
    var seen := step == Look(r) && r < |w.rs| && Apply(w.s, step).receivers[r] != w.s.receivers[r];
    if r >= |w.gs| || (seen && w.rs[r].InPoll?) then g == None
    else
      || (seen && w.rs[r].Awake? && g == None)
      || (if w.gs[r].Some? && WakesCell(w.s, step) == Some(w.gs[r].value.cell) then g == RaiseGuard(w.gs[r])
          else MayRaiseGuard(w.gs[r], g))
  }

  ghost predicate OnHead(w: WState, t: int) {
    0 <= t < |w.ss| && t < |w.s.senders| && |w.s.cells| > 0 && SenderEvent(w.s, t) == Some(Head)
  }

  /** notify(1): afterwards at least one of the head's listeners is notified, if it has any. */
  ghost predicate HeadServed(w: WState) {
    (exists t :: OnHead(w, t) && Registered(w.ss[t])) ==> (exists t :: OnHead(w, t) && Notified(w.ss[t]))
  }

  /** notify_one itself, and a notified listener that is dropped and passes it on. */
  ghost predicate MustServeHead(w: WState, step: Step)
    requires Enabled(w.s, step)
  {
    || (step.Advance? && w.s.senders[step.t].NotifyingHead?)
    || (Actor(step).SenderThread? && OnHead(w, Actor(step).t) && Notified(w.ss[Actor(step).t])
        && !KeepsListener(w.s, step)
        && Apply(w.s, step).senders[Actor(step).t] != w.s.senders[Actor(step).t])
  }

  /** A parked thread does not run; only a deadline gets it out without a notification, and
      no deadline is looked at between a wake-up or a registration and the check after it. A
      poll that would park returns Pending; the next poll may come at any time. Calls other
      than polls are made by a sender without a listener, since a handle's polls and its other
      calls are two senders. */
  ghost predicate SenderMayRun(w: WState, step: Step, t: nat)
    requires t < |w.ss|
  {
    match step
    case Begin(_, op) => if op.PollReady? then !w.ss[t].Parked? else w.ss[t].Awake?
    case GiveUp(_) => w.ss[t].Awake? || w.ss[t].Parked?
    case Pend(_) => w.ss[t] == Parked(false)
    case Repoll(_) => Registered(w.ss[t])
    case _ => !w.ss[t].Parked?
  }

  ghost predicate MayRun(w: WState, step: Step) {
    && (forall t :: 0 <= t < |w.ss| && Actor(step) == SenderThread(t) ==> SenderMayRun(w, step, t))
    && (forall r :: 0 <= r < |w.rs| && Actor(step) == ReceiverThread(r) ==>
          if step.Look? then !w.rs[r].Parked? && !w.rs[r].Dozing? else w.rs[r].Awake?)
  }

  ghost predicate Sized(w: WState) {
    |w.s.cells| > 0 && |w.ss| == |w.s.senders| && |w.rs| == |w.s.receivers| && |w.gs| == |w.s.receivers|
  }

  ghost predicate DoStep(w: WState, step: Step, w': WState) {
    && Enabled(w.s, step) && Sized(w)
    && MayRun(w, step)
    && w'.s == Apply(w.s, step) && Sized(w')
    && (forall t :: 0 <= t < |w'.ss| ==> MayRaise(SenderAfter(w, step, t), w'.ss[t]))
    && (forall r :: 0 <= r < |w'.rs| ==> MayRaise(ReceiverAfter(w, step, r), w'.rs[r]))
    && (forall r :: 0 <= r < |w'.gs| ==> GuardAfter(w, step, r, w'.gs[r]))
    && (MustServeHead(w, step) ==> HeadServed(w'))
  }

  /** A sender is dropped: the listener of its last poll goes, and if it was notified another
      of the head's is. */
  ghost predicate DropStep(w: WState, t: nat, w': WState) {
    && Sized(w) && OnHead(w, t) && Registered(w.ss[t]) && (w.s.senders[t].Pended? || w.s.senders[t].SenderIdle?)
    && w'.s == w.s && w'.rs == w.rs && w'.gs == w.gs && |w'.ss| == |w.ss|
    && w'.ss[t] == Awake
    && (forall u :: 0 <= u < |w.ss| && u != t ==> MayRaise(w.ss[u], w'.ss[u]))
    && (Notified(w.ss[t]) ==> HeadServed(w'))
  }

  function StatusOf(w: WState, th: Thread): Sleep {
    match th
    case SenderThread(t) => if t < |w.ss| then w.ss[t] else Awake
    case ReceiverThread(r) => if r < |w.rs| then w.rs[r] else Awake
    case Nobody => Awake
  }

  /** The thread is in front of a check that it may wait for. */
  ghost predicate IsWaiting(w: WState, th: Thread) {
    && |w.s.cells| > 0
    && match th
       case SenderThread(t) =>
         && t < |w.s.senders| && t < |w.ss|
         && ((w.s.senders[t].Taking? && !w.s.senders[t].op.TrySend?) || w.s.senders[t].Waiting?)
       case ReceiverThread(r) => r < |w.s.receivers| && r < |w.rs| && ReceiverEvent(w.s, r).Some?
       case Nobody => false
  }

  function SetStatus(w: WState, th: Thread, z: Sleep): WState {
    match th
    case SenderThread(t) => if t < |w.ss| then w.(ss := w.ss[t := z]) else w
    case ReceiverThread(r) => if r < |w.rs| then w.(rs := w.rs[r := z]) else w
    case Nobody => w
  }

  /** The receiver's guard, or a new one on the cell of its cursor. */
  function GuardOr(w: WState, r: nat): Guard
    requires |w.s.cells| > 0 && r < |w.s.receivers| && r < |w.gs|
  {
    var cursor := w.s.receivers[r].cursor;
    if w.gs[r].Some? then w.gs[r].value else Guard(Slot(cursor, |w.s.cells|), cursor, false)
  }

  ghost predicate IsIdleReceiver(w: WState, r: nat) {
    Sized(w) && r < |w.rs| && w.s.receivers[r].pc.ReceiverIdle?
  }

  ghost predicate WNext(w: WState, x: WStep, w': WState) {
    match x
    case Do(step) => DoStep(w, step, w')
    case Listen(th) => IsWaiting(w, th) && StatusOf(w, th).Awake? && w' == SetStatus(w, th, Listening(false))
    case Wake(th) => IsWaiting(w, th) && StatusOf(w, th) == Parked(true) && w' == SetStatus(w, th, Woken)
    case Recheck(t) =>
      var th := SenderThread(t);
      && IsWaiting(w, th) && w.s.senders[t].op.PollReady? && StatusOf(w, th).Parked?
      && w' == SetStatus(w, th, Listening(StatusOf(w, th).notified))
    case StopWaiting(r) =>
      var th := ReceiverThread(r);
      IsWaiting(w, th) && StatusOf(w, th).Parked? && w' == SetStatus(w, th, Awake)
    case PollListen(r) =>
      && IsIdleReceiver(w, r) && w.rs[r].Awake?
      && w' == w.(rs := w.rs[r := InPoll], gs := w.gs[r := Some(GuardOr(w, r))])
    case PollWakes(r) =>
      && IsIdleReceiver(w, r) && w.rs[r].Dozing? && w.gs[r].Some? && w.gs[r].value.notified
      && w' == w.(rs := w.rs[r := Awake], gs := w.gs[r := None])
    case NextCall(r) => IsIdleReceiver(w, r) && w.rs[r].Dozing? && w' == w.(rs := w.rs[r := Awake])
    case DropSender(t) => DropStep(w, t, w')
  }

  function WInit(n: nat): WState
    requires n > 0
  {
    WState(Init(n), [Awake], [Awake], [None])
  }

  /** A run with its states spelled out. */
  ghost predicate WRun(n: nat, path: seq<WState>, xs: seq<WStep>) {
    && n > 0 && |path| == |xs| + 1 && path[0] == WInit(n)
    && forall i :: 0 <= i < |xs| ==> WNext(path[i], xs[i], path[i + 1])
  }

  // ---- what every step keeps ----

  /** Only threads in a waiting loop, or in or between polls, have listeners. */
  ghost predicate SleepersWait(w: WState) {
    && Sized(w)
    && (forall t :: 0 <= t < |w.ss| && !w.ss[t].Awake? ==> SenderEvent(w.s, t).Some?)
    && (forall r :: 0 <= r < |w.rs| && !w.rs[r].Awake? ==> ReceiverEvent(w.s, r).Some?)
    && (forall r :: 0 <= r < |w.rs| && (w.rs[r].InPoll? || w.rs[r].Dozing?) ==> w.gs[r].Some?)
  }

  ghost predicate WInv(w: WState) {
    Inv(w.s) && SleepersWait(w)
  }

  lemma SenderSleepersWait(w: WState, step: Step, w': WState)
    requires SleepersWait(w) && DoStep(w, step, w')
    ensures forall t :: 0 <= t < |w'.ss| && !w'.ss[t].Awake? ==> SenderEvent(w'.s, t).Some?
  {
    OthersUntouched(w.s, step);
    forall t | 0 <= t < |w'.ss| && !w'.ss[t].Awake?
      ensures SenderEvent(w'.s, t).Some?
    {
      assert MayRaise(SenderAfter(w, step, t), w'.ss[t]);
      assert t < |w.ss| && !w.ss[t].Awake?;
    }
  }

  lemma ReceiverSleepersWait(w: WState, step: Step, w': WState)
    requires SleepersWait(w) && DoStep(w, step, w')
    ensures forall r :: 0 <= r < |w'.rs| && !w'.rs[r].Awake? ==> ReceiverEvent(w'.s, r).Some?
    ensures forall r :: 0 <= r < |w'.rs| && (w'.rs[r].InPoll? || w'.rs[r].Dozing?) ==> w'.gs[r].Some?
  {
    OthersUntouched(w.s, step);
    forall r | 0 <= r < |w'.rs| && !w'.rs[r].Awake?
      ensures ReceiverEvent(w'.s, r).Some?
      ensures w'.rs[r].InPoll? || w'.rs[r].Dozing? ==> w'.gs[r].Some?
    {
      assert MayRaise(ReceiverAfter(w, step, r), w'.rs[r]);
      assert GuardAfter(w, step, r, w'.gs[r]);
      assert r < |w.rs| && !w.rs[r].Awake?;
    }
  }

  lemma WStepInv(w: WState, x: WStep, w': WState)
    requires WInv(w) && WNext(w, x, w')
    ensures WInv(w')
  {
    if x.Do? {
      StepInv(w.s, x.step);
      SenderSleepersWait(w, x.step, w');
      ReceiverSleepersWait(w, x.step, w');
    } else {
      StatusStepsWait(w, x, w');
    }
  }

  lemma StatusStepsWait(w: WState, x: WStep, w': WState)
    requires SleepersWait(w) && WNext(w, x, w') && !x.Do?
    ensures w'.s == w.s && SleepersWait(w')
  {
  }

  // ---- cells ----

  /** Some thread is about to wake the listeners of cell i. */
  ghost predicate CellNotifier(s: State, i: nat)
    requires |s.cells| > 0
  {
    || (exists t :: 0 <= t < |s.senders| && s.senders[t].NotifyingCell? && Slot(s.senders[t].id, |s.cells|) == i)
    || (exists r :: 0 <= r < |s.receivers| && (s.receivers[r].pc.Leaving? || s.receivers[r].pc.DropNotifying?)
                    && s.receivers[r].previous == i)
  }

  /** A sender asleep on its cell although the counter is zero is about to be notified. So is
      one whose poll returned Pending. */
  ghost predicate NoSenderForgotten(w: WState)
    requires |w.s.cells| > 0
  {
    forall t :: 0 <= t < |w.ss| && t < |w.s.senders| && Asleep(w.ss[t]) && HoldsOnCell(w.s.senders[t])
                && CellOf(w.s, TokenId(w.s.senders[t]).value).readCounter == 0 ==>
      CellNotifier(w.s, Slot(TokenId(w.s.senders[t]).value, |w.s.cells|))
  }

  /** The sender waits for the cell of the id it took, or will when it is polled again. */
  predicate HoldsOnCell(pc: SenderPc) {
    pc.Waiting? || (pc.Pended? && pc.held.Some?)
  }

  /** So is a receiver asleep in recv or try_recv_until although its next id is published, ... */
  ghost predicate NoReceiverForgotten(w: WState)
    requires |w.s.cells| > 0
  {
    forall r :: 0 <= r < |w.rs| && r < |w.s.receivers| && Asleep(w.rs[r]) && w.s.receivers[r].pc.ReceiverIdle?
                && CellOf(w.s, w.s.receivers[r].cursor).currentId == w.s.receivers[r].cursor ==>
      CellNotifier(w.s, Slot(w.s.receivers[r].cursor, |w.s.cells|))
  }

  /** The listener of a poll that is just being registered, before the check that follows. */
  ghost predicate JustListening(w: WState, r: nat, g: Guard)
    requires r < |w.rs| && r < |w.s.receivers|
  {
    w.rs[r].InPoll? && g.id == w.s.receivers[r].cursor
  }

  /** ... and a guard is notified, or about to be by a thread that will notify its cell, once
      the id that it was registered for is published. */
  ghost predicate GuardKept(w: WState, r: nat)
    requires |w.s.cells| > 0 && r < |w.s.receivers| && r < |w.rs| && r < |w.gs|
  {
    w.gs[r].Some? ==>
      var g := w.gs[r].value;
      && g.cell == Slot(g.id, |w.s.cells|) && 1 <= g.id <= w.s.receivers[r].cursor
      && (!g.notified && !JustListening(w, r, g) && IsPublished(w.s, g.id) ==> CellNotifier(w.s, g.cell))
  }

  ghost predicate NoGuardForgotten(w: WState)
    requires Sized(w)
  {
    forall r :: 0 <= r < |w.gs| ==> GuardKept(w, r)
  }

  /** A notifier stays one until it notifies. */
  lemma NotifierStays(s: State, step: Step, i: nat)
    requires Enabled(s, step) && CellNotifier(s, i) && WakesCell(s, step) != Some(i)
    ensures |Apply(s, step).cells| == |s.cells| && CellNotifier(Apply(s, step), i)
  {
    var s' := Apply(s, step);
    OthersUntouched(s, step);
    if t :| 0 <= t < |s.senders| && s.senders[t].NotifyingCell? && Slot(s.senders[t].id, |s.cells|) == i {
      assert Actor(step) != SenderThread(t);
      assert s'.senders[t] == s.senders[t];
    } else {
      var r :| 0 <= r < |s.receivers| && (s.receivers[r].pc.Leaving? || s.receivers[r].pc.DropNotifying?)
               && s.receivers[r].previous == i;
      assert Actor(step) != ReceiverThread(r);
      assert s'.receivers[r] == s.receivers[r];
    }
  }

  /** Whoever takes a counter to zero is about to notify that cell. */
  lemma ZeroMakesNotifier(s: State, step: Step, i: nat)
    requires Inv(s) && Enabled(s, step) && i < |s.cells| && s.cells[i].readCounter != 0
    requires |Apply(s, step).cells| == |s.cells| && Apply(s, step).cells[i].readCounter == 0
    ensures CellNotifier(Apply(s, step), i)
  {
    CounterEffect(s, step, i);
    var r := step.r;
    assert Apply(s, step).receivers[r].previous == i;
  }

  lemma CounterEffect(s: State, step: Step, i: nat)
    requires Enabled(s, step) && i < |s.cells| && s.cells[i].readCounter != 0
    requires i < |Apply(s, step).cells| && Apply(s, step).cells[i].readCounter == 0
    ensures step.Continue? && (s.receivers[step.r].pc.OnBoth? || s.receivers[step.r].pc.Dropping?)
    ensures s.receivers[step.r].previous == i && LastOn(s.cells, i)
  {
  }

  lemma PublishMakesNotifier(s: State, step: Step, i: nat)
    requires Enabled(s, step) && i < |s.cells| && i < |Apply(s, step).cells|
    requires Apply(s, step).cells[i].currentId != s.cells[i].currentId
    ensures |Apply(s, step).cells| == |s.cells| && CellNotifier(Apply(s, step), i)
  {
    CellIdEffect(s, step, i);
    OthersUntouched(s, step);
    var t := step.t;
    assert Apply(s, step).senders[t] == NotifyingCell(s.senders[t].id);
  }

  /** Whoever publishes an id is about to notify its cell. */
  lemma PublisherNotifies(s: State, step: Step, id: nat)
    requires Inv(s) && Enabled(s, step) && !IsPublished(s, id) && IsPublished(Apply(s, step), id)
    ensures |Apply(s, step).cells| == |s.cells| && CellNotifier(Apply(s, step), Slot(id, |s.cells|))
  {
    LogEffect(s, step);
    OthersUntouched(s, step);
    var t := step.t;
    assert Apply(s, step).senders[t] == NotifyingCell(id);
  }

  /** A sender asleep after a step was asleep at the same point before it, or has just checked
      in vain or returned Pending; and the step did not notify its cell. */
  lemma SleptThrough(w: WState, step: Step, w': WState, t: nat)
    requires DoStep(w, step, w') && t < |w'.ss| && Asleep(w'.ss[t])
    ensures t < |w.ss| && Registered(w.ss[t])
    ensures w'.s.senders[t] == w.s.senders[t]
            || (step == Pend(t) && TokenId(w'.s.senders[t]) == TokenId(w.s.senders[t]) && Asleep(w.ss[t]))
    ensures Actor(step) != SenderThread(t) ==> Asleep(w.ss[t])
    ensures WakesCell(w.s, step).Some? ==> SenderEvent(w'.s, t) != Some(OfCell(WakesCell(w.s, step).value))
  {
    OthersUntouched(w.s, step);
    assert MayRaise(SenderAfter(w, step, t), w'.ss[t]);
  }

  lemma ReceiverSleptThrough(w: WState, step: Step, w': WState, r: nat)
    requires DoStep(w, step, w') && r < |w'.rs| && Asleep(w'.rs[r])
    ensures r < |w.rs| && w'.s.receivers[r] == w.s.receivers[r] && Registered(w.rs[r])
    ensures Actor(step) != ReceiverThread(r) ==> Asleep(w.rs[r])
    ensures Actor(step) == ReceiverThread(r) ==> step.Look?
    ensures WakesCell(w.s, step).Some? ==> ReceiverEvent(w'.s, r) != Some(OfCell(WakesCell(w.s, step).value))
  {
    OthersUntouched(w.s, step);
    assert MayRaise(ReceiverAfter(w, step, r), w'.rs[r]);
  }

  lemma SenderRemembered(w: WState, step: Step, w': WState, t: nat)
    requires WInv(w) && NoSenderForgotten(w) && DoStep(w, step, w') && t < |w'.ss| && t < |w'.s.senders|
    requires Asleep(w'.ss[t]) && HoldsOnCell(w'.s.senders[t])
    requires CellOf(w'.s, TokenId(w'.s.senders[t]).value).readCounter == 0
    ensures CellNotifier(w'.s, Slot(TokenId(w'.s.senders[t]).value, |w'.s.cells|))
  {
    OthersUntouched(w.s, step);
    SleptThrough(w, step, w', t);
    var i := Slot(TokenId(w'.s.senders[t]).value, |w.s.cells|);
    if w.s.cells[i].readCounter != 0 {
      ZeroMakesNotifier(w.s, step, i);
    } else {
      assert Asleep(w.ss[t]) && HoldsOnCell(w.s.senders[t]);
      NotifierStays(w.s, step, i);
    }
  }

  lemma SendersRemembered(w: WState, step: Step, w': WState)
    requires WInv(w) && NoSenderForgotten(w) && DoStep(w, step, w')
    ensures NoSenderForgotten(w')
  {
    forall t | 0 <= t < |w'.ss| && t < |w'.s.senders| && Asleep(w'.ss[t]) && HoldsOnCell(w'.s.senders[t])
               && CellOf(w'.s, TokenId(w'.s.senders[t]).value).readCounter == 0
      ensures CellNotifier(w'.s, Slot(TokenId(w'.s.senders[t]).value, |w'.s.cells|))
    {
      SenderRemembered(w, step, w', t);
    }
  }

  lemma ReceiversRemembered(w: WState, step: Step, w': WState)
    requires WInv(w) && NoReceiverForgotten(w) && DoStep(w, step, w')
    ensures NoReceiverForgotten(w')
  {
    OthersUntouched(w.s, step);
    forall r | 0 <= r < |w'.rs| && r < |w'.s.receivers| && Asleep(w'.rs[r]) && w'.s.receivers[r].pc.ReceiverIdle?
               && CellOf(w'.s, w'.s.receivers[r].cursor).currentId == w'.s.receivers[r].cursor
      ensures CellNotifier(w'.s, Slot(w'.s.receivers[r].cursor, |w'.s.cells|))
    {
      ReceiverSleptThrough(w, step, w', r);
      var i := Slot(w.s.receivers[r].cursor, |w.s.cells|);
      if w.s.cells[i].currentId != w.s.receivers[r].cursor {
        PublishMakesNotifier(w.s, step, i);
      } else {
        assert Actor(step) != ReceiverThread(r);
        NotifierStays(w.s, step, i);
      }
    }
  }

  lemma CursorsGrow(s: State, step: Step, r: nat)
    requires Enabled(s, step) && r < |s.receivers|
    ensures r < |Apply(s, step).receivers| && s.receivers[r].cursor <= Apply(s, step).receivers[r].cursor
  {
    OthersUntouched(s, step);
  }

  /** A check of the id that fails finds it unpublished. */
  lemma FailedLook(s: State, r: nat)
    requires Inv(s) && Enabled(s, Look(r)) && Apply(s, Look(r)).receivers[r] == s.receivers[r]
    ensures !IsPublished(s, s.receivers[r].cursor)
  {
    ReceiverSteps.AboutReceiver(s, r);
    assert HasReceiver(s);
  }

  /** What a guard that is not notified after a step was before it. */
  lemma GuardCameFrom(w: WState, step: Step, w': WState, r: nat)
    requires WInv(w) && DoStep(w, step, w') && r < |w'.gs| && w'.gs[r].Some?
    ensures r < |w.gs| && w.gs[r].Some? && w.gs[r].value.cell == w'.gs[r].value.cell && w.gs[r].value.id == w'.gs[r].value.id
    ensures !w'.gs[r].value.notified ==> !w.gs[r].value.notified && WakesCell(w.s, step) != Some(w.gs[r].value.cell)
    ensures w.rs[r].InPoll? && !w'.rs[r].InPoll? ==> step == Look(r) && Apply(w.s, step).receivers[r] == w.s.receivers[r]
    ensures w.rs[r].InPoll? && w'.rs[r].InPoll? ==> w'.s.receivers[r] == w.s.receivers[r]
  {
    OthersUntouched(w.s, step);
    assert GuardAfter(w, step, r, w'.gs[r]);
    assert MayRaise(ReceiverAfter(w, step, r), w'.rs[r]);
  }

  lemma GuardRemembered(w: WState, step: Step, w': WState, r: nat)
    requires WInv(w) && NoGuardForgotten(w) && DoStep(w, step, w') && r < |w'.gs| && w'.gs[r].Some?
    ensures GuardKept(w', r)
  {
    GuardCameFrom(w, step, w', r);
    CursorsGrow(w.s, step, r);
    OthersUntouched(w.s, step);
    var g := w.gs[r].value;
    assert GuardKept(w, r);
    if !w'.gs[r].value.notified && !JustListening(w', r, g) && IsPublished(w'.s, g.id) {
      if !IsPublished(w.s, g.id) {
        PublisherNotifies(w.s, step, g.id);
      } else if JustListening(w, r, g) {
        FailedLook(w.s, r);
        assert false;
      } else {
        NotifierStays(w.s, step, g.cell);
      }
    }
  }

  lemma GuardsRemembered(w: WState, step: Step, w': WState)
    requires WInv(w) && NoGuardForgotten(w) && DoStep(w, step, w')
    ensures NoGuardForgotten(w')
  {
    forall r | 0 <= r < |w'.gs| && w'.gs[r].Some?
      ensures GuardKept(w', r)
    {
      GuardRemembered(w, step, w', r);
    }
  }

  ghost predicate CellsInv(w: WState) {
    WInv(w) && NoSenderForgotten(w) && NoReceiverForgotten(w) && NoGuardForgotten(w)
  }

  /** Registering, waking, and dropping put nobody to sleep. */
  lemma StatusPutsNobodyToSleep(w: WState, x: WStep, w': WState)
    requires WNext(w, x, w') && !x.Do?
    ensures w'.s == w.s && |w'.ss| == |w.ss| && |w'.rs| == |w.rs|
    ensures forall t :: 0 <= t < |w.ss| && Asleep(w'.ss[t]) ==> Asleep(w.ss[t])
    ensures forall r :: 0 <= r < |w.rs| && Asleep(w'.rs[r]) ==> Asleep(w.rs[r])
  {
  }

  lemma StatusKeepsGuards(w: WState, x: WStep, w': WState)
    requires WInv(w) && NoGuardForgotten(w) && WNext(w, x, w') && !x.Do? && Sized(w')
    ensures NoGuardForgotten(w')
  {
    forall r | 0 <= r < |w'.gs| && w'.gs[r].Some?
      ensures GuardKept(w', r)
    {
      assert GuardKept(w, r);
      if x == PollListen(r) && w.gs[r].None? {
        ReceiverSteps.AboutReceiver(w.s, r);
      }
    }
  }

  lemma CellStep(w: WState, x: WStep, w': WState)
    requires CellsInv(w) && WNext(w, x, w')
    ensures CellsInv(w')
  {
    WStepInv(w, x, w');
    if x.Do? {
      SendersRemembered(w, x.step, w');
      ReceiversRemembered(w, x.step, w');
      GuardsRemembered(w, x.step, w');
    } else {
      StatusPutsNobodyToSleep(w, x, w');
      StatusKeepsGuards(w, x, w');
    }
  }

  lemma WInitInv(n: nat)
    requires n > 0
    ensures CellsInv(WInit(n))
  {
    InitInv(n);
  }

  /** A run without its last step. */
  lemma WRunPrefix(n: nat, path: seq<WState>, xs: seq<WStep>)
    requires WRun(n, path, xs) && xs != []
    ensures WRun(n, path[..|xs|], xs[..|xs| - 1])
    ensures WNext(path[|xs| - 1], xs[|xs| - 1], path[|xs|])
  {
  }

  lemma {:induction false} CellRun(n: nat, path: seq<WState>, xs: seq<WStep>)
    requires WRun(n, path, xs)
    ensures CellsInv(path[|xs|])
    decreases |xs|
  {
    if xs == [] {
      WInitInv(n);
    } else {
      var k := |xs| - 1;
      WRunPrefix(n, path, xs);
      CellRun(n, path[..k + 1], xs[..k]);
      CellStep(path[k], xs[k], path[k + 1]);
    }
  }

  /** A receiver whose poll returned Pending and whose listener is not notified. */
  ghost predicate Dozes(w: WState, r: nat) {
    r < |w.rs| && r < |w.gs| && w.rs[r].Dozing? && w.gs[r].Some? && !w.gs[r].value.notified
  }

  /** It has a notifier on the cell where its listener is, if its next id is published, or if
      the listener is left over from an id it has received. */
  ghost predicate NoDozerForgotten(w: WState)
    requires Sized(w)
  {
    forall r :: 0 <= r < |w.rs| && Dozes(w, r)
                && (IsPublished(w.s, w.s.receivers[r].cursor) || w.gs[r].value.id < w.s.receivers[r].cursor) ==>
      CellNotifier(w.s, w.gs[r].value.cell)
  }

  lemma DozerRemembered(w: WState, r: nat)
    requires CellsInv(w) && Dozes(w, r)
    requires IsPublished(w.s, w.s.receivers[r].cursor) || w.gs[r].value.id < w.s.receivers[r].cursor
    ensures CellNotifier(w.s, w.gs[r].value.cell)
  {
    ReceiverSteps.AboutReceiver(w.s, r);
    assert GuardKept(w, r);
    assert w.s.receivers[r].pc.ReceiverIdle?;
  }

  /** No lost wake-up on a cell, in any run: whoever sleeps on a cell and is not notified,
      although what it waits for has come true, has a thread that is about to notify the cell
      on which it listens. That holds of threads that are parked, of polls that returned
      Pending, and of polls that returned Pending with a listener left on an earlier cell. */
  lemma NoLostWakeupOnCells(n: nat, path: seq<WState>, xs: seq<WStep>)
    requires WRun(n, path, xs)
    ensures var w := path[|xs|];
            Sized(w) && NoSenderForgotten(w) && NoReceiverForgotten(w) && NoDozerForgotten(w)
  {
    CellRun(n, path, xs);
    var w := path[|xs|];
    forall r | 0 <= r < |w.rs| && Dozes(w, r)
               && (IsPublished(w.s, w.s.receivers[r].cursor) || w.gs[r].value.id < w.s.receivers[r].cursor)
      ensures CellNotifier(w.s, w.gs[r].value.cell)
    {
      DozerRemembered(w, r);
    }
  }

  // ---- the write head ----

  /** A sender that is notified, or woke up, and is about to try, or will when it is polled. A
      listener that a poll kept when it returned Disconnected is no hope. */
  ghost predicate WillTry(w: WState, t: int) {
    OnHead(w, t) && (Notified(w.ss[t]) || w.ss[t].Woken?) && !w.s.senders[t].SenderIdle?
  }

  /** Somebody is about to notify a sender, or to try. */
  ghost predicate HeadHope(w: WState) {
    || (exists t :: 0 <= t < |w.s.senders| && w.s.senders[t].NotifyingHead?)
    || (exists t :: WillTry(w, t))
  }

  /** No sender sleeps on a free head without hope. */
  ghost predicate HeadRemembered(w: WState) {
    w.s.writeHead != TAKEN && (exists t :: OnHead(w, t) && Asleep(w.ss[t])) ==> HeadHope(w)
  }

  predicate IsRollBack(s: State, x: WStep) {
    x.Do? && x.step.Advance? && x.step.t < |s.senders| && s.senders[x.step.t].RollingBack?
  }

  /** poll_ready finds no receivers and returns while it has a listener on the head. The
      listener stays with the handle, and so does a notification it has got or will get. */
  ghost predicate Strays(w: WState, x: WStep) {
    && x.Do? && x.step.Advance? && OnHead(w, x.step.t) && Registered(w.ss[x.step.t])
    && w.s.senders[x.step.t].Checking? && w.s.numReceivers == 0
  }

  /** A step that may lose a wake-up on the head. */
  ghost predicate MayForget(w: WState, x: WStep) {
    IsRollBack(w.s, x) || Strays(w, x)
  }

  /** The head becomes free only by a grant or a rollback. */
  lemma HeadEffect(s: State, step: Step)
    requires Enabled(s, step) && !IsRollBack(s, Do(step)) && Apply(s, step).writeHead != TAKEN
    ensures s.writeHead == TAKEN ==> step.Advance? && s.senders[step.t].Restoring?
                                     && Apply(s, step).senders[step.t].NotifyingHead?
    ensures step.Advance? && s.senders[step.t].Taking? ==> s.writeHead == TAKEN
  {
  }

  /** Nobody holds a listener of a poll that returned Disconnected, and whoever was woken
      stands in front of its swap. */
  ghost predicate NoStrays(w: WState) {
    forall t :: 0 <= t < |w.ss| && t < |w.s.senders| ==>
      && !w.ss[t].InPoll? && !w.ss[t].Dozing?
      && (w.s.senders[t].SenderIdle? ==> w.ss[t].Awake?)
      && (w.ss[t].Woken? ==> w.s.senders[t].Taking? || w.s.senders[t].Waiting?)
  }

  lemma NoStraysAfter(w: WState, step: Step, w': WState, t: nat)
    requires SleepersWait(w) && NoStrays(w) && DoStep(w, step, w') && !Strays(w, Do(step))
    requires t < |w'.ss| && t < |w'.s.senders|
    ensures !w'.ss[t].InPoll? && !w'.ss[t].Dozing?
    ensures w'.s.senders[t].SenderIdle? ==> w'.ss[t].Awake?
    ensures w'.ss[t].Woken? ==> w'.s.senders[t].Taking? || w'.s.senders[t].Waiting?
  {
    OthersUntouched(w.s, step);
    assert MayRaise(SenderAfter(w, step, t), w'.ss[t]);
  }

  lemma NoStraysStep(w: WState, x: WStep, w': WState)
    requires SleepersWait(w) && NoStrays(w) && WNext(w, x, w') && !Strays(w, x)
    ensures NoStrays(w')
  {
    if x.Do? {
      forall t | 0 <= t < |w'.ss| && t < |w'.s.senders|
        ensures !w'.ss[t].InPoll? && !w'.ss[t].Dozing?
        ensures w'.s.senders[t].SenderIdle? ==> w'.ss[t].Awake?
        ensures w'.ss[t].Woken? ==> w'.s.senders[t].Taking? || w'.s.senders[t].Waiting?
      {
        NoStraysAfter(w, x.step, w', t);
      }
    }
  }

  lemma ServedIsHope(w: WState, p: nat)
    requires HeadServed(w) && NoStrays(w) && OnHead(w, p) && Registered(w.ss[p])
    ensures HeadHope(w)
  {
    var t :| OnHead(w, t) && Notified(w.ss[t]);
    assert WillTry(w, t);
  }

  lemma NotifierHope(w: WState, step: Step, w': WState, p: nat, h: nat)
    requires DoStep(w, step, w') && NoStrays(w') && OnHead(w', p) && Registered(w'.ss[p])
    requires h < |w.s.senders| && w.s.senders[h].NotifyingHead?
    ensures HeadHope(w')
  {
    OthersUntouched(w.s, step);
    if Actor(step) == SenderThread(h) {
      assert MustServeHead(w, step);
      ServedIsHope(w', p);
    } else {
      assert w'.s.senders[h].NotifyingHead?;
    }
  }

  /** A poll that begins again, or finds receivers, keeps the wake-up it was given. */
  lemma PollKeepsHope(w: WState, step: Step, w': WState, h: nat)
    requires DoStep(w, step, w') && NoStrays(w) && NoStrays(w')
    requires Actor(step) == SenderThread(h) && WillTry(w, h) && KeepsListener(w.s, step) && !Strays(w, Do(step))
    ensures WillTry(w', h)
  {
    assert MayRaise(SenderAfter(w, step, h), w'.ss[h]);
  }

  lemma WokenHope(w: WState, step: Step, w': WState, p: nat, h: nat)
    requires DoStep(w, step, w') && OnHead(w', p) && Registered(w'.ss[p]) && NoStrays(w) && NoStrays(w')
    requires WillTry(w, h) && (step.Advance? ==> !w.s.senders[step.t].Taking?)
    requires !Strays(w, Do(step)) && SleepersWait(w)
    ensures HeadHope(w')
  {
    OthersUntouched(w.s, step);
    assert MayRaise(SenderAfter(w, step, h), w'.ss[h]);
    if Actor(step) != SenderThread(h) {
      assert WillTry(w', h);
    } else if KeepsListener(w.s, step) {
      PollKeepsHope(w, step, w', h);
    } else {
      assert step.GiveUp?;
      assert MustServeHead(w, step);
      ServedIsHope(w', p);
    }
  }

  /** Hope survives every step that leaves the head free. */
  lemma HopeStays(w: WState, step: Step, w': WState, p: nat)
    requires WInv(w) && NoStrays(w) && NoStrays(w') && DoStep(w, step, w') && HeadHope(w)
    requires OnHead(w', p) && Asleep(w'.ss[p])
    requires w.s.writeHead != TAKEN && w'.s.writeHead != TAKEN && !MayForget(w, Do(step))
    ensures HeadHope(w')
  {
    if h :| 0 <= h < |w.s.senders| && w.s.senders[h].NotifyingHead? {
      NotifierHope(w, step, w', p, h);
    } else {
      var h :| WillTry(w, h);
      HeadEffect(w.s, step);
      WokenHope(w, step, w', p, h);
    }
  }

  lemma HeadStep(w: WState, step: Step, w': WState)
    requires WInv(w) && NoStrays(w) && NoStrays(w') && HeadRemembered(w) && DoStep(w, step, w') && !MayForget(w, Do(step))
    ensures HeadRemembered(w')
  {
    if w'.s.writeHead != TAKEN {
      if p :| OnHead(w', p) && Asleep(w'.ss[p]) {
        HeadEffect(w.s, step);
        OthersUntouched(w.s, step);
        if w.s.writeHead == TAKEN {
          assert w'.s.senders[step.t].NotifyingHead?;
        } else {
          SleptThrough(w, step, w', p);
          assert OnHead(w, p) && Asleep(w.ss[p]);
          HopeStays(w, step, w', p);
        }
      }
    }
  }

  lemma HeadStatusStep(w: WState, x: WStep, w': WState)
    requires WInv(w) && NoStrays(w') && HeadRemembered(w) && WNext(w, x, w') && !x.Do?
    ensures HeadRemembered(w')
  {
    StatusPutsNobodyToSleep(w, x, w');
    if w'.s.writeHead != TAKEN {
      if p :| OnHead(w', p) && Asleep(w'.ss[p]) {
        assert OnHead(w, p) && Asleep(w.ss[p]);
        HopeStaysAtRest(w, x, w', p);
      }
    }
  }

  lemma HopeStaysAtRest(w: WState, x: WStep, w': WState, p: nat)
    requires WInv(w) && NoStrays(w') && HeadHope(w) && WNext(w, x, w') && !x.Do? && w'.s == w.s
    requires OnHead(w', p) && Asleep(w'.ss[p])
    ensures HeadHope(w')
  {
    if h :| 0 <= h < |w.s.senders| && w.s.senders[h].NotifyingHead? {
      assert w'.s.senders[h].NotifyingHead?;
    } else {
      var h :| WillTry(w, h);
      if x == DropSender(h) {
        ServedIsHope(w', p);
      } else {
        assert WillTry(w', h);
      }
    }
  }

  ghost predicate NothingForgotten(path: seq<WState>, xs: seq<WStep>)
    requires |path| == |xs| + 1
  {
    forall i :: 0 <= i < |xs| ==> !MayForget(path[i], xs[i])
  }

  lemma {:induction false} NoStraysRun(n: nat, path: seq<WState>, xs: seq<WStep>)
    requires WRun(n, path, xs) && forall i :: 0 <= i < |xs| ==> !Strays(path[i], xs[i])
    ensures NoStrays(path[|xs|])
    decreases |xs|
  {
    if xs == [] {
    } else {
      var k := |xs| - 1;
      WRunPrefix(n, path, xs);
      NoStraysRun(n, path[..k + 1], xs[..k]);
      CellRun(n, path[..k + 1], xs[..k]);
      NoStraysStep(path[k], xs[k], path[k + 1]);
    }
  }

  lemma {:induction false} HeadRun(n: nat, path: seq<WState>, xs: seq<WStep>)
    requires WRun(n, path, xs) && NothingForgotten(path, xs)
    ensures NoStrays(path[|xs|]) && HeadRemembered(path[|xs|])
    decreases |xs|
  {
    NoStraysRun(n, path, xs);
    if xs == [] {
    } else {
      var k := |xs| - 1;
      WRunPrefix(n, path, xs);
      HeadRun(n, path[..k + 1], xs[..k]);
      CellRun(n, path[..k + 1], xs[..k]);
      if xs[k].Do? {
        HeadStep(path[k], xs[k].step, path[k + 1]);
      } else {
        HeadStatusStep(path[k], xs[k], path[k + 1]);
      }
    }
  }

  /** No lost wake-up on the write head, in every run in which no Full or Timeout puts the
      token back and no poll_ready returns Disconnected with a listener in its hand. */
  lemma {:induction false} NoLostWakeupOnHead(n: nat, path: seq<WState>, xs: seq<WStep>)
    requires WRun(n, path, xs) && NothingForgotten(path, xs)
    ensures HeadRemembered(path[|xs|])
  {
    HeadRun(n, path, xs);
  }
}
