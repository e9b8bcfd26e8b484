/**
 The visor gate as a value and its operations as functions.

 Every operation of `src/automation.rs` appears once, with the branches of the
 source. The class `VisorGate.Gate` updates fields in place and is proved equal
 to these functions; the other modules prove what the protocol promises.

 A gate call reads the clock in up to two places: the `now` its caller passes,
 and a reading of its own, which is the parameter `clock` here.
 */
module GateModel {
  import opened Basics
  import opened InputTypes

  datatype Phase = Off | Running | Paused

  datatype Notice = NoNotice | Upgrading

  datatype Control = Start | Pause | Resume | Stop

  datatype Reject = NeedsSession | StalePoll

  /** A control posted during a desktop call, to be applied when the call unwinds. */
  datatype Deferred =
    | Stop
    | Pause
    | Close(session: Session, generation: nat)
    | KeyboardUnavailable
    | Start(session: Session, companion: bool, timeout: Millis)
    | Resume(owner: Option<Session>, companion: bool, timeout: Millis)

  datatype Entry = Entry(seqNo: nat, action: Deferred)

  datatype DriveKind = MoveDrive | ClickDrive | DragDrive | TypeDrive

  datatype Drive = Drive(
    kind: DriveKind, x: int, y: int, fromX: int, fromY: int, clickable: bool,
    elapsedMs: nat, atMs: nat, pointerKnown: bool, resumeSeq: nat, injectSeq: nat)

  datatype State = State(
    session: Option<Session>,
    phase: Phase,
    drive: Option<Drive>,
    pointer: Option<Point>,
    lastAtMs: Option<nat>,
    notice: Notice,
    generation: nat,
    resumeSeq: nat,
    injectSeq: nat,
    settledSeq: nat,
    injecting: bool,
    controlSeq: nat,
    queue: seq<Entry>,
    epoch: nat,
    trustedAt: Option<Millis>,
    lastPoll: Option<Millis>,
    keyboard: bool,
    word: nat)

  const INITIAL: State :=
    State(None, Off, None, None, None, NoNotice, 0, 0, 0, 0, false, 0, [], 0, None, None, true, 0)

  // ----- the published word

  /** One past the largest 64-bit word. */
  const WORD_SIZE: nat := 0x1_0000_0000_0000_0000

  /** Epochs below this bound survive the two-bit shift. */
  const EPOCH_LIMIT: nat := 0x4000_0000_0000_0000

  function PhaseBits(phase: Phase): nat {
    match phase
    case Off => 0
    case Running => 1
    case Paused => 2
  }

  /** `(epoch << 2) | bits` on 64 bits: the two highest epoch bits fall off. */
  function PackSnap(epoch: nat, phase: Phase): nat {
    (epoch * 4) % WORD_SIZE + PhaseBits(phase)
  }

  function UnpackSnap(word: nat): (nat, Phase) {
    (word / 4, if word % 4 == 1 then Running else if word % 4 == 2 then Paused else Off)
  }

  /** The cancel check of a request that captured `captured`. */
  predicate Cancelled(captured: nat, word: nat) {
    var (epoch, phase) := UnpackSnap(word);
    epoch != captured || phase == Paused
  }

  // ----- freshness

  predicate PollFresh(s: State, now: Millis, timeout: Millis) {
    Within(s.lastPoll, now, timeout)
  }

  predicate GapExpired(s: State, now: Millis, timeout: Millis) {
    !Within(s.trustedAt, now, timeout)
  }

  predicate StaleReentry(s: State, now: Millis, timeout: Millis) {
    s.phase == Off && s.trustedAt.Some? && !Within(s.trustedAt, now, timeout)
  }

  // ----- phase changes

  /** The default gate, except for the counters, clocks, notice and keyboard latch a reset keeps. */
  function Reset(s: State): State {
    State(
      None, Off, None, None, None, s.notice, s.generation + 1, s.resumeSeq, s.injectSeq, s.settledSeq,
      false, s.controlSeq, [], s.epoch, s.trustedAt, s.lastPoll, s.keyboard, PackSnap(s.epoch, Off))
  }

  /** One more control: its number, and its place in the queue if a call is in flight. */
  function Posted(s: State, action: Deferred): seq<Entry> {
    if s.injecting then s.queue + [Entry(s.controlSeq + 1, action)] else s.queue
  }

  function PauseGate(s: State): State {
    s.(phase := Paused,
       epoch := s.epoch + 1,
       controlSeq := s.controlSeq + 1,
       queue := Posted(s, Deferred.Pause),
       word := PackSnap(s.epoch + 1, Paused))
  }

  /** The epoch moves and the phase stays: what an in-flight call sees of a stop. */
  function CancelInFlight(s: State): State {
    s.(epoch := s.epoch + 1,
       controlSeq := s.controlSeq + 1,
       queue := Posted(s, Deferred.Stop),
       word := PackSnap(s.epoch + 1, s.phase))
  }

  function StopGate(s: State): State {
    if s.injecting then CancelInFlight(s) else Reset(CancelInFlight(s))
  }

  function ShutdownCancel(s: State): State {
    CancelInFlight(s)
  }

  function EnterRunning(s: State, session: Session, grace: bool, clock: Millis): State {
    s.(session := Some(session),
       drive := None,
       trustedAt := if s.phase != Running && grace then Some(clock) else s.trustedAt,
       phase := Running,
       resumeSeq := s.resumeSeq + 1,
       word := PackSnap(s.epoch, Running))
  }

  function ClearSession(s: State, session: Session): State {
    if s.session != Some(session) then s
    else if s.phase == Paused then
      s.(session := None, drive := None, generation := s.generation + 1, word := PackSnap(s.epoch, Paused))
    else Reset(s)
  }

  function ReportKeyboard(s: State, available: bool): State {
    if available then s
    else
      var down := s.(keyboard := false);
      if s.injecting && s.keyboard then
        down.(phase := Paused,
              epoch := s.epoch + 1,
              controlSeq := s.controlSeq + 1,
              queue := Posted(s, KeyboardUnavailable),
              word := PackSnap(s.epoch + 1, Paused))
      else if s.injecting then
        if s.phase == Paused then down
        else down.(phase := Paused, epoch := s.epoch + 1, word := PackSnap(s.epoch + 1, Paused))
      else if s.phase == Running then PauseGate(down)
      else down
  }

  // ----- replay of the deferred queue

  predicate ReentryAdmitted(s: State, companion: bool, now: Millis, timeout: Millis) {
    s.keyboard && (s.phase == Running || companion || PollFresh(s, now, timeout))
  }

  function ApplyDeferred(s: State, action: Deferred, now: Millis, clock: Millis): State {
    match action
    case Stop => Reset(s)
    case Pause => s.(phase := Paused, word := PackSnap(s.epoch, Paused))
    case Close(session, generation) =>
      if s.session == Some(session) && s.generation == generation
      then ClearSession(s, session) else s
    case KeyboardUnavailable =>
      var down := s.(keyboard := false);
      if s.phase == Running then down.(phase := Paused, word := PackSnap(s.epoch, Paused)) else down
    case Start(session, companion, timeout) =>
      if ReentryAdmitted(s, companion, now, timeout)
      then EnterRunning(s, session, companion, clock) else s
    case Resume(owner, companion, timeout) =>
      if s.phase == Running then s
      else if owner.Some? then
        if ReentryAdmitted(s, companion, now, timeout)
        then EnterRunning(s, owner.value, companion, clock) else s
      else if s.phase == Paused && s.keyboard then Reset(s)
      else s
  }

  /** Apply a run of queued controls, oldest first. */
  function Replay(s: State, entries: seq<Entry>, now: Millis, clock: Millis): State
    decreases |entries|
  {
    if entries == [] then s
    else Replay(ApplyDeferred(s, entries[0].action, now, clock), entries[1..], now, clock)
  }

  /** Take the queue, then apply what it held. */
  function ReplayQueued(s: State, now: Millis, clock: Millis): State {
    Replay(s.(queue := []), s.queue, now, clock)
  }

  // ----- admission of a control during an injection

  /** The scratch copy: fields a replay reads or keeps, everything else default. */
  function AdmissionScratch(s: State): State {
    State(
      s.session, s.phase, None, None, None, s.notice, s.generation, s.resumeSeq, s.injectSeq, s.settledSeq,
      false, s.controlSeq, s.queue, s.epoch, s.trustedAt, s.lastPoll, s.keyboard, 0)
  }

  function PhaseAfterDeferred(s: State, clock: Millis): Phase {
    ReplayQueued(AdmissionScratch(s), clock, clock).phase
  }

  predicate ReentryIsStale(s: State, companion: bool, now: Millis, timeout: Millis, clock: Millis) {
    !companion && PhaseAfterDeferred(s, clock) != Running && !PollFresh(s, now, timeout)
  }

  /** Take the next control number and append an entry that carries it. */
  function Enqueue(s: State, action: Deferred): State {
    s.(controlSeq := s.controlSeq + 1, queue := s.queue + [Entry(s.controlSeq + 1, action)])
  }

  /** Take the next control number and do nothing else. */
  function Touch(s: State): State {
    s.(controlSeq := s.controlSeq + 1)
  }

  function DeferControl(s: State, session: Option<Session>, action: Control, companion: bool,
                        now: Millis, timeout: Millis, clock: Millis): (State, Option<Reject>)
  {
    match action
    case Start =>
      if session.None? then (s, Some(NeedsSession))
      else if ReentryIsStale(s, companion, now, timeout, clock) then (s, Some(StalePoll))
      else (Enqueue(s, Deferred.Start(session.value, companion, timeout)), None)
    case Pause => (PauseGate(s), None)
    case Resume =>
      if session.Some? && ReentryIsStale(s, companion, now, timeout, clock)
      then (s, Some(StalePoll))
      else (Enqueue(s, Deferred.Resume(session, companion, timeout)), None)
    case Stop => (StopGate(s), None)
  }

  function Apply(s: State, session: Option<Session>, action: Control, companion: bool,
                 now: Millis, timeout: Millis, clock: Millis): (State, Option<Reject>)
  {
    if s.injecting then DeferControl(s, session, action, companion, now, timeout, clock)
    else
      match action
      case Start =>
        if session.None? then (s, Some(NeedsSession))
        else if s.phase != Running && !companion && !PollFresh(s, now, timeout)
        then (s, Some(StalePoll))
        else (EnterRunning(Touch(s), session.value, companion, clock), None)
      case Pause => (PauseGate(s), None)
      case Resume =>
        if s.phase != Paused then (Touch(s), None)
        else if session.None? then (Reset(Touch(s)), None)
        else if !companion && !PollFresh(s, now, timeout) then (s, Some(StalePoll))
        else (EnterRunning(Touch(s), session.value, companion, clock), None)
      case Stop => (StopGate(s), None)
  }

  // ----- the injection bracket

  function BeginInject(s: State, session: Session, captured: nat, clock: Millis): (State, Option<nat>)
  {
    if s.epoch != captured || s.phase == Paused then (s, None)
    else
      var seqNo := s.injectSeq + 1;
      (s.(injectSeq := seqNo,
          injecting := true,
          trustedAt := if s.phase != Running && s.trustedAt.None? then Some(clock) else s.trustedAt,
          phase := Running,
          session := Some(session),
          word := PackSnap(s.epoch, Running)),
       Some(seqNo))
  }

  function FinishInject(s: State, now: Millis, clock: Millis): State {
    var t := ReplayQueued(s.(injecting := false, settledSeq := Max(s.settledSeq, s.injectSeq)), now, clock);
    t.(word := PackSnap(t.epoch, t.phase))
  }

  // ----- session close

  function NoteSessionClosed(s: State, session: Session): State {
    if s.session != Some(session) then s
    else if s.injecting then Enqueue(s, Close(session, s.generation))
    else ClearSession(s.(epoch := s.epoch + 1, controlSeq := s.controlSeq + 1), session)
  }

  function FinishClosedSession(s: State, session: Session): State {
    if s.injecting then
      if s.session == Some(session) then Enqueue(s, Close(session, s.generation)) else s
    else ClearSession(s, session)
  }

  // ----- watchdog

  function NotePoll(s: State, now: Millis, timeout: Millis): (State, bool) {
    if s.phase == Running && GapExpired(s, now, timeout) then (PauseGate(s), true)
    else (s.(lastPoll := Some(now), trustedAt := Some(now)), false)
  }

  function Watchdog(s: State, now: Millis, timeout: Millis): State {
    if s.phase == Running && GapExpired(s, now, timeout) then PauseGate(s) else s
  }

  // ----- recording a finished drive

  predicate Accepts(s: State, generation: nat) {
    s.generation == generation && s.phase != Paused
  }

  const U32_MAX: nat := 0xffff_ffff

  /** Milliseconds since the last recorded sample, within 32 bits. */
  function Elapsed(last: Option<nat>, nowMs: nat): nat {
    if last.None? then 0
    else if Since(nowMs, last.value) > U32_MAX then U32_MAX
    else Since(nowMs, last.value)
  }

  function Store(s: State, session: Session, kind: DriveKind, at: Point, from: Point, clickable: bool,
                 pointerKnown: bool, nowMs: nat, clock: Millis): State
  {
    s.(session := Some(session),
       trustedAt := if s.phase != Running && s.trustedAt.None? then Some(clock) else s.trustedAt,
       phase := Running,
       pointer := if pointerKnown then Some(at) else s.pointer,
       lastAtMs := Some(nowMs),
       drive := Some(Drive(kind, at.x, at.y, from.x, from.y, clickable,
                           Elapsed(s.lastAtMs, nowMs), nowMs, pointerKnown, s.resumeSeq, s.injectSeq)),
       word := PackSnap(s.epoch, Running))
  }

  /** The first point that is known: the one passed, the last recorded, the target. */
  function FirstKnown(from: Option<Point>, last: Option<Point>, target: Point): Point {
    if from.Some? then from.value else if last.Some? then last.value else target
  }

  function RecordMouse(s: State, session: Session, op: MouseOp, from: Option<Point>, generation: nat,
                       nowMs: nat, clock: Millis): State
  {
    if !Accepts(s, generation) then s
    else
      match op
      case Move(x, y, clickable) =>
        Store(s, session, MoveDrive, Point(x, y), FirstKnown(from, s.pointer, Point(x, y)), clickable, true, nowMs,
              clock)
      case Scroll(x, y, _, _) =>
        Store(s, session, MoveDrive, Point(x, y), FirstKnown(from, s.pointer, Point(x, y)), false, true, nowMs, clock)
      case Click(x, y, _) =>
        Store(s, session, ClickDrive, Point(x, y), FirstKnown(from, s.pointer, Point(x, y)), false, true, nowMs, clock)
      case Drag(x, y, toX, toY, _) =>
        Store(s, session, DragDrive, Point(toX, toY), Point(x, y), false, true, nowMs, clock)
  }

  function RecordType(s: State, session: Session, at: Option<Point>, generation: nat,
                      nowMs: nat, clock: Millis): State
  {
    if !Accepts(s, generation) then s
    else
      var known := if at.Some? then at else s.pointer;
      var point := if known.Some? then known.value else Point(0, 0);
      Store(s, session, TypeDrive, point, point, false, known.Some?, nowMs, clock)
  }

  // ----- who may lift a pause

  predicate LiftsUserPause(action: Control, phase: Phase) {
    phase == Paused && action != Control.Pause
  }

  /**
   One request at the control endpoint. `keyboardBlocked` and `session` were read
   under earlier acquisitions of the gate lock, so they are arbitrary here.
   */
  datatype Request = Request(
    action: Control, companion: bool, wayland: bool, keyboardBlocked: bool,
    session: Option<Session>, now: Millis, timeout: Millis, clock: Millis)

  datatype Reply = Accepted | NotImplemented | Forbidden | Refused(why: Reject)

  function ControlAutomation(s: State, r: Request): (State, Reply) {
    var enters := r.action == Control.Start || r.action == Control.Resume;
    if enters && (r.wayland || r.keyboardBlocked) then (s, NotImplemented)
    else if r.action == Control.Pause then (PauseGate(s), Accepted)
    else if LiftsUserPause(r.action, s.phase) && !r.companion then (s, Forbidden)
    else if r.action == Control.Stop then (StopGate(s), Accepted)
    else
      var (t, reject) := Apply(s, r.session, r.action, r.companion, r.now, r.timeout, r.clock);
      (t, if reject.None? then Accepted else Refused(reject.value))
  }

  // ----- every atomic step, and runs of them

  datatype Step =
    | Keyboard(available: bool)
    | SetNotice(notice: Notice)
    | Ask(request: Request)
    | Poll(now: Millis, timeout: Millis)
    | Tick(now: Millis, timeout: Millis)
    | NoteClosed(session: Session)
    | FinishClosed(session: Session)
    | Begin(session: Session, captured: nat, clock: Millis)
    | End(now: Millis, clock: Millis)
    | Mouse(session: Session, op: MouseOp, from: Option<Point>, generation: nat, nowMs: nat, clock: Millis)
    | Type(session: Session, at: Option<Point>, generation: nat, nowMs: nat, clock: Millis)
    | CancelForShutdown
    | ResetForShutdown

  /** What one critical section under the gate lock does. */
  function Next(s: State, step: Step): State {
    match step
    case Keyboard(available) => ReportKeyboard(s, available)
    case SetNotice(notice) => s.(notice := notice)
    case Ask(request) => ControlAutomation(s, request).0
    case Poll(now, timeout) => NotePoll(s, now, timeout).0
    case Tick(now, timeout) => Watchdog(s, now, timeout)
    case NoteClosed(session) => NoteSessionClosed(s, session)
    case FinishClosed(session) => FinishClosedSession(s, session)
    case Begin(session, captured, clock) => BeginInject(s, session, captured, clock).0
    case End(now, clock) => FinishInject(s, now, clock)
    case Mouse(session, op, from, generation, nowMs, clock) =>
      RecordMouse(s, session, op, from, generation, nowMs, clock)
    case Type(session, at, generation, nowMs, clock) =>
      RecordType(s, session, at, generation, nowMs, clock)
    case CancelForShutdown => ShutdownCancel(s)
    case ResetForShutdown => Reset(s)
  }

  function Run(s: State, steps: seq<Step>): State
    decreases |steps|
  {
    if steps == [] then s else Run(Next(s, steps[0]), steps[1..])
  }
}
