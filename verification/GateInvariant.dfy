/** What every critical section of the gate keeps, and what no step ever undoes. */
module GateInvariant {
  import opened Basics
  import opened InputTypes
  import opened GateModel

  // ----- the published word

  lemma UnpackPack(epoch: nat, phase: Phase)
    ensures UnpackSnap(PackSnap(epoch, phase)) == (epoch % EPOCH_LIMIT, phase)
  {
    assert (epoch * 4) % WORD_SIZE == (epoch % EPOCH_LIMIT) * 4 by {
      assert epoch == EPOCH_LIMIT * (epoch / EPOCH_LIMIT) + epoch % EPOCH_LIMIT;
      assert epoch * 4 == WORD_SIZE * (epoch / EPOCH_LIMIT) + (epoch % EPOCH_LIMIT) * 4;
    }
  }

  /** The word carries the epoch faithfully exactly below the two-bit shift's limit. */
  lemma RoundTripExactly(epoch: nat, phase: Phase)
    ensures UnpackSnap(PackSnap(epoch, phase)) == (epoch, phase) <==> epoch < EPOCH_LIMIT
  {
    UnpackPack(epoch, phase);
  }

  // ----- the inductive invariant

  ghost predicate QueueInv(s: State) {
    && (s.queue != [] ==> s.injecting)
    && (forall i, j :: 0 <= i < j < |s.queue| ==> s.queue[i].seqNo < s.queue[j].seqNo)
    && (forall i :: 0 <= i < |s.queue| ==> s.queue[i].seqNo <= s.controlSeq)
    && (forall i, j :: 0 <= i < j < |s.queue| ==>
                         !(s.queue[i].action.KeyboardUnavailable? && s.queue[j].action.KeyboardUnavailable?))
    && (forall i :: 0 <= i < |s.queue| && s.queue[i].action.KeyboardUnavailable? ==> !s.keyboard)
  }

  ghost predicate Inv(s: State) {
    && s.word == PackSnap(s.epoch, s.phase)
    && (s.phase.Off? ==> s.session.None? && s.drive.None?)
    && (s.phase.Running? ==> s.session.Some?)
    && (s.drive.Some? ==> s.session.Some? && s.drive.value.resumeSeq == s.resumeSeq)
    && s.settledSeq <= s.injectSeq
    && (s.injecting ==> s.settledSeq < s.injectSeq && !s.phase.Off? && s.session.Some?)
    && QueueInv(s)
  }

  lemma InitialInv()
    ensures Inv(INITIAL)
  {
  }

  /** What a replayed control leaves alone, and what it only moves forward. */
  ghost predicate ReplayFrame(s: State, t: State) {
    && t.epoch == s.epoch && t.controlSeq == s.controlSeq && t.lastPoll == s.lastPoll
    && t.injectSeq == s.injectSeq && t.settledSeq == s.settledSeq && t.notice == s.notice
    && s.generation <= t.generation && s.resumeSeq <= t.resumeSeq
    && (t.keyboard ==> s.keyboard)
  }

  lemma ApplyDeferredKeeps(s: State, action: Deferred, now: Millis, clock: Millis)
    requires Inv(s) && !s.injecting
    ensures var t := ApplyDeferred(s, action, now, clock);
            Inv(t) && !t.injecting && ReplayFrame(s, t)
  {
  }

  lemma {:induction false} ReplayKeeps(s: State, entries: seq<Entry>, now: Millis, clock: Millis)
    requires Inv(s) && !s.injecting
    ensures var t := Replay(s, entries, now, clock);
            Inv(t) && !t.injecting && ReplayFrame(s, t)
    decreases |entries|
  {
    if entries != [] {
      ApplyDeferredKeeps(s, entries[0].action, now, clock);
      ReplayKeeps(ApplyDeferred(s, entries[0].action, now, clock), entries[1..], now, clock);
    }
  }

  lemma {:induction false} ReplayConcat(s: State, a: seq<Entry>, b: seq<Entry>, now: Millis, clock: Millis)
    ensures Replay(s, a + b, now, clock) == Replay(Replay(s, a, now, clock), b, now, clock)
    decreases |a|
  {
    if a == [] {
      assert a + b == b;
    } else {
      assert (a + b)[1..] == a[1..] + b;
      ReplayConcat(ApplyDeferred(s, a[0].action, now, clock), a[1..], b, now, clock);
    }
  }

  lemma FinishKeepsInv(s: State, now: Millis, clock: Millis)
    requires Inv(s)
    ensures var t := FinishInject(s, now, clock);
            Inv(t) && !t.injecting && ReplayFrame(s.(settledSeq := Max(s.settledSeq, s.injectSeq)), t)
  {
    var taken := s.(injecting := false, settledSeq := Max(s.settledSeq, s.injectSeq), queue := []);
    ReplayKeeps(taken, s.queue, now, clock);
  }

  lemma PauseKeepsInv(s: State)
    requires Inv(s)
    ensures Inv(PauseGate(s))
  {
  }

  lemma StopKeepsInv(s: State)
    requires Inv(s)
    ensures Inv(CancelInFlight(s)) && Inv(StopGate(s)) && Inv(Reset(s))
  {
  }

  lemma EnqueueKeepsInv(s: State, action: Deferred)
    requires Inv(s) && s.injecting && !action.KeyboardUnavailable?
    ensures Inv(Enqueue(s, action))
  {
  }

  lemma KeyboardKeepsInv(s: State, available: bool)
    requires Inv(s)
    ensures Inv(ReportKeyboard(s, available))
  {
  }

  lemma EnterKeepsInv(s: State, session: Session, grace: bool, clock: Millis)
    requires Inv(s)
    ensures Inv(EnterRunning(Touch(s), session, grace, clock))
  {
  }

  lemma ApplyKeepsInv(s: State, r: Request)
    requires Inv(s)
    ensures Inv(Apply(s, r.session, r.action, r.companion, r.now, r.timeout, r.clock).0)
  {
    match r.action
    case Pause => PauseKeepsInv(s);
    case Stop => StopKeepsInv(s);
    case Start =>
      if r.session.Some? {
        if s.injecting {
          EnqueueKeepsInv(s, Deferred.Start(r.session.value, r.companion, r.timeout));
        } else {
          EnterKeepsInv(s, r.session.value, r.companion, r.clock);
        }
      }
    case Resume =>
      if s.injecting {
        EnqueueKeepsInv(s, Deferred.Resume(r.session, r.companion, r.timeout));
      } else if r.session.Some? {
        EnterKeepsInv(s, r.session.value, r.companion, r.clock);
      } else {
        StopKeepsInv(Touch(s));
      }
  }

  lemma ControlKeepsInv(s: State, r: Request)
    requires Inv(s)
    ensures Inv(ControlAutomation(s, r).0)
  {
    match r.action
    case Pause => PauseKeepsInv(s);
    case Stop => StopKeepsInv(s);
    case _ => ApplyKeepsInv(s, r);
  }

  lemma StoreKeepsInv(s: State, session: Session, kind: DriveKind, at: Point, from: Point, clickable: bool,
                      pointerKnown: bool, nowMs: nat, clock: Millis)
    requires Inv(s)
    ensures Inv(Store(s, session, kind, at, from, clickable, pointerKnown, nowMs, clock))
  {
  }

  lemma RecordKeepsInv(s: State, step: Step)
    requires Inv(s) && (step.Mouse? || step.Type?)
    ensures Inv(Next(s, step))
  {
    match step
    case Mouse(session, op, from, _, nowMs, clock) =>
      match op {
        case Move(x, y, clickable) =>
          var start := FirstKnown(from, s.pointer, Point(x, y));
          StoreKeepsInv(s, session, MoveDrive, Point(x, y), start, clickable, true, nowMs, clock);
        case Scroll(x, y, _, _) =>
          var start := FirstKnown(from, s.pointer, Point(x, y));
          StoreKeepsInv(s, session, MoveDrive, Point(x, y), start, false, true, nowMs, clock);
        case Click(x, y, _) =>
          var start := FirstKnown(from, s.pointer, Point(x, y));
          StoreKeepsInv(s, session, ClickDrive, Point(x, y), start, false, true, nowMs, clock);
        case Drag(x, y, toX, toY, _) =>
          StoreKeepsInv(s, session, DragDrive, Point(toX, toY), Point(x, y), false, true, nowMs, clock);
      }
    case Type(session, at, _, nowMs, clock) =>
      var known := if at.Some? then at else s.pointer;
      var point := if known.Some? then known.value else Point(0, 0);
      StoreKeepsInv(s, session, TypeDrive, point, point, false, known.Some?, nowMs, clock);
  }

  lemma BeginKeepsInv(s: State, session: Session, captured: nat, clock: Millis)
    requires Inv(s)
    ensures Inv(BeginInject(s, session, captured, clock).0)
  {
  }

  lemma ClosesKeepInv(s: State, session: Session)
    requires Inv(s)
    ensures Inv(NoteSessionClosed(s, session)) && Inv(FinishClosedSession(s, session))
  {
    if s.injecting {
      EnqueueKeepsInv(s, Close(session, s.generation));
    }
  }

  /** Every critical section, from any state the invariant allows, keeps the invariant. */
  lemma NextKeepsInv(s: State, step: Step)
    requires Inv(s)
    ensures Inv(Next(s, step))
  {
    match step
    case End(now, clock) => FinishKeepsInv(s, now, clock);
    case Ask(request) => ControlKeepsInv(s, request);
    case Keyboard(available) => KeyboardKeepsInv(s, available);
    case NoteClosed(session) => ClosesKeepInv(s, session);
    case FinishClosed(session) => ClosesKeepInv(s, session);
    case Poll(_, _) => PauseKeepsInv(s);
    case Tick(_, _) => PauseKeepsInv(s);
    case CancelForShutdown => StopKeepsInv(s);
    case ResetForShutdown => StopKeepsInv(s);
    case SetNotice(_) =>
    case Begin(session, captured, clock) => BeginKeepsInv(s, session, captured, clock);
    case _ => RecordKeepsInv(s, step);
  }

  lemma {:induction false} RunKeepsInv(s: State, steps: seq<Step>)
    requires Inv(s)
    ensures Inv(Run(s, steps))
    decreases |steps|
  {
    if steps != [] {
      NextKeepsInv(s, steps[0]);
      RunKeepsInv(Next(s, steps[0]), steps[1..]);
    }
  }

  // ----- counters only move forward

  ghost predicate Forward(s: State, t: State) {
    && s.epoch <= t.epoch
    && s.generation <= t.generation
    && s.resumeSeq <= t.resumeSeq
    && s.injectSeq <= t.injectSeq
    && s.controlSeq <= t.controlSeq
    && (t.keyboard ==> s.keyboard)
  }

  lemma ControlMovesForward(s: State, r: Request)
    ensures Forward(s, ControlAutomation(s, r).0)
  {
  }

  lemma NextMovesForward(s: State, step: Step)
    requires Inv(s)
    ensures Forward(s, Next(s, step))
  {
    match step
    case End(now, clock) => FinishKeepsInv(s, now, clock);
    case Ask(request) => ControlMovesForward(s, request);
    case _ =>
  }

  lemma {:induction false} RunMovesForward(s: State, steps: seq<Step>)
    requires Inv(s)
    ensures Inv(Run(s, steps)) && Forward(s, Run(s, steps))
    decreases |steps|
  {
    if steps != [] {
      NextKeepsInv(s, steps[0]);
      NextMovesForward(s, steps[0]);
      RunMovesForward(Next(s, steps[0]), steps[1..]);
    }
  }

  // ----- cancellation is permanent

  /** Accepted pauses and stops, an expired window, a missing keyboard under a live phase, a close of the owner. */
  ghost predicate MovesEpoch(s: State, step: Step) {
    match step
    case Ask(r) => ControlAutomation(s, r).1 == Accepted && (r.action == Control.Pause || r.action == Control.Stop)
    case Keyboard(available) =>
      !available && (if s.injecting then s.keyboard || s.phase != Paused else s.phase == Running)
    case Tick(now, timeout) => s.phase == Running && GapExpired(s, now, timeout)
    case Poll(now, timeout) => s.phase == Running && GapExpired(s, now, timeout)
    case NoteClosed(session) => s.session == Some(session) && !s.injecting
    case CancelForShutdown => true
    case _ => false
  }

  /** Resumes, starts, resets, records and unwinds never move the epoch; each step above moves it by one. */
  lemma EpochMovesExactly(s: State, step: Step)
    requires Inv(s)
    ensures Next(s, step).epoch == s.epoch + if MovesEpoch(s, step) then 1 else 0
  {
    match step
    case End(now, clock) => FinishKeepsInv(s, now, clock);
    case _ =>
  }

  /**
   What takes a control number: an accepted control, whatever pauses the gate or cancels a
   call, and a close of the owner. A repeat of a lost keyboard takes none.
   */
  ghost predicate TakesNumber(s: State, step: Step) {
    match step
    case Ask(r) => ControlAutomation(s, r).1 == Accepted
    case Keyboard(available) => !available && (if s.injecting then s.keyboard else s.phase == Running)
    case Tick(_, _) => MovesEpoch(s, step)
    case Poll(_, _) => MovesEpoch(s, step)
    case NoteClosed(session) => s.session == Some(session)
    case FinishClosed(session) => s.injecting && s.session == Some(session)
    case CancelForShutdown => true
    case _ => false
  }

  ghost predicate JoinsQueue(s: State, t: State, takes: bool) {
    if takes
    then |t.queue| == |s.queue| + 1 && t.queue[..|s.queue|] == s.queue && t.queue[|s.queue|].seqNo == s.controlSeq + 1
    else t.queue == s.queue
  }

  lemma AskNumbers(s: State, r: Request)
    ensures var t := ControlAutomation(s, r).0;
            && t.controlSeq == s.controlSeq + (if TakesNumber(s, Ask(r)) then 1 else 0)
            && (s.injecting ==> JoinsQueue(s, t, TakesNumber(s, Ask(r))))
  {
  }

  lemma NumbersMoveExactly(s: State, step: Step)
    requires Inv(s)
    ensures Next(s, step).controlSeq == s.controlSeq + if TakesNumber(s, step) then 1 else 0
  {
    match step
    case End(now, clock) => FinishKeepsInv(s, now, clock);
    case Ask(r) => AskNumbers(s, r);
    case _ =>
  }

  /** And what takes a number during a call joins its queue under that number; nothing else does. */
  lemma NumbersAreQueued(s: State, step: Step)
    requires Inv(s) && s.injecting && !step.End? && !step.ResetForShutdown?
    ensures JoinsQueue(s, Next(s, step), TakesNumber(s, step))
  {
    match step
    case Ask(r) => AskNumbers(s, r);
    case _ =>
  }

  /**
   A request that captured its epoch no later than `s` stays cancelled from the
   cancelling step on, whatever resumes, starts and resets follow. The epoch never
   returns to the captured value, so there is no ABA.
   */
  lemma CancellationIsPermanent(s: State, step: Step, steps: seq<Step>, captured: nat)
    requires Inv(s) && captured <= s.epoch && MovesEpoch(s, step)
    requires Run(Next(s, step), steps).epoch < EPOCH_LIMIT
    ensures var later := Run(Next(s, step), steps);
            && Cancelled(captured, later.word)
            && forall session, clock :: BeginInject(later, session, captured, clock) == (later, None)
  {
    NextKeepsInv(s, step);
    EpochMovesExactly(s, step);
    RunMovesForward(Next(s, step), steps);
    var later := Run(Next(s, step), steps);
    RoundTripExactly(later.epoch, later.phase);
  }

  /** An injection arms only if no step since the capture moved the epoch, at any point in between. */
  lemma ArmingMeansUndisturbed(s: State, before: seq<Step>, after: seq<Step>, session: Session, clock: Millis)
    requires Inv(s)
    requires BeginInject(Run(Run(s, before), after), session, s.epoch, clock).1.Some?
    ensures Run(s, before).epoch == s.epoch
    ensures Run(Run(s, before), after).phase != Paused
  {
    RunMovesForward(s, before);
    RunMovesForward(Run(s, before), after);
  }

  // ----- what a reset or a clear does to the generation

  /** Whether a queued control clears the gate or its owner when its turn comes. */
  predicate Clears(s: State, action: Deferred) {
    match action
    case Stop => true
    case Close(session, generation) => s.session == Some(session) && s.generation == generation
    case Resume(owner, _, _) => owner.None? && s.phase == Paused && s.keyboard
    case _ => false
  }

  function ClearsIn(s: State, entries: seq<Entry>, now: Millis, clock: Millis): nat
    decreases |entries|
  {
    if entries == [] then 0
    else (if Clears(s, entries[0].action) then 1 else 0) +
         ClearsIn(ApplyDeferred(s, entries[0].action, now, clock), entries[1..], now, clock)
  }

  /** Resets and clears: how many one step makes. */
  function ClearsOf(s: State, step: Step): nat {
    match step
    case ResetForShutdown => 1
    case Ask(r) =>
      if !s.injecting && ControlAutomation(s, r).1 == Accepted &&
         (r.action == Control.Stop || (r.action == Control.Resume && s.phase == Paused && r.session.None?))
      then 1 else 0
    case NoteClosed(session) => if !s.injecting && s.session == Some(session) then 1 else 0
    case FinishClosed(session) => if !s.injecting && s.session == Some(session) then 1 else 0
    case End(now, clock) =>
      ClearsIn(s.(injecting := false, settledSeq := Max(s.settledSeq, s.injectSeq), queue := []), s.queue, now, clock)
    case _ => 0
  }

  lemma {:induction false} ReplayCountsClears(s: State, entries: seq<Entry>, now: Millis, clock: Millis)
    ensures Replay(s, entries, now, clock).generation == s.generation + ClearsIn(s, entries, now, clock)
    decreases |entries|
  {
    if entries != [] {
      ReplayCountsClears(ApplyDeferred(s, entries[0].action, now, clock), entries[1..], now, clock);
    }
  }

  /** The generation counts resets and clears, each of them and nothing else. */
  lemma GenerationMovesExactly(s: State, step: Step)
    ensures Next(s, step).generation == s.generation + ClearsOf(s, step)
  {
    match step
    case End(now, clock) =>
      ReplayCountsClears(s.(injecting := false, settledSeq := Max(s.settledSeq, s.injectSeq), queue := []),
                         s.queue, now, clock);
    case _ =>
  }

  /** A stop queued anywhere in a call clears the gate at the unwind. */
  lemma {:induction false} QueuedStopClears(s: State, entries: seq<Entry>, now: Millis, clock: Millis)
    requires exists i :: 0 <= i < |entries| && entries[i].action.Stop?
    ensures ClearsIn(s, entries, now, clock) > 0
    decreases |entries|
  {
    if !entries[0].action.Stop? {
      var i :| 0 <= i < |entries| && entries[i].action.Stop?;
      assert entries[1..][i - 1].action.Stop?;
      QueuedStopClears(ApplyDeferred(s, entries[0].action, now, clock), entries[1..], now, clock);
    }
  }

  /** A reset, an accepted stop or a close of the owner outside a call, and the unwind of a call with a stop queued. */
  ghost predicate Resets(s: State, step: Step) {
    match step
    case ResetForShutdown => true
    case Ask(r) => r.action == Control.Stop && ControlAutomation(s, r).1 == Accepted && !s.injecting
    case NoteClosed(session) => s.session == Some(session) && !s.injecting
    case FinishClosed(session) => s.session == Some(session) && !s.injecting
    case End(_, _) => exists i :: 0 <= i < |s.queue| && s.queue[i].action.Stop?
    case _ => false
  }

  lemma ResetsMoveTheGeneration(s: State, step: Step)
    requires Resets(s, step)
    ensures Next(s, step).generation > s.generation
  {
    GenerationMovesExactly(s, step);
    match step
    case End(now, clock) =>
      QueuedStopClears(s.(injecting := false, settledSeq := Max(s.settledSeq, s.injectSeq), queue := []),
                       s.queue, now, clock);
    case _ =>
  }

  function AllClears(s: State, steps: seq<Step>): nat
    decreases |steps|
  {
    if steps == [] then 0 else ClearsOf(s, steps[0]) + AllClears(Next(s, steps[0]), steps[1..])
  }

  lemma {:induction false} AllClearsAreCounted(s: State, steps: seq<Step>)
    ensures Run(s, steps).generation == s.generation + AllClears(s, steps)
    decreases |steps|
  {
    if steps != [] {
      GenerationMovesExactly(s, steps[0]);
      AllClearsAreCounted(Next(s, steps[0]), steps[1..]);
    }
  }

  /** A drive captured before a reset or a session clear records nothing after it, whatever lies between. */
  lemma StaleDriveRecordsNothing(s: State, step: Step, steps: seq<Step>, drive: Step)
    requires Inv(s) && Resets(s, step)
    requires (drive.Mouse? || drive.Type?) && drive.generation <= s.generation
    ensures Next(Run(Next(s, step), steps), drive) == Run(Next(s, step), steps)
  {
    ResetsMoveTheGeneration(s, step);
    NextKeepsInv(s, step);
    RunMovesForward(Next(s, step), steps);
  }

  lemma RecordsOrNothing(s: State, drive: Step)
    requires drive.Mouse? || drive.Type?
    ensures var recorded := Next(s, drive);
            if Accepts(s, drive.generation)
            then recorded.drive.Some? && recorded.drive.value.atMs == drive.nowMs &&
                 recorded.session == Some(drive.session) && recorded.phase == Running
            else recorded == s
  {
  }

  /** And exactly: it records if nothing was cleared since its capture and the gate is not paused, else never. */
  lemma DriveRecordsExactly(s: State, steps: seq<Step>, drive: Step)
    requires (drive.Mouse? || drive.Type?) && drive.generation == s.generation
    ensures var later := Run(s, steps);
            var recorded := Next(later, drive);
            if AllClears(s, steps) == 0 && later.phase != Paused
            then recorded.drive.Some? && recorded.drive.value.atMs == drive.nowMs &&
                 recorded.session == Some(drive.session) && recorded.phase == Running
            else recorded == later
  {
    AllClearsAreCounted(s, steps);
    RecordsOrNothing(Run(s, steps), drive);
  }
}
