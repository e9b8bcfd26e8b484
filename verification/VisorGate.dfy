/**
 The visor gate as the source keeps it: one object whose methods update its
 fields in place, beside a published word that request threads load without the
 gate lock. Each method is proved equal to the function of the same name in
 `GateModel`, applied to the state before the call.
 */
module VisorGate {
  import opened Basics
  import opened InputTypes
  import opened GateModel

  /** The shared 64-bit word. Only gate methods store it. */
  class AtomicWord {
    var value: nat

    constructor (value: nat)
      ensures this.value == value
    {
      this.value := value;
    }
  }

  class Gate {
    var session: Option<Session>
    var phase: Phase
    var drive: Option<Drive>
    var pointer: Option<Point>
    var lastAtMs: Option<nat>
    var notice: Notice
    var generation: nat
    var resumeSeq: nat
    var injectSeq: nat
    var settledSeq: nat
    var injecting: bool
    var controlSeq: nat
    var deferred: seq<Entry>
    var epoch: nat
    var trustedAt: Option<Millis>
    var lastPoll: Option<Millis>
    var keyboard: bool
    const published: AtomicWord

    ghost function Model(): State
      reads this, published
    {
      State(session, phase, drive, pointer, lastAtMs, notice, generation, resumeSeq, injectSeq, settledSeq,
            injecting, controlSeq, deferred, epoch, trustedAt, lastPoll, keyboard, published.value)
    }

    constructor ()
      ensures Model() == INITIAL && fresh(published)
    {
      session, phase, drive, pointer, lastAtMs := None, Off, None, None, None;
      notice, generation, resumeSeq, injectSeq, settledSeq := NoNotice, 0, 0, 0, 0;
      injecting, controlSeq, deferred, epoch := false, 0, [], 0;
      trustedAt, lastPoll, keyboard := None, None, true;
      published := new AtomicWord(0);
    }

    /** A second gate with its own word: simulating on it cannot publish over the live one. */
    constructor AdmissionScratch(live: Gate)
      ensures Model() == GateModel.AdmissionScratch(live.Model()) && fresh(published)
    {
      session, phase, drive, pointer, lastAtMs := live.session, live.phase, None, None, None;
      notice, generation, resumeSeq := live.notice, live.generation, live.resumeSeq;
      injectSeq, settledSeq := live.injectSeq, live.settledSeq;
      injecting, controlSeq, deferred, epoch := false, live.controlSeq, live.deferred, live.epoch;
      trustedAt, lastPoll, keyboard := live.trustedAt, live.lastPoll, live.keyboard;
      published := new AtomicWord(0);
    }

    method Publish()
      modifies published
      ensures published.value == PackSnap(epoch, phase)
    {
      published.value := PackSnap(epoch, phase);
    }

    method BumpEpoch()
      modifies `epoch
      ensures epoch == old(epoch) + 1
    {
      epoch := epoch + 1;
    }

    method Touch()
      modifies `controlSeq
      ensures controlSeq == old(controlSeq) + 1
    {
      controlSeq := controlSeq + 1;
    }

    method Defer(action: Deferred)
      modifies `deferred
      ensures deferred == old(deferred) + [Entry(controlSeq, action)]
    {
      deferred := deferred + [Entry(controlSeq, action)];
    }

    method Reset()
      modifies this, published
      ensures unchanged(`notice, `resumeSeq, `injectSeq, `settledSeq, `controlSeq, `epoch)
      ensures unchanged(`trustedAt, `lastPoll, `keyboard)
      ensures Model() == GateModel.Reset(old(Model()))
    {
      generation := generation + 1;
      session, phase, drive, pointer, lastAtMs := None, Off, None, None, None;
      injecting, deferred := false, [];
      Publish();
    }

    method Pause()
      modifies this, published
      ensures unchanged(`session, `drive, `pointer, `lastAtMs, `notice, `generation, `resumeSeq)
      ensures unchanged(`injectSeq, `settledSeq, `injecting, `trustedAt, `lastPoll, `keyboard)
      ensures Model() == PauseGate(old(Model()))
    {
      BumpEpoch();
      phase := Paused;
      Touch();
      if injecting {
        Defer(Deferred.Pause);
      }
      Publish();
    }

    method Stop()
      modifies this, published
      ensures Model() == StopGate(old(Model()))
    {
      BumpEpoch();
      Touch();
      if injecting {
        Defer(Deferred.Stop);
        Publish();
        return;
      }
      Reset();
    }

    method ShutdownCancel()
      modifies this, published
      ensures Model() == GateModel.ShutdownCancel(old(Model()))
    {
      BumpEpoch();
      Touch();
      if injecting {
        Defer(Deferred.Stop);
      }
      Publish();
    }

    method EnterRunning(id: Session, grantGrace: bool, clock: Millis)
      modifies this, published
      ensures Model() == GateModel.EnterRunning(old(Model()), id, grantGrace, clock)
    {
      var entering := phase != Running;
      session := Some(id);
      drive := None;
      if entering && grantGrace {
        trustedAt := Some(clock);
      }
      phase := Running;
      resumeSeq := resumeSeq + 1;
      Publish();
    }

    method ClearSession(id: Session)
      modifies this, published
      ensures Model() == GateModel.ClearSession(old(Model()), id)
    {
      if session != Some(id) {
        return;
      }
      if phase == Paused {
        session, drive := None, None;
        generation := generation + 1;
        Publish();
        return;
      }
      Reset();
    }

    method SetKeyboardInterrupt(available: bool)
      modifies this, published
      ensures unchanged(`session, `drive, `pointer, `lastAtMs, `notice, `generation, `resumeSeq)
      ensures unchanged(`injectSeq, `settledSeq, `injecting, `trustedAt, `lastPoll)
      ensures Model() == ReportKeyboard(old(Model()), available)
    {
      if available {
        return;
      }
      var edge := keyboard;
      keyboard := false;
      if injecting {
        if edge {
          BumpEpoch();
          phase := Paused;
          Touch();
          Defer(KeyboardUnavailable);
          Publish();
          return;
        }
        if phase != Paused {
          BumpEpoch();
          phase := Paused;
          Publish();
        }
        return;
      }
      if phase == Running {
        Pause();
      }
    }

    /** `running` under this session. The first entry, with no trusted instant, arms one window. */
    method RunFor(id: Session, clock: Millis)
      modifies `session, `trustedAt, `phase
      ensures session == Some(id) && phase == Running
      ensures trustedAt == old(if phase != Running && trustedAt == None then Some(clock) else trustedAt)
    {
      session := Some(id);
      if phase != Running {
        if trustedAt == None {
          trustedAt := Some(clock);
        }
        phase := Running;
      }
    }

    method BeginInject(id: Session, captured: nat, clock: Millis) returns (seqNo: Option<nat>)
      modifies this, published
      ensures (Model(), seqNo) == GateModel.BeginInject(old(Model()), id, captured, clock)
    {
      if epoch != captured || phase == Paused {
        return None;
      }
      injectSeq := injectSeq + 1;
      injecting := true;
      RunFor(id, clock);
      Publish();
      seqNo := Some(injectSeq);
    }

    method ApplyDeferred(action: Deferred, now: Millis, clock: Millis)
      modifies this, published
      ensures Model() == GateModel.ApplyDeferred(old(Model()), action, now, clock)
    {
      match action
      case Stop => Reset();
      case Pause =>
        phase := Paused;
        Publish();
      case Close(id, gen) =>
        if session == Some(id) && generation == gen {
          ClearSession(id);
        }
      case KeyboardUnavailable =>
        keyboard := false;
        if phase == Running {
          phase := Paused;
          Publish();
        }
      case Start(id, companion, timeout) =>
        if keyboard && (phase == Running || companion || Within(lastPoll, now, timeout)) {
          EnterRunning(id, companion, clock);
        }
      case Resume(owner, companion, timeout) =>
        if phase == Running {
          return;
        }
        match owner
        case Some(id) =>
          if keyboard && (phase == Running || companion || Within(lastPoll, now, timeout)) {
            EnterRunning(id, companion, clock);
          }
        case None =>
          if phase == Paused && keyboard {
            Reset();
          }
    }

    /** Replay in place: each queued control acts on what the previous one left. */
    method ReplayQueued(now: Millis, clock: Millis)
      modifies this, published
      ensures Model() == GateModel.ReplayQueued(old(Model()), now, clock)
    {
      var entries := deferred;
      deferred := [];
      ghost var start := Model();
      var i := 0;
      while i < |entries|
        invariant 0 <= i <= |entries|
        invariant Replay(Model(), entries[i..], now, clock) == Replay(start, entries, now, clock)
      {
        assert entries[i..][1..] == entries[i + 1..];
        ApplyDeferred(entries[i].action, now, clock);
        i := i + 1;
      }
    }

    method FinishInject(now: Millis, clock: Millis)
      modifies this, published
      ensures Model() == GateModel.FinishInject(old(Model()), now, clock)
    {
      injecting := false;
      settledSeq := Max(settledSeq, injectSeq);
      ReplayQueued(now, clock);
      Publish();
    }

    method NoteSessionClosed(id: Session)
      modifies this, published
      ensures Model() == GateModel.NoteSessionClosed(old(Model()), id)
    {
      if session != Some(id) {
        return;
      }
      Touch();
      if injecting {
        Defer(Close(id, generation));
        return;
      }
      BumpEpoch();
      ClearSession(id);
    }

    method FinishClosedSession(id: Session)
      modifies this, published
      ensures Model() == GateModel.FinishClosedSession(old(Model()), id)
    {
      if injecting {
        if session == Some(id) {
          Touch();
          Defer(Close(id, generation));
        }
        return;
      }
      ClearSession(id);
    }

    method NotePoll(now: Millis, timeout: Millis) returns (expired: bool)
      modifies this, published
      ensures (Model(), expired) == GateModel.NotePoll(old(Model()), now, timeout)
    {
      if phase == Running && !Within(trustedAt, now, timeout) {
        Pause();
        return true;
      }
      lastPoll := Some(now);
      trustedAt := Some(now);
      expired := false;
    }

    method Watchdog(now: Millis, timeout: Millis)
      modifies this, published
      ensures Model() == GateModel.Watchdog(old(Model()), now, timeout)
    {
      if phase != Running {
        return;
      }
      if !Within(trustedAt, now, timeout) {
        Pause();
      }
    }

    /** Reads this gate only: no `modifies` clause, so its queue and word stay as they were. */
    method ReentryIsStale(companion: bool, now: Millis, timeout: Millis, clock: Millis) returns (stale: bool)
      ensures stale == GateModel.ReentryIsStale(Model(), companion, now, timeout, clock)
    {
      if companion {
        return false;
      }
      var scratch := new Gate.AdmissionScratch(this);
      scratch.ReplayQueued(clock, clock);
      stale := scratch.phase != Running && !Within(lastPoll, now, timeout);
    }

    method DeferControl(owner: Option<Session>, action: Control, companion: bool,
                        now: Millis, timeout: Millis, clock: Millis) returns (reject: Option<Reject>)
      requires injecting
      modifies this, published
      ensures (Model(), reject) == GateModel.DeferControl(old(Model()), owner, action, companion, now, timeout, clock)
    {
      reject := None;
      match action
      case Start =>
        if owner == None {
          return Some(NeedsSession);
        }
        var stale := ReentryIsStale(companion, now, timeout, clock);
        if stale {
          return Some(StalePoll);
        }
        Touch();
        Defer(Deferred.Start(owner.value, companion, timeout));
      case Pause => Pause();
      case Resume =>
        if owner.Some? {
          var stale := ReentryIsStale(companion, now, timeout, clock);
          if stale {
            return Some(StalePoll);
          }
        }
        Touch();
        Defer(Deferred.Resume(owner, companion, timeout));
      case Stop => Stop();
    }

    method Apply(owner: Option<Session>, action: Control, companion: bool,
                 now: Millis, timeout: Millis, clock: Millis) returns (reject: Option<Reject>)
      modifies this, published
      ensures (Model(), reject) == GateModel.Apply(old(Model()), owner, action, companion, now, timeout, clock)
    {
      if injecting {
        reject := DeferControl(owner, action, companion, now, timeout, clock);
        return;
      }
      reject := None;
      match action
      case Start =>
        if owner == None {
          return Some(NeedsSession);
        }
        if phase != Running && !companion && !Within(lastPoll, now, timeout) {
          return Some(StalePoll);
        }
        Touch();
        EnterRunning(owner.value, companion, clock);
      case Pause => Pause();
      case Resume =>
        if phase != Paused {
          Touch();
          return;
        }
        if owner == None {
          Touch();
          Reset();
          return;
        }
        if !companion && !Within(lastPoll, now, timeout) {
          return Some(StalePoll);
        }
        Touch();
        EnterRunning(owner.value, companion, clock);
      case Stop => Stop();
    }

    method Store(id: Session, kind: DriveKind, at: Point, from: Point, clickable: bool,
                 pointerKnown: bool, nowMs: nat, clock: Millis)
      modifies this, published
      ensures unchanged(`notice, `generation, `resumeSeq, `injectSeq, `settledSeq, `injecting)
      ensures unchanged(`controlSeq, `deferred, `epoch, `lastPoll, `keyboard)
      ensures Model() == GateModel.Store(old(Model()), id, kind, at, from, clickable, pointerKnown, nowMs, clock)
    {
      drive := Some(Drive(kind, at.x, at.y, from.x, from.y, clickable, Elapsed(lastAtMs, nowMs), nowMs,
                          pointerKnown, resumeSeq, injectSeq));
      lastAtMs := Some(nowMs);
      RunFor(id, clock);
      if pointerKnown {
        pointer := Some(at);
      }
      Publish();
    }

    method RecordMouse(id: Session, op: MouseOp, from: Option<Point>, gen: nat, nowMs: nat, clock: Millis)
      modifies this, published
      ensures Model() == GateModel.RecordMouse(old(Model()), id, op, from, gen, nowMs, clock)
    {
      if generation != gen || phase == Paused {
        return;
      }
      match op
      case Move(x, y, clickable) =>
        Store(id, MoveDrive, Point(x, y), FirstKnown(from, pointer, Point(x, y)), clickable, true, nowMs, clock);
      case Scroll(x, y, _, _) =>
        Store(id, MoveDrive, Point(x, y), FirstKnown(from, pointer, Point(x, y)), false, true, nowMs, clock);
      case Click(x, y, _) =>
        Store(id, ClickDrive, Point(x, y), FirstKnown(from, pointer, Point(x, y)), false, true, nowMs, clock);
      case Drag(x, y, toX, toY, _) =>
        Store(id, DragDrive, Point(toX, toY), Point(x, y), false, true, nowMs, clock);
    }

    method RecordType(id: Session, at: Option<Point>, gen: nat, nowMs: nat, clock: Millis)
      modifies this, published
      ensures Model() == GateModel.RecordType(old(Model()), id, at, gen, nowMs, clock)
    {
      if generation != gen || phase == Paused {
        return;
      }
      var known := if at.Some? then at else pointer;
      var point := if known.Some? then known.value else Point(0, 0);
      Store(id, TypeDrive, point, point, false, known.Some?, nowMs, clock);
    }

    /** The control endpoint, from the point where it takes the gate lock. */
    method ControlAutomation(r: Request) returns (reply: Reply)
      modifies this, published
      ensures (Model(), reply) == GateModel.ControlAutomation(old(Model()), r)
    {
      if (r.action == Control.Start || r.action == Control.Resume) && (r.wayland || r.keyboardBlocked) {
        return NotImplemented;
      }
      if r.action == Control.Pause {
        Pause();
        return Accepted;
      }
      if r.action == Control.Stop {
        if LiftsUserPause(r.action, phase) && !r.companion {
          return Forbidden;
        }
        Stop();
        return Accepted;
      }
      if LiftsUserPause(r.action, phase) && !r.companion {
        return Forbidden;
      }
      var reject := Apply(r.session, r.action, r.companion, r.now, r.timeout, r.clock);
      reply := if reject.None? then Accepted else Refused(reject.value);
    }
  }
}
