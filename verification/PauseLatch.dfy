/** A pause, once published, holds until the companion itself lifts it. */
module PauseLatch {
  import opened Basics
  import opened GateModel
  import opened GateInvariant

  /** Entries that, replayed over `paused`, leave it paused. */
  predicate KeepsPause(action: Deferred) {
    action.Pause? || action.Close? || action.KeyboardUnavailable?
  }

  /** A queued pause with nothing after it that could undo it. */
  ghost predicate PauseTail(queue: seq<Entry>) {
    exists i :: 0 <= i < |queue| && PausesFrom(queue, i)
  }

  ghost predicate PausesFrom(queue: seq<Entry>, i: nat)
    requires i < |queue|
  {
    queue[i].action.Pause? && forall j :: i < j < |queue| ==> KeepsPause(queue[j].action)
  }

  ghost predicate Latched(s: State) {
    s.phase == Paused && (s.injecting ==> PauseTail(s.queue))
  }

  /** The steps that may end a pause: companion controls other than pause, and shutdown. */
  predicate MayLift(step: Step) {
    match step
    case Ask(r) => r.companion && r.action != Control.Pause
    case CancelForShutdown => true
    case ResetForShutdown => true
    case _ => false
  }

  predicate NoLift(steps: seq<Step>) {
    forall i :: 0 <= i < |steps| ==> !MayLift(steps[i])
  }

  lemma TailGrows(queue: seq<Entry>, entry: Entry)
    requires entry.action.Pause? || (PauseTail(queue) && KeepsPause(entry.action))
    ensures PauseTail(queue + [entry])
  {
    if entry.action.Pause? {
      assert PausesFrom(queue + [entry], |queue|);
    } else {
      var i :| 0 <= i < |queue| && PausesFrom(queue, i);
      assert PausesFrom(queue + [entry], i);
    }
  }

  lemma {:induction false} PausedStaysPaused(s: State, entries: seq<Entry>, now: Millis, clock: Millis)
    requires s.phase == Paused && forall i :: 0 <= i < |entries| ==> KeepsPause(entries[i].action)
    ensures Replay(s, entries, now, clock).phase == Paused
    decreases |entries|
  {
    if entries != [] {
      PausedStaysPaused(ApplyDeferred(s, entries[0].action, now, clock), entries[1..], now, clock);
    }
  }

  /** Whatever the earlier entries do, a pause tail ends the replay paused. */
  lemma TailReplaysPaused(s: State, entries: seq<Entry>, now: Millis, clock: Millis)
    requires PauseTail(entries)
    ensures Replay(s, entries, now, clock).phase == Paused
  {
    var i :| 0 <= i < |entries| && PausesFrom(entries, i);
    assert entries == entries[..i] + entries[i..];
    ReplayConcat(s, entries[..i], entries[i..], now, clock);
    var before := Replay(s, entries[..i], now, clock);
    PausedStaysPaused(ApplyDeferred(before, entries[i].action, now, clock), entries[i..][1..], now, clock);
  }

  /** The steps that publish a pause. */
  ghost predicate Pauses(s: State, step: Step) {
    match step
    case Ask(r) => r.action == Control.Pause
    case Tick(now, timeout) => s.phase == Running && GapExpired(s, now, timeout)
    case Poll(now, timeout) => s.phase == Running && GapExpired(s, now, timeout)
    case _ => false
  }

  /** Every way a pause arises, whatever was queued before it, latches the gate. */
  lemma EveryPauseLatches(s: State, step: Step)
    requires Inv(s) && Pauses(s, step)
    ensures Latched(Next(s, step))
  {
    if s.injecting {
      TailGrows(s.queue, Entry(s.controlSeq + 1, Deferred.Pause));
    }
  }

  lemma LatchSurvivesStep(s: State, step: Step)
    requires Inv(s) && Latched(s) && !MayLift(step)
    ensures Latched(Next(s, step))
  {
    match step
    case End(now, clock) =>
      if s.injecting {
        TailReplaysPaused(s.(injecting := false, settledSeq := Max(s.settledSeq, s.injectSeq), queue := []),
                          s.queue, now, clock);
        FinishKeepsInv(s, now, clock);
      }
    case Ask(r) =>
      if s.injecting {
        TailGrows(s.queue, Entry(s.controlSeq + 1, Deferred.Pause));
      }
    case NoteClosed(session) =>
      if s.injecting {
        TailGrows(s.queue, Entry(s.controlSeq + 1, Close(session, s.generation)));
      }
    case FinishClosed(session) =>
      if s.injecting {
        TailGrows(s.queue, Entry(s.controlSeq + 1, Close(session, s.generation)));
      }
    case Keyboard(available) =>
      if s.injecting {
        TailGrows(s.queue, Entry(s.controlSeq + 1, KeyboardUnavailable));
      }
    case _ =>
  }

  /**
   The latch over whole runs: closes, polls, watchdog ticks, keyboard reports, records,
   TCP controls, new injections and the unwind of a live one all leave it paused.
   */
  lemma {:induction false} LatchHolds(s: State, steps: seq<Step>)
    requires Inv(s) && Latched(s) && NoLift(steps)
    ensures Inv(Run(s, steps)) && Latched(Run(s, steps))
    decreases |steps|
  {
    if steps != [] {
      LatchSurvivesStep(s, steps[0]);
      NextKeepsInv(s, steps[0]);
      LatchHolds(Next(s, steps[0]), steps[1..]);
    }
  }

  /** From TCP, no sequence of controls other than pause changes a paused gate or is accepted by it. */
  lemma {:induction false} TcpNeverLifts(s: State, requests: seq<Request>)
    requires s.phase == Paused
    requires forall i :: 0 <= i < |requests| ==> !requests[i].companion && requests[i].action != Control.Pause
    ensures AskAll(s, requests) == s
    ensures forall i :: 0 <= i < |requests| ==> ControlAutomation(s, requests[i]).1 != Accepted
    decreases |requests|
  {
    if requests != [] {
      assert ControlAutomation(s, requests[0]).0 == s;
      TcpNeverLifts(s, requests[1..]);
    }
  }

  function AskAll(s: State, requests: seq<Request>): State
    decreases |requests|
  {
    if requests == [] then s else AskAll(ControlAutomation(s, requests[0]).0, requests[1..])
  }
}
