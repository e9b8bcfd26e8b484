/** The deferred queue at the unwind: replays that agree, and an admission that sees what the unwind will leave. */
module DeferredQueue {
  import opened Basics
  import opened GateModel
  import opened GateInvariant

  // ----- two replays that agree

  /** The fields a replay reads to decide a phase. */
  ghost predicate SameView(a: State, b: State) {
    a.session == b.session && a.phase == b.phase && a.generation == b.generation &&
    a.keyboard == b.keyboard && a.lastPoll == b.lastPoll
  }

  function Window(action: Deferred): Option<Millis> {
    match action
    case Start(_, _, timeout) => Some(timeout)
    case Resume(_, _, timeout) => Some(timeout)
    case _ => None
  }

  /** Both clocks judge the last poll alike for every window in the queue. */
  ghost predicate SameFreshness(s: State, entries: seq<Entry>, now: Millis, now': Millis) {
    forall i :: 0 <= i < |entries| && Window(entries[i].action).Some? ==>
                  var window := Window(entries[i].action).value;
                  PollFresh(s, now, window) == PollFresh(s, now', window)
  }

  /** Two states that agree step alike, if their clocks judge the entry's window alike. */
  ghost predicate Agree(a: State, b: State, a': State, b': State) {
    SameView(a', b') && a'.lastPoll == a.lastPoll && a'.resumeSeq - a.resumeSeq == b'.resumeSeq - b.resumeSeq
  }

  lemma EntriesAgree(a: State, b: State, session: Session, companion: bool, window: Millis,
                     now: Millis, clock: Millis, now': Millis, clock': Millis)
    requires SameView(a, b) && PollFresh(a, now, window) == PollFresh(a, now', window)
    ensures ReentryAdmitted(a, companion, now, window) == ReentryAdmitted(b, companion, now', window)
    ensures Agree(a, b, EnterRunning(a, session, companion, clock), EnterRunning(b, session, companion, clock'))
  {
  }

  lemma ClosesAgree(a: State, b: State, session: Session)
    requires SameView(a, b)
    ensures Agree(a, b, ClearSession(a, session), ClearSession(b, session))
  {
  }

  lemma StepsAgree(a: State, b: State, action: Deferred, now: Millis, clock: Millis, now': Millis, clock': Millis)
    requires SameView(a, b)
    requires Window(action).Some? ==>
               PollFresh(a, now, Window(action).value) == PollFresh(a, now', Window(action).value)
    ensures Agree(a, b, ApplyDeferred(a, action, now, clock), ApplyDeferred(b, action, now', clock'))
  {
    match action
    case Start(session, companion, window) =>
      EntriesAgree(a, b, session, companion, window, now, clock, now', clock');
    case Resume(owner, companion, window) =>
      if owner.Some? {
        EntriesAgree(a, b, owner.value, companion, window, now, clock, now', clock');
      }
    case Close(session, _) => ClosesAgree(a, b, session);
    case _ =>
  }

  lemma {:induction false} ReplaysAgree(a: State, b: State, entries: seq<Entry>,
                                        now: Millis, clock: Millis, now': Millis, clock': Millis)
    requires SameView(a, b) && SameFreshness(a, entries, now, now')
    ensures var a' := Replay(a, entries, now, clock);
            var b' := Replay(b, entries, now', clock');
            SameView(a', b') && a'.lastPoll == a.lastPoll && a'.resumeSeq - a.resumeSeq == b'.resumeSeq - b.resumeSeq
    decreases |entries|
  {
    if entries != [] {
      StepsAgree(a, b, entries[0].action, now, clock, now', clock');
      ReplaysAgree(ApplyDeferred(a, entries[0].action, now, clock), ApplyDeferred(b, entries[0].action, now', clock'),
                   entries[1..], now, clock, now', clock');
    }
  }

  /** The state an unwind hands to the replay. */
  function Unwound(s: State): State {
    s.(injecting := false, settledSeq := Max(s.settledSeq, s.injectSeq), queue := [])
  }

  // ----- admission

  /** The admission simulation sees exactly the phase an unwind at that clock would leave. */
  lemma AdmissionSimulatesUnwind(s: State, now: Millis, clock: Millis)
    ensures PhaseAfterDeferred(s, now) == FinishInject(s, now, clock).phase
  {
    ReplaysAgree(AdmissionScratch(s).(queue := []), Unwound(s), s.queue, now, now, now, clock);
  }

  lemma {:induction false} KeyboardStaysUp(s: State, entries: seq<Entry>, now: Millis, clock: Millis)
    requires s.keyboard && forall i :: 0 <= i < |entries| ==> !entries[i].action.KeyboardUnavailable?
    ensures Replay(s, entries, now, clock).keyboard
    decreases |entries|
  {
    if entries != [] {
      assert !entries[0].action.KeyboardUnavailable?;
      KeyboardStaysUp(ApplyDeferred(s, entries[0].action, now, clock), entries[1..], now, clock);
    }
  }

  /** What the unwind does once one more entry is appended: the old replay, then that entry. */
  lemma UnwindAppended(s: State, t: State, entry: Entry, now: Millis, clock: Millis)
    requires Inv(s) && t.queue == s.queue + [entry]
    ensures var before := Replay(Unwound(t), s.queue, now, clock);
            var after := ApplyDeferred(before, entry.action, now, clock);
            && FinishInject(t, now, clock) == after.(word := PackSnap(after.epoch, after.phase))
            && (s.keyboard && t.keyboard ==> before.keyboard)
  {
    var before := Replay(Unwound(t), s.queue, now, clock);
    ReplayConcat(Unwound(t), s.queue, [entry], now, clock);
    assert Replay(before, [entry], now, clock) == ApplyDeferred(before, entry.action, now, clock) by {
      assert [entry][1..] == [];
    }
    if s.keyboard && t.keyboard {
      KeyboardStaysUp(Unwound(t), s.queue, now, clock);
    }
  }

  /** Accepted at a clock, then unwound at that clock with nothing queued after it: running. */
  lemma AcceptedTcpEntryRuns(s: State, session: Session, action: Control, now: Millis, timeout: Millis, clock: Millis)
    requires Inv(s) && s.injecting && s.keyboard
    requires action == Control.Start || action == Control.Resume
    requires Apply(s, Some(session), action, false, now, timeout, now).1 == None
    ensures var t := FinishInject(Apply(s, Some(session), action, false, now, timeout, now).0, now, clock);
            t.phase == Running && (action == Control.Start ==> t.session == Some(session))
  {
    var t := Apply(s, Some(session), action, false, now, timeout, now).0;
    var entry := t.queue[|s.queue|];
    UnwindAppended(s, t, entry, now, clock);
    AdmissionSimulatesUnwind(s, now, clock);
    ReplaysAgree(Unwound(s), Unwound(t), s.queue, now, clock, now, clock);
  }
}
