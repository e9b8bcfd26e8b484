/** A TCP start or resume refused during a call would not have run at any later unwind. */
module Refusals {
  import opened Basics
  import opened GateModel
  import opened GateInvariant
  import opened DeferredQueue

  // ----- what can be queued while a call runs unpaused

  /** Nothing that pauses is queued behind a running phase, and every queued close names the live generation. */
  ghost predicate CallInv(s: State) {
    && (s.phase != Paused ==> forall i :: 0 <= i < |s.queue| ==> NeverPauses(s.queue[i].action))
    && (forall i :: 0 <= i < |s.queue| ==> ClosesAt(s.queue[i].action, s.generation))
  }

  predicate NeverPauses(action: Deferred) {
    !action.Pause? && !action.KeyboardUnavailable?
  }

  predicate ClosesAt(action: Deferred, generation: nat) {
    action.Close? ==> action.generation == generation
  }

  lemma AskKeepsCallInv(s: State, r: Request)
    requires Inv(s) && CallInv(s)
    ensures CallInv(ControlAutomation(s, r).0)
  {
  }

  lemma RecordKeepsCallInv(s: State, step: Step)
    requires Inv(s) && CallInv(s) && (step.Mouse? || step.Type?)
    ensures CallInv(Next(s, step))
  {
  }

  lemma CallInvKept(s: State, step: Step)
    requires Inv(s) && CallInv(s)
    ensures CallInv(Next(s, step))
  {
    match step
    case Ask(r) => AskKeepsCallInv(s, r);
    case End(now, clock) => FinishKeepsInv(s, now, clock);
    case Mouse(_, _, _, _, _, _) => RecordKeepsCallInv(s, step);
    case Type(_, _, _, _, _) => RecordKeepsCallInv(s, step);
    case _ =>
  }

  lemma {:induction false} RunKeepsCallInv(s: State, steps: seq<Step>)
    requires Inv(s) && CallInv(s)
    ensures Inv(Run(s, steps)) && CallInv(Run(s, steps))
    decreases |steps|
  {
    if steps != [] {
      NextKeepsInv(s, steps[0]);
      CallInvKept(s, steps[0]);
      RunKeepsCallInv(Next(s, steps[0]), steps[1..]);
    }
  }

  // ----- the same queue replayed at an earlier and at a later clock

  /** The later replay runs only where the earlier one does, and until something clears both run for one owner. */
  ghost predicate Trails(early: State, late: State, live: nat) {
    && early.generation == late.generation && live <= late.generation
    && early.keyboard == late.keyboard && early.lastPoll == late.lastPoll
    && early.phase != Paused && late.phase != Paused
    && (late.phase == Running ==> early.phase == Running)
    && (late.generation == live ==> late.phase == Running && early.session == late.session)
  }

  lemma FreshnessDecays(s: State, now: Millis, later: Millis, timeout: Millis)
    requires now <= later && PollFresh(s, later, timeout)
    ensures PollFresh(s, now, timeout)
  {
  }

  lemma EntryTrails(early: State, late: State, live: nat, session: Session, companion: bool, timeout: Millis,
                    now: Millis, clock: Millis, later: Millis, clock': Millis)
    requires Trails(early, late, live) && now <= later
    ensures ReentryAdmitted(late, companion, later, timeout) ==> ReentryAdmitted(early, companion, now, timeout)
    ensures ReentryAdmitted(late, companion, later, timeout) ==>
              Trails(EnterRunning(early, session, companion, clock),
                     EnterRunning(late, session, companion, clock'), live)
    ensures !ReentryAdmitted(late, companion, later, timeout) && ReentryAdmitted(early, companion, now, timeout) ==>
              Trails(EnterRunning(early, session, companion, clock), late, live)
  {
  }

  lemma StepTrails(early: State, late: State, live: nat, action: Deferred,
                   now: Millis, clock: Millis, later: Millis, clock': Millis)
    requires Trails(early, late, live) && now <= later && NeverPauses(action) && ClosesAt(action, live)
    ensures Trails(ApplyDeferred(early, action, now, clock), ApplyDeferred(late, action, later, clock'), live)
  {
    match action
    case Start(session, companion, timeout) =>
      EntryTrails(early, late, live, session, companion, timeout, now, clock, later, clock');
    case Resume(owner, companion, timeout) =>
      if owner.Some? {
        EntryTrails(early, late, live, owner.value, companion, timeout, now, clock, later, clock');
      }
    case _ =>
  }

  lemma {:induction false} ReplayTrails(early: State, late: State, live: nat, entries: seq<Entry>,
                                        now: Millis, clock: Millis, later: Millis, clock': Millis)
    requires Trails(early, late, live) && now <= later
    requires forall i :: 0 <= i < |entries| ==> NeverPauses(entries[i].action) && ClosesAt(entries[i].action, live)
    ensures Trails(Replay(early, entries, now, clock), Replay(late, entries, later, clock'), live)
    decreases |entries|
  {
    if entries != [] {
      StepTrails(early, late, live, entries[0].action, now, clock, later, clock');
      ReplayTrails(ApplyDeferred(early, entries[0].action, now, clock),
                   ApplyDeferred(late, entries[0].action, later, clock'), live, entries[1..],
                   now, clock, later, clock');
    }
  }

  // ----- the refusal

  /** A TCP start or resume that reached the gate during a call and was refused for a stale poll. */
  predicate RefusedInCall(s: State, r: Request) {
    s.injecting && !r.companion && (r.action == Control.Start || r.action == Control.Resume) &&
    ControlAutomation(s, r).1 == Refused(StalePoll)
  }

  /** What it would have queued. */
  function Entered(r: Request): Deferred
    requires r.session.Some?
  {
    if r.action == Control.Start then Deferred.Start(r.session.value, r.companion, r.timeout)
    else Deferred.Resume(r.session, r.companion, r.timeout)
  }

  /** By the time its turn came the gate would not be running, and its window would have closed. */
  lemma TurnFindsNothing(s: State, r: Request, later: Millis, clock: Millis)
    requires Inv(s) && CallInv(s) && RefusedInCall(s, r) && r.now <= later && r.clock <= later
    ensures r.session.Some?
    ensures var turn := Replay(Unwound(s), s.queue, later, clock);
            turn.phase != Running && ApplyDeferred(turn, Entered(r), later, clock) == turn
  {
    var turn := Replay(Unwound(s), s.queue, later, clock);
    AdmissionSimulatesUnwind(s, r.clock, r.clock);
    ReplayTrails(Unwound(s), Unwound(s), s.generation, s.queue, r.clock, r.clock, later, clock);
    ReplaysAgree(Unwound(s), Unwound(s), s.queue, later, clock, later, clock);
    if PollFresh(turn, later, r.timeout) {
      FreshnessDecays(s, r.now, later, r.timeout);
    }
  }

  /**
   A TCP start or resume refused during a call, at any state a run can reach and for any
   windows in the queue and in the request: queued all the same, and unwound at any later
   clock before a new poll, it could be struck from the queue, whatever is queued after it.
   */
  lemma RefusedEntryNeverRuns(s: State, r: Request, after: seq<Entry>, later: Millis, clock: Millis)
    requires Inv(s) && CallInv(s) && RefusedInCall(s, r) && r.now <= later && r.clock <= later
    ensures r.session.Some?
    ensures var entry := Entry(s.controlSeq + 1, Entered(r));
            Replay(Unwound(s), s.queue + [entry] + after, later, clock) ==
            Replay(Unwound(s), s.queue + after, later, clock)
    ensures FinishInject(Enqueue(s, Entered(r)), later, clock).phase == FinishInject(s, later, clock).phase != Running
    ensures FinishInject(Enqueue(s, Entered(r)), later, clock).resumeSeq == FinishInject(s, later, clock).resumeSeq
  {
    TurnFindsNothing(s, r, later, clock);
    var entry := Entry(s.controlSeq + 1, Entered(r));
    StruckOut(Unwound(s), s.queue, entry, after, later, clock);
    StruckOut(Unwound(s), s.queue, entry, [], later, clock);
    assert s.queue + [entry] + [] == s.queue + [entry] && s.queue + [] == s.queue;
    ReplaysAgree(Unwound(Enqueue(s, Entered(r))), Unwound(s), s.queue + [entry], later, clock, later, clock);
  }

  lemma StruckOut(s: State, before: seq<Entry>, entry: Entry, after: seq<Entry>, now: Millis, clock: Millis)
    requires var turn := Replay(s, before, now, clock);
             ApplyDeferred(turn, entry.action, now, clock) == turn
    ensures Replay(s, before + [entry] + after, now, clock) == Replay(s, before + after, now, clock)
  {
    ReplayConcat(s, before + [entry], after, now, clock);
    ReplayConcat(s, before, [entry], now, clock);
    ReplayConcat(s, before, after, now, clock);
    assert [entry][1..] == [];
  }

  /** The same at the end of every run of the gate from its start. */
  lemma RefusedInAnyRun(steps: seq<Step>, r: Request, after: seq<Entry>, later: Millis, clock: Millis)
    requires RefusedInCall(Run(INITIAL, steps), r) && r.now <= later && r.clock <= later
    ensures r.session.Some?
    ensures var s := Run(INITIAL, steps);
            && FinishInject(Enqueue(s, Entered(r)), later, clock).phase ==
               FinishInject(s, later, clock).phase != Running
            && FinishInject(Enqueue(s, Entered(r)), later, clock).resumeSeq == FinishInject(s, later, clock).resumeSeq
            && Replay(Unwound(s), s.queue + [Entry(s.controlSeq + 1, Entered(r))] + after, later, clock)
               == Replay(Unwound(s), s.queue + after, later, clock)
  {
    InitialInv();
    RunKeepsCallInv(INITIAL, steps);
    RefusedEntryNeverRuns(Run(INITIAL, steps), r, after, later, clock);
  }
}
