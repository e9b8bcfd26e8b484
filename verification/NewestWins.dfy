/**
 The phase after an injection is the one the newest control asked for. Stated twice:
 for the last control over any queue whatever, and as an exact account of every
 sequence of companion controls and closes of the driving session.
 */
module NewestWins {
  import opened Basics
  import opened GateModel
  import opened GateInvariant
  import opened PauseLatch
  import opened DeferredQueue

  function Target(action: Control): Phase {
    match action
    case Start => Running
    case Resume => Running
    case Pause => Paused
    case Stop => Off
  }

  /** A control from the companion socket that names a session where it enters running. */
  predicate FromCompanion(r: Request) {
    r.companion && !r.wayland && !r.keyboardBlocked &&
    (r.action == Control.Start || r.action == Control.Resume ==> r.session.Some?)
  }

  /** Over any queue at all, TCP entries and closes included, the last companion control decides. */
  lemma LastControlWins(s: State, r: Request, now: Millis, clock: Millis)
    requires Inv(s) && s.injecting && s.keyboard && FromCompanion(r)
    ensures ControlAutomation(s, r).1 == Accepted
    ensures var posted := ControlAutomation(s, r).0;
            && posted.injecting && posted.keyboard
            && FinishInject(posted, now, clock).phase == Target(r.action)
            && (r.action == Control.Start ==> FinishInject(posted, now, clock).session == r.session)
  {
    var posted := ControlAutomation(s, r).0;
    UnwindAppended(s, posted, posted.queue[|s.queue|], now, clock);
  }

  /** The same for a whole run of posts: only the last one shows after the unwind. */
  lemma {:induction false} NewestOfMany(s: State, requests: seq<Request>, now: Millis, clock: Millis)
    requires Inv(s) && s.injecting && s.keyboard
    requires requests != [] && forall i :: 0 <= i < |requests| ==> FromCompanion(requests[i])
    ensures var posted := AskAll(s, requests);
            && posted.injecting
            && FinishInject(posted, now, clock).phase == Target(requests[|requests| - 1].action)
    decreases |requests|
  {
    LastControlWins(s, requests[0], now, clock);
    if |requests| > 1 {
      ControlKeepsInv(s, requests[0]);
      NewestOfMany(ControlAutomation(s, requests[0]).0, requests[1..], now, clock);
    }
  }

  /**
   A latched pause is no dead end: the companion's start, resume or stop lifts it, at once
   outside a call and by the unwind inside one.
   */
  lemma CompanionLifts(s: State, r: Request, now: Millis, clock: Millis)
    requires Inv(s) && Latched(s) && FromCompanion(r) && r.action != Control.Pause
    requires s.injecting ==> s.keyboard
    ensures ControlAutomation(s, r).1 == Accepted
    ensures var asked := ControlAutomation(s, r).0;
            var lifted := if s.injecting then FinishInject(asked, now, clock) else asked;
            && lifted.phase == Target(r.action)
            && (r.action == Control.Start || (r.action == Control.Resume && !s.injecting) ==>
                 lifted.session == r.session)
  {
    if s.injecting {
      LastControlWins(s, r, now, clock);
    }
  }

  // ----- the missing keyboard

  lemma {:induction false} WithoutKeyboardReplayNeverRuns(s: State, entries: seq<Entry>, now: Millis, clock: Millis)
    requires !s.keyboard && s.phase != Running
    ensures Replay(s, entries, now, clock).phase != Running
    decreases |entries|
  {
    if entries != [] {
      WithoutKeyboardReplayNeverRuns(ApplyDeferred(s, entries[0].action, now, clock), entries[1..], now, clock);
    }
  }

  predicate WithinCall(step: Step) {
    !step.Begin? && !step.End? && !step.ResetForShutdown?
  }

  lemma {:induction false} PausedWithoutKeyboard(s: State, steps: seq<Step>)
    requires s.injecting && !s.keyboard && s.phase == Paused
    requires forall i :: 0 <= i < |steps| ==> WithinCall(steps[i])
    ensures var t := Run(s, steps);
            t.injecting && !t.keyboard && t.phase == Paused
    decreases |steps|
  {
    if steps != [] {
      assert WithinCall(steps[0]);
      PausedWithoutKeyboard(Next(s, steps[0]), steps[1..]);
    }
  }

  /**
   A keyboard that goes missing during an injection beats everything posted before or
   after it in that injection: the unwind never leaves the gate running.
   */
  lemma KeyboardEdgeNeverRuns(s: State, steps: seq<Step>, now: Millis, clock: Millis)
    requires s.injecting && s.keyboard
    requires forall i :: 0 <= i < |steps| ==> WithinCall(steps[i])
    ensures FinishInject(Run(ReportKeyboard(s, false), steps), now, clock).phase != Running
  {
    PausedWithoutKeyboard(ReportKeyboard(s, false), steps);
    var t := Run(ReportKeyboard(s, false), steps);
    WithoutKeyboardReplayNeverRuns(Unwound(t), t.queue, now, clock);
  }

  // ----- every sequence, exactly

  /** What can be posted about the driving session during its own injection. */
  datatype Op = Post(action: Control) | CloseIt

  function PostOp(s: State, op: Op, session: Session): State {
    match op
    case Post(action) =>
      ControlAutomation(s, Request(action, true, false, false, Some(session), 0, 0, 0)).0
    case CloseIt => NoteSessionClosed(s, session)
  }

  function PostOps(s: State, ops: seq<Op>, session: Session): State {
    if ops == [] then s
    else PostOp(PostOps(s, ops[..|ops| - 1], session), ops[|ops| - 1], session)
  }

  /** A stop or a close has already ended the stretch the injection began in. */
  predicate Ended(ops: seq<Op>) {
    exists i :: 0 <= i < |ops| && (ops[i] == Post(Control.Stop) || ops[i] == CloseIt)
  }

  /**
   Newest wins, with one rule for closes: a close ends a running phase, unless an earlier
   stop or close already ended the stretch it names, so that what runs now is newer.
   */
  function Settled(ops: seq<Op>): Phase {
    if ops == [] then Running
    else
      var before := ops[..|ops| - 1];
      match ops[|ops| - 1]
      case Post(action) => Target(action)
      case CloseIt => if Settled(before) == Running && !Ended(before) then Off else Settled(before)
  }

  function Owned(ops: seq<Op>): bool {
    if ops == [] then true
    else
      var before := ops[..|ops| - 1];
      match ops[|ops| - 1]
      case Post(Stop) => false
      case Post(Pause) => Owned(before)
      case Post(_) => true
      case CloseIt => Owned(before) && Ended(before)
  }

  function Deferral(op: Op, session: Session, generation: nat): Deferred {
    match op
    case CloseIt => Close(session, generation)
    case Post(Start) => Deferred.Start(session, true, 0)
    case Post(Resume) => Deferred.Resume(Some(session), true, 0)
    case Post(Pause) => Deferred.Pause
    case Post(Stop) => Deferred.Stop
  }

  lemma EndedGrows(before: seq<Op>, op: Op)
    ensures Ended(before + [op]) == (Ended(before) || op == Post(Control.Stop) || op == CloseIt)
  {
    var ops := before + [op];
    if Ended(before) {
      var i :| 0 <= i < |before| && (before[i] == Post(Control.Stop) || before[i] == CloseIt);
      assert ops[i] == before[i];
    }
    assert ops[|before|] == op;
  }

  /** An injection of `session` that has just been armed. */
  ghost predicate JustArmed(s: State, session: Session) {
    Inv(s) && s.injecting && s.keyboard && s.queue == [] && s.phase == Running && s.session == Some(session)
  }

  lemma OnePostQueues(t: State, op: Op, session: Session)
    requires t.injecting && t.session == Some(session)
    ensures var u := PostOp(t, op, session);
            && u.injecting && u.keyboard == t.keyboard && u.session == t.session && u.generation == t.generation
            && u.queue == t.queue + [Entry(t.controlSeq + 1, Deferral(op, session, t.generation))]
            && u.phase == if op == Post(Control.Pause) then Paused else t.phase
  {
  }

  /** Posting moves nothing but the queue, and the phase of a pause. */
  lemma {:induction false} PostsQueueUp(s: State, ops: seq<Op>, session: Session)
    requires JustArmed(s, session)
    ensures var t := PostOps(s, ops, session);
            && t.injecting && t.keyboard && t.session == s.session && t.generation == s.generation
            && |t.queue| == |ops|
            && (forall i :: 0 <= i < |ops| ==> t.queue[i].action == Deferral(ops[i], session, s.generation))
            && t.phase == (if Post(Control.Pause) in ops then Paused else Running)
    decreases |ops|
  {
    if ops != [] {
      var before, last := ops[..|ops| - 1], ops[|ops| - 1];
      PostsQueueUp(s, before, session);
      OnePostQueues(PostOps(s, before, session), last, session);
      assert ops == before + [last];
    }
  }

  /** The replayed state, told from the posts alone. The phase is settled once no pause is still to come. */
  ghost predicate Describes(s: State, t: State, live: Phase, ops: seq<Op>, session: Session) {
    && t.keyboard
    && s.generation <= t.generation
    && (t.generation == s.generation <==> !Ended(ops))
    && t.session == (if Owned(ops) then Some(session) else None)
    && (t.phase == Running ==> t.session.Some?)
    && (live == Running || Post(Control.Pause) in ops ==> t.phase == Settled(ops))
    && (!Ended(ops) ==> Owned(ops))
  }

  lemma DescribesStep(s: State, t: State, live: Phase, before: seq<Op>, op: Op, session: Session, now: Millis,
                      clock: Millis)
    requires Describes(s, t, live, before, session) && (live == Running ==> op != Post(Control.Pause))
    ensures Describes(s, ApplyDeferred(t, Deferral(op, session, s.generation), now, clock), live, before + [op],
              session)
  {
    var ops := before + [op];
    assert ops[..|ops| - 1] == before;
    EndedGrows(before, op);
  }

  lemma {:induction false} ReplayDescribed(s: State, t: State, live: Phase, ops: seq<Op>, entries: seq<Entry>,
                                           session: Session, now: Millis, clock: Millis)
    requires |entries| == |ops|
    requires forall i :: 0 <= i < |ops| ==> entries[i].action == Deferral(ops[i], session, s.generation)
    requires Describes(s, t, live, [], session)
    requires live == Running ==> Post(Control.Pause) !in ops
    ensures Describes(s, Replay(t, entries, now, clock), live, ops, session)
    decreases |ops|
  {
    if ops != [] {
      var n := |ops| - 1;
      ReplayDescribed(s, t, live, ops[..n], entries[..n], session, now, clock);
      assert entries == entries[..n] + [entries[n]] && ops == ops[..n] + [ops[n]];
      ReplayConcat(t, entries[..n], [entries[n]], now, clock);
      var mid := Replay(t, entries[..n], now, clock);
      assert Replay(mid, [entries[n]], now, clock) == ApplyDeferred(mid, entries[n].action, now, clock) by {
        assert [entries[n]][1..] == [];
      }
      DescribesStep(s, mid, live, ops[..n], ops[n], session, now, clock);
    }
  }

  /**
   For every sequence of companion controls and closes of the driving session posted
   during one injection, of any length: the phase after the unwind is the settled one,
   and the session is still the owner exactly when the posts say so.
   */
  lemma UnwindSettles(s: State, ops: seq<Op>, session: Session, now: Millis, clock: Millis)
    requires JustArmed(s, session)
    ensures var t := FinishInject(PostOps(s, ops, session), now, clock);
            && t.phase == Settled(ops)
            && t.session == (if Owned(ops) then Some(session) else None)
  {
    PostsQueueUp(s, ops, session);
    var t := PostOps(s, ops, session);
    ReplayDescribed(s, Unwound(t), t.phase, ops, t.queue, session, now, clock);
  }
}
