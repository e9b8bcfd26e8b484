/** A close acts on the session and generation it named, and in the end that session is not the owner. */
module SessionCloses {
  import opened Basics
  import opened GateModel
  import opened GateInvariant
  import opened DeferredQueue
  import opened NewestWins

  /**
   A queued close of another owner, or of an older generation, can be struck from any
   queue without changing what the unwind leaves.
   */
  lemma ForeignCloseIsNothing(s: State, before: seq<Entry>, close: Entry, after: seq<Entry>, now: Millis, clock: Millis)
    requires close.action.Close?
    requires var t := Replay(s, before, now, clock);
             t.session != Some(close.action.session) || t.generation != close.action.generation
    ensures Replay(s, before + [close] + after, now, clock) == Replay(s, before + after, now, clock)
  {
    ReplayConcat(s, before + [close], after, now, clock);
    ReplayConcat(s, before, [close], now, clock);
    ReplayConcat(s, before, after, now, clock);
    assert [close][1..] == [];
  }

  /** Closes that name other sessions, in any number, pass over a running owner. */
  lemma {:induction false} OwnerSurvivesCloses(s: State, closes: seq<Entry>, now: Millis, clock: Millis)
    requires s.session.Some?
    requires forall i :: 0 <= i < |closes| ==> closes[i].action.Close? && closes[i].action.session != s.session.value
    ensures Replay(s, closes, now, clock) == s
    decreases |closes|
  {
    if closes != [] {
      OwnerSurvivesCloses(s, closes[1..], now, clock);
    }
  }

  /**
   Whatever was queued first: once the replay admits a start for `session`, closes of
   other sessions queued after it leave it running, and so do their finish steps.
   */
  lemma AdmittedStartSurvives(s: State, before: seq<Entry>, start: Entry, closes: seq<Entry>,
                              closed: Session, now: Millis, clock: Millis)
    requires Inv(s) && s.queue == before + [start] + closes && start.action.Start?
    requires ReentryAdmitted(Replay(Unwound(s), before, now, clock), start.action.companion, now, start.action.timeout)
    requires forall i :: 0 <= i < |closes| ==>
                           closes[i].action.Close? && closes[i].action.session != start.action.session
    requires closed != start.action.session
    ensures var t := FinishInject(s, now, clock);
            && t.phase == Running && t.session == Some(start.action.session)
            && FinishClosedSession(t, closed) == t
  {
    ReplayConcat(Unwound(s), before + [start], closes, now, clock);
    ReplayConcat(Unwound(s), before, [start], now, clock);
    assert [start][1..] == [];
    OwnerSurvivesCloses(Replay(Unwound(s), before + [start], now, clock), closes, now, clock);
    FinishKeepsInv(s, now, clock);
  }

  /**
   Whatever state and queue a call unwinds from: after the finish step the closed session
   is not the owner, it does not run, and a gate it did not own is left as it was.
   */
  lemma ClosedNeverOwns(s: State, closed: Session, now: Millis, clock: Millis)
    requires Inv(s)
    ensures var unwound := FinishInject(s, now, clock);
            var finished := FinishClosedSession(unwound, closed);
            && finished.session != Some(closed)
            && (unwound.session == Some(closed) ==> finished.session == None && finished.phase != Running)
            && (unwound.session != Some(closed) ==> finished == unwound)
  {
    FinishKeepsInv(s, now, clock);
  }

  /**
   A close posted at any moment of an injection. The unwind alone leaves the closed
   session as owner exactly when the posts around the close re-entered it after an
   earlier stop or close; the finish step then clears it, so it never stays.
   */
  lemma ClosedSessionEndsUnowned(s: State, ops: seq<Op>, session: Session, now: Millis, clock: Millis)
    requires JustArmed(s, session) && CloseIt in ops
    ensures var unwound := FinishInject(PostOps(s, ops, session), now, clock);
            var finished := FinishClosedSession(unwound, session);
            && (unwound.session == Some(session) <==> Owned(ops))
            && finished.session == None
            && finished.phase != Running
            && (!Owned(ops) ==> finished == unwound)
  {
    UnwindSettles(s, ops, session, now, clock);
    PostsQueueUp(s, ops, session);
    PostsKeepInv(s, ops, session);
    FinishKeepsInv(PostOps(s, ops, session), now, clock);
  }

  lemma {:induction false} PostsKeepInv(s: State, ops: seq<Op>, session: Session)
    requires Inv(s)
    ensures Inv(PostOps(s, ops, session))
    decreases |ops|
  {
    if ops != [] {
      var before := PostOps(s, ops[..|ops| - 1], session);
      PostsKeepInv(s, ops[..|ops| - 1], session);
      ClosesKeepInv(before, session);
      match ops[|ops| - 1]
      case Post(action) => ControlKeepsInv(before, Request(action, true, false, false, Some(session), 0, 0, 0));
      case CloseIt =>
    }
  }

  /** Stop, start, close: the replay skips the close of the generation the stop ended. */
  lemma ReplayAloneIsNotEnough(s: State, session: Session, now: Millis, clock: Millis)
    requires JustArmed(s, session)
    ensures var ops := [Post(Control.Stop), Post(Control.Start), CloseIt];
            var unwound := FinishInject(PostOps(s, ops, session), now, clock);
            unwound.phase == Running && unwound.session == Some(session)
  {
    var ops := [Post(Control.Stop), Post(Control.Start), CloseIt];
    assert ops[..2] == [Post(Control.Stop), Post(Control.Start)] && ops[..2][..1] == [Post(Control.Stop)];
    assert ops[..2][0] == Post(Control.Stop);
    assert Ended(ops[..2]);
    UnwindSettles(s, ops, session, now, clock);
  }

  /** During a call the finish step of a close queues it again, just as the close itself would. */
  lemma FinishQueuesDuringACall(s: State, session: Session)
    requires s.injecting
    ensures FinishClosedSession(s, session) == NoteSessionClosed(s, session)
    ensures FinishClosedSession(s, session).queue ==
            s.queue + if s.session == Some(session) then [Entry(s.controlSeq + 1, Close(session, s.generation))] else []
  {
  }
}
