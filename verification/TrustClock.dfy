/** TCP traffic alone cannot keep an automation alive past the companion's last word. */
module TrustClock {
  import opened Basics
  import opened GateModel
  import opened GateInvariant
  import opened DeferredQueue

  // ----- the nondecreasing clock

  /** The clock once a step is over, when it was `t` before. */
  function After(step: Step, t: Millis): Millis {
    match step
    case Ask(r) => r.clock
    case Poll(now, _) => now
    case Tick(now, _) => now
    case Begin(_, _, clock) => clock
    case End(_, clock) => clock
    case Mouse(_, _, _, _, _, clock) => clock
    case Type(_, _, _, _, clock) => clock
    case _ => t
  }

  predicate InOrder(step: Step, t: Millis) {
    && t <= After(step, t)
    && (step.Ask? ==> t <= step.request.now <= step.request.clock)
    && (step.End? ==> t <= step.now <= step.clock)
  }

  /** A poll is never trusted longer than the trusted instant says, and nothing is trusted from the future. */
  ghost predicate TrustInv(s: State, t: Millis) {
    && (s.lastPoll.Some? ==> s.trustedAt.Some? && s.lastPoll.value <= s.trustedAt.value)
    && (s.trustedAt.Some? ==> s.trustedAt.value <= t)
  }

  lemma {:induction false} ReplayKeepsTrust(s: State, entries: seq<Entry>, now: Millis, clock: Millis)
    requires TrustInv(s, clock)
    ensures TrustInv(Replay(s, entries, now, clock), clock)
    decreases |entries|
  {
    if entries != [] {
      ReplayKeepsTrust(ApplyDeferred(s, entries[0].action, now, clock), entries[1..], now, clock);
    }
  }

  lemma AskKeepsTrust(s: State, r: Request, t: Millis)
    requires TrustInv(s, t) && t <= r.now <= r.clock
    ensures TrustInv(ControlAutomation(s, r).0, r.clock)
  {
  }

  lemma RecordKeepsTrust(s: State, step: Step, t: Millis)
    requires TrustInv(s, t) && (step.Mouse? || step.Type?) && t <= step.clock
    ensures TrustInv(Next(s, step), step.clock)
  {
  }

  /** Every step of the gate, companion and TCP alike, keeps the trust invariant on a nondecreasing clock. */
  lemma TrustKept(s: State, step: Step, t: Millis)
    requires TrustInv(s, t) && InOrder(step, t)
    ensures TrustInv(Next(s, step), After(step, t))
  {
    match step
    case End(now, clock) => ReplayKeepsTrust(Unwound(s), s.queue, now, clock);
    case Ask(r) => AskKeepsTrust(s, r, t);
    case Mouse(_, _, _, _, _, _) => RecordKeepsTrust(s, step, t);
    case Type(_, _, _, _, _) => RecordKeepsTrust(s, step, t);
    case _ =>
  }

  /** An expired gap leaves no fresh poll to re-enter by, and a fresh poll no expired gap. */
  lemma ExpiredGapHasNoFreshPoll(s: State, t: Millis, now: Millis, timeout: Millis)
    requires TrustInv(s, t)
    ensures !(GapExpired(s, now, timeout) && PollFresh(s, now, timeout))
    ensures PollFresh(s, now, timeout) ==> !StaleReentry(s, now, timeout)
  {
  }

  // ----- what a fresh poll is

  /** A companion poll that the gate stored: it did not come after an expired gap. */
  ghost predicate StoredPoll(s: State, steps: seq<Step>, i: nat)
    requires i < |steps|
  {
    steps[i].Poll? && !NotePoll(Run(s, steps[..i]), steps[i].now, steps[i].timeout).1
  }

  predicate OrderedRun(steps: seq<Step>, t: Millis)
    decreases |steps|
  {
    steps == [] || (InOrder(steps[0], t) && OrderedRun(steps[1..], After(steps[0], t)))
  }

  lemma {:induction false} PollsComeLater(steps: seq<Step>, t: Millis, i: nat)
    requires OrderedRun(steps, t) && i < |steps| && steps[i].Poll?
    ensures t <= steps[i].now
    decreases |steps|
  {
    if i > 0 {
      PollsComeLater(steps[1..], After(steps[0], t), i - 1);
    }
  }

  lemma OnlyPollsAreStored(s: State, step: Step)
    requires Inv(s)
    ensures Next(s, step).lastPoll == if StoredPoll(s, [step], 0) then Some(step.now) else s.lastPoll
  {
    assert Run(s, [step][..0]) == s;
    match step
    case End(now, clock) => FinishKeepsInv(s, now, clock);
    case _ =>
  }

  lemma StoredLater(s: State, steps: seq<Step>, i: nat)
    requires 0 < i < |steps|
    ensures StoredPoll(s, steps, i) == StoredPoll(Next(s, steps[0]), steps[1..], i - 1)
  {
    assert steps[..i][1..] == steps[1..][..i - 1];
  }

  /**
   Over every run on a nondecreasing clock: the poll is fresh exactly if one of the polls
   the gate stored in it is less than the window old, or the one it began with still is.
   */
  lemma {:induction false} FreshExactlyAfterAStoredPoll(s: State, steps: seq<Step>, t: Millis, now: Millis,
                                                        timeout: Millis)
    requires Inv(s) && TrustInv(s, t) && OrderedRun(steps, t)
    ensures PollFresh(Run(s, steps), now, timeout) <==>
            PollFresh(s, now, timeout) ||
            exists i :: 0 <= i < |steps| && StoredPoll(s, steps, i) && Since(now, steps[i].now) < timeout
    decreases |steps|
  {
    if steps != [] {
      var s', rest := Next(s, steps[0]), steps[1..];
      OnlyPollsAreStored(s, steps[0]);
      assert StoredPoll(s, steps, 0) == StoredPoll(s, [steps[0]], 0) by {
        assert Run(s, steps[..0]) == s && Run(s, [steps[0]][..0]) == s;
      }
      NextKeepsInv(s, steps[0]);
      TrustKept(s, steps[0], t);
      FreshExactlyAfterAStoredPoll(s', rest, After(steps[0], t), now, timeout);
      if i :| 0 <= i < |rest| && StoredPoll(s', rest, i) && Since(now, rest[i].now) < timeout {
        StoredLater(s, steps, i + 1);
        assert StoredPoll(s, steps, i + 1) && Since(now, steps[i + 1].now) < timeout;
      }
      if i :| 0 < i < |steps| && StoredPoll(s, steps, i) && Since(now, steps[i].now) < timeout {
        StoredLater(s, steps, i);
        assert StoredPoll(s', rest, i - 1) && Since(now, rest[i - 1].now) < timeout;
      }
    }
  }

  // ----- a silent companion

  /** Neither a companion poll nor a companion start or resume; no request with a longer window. */
  predicate Silent(step: Step, timeout: Millis) {
    match step
    case Poll(_, _) => false
    case Ask(r) => r.timeout <= timeout && (r.companion ==> r.action != Control.Start && r.action != Control.Resume)
    case _ => true
  }

  predicate TcpOnly(action: Deferred, timeout: Millis) {
    match action
    case Start(_, companion, window) => !companion && window <= timeout
    case Resume(_, companion, window) => !companion && window <= timeout
    case _ => true
  }

  ghost predicate TcpQueue(entries: seq<Entry>, timeout: Millis) {
    forall i :: 0 <= i < |entries| ==> TcpOnly(entries[i].action, timeout)
  }

  ghost predicate SameTrust(s: State, t: State) {
    t.lastPoll == s.lastPoll && (s.trustedAt.Some? ==> t.trustedAt == s.trustedAt)
  }

  lemma {:induction false} TcpReplayGrantsNothing(s: State, entries: seq<Entry>, timeout: Millis, now: Millis,
                                                  clock: Millis)
    requires TcpQueue(entries, timeout)
    ensures var t := Replay(s, entries, now, clock);
            && t.trustedAt == s.trustedAt && t.lastPoll == s.lastPoll
            && (s.phase != Running && !PollFresh(s, now, timeout) ==> t.phase != Running)
    decreases |entries|
  {
    if entries != [] {
      assert TcpOnly(entries[0].action, timeout);
      TcpReplayGrantsNothing(ApplyDeferred(s, entries[0].action, now, clock), entries[1..], timeout, now, clock);
    }
  }

  lemma AskGrantsNothing(s: State, r: Request, timeout: Millis)
    requires Silent(Ask(r), timeout) && TcpQueue(s.queue, timeout)
    ensures var t := ControlAutomation(s, r).0;
            SameTrust(s, t) && TcpQueue(t.queue, timeout)
  {
  }

  /** While the companion is silent nothing moves either instant, and only TCP entries queue up. */
  lemma SilenceGrantsNothing(s: State, step: Step, timeout: Millis)
    requires Inv(s) && Silent(step, timeout) && TcpQueue(s.queue, timeout)
    ensures SameTrust(s, Next(s, step)) && TcpQueue(Next(s, step).queue, timeout)
  {
    match step
    case End(now, clock) =>
      TcpReplayGrantsNothing(Unwound(s), s.queue, timeout, now, clock);
      FinishKeepsInv(s, now, clock);
    case Ask(r) => AskGrantsNothing(s, r, timeout);
    case _ =>
  }

  // ----- runs with a silent companion

  /**
   A request re-enters running only behind its stale check, and records only inside its
   injection. Here the check is part of the arming; `TrustRace` has the two apart.
   */
  predicate Guarded(s: State, step: Step, timeout: Millis) {
    match step
    case Begin(_, _, clock) => !StaleReentry(s, clock, timeout)
    case Mouse(_, _, _, _, _, _) => s.injecting
    case Type(_, _, _, _, _) => s.injecting
    case _ => true
  }

  predicate SilentRun(s: State, steps: seq<Step>, t: Millis, timeout: Millis)
    decreases |steps|
  {
    steps == [] ||
    (Silent(steps[0], timeout) && InOrder(steps[0], t) && Guarded(s, steps[0], timeout) &&
     SilentRun(Next(s, steps[0]), steps[1..], After(steps[0], t), timeout))
  }

  lemma {:induction false} SilenceFreezesTrust(s: State, steps: seq<Step>, t: Millis, timeout: Millis)
    requires Inv(s) && TcpQueue(s.queue, timeout) && SilentRun(s, steps, t, timeout)
    ensures SameTrust(s, Run(s, steps)) && TcpQueue(Run(s, steps).queue, timeout)
    decreases |steps|
  {
    if steps != [] {
      SilenceGrantsNothing(s, steps[0], timeout);
      NextKeepsInv(s, steps[0]);
      SilenceFreezesTrust(Next(s, steps[0]), steps[1..], After(steps[0], t), timeout);
    }
  }

  /** The companion's last word is older than the window, and the gate is not running. */
  ghost predicate Expired(s: State, t: Millis, timeout: Millis) {
    && Inv(s) && TrustInv(s, t) && TcpQueue(s.queue, timeout)
    && s.phase != Running
    && s.trustedAt.Some? && s.trustedAt.value + timeout <= t
  }

  lemma ExpiredStays(s: State, step: Step, t: Millis, timeout: Millis)
    requires Expired(s, t, timeout)
    requires Silent(step, timeout) && InOrder(step, t) && Guarded(s, step, timeout)
    ensures Expired(Next(s, step), After(step, t), timeout)
  {
    NextKeepsInv(s, step);
    TrustKept(s, step, t);
    SilenceGrantsNothing(s, step, timeout);
    match step
    case End(now, clock) => TcpReplayGrantsNothing(Unwound(s), s.queue, timeout, now, clock);
    case _ =>
  }

  lemma {:induction false} ExpiredForGood(s: State, steps: seq<Step>, t: Millis, timeout: Millis)
    requires Expired(s, t, timeout) && SilentRun(s, steps, t, timeout)
    ensures Run(s, steps).phase != Running
    decreases |steps|
  {
    if steps != [] {
      ExpiredStays(s, steps[0], t, timeout);
      ExpiredForGood(Next(s, steps[0]), steps[1..], After(steps[0], t), timeout);
    }
  }

  /**
   Once the trusted instant is set, in any run without the companion's own polls, starts
   and resumes: a watchdog tick a window later leaves the gate not running, whatever TCP
   did in between, and nothing TCP does afterwards, at once or by replay, runs it again.
   */
  lemma TcpCannotKeepAlive(s: State, before: seq<Step>, t: Millis, tick: Millis, after: seq<Step>, timeout: Millis)
    requires Inv(s) && TrustInv(s, t) && TcpQueue(s.queue, timeout) && s.trustedAt.Some?
    requires SilentRun(s, before + [Tick(tick, timeout)] + after, t, timeout)
    requires s.trustedAt.value + timeout <= tick
    ensures var ticked := Run(s, before + [Tick(tick, timeout)]);
            && ticked.phase != Running
            && Run(ticked, after).phase != Running
            && SameTrust(s, ticked)
    decreases |before|
  {
    var steps := before + [Tick(tick, timeout)] + after;
    SilenceGrantsNothing(s, steps[0], timeout);
    NextKeepsInv(s, steps[0]);
    TrustKept(s, steps[0], t);
    assert (before + [Tick(tick, timeout)])[0] == steps[0];
    if before == [] {
      assert steps[1..] == after && before + [Tick(tick, timeout)] == [Tick(tick, timeout)];
      assert Run(s, [Tick(tick, timeout)]) == Next(s, Tick(tick, timeout));
      ExpiredForGood(Next(s, steps[0]), after, tick, timeout);
    } else {
      assert steps[1..] == before[1..] + [Tick(tick, timeout)] + after;
      assert (before + [Tick(tick, timeout)])[1..] == before[1..] + [Tick(tick, timeout)];
      TcpCannotKeepAlive(Next(s, before[0]), before[1..], After(before[0], t), tick, after, timeout);
    }
  }
}
