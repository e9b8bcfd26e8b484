/** What keeps a running gate alive: every window that was granted, told from the steps of a run. */
module GraceWindow {
  import opened Basics
  import opened GateModel
  import opened GateInvariant
  import opened DeferredQueue
  import opened TrustClock
  import opened TwoParty

  // ----- which steps grant a window

  predicate ByCompanion(action: Deferred) {
    match action
    case Start(_, companion, _) => companion
    case Resume(_, companion, _) => companion
    case _ => false
  }

  /** Some companion entry of the unwind enters running from another phase when its turn comes. */
  predicate EntersAnew(s: State, entries: seq<Entry>, now: Millis, clock: Millis)
    decreases |entries|
  {
    entries != [] &&
    ((s.phase != Running && ByCompanion(entries[0].action) && Enters(s, entries[0].action, now)) ||
     EntersAnew(ApplyDeferred(s, entries[0].action, now, clock), entries[1..], now, clock))
  }

  /** No window was granted before step `i`, nor before the run. */
  ghost predicate Untrusted(s: State, steps: seq<Step>, i: nat)
    requires i <= |steps|
    decreases i, 0
  {
    s.trustedAt == None && forall k :: 0 <= k < i ==> !Grants(s, steps, k)
  }

  /** A window granted before step `n`, or before the run, reaches `now`. */
  ghost predicate Alive(s: State, steps: seq<Step>, n: nat, now: Millis, window: Millis)
    requires n <= |steps|
    decreases n, 0
  {
    Within(s.trustedAt, now, window) ||
    exists k :: 0 <= k < n && Grants(s, steps, k) && Since(now, After(steps[k], 0)) < window
  }

  /**
   A poll grants one, unless it finds a running gate whose windows have all passed; so does
   a companion entry into running from another phase, at once or by the unwind, and an
   arming or a record from off while none was ever granted.
   */
  ghost predicate Grants(s: State, steps: seq<Step>, i: nat)
    requires i < |steps|
    decreases i, 1
  {
    var u := Run(s, steps[..i]);
    match steps[i]
    case Poll(now, timeout) => u.phase == Running ==> Alive(s, steps, i, now, timeout)
    case Ask(r) => r.companion && u.phase != Running && Entries(u, steps[i]) > 0
    case End(now, clock) => EntersAnew(Unwound(u), u.queue, now, clock)
    case Begin(_, captured, _) => u.phase == Off && captured == u.epoch && Untrusted(s, steps, i)
    case Mouse(_, _, _, generation, _, _) => u.phase == Off && generation == u.generation && Untrusted(s, steps, i)
    case Type(_, _, generation, _, _) => u.phase == Off && generation == u.generation && Untrusted(s, steps, i)
    case _ => false
  }

  // ----- what a step does to the trusted instant

  lemma {:induction false} ReplayGrants(s: State, entries: seq<Entry>, now: Millis, clock: Millis)
    ensures Replay(s, entries, now, clock).trustedAt ==
            if EntersAnew(s, entries, now, clock) then Some(clock) else s.trustedAt
    decreases |entries|
  {
    if entries != [] {
      ReplayGrants(ApplyDeferred(s, entries[0].action, now, clock), entries[1..], now, clock);
    }
  }

  lemma AskGrants(s: State, r: Request)
    ensures ControlAutomation(s, r).0.trustedAt ==
            if r.companion && s.phase != Running && Entries(s, Ask(r)) > 0 then Some(r.clock) else s.trustedAt
  {
  }

  lemma RecordGrants(s: State, step: Step)
    requires step.Mouse? || step.Type?
    ensures Next(s, step).trustedAt ==
            if s.phase == Off && step.generation == s.generation && s.trustedAt == None
            then Some(step.clock) else s.trustedAt
  {
  }

  lemma StepGrants(s: State, step: Step)
    ensures var grants := match step {
              case Poll(now, timeout) => s.phase == Running ==> Within(s.trustedAt, now, timeout)
              case Ask(r) => r.companion && s.phase != Running && Entries(s, step) > 0
              case End(now, clock) => EntersAnew(Unwound(s), s.queue, now, clock)
              case Begin(_, captured, _) => s.phase == Off && captured == s.epoch && s.trustedAt == None
              case Mouse(_, _, _, generation, _, _) =>
                s.phase == Off && generation == s.generation && s.trustedAt == None
              case Type(_, _, generation, _, _) =>
                s.phase == Off && generation == s.generation && s.trustedAt == None
              case _ => false
            };
            Next(s, step).trustedAt == if grants then Some(After(step, 0)) else s.trustedAt
  {
    match step
    case End(now, clock) => ReplayGrants(Unwound(s), s.queue, now, clock);
    case Ask(r) => AskGrants(s, r);
    case Mouse(_, _, _, _, _, _) => RecordGrants(s, step);
    case Type(_, _, _, _, _) => RecordGrants(s, step);
    case _ =>
  }

  // ----- the last window granted

  ghost function LastGrant(s: State, steps: seq<Step>, n: nat): (k: Option<nat>)
    requires n <= |steps|
    ensures k == None ==> forall i :: 0 <= i < n ==> !Grants(s, steps, i)
    ensures k.Some? ==> k.value < n && Grants(s, steps, k.value)
    ensures k.Some? ==> forall i :: k.value < i < n ==> !Grants(s, steps, i)
  {
    if n == 0 then None else if Grants(s, steps, n - 1) then Some(n - 1) else LastGrant(s, steps, n - 1)
  }

  /** The trusted instant is that of the last window granted. */
  ghost predicate Told(s: State, steps: seq<Step>, n: nat)
    requires n <= |steps|
  {
    Run(s, steps[..n]).trustedAt ==
    if LastGrant(s, steps, n).Some? then Some(After(steps[LastGrant(s, steps, n).value], 0)) else s.trustedAt
  }

  /** Steps that read the clock. */
  predicate Clocked(step: Step) {
    step.Ask? || step.Poll? || step.Tick? || step.Begin? || step.End? || step.Mouse? || step.Type?
  }

  lemma GrantsReadTheClock(s: State, steps: seq<Step>, i: nat)
    requires i < |steps| && Grants(s, steps, i)
    ensures Clocked(steps[i])
  {
  }

  lemma {:induction false} ClocksComeLater(steps: seq<Step>, t: Millis, k: nat)
    requires OrderedRun(steps, t) && k < |steps| && Clocked(steps[k])
    ensures t <= After(steps[k], 0)
    decreases |steps|
  {
    if k > 0 {
      ClocksComeLater(steps[1..], After(steps[0], t), k - 1);
    }
  }

  lemma {:induction false} ClocksInOrder(steps: seq<Step>, t: Millis, j: nat, k: nat)
    requires OrderedRun(steps, t) && j <= k < |steps| && Clocked(steps[j]) && Clocked(steps[k])
    ensures After(steps[j], 0) <= After(steps[k], 0)
    decreases |steps|
  {
    if j > 0 {
      ClocksInOrder(steps[1..], After(steps[0], t), j - 1, k - 1);
    } else if k > 0 {
      ClocksComeLater(steps[1..], After(steps[0], t), k - 1);
    }
  }

  /** The last window granted outlives every earlier one. */
  lemma AliveByTheLast(s: State, steps: seq<Step>, n: nat, t: Millis, now: Millis, window: Millis)
    requires TrustInv(s, t) && OrderedRun(steps, t) && n <= |steps| && Told(s, steps, n)
    ensures Within(Run(s, steps[..n]).trustedAt, now, window) <==> Alive(s, steps, n, now, window)
    ensures Run(s, steps[..n]).trustedAt == None <==> Untrusted(s, steps, n)
  {
    var last := LastGrant(s, steps, n);
    if last.Some? {
      GrantsReadTheClock(s, steps, last.value);
      ClocksComeLater(steps, t, last.value);
      forall k | 0 <= k < n && Grants(s, steps, k)
        ensures After(steps[k], 0) <= After(steps[last.value], 0)
      {
        GrantsReadTheClock(s, steps, k);
        ClocksInOrder(steps, t, k, last.value);
      }
    }
  }

  lemma OneMoreTold(s: State, steps: seq<Step>, n: nat, t: Millis)
    requires TrustInv(s, t) && OrderedRun(steps, t) && n < |steps| && Told(s, steps, n)
    ensures Told(s, steps, n + 1)
  {
    RunOneMore(s, steps, n);
    StepGrants(Run(s, steps[..n]), steps[n]);
    match steps[n]
    case Poll(now, timeout) => AliveByTheLast(s, steps, n, t, now, timeout);
    case _ => AliveByTheLast(s, steps, n, t, 0, 0);
  }

  lemma {:induction false} TrustIsTold(s: State, steps: seq<Step>, n: nat, t: Millis)
    requires TrustInv(s, t) && OrderedRun(steps, t) && n <= |steps|
    ensures Told(s, steps, n)
    decreases n
  {
    if n > 0 {
      TrustIsTold(s, steps, n - 1, t);
      OneMoreTold(s, steps, n - 1, t);
    } else {
      assert steps[..0] == [];
    }
  }

  // ----- what pauses a running gate

  /**
   Over every run on a nondecreasing clock: a watchdog tick, or a late poll, pauses a
   running gate exactly if no window granted in the run, nor the one it began with, is
   still open. Told from the steps; a poll that does not pause is stored.
   */
  lemma PausedExactlyWithoutAWindow(s: State, steps: seq<Step>, t: Millis, now: Millis, window: Millis)
    requires TrustInv(s, t) && OrderedRun(steps, t) && Run(s, steps).phase == Running
    ensures var u := Run(s, steps);
            && (Next(u, Tick(now, window)).phase == Paused <==> !Alive(s, steps, |steps|, now, window))
            && (Next(u, Poll(now, window)).phase == Paused <==> !Alive(s, steps, |steps|, now, window))
            && (Alive(s, steps, |steps|, now, window) ==>
                  Next(u, Tick(now, window)) == u && Next(u, Poll(now, window)).phase == Running &&
                  Next(u, Poll(now, window)).lastPoll == Some(now))
  {
    TrustIsTold(s, steps, |steps|, t);
    assert steps[..|steps|] == steps;
    AliveByTheLast(s, steps, |steps|, t, now, window);
  }

  /** A request is refused as a stale re-entry exactly at off, once a window was granted and none is open. */
  lemma StaleExactlyBehindAWindow(s: State, steps: seq<Step>, t: Millis, now: Millis, window: Millis)
    requires TrustInv(s, t) && OrderedRun(steps, t)
    ensures StaleReentry(Run(s, steps), now, window) <==>
            Run(s, steps).phase == Off && !Untrusted(s, steps, |steps|) && !Alive(s, steps, |steps|, now, window)
  {
    TrustIsTold(s, steps, |steps|, t);
    assert steps[..|steps|] == steps;
    AliveByTheLast(s, steps, |steps|, t, now, window);
  }

  /** The companion's own start or resume from another phase runs for a whole window, whatever follows it. */
  lemma CompanionEntryRunsAWindow(s: State, before: seq<Step>, r: Request, after: seq<Step>, t: Millis, now: Millis,
                                  window: Millis)
    requires TrustInv(s, t) && OrderedRun(before + [Ask(r)] + after, t)
    requires var u := Run(s, before);
             r.companion && u.phase != Running && ControlAutomation(u, r).0.phase == Running
    requires Run(s, before + [Ask(r)] + after).phase == Running && r.clock <= now < r.clock + window
    ensures Next(Run(s, before + [Ask(r)] + after), Tick(now, window)).phase == Running
  {
    var steps := before + [Ask(r)] + after;
    assert steps[..|before|] == before && steps[|before|] == Ask(r);
    assert Grants(s, steps, |before|);
    PausedExactlyWithoutAWindow(s, steps, t, now, window);
  }

  /** Nothing was ever trusted: the first arming runs for a whole window too. */
  lemma FirstArmingRunsAWindow(s: State, session: Session, clock: Millis, after: seq<Step>, t: Millis, now: Millis,
                               window: Millis)
    requires TrustInv(s, t) && s.trustedAt == None && s.phase == Off
    requires OrderedRun([Begin(session, s.epoch, clock)] + after, t)
    requires Run(s, [Begin(session, s.epoch, clock)] + after).phase == Running && clock <= now < clock + window
    ensures Next(Run(s, [Begin(session, s.epoch, clock)] + after), Tick(now, window)).phase == Running
  {
    var steps := [Begin(session, s.epoch, clock)] + after;
    assert steps[..0] == [] && steps[0] == Begin(session, s.epoch, clock);
    assert Grants(s, steps, 0);
    PausedExactlyWithoutAWindow(s, steps, t, now, window);
  }
}
