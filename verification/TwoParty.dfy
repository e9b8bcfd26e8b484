/** The gate and the companion's machine together: snapshots may be stale, skipped or repeated. */
module TwoParty {
  import opened Basics
  import opened GateModel
  import opened GateInvariant
  import opened PauseLatch
  import opened DeferredQueue
  import opened CompanionModel

  // ----- what moves the resume sequence

  /** Whether a queued control enters running when its turn comes. */
  predicate Enters(s: State, action: Deferred, now: Millis) {
    match action
    case Start(_, companion, timeout) => ReentryAdmitted(s, companion, now, timeout)
    case Resume(owner, companion, timeout) =>
      s.phase != Running && owner.Some? && ReentryAdmitted(s, companion, now, timeout)
    case _ => false
  }

  function EntriesIn(s: State, entries: seq<Entry>, now: Millis, clock: Millis): nat
    decreases |entries|
  {
    if entries == [] then 0
    else (if Enters(s, entries[0].action, now) then 1 else 0) +
         EntriesIn(ApplyDeferred(s, entries[0].action, now, clock), entries[1..], now, clock)
  }

  /** How many times a step enters running: an accepted start or resume, or the admitted ones of an unwind. */
  function Entries(s: State, step: Step): nat {
    match step
    case Ask(r) =>
      if !s.injecting && ControlAutomation(s, r).1 == Accepted &&
         (r.action == Control.Start || (r.action == Control.Resume && s.phase == Paused && r.session.Some?))
      then 1 else 0
    case End(now, clock) => EntriesIn(Unwound(s), s.queue, now, clock)
    case _ => 0
  }

  lemma {:induction false} ReplayCountsEntries(s: State, entries: seq<Entry>, now: Millis, clock: Millis)
    ensures Replay(s, entries, now, clock).resumeSeq == s.resumeSeq + EntriesIn(s, entries, now, clock)
    decreases |entries|
  {
    if entries != [] {
      ReplayCountsEntries(ApplyDeferred(s, entries[0].action, now, clock), entries[1..], now, clock);
    }
  }

  lemma StepCountsEntries(s: State, step: Step)
    ensures Next(s, step).resumeSeq == s.resumeSeq + Entries(s, step)
  {
    match step
    case End(now, clock) => ReplayCountsEntries(Unwound(s), s.queue, now, clock);
    case _ =>
  }

  function EntriesOf(s: State, steps: seq<Step>): nat
    decreases |steps|
  {
    if steps == [] then 0 else Entries(s, steps[0]) + EntriesOf(Next(s, steps[0]), steps[1..])
  }

  /** The resume sequence counts entries into running, each of them and nothing else. */
  lemma {:induction false} ResumeSeqCountsEntries(s: State, steps: seq<Step>)
    ensures Run(s, steps).resumeSeq == s.resumeSeq + EntriesOf(s, steps)
    decreases |steps|
  {
    if steps != [] {
      StepCountsEntries(s, steps[0]);
      ResumeSeqCountsEntries(Next(s, steps[0]), steps[1..]);
    }
  }

  lemma {:induction false} RunConcat(s: State, a: seq<Step>, b: seq<Step>)
    ensures Run(s, a + b) == Run(Run(s, a), b)
    decreases |a|
  {
    if a == [] {
      assert a + b == b;
    } else {
      assert (a + b)[1..] == a[1..] + b;
      RunConcat(Next(s, a[0]), a[1..], b);
    }
  }

  lemma RunOneMore(s: State, steps: seq<Step>, n: nat)
    requires n < |steps|
    ensures Run(s, steps[..n + 1]) == Next(Run(s, steps[..n]), steps[n])
  {
    assert steps[..n + 1] == steps[..n] + [steps[n]] && [steps[n]][1..] == [];
    RunConcat(s, steps[..n], [steps[n]]);
    assert Run(Run(s, steps[..n]), [steps[n]]) == Run(Next(Run(s, steps[..n]), steps[n]), []);
  }

  /**
   A paused machine whose mark came from the snapshot after `i` steps. A running snapshot
   from any moment, earlier or later, lifts that pause exactly when the gate entered
   running after the marking snapshot and before the one in hand.
   */
  lemma LiftNeedsANewEntry(s: State, steps: seq<Step>, i: nat, j: nat, m: Machine, now: Millis)
    requires Inv(s) && i <= |steps| && j <= |steps|
    requires m.phase == Paused && m.pauseMark == Run(s, steps[..i]).resumeSeq
    ensures SeeVisor(m, Running, now, Run(s, steps[..j]).resumeSeq).phase == Running <==>
            i < j && EntriesOf(Run(s, steps[..i]), steps[i..j]) > 0
  {
    var (lo, hi) := if i <= j then (i, j) else (j, i);
    assert steps[..hi] == steps[..lo] + steps[lo..hi];
    RunConcat(s, steps[..lo], steps[lo..hi]);
    RunMovesForward(s, steps[..lo]);
    RunMovesForward(Run(s, steps[..lo]), steps[lo..hi]);
    ResumeSeqCountsEntries(Run(s, steps[..lo]), steps[lo..hi]);
    if i == j {
      assert steps[i..j] == [];
    }
  }

  // ----- agreement on a pause

  /** A companion that has not resumed: every snapshot it takes comes from the run, and nothing it does resumes. */
  predicate StaysPut(s: State, steps: seq<Step>, m: Machine, move: Move) {
    match move
    case See(visor, _, resumeSeq) =>
      exists i :: 0 <= i <= |steps| && visor == Run(s, steps[..i]).phase && resumeSeq == Run(s, steps[..i]).resumeSeq
    case ContinueMove(_) => ContinueNow(m).1 != ResumeVisor
    case PollMove(now) => PollTimer(m, now).1 != ResumeVisor
    case _ => true
  }

  predicate AllStayPut(s: State, steps: seq<Step>, m: Machine, moves: seq<Move>)
    decreases |moves|
  {
    moves == [] || (StaysPut(s, steps, m, moves[0]) && AllStayPut(s, steps, Do(m, moves[0]), moves[1..]))
  }

  lemma {:induction false} PrefixLatched(s: State, steps: seq<Step>, i: nat)
    requires Inv(s) && Latched(s) && NoLift(steps) && i <= |steps|
    ensures Run(s, steps[..i]).phase == Paused
  {
    LatchHolds(s, steps[..i]);
  }

  lemma {:induction false} PausedMachineStays(s: State, steps: seq<Step>, m: Machine, moves: seq<Move>)
    requires Inv(s) && Latched(s) && NoLift(steps)
    requires m.phase == Paused && !m.holdingResume && AllStayPut(s, steps, m, moves)
    ensures DoAll(m, moves).phase == Paused && !DoAll(m, moves).holdingResume
    decreases |moves|
  {
    if moves != [] {
      if moves[0].See? {
        var i :| 0 <= i <= |steps| && moves[0].visor == Run(s, steps[..i]).phase &&
                 moves[0].resumeSeq == Run(s, steps[..i]).resumeSeq;
        PrefixLatched(s, steps, i);
      }
      PausedMachineStays(s, steps, Do(m, moves[0]), moves[1..]);
    }
  }

  /**
   A paused snapshot pauses any machine but one that holds a resume of its own, and that
   one exactly if the snapshot has a newer resume sequence than the pause it resumed from.
   */
  lemma PausedSnapshotTakenExactly(m: Machine, now: Millis, resumeSeq: nat)
    requires MachineInv(m)
    ensures var seen := SeeVisor(m, Paused, now, resumeSeq);
            && (seen.phase == Paused <==> !m.holdingResume || resumeSeq > m.pauseMark)
            && (seen.phase == Paused ==> !seen.holdingResume)
            && (seen.phase != Paused ==> seen.holdingResume && seen.pauseMark == m.pauseMark)
  {
  }

  /**
   Once the gate has applied a pause and nobody lifts it, a machine is paused from the
   first snapshot taken after that point, and stays paused through any further snapshots
   from the run in any order, disconnects, visor restarts, prompts and input, until it
   resumes by itself; one with a resume of its own in flight exactly if that snapshot has
   a newer resume sequence than the pause it resumed from.
   */
  lemma BothPartiesAgree(s: State, pause: Step, steps: seq<Step>, m: Machine, first: Move, moves: seq<Move>)
    requires Inv(s) && Pauses(s, pause) && NoLift(steps)
    requires MachineInv(m) && first.See?
    requires AllStayPut(Next(s, pause), steps, m, [first] + moves)
    ensures Do(m, first).phase == Paused <==> !m.holdingResume || first.resumeSeq > m.pauseMark
    ensures !m.holdingResume || first.resumeSeq > m.pauseMark ==> DoAll(m, [first] + moves).phase == Paused
  {
    var paused := Next(s, pause);
    EveryPauseLatches(s, pause);
    NextKeepsInv(s, pause);
    assert ([first] + moves)[1..] == moves && ([first] + moves)[0] == first;
    assert StaysPut(paused, steps, m, first);
    var i :| 0 <= i <= |steps| && first.visor == Run(paused, steps[..i]).phase &&
             first.resumeSeq == Run(paused, steps[..i]).resumeSeq;
    PrefixLatched(paused, steps, i);
    PausedSnapshotTakenExactly(m, first.now, first.resumeSeq);
    if Do(m, first).phase == Paused {
      PausedMachineStays(paused, steps, Do(m, first), moves);
    }
  }
}
