/** The companion's machine as a value: pause on physical input, resume after a quiet wait or on request. */
module CompanionModel {
  import opened Basics
  import opened GateModel

  datatype Effect = Nothing | PauseVisor | ResumeVisor

  // ----- the machine as a value

  datatype Machine = Machine(
    phase: Phase,
    lastInputMs: Millis,
    resumeAfterMs: Millis,
    asking: bool,
    holdingResume: bool,
    lastResumeSeq: nat,
    pauseMark: nat,
    pauseEpoch: nat,
    instance: Option<nat>)

  function NewMachine(resumeAfterMs: Millis): Machine {
    Machine(Off, 0, Max(resumeAfterMs, 1), false, false, 0, 0, 0, None)
  }

  /** A new pause, with a new identity; the idle clock moves only if a time is given. */
  function EnterPaused(m: Machine, now: Option<Millis>): Machine {
    if m.phase == Paused then m
    else m.(pauseEpoch := m.pauseEpoch + 1,
            phase := Paused,
            lastInputMs := if now.Some? then now.value else m.lastInputMs,
            asking := false)
  }

  function SeeVisor(m: Machine, visor: Phase, now: Millis, resumeSeq: nat): Machine {
    match visor
    case Off => m.(lastResumeSeq := resumeSeq, phase := Off, asking := false, holdingResume := false)
    case Running =>
      if m.phase == Off || (m.phase == Paused && resumeSeq > m.pauseMark)
      then m.(lastResumeSeq := resumeSeq, holdingResume := false, phase := Running, asking := false)
      else m.(lastResumeSeq := resumeSeq, holdingResume := false)
    case Paused =>
      if m.holdingResume && resumeSeq <= m.pauseMark then m.(lastResumeSeq := resumeSeq)
      else
        EnterPaused(m, Some(now)).(
        lastResumeSeq := resumeSeq,
        holdingResume := false,
        pauseMark := if m.phase != Paused || resumeSeq > m.pauseMark then resumeSeq else m.pauseMark)
  }

  function UserInput(m: Machine, now: Millis): (Machine, Effect) {
    match m.phase
    case Running => (EnterPaused(m, Some(now)).(holdingResume := false, pauseMark := m.lastResumeSeq), PauseVisor)
    case Paused => (m.(lastInputMs := now), Nothing)
    case Off => (m, Nothing)
  }

  function AskToContinue(m: Machine, now: Millis): Machine {
    if m.phase == Paused then m.(asking := true, lastInputMs := now) else m
  }

  function ContinueNow(m: Machine): (Machine, Effect) {
    if m.phase == Paused && m.asking
    then (m.(phase := Running, asking := false, holdingResume := true), ResumeVisor)
    else (m, Nothing)
  }

  function Dismiss(m: Machine, now: Millis): Machine {
    if m.asking then m.(asking := false, lastInputMs := now) else m
  }

  function NoteInstance(m: Machine, instance: nat, resumeSeq: nat): (Machine, bool) {
    match m.instance
    case None => (m.(instance := Some(instance)), false)
    case Some(seen) =>
      if seen == instance then (m, false)
      else (m.(instance := Some(instance),
               lastResumeSeq := resumeSeq,
               holdingResume := false,
               pauseMark := if m.phase == Paused then resumeSeq else 0), true)
  }

  function NoteDisconnect(m: Machine): Machine {
    if m.holdingResume then EnterPaused(m, None).(holdingResume := false)
    else if m.phase == Paused then m
    else m.(phase := Off, asking := false, holdingResume := false)
  }

  function PollTimer(m: Machine, now: Millis): (Machine, Effect) {
    if m.phase == Paused && Since(now, m.lastInputMs) >= m.resumeAfterMs
    then (m.(phase := Running, asking := false, holdingResume := true), ResumeVisor)
    else (m, Nothing)
  }

  /** Judge the input against the phase on screen, take the snapshot, judge it again. */
  function SettleLiveInput(m: Machine, live: bool, visor: Phase, now: Millis, resumeSeq: nat): (Machine, Effect) {
    var (m1, shown) := if live then UserInput(m, now) else (m, Nothing);
    var m2 := SeeVisor(m1, visor, now, resumeSeq);
    var (m3, incoming) :=
      if live && (shown != PauseVisor || m2.phase == Running) then UserInput(m2, now) else (m2, Nothing);
    (m3, if shown == PauseVisor || incoming == PauseVisor then PauseVisor else Nothing)
  }

  datatype BugClick = Ask | PauseIt | Ignore | ToggleMenu

  /** The identity of the pause on screen. */
  function PauseOrigin(m: Machine): Option<nat> {
    if m.phase == Paused then Some(m.pauseEpoch) else None
  }

  function OnBugClick(atFrameStart: Option<nat>, phase: Phase, now: Option<nat>): BugClick {
    if phase == Paused && atFrameStart.Some? && atFrameStart == now then BugClick.Ask
    else if phase == Running then PauseIt
    else if phase == Paused then Ignore
    else ToggleMenu
  }

  // ----- runs

  datatype Move =
    | See(visor: Phase, now: Millis, resumeSeq: nat)
    | Input(now: Millis)
    | AskMove(now: Millis)
    | ContinueMove(now: Millis)
    | DismissMove(now: Millis)
    | Instance(id: nat, resumeSeq: nat)
    | Disconnect
    | PollMove(now: Millis)

  function Do(m: Machine, move: Move): Machine {
    match move
    case See(visor, now, resumeSeq) => SeeVisor(m, visor, now, resumeSeq)
    case Input(now) => UserInput(m, now).0
    case AskMove(now) => AskToContinue(m, now)
    case ContinueMove(_) => ContinueNow(m).0
    case DismissMove(now) => Dismiss(m, now)
    case Instance(id, resumeSeq) => NoteInstance(m, id, resumeSeq).0
    case Disconnect => NoteDisconnect(m)
    case PollMove(now) => PollTimer(m, now).0
  }

  function DoAll(m: Machine, moves: seq<Move>): Machine
    decreases |moves|
  {
    if moves == [] then m else DoAll(Do(m, moves[0]), moves[1..])
  }

  function TimeOf(move: Move, t: Millis): Millis {
    if move.Instance? || move.Disconnect? then t else move.now
  }

  predicate Ordered(moves: seq<Move>, t: Millis)
    decreases |moves|
  {
    moves == [] || (t <= TimeOf(moves[0], t) && Ordered(moves[1..], TimeOf(moves[0], t)))
  }

  predicate MachineInv(m: Machine) {
    && (m.asking ==> m.phase == Paused)
    && (m.holdingResume ==> m.phase == Running)
    && m.resumeAfterMs >= 1
  }

  /** While a pause or an unconfirmed resume stands, the idle clock is no older than any input seen. */
  ghost predicate Remembers(m: Machine, input: Millis) {
    m.phase == Paused || m.holdingResume ==> input <= m.lastInputMs
  }

  lemma DoKeepsInv(m: Machine, move: Move)
    requires MachineInv(m)
    ensures MachineInv(Do(m, move)) && Do(m, move).resumeAfterMs == m.resumeAfterMs
  {
  }

  lemma DoRemembers(m: Machine, move: Move, input: Millis, t: Millis)
    requires MachineInv(m) && Remembers(m, input) && input <= t <= TimeOf(move, t)
    ensures Remembers(Do(m, move), input)
  {
  }

  lemma {:induction false} AllRemember(m: Machine, moves: seq<Move>, input: Millis, t: Millis)
    requires MachineInv(m) && Remembers(m, input) && input <= t && Ordered(moves, t)
    ensures Remembers(DoAll(m, moves), input)
    decreases |moves|
  {
    if moves != [] {
      DoKeepsInv(m, moves[0]);
      DoRemembers(m, moves[0], input, t);
      AllRemember(Do(m, moves[0]), moves[1..], input, TimeOf(moves[0], t));
    }
  }

  lemma {:induction false} AllKeepInv(m: Machine, moves: seq<Move>)
    requires MachineInv(m)
    ensures MachineInv(DoAll(m, moves)) && DoAll(m, moves).resumeAfterMs == m.resumeAfterMs
    decreases |moves|
  {
    if moves != [] {
      DoKeepsInv(m, moves[0]);
      AllKeepInv(Do(m, moves[0]), moves[1..]);
    }
  }

  /**
   Over any run on a nondecreasing clock, through disconnects, prompts, stale snapshots
   and visor restarts: when the timer resumes, every physical input so far is at least
   the whole wait old.
   */
  lemma {:induction false} ResumesOnlyAfterQuiet(m: Machine, moves: seq<Move>, t: Millis, now: Millis, i: nat)
    requires MachineInv(m) && Ordered(moves + [PollMove(now)], t)
    requires PollTimer(DoAll(m, moves), now).1 == ResumeVisor
    requires i < |moves| && moves[i].Input?
    ensures moves[i].now + m.resumeAfterMs <= now
    decreases |moves|
  {
    var rest := moves[1..];
    assert (moves + [PollMove(now)])[1..] == rest + [PollMove(now)];
    assert (moves + [PollMove(now)])[0] == moves[0];
    DoKeepsInv(m, moves[0]);
    if i > 0 {
      ResumesOnlyAfterQuiet(Do(m, moves[0]), rest, TimeOf(moves[0], t), now, i - 1);
    } else {
      OrderedPrefix(rest, PollMove(now), moves[0].now);
      AllRemember(Do(m, moves[0]), rest, moves[0].now, moves[0].now);
      AllKeepInv(Do(m, moves[0]), rest);
    }
  }

  lemma {:induction false} OrderedPrefix(moves: seq<Move>, last: Move, t: Millis)
    requires Ordered(moves + [last], t)
    ensures Ordered(moves, t)
    decreases |moves|
  {
    if moves != [] {
      assert (moves + [last])[1..] == moves[1..] + [last];
      OrderedPrefix(moves[1..], last, TimeOf(moves[0], t));
    }
  }

  // ----- one frame with live input

  /** With physical input in the frame, the machine never ends it running, whatever the snapshot says. */
  lemma LiveInputNeverEndsRunning(m: Machine, visor: Phase, now: Millis, resumeSeq: nat)
    ensures SettleLiveInput(m, true, visor, now, resumeSeq).0.phase != Running
    ensures m.phase == Running || SeeVisor(UserInput(m, now).0, visor, now, resumeSeq).phase == Running ==>
              SettleLiveInput(m, true, visor, now, resumeSeq).1 == PauseVisor
  {
  }

  /** A frame with live input is a run of moves: the input, the snapshot, the input again. */
  lemma LiveFrameIsMoves(m: Machine, visor: Phase, now: Millis, resumeSeq: nat)
    requires MachineInv(m)
    ensures SettleLiveInput(m, true, visor, now, resumeSeq).0 ==
            DoAll(m, [Input(now), See(visor, now, resumeSeq), Input(now)])
  {
    var moves := [Input(now), See(visor, now, resumeSeq), Input(now)];
    assert moves[1..] == [See(visor, now, resumeSeq), Input(now)];
    assert moves[1..][1..] == [Input(now)] && [Input(now)][1..] == [];
    var seen := SeeVisor(UserInput(m, now).0, visor, now, resumeSeq);
    assert DoAll(seen, [Input(now)]) == DoAll(UserInput(seen, now).0, []);
  }

  /**
   A frame posts a pause exactly if there was input and automation was running on screen,
   or runs by the snapshot; it ends off exactly if the snapshot says so, and paused from
   now otherwise. Input while both sides are off posts nothing.
   */
  lemma FramePausesExactly(m: Machine, live: bool, visor: Phase, now: Millis, resumeSeq: nat)
    requires MachineInv(m)
    ensures var (settled, effect) := SettleLiveInput(m, live, visor, now, resumeSeq);
            && (effect == PauseVisor <==>
                live && (m.phase == Running ||
                         (visor == Running && (m.phase == Off || resumeSeq > m.pauseMark))))
            && (effect != PauseVisor ==> effect == Nothing)
            && (!live ==> settled == SeeVisor(m, visor, now, resumeSeq))
            && (live ==> settled.phase == if visor == Off then Off else Paused)
            && (live && visor != Off ==> settled.lastInputMs == now && !settled.holdingResume)
  {
  }

  /**
   A click opens Continue exactly for a pause that stood when the frame began and at every
   moment since; it pauses what runs, is ignored on a newer pause, and opens the menu when off.
   */
  lemma AskNeedsTheSamePause(m: Machine, moves: seq<Move>)
    requires MachineInv(m)
    ensures var later := DoAll(m, moves);
            var click := OnBugClick(PauseOrigin(m), later.phase, PauseOrigin(later));
            && (click == BugClick.Ask <==> forall i :: 0 <= i <= |moves| ==> DoAll(m, moves[..i]).phase == Paused)
            && (click == PauseIt <==> later.phase == Running)
            && (click == ToggleMenu <==> later.phase == Off)
  {
    var later := DoAll(m, moves);
    assert moves[..|moves|] == moves && moves[..0] == [];
    if OnBugClick(PauseOrigin(m), later.phase, PauseOrigin(later)) == BugClick.Ask {
      forall i | 0 <= i <= |moves|
        ensures DoAll(m, moves[..i]).phase == Paused
      {
        assert moves == moves[..i] + moves[i..];
        DoAllConcat(m, moves[..i], moves[i..]);
        EpochsGrow(m, moves[..i]);
        EpochsGrow(DoAll(m, moves[..i]), moves[i..]);
      }
    }
    if forall i :: 0 <= i <= |moves| ==> DoAll(m, moves[..i]).phase == Paused {
      SamePauseThroughout(m, moves);
      assert DoAll(m, moves[..0]).phase == Paused && DoAll(m, moves[..|moves|]).phase == Paused;
    }
  }

  lemma {:induction false} SamePauseThroughout(m: Machine, moves: seq<Move>)
    requires forall i :: 0 <= i <= |moves| ==> DoAll(m, moves[..i]).phase == Paused
    ensures DoAll(m, moves).pauseEpoch == m.pauseEpoch
    decreases |moves|
  {
    assert moves[..0] == [];
    assert DoAll(m, moves[..0]).phase == Paused;
    if moves != [] {
      assert moves[..1] == [moves[0]] && moves[..1][1..] == [];
      assert DoAll(m, moves[..1]) == DoAll(Do(m, moves[0]), []);
      forall i | 0 <= i <= |moves[1..]|
        ensures DoAll(Do(m, moves[0]), moves[1..][..i]).phase == Paused
      {
        assert moves[..i + 1][1..] == moves[1..][..i] && moves[..i + 1][0] == moves[0];
        assert DoAll(m, moves[..i + 1]).phase == Paused;
      }
      SamePauseThroughout(Do(m, moves[0]), moves[1..]);
    }
  }

  lemma {:induction false} EpochsGrow(m: Machine, moves: seq<Move>)
    ensures m.pauseEpoch <= DoAll(m, moves).pauseEpoch
    ensures m.phase != Paused && DoAll(m, moves).phase == Paused ==> m.pauseEpoch < DoAll(m, moves).pauseEpoch
    decreases |moves|
  {
    if moves != [] {
      EpochsGrow(Do(m, moves[0]), moves[1..]);
    }
  }

  lemma {:induction false} DoAllConcat(m: Machine, a: seq<Move>, b: seq<Move>)
    ensures DoAll(m, a + b) == DoAll(DoAll(m, a), b)
    decreases |a|
  {
    if a == [] {
      assert a + b == b;
    } else {
      assert (a + b)[1..] == a[1..] + b;
      DoAllConcat(Do(m, a[0]), a[1..], b);
    }
  }

  // ----- the timer and the prompt, told from the moves

  /** Input on a live phase, an opened or dismissed prompt, and a pause that begins by a snapshot restart the wait. */
  predicate RestartsWait(m: Machine, move: Move) {
    match move
    case Input(_) => m.phase != Off
    case AskMove(_) => m.phase == Paused
    case DismissMove(_) => m.asking
    case See(visor, _, _) => m.phase != Paused && Do(m, move).phase == Paused
    case _ => false
  }

  /** When the wait last began, if any of the moves began it. */
  function WaitsFrom(m: Machine, moves: seq<Move>): Option<Millis>
    decreases |moves|
  {
    if moves == [] then None
    else
      var later := WaitsFrom(Do(m, moves[0]), moves[1..]);
      if later.Some? then later else if RestartsWait(m, moves[0]) then Some(moves[0].now) else None
  }

  lemma {:induction false} WaitIsKept(m: Machine, moves: seq<Move>)
    requires MachineInv(m)
    ensures DoAll(m, moves).lastInputMs ==
            if WaitsFrom(m, moves).Some? then WaitsFrom(m, moves).value else m.lastInputMs
    decreases |moves|
  {
    if moves != [] {
      DoKeepsInv(m, moves[0]);
      WaitIsKept(Do(m, moves[0]), moves[1..]);
    }
  }

  /** What stands paused, or waits for a confirmation, began its wait in these moves. */
  lemma {:induction false} PausesWait(m: Machine, moves: seq<Move>)
    requires MachineInv(m)
    requires DoAll(m, moves).phase == Paused || DoAll(m, moves).holdingResume
    ensures m.phase == Paused || m.holdingResume || WaitsFrom(m, moves).Some?
    decreases |moves|
  {
    if moves != [] {
      DoKeepsInv(m, moves[0]);
      PausesWait(Do(m, moves[0]), moves[1..]);
    }
  }

  /**
   Over every run from a machine that is not paused: the timer resumes a pause exactly
   once the whole wait has passed since the last move that restarted it.
   */
  lemma TimerResumesExactly(m: Machine, moves: seq<Move>, now: Millis)
    requires MachineInv(m) && m.phase != Paused && !m.holdingResume && DoAll(m, moves).phase == Paused
    ensures WaitsFrom(m, moves).Some?
    ensures var (resumed, effect) := PollTimer(DoAll(m, moves), now);
            && (effect == ResumeVisor <==> Since(now, WaitsFrom(m, moves).value) >= m.resumeAfterMs)
            && (effect == ResumeVisor <==> resumed.phase == Running)
            && (effect == ResumeVisor <==> resumed.holdingResume)
  {
    PausesWait(m, moves);
    WaitIsKept(m, moves);
    AllKeepInv(m, moves);
  }

  /** The prompt was opened on a pause, which has stood since, and not dismissed. */
  predicate PromptOpen(m: Machine, moves: seq<Move>)
    decreases |moves|
  {
    if moves == [] then m.asking
    else
      var before, last := moves[..|moves| - 1], moves[|moves| - 1];
      if last.AskMove? then DoAll(m, before).phase == Paused
      else !last.DismissMove? && PromptOpen(m, before) && DoAll(m, moves).phase == Paused
  }

  lemma {:induction false} PromptIsKept(m: Machine, moves: seq<Move>)
    requires MachineInv(m)
    ensures DoAll(m, moves).asking <==> PromptOpen(m, moves)
    decreases |moves|
  {
    if moves != [] {
      var before, last := moves[..|moves| - 1], moves[|moves| - 1];
      PromptIsKept(m, before);
      AllKeepInv(m, before);
      assert moves == before + [last] && [last][1..] == [];
      DoAllConcat(m, before, [last]);
      assert DoAll(DoAll(m, before), [last]) == DoAll(Do(DoAll(m, before), last), []);
    }
  }

  /** Continue resumes exactly from an open prompt, and nothing else happens otherwise. */
  lemma ContinueResumesExactly(m: Machine, moves: seq<Move>)
    requires MachineInv(m)
    ensures var u := DoAll(m, moves);
            var (resumed, effect) := ContinueNow(u);
            && (effect == ResumeVisor <==> PromptOpen(m, moves))
            && (if PromptOpen(m, moves) then resumed.phase == Running && resumed.holdingResume else resumed == u)
  {
    PromptIsKept(m, moves);
    AllKeepInv(m, moves);
  }

  /** What a move does to an unconfirmed resume: only a paused snapshot that has not seen it leaves it standing. */
  predicate LeavesResume(m: Machine, move: Move) {
    match move
    case See(visor, _, _) => visor == Paused && Do(m, move).phase == Running
    case Input(_) => false
    case Disconnect => false
    case Instance(id, _) => m.instance == None || m.instance == Some(id)
    case _ => true
  }

  /** The machine resumed by itself and nothing has confirmed or undone it since. */
  predicate ResumeUnconfirmed(m: Machine, moves: seq<Move>)
    decreases |moves|
  {
    if moves == [] then m.holdingResume
    else
      var before, last := moves[..|moves| - 1], moves[|moves| - 1];
      var u := DoAll(m, before);
      (u.phase == Paused && (last.ContinueMove? || last.PollMove?) && Do(u, last).phase == Running) ||
      (ResumeUnconfirmed(m, before) && LeavesResume(u, last))
  }

  /**
   Over every run: the machine holds a resume exactly from its own resume until a running,
   off or newer paused snapshot, input, a lost connection or another visor process.
   */
  lemma {:induction false} ResumeIsHeldExactly(m: Machine, moves: seq<Move>)
    requires MachineInv(m)
    ensures DoAll(m, moves).holdingResume <==> ResumeUnconfirmed(m, moves)
    decreases |moves|
  {
    if moves != [] {
      var before, last := moves[..|moves| - 1], moves[|moves| - 1];
      ResumeIsHeldExactly(m, before);
      AllKeepInv(m, before);
      assert moves == before + [last] && [last][1..] == [];
      DoAllConcat(m, before, [last]);
      assert DoAll(DoAll(m, before), [last]) == DoAll(Do(DoAll(m, before), last), []);
    }
  }

  /**
   A lost connection: a standing pause stays as it is, a resume that nothing has confirmed
   is a pause again, a new one, with its wait running on; anything else is off.
   */
  lemma LostConnectionExactly(m: Machine, moves: seq<Move>)
    requires MachineInv(m)
    ensures var u := DoAll(m, moves);
            var lost := NoteDisconnect(u);
            && (u.phase == Paused ==> lost == u)
            && (ResumeUnconfirmed(m, moves) ==>
                  lost.phase == Paused && PauseOrigin(lost) == Some(u.pauseEpoch + 1) &&
                  lost.lastInputMs == u.lastInputMs && lost.pauseMark == u.pauseMark)
            && (u.phase != Paused && !ResumeUnconfirmed(m, moves) ==> lost.phase == Off)
            && !lost.holdingResume
  {
    ResumeIsHeldExactly(m, moves);
    AllKeepInv(m, moves);
  }

  /** A new machine is off, and waits at least a millisecond, so it never resumes at the moment of the input. */
  lemma NewMachineWaits(resumeAfterMs: Millis, moves: seq<Move>, input: Millis)
    ensures MachineInv(NewMachine(resumeAfterMs)) && NewMachine(resumeAfterMs).phase == Off
    ensures var m := UserInput(DoAll(NewMachine(resumeAfterMs), moves), input).0;
            PollTimer(m, input) == (m, Nothing)
  {
    AllKeepInv(NewMachine(resumeAfterMs), moves);
  }
}
