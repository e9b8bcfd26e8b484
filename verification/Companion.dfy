/** The companion's machine as one object, each method equal to its function in `CompanionModel`. */
module Companion {
  import opened Basics
  import opened GateModel
  import opened CompanionModel

  class LiveMachine {
    var phase: Phase
    var lastInputMs: Millis
    var resumeAfterMs: Millis
    var asking: bool
    var holdingResume: bool
    var lastResumeSeq: nat
    var pauseMark: nat
    var pauseEpoch: nat
    var instance: Option<nat>

    ghost function Model(): Machine
      reads this
    {
      Machine(phase, lastInputMs, resumeAfterMs, asking, holdingResume, lastResumeSeq, pauseMark, pauseEpoch, instance)
    }

    constructor (resumeAfterMs: Millis)
      ensures Model() == NewMachine(resumeAfterMs)
    {
      phase, lastInputMs, this.resumeAfterMs := Off, 0, Max(resumeAfterMs, 1);
      asking, holdingResume, lastResumeSeq, pauseMark, pauseEpoch := false, false, 0, 0, 0;
      instance := None;
    }

    method EnterPaused(now: Option<Millis>) returns (entered: bool)
      modifies `phase, `lastInputMs, `asking, `pauseEpoch
      ensures Model() == CompanionModel.EnterPaused(old(Model()), now) && entered == (old(phase) != Paused)
    {
      if phase == Paused {
        return false;
      }
      pauseEpoch := pauseEpoch + 1;
      phase := Paused;
      if now.Some? {
        lastInputMs := now.value;
      }
      asking := false;
      entered := true;
    }

    method SeeVisor(visor: Phase, now: Millis, resumeSeq: nat)
      modifies this
      ensures Model() == CompanionModel.SeeVisor(old(Model()), visor, now, resumeSeq)
    {
      lastResumeSeq := resumeSeq;
      match visor
      case Off => phase, asking, holdingResume := Off, false, false;
      case Running =>
        holdingResume := false;
        if phase == Off || (phase == Paused && resumeSeq > pauseMark) {
          phase, asking := Running, false;
        }
      case Paused =>
        if holdingResume && resumeSeq <= pauseMark {
          return;
        }
        var entered := EnterPaused(Some(now));
        holdingResume := false;
        if entered || resumeSeq > pauseMark {
          pauseMark := resumeSeq;
        }
    }

    method UserInput(now: Millis) returns (effect: Effect)
      modifies this
      ensures (Model(), effect) == CompanionModel.UserInput(old(Model()), now)
    {
      effect := Nothing;
      match phase
      case Running =>
        var _ := EnterPaused(Some(now));
        holdingResume := false;
        pauseMark := lastResumeSeq;
        effect := PauseVisor;
      case Paused => lastInputMs := now;
      case Off =>
    }

    method AskToContinue(now: Millis)
      modifies this
      ensures Model() == CompanionModel.AskToContinue(old(Model()), now)
    {
      if phase == Paused {
        asking, lastInputMs := true, now;
      }
    }

    method ContinueNow() returns (effect: Effect)
      modifies this
      ensures (Model(), effect) == CompanionModel.ContinueNow(old(Model()))
    {
      effect := Nothing;
      if phase == Paused && asking {
        phase, asking, holdingResume := Running, false, true;
        effect := ResumeVisor;
      }
    }

    method Dismiss(now: Millis)
      modifies this
      ensures Model() == CompanionModel.Dismiss(old(Model()), now)
    {
      if asking {
        asking, lastInputMs := false, now;
      }
    }

    method NoteInstance(seen: nat, resumeSeq: nat) returns (restarted: bool)
      modifies this
      ensures (Model(), restarted) == CompanionModel.NoteInstance(old(Model()), seen, resumeSeq)
    {
      if instance == None {
        instance := Some(seen);
        return false;
      }
      if instance == Some(seen) {
        return false;
      }
      instance := Some(seen);
      lastResumeSeq, holdingResume := resumeSeq, false;
      pauseMark := if phase == Paused then resumeSeq else 0;
      restarted := true;
    }

    method NoteDisconnect()
      modifies this
      ensures Model() == CompanionModel.NoteDisconnect(old(Model()))
    {
      if holdingResume {
        var _ := EnterPaused(None);
        holdingResume := false;
        return;
      }
      if phase == Paused {
        return;
      }
      phase, asking, holdingResume := Off, false, false;
    }

    method PollTimer(now: Millis) returns (effect: Effect)
      modifies this
      ensures (Model(), effect) == CompanionModel.PollTimer(old(Model()), now)
    {
      effect := Nothing;
      if phase != Paused {
        return;
      }
      if Since(now, lastInputMs) >= resumeAfterMs {
        phase, asking, holdingResume := Running, false, true;
        effect := ResumeVisor;
      }
    }

    method SettleLiveInput(live: bool, visor: Phase, now: Millis, resumeSeq: nat) returns (effect: Effect)
      modifies this
      ensures (Model(), effect) == CompanionModel.SettleLiveInput(old(Model()), live, visor, now, resumeSeq)
    {
      var shown, incoming := Nothing, Nothing;
      if live {
        shown := UserInput(now);
      }
      SeeVisor(visor, now, resumeSeq);
      if live && (shown != PauseVisor || phase == Running) {
        incoming := UserInput(now);
      }
      effect := if shown == PauseVisor || incoming == PauseVisor then PauseVisor else Nothing;
    }
  }
}
