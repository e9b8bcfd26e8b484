/** The pointer fallback's track, with the fields its functions update in place. */
module Fallback {
  import opened Basics
  import opened GateModel
  import opened FallbackModel

  class FallbackTrack {
    var baseline: Option<Spot>
    var buttonMask: bv32
    var displacementHold: Option<Hold>
    var baselineReady: bool
    var deferSeq: Option<nat>
    var deferSinceMs: Millis
    var deferOpen: bool
    var deferBlocked: bool
    var settledInject: nat
    var instance: Option<nat>
    var idleBaseline: Option<Spot>
    var ignoreRelease: bv32

    function Model(): Track
      reads this
    {
      Track(baseline, buttonMask, displacementHold, baselineReady, deferSeq, deferSinceMs, deferOpen, deferBlocked,
            settledInject, instance, idleBaseline, ignoreRelease)
    }

    constructor ()
      ensures Model() == FRESH_TRACK
    {
      baseline, buttonMask, displacementHold, baselineReady := None, 0, None, false;
      deferSeq, deferSinceMs, deferOpen, deferBlocked := None, 0, false, false;
      settledInject, instance, idleBaseline, ignoreRelease := 0, None, None, 0;
    }

    /** A default track that keeps the given instance and idle sample. */
    method StartOver(keptInstance: Option<nat>, keptIdle: Option<Spot>)
      modifies this
      ensures Model() == FRESH_TRACK.(instance := keptInstance, idleBaseline := keptIdle)
    {
      baseline, buttonMask, displacementHold, baselineReady := None, 0, None, false;
      deferSeq, deferSinceMs, deferOpen, deferBlocked := None, 0, false, false;
      settledInject, instance, idleBaseline, ignoreRelease := 0, keptInstance, keptIdle, 0;
    }

    method SeeInstance(s: Sample)
      modifies this
      ensures Model() == ForInstance(s, old(Model()))
    {
      if instance.Some? && instance.value != s.instance {
        StartOver(Some(s.instance), None);
      } else if instance.None? {
        instance := Some(s.instance);
      }
    }

    method NoteIdle(s: Sample) returns (moved: bool)
      modifies `idleBaseline
      ensures (Model(), moved) == FallbackModel.NoteIdle(s, old(Model()))
    {
      if idleBaseline.None? {
        idleBaseline := Some(SpotOf(s));
        return false;
      }
      moved := Activity(idleBaseline.value, s.x, s.y, s.mask);
      if moved {
        idleBaseline := Some(SpotOf(s));
      }
    }

    method Rebaseline(x: int, y: int, mask: bv32)
      modifies `baseline, `baselineReady, `buttonMask, `displacementHold, `ignoreRelease
      ensures Model() == FallbackModel.Rebaseline(old(Model()), x, y, mask)
    {
      baseline := Some(Spot(x, y, mask));
      baselineReady := true;
      buttonMask := mask;
      displacementHold := None;
      ignoreRelease := mask & BUTTONS;
    }

    method BaselineMoved(s: Sample) returns (moved: bool)
      modifies `baseline, `baselineReady, `buttonMask, `ignoreRelease
      ensures (Model(), moved) == FallbackModel.BaselineMoved(s, old(Model()))
    {
      if baseline.None? || !baselineReady {
        baseline := Some(SpotOf(s));
        buttonMask := s.mask;
        baselineReady := true;
        ignoreRelease := 0;
        return false;
      }
      ghost var t := Model();
      moved := AgainstBaseline(s);
      ReadyBaselineMoved(s, t, moved, Model());
    }

    method AgainstBaseline(s: Sample) returns (moved: bool)
      requires baseline.Some?
      modifies `baseline, `buttonMask, `ignoreRelease
      ensures moved == Activity(old(baseline).value, s.x, s.y, Observed(s.mask, old(ignoreRelease)))
      ensures ignoreRelease == StillHeld(old(ignoreRelease), s.mask) && buttonMask == s.mask
      ensures baseline == NextBaseline(old(baseline).value, s, moved, old(ignoreRelease) != 0)
    {
      var base := baseline.value;
      var observed := Observed(s.mask, ignoreRelease);
      var ignoring := ignoreRelease != 0;
      moved := Activity(base, s.x, s.y, observed);
      ignoreRelease := StillHeld(ignoreRelease, s.mask);
      if moved {
        baseline := Some(SpotOf(s));
      } else if ignoring {
        baseline := Some(Spot(base.x, base.y, s.mask));
      }
      buttonMask := s.mask;
    }

    method InjectionDeferred(s: Sample) returns (waits: bool)
      modifies `settledInject, `deferSeq, `deferSinceMs, `deferOpen, `deferBlocked
      ensures (Model(), waits) == Defer(s, old(Model()))
    {
      var seqNo := Outstanding(s);
      if seqNo.None? {
        var seen := Max(s.injectSeq, s.lastSettledSeq);
        if seen > 0 {
          settledInject := Max(settledInject, seen);
        }
        deferSeq := None;
        deferOpen := false;
        deferBlocked := false;
        return false;
      }
      if seqNo.value <= settledInject || deferBlocked {
        return false;
      }
      if !deferOpen {
        deferOpen := true;
        deferSinceMs := s.nowMs;
      }
      deferSeq := seqNo;
      if Since(s.nowMs, deferSinceMs) >= INJECT_HOLD_MS {
        deferBlocked := true;
        deferOpen := false;
        return false;
      }
      return true;
    }

    /** The sample against a usable drive. */
    method JudgeByDrive(s: Sample) returns (reported: bool)
      requires Usable(s)
      modifies `displacementHold, `buttonMask, `baseline, `baselineReady
      ensures (Model(), reported) == ByDrive(s, old(Model()))
    {
      var drive := s.drive.value;
      var (pauseMove, hold) := ConsiderDisplacement(OffTarget(s), drive.atMs, s.epoch, displacementHold);
      displacementHold := hold;
      var pressed := NewPress(buttonMask, s.mask);
      buttonMask := s.mask;
      baseline := Some(SpotOf(s));
      baselineReady := true;
      reported := pauseMove || pressed;
    }

    method Classify(s: Sample) returns (reported: bool)
      modifies this
      ensures (Model(), reported) == FallbackModel.Classify(s, old(Model()))
    {
      SeeInstance(s);
      if s.phase == Off {
        reported := NoteIdle(s);
        StartOver(instance, idleBaseline);
        return;
      }
      var waits := InjectionDeferred(s);
      if waits {
        displacementHold := None;
        reported := false;
      } else if s.phase == Paused || !Usable(s) {
        displacementHold := None;
        reported := BaselineMoved(s);
      } else {
        reported := JudgeByDrive(s);
      }
    }
  }
}
