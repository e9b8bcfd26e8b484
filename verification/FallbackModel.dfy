/** The pointer fallback as functions on its track: what a sample reports, and when it is deferred. */
module FallbackModel {
  import opened Basics
  import opened GateModel

  const FALLBACK_SETTLE_MS: Millis := 150
  const FALLBACK_DISTANCE_PX: nat := 12
  const FALLBACK_CONFIRM_EPOCHS: nat := 2
  const INJECT_HOLD_MS: Millis := 2_000

  /** Buttons 1 to 5 in a pointer query, bits 8 to 12. */
  const BUTTONS: bv32 := 0x1f00

  datatype FallbackDrive = FallbackDrive(x: int, y: int, atMs: nat, pointerKnown: bool, resumeSeq: nat, injectSeq: nat)

  datatype Sample = Sample(
    phase: Phase, x: int, y: int, mask: bv32, nowMs: Millis, sampleAgeMs: Millis, epoch: nat, injecting: bool,
    injectSeq: nat, lastSettledSeq: nat, drive: Option<FallbackDrive>, afterResume: Option<nat>, instance: nat)

  datatype Spot = Spot(x: int, y: int, mask: bv32)

  datatype Hold = Hold(atMs: nat, lastEpoch: nat, laterEpochs: nat)

  datatype Track = Track(
    baseline: Option<Spot>, buttonMask: bv32, displacementHold: Option<Hold>, baselineReady: bool,
    deferSeq: Option<nat>, deferSinceMs: Millis, deferOpen: bool, deferBlocked: bool, settledInject: nat,
    instance: Option<nat>, idleBaseline: Option<Spot>, ignoreRelease: bv32)

  const FRESH_TRACK: Track := Track(None, 0, None, false, None, 0, false, false, 0, None, None, 0)

  function Manhattan(x0: int, y0: int, x1: int, y1: int): nat {
    Abs(x0 - x1) + Abs(y0 - y1)
  }

  /** The distance to a drive target saturates at 32 bits. */
  function PointerDistance(x0: int, y0: int, x1: int, y1: int): nat {
    if Manhattan(x0, y0, x1, y1) > I32_MAX then I32_MAX else Manhattan(x0, y0, x1, y1)
  }

  function SpotOf(s: Sample): Spot {
    Spot(s.x, s.y, s.mask)
  }

  predicate DriveCounts(resumeSeq: nat, afterResume: Option<nat>) {
    afterResume.Some? ==> resumeSeq > afterResume.value
  }

  predicate Usable(s: Sample) {
    s.drive.Some? && s.drive.value.pointerKnown && DriveCounts(s.drive.value.resumeSeq, s.afterResume)
  }

  predicate ButtonsDiffer(base: bv32, mask: bv32) {
    (mask ^ base) & BUTTONS != 0
  }

  /** The sample's mask with every ignored release still shown as held. */
  function Observed(mask: bv32, ignored: bv32): bv32 {
    mask | ignored
  }

  /** The ignored buttons that have not come up yet. */
  function StillHeld(ignored: bv32, mask: bv32): bv32 {
    ignored & (mask & BUTTONS)
  }

  predicate IsDown(mask: bv32, button: nat)
    requires 1 <= button <= 5
  {
    (mask >> (button + 7)) & 1 == 1
  }

  predicate Activity(base: Spot, x: int, y: int, mask: bv32) {
    Manhattan(base.x, base.y, x, y) > FALLBACK_DISTANCE_PX || ButtonsDiffer(base.mask, mask)
  }

  predicate NewPress(previous: bv32, mask: bv32) {
    (mask & !previous) & BUTTONS != 0
  }

  /** Only the five buttons count, and any one of them does. */
  lemma AnyButtonDiffers(base: bv32, mask: bv32)
    ensures ButtonsDiffer(base, mask) <==>
            IsDown(base, 1) != IsDown(mask, 1) || IsDown(base, 2) != IsDown(mask, 2) ||
            IsDown(base, 3) != IsDown(mask, 3) || IsDown(base, 4) != IsDown(mask, 4) ||
            IsDown(base, 5) != IsDown(mask, 5)
  {
  }

  lemma AnyButtonPressed(previous: bv32, mask: bv32)
    ensures NewPress(previous, mask) <==>
            (!IsDown(previous, 1) && IsDown(mask, 1)) || (!IsDown(previous, 2) && IsDown(mask, 2)) ||
            (!IsDown(previous, 3) && IsDown(mask, 3)) || (!IsDown(previous, 4) && IsDown(mask, 4)) ||
            (!IsDown(previous, 5) && IsDown(mask, 5))
  {
  }

  /** A mismatch pauses only once later polls still carry the same drive. */
  function ConsiderDisplacement(displaced: bool, atMs: nat, epoch: nat, hold: Option<Hold>): (bool, Option<Hold>) {
    if !displaced then (false, None)
    else
      var held := if hold.Some? && hold.value.atMs == atMs then hold.value else Hold(atMs, epoch, 0);
      var counted := if epoch > held.lastEpoch then Hold(atMs, epoch, held.laterEpochs + 1) else held;
      (counted.laterEpochs >= FALLBACK_CONFIRM_EPOCHS, Some(counted))
  }

  /** The injection the visor still has outstanding, if any. */
  function Outstanding(s: Sample): Option<nat> {
    if s.injecting then Some(s.injectSeq)
    else if s.injectSeq <= s.lastSettledSeq || s.injectSeq == 0 then None
    else if s.drive.Some? && s.drive.value.injectSeq == s.injectSeq then None
    else Some(s.injectSeq)
  }

  /** Whether this sample waits, and the chain's budget afterwards. */
  function Defer(s: Sample, t: Track): (Track, bool) {
    var seqNo := Outstanding(s);
    if seqNo.None? then
      var seen := Max(s.injectSeq, s.lastSettledSeq);
      (t.(settledInject := Max(t.settledInject, seen), deferSeq := None, deferOpen := false, deferBlocked := false),
       false)
    else if seqNo.value <= t.settledInject || t.deferBlocked then (t, false)
    else
      var since := if t.deferOpen then t.deferSinceMs else s.nowMs;
      if Since(s.nowMs, since) >= INJECT_HOLD_MS
      then (t.(deferSeq := seqNo, deferSinceMs := since, deferBlocked := true, deferOpen := false), false)
      else (t.(deferSeq := seqNo, deferSinceMs := since, deferOpen := true), true)
  }

  /** The new baseline: the sample after a move; while a release is ignored, the same spot with the buttons now down. */
  function NextBaseline(base: Spot, s: Sample, moved: bool, ignoring: bool): Option<Spot> {
    Some(if moved then SpotOf(s) else if ignoring then Spot(base.x, base.y, s.mask) else base)
  }

  function BaselineMoved(s: Sample, t: Track): (Track, bool) {
    if t.baseline.None? || !t.baselineReady then
      (t.(baseline := Some(SpotOf(s)), buttonMask := s.mask, baselineReady := true, ignoreRelease := 0), false)
    else
      var base := t.baseline.value;
      var moved := Activity(base, s.x, s.y, Observed(s.mask, t.ignoreRelease));
      (t.(ignoreRelease := StillHeld(t.ignoreRelease, s.mask),
          baseline := NextBaseline(base, s, moved, t.ignoreRelease != 0),
          buttonMask := s.mask),
       moved)
  }

  /** `BaselineMoved` on a ready baseline, field by field. */
  lemma ReadyBaselineMoved(s: Sample, t: Track, moved: bool, t': Track)
    requires t.baseline.Some? && t.baselineReady
    requires moved == Activity(t.baseline.value, s.x, s.y, Observed(s.mask, t.ignoreRelease))
    requires t' == t.(ignoreRelease := StillHeld(t.ignoreRelease, s.mask), buttonMask := s.mask,
                      baseline := NextBaseline(t.baseline.value, s, moved, t.ignoreRelease != 0))
    ensures BaselineMoved(s, t) == (t', moved)
  {
  }

  function NoteIdle(s: Sample, t: Track): (Track, bool) {
    if t.idleBaseline.None? then (t.(idleBaseline := Some(SpotOf(s))), false)
    else
      var moved := Activity(t.idleBaseline.value, s.x, s.y, s.mask);
      (if moved then t.(idleBaseline := Some(SpotOf(s))) else t, moved)
  }

  /** The pointer and buttons at Continue become the baseline. */
  function Rebaseline(t: Track, x: int, y: int, mask: bv32): Track {
    t.(baseline := Some(Spot(x, y, mask)), baselineReady := true, buttonMask := mask, displacementHold := None,
       ignoreRelease := mask & BUTTONS)
  }

  /** A new visor process drops every mark of the old one. */
  function ForInstance(s: Sample, t: Track): Track {
    match t.instance
    case Some(seen) => if seen == s.instance then t else FRESH_TRACK.(instance := Some(s.instance))
    case None => t.(instance := Some(s.instance))
  }

  /** The pointer is off the drive's target, and the drive has been visible long enough. */
  predicate OffTarget(s: Sample)
    requires Usable(s)
  {
    s.sampleAgeMs > FALLBACK_SETTLE_MS &&
    PointerDistance(s.x, s.y, s.drive.value.x, s.drive.value.y) > FALLBACK_DISTANCE_PX
  }

  /** Displacement from a usable drive, confirmed over later polls, or a newly pressed button. */
  function ByDrive(s: Sample, t: Track): (Track, bool)
    requires Usable(s)
  {
    var drive := s.drive.value;
    var (moved, hold) := ConsiderDisplacement(OffTarget(s), drive.atMs, s.epoch, t.displacementHold);
    (t.(displacementHold := hold, buttonMask := s.mask, baseline := Some(SpotOf(s)), baselineReady := true),
     moved || NewPress(t.buttonMask, s.mask))
  }

  function Classify(s: Sample, before: Track): (Track, bool) {
    var t := ForInstance(s, before);
    if s.phase == Off then
      var (idle, moved) := NoteIdle(s, t);
      (FRESH_TRACK.(instance := idle.instance, idleBaseline := idle.idleBaseline), moved)
    else
      var (deferred, waits) := Defer(s, t);
      var clear := deferred.(displacementHold := None);
      if waits then (clear, false)
      else if s.phase == Paused || !Usable(s) then BaselineMoved(s, clear)
      else ByDrive(s, deferred)
  }

  // ----- runs of samples

  function Tracks(t: Track, samples: seq<Sample>): Track
    decreases |samples|
  {
    if samples == [] then t else Tracks(Classify(samples[0], t).0, samples[1..])
  }

  /** Whether the `i`th sample of a run was made to wait. */
  predicate Waits(t: Track, samples: seq<Sample>, i: nat)
    requires i < |samples|
    decreases |samples|
  {
    if i == 0 then WaitsAt(samples[0], t)
    else Waits(Classify(samples[0], t).0, samples[1..], i - 1)
  }

  /** One visor process, never off, something outstanding throughout, on a nondecreasing clock. */
  predicate Chain(samples: seq<Sample>, instance: nat, now: Millis)
    decreases |samples|
  {
    samples == [] ||
    (samples[0].instance == instance && samples[0].phase != Off && Outstanding(samples[0]).Some? &&
     now <= samples[0].nowMs && Chain(samples[1..], instance, samples[0].nowMs))
  }

  predicate ForThis(t: Track, instance: nat) {
    t.instance == None || t.instance == Some(instance)
  }

  /** What one sample of a chain does to the chain's budget, and to what later samples are judged against. */
  ghost predicate ChainStep(s: Sample, t: Track, t': Track) {
    t'.instance == Some(s.instance) &&
    (t.deferBlocked ==> t'.deferBlocked) &&
    (t.deferOpen && !t'.deferBlocked ==> t'.deferOpen && t'.deferSinceMs == t.deferSinceMs)
  }

  ghost predicate WaitStep(s: Sample, t: Track, t': Track) {
    SameGround(t, t') && t'.deferOpen && !t.deferBlocked &&
    t'.deferSinceMs == (if t.deferOpen then t.deferSinceMs else s.nowMs) &&
    Since(s.nowMs, t'.deferSinceMs) < INJECT_HOLD_MS
  }

  /** The wait keeps what the next classified sample is judged against. */
  ghost predicate SameGround(t: Track, t': Track) {
    t'.baseline == t.baseline && t'.baselineReady == t.baselineReady && t'.buttonMask == t.buttonMask &&
    t'.ignoreRelease == t.ignoreRelease
  }

  ghost predicate SameChain(t: Track, t': Track) {
    t'.instance == t.instance && t'.deferBlocked == t.deferBlocked && t'.deferOpen == t.deferOpen &&
    t'.deferSinceMs == t.deferSinceMs
  }

  predicate InChain(s: Sample, t: Track) {
    ForThis(t, s.instance) && s.phase != Off && Outstanding(s).Some?
  }

  predicate WaitsAt(s: Sample, t: Track) {
    s.phase != Off && Defer(s, ForInstance(s, t)).1
  }

  /** Judging a sample leaves the chain as the deferral left it. */
  lemma ClassifyKeepsChain(s: Sample, t: Track)
    requires InChain(s, t)
    ensures SameChain(Defer(s, ForInstance(s, t)).0, Classify(s, t).0)
  {
  }

  lemma StepsTheChain(s: Sample, t: Track)
    requires InChain(s, t)
    ensures ChainStep(s, t, Classify(s, t).0)
  {
    ClassifyKeepsChain(s, t);
  }

  lemma WaitingStep(s: Sample, t: Track)
    requires InChain(s, t) && WaitsAt(s, t)
    ensures WaitStep(s, t, Classify(s, t).0)
  {
  }

  /** Once the chain has spent its budget, nothing more waits. */
  lemma {:induction false} SpentNeverWaits(t: Track, samples: seq<Sample>, instance: nat, now: Millis, i: nat)
    requires ForThis(t, instance) && t.deferBlocked && Chain(samples, instance, now) && i < |samples|
    ensures !Waits(t, samples, i)
    decreases |samples|
  {
    if i > 0 {
      StepsTheChain(samples[0], t);
      SpentNeverWaits(Classify(samples[0], t).0, samples[1..], instance, samples[0].nowMs, i - 1);
    }
  }

  /** An open window keeps its start: what waits, waits inside it. */
  lemma {:induction false} WaitsInsideWindow(t: Track, samples: seq<Sample>, instance: nat, now: Millis, i: nat)
    requires ForThis(t, instance) && t.deferOpen && Chain(samples, instance, now) && i < |samples|
    requires Waits(t, samples, i)
    ensures Since(samples[i].nowMs, t.deferSinceMs) < INJECT_HOLD_MS
    decreases |samples|
  {
    if i == 0 {
      WaitingStep(samples[0], t);
    } else {
      var t' := Classify(samples[0], t).0;
      StepsTheChain(samples[0], t);
      if t'.deferBlocked {
        SpentNeverWaits(t', samples[1..], instance, samples[0].nowMs, i - 1);
      } else {
        WaitsInsideWindow(t', samples[1..], instance, samples[0].nowMs, i - 1);
      }
    }
  }

  /**
   However many injections start in one chain: any two samples that wait are less than
   two seconds apart.
   */
  lemma {:induction false} DeferralIsBounded(t: Track, samples: seq<Sample>, instance: nat, now: Millis, i: nat, j: nat)
    requires ForThis(t, instance) && Chain(samples, instance, now)
    requires t.deferOpen ==> t.deferSinceMs <= now
    requires i <= j < |samples| && Waits(t, samples, i) && Waits(t, samples, j)
    ensures samples[i].nowMs <= samples[j].nowMs < samples[i].nowMs + INJECT_HOLD_MS
    decreases |samples|
  {
    ChainOrdered(samples, instance, now, i, j);
    if i > 0 {
      StepsTheChain(samples[0], t);
      OpensInThePast(samples[0], t, now);
      DeferralIsBounded(Classify(samples[0], t).0, samples[1..], instance, samples[0].nowMs, i - 1, j - 1);
    } else {
      FirstWaitOpensWindow(t, samples, instance, now, j);
    }
  }

  lemma FirstWaitOpensWindow(t: Track, samples: seq<Sample>, instance: nat, now: Millis, j: nat)
    requires ForThis(t, instance) && Chain(samples, instance, now)
    requires t.deferOpen ==> t.deferSinceMs <= now
    requires j < |samples| && WaitsAt(samples[0], t) && Waits(t, samples, j)
    ensures samples[j].nowMs < samples[0].nowMs + INJECT_HOLD_MS
  {
    if j > 0 {
      var t' := Classify(samples[0], t).0;
      WaitingStep(samples[0], t);
      StepsTheChain(samples[0], t);
      WaitsInsideWindow(t', samples[1..], instance, samples[0].nowMs, j - 1);
    }
  }

  lemma OpensInThePast(s: Sample, t: Track, now: Millis)
    requires InChain(s, t) && now <= s.nowMs && (t.deferOpen ==> t.deferSinceMs <= now)
    ensures Classify(s, t).0.deferOpen ==> Classify(s, t).0.deferSinceMs <= s.nowMs
  {
    ClassifyKeepsChain(s, t);
  }

  lemma {:induction false} ChainOrdered(samples: seq<Sample>, instance: nat, now: Millis, i: nat, j: nat)
    requires Chain(samples, instance, now) && i <= j < |samples|
    ensures now <= samples[i].nowMs <= samples[j].nowMs
    decreases |samples|
  {
    if j > 0 {
      ChainOrdered(samples[1..], instance, samples[0].nowMs, if i > 0 then i - 1 else 0, j - 1);
    }
  }

  ghost predicate AllWait(t: Track, samples: seq<Sample>) {
    forall i :: 0 <= i < |samples| ==> Waits(t, samples, i)
  }

  lemma {:induction false} WaitingKeepsGround(t: Track, samples: seq<Sample>, instance: nat, now: Millis)
    requires ForThis(t, instance) && Chain(samples, instance, now) && AllWait(t, samples)
    ensures SameGround(t, Tracks(t, samples)) && ForThis(Tracks(t, samples), instance)
    decreases |samples|
  {
    if samples != [] {
      var t' := Classify(samples[0], t).0;
      assert Waits(t, samples, 0);
      StepsTheChain(samples[0], t);
      WaitingStep(samples[0], t);
      forall i | 0 <= i < |samples[1..]|
        ensures Waits(t', samples[1..], i)
      {
        assert Waits(t, samples, i + 1);
      }
      WaitingKeepsGround(t', samples[1..], instance, samples[0].nowMs);
    }
  }

  predicate Far(base: Spot, s: Sample) {
    Manhattan(base.x, base.y, s.x, s.y) > FALLBACK_DISTANCE_PX
  }

  lemma FarFromBaselineMoves(s: Sample, t: Track)
    requires t.baselineReady && t.baseline.Some? && Far(t.baseline.value, s)
    ensures BaselineMoved(s, t).1
  {
  }

  /** The track a sample that does not wait is judged with. */
  function Undeferred(s: Sample, t: Track): Track {
    Defer(s, ForInstance(s, t)).0.(displacementHold := None)
  }

  lemma UndeferredKeepsGround(s: Sample, t: Track)
    requires ForThis(t, s.instance)
    ensures SameGround(t, Undeferred(s, t))
  {
  }

  /** A sample that neither waits nor has a drive to be judged by is judged against the baseline. */
  lemma JudgedByBaseline(s: Sample, t: Track)
    requires s.phase != Off && !WaitsAt(s, t) && (s.phase == Paused || !Usable(s))
    ensures Classify(s, t) == BaselineMoved(s, Undeferred(s, t))
  {
  }

  /**
   A physical move cannot hide behind injections: after any number of waiting samples,
   the first one classified without a usable drive reports movement if it is more than
   12 pixels from where the pointer was before the wait.
   */
  lemma FirstClassifiedSeesTheMove(t: Track, samples: seq<Sample>, instance: nat, now: Millis, s: Sample)
    requires ForThis(t, instance) && Chain(samples, instance, now) && AllWait(t, samples)
    requires t.baselineReady && t.baseline.Some?
    requires s.instance == instance && s.phase != Off && (s.phase == Paused || !Usable(s))
    requires !WaitsAt(s, Tracks(t, samples))
    requires Far(t.baseline.value, s)
    ensures Classify(s, Tracks(t, samples)).1
  {
    WaitingKeepsGround(t, samples, instance, now);
    JudgedByBaseline(s, Tracks(t, samples));
    UndeferredKeepsGround(s, Tracks(t, samples));
    FarFromBaselineMoves(s, Undeferred(s, Tracks(t, samples)));
  }

  /**
   Automation that was off seeds nothing: after any samples and one taken off, the first
   sample judged without a usable drive is the new baseline and reports nothing.
   */
  lemma FirstSampleAfterOffIsTheBaseline(t: Track, samples: seq<Sample>, off: Sample, s: Sample)
    requires off.phase == Off && s.phase != Off && (s.phase == Paused || !Usable(s))
    requires !WaitsAt(s, Classify(off, Tracks(t, samples)).0)
    ensures var (judged, reported) := Classify(s, Classify(off, Tracks(t, samples)).0);
            !reported && judged.baseline == Some(SpotOf(s)) && judged.baselineReady && judged.ignoreRelease == 0
  {
    var seeded := Classify(off, Tracks(t, samples)).0;
    assert seeded.baseline == None && !seeded.baselineReady;
    assert Undeferred(s, seeded).baseline == None;
    JudgedByBaseline(s, seeded);
  }

  // ----- samples taken off

  /** Samples of one visor process, none of those taken off reporting anything. */
  predicate IdleThroughout(t: Track, samples: seq<Sample>, instance: nat)
    decreases |samples|
  {
    samples == [] ||
    (samples[0].instance == instance && (samples[0].phase == Off ==> !Classify(samples[0], t).1) &&
     IdleThroughout(Classify(samples[0], t).0, samples[1..], instance))
  }

  ghost predicate SameIdle(t: Track, t': Track) {
    t'.idleBaseline == t.idleBaseline && t'.instance == t.instance
  }

  lemma DeferKeepsIdle(s: Sample, t: Track)
    ensures SameIdle(t, Defer(s, t).0)
  {
  }

  lemma BaselineKeepsIdle(s: Sample, t: Track)
    ensures SameIdle(t, BaselineMoved(s, t).0)
  {
  }

  lemma ByDriveKeepsIdle(s: Sample, t: Track)
    requires Usable(s)
    ensures SameIdle(t, ByDrive(s, t).0)
  {
  }

  lemma NoteIdleSeeds(s: Sample, t: Track)
    ensures var (t', moved) := NoteIdle(s, t);
            && t'.instance == t.instance
            && t'.idleBaseline == (if t.idleBaseline.None? || moved then Some(SpotOf(s)) else t.idleBaseline)
            && (moved <==> t.idleBaseline.Some? && Activity(t.idleBaseline.value, s.x, s.y, s.mask))
  {
  }

  lemma OffStep(s: Sample, t: Track)
    requires s.phase == Off
    ensures SameIdle(NoteIdle(s, ForInstance(s, t)).0, Classify(s, t).0)
    ensures Classify(s, t).1 == NoteIdle(s, ForInstance(s, t)).1
  {
  }

  lemma IdleStep(s: Sample, t: Track)
    requires t.instance == Some(s.instance) && t.idleBaseline.Some?
    requires s.phase == Off ==> !Classify(s, t).1
    ensures SameIdle(t, Classify(s, t).0)
  {
    assert ForInstance(s, t) == t;
    if s.phase == Off {
      OffStep(s, t);
      NoteIdleSeeds(s, t);
    } else {
      var deferred := Defer(s, t).0;
      var clear := deferred.(displacementHold := None);
      DeferKeepsIdle(s, t);
      BaselineKeepsIdle(s, clear);
      if Usable(s) {
        ByDriveKeepsIdle(s, deferred);
      }
    }
  }

  lemma {:induction false} IdleSpotIsKept(t: Track, samples: seq<Sample>, instance: nat)
    requires t.instance == Some(instance) && t.idleBaseline.Some? && IdleThroughout(t, samples, instance)
    ensures Tracks(t, samples).idleBaseline == t.idleBaseline && Tracks(t, samples).instance == t.instance
    decreases |samples|
  {
    if samples != [] {
      IdleStep(samples[0], t);
      IdleSpotIsKept(Classify(samples[0], t).0, samples[1..], instance);
    }
  }

  /**
   What a sample taken off reports: a move of more than 12 pixels, or a button change, since
   the last sample taken off that reported, or since the first one of the visor process if
   none has, whatever samples lie between. The first one of a process reports nothing.
   */
  lemma OffSampleReportsExactly(t: Track, reference: Sample, samples: seq<Sample>, s: Sample)
    requires reference.phase == Off && s.phase == Off && s.instance == reference.instance
    requires Classify(reference, t).1 || t.instance != Some(reference.instance) || t.idleBaseline == None
    requires t.instance == None ==> t.idleBaseline == None
    requires IdleThroughout(Classify(reference, t).0, samples, reference.instance)
    ensures Classify(s, Tracks(Classify(reference, t).0, samples)).1 <==> Activity(SpotOf(reference), s.x, s.y, s.mask)
    ensures t.instance != Some(reference.instance) || t.idleBaseline == None ==> !Classify(reference, t).1
  {
    OffStep(reference, t);
    NoteIdleSeeds(reference, ForInstance(reference, t));
    var seeded := Classify(reference, t).0;
    IdleSpotIsKept(seeded, samples, reference.instance);
    OffStep(s, Tracks(seeded, samples));
    NoteIdleSeeds(s, ForInstance(s, Tracks(seeded, samples)));
  }

  // ----- confirmation of a mismatch with a drive

  /** One look at a drive: whether it is off its target, which drive, and at which poll. */
  datatype Look = Look(displaced: bool, atMs: nat, epoch: nat)

  function Looks(hold: Option<Hold>, looks: seq<Look>): (bool, Option<Hold>) {
    if looks == [] then (false, hold)
    else
      var last := looks[|looks| - 1];
      ConsiderDisplacement(last.displaced, last.atMs, last.epoch, Looks(hold, looks[..|looks| - 1]).1)
  }

  /** Every look from `from` on found the pointer off the same drive. */
  ghost predicate OffSince(looks: seq<Look>, from: nat, atMs: nat) {
    from < |looks| && forall m :: from <= m < |looks| ==> looks[m].displaced && looks[m].atMs == atMs
  }

  /** Three looks at one drive, at three polls, with the pointer off it from the first to the last look of all. */
  ghost predicate SeenAtThreePolls(looks: seq<Look>, i: nat, j: nat, k: nat) {
    i < j < k < |looks| && OffSince(looks, i, looks[k].atMs) && looks[i].epoch < looks[j].epoch < looks[k].epoch
  }

  /** Polls are numbered in the order they happen. */
  ghost predicate PollsInOrder(looks: seq<Look>) {
    forall m, n :: 0 <= m <= n < |looks| ==> looks[m].epoch <= looks[n].epoch
  }

  lemma {:induction false} HoldHasWitnesses(looks: seq<Look>) returns (i: nat, j: nat, k: nat)
    ensures var hold := Looks(None, looks).1;
            hold.Some? ==> i <= j <= k < |looks| && OffSince(looks, i, hold.value.atMs) &&
                           looks[i].epoch <= looks[k].epoch == hold.value.lastEpoch &&
                           (hold.value.laterEpochs >= 1 ==> i < k && looks[i].epoch < looks[k].epoch) &&
                           (hold.value.laterEpochs >= 2 ==> SeenAtThreePolls(looks, i, j, k))
    decreases |looks|
  {
    i, j, k := 0, 0, 0;
    if looks != [] {
      var n := |looks| - 1;
      i, j, k := HoldHasWitnesses(looks[..n]);
      var before := Looks(None, looks[..n]).1;
      var after := Looks(None, looks).1;
      if after.Some? && before.Some? && before.value.atMs == after.value.atMs {
        if looks[n].epoch > before.value.lastEpoch {
          j, k := k, n;
        }
      } else {
        i, j, k := n, n, n;
      }
    }
  }

  /** Along looks that stay off one drive, the count of later polls never falls and rises with the poll. */
  lemma {:induction false} LaterPollsAreCounted(looks: seq<Look>, i: nat, m: nat)
    requires PollsInOrder(looks) && i <= m < |looks| && OffSince(looks, i, looks[m].atMs)
    ensures var earlier := Looks(None, looks[..m + 1]).1;
            var now := Looks(None, looks).1;
            earlier.Some? && now.Some? && now.value.lastEpoch == looks[|looks| - 1].epoch &&
            now.value.atMs == looks[m].atMs &&
            now.value.laterEpochs >=
            earlier.value.laterEpochs + (if looks[m].epoch < looks[|looks| - 1].epoch then 1 else 0)
    decreases |looks|
  {
    var n := |looks| - 1;
    LastEpochIsTheLastPoll(looks);
    if m == n {
      assert looks[..m + 1] == looks;
    } else {
      LaterPollsAreCounted(looks[..n], i, m);
      assert looks[..n][..m + 1] == looks[..m + 1];
    }
  }

  lemma {:induction false} LastEpochIsTheLastPoll(looks: seq<Look>)
    requires PollsInOrder(looks) && looks != []
    ensures var hold := Looks(None, looks).1;
            hold.Some? == looks[|looks| - 1].displaced &&
            (hold.Some? ==>
               hold.value.lastEpoch == looks[|looks| - 1].epoch && hold.value.atMs == looks[|looks| - 1].atMs)
    decreases |looks|
  {
    if |looks| > 1 {
      LastEpochIsTheLastPoll(looks[..|looks| - 1]);
    }
  }

  /**
   A mismatch with a drive pauses exactly when the same drive has been seen at three
   polls with the pointer off it at every look since the first of them.
   */
  lemma PausesExactlyWhenSeenAtThreePolls(looks: seq<Look>)
    requires PollsInOrder(looks)
    ensures Looks(None, looks).0 <==> exists i, j, k :: SeenAtThreePolls(looks, i, j, k)
  {
    if Looks(None, looks).0 {
      var i, j, k := HoldHasWitnesses(looks);
      assert SeenAtThreePolls(looks, i, j, k);
    }
    if i, j, k :| SeenAtThreePolls(looks, i, j, k) {
      ThreePollsPause(looks, i, j, k);
    }
  }

  lemma ThreePollsPause(looks: seq<Look>, i: nat, j: nat, k: nat)
    requires PollsInOrder(looks) && SeenAtThreePolls(looks, i, j, k)
    ensures Looks(None, looks).0
  {
    LaterPollsAreCounted(looks[..j + 1], i, i);
    assert looks[..j + 1][..i + 1] == looks[..i + 1];
    LaterPollsAreCounted(looks, i, j);
  }

  // ----- the confirmation over a run of samples judged by their drive

  predicate AtDrive(s: Sample, t: Track) {
    ForThis(t, s.instance) && s.phase == Running && Usable(s) && !WaitsAt(s, t)
  }

  predicate DriveRun(t: Track, samples: seq<Sample>)
    decreases |samples|
  {
    samples == [] || (AtDrive(samples[0], t) && DriveRun(Classify(samples[0], t).0, samples[1..]))
  }

  function LookOf(s: Sample): Look
    requires Usable(s)
  {
    Look(OffTarget(s), s.drive.value.atMs, s.epoch)
  }

  function LooksOf(samples: seq<Sample>): (looks: seq<Look>)
    requires forall i :: 0 <= i < |samples| ==> Usable(samples[i])
  {
    seq(|samples|, i requires 0 <= i < |samples| => LookOf(samples[i]))
  }

  lemma {:induction false} DriveRunIsUsable(t: Track, samples: seq<Sample>)
    requires DriveRun(t, samples)
    ensures forall i :: 0 <= i < |samples| ==> Usable(samples[i])
    decreases |samples|
  {
    if samples != [] {
      DriveRunIsUsable(Classify(samples[0], t).0, samples[1..]);
      assert samples == [samples[0]] + samples[1..];
    }
  }

  lemma {:induction false} LooksFromFront(hold: Option<Hold>, looks: seq<Look>)
    requires looks != []
    ensures var first := ConsiderDisplacement(looks[0].displaced, looks[0].atMs, looks[0].epoch, hold);
            Looks(hold, looks).1 == Looks(first.1, looks[1..]).1
    decreases |looks|
  {
    var n := |looks| - 1;
    if n > 0 {
      LooksFromFront(hold, looks[..n]);
      assert looks[..n][1..] == looks[1..][..n - 1];
    }
  }

  lemma AtDriveStep(s: Sample, t: Track)
    requires AtDrive(s, t)
    ensures var (t', reported) := Classify(s, t);
            var (confirmed, hold) :=
              ConsiderDisplacement(OffTarget(s), s.drive.value.atMs, s.epoch, t.displacementHold);
            t'.displacementHold == hold && t'.buttonMask == s.mask &&
            (reported <==> confirmed || NewPress(t.buttonMask, s.mask))
  {
  }

  lemma {:induction false} DriveRunHolds(t: Track, samples: seq<Sample>)
    requires DriveRun(t, samples)
    requires forall i :: 0 <= i < |samples| ==> Usable(samples[i])
    ensures Tracks(t, samples).displacementHold == Looks(t.displacementHold, LooksOf(samples)).1
    ensures samples != [] ==> Tracks(t, samples).buttonMask == samples[|samples| - 1].mask
    decreases |samples|
  {
    if samples != [] {
      AtDriveStep(samples[0], t);
      DriveRunHolds(Classify(samples[0], t).0, samples[1..]);
      LooksFromFront(t.displacementHold, LooksOf(samples));
      assert LooksOf(samples)[1..] == LooksOf(samples[1..]);
    }
  }

  /**
   While samples are judged by their drive, one reports exactly when the same drive has
   been seen at three polls with the pointer off it throughout, or when a button went
   down since the sample before.
   */
  lemma DriveRunReports(t: Track, samples: seq<Sample>, s: Sample)
    requires t.displacementHold == None && DriveRun(t, samples) && AtDrive(s, Tracks(t, samples))
    requires forall i :: 0 <= i < |samples| ==> Usable(samples[i])
    requires PollsInOrder(LooksOf(samples + [s]))
    ensures Classify(s, Tracks(t, samples)).1 <==>
            (exists i, j, k :: SeenAtThreePolls(LooksOf(samples + [s]), i, j, k)) ||
            NewPress(if samples == [] then t.buttonMask else samples[|samples| - 1].mask, s.mask)
  {
    DriveRunHolds(t, samples);
    AtDriveStep(s, Tracks(t, samples));
    var looks := LooksOf(samples + [s]);
    assert looks[..|samples|] == LooksOf(samples);
    PausesExactlyWhenSeenAtThreePolls(looks);
  }

  /** Continue starts the confirmation over: what was seen before it does not count towards a report. */
  lemma ContinueStartsConfirmationOver(t: Track, x: int, y: int, mask: bv32, samples: seq<Sample>, s: Sample)
    requires var u := Rebaseline(t, x, y, mask);
             DriveRun(u, samples) && AtDrive(s, Tracks(u, samples))
    requires forall i :: 0 <= i < |samples| ==> Usable(samples[i])
    requires PollsInOrder(LooksOf(samples + [s]))
    ensures Classify(s, Tracks(Rebaseline(t, x, y, mask), samples)).1 <==>
            (exists i, j, k :: SeenAtThreePolls(LooksOf(samples + [s]), i, j, k)) ||
            NewPress(if samples == [] then mask else samples[|samples| - 1].mask, s.mask)
  {
    DriveRunReports(Rebaseline(t, x, y, mask), samples, s);
  }
}
