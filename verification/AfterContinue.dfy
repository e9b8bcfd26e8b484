/** What a sample reports once Continue was pressed with buttons held, through every case of the fallback. */
module AfterContinue {
  import opened Basics
  import opened GateModel
  import opened FallbackModel

  // ----- what later samples are judged against

  datatype Verdict = WhileOff | Waited | ByBaseline | ByItsDrive

  function How(s: Sample, t: Track): Verdict {
    if s.phase == Off then WhileOff
    else if WaitsAt(s, t) then Waited
    else if s.phase == Paused || !Usable(s) then ByBaseline
    else ByItsDrive
  }

  /** The spot, the buttons down at the last judged sample, and the ones whose release is still to be ignored. */
  datatype Ground = Ground(ready: bool, x: int, y: int, last: bv32, ignored: bv32)

  const NOTHING: Ground := Ground(false, 0, 0, 0, 0)

  /** A button down at the last judged sample is up, and its release was not to be ignored. */
  predicate OtherLetGo(last: bv32, ignored: bv32, mask: bv32) {
    (last & !ignored & !mask) & BUTTONS != 0
  }

  /** A button whose release is to be ignored was up at the last judged sample already, and still is. */
  predicate ReleaseMissed(last: bv32, ignored: bv32, mask: bv32) {
    (ignored & !last & !mask) & BUTTONS != 0
  }

  predicate SameButtons(a: bv32, b: bv32) {
    a & BUTTONS == b & BUTTONS
  }

  predicate OnlyButtons(mask: bv32) {
    mask & BUTTONS == mask
  }

  predicate FarFrom(g: Ground, s: Sample) {
    Manhattan(g.x, g.y, s.x, s.y) > FALLBACK_DISTANCE_PX
  }

  /** What a person does: a move off the spot, or a button that was up in the last judged sample. */
  predicate PersonActs(g: Ground, s: Sample) {
    FarFrom(g, s) || NewPress(g.last, s.mask)
  }

  predicate BaselineReports(g: Ground, s: Sample) {
    g.ready && (PersonActs(g, s) || OtherLetGo(g.last, g.ignored, s.mask) || ReleaseMissed(g.last, g.ignored, s.mask))
  }

  /** The ground after a sample judged against the baseline. */
  function OnBaseline(g: Ground, s: Sample): Ground {
    if !g.ready then Ground(true, s.x, s.y, s.mask, 0)
    else if BaselineReports(g, s) then Ground(true, s.x, s.y, s.mask, StillHeld(g.ignored, s.mask))
    else Ground(true, g.x, g.y, s.mask, StillHeld(g.ignored, s.mask))
  }

  /** Another visor process leaves nothing. */
  function Begins(g: Ground, s: Sample, t: Track): Ground {
    if t.instance.Some? && t.instance.value != s.instance then NOTHING else g
  }

  function Follow(g: Ground, s: Sample, t: Track): Ground {
    var b := Begins(g, s, t);
    match How(s, t)
    case WhileOff => NOTHING
    case Waited => b
    case ByBaseline => OnBaseline(b, s)
    case ByItsDrive => Ground(true, s.x, s.y, s.mask, b.ignored)
  }

  function GroundAfter(g: Ground, t: Track, samples: seq<Sample>): Ground
    decreases |samples|
  {
    if samples == [] then g else GroundAfter(Follow(g, samples[0], t), Classify(samples[0], t).0, samples[1..])
  }

  predicate OnSpot(base: Spot, g: Ground) {
    base.x == g.x && base.y == g.y && SameButtons(base.mask, g.last)
  }

  /** The track stands on this ground. */
  ghost predicate Stands(t: Track, g: Ground) {
    && t.buttonMask == g.last && t.ignoreRelease == g.ignored && OnlyButtons(g.ignored)
    && (g.ready <==> t.baselineReady && t.baseline.Some?)
    && (if g.ready then OnSpot(t.baseline.value, g) else g == NOTHING)
  }

  // ----- bits

  lemma SameButtonsDifferAlike(a: bv32, b: bv32, mask: bv32)
    requires a & BUTTONS == b & BUTTONS
    ensures (mask ^ a) & BUTTONS == (mask ^ b) & BUTTONS
  {
    assert (mask ^ a) & BUTTONS == (mask & BUTTONS) ^ (a & BUTTONS);
    assert (mask ^ b) & BUTTONS == (mask & BUTTONS) ^ (b & BUTTONS);
  }

  /** Bit by bit: newly down, let go, or ignored and up all the while. */
  lemma DifferenceSplits(last: bv32, ignored: bv32, mask: bv32)
    ensures ((mask | ignored) ^ last) & BUTTONS ==
            ((mask & !last) & BUTTONS) | (((last & !ignored & !mask) & BUTTONS) | ((ignored & !last & !mask) & BUTTONS))
  {
  }

  lemma AnyOf(a: bv32, b: bv32, c: bv32)
    ensures a | (b | c) != 0 <==> a != 0 || b != 0 || c != 0
  {
  }

  lemma DifferExactly(base: bv32, last: bv32, ignored: bv32, mask: bv32)
    requires SameButtons(base, last)
    ensures ButtonsDiffer(base, Observed(mask, ignored)) <==>
            NewPress(last, mask) || OtherLetGo(last, ignored, mask) || ReleaseMissed(last, ignored, mask)
  {
    SameButtonsDifferAlike(base, last, mask | ignored);
    DifferenceSplits(last, ignored, mask);
    AnyOf((mask & !last) & BUTTONS, (last & !ignored & !mask) & BUTTONS, (ignored & !last & !mask) & BUTTONS);
  }

  lemma NothingIgnoredNothingChanged(base: bv32, mask: bv32)
    requires !ButtonsDiffer(base, Observed(mask, 0))
    ensures SameButtons(base, mask)
  {
  }

  lemma StillHeldAreButtons(ignored: bv32, mask: bv32)
    ensures OnlyButtons(StillHeld(ignored, mask)) && OnlyButtons(mask & BUTTONS) && OnlyButtons(0)
  {
  }

  // ----- every sample keeps to the ground

  lemma FirstBaseline(s: Sample, t: Track, g: Ground)
    requires Stands(t, g) && !g.ready
    ensures !BaselineMoved(s, t).1 && Stands(BaselineMoved(s, t).0, OnBaseline(g, s))
  {
    StillHeldAreButtons(0, 0);
  }

  lemma ReadyReports(s: Sample, t: Track, g: Ground)
    requires Stands(t, g) && g.ready
    ensures Activity(t.baseline.value, s.x, s.y, Observed(s.mask, t.ignoreRelease)) <==> BaselineReports(g, s)
  {
    DifferExactly(t.baseline.value.mask, g.last, g.ignored, s.mask);
  }

  /** The mask of the new baseline shows the buttons of the sample. */
  lemma NextMask(s: Sample, t: Track)
    requires t.baseline.Some?
    requires var moved := Activity(t.baseline.value, s.x, s.y, Observed(s.mask, t.ignoreRelease));
             !moved && t.ignoreRelease == 0
    ensures SameButtons(t.baseline.value.mask, s.mask)
  {
    NothingIgnoredNothingChanged(t.baseline.value.mask, s.mask);
  }

  lemma ReadyStands(s: Sample, t: Track, g: Ground)
    requires Stands(t, g) && g.ready
    ensures BaselineMoved(s, t).1 == BaselineReports(g, s) && Stands(BaselineMoved(s, t).0, OnBaseline(g, s))
  {
    var moved := Activity(t.baseline.value, s.x, s.y, Observed(s.mask, t.ignoreRelease));
    var after := NextBaseline(t.baseline.value, s, moved, t.ignoreRelease != 0);
    var t' := t.(ignoreRelease := StillHeld(t.ignoreRelease, s.mask), buttonMask := s.mask, baseline := after);
    ReadyReports(s, t, g);
    ReadyBaselineMoved(s, t, moved, t');
    StillHeldAreButtons(g.ignored, s.mask);
    if !moved && t.ignoreRelease == 0 {
      NextMask(s, t);
    }
    assert SameButtons(after.value.mask, s.mask);
  }

  // ----- one sample, whatever its case

  lemma BeginsStands(s: Sample, t: Track, g: Ground)
    requires Stands(t, g)
    ensures Stands(ForInstance(s, t), Begins(g, s, t))
  {
    StillHeldAreButtons(0, 0);
  }

  /** Waiting or not, the deferral leaves the ground alone. */
  lemma DeferralStands(s: Sample, t: Track, g: Ground)
    requires Stands(t, g)
    ensures Stands(Defer(s, t).0, g) && Stands(Defer(s, t).0.(displacementHold := None), g)
  {
  }

  lemma DriveStands(s: Sample, t: Track, g: Ground)
    requires Usable(s) && Stands(t, g)
    ensures Stands(ByDrive(s, t).0, Ground(true, s.x, s.y, s.mask, g.ignored))
  {
  }

  lemma ClassifyCases(s: Sample, t: Track)
    ensures var begun := ForInstance(s, t);
            var judged := Defer(s, begun).0;
            match How(s, t)
            case WhileOff => Classify(s, t).0.baseline == None && !Classify(s, t).0.baselineReady &&
                             Classify(s, t).0.buttonMask == 0 && Classify(s, t).0.ignoreRelease == 0 &&
                             Classify(s, t).0.instance == Some(s.instance)
            case Waited => Classify(s, t) == (judged.(displacementHold := None), false)
            case ByBaseline => Classify(s, t) == BaselineMoved(s, judged.(displacementHold := None))
            case ByItsDrive => Classify(s, t) == ByDrive(s, judged)
  {
  }

  lemma OneSampleStands(s: Sample, t: Track, g: Ground)
    requires Stands(t, g)
    ensures Stands(Classify(s, t).0, Follow(g, s, t))
    ensures How(s, t) == ByBaseline ==> Classify(s, t).1 == BaselineReports(Begins(g, s, t), s)
    ensures How(s, t) == Waited ==> !Classify(s, t).1
  {
    var b, begun := Begins(g, s, t), ForInstance(s, t);
    ClassifyCases(s, t);
    BeginsStands(s, t, g);
    DeferralStands(s, begun, b);
    match How(s, t)
    case WhileOff => StillHeldAreButtons(0, 0);
    case Waited =>
    case ByBaseline =>
      var judged := Defer(s, begun).0.(displacementHold := None);
      if b.ready {
        ReadyStands(s, judged, b);
      } else {
        FirstBaseline(s, judged, b);
      }
    case ByItsDrive => DriveStands(s, Defer(s, begun).0, b);
  }

  lemma {:induction false} SamplesStand(t: Track, g: Ground, samples: seq<Sample>)
    requires Stands(t, g)
    ensures Stands(Tracks(t, samples), GroundAfter(g, t, samples))
    decreases |samples|
  {
    if samples != [] {
      OneSampleStands(samples[0], t, g);
      SamplesStand(Classify(samples[0], t).0, Follow(g, samples[0], t), samples[1..]);
    }
  }

  // ----- from Continue on

  function AtContinue(x: int, y: int, mask: bv32): Ground {
    Ground(true, x, y, mask, mask & BUTTONS)
  }

  lemma ContinueStands(t: Track, x: int, y: int, mask: bv32)
    ensures Stands(Rebaseline(t, x, y, mask), AtContinue(x, y, mask))
  {
    StillHeldAreButtons(0, mask);
  }

  /**
   After Continue and any samples at all, reports, restarts and stretches off included: a
   sample judged against the baseline reports exactly a move off the spot, a press, a
   release that was not to be ignored, or one that was and that only a drive has seen.
   */
  lemma ReportsAfterContinue(t: Track, x: int, y: int, mask: bv32, samples: seq<Sample>, s: Sample)
    requires How(s, Tracks(Rebaseline(t, x, y, mask), samples)) == ByBaseline
    ensures var t1 := Rebaseline(t, x, y, mask);
            var g := GroundAfter(AtContinue(x, y, mask), t1, samples);
            Classify(s, Tracks(t1, samples)).1 <==> BaselineReports(Begins(g, s, Tracks(t1, samples)), s)
  {
    var t1 := Rebaseline(t, x, y, mask);
    ContinueStands(t, x, y, mask);
    SamplesStand(t1, AtContinue(x, y, mask), samples);
    OneSampleStands(s, Tracks(t1, samples), GroundAfter(AtContinue(x, y, mask), t1, samples));
  }

  // ----- samples that report nothing

  /** One visor process, never off, and nothing reported. */
  predicate Quiet(t: Track, samples: seq<Sample>, instance: nat)
    decreases |samples|
  {
    samples == [] ||
    (samples[0].instance == instance && samples[0].phase != Off && !Classify(samples[0], t).1 &&
     Quiet(Classify(samples[0], t).0, samples[1..], instance))
  }

  /** Every button that is down is one that was down at Continue. */
  predicate OnlyContinues(last: bv32, ignored: bv32) {
    (last & !ignored) & BUTTONS == 0
  }

  /** Every button still to be ignored is down in the last judged sample. */
  predicate AllStillDown(last: bv32, ignored: bv32) {
    (ignored & !last) & BUTTONS == 0
  }

  lemma QuietBaselineBits(last: bv32, ignored: bv32, mask: bv32)
    requires OnlyContinues(last, ignored) && !NewPress(last, mask)
    ensures OnlyContinues(mask, StillHeld(ignored, mask)) && OnlyContinues(mask, ignored)
  {
  }

  lemma StillHeldIsDown(ignored: bv32, mask: bv32)
    ensures AllStillDown(mask, StillHeld(ignored, mask))
  {
  }

  lemma NobodyElseLetsGo(last: bv32, ignored: bv32, mask: bv32)
    requires OnlyContinues(last, ignored)
    ensures !OtherLetGo(last, ignored, mask)
  {
  }

  lemma ContinueBits(mask: bv32)
    ensures OnlyContinues(mask, mask & BUTTONS) && AllStillDown(mask, mask & BUTTONS)
  {
  }

  lemma DownIsNotMissed(last: bv32, ignored: bv32, mask: bv32)
    ensures AllStillDown(last, ignored) ==> !ReleaseMissed(last, ignored, mask)
    ensures !AllStillDown(last, ignored) ==> ReleaseMissed(last, ignored, last) && !NewPress(last, last)
  {
  }

  lemma MissesReport(last: bv32, ignored: bv32, mask: bv32)
    requires !NewPress(last, mask)
    ensures !ReleaseMissed(last, ignored, mask) ==> AllStillDown(last, ignored)
    ensures AllStillDown(mask, ignored) ==> AllStillDown(last, ignored)
  {
  }

  lemma DriveReportsPresses(s: Sample, t: Track)
    requires Usable(s) && !ByDrive(s, t).1
    ensures !NewPress(t.buttonMask, s.mask)
  {
  }

  lemma PartsKeepVisor(s: Sample, t: Track)
    ensures Defer(s, t).0.instance == t.instance && BaselineMoved(s, t).0.instance == t.instance
    ensures Usable(s) ==> ByDrive(s, t).0.instance == t.instance
  {
  }

  lemma KeepsVisor(s: Sample, t: Track)
    ensures Classify(s, t).0.instance == Some(s.instance)
  {
    var begun := ForInstance(s, t);
    ClassifyCases(s, t);
    PartsKeepVisor(s, begun);
    PartsKeepVisor(s, Defer(s, begun).0);
    PartsKeepVisor(s, Defer(s, begun).0.(displacementHold := None));
  }

  /** A judged sample that reports nothing presses nothing. */
  lemma QuietPressesNothing(s: Sample, t: Track, g: Ground)
    requires Stands(t, g) && g.ready && ForThis(t, s.instance) && !Classify(s, t).1
    requires How(s, t) == ByBaseline || How(s, t) == ByItsDrive
    ensures !NewPress(g.last, s.mask)
    ensures How(s, t) == ByBaseline ==> !BaselineReports(g, s)
  {
    OneSampleStands(s, t, g);
    if How(s, t) == ByItsDrive {
      ClassifyCases(s, t);
      DeferralStands(s, ForInstance(s, t), g);
      BeginsStands(s, t, g);
      DriveReportsPresses(s, Defer(s, ForInstance(s, t)).0);
    }
  }

  /** A quiet sample: nobody else's buttons come down, and no drive that missed a release is forgotten. */
  lemma QuietStep(s: Sample, t: Track, g: Ground)
    requires Stands(t, g) && g.ready && ForThis(t, s.instance) && s.phase != Off && !Classify(s, t).1
    requires OnlyContinues(g.last, g.ignored)
    ensures var g' := Follow(g, s, t);
            && g'.ready && OnlyContinues(g'.last, g'.ignored)
            && (AllStillDown(g'.last, g'.ignored) <==>
                AllStillDown(g.last, g.ignored) && (How(s, t) == ByItsDrive ==> AllStillDown(s.mask, g.ignored)))
  {
    if How(s, t) != Waited {
      QuietPressesNothing(s, t, g);
      QuietBaselineBits(g.last, g.ignored, s.mask);
      MissesReport(g.last, g.ignored, s.mask);
      StillHeldIsDown(g.ignored, s.mask);
    }
  }

  /** Every sample judged by its drive shows the buttons whose release is still to be ignored as down. */
  predicate DrivesSeeThemDown(g: Ground, t: Track, samples: seq<Sample>)
    decreases |samples|
  {
    samples == [] ||
    ((How(samples[0], t) == ByItsDrive ==> AllStillDown(samples[0].mask, g.ignored)) &&
     DrivesSeeThemDown(Follow(g, samples[0], t), Classify(samples[0], t).0, samples[1..]))
  }

  lemma {:induction false} QuietRun(t: Track, g: Ground, samples: seq<Sample>, instance: nat)
    requires Stands(t, g) && g.ready && ForThis(t, instance) && Quiet(t, samples, instance)
    requires OnlyContinues(g.last, g.ignored)
    ensures var g' := GroundAfter(g, t, samples);
            && g'.ready && OnlyContinues(g'.last, g'.ignored) && ForThis(Tracks(t, samples), instance)
            && (AllStillDown(g'.last, g'.ignored) <==>
                AllStillDown(g.last, g.ignored) && DrivesSeeThemDown(g, t, samples))
    decreases |samples|
  {
    if samples != [] {
      OneSampleStands(samples[0], t, g);
      QuietStep(samples[0], t, g);
      KeepsVisor(samples[0], t);
      QuietRun(Classify(samples[0], t).0, Follow(g, samples[0], t), samples[1..], instance);
    }
  }

  /** The next sample judged against the baseline reports what a person does, and nothing else. */
  ghost predicate HonoursContinue(t: Track, g: Ground, instance: nat) {
    forall s: Sample :: s.instance == instance && How(s, t) == ByBaseline ==> (Classify(s, t).1 <==> PersonActs(g, s))
  }

  lemma NextReport(t: Track, g: Ground, s: Sample)
    requires Stands(t, g) && g.ready && ForThis(t, s.instance) && OnlyContinues(g.last, g.ignored)
    requires How(s, t) == ByBaseline
    ensures Classify(s, t).1 <==> PersonActs(g, s) || ReleaseMissed(g.last, g.ignored, s.mask)
  {
    OneSampleStands(s, t, g);
    NobodyElseLetsGo(g.last, g.ignored, s.mask);
  }

  /** A paused sample on the spot with the same buttons: nothing a person did. */
  function Still(g: Ground, instance: nat): Sample {
    Sample(Paused, g.x, g.y, g.last, 0, 0, 0, false, 0, 0, None, None, instance)
  }

  lemma HonouredIfStillDown(t: Track, g: Ground, instance: nat)
    requires Stands(t, g) && g.ready && ForThis(t, instance) && OnlyContinues(g.last, g.ignored)
    ensures HonoursContinue(t, g, instance) <==> AllStillDown(g.last, g.ignored)
  {
    if AllStillDown(g.last, g.ignored) {
      forall s: Sample | s.instance == instance && How(s, t) == ByBaseline
        ensures Classify(s, t).1 <==> PersonActs(g, s)
      {
        NextReport(t, g, s);
        DownIsNotMissed(g.last, g.ignored, s.mask);
      }
    } else {
      var s := Still(g, instance);
      DownIsNotMissed(g.last, g.ignored, s.mask);
      assert How(s, t) == ByBaseline && !PersonActs(g, s);
      NextReport(t, g, s);
    }
  }

  /**
   Continue with buttons held, then samples of one visor process that report nothing. The
   release of those buttons stays ignored, so that the first report is a move off the spot
   or a press, if and only if no sample judged by its drive has seen one of them up before
   a sample judged against the baseline has.
   */
  lemma ContinueIsHonouredExactly(t: Track, x: int, y: int, mask: bv32, samples: seq<Sample>, instance: nat)
    requires ForThis(t, instance) && Quiet(Rebaseline(t, x, y, mask), samples, instance)
    ensures var t1 := Rebaseline(t, x, y, mask);
            HonoursContinue(Tracks(t1, samples), GroundAfter(AtContinue(x, y, mask), t1, samples), instance) <==>
            DrivesSeeThemDown(AtContinue(x, y, mask), t1, samples)
  {
    var t1, g := Rebaseline(t, x, y, mask), AtContinue(x, y, mask);
    ContinueStands(t, x, y, mask);
    ContinueBits(mask);
    QuietRun(t1, g, samples, instance);
    SamplesStand(t1, g, samples);
    HonouredIfStillDown(Tracks(t1, samples), GroundAfter(g, t1, samples), instance);
  }

  /** No drive in sight, while paused or before the first drive: Continue is always honoured. */
  lemma {:induction false} HonouredWithoutDrives(g: Ground, t: Track, samples: seq<Sample>)
    requires forall i :: 0 <= i < |samples| ==> samples[i].phase == Paused || !Usable(samples[i])
    ensures DrivesSeeThemDown(g, t, samples)
    decreases |samples|
  {
    if samples != [] {
      HonouredWithoutDrives(Follow(g, samples[0], t), Classify(samples[0], t).0, samples[1..]);
    }
  }

  // ----- a release that only a drive has seen

  /** Continue was pressed at (10, 10) with button 1 down. */
  function ContinuedTrack(): Track {
    Rebaseline(FRESH_TRACK.(instance := Some(7)), 10, 10, 0x100)
  }

  /** The button is up, and the sample is judged by a drive to the same spot. */
  const DRIVEN: Sample :=
    Sample(Running, 10, 10, 0, 0, 0, 0, false, 0, 0, Some(FallbackDrive(10, 10, 0, true, 0, 0)), None, 7)

  /** Nothing has moved since, and the drive is gone. */
  const DRIVELESS: Sample := Sample(Running, 10, 10, 0, 1, 0, 0, false, 0, 0, None, None, 7)

  lemma DriveSeesTheRelease()
    ensures var (t, reported) := Classify(DRIVEN, ContinuedTrack());
            !reported && t == ContinuedTrack().(baseline := Some(Spot(10, 10, 0)), buttonMask := 0)
  {
    var t := ContinuedTrack();
    assert !NewPress(0x100, 0);
    assert How(DRIVEN, t) == ByItsDrive;
    ClassifyCases(DRIVEN, t);
  }

  /** Letting go of Continue's button then reports, with no move and no press. */
  lemma LettingGoCanReport()
    ensures Quiet(ContinuedTrack(), [DRIVEN], 7)
    ensures Classify(DRIVELESS, Tracks(ContinuedTrack(), [DRIVEN])).1
    ensures !PersonActs(GroundAfter(AtContinue(10, 10, 0x100), ContinuedTrack(), [DRIVEN]), DRIVELESS)
  {
    var t := ContinuedTrack();
    DriveSeesTheRelease();
    assert [DRIVEN][1..] == [];
    var driven := Classify(DRIVEN, t).0;
    assert Tracks(t, [DRIVEN]) == driven;
    assert How(DRIVEN, t) == ByItsDrive && How(DRIVELESS, driven) == ByBaseline;
    ReportsAfterContinue(FRESH_TRACK.(instance := Some(7)), 10, 10, 0x100, [DRIVEN], DRIVELESS);
    assert Follow(AtContinue(10, 10, 0x100), DRIVEN, t) == Ground(true, 10, 10, 0, 0x100);
    assert GroundAfter(AtContinue(10, 10, 0x100), t, [DRIVEN]) == Ground(true, 10, 10, 0, 0x100);
    assert ReleaseMissed(0, 0x100, 0) && !NewPress(0, 0);
  }
}
