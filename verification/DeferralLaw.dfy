/** When a sample waits for an injection, exactly: told from the samples of a run. */
module DeferralLaw {
  import opened Basics
  import opened GateModel
  import opened FallbackModel

  /**
   An injection counts from its start until a drive with its sequence, or a settled
   sequence at least as high, is on the snapshot. Sequence 0 has not started.
   */
  predicate Underway(s: Sample) {
    s.injecting ||
    (s.injectSeq > 0 && s.lastSettledSeq < s.injectSeq &&
     (s.drive.Some? ==> s.drive.value.injectSeq != s.injectSeq))
  }

  lemma OutstandingExactly(s: Sample)
    ensures Outstanding(s) == if Underway(s) then Some(s.injectSeq) else None
  {
  }

  /** Nothing is underway in this sample, or it is taken off: what it shows as settled, or 0. */
  predicate Breaks(s: Sample) {
    s.phase == Off || !Underway(s)
  }

  /** The highest sequence that was shown settled, in this visor process and since automation was last off. */
  function SettledAfter(settled: nat, samples: seq<Sample>, instance: nat): nat {
    if samples == [] then settled
    else
      var last := samples[|samples| - 1];
      if last.instance != instance || last.phase == Off then 0
      else
        var before := SettledAfter(settled, samples[..|samples| - 1], instance);
        if Underway(last) then before else Max(before, Max(last.injectSeq, last.lastSettledSeq))
  }

  // ----- what one sample does to the budget

  ghost predicate SameBudget(t: Track, t': Track) {
    && t'.deferOpen == t.deferOpen && t'.deferSinceMs == t.deferSinceMs && t'.deferBlocked == t.deferBlocked
    && t'.settledInject == t.settledInject && t'.instance == t.instance
  }

  lemma BaselineKeepsBudget(s: Sample, t: Track)
    ensures SameBudget(t, BaselineMoved(s, t).0)
  {
  }

  lemma ByDriveKeepsBudget(s: Sample, t: Track)
    requires Usable(s)
    ensures SameBudget(t, ByDrive(s, t).0)
  {
  }

  /** Judging a sample leaves the budget as the deferral left it. */
  lemma ClassifyKeepsBudget(s: Sample, t: Track)
    requires s.phase != Off
    ensures SameBudget(Defer(s, ForInstance(s, t)).0, Classify(s, t).0)
  {
    var deferred := Defer(s, ForInstance(s, t)).0;
    BaselineKeepsBudget(s, deferred.(displacementHold := None));
    if Usable(s) {
      ByDriveKeepsBudget(s, deferred);
    }
  }

  lemma OffKeepsNoBudget(s: Sample, t: Track)
    requires s.phase == Off
    ensures var t' := Classify(s, t).0;
            !t'.deferOpen && !t'.deferBlocked && t'.settledInject == 0 && t'.instance == Some(s.instance)
  {
  }

  /** A chain's budget is whole: no window is open and none is spent. */
  predicate Whole(t: Track) {
    !t.deferOpen && !t.deferBlocked
  }

  /** The budget a sample of this process finds. */
  function SettledFor(t: Track, instance: nat): nat {
    if ForThis(t, instance) then t.settledInject else 0
  }

  lemma BreakMakesWhole(s: Sample, t: Track)
    requires Breaks(s)
    ensures Whole(Classify(s, t).0) && Classify(s, t).0.instance == Some(s.instance)
    ensures Classify(s, t).0.settledInject ==
            if s.phase == Off then 0 else Max(SettledFor(t, s.instance), Max(s.injectSeq, s.lastSettledSeq))
  {
    OutstandingExactly(s);
    if s.phase == Off {
      OffKeepsNoBudget(s, t);
    } else {
      ClassifyKeepsBudget(s, t);
    }
  }

  lemma DeferKeepsSettled(s: Sample, t: Track)
    requires Underway(s)
    ensures Defer(s, t).0.settledInject == t.settledInject && Defer(s, t).0.instance == t.instance
  {
    OutstandingExactly(s);
  }

  lemma UnderwayKeepsSettled(s: Sample, t: Track)
    requires !Breaks(s)
    ensures Classify(s, t).0.settledInject == SettledFor(t, s.instance)
    ensures Classify(s, t).0.instance == Some(s.instance)
  {
    DeferKeepsSettled(s, ForInstance(s, t));
    ClassifyKeepsBudget(s, t);
  }

  lemma TracksLast(t: Track, samples: seq<Sample>)
    requires samples != []
    ensures Tracks(t, samples) == Classify(samples[|samples| - 1], Tracks(t, samples[..|samples| - 1])).0
    decreases |samples|
  {
    var n := |samples| - 1;
    if n > 0 {
      TracksLast(Classify(samples[0], t).0, samples[1..]);
      assert samples[1..][..n - 1] == samples[..n][1..];
    }
  }

  lemma {:induction false} SettledIsKept(t: Track, samples: seq<Sample>, instance: nat)
    ensures SettledFor(Tracks(t, samples), instance) == SettledAfter(SettledFor(t, instance), samples, instance)
    decreases |samples|
  {
    if samples != [] {
      var before, last := samples[..|samples| - 1], samples[|samples| - 1];
      TracksLast(t, samples);
      SettledIsKept(t, before, instance);
      if Breaks(last) {
        BreakMakesWhole(last, Tracks(t, before));
      } else {
        UnderwayKeepsSettled(last, Tracks(t, before));
      }
    }
  }

  // ----- a chain

  /** Samples of one visor process, not off, with an injection underway in each. */
  predicate InFlight(samples: seq<Sample>, instance: nat) {
    forall i :: 0 <= i < |samples| ==> samples[i].instance == instance && !Breaks(samples[i])
  }

  /** Its injection has not been shown settled, so the sample draws on the budget. */
  predicate Draws(s: Sample, settled: nat) {
    s.injectSeq > settled
  }

  /** Every sample up to `j` that draws does so less than two seconds after `since`. */
  predicate InBudget(samples: seq<Sample>, j: nat, settled: nat, since: Millis)
    requires j < |samples|
  {
    forall i :: 0 <= i <= j && Draws(samples[i], settled) ==> Since(samples[i].nowMs, since) < 2_000
  }

  lemma DrawingStep(s: Sample, t: Track)
    requires ForThis(t, s.instance) && !Breaks(s) && Draws(s, t.settledInject)
    ensures var t' := Classify(s, t).0;
            var since := if t.deferOpen then t.deferSinceMs else s.nowMs;
            && (WaitsAt(s, t) <==> !t.deferBlocked && Since(s.nowMs, since) < 2_000)
            && t'.instance == Some(s.instance) && t'.settledInject == t.settledInject
            && (!t.deferBlocked ==>
                  t'.deferSinceMs == since && t'.deferOpen == WaitsAt(s, t) && t'.deferBlocked == !WaitsAt(s, t))
            && (t.deferBlocked ==> t'.deferBlocked)
  {
    OutstandingExactly(s);
    ClassifyKeepsBudget(s, t);
  }

  lemma IdleStepOfChain(s: Sample, t: Track)
    requires ForThis(t, s.instance) && !Breaks(s) && !Draws(s, t.settledInject)
    ensures !WaitsAt(s, t)
    ensures SameBudget(t.(instance := Some(s.instance)), Classify(s, t).0)
  {
    OutstandingExactly(s);
    ClassifyKeepsBudget(s, t);
  }

  lemma {:induction false} SpentWaitsNoMore(t: Track, samples: seq<Sample>, instance: nat, j: nat)
    requires ForThis(t, instance) && t.deferBlocked && InFlight(samples, instance) && j < |samples|
    ensures !Waits(t, samples, j)
    decreases |samples|
  {
    var s := samples[0];
    assert s.instance == instance && !Breaks(s);
    if Draws(s, t.settledInject) {
      DrawingStep(s, t);
    } else {
      IdleStepOfChain(s, t);
    }
    if j > 0 {
      SpentWaitsNoMore(Classify(s, t).0, samples[1..], instance, j - 1);
    }
  }

  /** In an open window: what draws waits while all that has drawn is inside it. */
  lemma {:induction false} OpenWaitsExactly(t: Track, samples: seq<Sample>, instance: nat, j: nat)
    requires ForThis(t, instance) && t.deferOpen && !t.deferBlocked && InFlight(samples, instance) && j < |samples|
    ensures Waits(t, samples, j) <==>
            Draws(samples[j], t.settledInject) && InBudget(samples, j, t.settledInject, t.deferSinceMs)
    decreases |samples|
  {
    var s, rest := samples[0], samples[1..];
    var t' := Classify(s, t).0;
    assert s.instance == instance && !Breaks(s);
    if Draws(s, t.settledInject) {
      DrawingStep(s, t);
    } else {
      IdleStepOfChain(s, t);
    }
    if j > 0 {
      if t'.deferBlocked {
        SpentWaitsNoMore(t', rest, instance, j - 1);
      } else {
        OpenWaitsExactly(t', rest, instance, j - 1);
        RestInBudget(samples, j, t.settledInject, t.deferSinceMs);
      }
    }
  }

  lemma RestInBudget(samples: seq<Sample>, j: nat, settled: nat, since: Millis)
    requires 0 < j < |samples|
    requires Draws(samples[0], settled) ==> Since(samples[0].nowMs, since) < 2_000
    ensures InBudget(samples, j, settled, since) <==> InBudget(samples[1..], j - 1, settled, since)
  {
    var rest := samples[1..];
    if InBudget(rest, j - 1, settled, since) {
      forall i | 0 <= i <= j && Draws(samples[i], settled)
        ensures Since(samples[i].nowMs, since) < 2_000
      {
        assert i > 0 ==> rest[i - 1] == samples[i];
      }
    }
  }

  /** The first sample of the chain that draws on the budget. */
  predicate DrawsFirst(samples: seq<Sample>, f: nat, settled: nat) {
    f < |samples| && Draws(samples[f], settled) && forall i :: 0 <= i < f ==> !Draws(samples[i], settled)
  }

  lemma {:induction false} WholeWaitsExactly(t: Track, samples: seq<Sample>, instance: nat, f: nat, j: nat)
    requires ForThis(t, instance) && Whole(t) && InFlight(samples, instance) && j < |samples|
    requires DrawsFirst(samples, f, t.settledInject)
    ensures Waits(t, samples, j) <==>
            Draws(samples[j], t.settledInject) && InBudget(samples, j, t.settledInject, samples[f].nowMs)
    decreases |samples|
  {
    var s, rest := samples[0], samples[1..];
    var t' := Classify(s, t).0;
    assert s.instance == instance && !Breaks(s);
    if f == 0 {
      DrawingStep(s, t);
      if j > 0 {
        OpenWaitsExactly(t', rest, instance, j - 1);
        RestInBudget(samples, j, t.settledInject, s.nowMs);
      }
    } else {
      IdleStepOfChain(s, t);
      if j > 0 {
        assert DrawsFirst(rest, f - 1, t.settledInject);
        WholeWaitsExactly(t', rest, instance, f - 1, j - 1);
        RestInBudget(samples, j, t.settledInject, samples[f].nowMs);
      }
    }
  }

  lemma {:induction false} NothingDrawsNothingWaits(t: Track, samples: seq<Sample>, instance: nat, j: nat)
    requires ForThis(t, instance) && InFlight(samples, instance) && j < |samples|
    requires forall i :: 0 <= i <= j ==> !Draws(samples[i], t.settledInject)
    ensures !Waits(t, samples, j)
    decreases |samples|
  {
    assert samples[0].instance == instance && !Breaks(samples[0]);
    IdleStepOfChain(samples[0], t);
    if j > 0 {
      NothingDrawsNothingWaits(Classify(samples[0], t).0, samples[1..], instance, j - 1);
    }
  }

  /** Where a chain begins: at a fresh track, after a sample without an injection underway, or with a new process. */
  predicate Begins(t: Track, before: seq<Sample>, instance: nat) {
    if before == [] then Whole(t) || !ForThis(t, instance)
    else before[|before| - 1].instance != instance || Breaks(before[|before| - 1])
  }

  lemma BeginsWhole(t: Track, before: seq<Sample>, instance: nat)
    requires Begins(t, before, instance)
    ensures var u := Tracks(t, before);
            Whole(u) || (!ForThis(u, instance) && u.instance.Some?)
  {
    if before != [] {
      var init, last := before[..|before| - 1], before[|before| - 1];
      TracksLast(t, before);
      if Breaks(last) {
        BreakMakesWhole(last, Tracks(t, init));
      } else {
        UnderwayKeepsSettled(last, Tracks(t, init));
      }
    }
  }

  /** Another process finds a fresh track. */
  lemma {:induction false} RestartsFresh(t: Track, samples: seq<Sample>, instance: nat, j: nat)
    requires !ForThis(t, instance) && InFlight(samples, instance) && j < |samples|
    ensures Waits(t, samples, j) == Waits(FRESH_TRACK.(instance := Some(instance)), samples, j)
  {
    assert samples[0].instance == instance;
    var found := FRESH_TRACK.(instance := Some(instance));
    assert ForInstance(samples[0], t) == found == ForInstance(samples[0], found);
    assert Classify(samples[0], t) == Classify(samples[0], found);
  }

  /** Everything that has drawn on the budget up to `j` did so less than two seconds after the first to draw. */
  ghost predicate BudgetLasts(samples: seq<Sample>, j: nat, settled: nat)
    requires j < |samples|
  {
    exists f: nat :: DrawsFirst(samples, f, settled) && InBudget(samples, j, settled, samples[f].nowMs)
  }

  lemma BudgetFrom(samples: seq<Sample>, j: nat, settled: nat, f: nat)
    requires j < |samples| && DrawsFirst(samples, f, settled)
    ensures BudgetLasts(samples, j, settled) <==> InBudget(samples, j, settled, samples[f].nowMs)
  {
    if g: nat :| DrawsFirst(samples, g, settled) && InBudget(samples, j, settled, samples[g].nowMs) {
      assert g == f;
    }
  }

  lemma WholeLasts(t: Track, samples: seq<Sample>, instance: nat, j: nat)
    requires Whole(t) && ForThis(t, instance) && InFlight(samples, instance) && j < |samples|
    ensures Waits(t, samples, j) <==> Draws(samples[j], t.settledInject) && BudgetLasts(samples, j, t.settledInject)
  {
    if i: nat :| i <= j && Draws(samples[i], t.settledInject) {
      var f := FirstDraw(samples, t.settledInject, i);
      WholeWaitsExactly(t, samples, instance, f, j);
      BudgetFrom(samples, j, t.settledInject, f);
    } else {
      NothingDrawsNothingWaits(t, samples, instance, j);
    }
  }

  /**
   Over every run of samples: a sample in which an injection is underway waits exactly if
   that injection has not been shown settled, and every such sample of its chain so far,
   itself included, is less than two seconds after the first of them.
   */
  lemma WaitsExactly(t: Track, before: seq<Sample>, samples: seq<Sample>, instance: nat, j: nat)
    requires Begins(t, before, instance) && InFlight(samples, instance) && j < |samples|
    ensures var settled := SettledAfter(SettledFor(t, instance), before, instance);
            Waits(Tracks(t, before), samples, j) <==> Draws(samples[j], settled) && BudgetLasts(samples, j, settled)
  {
    var u := Tracks(t, before);
    SettledIsKept(t, before, instance);
    BeginsWhole(t, before, instance);
    if ForThis(u, instance) {
      WholeLasts(u, samples, instance, j);
    } else {
      RestartsFresh(u, samples, instance, j);
      WholeLasts(FRESH_TRACK.(instance := Some(instance)), samples, instance, j);
    }
  }

  /** A waiting sample reports nothing; one that does not wait is judged, by its drive or against the baseline. */
  lemma WaitingReportsNothing(s: Sample, t: Track)
    requires s.phase != Off
    ensures WaitsAt(s, t) ==> !Classify(s, t).1
    ensures !WaitsAt(s, t) ==>
              Classify(s, t) ==
              var judged := Defer(s, ForInstance(s, t)).0;
              if s.phase == Running && Usable(s) then ByDrive(s, judged)
              else BaselineMoved(s, judged.(displacementHold := None))
  {
  }

  lemma {:induction false} FirstDraw(samples: seq<Sample>, settled: nat, i: nat) returns (f: nat)
    requires i < |samples| && Draws(samples[i], settled)
    ensures DrawsFirst(samples, f, settled) && f <= i
    decreases i
  {
    f := i;
    if k :| 0 <= k < i && Draws(samples[k], settled) {
      f := FirstDraw(samples, settled, k);
    }
  }
}
