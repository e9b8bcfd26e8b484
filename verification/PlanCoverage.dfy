/** Which requests have plans that the release guard covers, whatever their length, their cuts and the keymap. */
module PlanCoverage {
  import opened Basics
  import opened InputTypes
  import opened Keystrokes
  import opened HeldInput
  import opened DragPath
  import opened ReleaseGuard

  // ----- typed requests

  /** Every key that comes up went down earlier in the request and is still down. */
  ghost predicate Matched(strokes: seq<Stroke>) {
    Balanced(TapsOf(strokes))
  }

  lemma {:induction false} TapsOfConcat(a: seq<Stroke>, b: seq<Stroke>)
    ensures TapsOf(a + b) == TapsOf(a) + TapsOf(b)
    decreases |b|
  {
    if b == [] {
      assert a + b == a;
    } else {
      assert (a + b)[..|a + b| - 1] == a + b[..|b| - 1];
      TapsOfConcat(a, b[..|b| - 1]);
    }
  }

  function SentParts(km: Keymap, parts: seq<seq<Stroke>>): seq<seq<Tap>> {
    seq(|parts|, (i: int) requires 0 <= i < |parts| => SentTaps(km, parts[i]))
  }

  /** What can be sent of a request is a prefix of it. */
  lemma {:induction false} SentIsPrefix(km: Keymap, parts: seq<seq<Stroke>>)
    ensures Flatten(SentParts(km, parts[..Reachable(km, parts)])) <= TapsOf(Flatten(parts))
    decreases |parts|
  {
    if parts != [] {
      var n := Reachable(km, parts);
      var sent := SentParts(km, parts[..n]);
      TapsOfConcat(parts[0], Flatten(parts[1..]));
      if Sendable(km, parts[0]) {
        SentIsPrefix(km, parts[1..]);
        assert parts[..n][1..] == parts[1..][..n - 1];
        assert sent[1..] == SentParts(km, parts[1..][..n - 1]);
      } else {
        assert sent[1..] == [];
      }
    }
  }

  lemma KeyPlanIsSent(km: Keymap, strokes: seq<Stroke>)
    ensures var parts := Chunks(strokes)[..Reachable(km, Chunks(strokes))];
            AllSentAs(km, KeyPlan(km, strokes), SentParts(km, parts))
  {
    var parts := Chunks(strokes)[..Reachable(km, Chunks(strokes))];
    forall n | 0 <= n < |parts|
      ensures SentAs(km, KeyChunk(km, parts[n]), SentTaps(km, parts[n]))
    {
      KeyChunkIsSent(km, parts[n]);
    }
  }

  /** Every typed request in which each release has its press: covered, whatever the keymap and wherever it is cut. */
  lemma MatchedIsCovered(km: Keymap, strokes: seq<Stroke>)
    requires Matched(strokes)
    ensures Covered(km, KeyPlan(km, strokes))
  {
    var sent := SentParts(km, Chunks(strokes)[..Reachable(km, Chunks(strokes))]);
    ChunksAreSmallAndAll(strokes);
    SentIsPrefix(km, Chunks(strokes));
    BalancedPrefix(TapsOf(strokes), |Flatten(sent)|);
    assert TapsOf(strokes)[..|Flatten(sent)|] == Flatten(sent);
    KeyPlanIsSent(km, strokes);
    BalancedIsCovered(km, KeyPlan(km, strokes), sent);
  }

  /** Text is typed as taps. */
  function Typed(keys: seq<Keysym>): seq<Stroke> {
    if keys == [] then []
    else Typed(keys[..|keys| - 1]) + [Stroke(keys[|keys| - 1], true), Stroke(keys[|keys| - 1], false)]
  }

  lemma {:induction false} TypedTapsBalance(keys: seq<Keysym>, n: nat, note: Held)
    requires n <= |TapsOf(Typed(keys))|
    ensures var taps := TapsOf(Typed(keys));
            && CountTaps(taps[..n], note, false) <= CountTaps(taps[..n], note, true)
            && CountTaps(taps, note, false) == CountTaps(taps, note, true)
    decreases |keys|
  {
    if keys != [] {
      var key := keys[|keys| - 1];
      var init, tap := TapsOf(Typed(keys[..|keys| - 1])), [Tap(KeyHeld(key), true), Tap(KeyHeld(key), false)];
      TapsOfConcat(Typed(keys[..|keys| - 1]), [Stroke(key, true), Stroke(key, false)]);
      OneTap(key);
      TypedTapsBalance(keys[..|keys| - 1], if n <= |init| then n else |init|, note);
      OneTapBalances(KeyHeld(key), note, if n <= |init| then 0 else n - |init|);
      TapsConcat(init, tap, note);
      if n <= |init| {
        assert (init + tap)[..n] == init[..n];
      } else {
        assert (init + tap)[..n] == init + tap[..n - |init|];
        TapsConcat(init, tap[..n - |init|], note);
      }
    }
  }

  lemma OneTap(key: Keysym)
    ensures TapsOf([Stroke(key, true), Stroke(key, false)]) == [Tap(KeyHeld(key), true), Tap(KeyHeld(key), false)]
  {
    TapsOfConcat([Stroke(key, true)], [Stroke(key, false)]);
    assert [Stroke(key, true)] + [Stroke(key, false)] == [Stroke(key, true), Stroke(key, false)];
    TapOfOne(Stroke(key, true));
    TapOfOne(Stroke(key, false));
  }

  lemma TapOfOne(stroke: Stroke)
    ensures TapsOf([stroke]) == [Tap(KeyHeld(stroke.keysym), stroke.down)]
  {
    assert [stroke][..0] == [];
  }

  lemma CountOfOne(tap: Tap, note: Held)
    ensures forall d :: CountTaps([tap], note, d) == if tap == Tap(note, d) then 1 else 0
  {
    assert [tap][..0] == [];
  }

  lemma OneTapBalances(pressed: Held, note: Held, n: nat)
    requires n <= 2
    ensures var tap := [Tap(pressed, true), Tap(pressed, false)];
            && CountTaps(tap[..n], note, false) <= CountTaps(tap[..n], note, true)
            && CountTaps(tap, note, false) == CountTaps(tap, note, true)
  {
    var tap := [Tap(pressed, true), Tap(pressed, false)];
    CountOfOne(tap[0], note);
    CountOfOne(tap[1], note);
    TapsConcat([tap[0]], [tap[1]], note);
    assert [tap[0]] + [tap[1]] == tap && tap[..1] == [tap[0]] && tap[..0] == [] && tap[..2] == tap;
  }

  /** Any text, whatever its keymap and length. */
  lemma TextIsCovered(km: Keymap, keys: seq<Keysym>)
    ensures Covered(km, KeyPlan(km, Typed(keys)))
  {
    forall n, note | 0 <= n <= |TapsOf(Typed(keys))|
      ensures CountTaps(TapsOf(Typed(keys))[..n], note, false) <= CountTaps(TapsOf(Typed(keys))[..n], note, true)
    {
      TypedTapsBalance(keys, n, note);
    }
    MatchedIsCovered(km, Typed(keys));
  }

  /** For every typed request and keymap: nothing is left down, wherever it stops, exactly if its plan is covered. */
  lemma TypedReleaseIsCompleteExactly(km: Keymap, strokes: seq<Stroke>)
    ensures AlwaysLeavesNothing(km, KeyPlan(km, strokes)) <==> Covered(km, KeyPlan(km, strokes))
  {
    KeyPlanIsHonest(km, strokes);
    ReleaseIsCompleteExactly(km, KeyPlan(km, strokes));
  }

  // ----- requests of one chunk

  /** Strokes that no two neighbours of form a keystroke, and few enough for one chunk. */
  ghost predicate Loose(strokes: seq<Stroke>) {
    0 < |strokes| <= TYPE_CHUNK_KEYSTROKES && forall i :: 0 < i < |strokes| ==> !Pair(strokes[i - 1], strokes[i])
  }

  function Singles(strokes: seq<Stroke>): seq<seq<Stroke>> {
    if strokes == [] then [] else [[strokes[0]]] + Singles(strokes[1..])
  }

  lemma {:induction false} SinglesAre(strokes: seq<Stroke>)
    ensures |Singles(strokes)| == |strokes| && Flatten(Singles(strokes)) == strokes
    ensures forall i :: 0 <= i < |strokes| ==> Singles(strokes)[i] == [strokes[i]]
  {
    if strokes != [] {
      SinglesAre(strokes[1..]);
      assert Singles(strokes)[1..] == Singles(strokes[1..]);
    }
  }

  lemma OneChunk(km: Keymap, strokes: seq<Stroke>)
    requires Loose(strokes)
    ensures KeyPlan(km, strokes) == [KeyChunk(km, strokes)]
  {
    SinglesAre(strokes);
    CanonicalIsGroups(Singles(strokes));
    assert Groups(strokes)[..|strokes|] == Groups(strokes);
    assert Taken(strokes, TYPE_CHUNK_KEYSTROKES) == strokes;
    assert strokes[|strokes|..] == [];
    assert Chunks(strokes) == [strokes] + Chunks([]) == [strokes];
    assert [strokes][1..] == [];
    assert [strokes][..1] == [strokes];
  }

  lemma OneChunkCovered(km: Keymap, chunk: Chunk)
    ensures Covered(km, [chunk]) <==>
            forall item :: LastOn(chunk.events, item) == Some(true) ==> Lifted(km, Noted([], chunk), item)
  {
    OneMore([chunk], 0);
    assert [chunk][..0] == [] && [chunk][..1] == [chunk];
    if Covered(km, [chunk]) {
      forall item | LastOn(chunk.events, item) == Some(true)
        ensures Lifted(km, Noted([], chunk), item)
      {
        assert LastOn([chunk][0].events, item) == Some(true);
      }
    }
  }

  function StrokePresses(km: Keymap, stroke: Stroke): seq<Held> {
    if !stroke.down then []
    else if km(stroke.keysym).Some? && km(stroke.keysym).value.shifted then [KeyHeld(SHIFT), KeyHeld(stroke.keysym)]
    else [KeyHeld(stroke.keysym)]
  }

  function StrokeReleases(stroke: Stroke): seq<Held> {
    if stroke.down then [] else [KeyHeld(stroke.keysym)]
  }

  /** One more stroke in a chunk: its taps, its notes. */
  lemma StrokeSnoc(km: Keymap, strokes: seq<Stroke>, stroke: Stroke)
    ensures TapsOf(strokes + [stroke]) == TapsOf(strokes) + [Tap(KeyHeld(stroke.keysym), stroke.down)]
    ensures PlannedPresses(km, strokes + [stroke]) == PlannedPresses(km, strokes) + StrokePresses(km, stroke)
    ensures ReleasedKeys(strokes + [stroke]) == ReleasedKeys(strokes) + StrokeReleases(stroke)
  {
    var longer := strokes + [stroke];
    assert longer[..|longer| - 1] == strokes;
  }

  lemma ExpandTwo(km: Keymap, a: Tap, b: Tap)
    ensures Expand(km, [a, b]) == TapEvents(km, a) + TapEvents(km, b)
  {
    assert [a, b][..1] == [a] && [a][..0] == [];
    assert Expand(km, [a]) == TapEvents(km, a);
  }

  lemma NoteOneUp(held: seq<Held>, note: Held)
    ensures NoteUps(held, [note]) == NoteUp(held, note)
  {
    assert [note][..0] == [];
  }

  /** The request that lets a key go and then presses it. */
  function ReleaseThenPress(key: Keysym): seq<Stroke> {
    [Stroke(key, false), Stroke(key, true)]
  }

  lemma ReleaseThenPressChunk(km: Keymap, key: Keysym)
    ensures var strokes := ReleaseThenPress(key);
            && TapsOf(strokes) == [Tap(KeyHeld(key), false), Tap(KeyHeld(key), true)]
            && ReleasedKeys(strokes) == [KeyHeld(key)]
            && PlannedPresses(km, strokes) == StrokePresses(km, Stroke(key, true))
  {
    StrokeSnoc(km, [], Stroke(key, false));
    StrokeSnoc(km, [Stroke(key, false)], Stroke(key, true));
    assert [] + [Stroke(key, false)] == [Stroke(key, false)];
    assert [Stroke(key, false)] + [Stroke(key, true)] == ReleaseThenPress(key);
  }

  /** The chunk ends with what the key's release lifts pressed, and the guard notes at most Shift. */
  lemma ReleaseThenPressSends(km: Keymap, key: Keysym, item: Item)
    requires Mapped(km, KeyHeld(key))
    ensures LastOn(KeyChunk(km, ReleaseThenPress(key)).events, item) == Some(true) <==> Lifts(km, KeyHeld(key), item)
  {
    var up, down := Tap(KeyHeld(key), false), Tap(KeyHeld(key), true);
    ReleaseThenPressChunk(km, key);
    ExpandTwo(km, up, down);
    LastOnConcat(TapEvents(km, up), TapEvents(km, down), item);
    TapTouches(km, up, item);
    TapTouches(km, down, item);
  }

  lemma ReleaseThenPressNotes(km: Keymap, key: Keysym)
    requires Mapped(km, KeyHeld(key))
    ensures Noted([], KeyChunk(km, ReleaseThenPress(key))) == if km(key).value.shifted then [KeyHeld(SHIFT)] else []
  {
    var note, presses := KeyHeld(key), StrokePresses(km, Stroke(key, true));
    ReleaseThenPressChunk(km, key);
    NoteOneUp(presses, note);
    assert [] + presses == presses;
    assert presses[..|presses| - 1] == if km(key).value.shifted then [KeyHeld(SHIFT)] else [];
  }

  /**
   A typed request the endpoint accepts, and what it leaves: the key stays down after it, on
   every keymap that has the key, unless the key needs Shift and is itself where Shift is.
   */
  lemma ReleaseThenPressEscapes(km: Keymap, key: Keysym)
    ensures AlwaysLeavesNothing(km, KeyPlan(km, ReleaseThenPress(key))) <==>
            !Mapped(km, KeyHeld(key)) || (km(key).value.shifted && km(SHIFT).value.code == km(key).value.code)
  {
    var strokes := ReleaseThenPress(key);
    OneChunk(km, strokes);
    TypedReleaseIsCompleteExactly(km, strokes);
    OneChunkCovered(km, KeyChunk(km, strokes));
    if Mapped(km, KeyHeld(key)) {
      ReleaseThenPressNotes(km, key);
      forall item
        ensures LastOn(KeyChunk(km, strokes).events, item) == Some(true) <==> Lifts(km, KeyHeld(key), item)
      {
        ReleaseThenPressSends(km, key, item);
      }
      forall item {
        ShiftLifts(km, key, item);
      }
      assert Lifts(km, KeyHeld(key), KeyItem(km(key).value.code));
    } else {
      assert !Mapped(km, KeyHeld(strokes[0].keysym));
    }
  }

  /** Letting go of a shifted key lifts its keycode and Shift's; of Shift, Shift's. */
  lemma ShiftLifts(km: Keymap, key: Keysym, item: Item)
    requires Mapped(km, KeyHeld(key))
    ensures Lifts(km, KeyHeld(key), item) <==>
            item == KeyItem(km(key).value.code) || (km(key).value.shifted && item == KeyItem(km(SHIFT).value.code))
    ensures km(key).value.shifted ==>
              (Lifted(km, [KeyHeld(SHIFT)], item) <==> item == KeyItem(km(SHIFT).value.code))
    ensures !Lifted(km, [], item)
  {
    assert KeyHeld(SHIFT) in [KeyHeld(SHIFT)];
  }

  // ----- two keysyms on one keycode

  /** An upper-case key goes down, its lower-case one comes up and goes down again. */
  function UpperThenLower(upper: Keysym, lower: Keysym): seq<Stroke> {
    [Stroke(upper, true), Stroke(lower, false), Stroke(lower, true)]
  }

  predicate UpperAndLower(km: Keymap, upper: Keysym, lower: Keysym) {
    upper != lower && km(upper).Some? && km(lower).Some? && km(SHIFT).Some? &&
    km(upper).value == Key(km(lower).value.code, true) && !km(lower).value.shifted
  }

  lemma UpperThenLowerChunk(km: Keymap, upper: Keysym, lower: Keysym)
    requires UpperAndLower(km, upper, lower)
    ensures var strokes := UpperThenLower(upper, lower);
            && ReleasedKeys(strokes) == [KeyHeld(lower)]
            && PlannedPresses(km, strokes) == [KeyHeld(SHIFT), KeyHeld(upper), KeyHeld(lower)]
  {
    var first, second := [Stroke(upper, true)], [Stroke(upper, true), Stroke(lower, false)];
    StrokeSnoc(km, [], Stroke(upper, true));
    StrokeSnoc(km, first, Stroke(lower, false));
    StrokeSnoc(km, second, Stroke(lower, true));
    assert [] + first == first && first + [Stroke(lower, false)] == second;
    assert second + [Stroke(lower, true)] == UpperThenLower(upper, lower);
  }

  lemma UpperStaysNoted(km: Keymap, upper: Keysym, lower: Keysym)
    requires UpperAndLower(km, upper, lower)
    ensures KeyHeld(upper) in Noted([], KeyChunk(km, UpperThenLower(upper, lower)))
  {
    var chunk := KeyChunk(km, UpperThenLower(upper, lower));
    UpperThenLowerChunk(km, upper, lower);
    NoteUpsCount([] + chunk.presses, chunk.releases, KeyHeld(upper));
    assert KeyHeld(upper) in multiset(Noted([], chunk));
  }

  /** Whatever the request presses, letting go of the upper-case key lifts. */
  lemma UpperLiftsAll(km: Keymap, upper: Keysym, lower: Keysym, item: Item)
    requires UpperAndLower(km, upper, lower)
    requires LastOn(Expand(km, TapsOf(UpperThenLower(upper, lower))), item) == Some(true)
    ensures Lifts(km, KeyHeld(upper), item)
  {
    var strokes := UpperThenLower(upper, lower);
    LastPressHasTap(km, TapsOf(strokes), item);
    var note :| LastTap(TapsOf(strokes), note) == Some(true) && Lifts(km, note, item);
    TapsAreStrokes(strokes, note);
    ShiftLifts(km, upper, item);
    ShiftLifts(km, lower, item);
  }

  /** They share a keycode, so what the guard still notes of the one lets go of the other: nothing is left. */
  lemma SharedKeycodeIsLetGo(km: Keymap, upper: Keysym, lower: Keysym)
    requires UpperAndLower(km, upper, lower)
    ensures AlwaysLeavesNothing(km, KeyPlan(km, UpperThenLower(upper, lower)))
  {
    var strokes := UpperThenLower(upper, lower);
    var chunk := KeyChunk(km, strokes);
    OneChunk(km, strokes);
    TypedReleaseIsCompleteExactly(km, strokes);
    OneChunkCovered(km, chunk);
    UpperStaysNoted(km, upper, lower);
    forall item | LastOn(chunk.events, item) == Some(true)
      ensures Lifted(km, Noted([], chunk), item)
    {
      UpperLiftsAll(km, upper, lower, item);
    }
  }

  lemma {:induction false} TapsAreStrokes(strokes: seq<Stroke>, note: Held)
    ensures LastTap(TapsOf(strokes), note).Some? ==>
              note.KeyHeld? && exists i :: 0 <= i < |strokes| && strokes[i].keysym == note.keysym
    decreases |strokes|
  {
    if strokes != [] {
      var init := strokes[..|strokes| - 1];
      assert TapsOf(strokes)[..|TapsOf(strokes)| - 1] == TapsOf(init);
      TapsAreStrokes(init, note);
      if i :| 0 <= i < |init| && note.KeyHeld? && init[i].keysym == note.keysym {
        assert strokes[i].keysym == note.keysym;
      }
      assert strokes[|strokes| - 1].keysym == strokes[|strokes| - 1].keysym;
    }
  }

  // ----- pointer requests

  lemma {:induction false} ButtonTapsConcat(a: seq<PointerStep>, b: seq<PointerStep>)
    ensures ButtonTaps(a + b) == ButtonTaps(a) + ButtonTaps(b)
    decreases |b|
  {
    if b == [] {
      assert a + b == a;
    } else {
      assert (a + b)[..|a + b| - 1] == a + b[..|b| - 1];
      ButtonTapsConcat(a, b[..|b| - 1]);
    }
  }

  function TapParts(parts: seq<seq<PointerStep>>): seq<seq<Tap>> {
    seq(|parts|, (i: int) requires 0 <= i < |parts| => ButtonTaps(parts[i]))
  }

  lemma {:induction false} TapsOfBatches(parts: seq<seq<PointerStep>>)
    ensures Flatten(TapParts(parts)) == ButtonTaps(Flatten(parts))
  {
    if parts != [] {
      TapsOfBatches(parts[1..]);
      assert TapParts(parts)[1..] == TapParts(parts[1..]);
      ButtonTapsConcat(parts[0], Flatten(parts[1..]));
    }
  }

  /** A pointer request whose releases have their presses. */
  lemma BalancedButtonsAreCovered(km: Keymap, steps: seq<PointerStep>)
    requires Balanced(ButtonTaps(steps))
    ensures Covered(km, PointerPlan(km, steps))
  {
    var parts := PointerBatches(steps);
    BatchesCover(steps);
    TapsOfBatches(parts);
    forall n | 0 <= n < |parts|
      ensures SentAs(km, PointerChunk(km, parts[n]), ButtonTaps(parts[n]))
    {
      PointerChunkIsSent(km, parts[n]);
    }
    BalancedIsCovered(km, PointerPlan(km, steps), TapParts(parts));
  }

  lemma {:induction false} MovesPressNothing(steps: seq<PointerStep>)
    requires forall i :: 0 <= i < |steps| ==> !steps[i].Press?
    ensures ButtonTaps(steps) == []
    decreases |steps|
  {
    if steps != [] {
      MovesPressNothing(steps[..|steps| - 1]);
    }
  }

  lemma OneTapIsBalanced(pressed: Held)
    ensures Balanced([Tap(pressed, true), Tap(pressed, false)])
  {
    forall n, note | 0 <= n <= 2
      ensures var tap := [Tap(pressed, true), Tap(pressed, false)];
              CountTaps(tap[..n], note, false) <= CountTaps(tap[..n], note, true)
    {
      OneTapBalances(pressed, note, n);
    }
  }

  /** Every accepted drag presses its button once and releases it once. */
  lemma DragIsCovered(km: Keymap, from: Point, to: Point, button: Button)
    requires PointCount(from, to).Some?
    ensures Covered(km, PointerPlan(km, Plan(from, to, button)))
  {
    var plan := Plan(from, to, button);
    var n := |plan| - 1;
    var moves := plan[2..n];
    assert plan == plan[..1] + [plan[1]] + moves + [plan[n]];
    ButtonTapsConcat(plan[..1] + [plan[1]] + moves, [plan[n]]);
    ButtonTapsConcat(plan[..1] + [plan[1]], moves);
    ButtonTapsConcat(plan[..1], [plan[1]]);
    MovesPressNothing(moves);
    MovesPressNothing(plan[..1]);
    assert [plan[1]][..0] == [] && [plan[n]][..0] == [];
    assert ButtonTaps(plan) == [Tap(ButtonHeld(button), true), Tap(ButtonHeld(button), false)];
    OneTapIsBalanced(ButtonHeld(button));
    BalancedButtonsAreCovered(km, plan);
  }

  /** A request that presses nothing, a scroll for one. */
  lemma WheelIsCovered(km: Keymap, steps: seq<PointerStep>)
    requires forall i :: 0 <= i < |steps| ==> !steps[i].Press?
    ensures Covered(km, PointerPlan(km, steps))
  {
    MovesPressNothing(steps);
    BalancedButtonsAreCovered(km, steps);
  }

  lemma ShortCallIsSent(km: Keymap, op: MouseOp)
    ensures SentAs(km, ShortChunk(km, op), ShortTaps(op)) && Balanced(ShortTaps(op))
  {
    var chunk, taps := ShortChunk(km, op), ShortTaps(op);
    if taps != [] {
      forall note
        ensures CountTaps(taps, note, true) == multiset(chunk.presses)[note] == CountTaps(taps, note, false)
      {
        CountOfOne(taps[0], note);
        CountOfOne(taps[1], note);
        TapsConcat([taps[0]], [taps[1]], note);
        assert [taps[0]] + [taps[1]] == taps;
      }
      OneTapIsBalanced(taps[0].note);
    }
  }

  /** Every short call presses its button once and releases it once. */
  lemma ShortCallIsCovered(km: Keymap, op: MouseOp)
    ensures Honest(km, ShortChunk(km, op)) && Covered(km, [ShortChunk(km, op)])
  {
    var chunk, taps := ShortChunk(km, op), ShortTaps(op);
    ShortCallIsSent(km, op);
    assert Flatten([taps]) == taps by {
      assert [taps][1..] == [];
    }
    BalancedIsCovered(km, [chunk], [taps]);
    assert [chunk][0] == chunk;
  }
}
