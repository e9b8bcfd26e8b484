/** What typed text means: the keys a program sees, with Shift where the keymap asks for it. */
module TypedText {
  import opened Basics
  import opened InputTypes
  import opened Keystrokes
  import opened HeldInput
  import opened ReleaseGuard
  import opened PlanCoverage

  /** A key going down as a program sees it: which keycode, and whether Shift is down with it. */
  datatype Seen = Seen(code: Keycode, shifted: bool)

  /** Where the keymap has Shift, if anywhere. */
  function ShiftAt(km: Keymap): Option<Keycode> {
    if km(SHIFT).Some? then Some(km(SHIFT).value.code) else None
  }

  predicate ShiftDown(km: Keymap, down: set<Item>) {
    ShiftAt(km).Some? && KeyItem(ShiftAt(km).value) in down
  }

  /** Every press of a key other than Shift. */
  function KeysSeen(km: Keymap, down: set<Item>, events: seq<Event>): seq<Seen> {
    if events == [] then []
    else
      var before, last := events[..|events| - 1], events[|events| - 1];
      var seen := KeysSeen(km, down, before);
      if last.down && last.item.KeyItem? && Some(last.item.code) != ShiftAt(km)
      then seen + [Seen(last.item.code, ShiftDown(km, Deliver(down, before)))] else seen
  }

  lemma {:induction false} SeenConcat(km: Keymap, down: set<Item>, a: seq<Event>, b: seq<Event>)
    ensures KeysSeen(km, down, a + b) == KeysSeen(km, down, a) + KeysSeen(km, Deliver(down, a), b)
    decreases |b|
  {
    if b == [] {
      assert a + b == a;
    } else {
      var n := |b| - 1;
      assert (a + b)[..|a + b| - 1] == a + b[..n];
      SeenConcat(km, down, a, b[..n]);
      DeliverConcat(down, a, b[..n]);
    }
  }

  /** A key that is typed: on the keymap, and not where Shift is. */
  predicate Typable(km: Keymap, key: Keysym) {
    Mapped(km, KeyHeld(key)) && Some(km(key).value.code) != ShiftAt(km)
  }

  function Meant(km: Keymap, key: Keysym): Seen
    requires Typable(km, key)
  {
    Seen(km(key).value.code, km(key).value.shifted)
  }

  predicate AllTypable(km: Keymap, keys: seq<Keysym>) {
    forall i :: 0 <= i < |keys| ==> Typable(km, keys[i])
  }

  /** The text as it is meant, key by key. */
  function MeantAll(km: Keymap, keys: seq<Keysym>): seq<Seen>
    requires AllTypable(km, keys)
  {
    if keys == [] then [] else MeantAll(km, keys[..|keys| - 1]) + [Meant(km, keys[|keys| - 1])]
  }

  lemma OneEvent(km: Keymap, down: set<Item>, event: Event)
    ensures KeysSeen(km, down, [event]) ==
            (if event.down && event.item.KeyItem? && Some(event.item.code) != ShiftAt(km)
             then [Seen(event.item.code, ShiftDown(km, down))] else [])
    ensures Deliver(down, [event]) == if event.down then down + {event.item} else down - {event.item}
  {
    assert [event][..0] == [];
    assert Deliver(down, []) == down;
  }

  lemma TwoEvents(km: Keymap, down: set<Item>, a: Event, b: Event)
    ensures KeysSeen(km, down, [a, b]) == KeysSeen(km, down, [a]) + KeysSeen(km, Deliver(down, [a]), [b])
    ensures Deliver(down, [a, b]) == Deliver(Deliver(down, [a]), [b])
  {
    assert [a] + [b] == [a, b];
    SeenConcat(km, down, [a], [b]);
    DeliverConcat(down, [a], [b]);
  }

  /** One half of a keystroke, from Shift up: the press is seen as meant, the release as nothing. */
  lemma HalfATap(km: Keymap, down: set<Item>, key: Keysym, pressed: bool)
    requires Typable(km, key) && (pressed ==> !ShiftDown(km, down))
    ensures var events := TapEvents(km, Tap(KeyHeld(key), pressed));
            && KeysSeen(km, down, events) == (if pressed then [Meant(km, key)] else [])
            && (!pressed && (km(key).value.shifted || !ShiftDown(km, down)) ==> !ShiftDown(km, Deliver(down, events)))
            && (pressed && !km(key).value.shifted ==> !ShiftDown(km, Deliver(down, events)))
  {
    var keyEvent := Event(KeyItem(km(key).value.code), pressed);
    OneEvent(km, down, keyEvent);
    if km(key).value.shifted {
      var shift := Event(KeyItem(km(SHIFT).value.code), pressed);
      var (a, b) := if pressed then (shift, keyEvent) else (keyEvent, shift);
      TwoEvents(km, down, a, b);
      OneEvent(km, down, a);
      OneEvent(km, Deliver(down, [a]), b);
    }
  }

  lemma OneTapSeen(km: Keymap, down: set<Item>, key: Keysym)
    requires Typable(km, key) && !ShiftDown(km, down)
    ensures var events := Expand(km, [Tap(KeyHeld(key), true), Tap(KeyHeld(key), false)]);
            KeysSeen(km, down, events) == [Meant(km, key)] && !ShiftDown(km, Deliver(down, events))
  {
    var a, b := TapEvents(km, Tap(KeyHeld(key), true)), TapEvents(km, Tap(KeyHeld(key), false));
    ExpandTwo(km, Tap(KeyHeld(key), true), Tap(KeyHeld(key), false));
    SeenConcat(km, down, a, b);
    DeliverConcat(down, a, b);
    HalfATap(km, down, key, true);
    HalfATap(km, Deliver(down, a), key, false);
  }

  lemma {:induction false} ExpandConcat(km: Keymap, a: seq<Tap>, b: seq<Tap>)
    ensures Expand(km, a + b) == Expand(km, a) + Expand(km, b)
    decreases |b|
  {
    if b == [] {
      assert a + b == a;
    } else {
      assert (a + b)[..|a + b| - 1] == a + b[..|b| - 1];
      ExpandConcat(km, a, b[..|b| - 1]);
    }
  }

  /** One more key of a text: its events come after those of the rest. */
  lemma TextSnoc(km: Keymap, keys: seq<Keysym>, key: Keysym)
    ensures Expand(km, TapsOf(Typed(keys + [key]))) ==
            Expand(km, TapsOf(Typed(keys))) + Expand(km, [Tap(KeyHeld(key), true), Tap(KeyHeld(key), false)])
  {
    assert (keys + [key])[..|keys|] == keys;
    TapsOfConcat(Typed(keys), [Stroke(key, true), Stroke(key, false)]);
    OneTap(key);
    ExpandConcat(km, TapsOf(Typed(keys)), [Tap(KeyHeld(key), true), Tap(KeyHeld(key), false)]);
  }

  lemma OneMoreSeen(km: Keymap, down: set<Item>, events: seq<Event>, key: Keysym)
    requires Typable(km, key) && !ShiftDown(km, Deliver(down, events))
    ensures var more := events + Expand(km, [Tap(KeyHeld(key), true), Tap(KeyHeld(key), false)]);
            && KeysSeen(km, down, more) == KeysSeen(km, down, events) + [Meant(km, key)]
            && !ShiftDown(km, Deliver(down, more))
  {
    var tap := Expand(km, [Tap(KeyHeld(key), true), Tap(KeyHeld(key), false)]);
    OneTapSeen(km, Deliver(down, events), key);
    SeenConcat(km, down, events, tap);
    DeliverConcat(down, events, tap);
  }

  /** What a program sees of the events: the text, and Shift up again. */
  ghost predicate SeenAs(km: Keymap, down: set<Item>, events: seq<Event>, meant: seq<Seen>) {
    KeysSeen(km, down, events) == meant && !ShiftDown(km, Deliver(down, events))
  }

  ghost predicate TextSeen(km: Keymap, down: set<Item>, keys: seq<Keysym>)
    requires AllTypable(km, keys)
  {
    SeenAs(km, down, Expand(km, TapsOf(Typed(keys))), MeantAll(km, keys))
  }

  lemma NoTextSeen(km: Keymap, down: set<Item>)
    requires !ShiftDown(km, down)
    ensures TextSeen(km, down, [])
  {
    assert Typed([]) == [] && TapsOf([]) == [] && Expand(km, []) == [];
  }

  lemma MeantSnoc(km: Keymap, keys: seq<Keysym>, key: Keysym)
    requires AllTypable(km, keys) && Typable(km, key)
    ensures AllTypable(km, keys + [key]) && MeantAll(km, keys + [key]) == MeantAll(km, keys) + [Meant(km, key)]
  {
    assert (keys + [key])[..|keys|] == keys;
  }

  lemma OneMoreKeySeen(km: Keymap, down: set<Item>, keys: seq<Keysym>, key: Keysym)
    requires AllTypable(km, keys) && Typable(km, key) && TextSeen(km, down, keys)
    ensures AllTypable(km, keys + [key]) && TextSeen(km, down, keys + [key])
  {
    TextSnoc(km, keys, key);
    MeantSnoc(km, keys, key);
    OneMoreSeen(km, down, Expand(km, TapsOf(Typed(keys))), key);
  }

  lemma {:induction false} TextIsSeen(km: Keymap, down: set<Item>, keys: seq<Keysym>)
    requires AllTypable(km, keys) && !ShiftDown(km, down)
    ensures TextSeen(km, down, keys)
    decreases |keys|
  {
    if keys == [] {
      NoTextSeen(km, down);
    } else {
      TextIsSeen(km, down, keys[..|keys| - 1]);
      assert keys == keys[..|keys| - 1] + [keys[|keys| - 1]];
      OneMoreKeySeen(km, down, keys[..|keys| - 1], keys[|keys| - 1]);
    }
  }

  // ----- the same through the chunks

  lemma {:induction false} EventsOfParts(km: Keymap, chunks: seq<Chunk>, parts: seq<seq<Tap>>)
    requires AllSentAs(km, chunks, parts)
    ensures EventsOf(chunks) == Expand(km, Flatten(parts))
    decreases |chunks|
  {
    if chunks != [] {
      var n := |chunks| - 1;
      assert SentAs(km, chunks[n], parts[n]);
      forall k | 0 <= k < n
        ensures SentAs(km, chunks[..n][k], parts[..n][k])
      {
        assert SentAs(km, chunks[k], parts[k]);
      }
      EventsOfParts(km, chunks[..n], parts[..n]);
      TakeOneMore(parts, n);
      assert parts[..n + 1] == parts;
      ExpandConcat(km, Flatten(parts[..n]), parts[n]);
    }
  }

  /** Every key of the strokes is on the keymap. */
  ghost predicate AllMapped(km: Keymap, strokes: seq<Stroke>) {
    forall stroke :: stroke in strokes ==> Mapped(km, KeyHeld(stroke.keysym))
  }

  lemma {:induction false} TypedIsMapped(km: Keymap, keys: seq<Keysym>)
    requires AllTypable(km, keys)
    ensures AllMapped(km, Typed(keys))
    decreases |keys|
  {
    if keys != [] {
      TypedIsMapped(km, keys[..|keys| - 1]);
    }
  }

  /** With every key on the keymap, every chunk is sent, and all of its taps. */
  lemma {:induction false} AllIsSent(km: Keymap, parts: seq<seq<Stroke>>)
    requires AllMapped(km, Flatten(parts))
    ensures Reachable(km, parts) == |parts| && Flatten(SentParts(km, parts)) == TapsOf(Flatten(parts))
    decreases |parts|
  {
    if parts != [] {
      forall i | 0 <= i < |parts[0]|
        ensures Mapped(km, KeyHeld(parts[0][i].keysym))
      {
        assert parts[0][i] in Flatten(parts);
      }
      assert AllMapped(km, Flatten(parts[1..]));
      AllIsSent(km, parts[1..]);
      TapsOfConcat(parts[0], Flatten(parts[1..]));
      assert SentParts(km, parts)[1..] == SentParts(km, parts[1..]);
    }
  }

  lemma PlanIsTheText(km: Keymap, keys: seq<Keysym>)
    requires AllTypable(km, keys)
    ensures EventsOf(KeyPlan(km, Typed(keys))) == Expand(km, TapsOf(Typed(keys)))
  {
    var parts := Chunks(Typed(keys));
    ChunksAreSmallAndAll(Typed(keys));
    TypedIsMapped(km, keys);
    AllIsSent(km, parts);
    assert parts[..|parts|] == parts;
    KeyPlanIsSent(km, Typed(keys));
    EventsOfParts(km, KeyPlan(km, Typed(keys)), SentParts(km, parts));
  }

  lemma SeenSoFar(km: Keymap, down: set<Item>, sent: seq<Event>, events: seq<Event>)
    requires sent <= events
    ensures KeysSeen(km, down, sent) <= KeysSeen(km, down, events)
  {
    assert events == sent + events[|sent|..];
    SeenConcat(km, down, sent, events[|sent|..]);
  }

  lemma {:induction false} EventsSplit(chunks: seq<Chunk>, n: nat)
    requires n <= |chunks|
    ensures EventsOf(chunks[..n]) <= EventsOf(chunks)
    decreases |chunks|
  {
    if n < |chunks| {
      EventsSplit(chunks[..|chunks| - 1], n);
      assert chunks[..|chunks| - 1][..n] == chunks[..n];
    } else {
      assert chunks[..n] == chunks;
    }
  }

  /**
   A typed text, from Shift up: a program sees exactly its keys, in order, each with Shift
   exactly if the keymap asks for it, and Shift is up afterwards. After any number of chunks
   it has seen a beginning of the text.
   */
  lemma TypedTextIsSeen(km: Keymap, down: set<Item>, keys: seq<Keysym>, n: nat)
    requires AllTypable(km, keys)
    requires !ShiftDown(km, down) && n <= |KeyPlan(km, Typed(keys))|
    ensures var plan := KeyPlan(km, Typed(keys));
            && SeenAs(km, down, EventsOf(plan), MeantAll(km, keys))
            && KeysSeen(km, down, EventsOf(plan[..n])) <= MeantAll(km, keys)
  {
    var plan := KeyPlan(km, Typed(keys));
    PlanIsTheText(km, keys);
    TextIsSeen(km, down, keys);
    EventsSplit(plan, n);
    SeenSoFar(km, down, EventsOf(plan[..n]), EventsOf(plan));
  }
}
