/**
 What a request may leave pressed. Keys and buttons go down on a desktop that can fail
 after any part of a send; the release guard keeps a list of what the request pressed
 and releases it when the request ends, however it ends.

 The guard notes keysyms; the desktop holds keycodes. One keycode can carry two keysyms,
 and letting a shifted keysym go lets go of Shift as well.
 */
module HeldInput {
  import opened Basics
  import opened InputTypes
  import opened Keystrokes

  type Keycode = nat

  /** Where the keymap has a keysym, and whether it takes Shift there. */
  datatype Key = Key(code: Keycode, shifted: bool)

  type Keymap = Keysym -> Option<Key>

  const SHIFT: Keysym := 0xffe1

  /** What the guard notes. */
  datatype Held = ButtonHeld(button: Button) | KeyHeld(keysym: Keysym)

  /** What can be down. */
  datatype Item = ButtonItem(button: Button) | KeyItem(code: Keycode)

  datatype Event = Event(item: Item, down: bool)

  // ----- the desktop

  function Deliver(down: set<Item>, events: seq<Event>): set<Item> {
    if events == [] then down
    else
      var before := Deliver(down, events[..|events| - 1]);
      var last := events[|events| - 1];
      if last.down then before + {last.item} else before - {last.item}
  }

  /** The last event on one key or button. */
  function LastOn(events: seq<Event>, item: Item): Option<bool> {
    if events == [] then None
    else if events[|events| - 1].item == item then Some(events[|events| - 1].down)
    else LastOn(events[..|events| - 1], item)
  }

  lemma {:induction false} DownByLast(down: set<Item>, events: seq<Event>, item: Item)
    ensures item in Deliver(down, events) <==>
            match LastOn(events, item) { case Some(d) => d case None => item in down }
    decreases |events|
  {
    if events != [] {
      DownByLast(down, events[..|events| - 1], item);
    }
  }

  lemma {:induction false} LastOnConcat(a: seq<Event>, b: seq<Event>, item: Item)
    ensures LastOn(a + b, item) == if LastOn(b, item).Some? then LastOn(b, item) else LastOn(a, item)
    decreases |b|
  {
    if b == [] {
      assert a + b == a;
    } else {
      assert (a + b)[..|a + b| - 1] == a + b[..|b| - 1];
      LastOnConcat(a, b[..|b| - 1], item);
    }
  }

  lemma {:induction false} LastIsAmong(events: seq<Event>, item: Item)
    ensures LastOn(events, item) == None <==> Event(item, true) !in events && Event(item, false) !in events
    ensures LastOn(events, item).Some? ==> Event(item, LastOn(events, item).value) in events
    decreases |events|
  {
    if events != [] {
      var init := events[..|events| - 1];
      assert events == init + [events[|events| - 1]];
      LastIsAmong(init, item);
    }
  }

  lemma {:induction false} DeliverConcat(down: set<Item>, a: seq<Event>, b: seq<Event>)
    ensures Deliver(down, a + b) == Deliver(Deliver(down, a), b)
    decreases |b|
  {
    if b == [] {
      assert a + b == a;
    } else {
      assert (a + b)[..|a + b| - 1] == a + b[..|b| - 1];
      DeliverConcat(down, a, b[..|b| - 1]);
    }
  }

  // ----- pressing and letting go of one noted item

  /** One press or release of something the guard can note. */
  datatype Tap = Tap(note: Held, down: bool)

  /** Whether the keymap has the key, and a Shift if the key takes one. */
  predicate Mapped(km: Keymap, note: Held) {
    match note
    case ButtonHeld(_) => true
    case KeyHeld(keysym) => km(keysym).Some? && (km(keysym).value.shifted ==> km(SHIFT).Some?)
  }

  /**
   What the sender makes of it: a shifted key goes down behind Shift and comes up before it.
   Of a key the keymap does not have it makes nothing.
   */
  function TapEvents(km: Keymap, tap: Tap): seq<Event> {
    if !Mapped(km, tap.note) then []
    else
      match tap.note
      case ButtonHeld(button) => [Event(ButtonItem(button), tap.down)]
      case KeyHeld(keysym) =>
        var key := Event(KeyItem(km(keysym).value.code), tap.down);
        if !km(keysym).value.shifted then [key]
        else
          var shift := Event(KeyItem(km(SHIFT).value.code), tap.down);
          if tap.down then [shift, key] else [key, shift]
  }

  /** What letting go of a noted item lifts. */
  predicate Lifts(km: Keymap, note: Held, item: Item) {
    Event(item, false) in TapEvents(km, Tap(note, false))
  }

  predicate Lifted(km: Keymap, held: seq<Held>, item: Item) {
    exists note :: note in held && Lifts(km, note, item)
  }

  /** A tap touches exactly what its release lifts, all in one direction. */
  lemma TapTouches(km: Keymap, tap: Tap, item: Item)
    ensures LastOn(TapEvents(km, tap), item) == if Lifts(km, tap.note, item) then Some(tap.down) else None
  {
    var events := TapEvents(km, tap);
    LastIsAmong(events, item);
  }

  /** Letting go of a whole list, newest first. */
  function LetGo(km: Keymap, held: seq<Held>): seq<Event> {
    if held == [] then []
    else TapEvents(km, Tap(held[|held| - 1], false)) + LetGo(km, held[..|held| - 1])
  }

  // ----- the guard's list

  /** Forget the most recent note of `item`, if there is one. */
  function NoteUp(held: seq<Held>, item: Held): seq<Held> {
    if held == [] then []
    else if held[|held| - 1] == item then held[..|held| - 1]
    else NoteUp(held[..|held| - 1], item) + [held[|held| - 1]]
  }

  /** It is the newest note that goes, and the others stay in their order. */
  lemma {:induction false} NewestGoes(before: seq<Held>, item: Held, later: seq<Held>)
    requires item !in later
    ensures NoteUp(before + [item] + later, item) == before + later
    ensures NoteUp(later, item) == later
    decreases |later|
  {
    var held := before + [item] + later;
    if later == [] {
      assert held[..|held| - 1] == before && before + later == before;
    } else {
      var n := |later| - 1;
      assert later == later[..n] + [later[n]];
      assert held[..|held| - 1] == before + [item] + later[..n];
      NewestGoes(before, item, later[..n]);
      assert (before + later[..n]) + [later[n]] == before + later;
    }
  }

  function NoteUps(held: seq<Held>, items: seq<Held>): seq<Held> {
    if items == [] then held else NoteUp(NoteUps(held, items[..|items| - 1]), items[|items| - 1])
  }

  lemma {:induction false} NoteUpDropsOne(held: seq<Held>, item: Held)
    ensures multiset(NoteUp(held, item)) == multiset(held) - multiset{item}
    decreases |held|
  {
    if held != [] {
      var init := held[..|held| - 1];
      assert held == init + [held[|held| - 1]];
      NoteUpDropsOne(init, item);
    }
  }

  lemma {:induction false} NoteUpsCount(held: seq<Held>, items: seq<Held>, item: Held)
    ensures multiset(NoteUps(held, items))[item] ==
            if multiset(held)[item] >= multiset(items)[item] then multiset(held)[item] - multiset(items)[item] else 0
    decreases |items|
  {
    if items != [] {
      var init := items[..|items| - 1];
      assert items == init + [items[|items| - 1]];
      NoteUpsCount(held, init, item);
      NoteUpDropsOne(NoteUps(held, init), items[|items| - 1]);
    }
  }

  // ----- a request, batch by batch

  /** One send: its events in order, what the guard notes as pressed before it, and as released after it. */
  datatype Chunk = Chunk(events: seq<Event>, presses: seq<Held>, releases: seq<Held>)

  /** Presses are noted before the send, releases after the whole chunk. */
  function Noted(held: seq<Held>, chunk: Chunk): seq<Held> {
    NoteUps(held + chunk.presses, chunk.releases)
  }

  function HeldAfter(chunks: seq<Chunk>): seq<Held> {
    if chunks == [] then [] else Noted(HeldAfter(chunks[..|chunks| - 1]), chunks[|chunks| - 1])
  }

  function EventsOf(chunks: seq<Chunk>): seq<Event> {
    if chunks == [] then [] else EventsOf(chunks[..|chunks| - 1]) + chunks[|chunks| - 1].events
  }

  lemma OneMore(plan: seq<Chunk>, n: nat)
    requires n < |plan|
    ensures HeldAfter(plan[..n + 1]) == Noted(HeldAfter(plan[..n]), plan[n])
    ensures EventsOf(plan[..n + 1]) == EventsOf(plan[..n]) + plan[n].events
  {
    assert plan[..n + 1][..n] == plan[..n];
  }

  /** Whatever the chunk presses, some noted press lifts; whatever a noted release lifts, the chunk has touched. */
  ghost predicate Honest(km: Keymap, chunk: Chunk) {
    (forall item :: Event(item, true) in chunk.events ==> Lifted(km, chunk.presses, item)) &&
    (forall item :: Lifted(km, chunk.releases, item) ==> LastOn(chunk.events, item).Some?)
  }

  ghost predicate AllHonest(km: Keymap, chunks: seq<Chunk>) {
    forall n :: 0 <= n < |chunks| ==> Honest(km, chunks[n])
  }

  /** A send that fails after some of its events; the sender may then let go of some of what it pressed. */
  datatype Failure = Failure(after: nat, freed: seq<Item>)

  function Ups(items: seq<Item>): seq<Event> {
    if items == [] then [] else Ups(items[..|items| - 1]) + [Event(items[|items| - 1], false)]
  }

  function PartOf(events: seq<Event>, failure: Failure): seq<Event>
    requires failure.after <= |events|
  {
    events[..failure.after] + Ups(failure.freed)
  }

  /** Where a request stops: at the check after `sent` chunks, or inside the send that follows. */
  datatype Cut = AtCheck(sent: nat) | InSend(sent: nat, failure: Failure)

  predicate CutOf(chunks: seq<Chunk>, cut: Cut) {
    match cut
    case AtCheck(sent) => sent <= |chunks|
    case InSend(sent, failure) => sent < |chunks| && failure.after <= |chunks[sent].events|
  }

  function Delivered(chunks: seq<Chunk>, cut: Cut): seq<Event>
    requires CutOf(chunks, cut)
  {
    match cut
    case AtCheck(sent) => EventsOf(chunks[..sent])
    case InSend(sent, failure) => EventsOf(chunks[..sent]) + PartOf(chunks[sent].events, failure)
  }

  function HeldAt(chunks: seq<Chunk>, cut: Cut): seq<Held>
    requires CutOf(chunks, cut)
  {
    match cut
    case AtCheck(sent) => HeldAfter(chunks[..sent])
    case InSend(sent, _) => HeldAfter(chunks[..sent]) + chunks[sent].presses
  }

  /** Nothing the request pressed stays down once the guard has let go of its list. */
  ghost predicate LeavesNothing(km: Keymap, chunks: seq<Chunk>, cut: Cut, before: set<Item>)
    requires CutOf(chunks, cut)
  {
    forall item :: Event(item, true) in Delivered(chunks, cut) && item in Deliver(before, Delivered(chunks, cut)) ==>
                     Lifted(km, HeldAt(chunks, cut), item)
  }

  /** Wherever the request stops and whatever was down before it. */
  ghost predicate AlwaysLeavesNothing(km: Keymap, chunks: seq<Chunk>) {
    forall cut, before :: CutOf(chunks, cut) ==> LeavesNothing(km, chunks, cut, before)
  }

  /** The condition on the plan: what a chunk ends with pressed, a note left on the list after it lifts. */
  ghost predicate Covered(km: Keymap, chunks: seq<Chunk>) {
    forall n, item :: 0 <= n < |chunks| && LastOn(chunks[n].events, item) == Some(true) ==>
                        Lifted(km, HeldAfter(chunks[..n + 1]), item)
  }

  /** Forgetting notes that do not lift a key leaves it as lifted as it was. */
  lemma NotedKeepsLifting(km: Keymap, held: seq<Held>, chunk: Chunk, item: Item)
    requires Lifted(km, held, item) && !Lifted(km, chunk.releases, item)
    ensures Lifted(km, Noted(held, chunk), item)
  {
    var note :| note in held && Lifts(km, note, item);
    assert note in multiset(held + chunk.presses) && note !in chunk.releases;
    NoteUpsCount(held + chunk.presses, chunk.releases, note);
    assert note in multiset(Noted(held, chunk));
  }

  /** At every check, what the request left pressed is lifted by the list. */
  lemma {:induction false} BoundaryHolds(km: Keymap, chunks: seq<Chunk>, n: nat, item: Item)
    requires Covered(km, chunks) && AllHonest(km, chunks)
    requires n <= |chunks| && LastOn(EventsOf(chunks[..n]), item) == Some(true)
    ensures Lifted(km, HeldAfter(chunks[..n]), item)
    decreases n
  {
    if n > 0 {
      var chunk := chunks[n - 1];
      OneMore(chunks, n - 1);
      LastOnConcat(EventsOf(chunks[..n - 1]), chunk.events, item);
      if LastOn(chunk.events, item) == None {
        BoundaryHolds(km, chunks, n - 1, item);
        assert Honest(km, chunk);
        NotedKeepsLifting(km, HeldAfter(chunks[..n - 1]), chunk, item);
      }
    }
  }

  lemma LiftedByMore(km: Keymap, held: seq<Held>, more: seq<Held>, item: Item)
    ensures Lifted(km, held + more, item) <==> Lifted(km, held, item) || Lifted(km, more, item)
  {
    if note :| note in held && Lifts(km, note, item) {
      assert note in held + more;
    }
    if note :| note in more && Lifts(km, note, item) {
      assert note in held + more;
    }
  }

  lemma {:induction false} UpsPressNothing(items: seq<Item>, item: Item)
    ensures LastOn(Ups(items), item) != Some(true)
    decreases |items|
  {
    if items != [] {
      UpsPressNothing(items[..|items| - 1], item);
    }
  }

  /** What a failed send leaves pressed, the noted presses lift; what it leaves alone, it has left alone. */
  lemma PartOfHonest(km: Keymap, chunk: Chunk, failure: Failure, item: Item)
    requires Honest(km, chunk) && failure.after <= |chunk.events|
    ensures LastOn(PartOf(chunk.events, failure), item) == Some(true) ==> Lifted(km, chunk.presses, item)
  {
    var part := chunk.events[..failure.after];
    LastOnConcat(part, Ups(failure.freed), item);
    UpsPressNothing(failure.freed, item);
    LastIsAmong(part, item);
    if LastOn(part, item) == Some(true) {
      assert Event(item, true) in chunk.events;
    }
  }

  lemma CoveredLeavesNothing(km: Keymap, chunks: seq<Chunk>, cut: Cut, before: set<Item>, item: Item)
    requires Covered(km, chunks) && AllHonest(km, chunks) && CutOf(chunks, cut)
    requires Event(item, true) in Delivered(chunks, cut) && item in Deliver(before, Delivered(chunks, cut))
    ensures Lifted(km, HeldAt(chunks, cut), item)
  {
    DownByLast(before, Delivered(chunks, cut), item);
    LastIsAmong(Delivered(chunks, cut), item);
    match cut
    case AtCheck(sent) => BoundaryHolds(km, chunks, sent, item);
    case InSend(sent, failure) =>
      LastOnConcat(EventsOf(chunks[..sent]), PartOf(chunks[sent].events, failure), item);
      LiftedByMore(km, HeldAfter(chunks[..sent]), chunks[sent].presses, item);
      if LastOn(PartOf(chunks[sent].events, failure), item) == Some(true) {
        assert Honest(km, chunks[sent]);
        PartOfHonest(km, chunks[sent], failure, item);
      } else {
        BoundaryHolds(km, chunks, sent, item);
      }
  }

  lemma UncoveredLeavesSomething(km: Keymap, chunks: seq<Chunk>, n: nat, item: Item)
    requires n < |chunks| && LastOn(chunks[n].events, item) == Some(true)
    requires !Lifted(km, HeldAfter(chunks[..n + 1]), item)
    ensures !LeavesNothing(km, chunks, AtCheck(n + 1), {})
  {
    var events := EventsOf(chunks[..n + 1]);
    OneMore(chunks, n);
    LastOnConcat(EventsOf(chunks[..n]), chunks[n].events, item);
    LastIsAmong(events, item);
    DownByLast({}, events, item);
    assert Event(item, true) in Delivered(chunks, AtCheck(n + 1));
  }

  /**
   Release completeness, exactly. With honest notes, for every plan and keymap: at every
   cancel point and after every partly delivered send the guard lifts all that the request
   pressed, if and only if the plan is covered.
   */
  lemma ReleaseIsCompleteExactly(km: Keymap, chunks: seq<Chunk>)
    requires AllHonest(km, chunks)
    ensures AlwaysLeavesNothing(km, chunks) <==> Covered(km, chunks)
  {
    if Covered(km, chunks) {
      forall cut, before | CutOf(chunks, cut)
        ensures LeavesNothing(km, chunks, cut, before)
      {
        forall item | Event(item, true) in Delivered(chunks, cut) && item in Deliver(before, Delivered(chunks, cut))
          ensures Lifted(km, HeldAt(chunks, cut), item)
        {
          CoveredLeavesNothing(km, chunks, cut, before, item);
        }
      }
    } else {
      var n, item :| 0 <= n < |chunks| && LastOn(chunks[n].events, item) == Some(true) &&
                     !Lifted(km, HeldAfter(chunks[..n + 1]), item);
      UncoveredLeavesSomething(km, chunks, n, item);
    }
  }

  // ----- chunks made of taps

  function Expand(km: Keymap, taps: seq<Tap>): seq<Event> {
    if taps == [] then [] else Expand(km, taps[..|taps| - 1]) + TapEvents(km, taps[|taps| - 1])
  }

  function CountTaps(taps: seq<Tap>, note: Held, down: bool): nat {
    if taps == [] then 0
    else CountTaps(taps[..|taps| - 1], note, down) + if taps[|taps| - 1] == Tap(note, down) then 1 else 0
  }

  function LastTap(taps: seq<Tap>, note: Held): Option<bool> {
    if taps == [] then None
    else if taps[|taps| - 1].note == note then Some(taps[|taps| - 1].down)
    else LastTap(taps[..|taps| - 1], note)
  }

  /** The chunk sends these taps; every press among them is noted, and no release that is not. */
  ghost predicate SentAs(km: Keymap, chunk: Chunk, taps: seq<Tap>) {
    chunk.events == Expand(km, taps) &&
    (forall note :: CountTaps(taps, note, true) <= multiset(chunk.presses)[note]) &&
    (forall note :: multiset(chunk.releases)[note] <= CountTaps(taps, note, false))
  }

  lemma {:induction false} CountedIsAmong(taps: seq<Tap>, note: Held, down: bool)
    ensures CountTaps(taps, note, down) > 0 <==> Tap(note, down) in taps
    decreases |taps|
  {
    if taps != [] {
      var init := taps[..|taps| - 1];
      assert taps == init + [taps[|taps| - 1]];
      CountedIsAmong(init, note, down);
    }
  }

  /** Every event comes from a tap that touches its key, and every tap touches what its release lifts. */
  lemma {:induction false} EventsComeFromTaps(km: Keymap, taps: seq<Tap>, item: Item, down: bool)
    ensures Event(item, down) in Expand(km, taps) <==>
            exists note :: Tap(note, down) in taps && Lifts(km, note, item)
    decreases |taps|
  {
    if taps != [] {
      var init, last := taps[..|taps| - 1], taps[|taps| - 1];
      assert taps == init + [last];
      EventsComeFromTaps(km, init, item, down);
      TapTouches(km, last, item);
      LastIsAmong(TapEvents(km, last), item);
      OneDirection(km, last, item);
      if note :| Tap(note, down) in init && Lifts(km, note, item) {
        assert Tap(note, down) in taps;
      }
    }
  }

  lemma OneDirection(km: Keymap, tap: Tap, item: Item)
    ensures Event(item, !tap.down) !in TapEvents(km, tap)
  {
  }

  lemma SentIsHonest(km: Keymap, chunk: Chunk, taps: seq<Tap>)
    requires SentAs(km, chunk, taps)
    ensures Honest(km, chunk)
  {
    forall item | Event(item, true) in chunk.events
      ensures Lifted(km, chunk.presses, item)
    {
      EventsComeFromTaps(km, taps, item, true);
      var note :| Tap(note, true) in taps && Lifts(km, note, item);
      CountedIsAmong(taps, note, true);
      assert note in multiset(chunk.presses);
    }
    forall item | Lifted(km, chunk.releases, item)
      ensures LastOn(chunk.events, item).Some?
    {
      var note :| note in chunk.releases && Lifts(km, note, item);
      assert note in multiset(chunk.releases);
      CountedIsAmong(taps, note, false);
      EventsComeFromTaps(km, taps, item, false);
      LastIsAmong(chunk.events, item);
    }
  }

  /** What ends pressed was pressed by a tap whose own release has not come. */
  lemma {:induction false} LastPressHasTap(km: Keymap, taps: seq<Tap>, item: Item)
    requires LastOn(Expand(km, taps), item) == Some(true)
    ensures exists note :: LastTap(taps, note) == Some(true) && Lifts(km, note, item)
    decreases |taps|
  {
    var init, last := taps[..|taps| - 1], taps[|taps| - 1];
    TapTouches(km, last, item);
    LastOnConcat(Expand(km, init), TapEvents(km, last), item);
    if Lifts(km, last.note, item) {
      assert LastTap(taps, last.note) == Some(true);
    } else {
      LastPressHasTap(km, init, item);
      var note :| LastTap(init, note) == Some(true) && Lifts(km, note, item);
      assert LastTap(taps, note) == Some(true);
    }
  }

  // ----- plans whose releases follow their presses

  /** Every release follows a press of the same note that is still unmatched. */
  ghost predicate Balanced(taps: seq<Tap>) {
    forall n, note :: 0 <= n <= |taps| ==> CountTaps(taps[..n], note, false) <= CountTaps(taps[..n], note, true)
  }

  lemma BalancedPrefix(taps: seq<Tap>, n: nat)
    requires Balanced(taps) && n <= |taps|
    ensures Balanced(taps[..n])
  {
    forall k, note | 0 <= k <= n
      ensures CountTaps(taps[..n][..k], note, false) <= CountTaps(taps[..n][..k], note, true)
    {
      assert taps[..n][..k] == taps[..k];
    }
  }

  /** A balanced run of taps that ends with a note pressed has a press of it to spare. */
  lemma {:induction false} PressToSpare(taps: seq<Tap>, note: Held)
    requires Balanced(taps) && LastTap(taps, note) == Some(true)
    ensures CountTaps(taps, note, true) > CountTaps(taps, note, false)
    decreases |taps|
  {
    var init := taps[..|taps| - 1];
    BalancedPrefix(taps, |init|);
    if taps[|taps| - 1].note == note {
      assert init[..|init|] == init;
      assert CountTaps(init[..|init|], note, false) <= CountTaps(init[..|init|], note, true);
    } else {
      PressToSpare(init, note);
    }
  }

  lemma {:induction false} TapsConcat(a: seq<Tap>, b: seq<Tap>, note: Held)
    ensures forall d :: CountTaps(a + b, note, d) == CountTaps(a, note, d) + CountTaps(b, note, d)
    ensures LastTap(a + b, note) == if LastTap(b, note).Some? then LastTap(b, note) else LastTap(a, note)
    decreases |b|
  {
    if b == [] {
      assert a + b == a;
    } else {
      assert (a + b)[..|a + b| - 1] == a + b[..|b| - 1];
      TapsConcat(a, b[..|b| - 1], note);
    }
  }

  ghost predicate AllSentAs(km: Keymap, chunks: seq<Chunk>, parts: seq<seq<Tap>>) {
    |chunks| == |parts| && forall n :: 0 <= n < |chunks| ==> SentAs(km, chunks[n], parts[n])
  }

  /** One chunk: what it adds to the notes and takes from them, note by note. */
  lemma NotedKeepsPace(km: Keymap, before: seq<Held>, chunk: Chunk, sent: seq<Tap>, taps: seq<Tap>, note: Held)
    requires SentAs(km, chunk, taps)
    requires multiset(before)[note] + CountTaps(sent, note, false) >= CountTaps(sent, note, true)
    ensures multiset(Noted(before, chunk))[note] + CountTaps(sent + taps, note, false) >=
            CountTaps(sent + taps, note, true)
  {
    TapsConcat(sent, taps, note);
    NoteUpsCount(before + chunk.presses, chunk.releases, note);
    assert multiset(before + chunk.presses)[note] == multiset(before)[note] + multiset(chunk.presses)[note];
  }

  /** The list never falls behind what is still down of any note. */
  lemma {:induction false} HeldKeepsPace(km: Keymap, chunks: seq<Chunk>, parts: seq<seq<Tap>>, n: nat, note: Held)
    requires AllSentAs(km, chunks, parts) && n <= |chunks|
    ensures multiset(HeldAfter(chunks[..n]))[note] + CountTaps(Flatten(parts[..n]), note, false) >=
            CountTaps(Flatten(parts[..n]), note, true)
    decreases n
  {
    if n > 0 {
      HeldKeepsPace(km, chunks, parts, n - 1, note);
      OneMore(chunks, n - 1);
      TakeOneMore(parts, n - 1);
      NotedKeepsPace(km, HeldAfter(chunks[..n - 1]), chunks[n - 1], Flatten(parts[..n - 1]), parts[n - 1], note);
    }
  }

  lemma FlattenPrefix(parts: seq<seq<Tap>>, n: nat)
    requires n <= |parts|
    ensures |Flatten(parts[..n])| <= |Flatten(parts)| && Flatten(parts)[..|Flatten(parts[..n])|] == Flatten(parts[..n])
  {
    FlattenConcat(parts[..n], parts[n..]);
    assert parts[..n] + parts[n..] == parts;
  }

  lemma BalancedCovers(km: Keymap, chunks: seq<Chunk>, parts: seq<seq<Tap>>, n: nat, item: Item)
    requires AllSentAs(km, chunks, parts) && Balanced(Flatten(parts))
    requires n < |chunks| && LastOn(chunks[n].events, item) == Some(true)
    ensures Lifted(km, HeldAfter(chunks[..n + 1]), item)
  {
    assert SentAs(km, chunks[n], parts[n]);
    LastPressHasTap(km, parts[n], item);
    var note :| LastTap(parts[n], note) == Some(true) && Lifts(km, note, item);
    TakeOneMore(parts, n);
    TapsConcat(Flatten(parts[..n]), parts[n], note);
    FlattenPrefix(parts, n + 1);
    BalancedPrefix(Flatten(parts), |Flatten(parts[..n + 1])|);
    PressToSpare(Flatten(parts[..n + 1]), note);
    HeldKeepsPace(km, chunks, parts, n + 1, note);
    assert note in multiset(HeldAfter(chunks[..n + 1]));
  }

  /** However a balanced plan is cut into chunks, whatever else is noted and whatever the keymap, it is covered. */
  lemma {:induction false} BalancedIsCovered(km: Keymap, chunks: seq<Chunk>, parts: seq<seq<Tap>>)
    requires AllSentAs(km, chunks, parts) && Balanced(Flatten(parts))
    ensures AllHonest(km, chunks) && Covered(km, chunks)
  {
    forall n | 0 <= n < |chunks|
      ensures Honest(km, chunks[n])
    {
      SentIsHonest(km, chunks[n], parts[n]);
    }
    forall n, item | 0 <= n < |chunks| && LastOn(chunks[n].events, item) == Some(true)
      ensures Lifted(km, HeldAfter(chunks[..n + 1]), item)
    {
      BalancedCovers(km, chunks, parts, n, item);
    }
  }
}
