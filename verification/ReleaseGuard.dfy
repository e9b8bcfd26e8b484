/** The release guard and the loops that send input, as the source runs them. */
module ReleaseGuard {
  import opened Basics
  import opened InputTypes
  import opened Keystrokes
  import opened HeldInput

  /** The desktop: what is down, and every event it ever took. */
  class Desktop {
    var down: set<Item>
    var log: seq<Event>

    /** One send. It may fail after any part of its events, and let go of anything on the way out. */
    method Send(events: seq<Event>, failure: Option<Failure>) returns (ok: bool)
      requires failure.Some? ==> failure.value.after <= |events|
      modifies this
      ensures ok == failure.None?
      ensures var part := if ok then events else PartOf(events, failure.value);
              log == old(log) + part && down == Deliver(old(down), part)
    {
      ok := failure.None?;
      var part := if ok then events else PartOf(events, failure.value);
      var i := 0;
      while i < |part|
        invariant 0 <= i <= |part|
        invariant log == old(log) + part[..i] && down == Deliver(old(down), part[..i])
      {
        assert part[..i + 1][..i] == part[..i];
        down := if part[i].down then down + {part[i].item} else down - {part[i].item};
        log := log + [part[i]];
        i := i + 1;
      }
      assert part[..|part|] == part;
    }
  }

  lemma NoteUpSkips(notes: seq<Held>, item: Held, index: nat)
    requires 0 < index <= |notes| && notes[index - 1] != item
    ensures NoteUp(notes[..index], item) + notes[index..] == NoteUp(notes[..index - 1], item) + notes[index - 1..]
  {
    assert notes[..index][..index - 1] == notes[..index - 1];
    assert notes[index - 1..] == [notes[index - 1]] + notes[index..];
  }

  lemma NoteUpHere(notes: seq<Held>, item: Held, index: nat)
    requires 0 < index <= |notes| && notes[index - 1] == item
    ensures NoteUp(notes[..index], item) == notes[..index - 1]
  {
    assert notes[..index][..index - 1] == notes[..index - 1];
  }

  /** What a whole list lifts. */
  ghost predicate DownWithout(km: Keymap, held: seq<Held>, before: set<Item>, after: set<Item>) {
    forall item :: item in after <==> item in before && !Lifted(km, held, item)
  }

  lemma LiftsOneMore(km: Keymap, note: Held, held: seq<Held>, before: set<Item>, mid: set<Item>)
    requires DownWithout(km, held, before, mid)
    ensures DownWithout(km, [note] + held, before, Deliver(mid, TapEvents(km, Tap(note, false))))
  {
    var after := Deliver(mid, TapEvents(km, Tap(note, false)));
    forall item
      ensures item in after <==> item in before && !Lifted(km, [note] + held, item)
    {
      DownByLast(mid, TapEvents(km, Tap(note, false)), item);
      TapTouches(km, Tap(note, false), item);
      LiftedByMore(km, [note], held, item);
      assert Lifted(km, [note], item) <==> Lifts(km, note, item) by {
        assert note in [note];
      }
    }
  }

  class Guard {
    const desktop: Desktop
    const km: Keymap
    var held: seq<Held>
    var armed: bool

    constructor (desktop: Desktop, km: Keymap)
      ensures this.desktop == desktop && this.km == km && held == [] && armed
    {
      this.desktop, this.km := desktop, km;
      held, armed := [], true;
    }

    method NotePresses(items: seq<Held>)
      modifies `held
      ensures held == old(held) + items
    {
      held := held + items;
    }

    /** Drop the most recent note of the item, if there is one. */
    method NoteRelease(item: Held)
      modifies `held
      ensures held == NoteUp(old(held), item)
    {
      var notes := held;
      var index := |notes|;
      assert notes[..index] == notes;
      while index > 0 && notes[index - 1] != item
        invariant 0 <= index <= |notes| && held == notes
        invariant NoteUp(notes, item) == NoteUp(notes[..index], item) + notes[index..]
      {
        NoteUpSkips(notes, item, index);
        index := index - 1;
      }
      if index > 0 {
        NoteUpHere(notes, item, index);
        held := notes[..index - 1] + notes[index..];
      } else {
        assert notes[index..] == notes;
      }
    }

    method NoteReleases(items: seq<Held>)
      modifies `held
      ensures held == NoteUps(old(held), items)
    {
      var i := 0;
      while i < |items|
        invariant 0 <= i <= |items|
        invariant held == NoteUps(old(held), items[..i])
      {
        assert items[..i + 1][..i] == items[..i];
        NoteRelease(items[i]);
        i := i + 1;
      }
      assert items[..|items|] == items;
    }

    /** Let go of everything on the list, newest first, each as the sender would: a shifted key lets go of Shift. */
    method Release()
      modifies this, desktop
      ensures !armed
      ensures old(armed) ==> held == [] && desktop.log == old(desktop.log) + LetGo(km, old(held))
      ensures old(armed) ==> DownWithout(km, old(held), old(desktop.down), desktop.down)
      ensures !old(armed) ==> held == old(held) && desktop.down == old(desktop.down) && desktop.log == old(desktop.log)
    {
      if !armed {
        return;
      }
      armed := false;
      while held != []
        invariant !armed && held <= old(held)
        invariant desktop.log + LetGo(km, held) == old(desktop.log) + LetGo(km, old(held))
        invariant DownWithout(km, old(held)[|held|..], old(desktop.down), desktop.down)
        decreases |held|
      {
        var note := held[|held| - 1];
        assert old(held)[|held| - 1..] == [note] + old(held)[|held|..];
        LiftsOneMore(km, note, old(held)[|held|..], old(desktop.down), desktop.down);
        LogGrows(desktop.log, TapEvents(km, Tap(note, false)), LetGo(km, held[..|held| - 1]));
        held := held[..|held| - 1];
        var ok := desktop.Send(TapEvents(km, Tap(note, false)), None);
      }
      assert old(held)[0..] == old(held);
    }
  }

  // ----- one typed chunk

  function TapsOf(strokes: seq<Stroke>): seq<Tap> {
    if strokes == [] then []
    else
      var last := strokes[|strokes| - 1];
      TapsOf(strokes[..|strokes| - 1]) + [Tap(KeyHeld(last.keysym), last.down)]
  }

  /** What the guard notes before the send: every key pressed, behind the Shift it takes. */
  function PlannedPresses(km: Keymap, strokes: seq<Stroke>): seq<Held> {
    if strokes == [] then []
    else
      var last := strokes[|strokes| - 1];
      var before := PlannedPresses(km, strokes[..|strokes| - 1]);
      if !last.down then before
      else if km(last.keysym).Some? && km(last.keysym).value.shifted
      then before + [KeyHeld(SHIFT), KeyHeld(last.keysym)]
      else before + [KeyHeld(last.keysym)]
  }

  function ReleasedKeys(strokes: seq<Stroke>): seq<Held> {
    if strokes == [] then []
    else
      var last := strokes[|strokes| - 1];
      var before := ReleasedKeys(strokes[..|strokes| - 1]);
      if last.down then before else before + [KeyHeld(last.keysym)]
  }

  /** The keymap has every key of the chunk. If it lacks one, the send fails before any event. */
  predicate Sendable(km: Keymap, strokes: seq<Stroke>) {
    forall i :: 0 <= i < |strokes| ==> Mapped(km, KeyHeld(strokes[i].keysym))
  }

  function KeyChunk(km: Keymap, strokes: seq<Stroke>): Chunk {
    if Sendable(km, strokes)
    then Chunk(Expand(km, TapsOf(strokes)), PlannedPresses(km, strokes), ReleasedKeys(strokes))
    else Chunk([], PlannedPresses(km, strokes), [])
  }

  lemma {:induction false} StrokesAreCounted(km: Keymap, strokes: seq<Stroke>, note: Held)
    ensures CountTaps(TapsOf(strokes), note, true) <= multiset(PlannedPresses(km, strokes))[note]
    ensures multiset(ReleasedKeys(strokes))[note] <= CountTaps(TapsOf(strokes), note, false)
    decreases |strokes|
  {
    if strokes != [] {
      var init, last := strokes[..|strokes| - 1], strokes[|strokes| - 1];
      StrokesAreCounted(km, init, note);
      assert TapsOf(strokes)[..|TapsOf(strokes)| - 1] == TapsOf(init);
    }
  }

  /** The taps of a chunk, of which an unsendable one sends none. */
  function SentTaps(km: Keymap, strokes: seq<Stroke>): seq<Tap> {
    if Sendable(km, strokes) then TapsOf(strokes) else []
  }

  lemma KeyChunkIsSent(km: Keymap, strokes: seq<Stroke>)
    ensures SentAs(km, KeyChunk(km, strokes), SentTaps(km, strokes))
  {
    forall note
      ensures CountTaps(TapsOf(strokes), note, true) <= multiset(PlannedPresses(km, strokes))[note]
      ensures multiset(ReleasedKeys(strokes))[note] <= CountTaps(TapsOf(strokes), note, false)
    {
      StrokesAreCounted(km, strokes, note);
    }
  }

  /** For every keymap: the notes of a chunk lift all it presses, and forget nothing it has not touched. */
  lemma KeyChunkIsHonest(km: Keymap, strokes: seq<Stroke>)
    ensures Honest(km, KeyChunk(km, strokes))
  {
    KeyChunkIsSent(km, strokes);
    SentIsHonest(km, KeyChunk(km, strokes), SentTaps(km, strokes));
  }

  /** How many chunks a request can reach: all, or up to the first that cannot be sent. */
  function Reachable(km: Keymap, parts: seq<seq<Stroke>>): (n: nat)
    ensures n <= |parts|
  {
    if parts == [] then 0
    else if !Sendable(km, parts[0]) then 1
    else 1 + Reachable(km, parts[1..])
  }

  lemma {:induction false} ReachesNext(km: Keymap, parts: seq<seq<Stroke>>, n: nat)
    requires n < |parts| && forall i :: 0 <= i < n ==> Sendable(km, parts[i])
    ensures n < Reachable(km, parts)
    decreases n
  {
    if n > 0 {
      assert Sendable(km, parts[0]);
      forall i | 0 <= i < n - 1
        ensures Sendable(km, parts[1..][i])
      {
        assert parts[1..][i] == parts[i + 1];
      }
      ReachesNext(km, parts[1..], n - 1);
    }
  }

  lemma {:induction false} ReachesAll(km: Keymap, parts: seq<seq<Stroke>>)
    requires forall i :: 0 <= i < |parts| ==> Sendable(km, parts[i])
    ensures Reachable(km, parts) == |parts|
  {
    if parts != [] {
      ReachesNext(km, parts, |parts| - 1);
    }
  }

  function KeyChunks(km: Keymap, parts: seq<seq<Stroke>>): seq<Chunk> {
    seq(|parts|, (i: int) requires 0 <= i < |parts| => KeyChunk(km, parts[i]))
  }

  /** The plan of a whole typed request, chunk by chunk. */
  function KeyPlan(km: Keymap, strokes: seq<Stroke>): seq<Chunk> {
    KeyChunks(km, Chunks(strokes)[..Reachable(km, Chunks(strokes))])
  }

  // ----- the typing loop

  datatype Outcome = Finished | Cancelled | Failed

  /** The guard's list and the desktop once a request with this plan has come as far as `cut`. */
  ghost predicate Reached(plan: seq<Chunk>, cut: Cut, held: seq<Held>, log: seq<Event>, down: set<Item>,
                          log': seq<Event>, down': set<Item>)
    requires CutOf(plan, cut)
  {
    held == HeldAt(plan, cut) && log' == log + Delivered(plan, cut) && down' == Deliver(down, Delivered(plan, cut))
  }

  lemma ReachedStart(plan: seq<Chunk>, log: seq<Event>, down: set<Item>)
    ensures Reached(plan, AtCheck(0), [], log, down, log, down)
  {
    assert plan[..0] == [];
  }

  lemma LogGrows(log: seq<Event>, sent: seq<Event>, next: seq<Event>)
    ensures (log + sent) + next == log + (sent + next)
  {
  }

  lemma ReachedSent(plan: seq<Chunk>, n: nat, held: seq<Held>, log: seq<Event>, down: set<Item>,
                    log': seq<Event>, down': set<Item>)
    requires n < |plan| && Reached(plan, AtCheck(n), held, log, down, log', down')
    ensures Reached(plan, AtCheck(n + 1), Noted(held, plan[n]), log, down,
                    log' + plan[n].events, Deliver(down', plan[n].events))
  {
    OneMore(plan, n);
    DeliverConcat(down, EventsOf(plan[..n]), plan[n].events);
    LogGrows(log, EventsOf(plan[..n]), plan[n].events);
  }

  lemma ReachedFailed(plan: seq<Chunk>, n: nat, failure: Failure, held: seq<Held>, log: seq<Event>, down: set<Item>,
                      log': seq<Event>, down': set<Item>)
    requires n < |plan| && failure.after <= |plan[n].events|
    requires Reached(plan, AtCheck(n), held, log, down, log', down')
    ensures var part := PartOf(plan[n].events, failure);
            Reached(plan, InSend(n, failure), held + plan[n].presses, log, down, log' + part, Deliver(down', part))
  {
    DeliverConcat(down, EventsOf(plan[..n]), PartOf(plan[n].events, failure));
    LogGrows(log, EventsOf(plan[..n]), PartOf(plan[n].events, failure));
  }

  /** Note the presses, send, note the releases if the send went through. */
  method SendChunk(guard: Guard, chunk: Chunk, failure: Option<Failure>) returns (ok: bool)
    requires failure.Some? ==> failure.value.after <= |chunk.events|
    modifies guard`held, guard.desktop
    ensures ok == failure.None?
    ensures guard.held == if ok then Noted(old(guard.held), chunk) else old(guard.held) + chunk.presses
    ensures var part := if ok then chunk.events else PartOf(chunk.events, failure.value);
            guard.desktop.log == old(guard.desktop.log) + part &&
            guard.desktop.down == Deliver(old(guard.desktop.down), part)
  {
    guard.NotePresses(chunk.presses);
    ok := guard.desktop.Send(chunk.events, failure);
    if ok {
      guard.NoteReleases(chunk.releases);
    }
  }

  /** The next chunk of a plan, from the check in front of it. */
  method SendPlanned(guard: Guard, chunk: Chunk, failure: Option<Failure>, ghost plan: seq<Chunk>, ghost n: nat,
                     ghost log: seq<Event>, ghost down: set<Item>) returns (ok: bool, ghost cut: Cut)
    requires failure.Some? ==> failure.value.after <= |chunk.events|
    requires n < |plan| && plan[n] == chunk
    requires Reached(plan, AtCheck(n), guard.held, log, down, guard.desktop.log, guard.desktop.down)
    modifies guard`held, guard.desktop
    ensures ok == failure.None? && cut == (if ok then AtCheck(n + 1) else InSend(n, failure.value))
    ensures CutOf(plan, cut) && Reached(plan, cut, guard.held, log, down, guard.desktop.log, guard.desktop.down)
  {
    if failure.None? {
      ReachedSent(plan, n, guard.held, log, down, guard.desktop.log, guard.desktop.down);
    } else {
      ReachedFailed(plan, n, failure.value, guard.held, log, down, guard.desktop.log, guard.desktop.down);
    }
    ok := SendChunk(guard, chunk, failure);
    cut := if ok then AtCheck(n + 1) else InSend(n, failure.value);
  }

  lemma PlanAt(km: Keymap, strokes: seq<Stroke>, n: nat)
    requires n < |Chunks(strokes)| && forall i :: 0 <= i < n ==> Sendable(km, Chunks(strokes)[i])
    ensures n < |KeyPlan(km, strokes)| && KeyPlan(km, strokes)[n] == KeyChunk(km, Chunks(strokes)[n])
  {
    ReachesNext(km, Chunks(strokes), n);
  }

  lemma NextChunk(rest: seq<Stroke>, all: seq<seq<Stroke>>, n: nat)
    requires rest != [] && n <= |all| && Chunks(rest) == all[n..]
    ensures n < |all| && all[n] == Taken(rest, TYPE_CHUNK_KEYSTROKES)
    ensures Taken(rest, TYPE_CHUNK_KEYSTROKES) <= rest && all[n] != []
    ensures Chunks(rest[|all[n]|..]) == all[n + 1..]
  {
    TakenIsPrefix(rest, TYPE_CHUNK_KEYSTROKES);
    assert all[n..][1..] == all[n + 1..];
  }

  /** What the loop knows at the check before chunk `i`. */
  ghost predicate Typing(km: Keymap, strokes: seq<Stroke>, rest: seq<Stroke>, i: nat, sent: nat) {
    i <= |Chunks(strokes)| && Chunks(rest) == Chunks(strokes)[i..] && sent == CountAll(Chunks(strokes)[..i]) &&
    forall k :: 0 <= k < i ==> Sendable(km, Chunks(strokes)[k])
  }

  lemma TypingNext(km: Keymap, strokes: seq<Stroke>, rest: seq<Stroke>, i: nat, sent: nat)
    requires Typing(km, strokes, rest, i, sent) && rest != []
    ensures i < |Chunks(strokes)| && i < |KeyPlan(km, strokes)|
    ensures var chunk := Chunks(strokes)[i];
            && chunk == Taken(rest, TYPE_CHUNK_KEYSTROKES) && chunk != [] && chunk <= rest
            && KeyPlan(km, strokes)[i] == KeyChunk(km, chunk)
            && (Sendable(km, chunk) ==> Typing(km, strokes, rest[|chunk|..], i + 1, sent + Count(chunk)))
  {
    NextChunk(rest, Chunks(strokes), i);
    PlanAt(km, strokes, i);
    CountAllSnoc(Chunks(strokes), i);
  }

  lemma TypingEnds(km: Keymap, strokes: seq<Stroke>, rest: seq<Stroke>, i: nat, sent: nat)
    requires Typing(km, strokes, rest, i, sent)
    ensures sent == Count(Flatten(Chunks(strokes)[..i]))
    ensures rest == [] ==> i == |Chunks(strokes)| == |KeyPlan(km, strokes)| && sent == Count(strokes)
  {
    ChunksCover(strokes, i);
    if rest == [] {
      assert Chunks(strokes)[i..] == [];
      ReachesAll(km, Chunks(strokes));
    }
  }

  const NOTHING_SENT: Failure := Failure(0, [])

  /** A chunk the keymap cannot send fails before any event, whatever else would happen to it. */
  function FailureOf(km: Keymap, strokes: seq<Stroke>, failure: Option<Failure>): Option<Failure> {
    if Sendable(km, strokes) then failure else Some(NOTHING_SENT)
  }

  /** The failures of a request fit the chunks they happen to. */
  predicate FailuresFit(km: Keymap, parts: seq<seq<Stroke>>, fails: nat -> Option<Failure>) {
    forall i :: 0 <= i < |parts| && fails(i).Some? && Sendable(km, parts[i]) ==>
                  fails(i).value.after <= |KeyChunk(km, parts[i]).events|
  }

  /**
   The loop of `type_keys`: a cancel check, then at most 32 keystrokes. `cancelled(i)` is
   the check before chunk `i`; `fails(i)` says how its send fails, if it does. Wherever it
   stops, the reported number is the keystroke count of the chunks sent, and the guard and
   the desktop stand at the same cut of the plan.
   */
  method TypeStrokes(guard: Guard, strokes: seq<Stroke>, cancelled: nat -> bool, fails: nat -> Option<Failure>)
    returns (outcome: Outcome, sent: nat, ghost cut: Cut)
    requires guard.held == [] && FailuresFit(guard.km, Chunks(strokes), fails)
    modifies guard`held, guard.desktop
    ensures CutOf(KeyPlan(guard.km, strokes), cut) && cut.sent <= |Chunks(strokes)|
    ensures sent == Count(Flatten(Chunks(strokes)[..cut.sent]))
    ensures outcome == Finished ==>
              cut == AtCheck(|Chunks(strokes)|) && |KeyPlan(guard.km, strokes)| == |Chunks(strokes)| &&
              sent == Count(strokes)
    ensures outcome == Cancelled ==> cut.AtCheck? && cancelled(cut.sent)
    ensures outcome == Failed ==>
              cut.InSend? && cut.sent < |Chunks(strokes)| &&
              FailureOf(guard.km, Chunks(strokes)[cut.sent], fails(cut.sent)) == Some(cut.failure)
    ensures Reached(KeyPlan(guard.km, strokes), cut, guard.held,
                    old(guard.desktop.log), old(guard.desktop.down), guard.desktop.log, guard.desktop.down)
  {
    var rest := strokes;
    outcome, sent, cut := Finished, 0, AtCheck(0);
    ghost var log, down := guard.desktop.log, guard.desktop.down;
    ghost var plan := KeyPlan(guard.km, strokes);
    ReachedStart(plan, log, down);
    assert Chunks(strokes)[0..] == Chunks(strokes);
    var i := 0;
    while rest != [] && outcome == Finished
      invariant i == cut.sent && CutOf(plan, cut)
      invariant Typing(guard.km, strokes, rest, i, sent)
      invariant outcome == Finished ==> cut == AtCheck(i)
      invariant outcome == Cancelled ==> cut == AtCheck(i) && cancelled(i)
      invariant outcome == Failed ==>
                  i < |Chunks(strokes)| && cut.InSend? &&
                  FailureOf(guard.km, Chunks(strokes)[i], fails(i)) == Some(cut.failure)
      invariant Reached(plan, cut, guard.held, log, down, guard.desktop.log, guard.desktop.down)
      decreases |rest|, outcome == Finished
    {
      if cancelled(i) {
        outcome := Cancelled;
      } else {
        TypingNext(guard.km, strokes, rest, i, sent);
        var chunk := TakeKeystrokes(rest, TYPE_CHUNK_KEYSTROKES);
        var ok;
        var failure := FailureOf(guard.km, chunk, fails(i));
        ok, cut := SendPlanned(guard, KeyChunk(guard.km, chunk), failure, plan, i, log, down);
        if ok {
          var count := CountKeystrokes(chunk);
          sent := sent + count;
          rest := rest[|chunk|..];
          i := i + 1;
        } else {
          outcome := Failed;
        }
      }
    }
    TypingEnds(guard.km, strokes, rest, i, sent);
    if outcome == Finished && cancelled(i) {
      outcome := Cancelled;
    }
  }

  lemma {:induction false} CountAllSnoc(chunks: seq<seq<Stroke>>, n: nat)
    requires n < |chunks|
    ensures CountAll(chunks[..n + 1]) == CountAll(chunks[..n]) + Count(chunks[n])
    decreases n
  {
    if n > 0 {
      assert chunks[..n + 1][1..] == chunks[1..][..n] && chunks[..n][1..] == chunks[1..][..n - 1];
      CountAllSnoc(chunks[1..], n - 1);
    }
  }

  // ----- the pointer loop

  /** Moves and wheel ticks press nothing. */
  function ButtonTaps(steps: seq<PointerStep>): seq<Tap> {
    if steps == [] then []
    else
      var last := steps[|steps| - 1];
      var before := ButtonTaps(steps[..|steps| - 1]);
      if last.Press? then before + [Tap(ButtonHeld(last.button), last.down)] else before
  }

  function Buttons(steps: seq<PointerStep>, down: bool): seq<Held> {
    if steps == [] then []
    else
      var last := steps[|steps| - 1];
      var before := Buttons(steps[..|steps| - 1], down);
      if last.Press? && last.down == down then before + [ButtonHeld(last.button)] else before
  }

  function PointerChunk(km: Keymap, steps: seq<PointerStep>): Chunk {
    Chunk(Expand(km, ButtonTaps(steps)), Buttons(steps, true), Buttons(steps, false))
  }

  lemma {:induction false} ButtonsAreCounted(steps: seq<PointerStep>, note: Held, down: bool)
    ensures CountTaps(ButtonTaps(steps), note, down) == multiset(Buttons(steps, down))[note]
    decreases |steps|
  {
    if steps != [] {
      var init, last := steps[..|steps| - 1], steps[|steps| - 1];
      ButtonsAreCounted(init, note, down);
      if last.Press? {
        assert ButtonTaps(steps)[..|ButtonTaps(steps)| - 1] == ButtonTaps(init);
        assert Buttons(steps, down) ==
               if last.down == down then Buttons(init, down) + [ButtonHeld(last.button)] else Buttons(init, down);
      }
    }
  }

  lemma PointerChunkIsSent(km: Keymap, steps: seq<PointerStep>)
    ensures SentAs(km, PointerChunk(km, steps), ButtonTaps(steps))
  {
    forall note
      ensures CountTaps(ButtonTaps(steps), note, true) == multiset(Buttons(steps, true))[note]
      ensures CountTaps(ButtonTaps(steps), note, false) == multiset(Buttons(steps, false))[note]
    {
      ButtonsAreCounted(steps, note, true);
      ButtonsAreCounted(steps, note, false);
    }
  }

  function PointerBatches(steps: seq<PointerStep>): seq<seq<PointerStep>> {
    if steps == [] then []
    else
      var n := Least(|steps|, POINTER_BATCH);
      [steps[..n]] + PointerBatches(steps[n..])
  }

  function PointerChunks(km: Keymap, parts: seq<seq<PointerStep>>): seq<Chunk> {
    seq(|parts|, (i: int) requires 0 <= i < |parts| => PointerChunk(km, parts[i]))
  }

  function PointerPlan(km: Keymap, steps: seq<PointerStep>): seq<Chunk> {
    PointerChunks(km, PointerBatches(steps))
  }

  lemma {:induction false} BatchesCover(steps: seq<PointerStep>)
    ensures Flatten(PointerBatches(steps)) == steps
    ensures forall i :: 0 <= i < |PointerBatches(steps)| ==> 0 < |PointerBatches(steps)[i]| <= POINTER_BATCH
    decreases |steps|
  {
    if steps != [] {
      BatchesCover(steps[Least(|steps|, POINTER_BATCH)..]);
    }
  }

  predicate BatchFailuresFit(plan: seq<Chunk>, fails: nat -> Option<Failure>) {
    forall i :: 0 <= i < |plan| && fails(i).Some? ==> fails(i).value.after <= |plan[i].events|
  }

  /** The loop of `inject_mouse`: a cancel check, then at most 16 steps; a last check before it is done. */
  method SendPointerSteps(guard: Guard, steps: seq<PointerStep>, cancelled: nat -> bool, fails: nat -> Option<Failure>)
    returns (outcome: Outcome, done: nat, ghost cut: Cut)
    requires guard.held == [] && BatchFailuresFit(PointerPlan(guard.km, steps), fails)
    modifies guard`held, guard.desktop
    ensures CutOf(PointerPlan(guard.km, steps), cut) && cut.sent <= |PointerBatches(steps)|
    ensures done == |Flatten(PointerBatches(steps)[..cut.sent])|
    ensures outcome == Finished ==> cut == AtCheck(|PointerBatches(steps)|) && done == |steps|
    ensures outcome == Cancelled ==> cut.AtCheck? && cancelled(cut.sent)
    ensures outcome == Failed ==> cut.InSend? && fails(cut.sent) == Some(cut.failure)
    ensures Reached(PointerPlan(guard.km, steps), cut, guard.held,
                    old(guard.desktop.log), old(guard.desktop.down), guard.desktop.log, guard.desktop.down)
  {
    var rest := steps;
    done, cut := 0, AtCheck(0);
    ghost var log, down := guard.desktop.log, guard.desktop.down;
    ghost var plan, all := PointerPlan(guard.km, steps), PointerBatches(steps);
    ReachedStart(plan, log, down);
    BatchesCover(steps);
    assert all[0..] == all && all[..0] == [];
    var i := 0;
    while true
      invariant i <= |all| == |plan| && cut == AtCheck(i)
      invariant PointerBatches(rest) == all[i..]
      invariant done == |Flatten(all[..i])|
      invariant Reached(plan, cut, guard.held, log, down, guard.desktop.log, guard.desktop.down)
      decreases |rest|
    {
      if cancelled(i) {
        return Cancelled, done, cut;
      }
      var batch := rest[..Least(|rest|, POINTER_BATCH)];
      if batch == [] {
        assert rest == [] && all[..i] == all;
        return Finished, done, cut;
      }
      assert all[i..][1..] == all[i + 1..];
      TakeOneMore(all, i);
      var ok;
      ok, cut := SendPlanned(guard, PointerChunk(guard.km, batch), fails(i), plan, i, log, down);
      if !ok {
        return Failed, done, cut;
      }
      done := done + |batch|;
      rest := rest[|batch|..];
      i := i + 1;
    }
  }

  // ----- a whole request: the loop, then the guard drops

  /** Nothing that `delivered` pressed is still down. */
  ghost predicate NothingLeft(delivered: seq<Event>, down: set<Item>) {
    forall item :: Event(item, true) in delivered ==> item !in down
  }

  /** A request that reached `cut` of a covered plan leaves nothing once its list is let go. */
  lemma RequestEnds(km: Keymap, plan: seq<Chunk>, cut: Cut, held: seq<Held>, log: seq<Event>, down: set<Item>,
                    log': seq<Event>, down': set<Item>, after: set<Item>)
    requires CutOf(plan, cut) && Reached(plan, cut, held, log, down, log', down')
    requires AllHonest(km, plan) && DownWithout(km, held, down', after)
    ensures Covered(km, plan) ==> NothingLeft(Delivered(plan, cut), after)
  {
    if Covered(km, plan) {
      forall item | Event(item, true) in Delivered(plan, cut)
        ensures item !in after
      {
        if item in down' {
          CoveredLeavesNothing(km, plan, cut, down, item);
        }
      }
    }
  }

  lemma KeyPlanIsHonest(km: Keymap, strokes: seq<Stroke>)
    ensures AllHonest(km, KeyPlan(km, strokes))
  {
    forall n | 0 <= n < |KeyPlan(km, strokes)|
      ensures Honest(km, KeyPlan(km, strokes)[n])
    {
      KeyChunkIsHonest(km, Chunks(strokes)[n]);
    }
  }

  lemma PointerPlanIsHonest(km: Keymap, steps: seq<PointerStep>)
    ensures AllHonest(km, PointerPlan(km, steps))
  {
    forall n | 0 <= n < |PointerPlan(km, steps)|
      ensures Honest(km, PointerPlan(km, steps)[n])
    {
      var batch := PointerBatches(steps)[n];
      PointerChunkIsSent(km, batch);
      SentIsHonest(km, PointerChunk(km, batch), ButtonTaps(batch));
    }
  }

  /**
   A typed request from the guard's arming to its drop. However it ends, sent, cancelled
   at any check or failed inside any send, the desktop took exactly what the cut of its
   plan says, and of a covered plan nothing it pressed is left down.
   */
  method TypeRequest(desktop: Desktop, km: Keymap, strokes: seq<Stroke>,
                     cancelled: nat -> bool, fails: nat -> Option<Failure>)
    returns (outcome: Outcome, sent: nat, ghost cut: Cut)
    requires FailuresFit(km, Chunks(strokes), fails)
    modifies desktop
    ensures CutOf(KeyPlan(km, strokes), cut)
    ensures Covered(km, KeyPlan(km, strokes)) ==> NothingLeft(Delivered(KeyPlan(km, strokes), cut), desktop.down)
    ensures var plan := KeyPlan(km, strokes);
            desktop.log == old(desktop.log) + Delivered(plan, cut) + LetGo(km, HeldAt(plan, cut))
    ensures outcome == Finished ==> sent == Count(strokes) && cut == AtCheck(|KeyPlan(km, strokes)|)
  {
    var guard := new Guard(desktop, km);
    outcome, sent, cut := TypeStrokes(guard, strokes, cancelled, fails);
    ghost var held, log, down := guard.held, desktop.log, desktop.down;
    guard.Release();
    KeyPlanIsHonest(km, strokes);
    RequestEnds(km, KeyPlan(km, strokes), cut, held, old(desktop.log), old(desktop.down), log, down, desktop.down);
  }

  /** A stepped pointer request from the guard's arming to its drop. */
  method PointerRequest(desktop: Desktop, km: Keymap, steps: seq<PointerStep>,
                        cancelled: nat -> bool, fails: nat -> Option<Failure>)
    returns (outcome: Outcome, done: nat, ghost cut: Cut)
    requires BatchFailuresFit(PointerPlan(km, steps), fails)
    modifies desktop
    ensures CutOf(PointerPlan(km, steps), cut)
    ensures Covered(km, PointerPlan(km, steps)) ==> NothingLeft(Delivered(PointerPlan(km, steps), cut), desktop.down)
    ensures var plan := PointerPlan(km, steps);
            desktop.log == old(desktop.log) + Delivered(plan, cut) + LetGo(km, HeldAt(plan, cut))
    ensures outcome == Finished ==> done == |steps| && cut == AtCheck(|PointerPlan(km, steps)|)
  {
    var guard := new Guard(desktop, km);
    outcome, done, cut := SendPointerSteps(guard, steps, cancelled, fails);
    ghost var held, log, down := guard.held, desktop.log, desktop.down;
    guard.Release();
    PointerPlanIsHonest(km, steps);
    RequestEnds(km, PointerPlan(km, steps), cut, held, old(desktop.log), old(desktop.down), log, down, desktop.down);
  }

  // ----- a short mouse call

  /** A click or a one-step drag presses and releases one button inside a single desktop call. */
  function ShortTaps(op: MouseOp): seq<Tap> {
    if op.Click? || op.Drag? then [Tap(ButtonHeld(op.button), true), Tap(ButtonHeld(op.button), false)] else []
  }

  function ShortChunk(km: Keymap, op: MouseOp): Chunk {
    var notes := if op.Click? || op.Drag? then [ButtonHeld(op.button)] else [];
    Chunk(Expand(km, ShortTaps(op)), notes, notes)
  }

  function OneCallCut(failure: Option<Failure>): Cut {
    if failure.Some? then InSend(0, failure.value) else AtCheck(1)
  }

  /** A request of a single chunk, sent from an empty list. */
  lemma OneCallReached(chunk: Chunk, failure: Option<Failure>, log: seq<Event>, down: set<Item>)
    requires failure.Some? ==> failure.value.after <= |chunk.events|
    ensures var part := if failure.Some? then PartOf(chunk.events, failure.value) else chunk.events;
            && CutOf([chunk], OneCallCut(failure)) && Delivered([chunk], OneCallCut(failure)) == part
            && Reached([chunk], OneCallCut(failure), if failure.Some? then [] + chunk.presses else Noted([], chunk),
                       log, down, log + part, Deliver(down, part))
  {
    OneMore([chunk], 0);
    assert [chunk][..0] == [];
  }

  /**
   One call from the guard's arming to its drop: the press is noted before it, so a call
   that fails half way is released too.
   */
  method OneCallRequest(desktop: Desktop, km: Keymap, chunk: Chunk, failure: Option<Failure>) returns (ok: bool)
    requires failure.Some? ==> failure.value.after <= |chunk.events|
    requires Honest(km, chunk)
    modifies desktop
    ensures ok == failure.None?
    ensures var delivered := if ok then chunk.events else PartOf(chunk.events, failure.value);
            (Covered(km, [chunk]) ==> NothingLeft(delivered, desktop.down)) &&
            CutOf([chunk], OneCallCut(failure)) &&
            desktop.log == old(desktop.log) + delivered + LetGo(km, HeldAt([chunk], OneCallCut(failure)))
  {
    var guard := new Guard(desktop, km);
    OneCallReached(chunk, failure, desktop.log, desktop.down);
    ok := SendChunk(guard, chunk, failure);
    ghost var held, log, down := guard.held, desktop.log, desktop.down;
    guard.Release();
    RequestEnds(km, [chunk], OneCallCut(failure), held, old(desktop.log), old(desktop.down), log, down, desktop.down);
  }
}
