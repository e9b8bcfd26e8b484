/** Grouping key strokes into keystrokes, and keystrokes into chunks with a cancel check between them. */
module Keystrokes {
  import opened InputTypes

  const TYPE_CHUNK_KEYSTROKES: nat := 32

  /** A press and the release of the same key right after it. */
  predicate Pair(down: Stroke, up: Stroke) {
    down.down && !up.down && down.keysym == up.keysym
  }

  function Width(strokes: seq<Stroke>): (width: nat)
    ensures width <= |strokes| && (strokes != [] ==> width > 0)
  {
    if |strokes| >= 2 && Pair(strokes[0], strokes[1]) then 2
    else if strokes != [] then 1
    else 0
  }

  // ----- the reference: a stroke list as a list of keystrokes

  function Groups(strokes: seq<Stroke>): seq<seq<Stroke>> {
    if strokes == [] then [] else [strokes[..Width(strokes)]] + Groups(strokes[Width(strokes)..])
  }

  function Count(strokes: seq<Stroke>): nat {
    |Groups(strokes)|
  }

  function Flatten<T>(parts: seq<seq<T>>): seq<T> {
    if parts == [] then [] else parts[0] + Flatten(parts[1..])
  }

  /** The longest prefix of whole keystrokes that has at most `limit` of them. */
  function Taken(strokes: seq<Stroke>, limit: nat): seq<Stroke> {
    Flatten(Groups(strokes)[..if Count(strokes) <= limit then Count(strokes) else limit])
  }

  lemma {:induction false} FlattenConcat<T>(a: seq<seq<T>>, b: seq<seq<T>>)
    ensures Flatten(a + b) == Flatten(a) + Flatten(b)
  {
    if a == [] {
      assert a + b == b;
    } else {
      assert (a + b)[1..] == a[1..] + b;
      FlattenConcat(a[1..], b);
    }
  }

  /** Keystrokes in a row, none of which would join with the one after it. */
  ghost predicate Canonical(groups: seq<seq<Stroke>>) {
    && (forall i :: 0 <= i < |groups| ==> |groups[i]| == 1 || (|groups[i]| == 2 && Pair(groups[i][0], groups[i][1])))
    && (forall i :: 0 < i < |groups| && |groups[i - 1]| == 1 ==> !Pair(groups[i - 1][0], groups[i][0]))
  }

  lemma CanonicalPrepend(group: seq<Stroke>, rest: seq<seq<Stroke>>)
    requires Canonical(rest) && (|group| == 1 || (|group| == 2 && Pair(group[0], group[1])))
    requires |group| == 1 && rest != [] ==> !Pair(group[0], rest[0][0])
    ensures Canonical([group] + rest)
  {
    var groups := [group] + rest;
    forall i | 0 < i < |groups| && |groups[i - 1]| == 1
      ensures !Pair(groups[i - 1][0], groups[i][0])
    {
      assert groups[i] == rest[i - 1];
      if i > 1 {
        assert groups[i - 1] == rest[i - 2];
      }
    }
  }

  /** Grouping loses nothing and leaves nothing to join. */
  lemma {:induction false} GroupsAreCanonical(strokes: seq<Stroke>)
    ensures Flatten(Groups(strokes)) == strokes
    ensures Canonical(Groups(strokes))
    ensures strokes != [] ==> Groups(strokes) != [] && Groups(strokes)[0][0] == strokes[0]
  {
    if strokes != [] {
      var w := Width(strokes);
      GroupsAreCanonical(strokes[w..]);
      CanonicalPrepend(strokes[..w], Groups(strokes[w..]));
      assert Groups(strokes)[1..] == Groups(strokes[w..]);
    }
  }

  /** There is no other way to group. */
  lemma {:induction false} CanonicalIsGroups(groups: seq<seq<Stroke>>)
    requires Canonical(groups)
    ensures Groups(Flatten(groups)) == groups
  {
    if groups != [] {
      CanonicalIsGroups(groups[1..]);
      var strokes := Flatten(groups);
      if |groups| > 1 {
        assert groups[1..][0] == groups[1];
        assert Flatten(groups[1..])[0] == groups[1][0];
        assert strokes[|groups[0]|] == groups[1][0];
      }
      assert Width(strokes) == |groups[0]|;
      assert strokes[|groups[0]|..] == Flatten(groups[1..]);
    }
  }

  /** No matched press and release is parted by the cut at `b`. */
  predicate CutsNoPair(strokes: seq<Stroke>, b: nat) {
    0 < b < |strokes| ==> !Pair(strokes[b - 1], strokes[b])
  }

  lemma {:induction false} TakeOneMore<T>(parts: seq<seq<T>>, n: nat)
    requires n < |parts|
    ensures Flatten(parts[..n + 1]) == Flatten(parts[..n]) + parts[n]
  {
    assert parts[..n + 1] == parts[..n] + [parts[n]];
    FlattenConcat(parts[..n], [parts[n]]);
  }

  lemma SeamHoldsNoPair(a: seq<seq<Stroke>>, b: seq<seq<Stroke>>)
    requires Canonical(a + b)
    ensures a != [] && b != [] ==>
              var (p, q) := (Flatten(a), Flatten(b));
              p != [] && q != [] && !Pair(p[|p| - 1], q[0])
  {
    if a != [] && b != [] {
      var n := |a|;
      assert (a + b)[n - 1] == a[n - 1] && (a + b)[n] == b[0];
      TakeOneMore(a, n - 1);
      assert a[..n] == a;
    }
  }

  lemma CanonicalParts(groups: seq<seq<Stroke>>, n: nat)
    requires Canonical(groups) && n <= |groups|
    ensures Canonical(groups[..n]) && Canonical(groups[n..])
  {
    var rest := groups[n..];
    forall i | 0 < i < |rest| && |rest[i - 1]| == 1
      ensures !Pair(rest[i - 1][0], rest[i][0])
    {
      assert rest[i - 1] == groups[n + i - 1] && rest[i] == groups[n + i];
    }
  }

  lemma CanonicalSplits(groups: seq<seq<Stroke>>, n: nat)
    requires Canonical(groups) && n <= |groups|
    ensures Flatten(groups) == Flatten(groups[..n]) + Flatten(groups[n..])
    ensures Groups(Flatten(groups[..n])) == groups[..n]
    ensures Groups(Flatten(groups[n..])) == groups[n..]
    ensures groups == groups[..n] + groups[n..]
  {
    assert groups == groups[..n] + groups[n..];
    CanonicalParts(groups, n);
    FlattenConcat(groups[..n], groups[n..]);
    CanonicalIsGroups(groups[..n]);
    CanonicalIsGroups(groups[n..]);
  }

  /** A cut between keystrokes: both sides group as before, and no pair straddles it. */
  lemma CutAtKeystroke(strokes: seq<Stroke>, n: nat)
    requires n <= Count(strokes)
    ensures var prefix := Flatten(Groups(strokes)[..n]);
            var rest := Flatten(Groups(strokes)[n..]);
            && strokes == prefix + rest
            && Groups(prefix) == Groups(strokes)[..n]
            && Groups(rest) == Groups(strokes)[n..]
            && CutsNoPair(strokes, |prefix|)
            && (n > 0 ==> prefix != [])
            && (n == Count(strokes) ==> prefix == strokes)
  {
    GroupsAreCanonical(strokes);
    CanonicalSplits(Groups(strokes), n);
    SeamHoldsNoPair(Groups(strokes)[..n], Groups(strokes)[n..]);
  }

  // ----- the source's loops

  method CountKeystrokes(strokes: seq<Stroke>) returns (count: nat)
    ensures count == Count(strokes)
  {
    count := 0;
    var index := 0;
    while index < |strokes|
      invariant 0 <= index <= |strokes|
      invariant count + Count(strokes[index..]) == Count(strokes)
    {
      assert strokes[index..][Width(strokes[index..])..] == strokes[index + Width(strokes[index..])..];
      index := index + Width(strokes[index..]);
      count := count + 1;
    }
    assert strokes[index..] == [];
  }

  method TakeKeystrokes(strokes: seq<Stroke>, limit: nat) returns (taken: seq<Stroke>)
    ensures taken == Taken(strokes, limit)
    ensures taken <= strokes && CutsNoPair(strokes, |taken|)
    ensures Count(taken) <= limit && (taken == strokes || Count(taken) == limit)
    ensures Count(taken) + Count(strokes[|taken|..]) == Count(strokes)
    ensures strokes != [] && limit > 0 ==> taken != []
  {
    var count := 0;
    var index := 0;
    ghost var groups := Groups(strokes);
    while index < |strokes| && count < limit
      invariant 0 <= index <= |strokes| && count <= limit && count <= |groups|
      invariant Groups(strokes[index..]) == groups[count..]
      invariant index == |Flatten(groups[..count])|
    {
      var width := Width(strokes[index..]);
      assert groups[count..][1..] == groups[count + 1..];
      assert strokes[index..][width..] == strokes[index + width..];
      TakeOneMore(groups, count);
      index := index + width;
      count := count + 1;
    }
    taken := strokes[..index];
    CutAtKeystroke(strokes, count);
    assert strokes[index..] == Flatten(groups[count..]);
    if index == |strokes| {
      assert strokes[index..] == [];
    }
  }

  // ----- chunks

  function Least(a: nat, b: nat): nat {
    if a <= b then a else b
  }

  lemma TakenIsPrefix(strokes: seq<Stroke>, limit: nat)
    ensures var taken := Taken(strokes, limit);
            && taken <= strokes && CutsNoPair(strokes, |taken|)
            && Groups(taken) == Groups(strokes)[..Least(Count(strokes), limit)]
            && Groups(strokes[|taken|..]) == Groups(strokes)[Least(Count(strokes), limit)..]
            && (strokes != [] && limit > 0 ==> taken != [])
  {
    var n := Least(Count(strokes), limit);
    CutAtKeystroke(strokes, n);
    assert strokes[|Taken(strokes, limit)|..] == Flatten(Groups(strokes)[n..]);
  }

  /** The chunks the typing loop sends when nothing stops it. */
  function Chunks(strokes: seq<Stroke>): seq<seq<Stroke>>
    decreases |strokes|
  {
    if strokes == [] then []
    else
      TakenIsPrefix(strokes, TYPE_CHUNK_KEYSTROKES);
      var chunk := Taken(strokes, TYPE_CHUNK_KEYSTROKES);
      [chunk] + Chunks(strokes[|chunk|..])
  }

  function CountAll(chunks: seq<seq<Stroke>>): nat {
    if chunks == [] then 0 else Count(chunks[0]) + CountAll(chunks[1..])
  }

  lemma FlattenTake<T>(parts: seq<seq<T>>, m: nat, n: nat)
    requires m + n <= |parts|
    ensures Flatten(parts[..m]) + Flatten(parts[m..][..n]) == Flatten(parts[..m + n])
  {
    assert parts[..m + n] == parts[..m] + parts[m..][..n];
    FlattenConcat(parts[..m], parts[m..][..n]);
  }

  lemma FirstChunk(strokes: seq<Stroke>, sent: nat)
    requires 0 < sent <= |Chunks(strokes)|
    ensures strokes != []
    ensures var chunk := Taken(strokes, TYPE_CHUNK_KEYSTROKES);
            && |chunk| <= |strokes|
            && sent - 1 <= |Chunks(strokes[|chunk|..])|
            && Chunks(strokes)[..sent] == [chunk] + Chunks(strokes[|chunk|..])[..sent - 1]
  {
    TakenIsPrefix(strokes, TYPE_CHUNK_KEYSTROKES);
  }

  lemma LeastSplits(count: nat, sent: nat)
    requires sent > 0
    ensures var m := Least(count, TYPE_CHUNK_KEYSTROKES);
            m + Least(count - m, TYPE_CHUNK_KEYSTROKES * (sent - 1)) == Least(count, TYPE_CHUNK_KEYSTROKES * sent)
  {
  }

  lemma PrependChunk(chunk: seq<Stroke>, rest: seq<seq<Stroke>>)
    ensures Flatten([chunk] + rest) == chunk + Flatten(rest)
    ensures CountAll([chunk] + rest) == Count(chunk) + CountAll(rest)
  {
    assert ([chunk] + rest)[1..] == rest;
  }

  /** A chunk in front of a cut `k` keystrokes into what follows it. */
  lemma FirstChunkThenCut(strokes: seq<Stroke>, after: seq<seq<Stroke>>, k: nat)
    requires var m := Least(Count(strokes), TYPE_CHUNK_KEYSTROKES);
             k <= Count(strokes) - m && Flatten(after) == Flatten(Groups(strokes)[m..][..k]) && CountAll(after) == k
    ensures var m := Least(Count(strokes), TYPE_CHUNK_KEYSTROKES);
            var chunks := [Taken(strokes, TYPE_CHUNK_KEYSTROKES)] + after;
            Flatten(chunks) == Flatten(Groups(strokes)[..m + k]) && CountAll(chunks) == m + k
  {
    var m := Least(Count(strokes), TYPE_CHUNK_KEYSTROKES);
    TakenIsPrefix(strokes, TYPE_CHUNK_KEYSTROKES);
    PrependChunk(Taken(strokes, TYPE_CHUNK_KEYSTROKES), after);
    FlattenTake(Groups(strokes), m, k);
  }

  /** After any number of chunks the loop stands on a cut between keystrokes, 32 further for each. */
  lemma {:induction false} ChunksAreCuts(strokes: seq<Stroke>, sent: nat)
    requires sent <= |Chunks(strokes)|
    ensures var n := Least(Count(strokes), TYPE_CHUNK_KEYSTROKES * sent);
            && Flatten(Chunks(strokes)[..sent]) == Flatten(Groups(strokes)[..n])
            && CountAll(Chunks(strokes)[..sent]) == n
    decreases sent
  {
    if sent > 0 {
      var m := Least(Count(strokes), TYPE_CHUNK_KEYSTROKES);
      var k := Least(Count(strokes) - m, TYPE_CHUNK_KEYSTROKES * (sent - 1));
      TakenIsPrefix(strokes, TYPE_CHUNK_KEYSTROKES);
      FirstChunk(strokes, sent);
      var rest := strokes[|Taken(strokes, TYPE_CHUNK_KEYSTROKES)|..];
      ChunksAreCuts(rest, sent - 1);
      LeastSplits(Count(strokes), sent);
      FirstChunkThenCut(strokes, Chunks(rest)[..sent - 1], k);
    }
  }

  lemma {:induction false} ChunksAreSmallAndAll(strokes: seq<Stroke>)
    ensures forall i :: 0 <= i < |Chunks(strokes)| ==> Count(Chunks(strokes)[i]) <= TYPE_CHUNK_KEYSTROKES
    ensures Flatten(Chunks(strokes)) == strokes
    decreases |strokes|
  {
    if strokes != [] {
      TakenIsPrefix(strokes, TYPE_CHUNK_KEYSTROKES);
      ChunksAreSmallAndAll(strokes[|Taken(strokes, TYPE_CHUNK_KEYSTROKES)|..]);
    }
  }

  /**
   For every stroke list, wherever the loop stops: what was sent is a prefix of it that
   parts no matched pair, in chunks of at most 32 keystrokes; the running total is the
   count of that prefix, and together with what is left it makes the whole count.
   */
  lemma ChunksCover(strokes: seq<Stroke>, sent: nat)
    requires sent <= |Chunks(strokes)|
    ensures var prefix := Flatten(Chunks(strokes)[..sent]);
            && prefix <= strokes && CutsNoPair(strokes, |prefix|)
            && CountAll(Chunks(strokes)[..sent]) == Count(prefix)
            && Count(prefix) + Count(strokes[|prefix|..]) == Count(strokes)
            && (sent == |Chunks(strokes)| ==> prefix == strokes)
    ensures forall i :: 0 <= i < sent ==> Count(Chunks(strokes)[i]) <= TYPE_CHUNK_KEYSTROKES
  {
    ChunksAreCuts(strokes, sent);
    ChunksAreSmallAndAll(strokes);
    assert sent == |Chunks(strokes)| ==> Chunks(strokes)[..sent] == Chunks(strokes);
    var n := Least(Count(strokes), TYPE_CHUNK_KEYSTROKES * sent);
    CutAtKeystroke(strokes, n);
    var prefix := Flatten(Groups(strokes)[..n]);
    assert strokes[|prefix|..] == Flatten(Groups(strokes)[n..]);
  }
}
