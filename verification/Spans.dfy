/** Byte ranges of a text: sorting, deduplicating and merging them. */
module Spans {
  import opened Basics

  /** A half-open range of byte positions. */
  datatype Span = Span(start: nat, end: nat)

  predicate Contains(sp: Span, p: nat) {
    sp.start <= p < sp.end
  }

  predicate Covers(spans: seq<Span>, p: nat) {
    exists k :: 0 <= k < |spans| && Contains(spans[k], p)
  }

  predicate Proper(spans: seq<Span>) {
    forall sp :: sp in spans ==> sp.start < sp.end
  }

  predicate Precedes(a: Span, b: Span) {
    a.start < b.start || (a.start == b.start && a.end <= b.end)
  }

  predicate Sorted(spans: seq<Span>) {
    forall i, j :: 0 <= i < j < |spans| ==> Precedes(spans[i], spans[j])
  }

  /** In order, nonempty, and with at least one uncovered byte between any two. */
  predicate Separated(spans: seq<Span>) {
    (forall k :: 0 <= k < |spans| ==> spans[k].start < spans[k].end) &&
    (forall i, j :: 0 <= i < j < |spans| ==> spans[i].end < spans[j].start)
  }

  lemma HeadPrecedes(spans: seq<Span>)
    requires Sorted(spans) && spans != []
    ensures Sorted(spans[1..]) && forall x :: x in spans[1..] ==> Precedes(spans[0], x)
  {
  }

  lemma PrependSorted(sp: Span, rest: seq<Span>)
    requires Sorted(rest) && forall x :: x in rest ==> Precedes(sp, x)
    ensures Sorted([sp] + rest)
  {
    forall i, j | 0 <= i < j < |[sp] + rest|
      ensures Precedes(([sp] + rest)[i], ([sp] + rest)[j])
    {
      assert ([sp] + rest)[j] in rest;
    }
  }

  function Insert(sp: Span, spans: seq<Span>): (r: seq<Span>)
    requires Sorted(spans)
    ensures Sorted(r) && forall x :: x in r <==> x == sp || x in spans
  {
    if spans == [] then [sp]
    else if Precedes(sp, spans[0]) then [sp] + spans
    else
      HeadPrecedes(spans);
      PrependSorted(spans[0], Insert(sp, spans[1..]));
      [spans[0]] + Insert(sp, spans[1..])
  }

  function Sort(spans: seq<Span>): (r: seq<Span>)
    ensures Sorted(r) && forall x :: x in r <==> x in spans
  {
    if spans == [] then [] else Insert(spans[0], Sort(spans[1..]))
  }

  /** Drops a span equal to the one after it. */
  function Dedup(spans: seq<Span>): (r: seq<Span>)
    requires Sorted(spans)
    ensures Sorted(r) && forall x :: x in r <==> x in spans
  {
    if |spans| < 2 then spans
    else if spans[0] == spans[1] then Dedup(spans[1..])
    else
      HeadPrecedes(spans);
      PrependSorted(spans[0], Dedup(spans[1..]));
      [spans[0]] + Dedup(spans[1..])
  }

  /** Extends the last span when the next one starts inside it or right at its end. */
  function MergeInto(merged: seq<Span>, sp: Span): seq<Span> {
    if merged != [] && sp.start <= merged[|merged| - 1].end then
      var last := merged[|merged| - 1];
      merged[|merged| - 1 := Span(last.start, Max(last.end, sp.end))]
    else merged + [sp]
  }

  function Merge(spans: seq<Span>): seq<Span> {
    if spans == [] then [] else MergeInto(Merge(spans[..|spans| - 1]), spans[|spans| - 1])
  }

  /** Everything merged so far starts no later than `from`. */
  predicate StartsBy(merged: seq<Span>, from: nat) {
    merged != [] ==> merged[|merged| - 1].start <= from
  }

  predicate InOne(merged: seq<Span>, sp: Span) {
    exists k :: 0 <= k < |merged| && merged[k].start <= sp.start && sp.end <= merged[k].end
  }

  lemma MergeIntoSeparated(merged: seq<Span>, sp: Span)
    requires Separated(merged) && StartsBy(merged, sp.start) && sp.start < sp.end
    ensures Separated(MergeInto(merged, sp)) && StartsBy(MergeInto(merged, sp), sp.start)
  {
  }

  lemma MergeIntoCovers(merged: seq<Span>, sp: Span, p: nat)
    requires StartsBy(merged, sp.start)
    ensures Covers(MergeInto(merged, sp), p) <==> Covers(merged, p) || Contains(sp, p)
  {
    var r, n := MergeInto(merged, sp), |merged| - 1;
    if k :| 0 <= k < |merged| && Contains(merged[k], p) {
      assert Contains(r[k], p);
    }
    if Contains(sp, p) {
      assert Contains(r[|r| - 1], p);
    }
    if k :| 0 <= k < |r| && Contains(r[k], p) {
      if k < n {
        assert Contains(merged[k], p);
      } else if k == n {
        assert Contains(merged[n], p) || Contains(sp, p);
      }
    }
  }

  lemma MergeIntoHolds(merged: seq<Span>, sp: Span, x: Span)
    requires StartsBy(merged, sp.start) && (InOne(merged, x) || x == sp)
    ensures InOne(MergeInto(merged, sp), x)
  {
    var r := MergeInto(merged, sp);
    if k :| 0 <= k < |merged| && merged[k].start <= x.start && x.end <= merged[k].end {
      assert r[k].start <= x.start && x.end <= r[k].end;
    } else {
      assert r[|r| - 1].start <= x.start && x.end <= r[|r| - 1].end;
    }
  }

  /** Merging sorted spans: strictly separated, the same bytes, and no span torn apart. */
  lemma {:induction false} MergeIsSound(spans: seq<Span>)
    requires Sorted(spans) && Proper(spans)
    ensures Separated(Merge(spans))
    ensures spans != [] ==> StartsBy(Merge(spans), spans[|spans| - 1].start)
    ensures forall p: nat :: Covers(Merge(spans), p) <==> Covers(spans, p)
    ensures forall x :: x in spans ==> InOne(Merge(spans), x)
  {
    if spans != [] {
      var n := |spans| - 1;
      var before := Merge(spans[..n]);
      MergeIsSound(spans[..n]);
      assert StartsBy(before, spans[n].start) by {
        assert n > 0 ==> Precedes(spans[n - 1], spans[n]);
      }
      MergeIntoSeparated(before, spans[n]);
      forall p: nat
        ensures Covers(Merge(spans), p) <==> Covers(spans, p)
      {
        MergeIntoCovers(before, spans[n], p);
        CoversSnoc(spans, p);
      }
      forall x | x in spans
        ensures InOne(Merge(spans), x)
      {
        assert x in spans[..n] || x == spans[n];
        MergeIntoHolds(before, spans[n], x);
      }
    }
  }

  lemma CoversSnoc(spans: seq<Span>, p: nat)
    requires spans != []
    ensures Covers(spans, p) <==> Covers(spans[..|spans| - 1], p) || Contains(spans[|spans| - 1], p)
  {
    var n := |spans| - 1;
    if k :| 0 <= k < n && Contains(spans[k], p) {
      assert Contains(spans[..n][k], p);
    }
  }
}
