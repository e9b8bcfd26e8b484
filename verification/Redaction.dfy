/** The search loops, the merge and the splice that mask the secrets of a text. */
module Redaction {
  import opened Basics
  import opened RedactionModel
  import opened RedactionRules
  import opened Spans

  // ----- searching

  /** The first occurrence of a word at or after `from`. */
  function FindFrom(text: seq<Byte>, word: seq<Byte>, from: nat): Option<nat>
    requires from <= |text|
    decreases |text| - from
  {
    if OccursAt(text, word, from) then Some(from)
    else if from == |text| then None
    else FindFrom(text, word, from + 1)
  }

  function Find(text: seq<Byte>, word: seq<Byte>): Option<nat> {
    FindFrom(text, word, 0)
  }

  lemma {:induction false} FindsFirst(text: seq<Byte>, word: seq<Byte>, from: nat)
    requires from <= |text|
    ensures var found := FindFrom(text, word, from);
            (found.Some? ==> from <= found.value && OccursAt(text, word, found.value)) &&
            (forall j: nat :: from <= j && (found.Some? ==> j < found.value) ==> !OccursAt(text, word, j))
    decreases |text| - from
  {
    if !OccursAt(text, word, from) && from < |text| {
      FindsFirst(text, word, from + 1);
    }
  }

  lemma OccursInRest(text: seq<Byte>, word: seq<Byte>, base: nat, j: nat)
    requires base <= |text|
    ensures OccursAt(text[base..], word, j) <==> OccursAt(text, word, base + j)
  {
    if base + j + |word| <= |text| {
      assert text[base..][j..j + |word|] == text[base + j..base + j + |word|];
    }
  }

  /** What a search in the rest of the text says about the text. */
  lemma FoundInRest(text: seq<Byte>, word: seq<Byte>, base: nat)
    requires base <= |text|
    ensures var found := Find(text[base..], word);
            (found.Some? ==> OccursAt(text, word, base + found.value) &&
                             forall i: nat :: base <= i < base + found.value ==> !OccursAt(text, word, i)) &&
            (found.None? ==> forall i: nat :: base <= i ==> !OccursAt(text, word, i))
  {
    var found := Find(text[base..], word);
    FindsFirst(text[base..], word, 0);
    forall i: nat | base <= i
      ensures OccursAt(text, word, i) <==> OccursAt(text[base..], word, i - base)
    {
      OccursInRest(text, word, base, i - base);
    }
    if found.Some? {
      OccursInRest(text, word, base, found.value);
    }
  }

  /** The search has reached `base` and lists what the positions before it yield. */
  ghost predicate SearchedTo(rule: Rule, text: seq<Byte>, base: nat, spans: seq<Span>) {
    forall sp :: sp in spans <==> FoundBefore(rule, text, base, sp)
  }

  function ListOf(found: Option<Span>): seq<Span> {
    match found
    case Some(sp) => [sp]
    case None => []
  }

  /** What the positions up to the end of the occurrence found in the rest yield. */
  lemma FoundPastMatch(rule: Rule, text: seq<Byte>, base: nat, index: nat, sp: Span)
    requires HeadOnce(rule.word) && base <= |text|
    requires Find(Haystack(rule, text)[base..], rule.word) == Some(index)
    ensures var start := base + index;
            start + |rule.word| <= |text| &&
            (FoundBefore(rule, text, start + |rule.word|, sp) <==>
             FoundBefore(rule, text, base, sp) || SpanOf(rule, text, start) == Some(sp))
  {
    FoundInRest(Haystack(rule, text), rule.word, base);
    NothingBetween(rule, text, base, base + index, sp);
    OneMatch(rule, text, base + index, sp);
  }

  /** Jumping from `base` past the occurrence found in the rest. */
  lemma StepPastMatch(rule: Rule, text: seq<Byte>, base: nat, spans: seq<Span>, index: nat)
    requires HeadOnce(rule.word) && base <= |text| && SearchedTo(rule, text, base, spans)
    requires Find(Haystack(rule, text)[base..], rule.word) == Some(index)
    ensures var start := base + index;
            start + |rule.word| <= |text| &&
            SearchedTo(rule, text, start + |rule.word|, spans + ListOf(SpanOf(rule, text, start)))
  {
    var start := base + index;
    FoundPastMatch(rule, text, base, index, Span(0, 0));
    forall sp
      ensures sp in spans + ListOf(SpanOf(rule, text, start)) <==>
              FoundBefore(rule, text, start + |rule.word|, sp)
    {
      FoundPastMatch(rule, text, base, index, sp);
    }
  }

  lemma NoMoreMatches(rule: Rule, text: seq<Byte>, base: nat, spans: seq<Span>)
    requires rule.word != [] && base <= |text| && SearchedTo(rule, text, base, spans)
    requires Find(Haystack(rule, text)[base..], rule.word) == None
    ensures ListsSecrets(rule, text, spans)
  {
    FoundInRest(Haystack(rule, text), rule.word, base);
    forall sp
      ensures sp in spans <==> SecretBy(rule, text, sp)
    {
      NothingBetween(rule, text, base, |text|, sp);
      FoundIsSecret(rule, text, sp);
    }
  }

  /** The spans are exactly the secrets of one rule. */
  ghost predicate ListsSecrets(rule: Rule, text: seq<Byte>, spans: seq<Span>) {
    forall sp :: sp in spans <==> SecretBy(rule, text, sp)
  }

  /** Walks over bytes of one class. */
  method SkipRun(text: seq<Byte>, from: nat, kind: ByteClass) returns (cursor: nat)
    requires from <= |text|
    ensures cursor == RunEnd(text, from, kind)
  {
    cursor := from;
    while cursor < |text| && Is(kind, text[cursor])
      invariant from <= cursor <= |text|
      invariant RunEnd(text, cursor, kind) == RunEnd(text, from, kind)
    {
      cursor := cursor + 1;
    }
  }

  /** The token after a prefix that starts at `start` and ends at `after`, if it is long enough. */
  method TokenAfter(text: seq<Byte>, after: nat, start: nat, minimum: nat) returns (token: Option<Span>)
    requires after <= |text|
    ensures token == TokenAt(text, after, start, minimum)
  {
    var end := SkipRun(text, after, Alphanumeric);
    token := if end - after >= minimum && end > start then Some(Span(start, end)) else None;
  }

  /** The tokens after one prefix: the loop jumps from match to match, and finds what every position would. */
  method PrefixSpans(text: seq<Byte>, prefix: seq<Byte>, minimum: nat) returns (spans: seq<Span>)
    requires HeadOnce(prefix)
    ensures ListsSecrets(Prefix(prefix, minimum), text, spans)
  {
    ghost var rule := Prefix(prefix, minimum);
    spans := [];
    var rest, base := text, 0;
    var index := Find(rest, prefix);
    while index.Some?
      invariant base <= |text| && rest == text[base..] && index == Find(rest, prefix)
      invariant SearchedTo(rule, text, base, spans)
      decreases |text| - base
    {
      StepPastMatch(rule, text, base, spans, index.value);
      var start := base + index.value;
      var after := start + |prefix|;
      var token := TokenAfter(text, after, start, minimum);
      if token.Some? {
        spans := spans + [token.value];
      }
      base := Max(after, start + 1);
      rest := text[base..];
      index := Find(rest, prefix);
    }
    NoMoreMatches(rule, text, base, spans);
  }

  /** The value after a keyword that ends at `after`, if one is assigned there. */
  method ValueAfter(text: seq<Byte>, after: nat) returns (value: Option<Span>)
    requires after <= |text|
    ensures value == ValueAt(text, after)
  {
    var cursor := SkipRun(text, after, Space);
    value := None;
    if cursor < |text| && IsAssign(text[cursor]) {
      var start := SkipRun(text, cursor + 1, Space);
      var end := SkipRun(text, start, NonSpace);
      if end - start >= VALUE_MINIMUM {
        value := Some(Span(start, end));
      }
    }
  }

  /** The values assigned to one keyword, whatever its case. */
  method KeywordSpans(text: seq<Byte>, keyword: seq<Byte>) returns (spans: seq<Span>)
    requires HeadOnce(keyword)
    ensures ListsSecrets(Keyword(keyword), text, spans)
  {
    ghost var rule := Keyword(keyword);
    spans := [];
    var lower := Lower(text);
    var rest, base := lower, 0;
    var index := Find(rest, keyword);
    while index.Some?
      invariant base <= |text| && rest == lower[base..] && index == Find(rest, keyword)
      invariant SearchedTo(rule, text, base, spans)
      decreases |text| - base
    {
      StepPastMatch(rule, text, base, spans, index.value);
      var start := base + index.value;
      var after := start + |keyword|;
      var value := ValueAfter(text, after);
      if value.Some? {
        spans := spans + [value.value];
      }
      base := Max(after, start + 1);
      rest := lower[base..];
      index := Find(rest, keyword);
    }
    NoMoreMatches(rule, text, base, spans);
  }

  // ----- merging

  method MergeSpans(spans: seq<Span>) returns (merged: seq<Span>)
    ensures merged == Merge(spans)
  {
    merged := [];
    for k := 0 to |spans|
      invariant merged == Merge(spans[..k])
    {
      assert spans[..k + 1][..k] == spans[..k];
      var last := |merged| - 1;
      if merged != [] && spans[k].start <= merged[last].end {
        merged := merged[last := Span(merged[last].start, Max(merged[last].end, spans[k].end))];
      } else {
        merged := merged + [spans[k]];
      }
    }
    assert spans[..|spans|] == spans;
  }

  ghost predicate ProperSecrets(rules: seq<Rule>, text: seq<Byte>) {
    forall sp :: IsSecret(rules, text, sp) ==> sp.start < sp.end <= |text|
  }

  lemma SecretsAreProper(rules: seq<Rule>, text: seq<Byte>)
    requires forall k :: 0 <= k < |rules| ==> rules[k].word != []
    ensures ProperSecrets(rules, text)
  {
  }

  /** Spans that list exactly the secrets cover exactly the hidden bytes. */
  lemma ListedSecretsHide(rules: seq<Rule>, text: seq<Byte>, spans: seq<Span>, p: nat)
    requires forall sp :: sp in spans <==> IsSecret(rules, text, sp)
    ensures Covers(spans, p) <==> Hidden(rules, text, p)
  {
    if k :| 0 <= k < |spans| && Contains(spans[k], p) {
      assert IsSecret(rules, text, spans[k]);
    }
    if sp :| IsSecret(rules, text, sp) && sp.start <= p < sp.end {
      var k :| 0 <= k < |spans| && spans[k] == sp;
      assert Contains(spans[k], p);
    }
  }

  /** What the merged list of a text's secrets is for, whatever order they were found in. */
  ghost predicate Reports(rules: seq<Rule>, text: seq<Byte>, merged: seq<Span>) {
    Separated(merged) &&
    (forall p: nat :: Covers(merged, p) <==> Hidden(rules, text, p)) &&
    (forall sp :: IsSecret(rules, text, sp) ==> InOne(merged, sp))
  }

  lemma MergedSecretsReport(rules: seq<Rule>, text: seq<Byte>, found: seq<Span>)
    requires forall k :: 0 <= k < |rules| ==> rules[k].word != []
    requires forall sp :: sp in found <==> IsSecret(rules, text, sp)
    ensures Reports(rules, text, Merge(Dedup(Sort(found))))
  {
    var spans := Dedup(Sort(found));
    SecretsAreProper(rules, text);
    MergeIsSound(spans);
    forall p: nat
      ensures Covers(Merge(spans), p) <==> Hidden(rules, text, p)
    {
      ListedSecretsHide(rules, text, spans, p);
    }
  }

  /** Every secret of the text, merged into separate spans. */
  method SecretSpans(text: seq<Byte>) returns (merged: seq<Span>)
    ensures Reports(RULES, text, merged)
  {
    var spans: seq<Span> := [];
    for k := 0 to |RULES|
      invariant forall sp :: sp in spans <==> IsSecret(RULES[..k], text, sp)
    {
      RulesHeadOnce(k);
      var more: seq<Span>;
      match RULES[k] {
        case Prefix(word, minimum) => more := PrefixSpans(text, word, minimum);
        case Keyword(word) => more := KeywordSpans(text, word);
      }
      spans := spans + more;
      forall sp
        ensures sp in spans <==> IsSecret(RULES[..k + 1], text, sp)
      {
        assert RULES[..k + 1][..k] == RULES[..k];
        OneMoreRule(RULES[..k + 1], text, sp);
      }
    }
    assert RULES[..|RULES|] == RULES;
    forall k | 0 <= k < |RULES|
      ensures RULES[k].word != []
    {
      RulesHeadOnce(k);
    }
    MergedSecretsReport(RULES, text, spans);
    merged := MergeSpans(Dedup(Sort(spans)));
  }

  // ----- splicing

  ghost function FlagsOf(spans: seq<Span>, n: nat): (flags: seq<bool>)
    ensures |flags| == n && forall p :: 0 <= p < n ==> flags[p] == Covers(spans, p)
  {
    seq(n, p requires 0 <= p < n => Covers(spans, p))
  }

  lemma {:induction false} KeepsClear(text: seq<Byte>, flags: seq<bool>, from: nat, to: nat)
    requires |flags| == |text| && from <= to <= |text|
    requires forall p :: from <= p < to ==> !flags[p]
    ensures MaskFrom(text, flags, from) == text[from..to] + MaskFrom(text, flags, to)
    decreases |text| - from
  {
    if from < to {
      KeepsClear(text, flags, from + 1, to);
      assert MaskFrom(text, flags, from) == [text[from]] + MaskFrom(text, flags, from + 1);
      assert text[from..to] == [text[from]] + text[from + 1..to];
    }
  }

  lemma {:induction false} DropsFlagged(text: seq<Byte>, flags: seq<bool>, from: nat, to: nat)
    requires |flags| == |text| && 0 < from <= to <= |text|
    requires forall p :: from - 1 <= p < to ==> flags[p]
    ensures MaskFrom(text, flags, from) == MaskFrom(text, flags, to)
    decreases |text| - from
  {
    if from < to {
      DropsFlagged(text, flags, from + 1, to);
    }
  }

  /** One separated span: the clear bytes before it, then its stars. */
  lemma SplicesOne(text: seq<Byte>, flags: seq<bool>, last: nat, sp: Span)
    requires |flags| == |text| && last <= sp.start < sp.end <= |text|
    requires forall p :: last <= p < sp.start ==> !flags[p]
    requires forall p :: sp.start <= p < sp.end ==> flags[p]
    requires sp.start == 0 || !flags[sp.start - 1]
    ensures MaskFrom(text, flags, last) == text[last..sp.start] + STARS + MaskFrom(text, flags, sp.end)
  {
    KeepsClear(text, flags, last, sp.start);
    DropsFlagged(text, flags, sp.start + 1, sp.end);
  }

  /** Where the previous span ended. */
  function LastEnd(spans: seq<Span>, k: nat): nat
    requires k <= |spans|
  {
    if k == 0 then 0 else spans[k - 1].end
  }

  lemma ClearBetween(spans: seq<Span>, k: nat, p: nat)
    requires Separated(spans) && k <= |spans| && LastEnd(spans, k) <= p && (k < |spans| ==> p < spans[k].start)
    ensures !Covers(spans, p)
  {
  }

  lemma SeparatedStep(text: seq<Byte>, spans: seq<Span>, k: nat)
    requires Separated(spans) && k < |spans| && spans[k].end <= |text|
    ensures var flags, last := FlagsOf(spans, |text|), LastEnd(spans, k);
            last <= spans[k].start &&
            MaskFrom(text, flags, last) == text[last..spans[k].start] + STARS + MaskFrom(text, flags, spans[k].end)
  {
    var flags, last := FlagsOf(spans, |text|), LastEnd(spans, k);
    forall p | last <= p < spans[k].start
      ensures !flags[p]
    {
      ClearBetween(spans, k, p);
    }
    forall p | spans[k].start <= p < spans[k].end
      ensures flags[p]
    {
      assert Contains(spans[k], p);
    }
    SplicesOne(text, flags, last, spans[k]);
  }

  /** The guard against an overlapping or out-of-range span is kept; separated spans never meet it. */
  method Splice(text: seq<Byte>, spans: seq<Span>) returns (redacted: seq<Byte>)
    requires Separated(spans) && forall k :: 0 <= k < |spans| ==> spans[k].end <= |text|
    ensures redacted == MaskFrom(text, FlagsOf(spans, |text|), 0)
  {
    ghost var flags := FlagsOf(spans, |text|);
    redacted := [];
    var last := 0;
    for k := 0 to |spans|
      invariant last == LastEnd(spans, k) <= |text|
      invariant redacted + MaskFrom(text, flags, last) == MaskFrom(text, flags, 0)
    {
      SeparatedStep(text, spans, k);
      if spans[k].start < last || spans[k].end > |text| {
        assert false;
      } else {
        redacted := redacted + text[last..spans[k].start];
        redacted := redacted + STARS;
        last := spans[k].end;
      }
    }
    forall p | last <= p < |text|
      ensures !flags[p]
    {
      ClearBetween(spans, |spans|, p);
    }
    KeepsClear(text, flags, last, |text|);
    redacted := redacted + text[last..];
  }

  lemma ReportsInBounds(rules: seq<Rule>, text: seq<Byte>, merged: seq<Span>, k: nat)
    requires Reports(rules, text, merged) && ProperSecrets(rules, text) && k < |merged|
    ensures merged[k].end <= |text|
  {
    assert Contains(merged[k], merged[k].end - 1);
    assert Hidden(rules, text, merged[k].end - 1);
  }

  /**
   The text with every maximal stretch of secret bytes as one `***` and every other byte
   in its place: a plain reading of the rules, position by position, that knows nothing of
   searching, sorting or merging.
   */
  method Redact(text: seq<Byte>) returns (redacted: seq<Byte>)
    ensures redacted == MaskFrom(text, HiddenFlags(RULES, text), 0)
  {
    var spans := SecretSpans(text);
    RulesAreProper(text);
    assert FlagsOf(spans, |text|) == HiddenFlags(RULES, text);
    forall k | 0 <= k < |spans|
      ensures spans[k].end <= |text|
    {
      ReportsInBounds(RULES, text, spans, k);
    }
    if spans == [] {
      KeepsClear(text, FlagsOf(spans, |text|), 0, |text|);
      return text;
    }
    redacted := Splice(text, spans);
  }

  lemma RulesAreProper(text: seq<Byte>)
    ensures ProperSecrets(RULES, text)
  {
    forall k | 0 <= k < |RULES|
      ensures RULES[k].word != []
    {
      RulesHeadOnce(k);
    }
    SecretsAreProper(RULES, text);
  }
}
