/** Which bytes of a text are secret, and the text with every stretch of them masked. */
module RedactionModel {
  import opened Basics
  import opened Spans

  newtype Byte = b: int | 0 <= b < 0x100

  datatype ByteClass = Alphanumeric | Space | NonSpace

  /** A token prefix with the least token length, or a keyword whose value is secret. */
  datatype Rule = Prefix(word: seq<Byte>, minimum: nat) | Keyword(word: seq<Byte>)

  const VALUE_MINIMUM: nat := 4
  const STARS: seq<Byte> := Ascii("***")

  function Ascii(s: string): (bytes: seq<Byte>)
    requires forall i :: 0 <= i < |s| ==> s[i] < 128 as char
  {
    seq(|s|, i requires 0 <= i < |s| => s[i] as int as Byte)
  }

  predicate Between(low: char, b: Byte, high: char) {
    low as int <= b as int <= high as int
  }

  predicate IsSpace(b: Byte) {
    b == 0x20 || b == 0x09 || b == 0x0a || b == 0x0c || b == 0x0d
  }

  predicate Is(kind: ByteClass, b: Byte) {
    match kind
    case Alphanumeric => Between('0', b, '9') || Between('A', b, 'Z') || Between('a', b, 'z')
    case Space => IsSpace(b)
    case NonSpace => !IsSpace(b)
  }

  predicate IsAssign(b: Byte) {
    b as int == '=' as int || b as int == ':' as int
  }

  function Lower(text: seq<Byte>): (lower: seq<Byte>)
    ensures |lower| == |text|
  {
    seq(|text|, i requires 0 <= i < |text| => if Between('A', text[i], 'Z') then text[i] + 0x20 else text[i])
  }

  // ----- what is secret

  predicate OccursAt(text: seq<Byte>, word: seq<Byte>, i: nat) {
    i + |word| <= |text| && text[i..i + |word|] == word
  }

  /** From `from`, bytes of the class up to `to`, and no further. */
  predicate MaximalRun(text: seq<Byte>, from: nat, to: nat, kind: ByteClass) {
    from <= to <= |text| && (forall k :: from <= k < to ==> Is(kind, text[k])) &&
    (to < |text| ==> !Is(kind, text[to]))
  }

  ghost predicate IsToken(text: seq<Byte>, prefix: seq<Byte>, minimum: nat, sp: Span) {
    OccursAt(text, prefix, sp.start) && MaximalRun(text, sp.start + |prefix|, sp.end, Alphanumeric) &&
    sp.start + |prefix| + minimum <= sp.end
  }

  /** The keyword at `i`, an assignment sign at `sign`, and a long enough value, with only white space between. */
  ghost predicate IsValue(text: seq<Byte>, keyword: seq<Byte>, i: nat, sign: nat, sp: Span) {
    OccursAt(Lower(text), keyword, i) && MaximalRun(text, i + |keyword|, sign, Space) &&
    sign < |text| && IsAssign(text[sign]) && MaximalRun(text, sign + 1, sp.start, Space) &&
    MaximalRun(text, sp.start, sp.end, NonSpace) && sp.start + VALUE_MINIMUM <= sp.end
  }

  ghost predicate SecretBy(rule: Rule, text: seq<Byte>, sp: Span) {
    match rule
    case Prefix(word, minimum) => IsToken(text, word, minimum, sp)
    case Keyword(word) => exists i: nat, sign: nat :: IsValue(text, word, i, sign, sp)
  }

  ghost predicate IsSecret(rules: seq<Rule>, text: seq<Byte>, sp: Span) {
    exists k :: 0 <= k < |rules| && SecretBy(rules[k], text, sp)
  }

  ghost predicate Hidden(rules: seq<Rule>, text: seq<Byte>, p: nat) {
    exists sp :: IsSecret(rules, text, sp) && sp.start <= p < sp.end
  }

  /** One flag a byte: whether it is secret. */
  ghost function HiddenFlags(rules: seq<Rule>, text: seq<Byte>): (flags: seq<bool>)
    ensures |flags| == |text|
  {
    seq(|text|, p requires 0 <= p < |text| => Hidden(rules, text, p))
  }

  /** From `from` on: bytes that are not flagged as they are, each stretch of flagged bytes as one `***`. */
  function MaskFrom(text: seq<Byte>, flags: seq<bool>, from: nat): seq<Byte>
    requires |flags| == |text| && from <= |text|
    decreases |text| - from
  {
    if from == |text| then []
    else if !flags[from] then [text[from]] + MaskFrom(text, flags, from + 1)
    else if from == 0 || !flags[from - 1] then STARS + MaskFrom(text, flags, from + 1)
    else MaskFrom(text, flags, from + 1)
  }

  // ----- the search: what a rule finds at one position, and at every position

  function RunEnd(text: seq<Byte>, from: nat, kind: ByteClass): (to: nat)
    requires from <= |text|
    ensures from <= to <= |text|
    decreases |text| - from
  {
    if from < |text| && Is(kind, text[from]) then RunEnd(text, from + 1, kind) else from
  }

  lemma {:induction false} RunEndsOnce(text: seq<Byte>, from: nat, to: nat, kind: ByteClass)
    requires from <= |text|
    ensures MaximalRun(text, from, to, kind) <==> to == RunEnd(text, from, kind)
    decreases |text| - from
  {
    if from < |text| && Is(kind, text[from]) {
      RunEndsOnce(text, from + 1, to, kind);
    }
  }

  function Haystack(rule: Rule, text: seq<Byte>): (hay: seq<Byte>)
    ensures |hay| == |text|
  {
    if rule.Prefix? then text else Lower(text)
  }

  function TokenAt(text: seq<Byte>, after: nat, start: nat, minimum: nat): Option<Span>
    requires after <= |text|
  {
    var end := RunEnd(text, after, Alphanumeric);
    if end - after >= minimum && end > start then Some(Span(start, end)) else None
  }

  function ValueAt(text: seq<Byte>, after: nat): Option<Span>
    requires after <= |text|
  {
    var sign := RunEnd(text, after, Space);
    if sign < |text| && IsAssign(text[sign]) then
      var start := RunEnd(text, sign + 1, Space);
      var end := RunEnd(text, start, NonSpace);
      if end - start >= VALUE_MINIMUM then Some(Span(start, end)) else None
    else None
  }

  /** The span a rule yields for the occurrence of its word at `i`. */
  function SpanOf(rule: Rule, text: seq<Byte>, i: nat): Option<Span>
    requires i + |rule.word| <= |text|
  {
    match rule
    case Prefix(word, minimum) => TokenAt(text, i + |word|, i, minimum)
    case Keyword(word) => ValueAt(text, i + |word|)
  }

  function SpanAt(rule: Rule, text: seq<Byte>, i: nat): Option<Span> {
    if OccursAt(Haystack(rule, text), rule.word, i) then SpanOf(rule, text, i) else None
  }

  /** What a rule finds at some position before `to`. */
  ghost predicate FoundBefore(rule: Rule, text: seq<Byte>, to: nat, sp: Span) {
    exists i: nat :: i < to && SpanAt(rule, text, i) == Some(sp)
  }

  lemma FoundTokens(rule: Rule, text: seq<Byte>, i: nat, sp: Span)
    requires rule.Prefix? && rule.word != []
    ensures SpanAt(rule, text, i) == Some(sp) <==> i == sp.start && IsToken(text, rule.word, rule.minimum, sp)
  {
    if OccursAt(text, rule.word, i) {
      RunEndsOnce(text, i + |rule.word|, sp.end, Alphanumeric);
    }
  }

  lemma ValueIsFound(rule: Rule, text: seq<Byte>, i: nat, sign: nat, sp: Span)
    requires rule.Keyword? && IsValue(text, rule.word, i, sign, sp)
    ensures SpanAt(rule, text, i) == Some(sp)
  {
    RunEndsOnce(text, i + |rule.word|, sign, Space);
    RunEndsOnce(text, sign + 1, sp.start, Space);
    RunEndsOnce(text, sp.start, sp.end, NonSpace);
  }

  lemma FoundIsValue(rule: Rule, text: seq<Byte>, i: nat, sp: Span)
    requires rule.Keyword? && SpanAt(rule, text, i) == Some(sp)
    ensures IsValue(text, rule.word, i, RunEnd(text, i + |rule.word|, Space), sp)
  {
    var sign := RunEnd(text, i + |rule.word|, Space);
    RunEndsOnce(text, i + |rule.word|, sign, Space);
    RunEndsOnce(text, sign + 1, sp.start, Space);
    RunEndsOnce(text, sp.start, sp.end, NonSpace);
  }

  /** What a rule finds at the positions of a text is exactly what it makes secret. */
  lemma FoundIsSecret(rule: Rule, text: seq<Byte>, sp: Span)
    requires rule.word != []
    ensures FoundBefore(rule, text, |text|, sp) <==> SecretBy(rule, text, sp)
  {
    if rule.Prefix? {
      if i: nat :| i < |text| && SpanAt(rule, text, i) == Some(sp) {
        FoundTokens(rule, text, i, sp);
      }
      if IsToken(text, rule.word, rule.minimum, sp) {
        FoundTokens(rule, text, sp.start, sp);
      }
    } else {
      if i: nat :| i < |text| && SpanAt(rule, text, i) == Some(sp) {
        FoundIsValue(rule, text, i, sp);
      }
      if i: nat, sign: nat :| IsValue(text, rule.word, i, sign, sp) {
        ValueIsFound(rule, text, i, sign, sp);
      }
    }
  }

  lemma OneMoreRule(rules: seq<Rule>, text: seq<Byte>, sp: Span)
    requires rules != []
    ensures IsSecret(rules, text, sp) <==>
            IsSecret(rules[..|rules| - 1], text, sp) || SecretBy(rules[|rules| - 1], text, sp)
  {
    var n := |rules| - 1;
    if k :| 0 <= k < n && SecretBy(rules[..n][k], text, sp) {
      assert SecretBy(rules[k], text, sp);
    }
    if k :| 0 <= k < n && SecretBy(rules[k], text, sp) {
      assert SecretBy(rules[..n][k], text, sp);
    }
  }

  // ----- skipping past a match loses nothing

  /** The first byte of the word comes back nowhere in it, so two occurrences cannot overlap. */
  predicate HeadOnce(word: seq<Byte>) {
    word != [] && forall k :: 0 < k < |word| ==> word[k] != word[0]
  }

  lemma OccurrenceByte(text: seq<Byte>, word: seq<Byte>, i: nat, k: nat)
    requires OccursAt(text, word, i) && k < |word|
    ensures text[i + k] == word[k]
  {
    assert text[i..i + |word|][k] == word[k];
  }

  lemma NoOverlap(text: seq<Byte>, word: seq<Byte>, i: nat, j: nat)
    requires HeadOnce(word) && OccursAt(text, word, i) && OccursAt(text, word, j) && i <= j < i + |word|
    ensures i == j
  {
    OccurrenceByte(text, word, j, 0);
    OccurrenceByte(text, word, i, j - i);
  }

  /** A stretch with no occurrence yields nothing. */
  lemma NothingBetween(rule: Rule, text: seq<Byte>, from: nat, to: nat, sp: Span)
    requires from <= to
    requires forall i: nat :: from <= i < to ==> !OccursAt(Haystack(rule, text), rule.word, i)
    ensures FoundBefore(rule, text, to, sp) <==> FoundBefore(rule, text, from, sp)
  {
  }

  /** A match and the jump past it yield what stepping through every position of it would. */
  lemma OneMatch(rule: Rule, text: seq<Byte>, i: nat, sp: Span)
    requires HeadOnce(rule.word) && OccursAt(Haystack(rule, text), rule.word, i)
    ensures FoundBefore(rule, text, i + |rule.word|, sp) <==>
            FoundBefore(rule, text, i, sp) || SpanOf(rule, text, i) == Some(sp)
  {
    forall j | i < j < i + |rule.word|
      ensures !OccursAt(Haystack(rule, text), rule.word, j)
    {
      if OccursAt(Haystack(rule, text), rule.word, j) {
        NoOverlap(Haystack(rule, text), rule.word, i, j);
      }
    }
    NothingBetween(rule, text, i + 1, i + |rule.word|, sp);
    assert SpanAt(rule, text, i) == SpanOf(rule, text, i);
  }
}
