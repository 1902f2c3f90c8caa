/** internal/pii/masker.go: masking the matches of regular expressions in text and JSON. */
module PiiMasker {
  import opened Basics
  import opened Text

  /** One match and the text of its groups, group 0 being the match. */
  datatype Match = Match(from: nat, to: nat, groups: seq<Bytes>)

  datatype PartialMask = PartialMask(showFirst: int, showLast: int, filler: char)

  /** `find` stands for the compiled regular expression. */
  datatype Pattern = Pattern(find: Bytes -> seq<Match>, mask: Bytes, partial: Option<PartialMask>)

  /** What the regexp package promises of all matches: in bounds, in order, not overlapping. */
  ghost predicate Disjoint(text: Bytes, ms: seq<Match>) {
    && (forall i :: 0 <= i < |ms| ==> ms[i].from <= ms[i].to <= |text|)
    && (forall i, j :: 0 <= i < j < |ms| ==> ms[i].to <= ms[j].from)
  }

  ghost predicate Finds(p: Pattern) {
    forall text :: Disjoint(text, p.find(text))
  }

  // ---------- One match ----------

  /** Whether replaceMatch takes its partial branch. */
  predicate IsPartial(p: Pattern) {
    p.partial.Some? && (p.partial.value.showFirst > 0 || p.partial.value.showLast > 0)
  }

  function Clip(n: int, limit: nat): int {
    if n > limit then limit else n
  }

  function PartlyMasked(m: Bytes, pm: PartialMask): Bytes {
    var first := Clip(pm.showFirst, |m|);
    var last := Clip(pm.showLast, |m|);
    var head := if first > 0 then m[..first] else [];
    var tail := if last > 0 then (if |m| > first then m[|m| - last..] else m) else [];
    var middle := |m| - first - last;
    if middle <= 0 && first + last >= |m| then m
    else head + Repeat(pm.filler, middle) + tail
  }

  /** The mask text with ${0}, ${1}, ... replaced in turn. */
  function Expanded(mask: Bytes, groups: seq<Bytes>, i: nat): Bytes
    requires i <= |groups|
    decreases |groups| - i
  {
    if i == |groups| then mask
    else Expanded(ReplaceAll(mask, "${" + Decimal(i) + "}", groups[i]), groups, i + 1)
  }

  function ReplaceMatch(m: Bytes, p: Pattern, groups: seq<Bytes>): Bytes {
    if IsPartial(p) then PartlyMasked(m, p.partial.value) else Expanded(p.mask, groups, 0)
  }

  lemma {:induction false} ReplaceAbsent(s: Bytes, from: Bytes, to: Bytes)
    requires from != [] && from[0] !in s
    ensures ReplaceAll(s, from, to) == s
    decreases |s|
  {
    if |s| >= |from| {
      assert s[..|from|][0] == s[0];
      ReplaceAbsent(s[1..], from, to);
    }
  }

  /** A full mask without a dollar sign replaces every match by itself, whatever was matched. */
  lemma {:induction false} PlainMaskIsConstant(mask: Bytes, groups: seq<Bytes>, i: nat)
    requires '$' !in mask && i <= |groups|
    ensures Expanded(mask, groups, i) == mask
    decreases |groups| - i
  {
    if i < |groups| {
      ReplaceAbsent(mask, "${" + Decimal(i) + "}", groups[i]);
      PlainMaskIsConstant(mask, groups, i + 1);
    }
  }

  /** The pattern has no partial mask, or one that shows nothing. */
  predicate FullyMasks(p: Pattern) {
    p.partial.None? || (p.partial.value.showFirst <= 0 && p.partial.value.showLast <= 0)
  }

  /** A position where the text to replace does not stand. */
  lemma StepOver(s: Bytes, from: Bytes, to: Bytes)
    requires from != [] && s != [] && (|s| < |from| || s[..|from|] != from)
    ensures ReplaceAll(s, from, to) == [s[0]] + ReplaceAll(s[1..], from, to)
  {
    assert s == [s[0]] + s[1..];
  }

  lemma Prepend(a: Bytes, x: Bytes)
    requires a != []
    ensures [a[0]] + (a[1..] + x) == a + x
  {}

  lemma {:induction false} SkipsPlain(a: Bytes, rest: Bytes, from: Bytes, to: Bytes)
    requires from != [] && from[0] !in a
    ensures ReplaceAll(a + rest, from, to) == a + ReplaceAll(rest, from, to)
    decreases |a|
  {
    var s := a + rest;
    if a == [] {
      assert s == rest;
    } else {
      assert |s| >= |from| ==> s[..|from|][0] == a[0];
      StepOver(s, from, to);
      assert s[1..] == a[1..] + rest;
      SkipsPlain(a[1..], rest, from, to);
      Prepend(a, ReplaceAll(rest, from, to));
    }
  }

  lemma ReplaceOnce(a: Bytes, from: Bytes, b: Bytes, to: Bytes)
    requires from != [] && from[0] !in a && from[0] !in b
    ensures ReplaceAll(a + from + b, from, to) == a + to + b
  {
    var s := from + b;
    assert a + from + b == a + s;
    SkipsPlain(a, s, from, to);
    assert s[..|from|] == from && s[|from|..] == b;
    ReplaceAbsent(b, from, to);
  }

  predicate Digits(s: Bytes) {
    forall i :: 0 <= i < |s| ==> '0' <= s[i] <= '9'
  }

  lemma DigitIs(n: nat)
    requires n < 10
    ensures "0123456789"[n] as int == '0' as int + n
  {}

  lemma {:induction false} DecimalIsDigits(n: nat)
    ensures Decimal(n) != [] && Digits(Decimal(n))
  {
    DigitIs(n % 10);
    if n >= 10 {
      DecimalIsDigits(n / 10);
    }
  }

  /** All digits of a number but the last. */
  function Leading(n: nat): Bytes {
    if n < 10 then [] else Decimal(n / 10)
  }

  /** The number that a string of digits spells. */
  function ReadDecimal(s: Bytes): int {
    if s == [] then 0 else 10 * ReadDecimal(Front(s)) + (Last(s) as int - '0' as int)
  }

  lemma {:induction false} DecimalReadsBack(n: nat)
    ensures ReadDecimal(Decimal(n)) == n && (n > 0 ==> Decimal(n)[0] != '0')
  {
    FrontLast(Leading(n), "0123456789"[n % 10]);
    DigitIs(n % 10);
    if n >= 10 {
      DecimalReadsBack(n / 10);
      DecimalIsDigits(n / 10);
    }
  }

  lemma DecimalIsInjective(i: nat, j: nat)
    requires Decimal(i) == Decimal(j)
    ensures i == j
  {
    DecimalReadsBack(i);
    DecimalReadsBack(j);
  }

  function Placeholder(k: nat): Bytes {
    "${" + Decimal(k) + "}"
  }

  /** Two digit strings that a bracket ends in the same place are the same. */
  lemma {:induction false} SameDigits(x: Bytes, y: Bytes, b: Bytes)
    requires Digits(x) && Digits(y) && |x| <= |y| + |b|
    requires (y + "}" + b)[..|x| + 1] == x + "}"
    ensures x == y
    decreases |x|
  {
    var s, t := y + "}" + b, x + "}";
    assert s[..|t|][0] == s[0] == t[0];
    if x != [] && y != [] {
      assert s[1..] == y[1..] + "}" + b && t[1..] == x[1..] + "}";
      assert s[1..][..|x|] == s[..|t|][1..];
      SameDigits(x[1..], y[1..], b);
      assert x == [x[0]] + x[1..] && y == [y[0]] + y[1..];
    }
  }

  /** A placeholder does not begin where another stands. */
  lemma PlaceholdersDiffer(i: nat, k: nat, b: Bytes)
    requires i != k && |Placeholder(i)| <= |Placeholder(k) + b|
    ensures (Placeholder(k) + b)[..|Placeholder(i)|] != Placeholder(i)
  {
    var s, t := Placeholder(k) + b, Placeholder(i);
    if s[..|t|] == t {
      DecimalIsDigits(i);
      DecimalIsDigits(k);
      assert s[2..] == Decimal(k) + "}" + b && t[2..] == Decimal(i) + "}";
      assert s[2..][..|Decimal(i)| + 1] == s[..|t|][2..];
      SameDigits(Decimal(i), Decimal(k), b);
      DecimalIsInjective(i, k);
    }
  }

  lemma OneDollar(k: nat, b: Bytes)
    requires '$' !in b
    ensures '$' !in (Placeholder(k) + b)[1..]
  {
    DecimalIsDigits(k);
    assert (Placeholder(k) + b)[1..] == "{" + Decimal(k) + "}" + b;
  }

  lemma {:induction false} Inert(a: Bytes, s: Bytes, from: Bytes, to: Bytes)
    requires from != [] && s != [] && from[0] !in a && from[0] !in s[1..]
    requires |s| < |from| || s[..|from|] != from
    ensures ReplaceAll(a + s, from, to) == a + s
  {
    SkipsPlain(a, s, from, to);
    StepOver(s, from, to);
    ReplaceAbsent(s[1..], from, to);
    Prepend(s, []);
  }

  lemma OtherPlaceholder(a: Bytes, b: Bytes, i: nat, k: nat, to: Bytes)
    requires '$' !in a && '$' !in b && i != k
    ensures ReplaceAll(a + (Placeholder(k) + b), Placeholder(i), to) == a + (Placeholder(k) + b)
  {
    OneDollar(k, b);
    if |Placeholder(k) + b| >= |Placeholder(i)| {
      PlaceholdersDiffer(i, k, b);
    }
    Inert(a, Placeholder(k) + b, Placeholder(i), to);
  }

  lemma {:induction false} ExpandsGroup(groups: seq<Bytes>, a: Bytes, b: Bytes, k: nat, i: nat)
    requires '$' !in a && '$' !in b && i <= k < |groups| && '$' !in groups[k]
    ensures Expanded(a + (Placeholder(k) + b), groups, i) == a + groups[k] + b
    decreases |groups| - i
  {
    if i < k {
      OtherPlaceholder(a, b, i, k, groups[i]);
      ExpandsGroup(groups, a, b, k, i + 1);
    } else {
      assert a + (Placeholder(k) + b) == a + Placeholder(k) + b;
      ReplaceOnce(a, Placeholder(k), b, groups[k]);
      PlainMaskIsConstant(a + groups[k] + b, groups, k + 1);
    }
  }

  /** A full mask that names group k puts the text of that group in its place. */
  lemma {:induction false} GroupMask(m: Bytes, p: Pattern, groups: seq<Bytes>, a: Bytes, b: Bytes, k: nat)
    requires FullyMasks(p) && k < |groups| && p.mask == a + "${" + Decimal(k) + "}" + b
    requires '$' !in a && '$' !in b && '$' !in groups[k]
    ensures ReplaceMatch(m, p, groups) == a + groups[k] + b
  {
    assert p.mask == a + (Placeholder(k) + b);
    ExpandsGroup(groups, a, b, k, 0);
  }

  // ---------- All matches ----------

  function EndOf(ms: seq<Match>): nat {
    if ms == [] then 0 else Last(ms).to
  }

  /** The text up to the end of the last match, masked. */
  function MaskedPrefix(text: Bytes, ms: seq<Match>, p: Pattern): Bytes
    requires Disjoint(text, ms)
  {
    if ms == [] then []
    else
      assert |ms| > 1 ==> ms[|ms| - 2].to <= ms[|ms| - 1].from;
      var m := Last(ms);
      MaskedPrefix(text, Front(ms), p) + text[EndOf(Front(ms))..m.from] + ReplaceMatch(text[m.from..m.to], p, m.groups)
  }

  function Masked(text: Bytes, ms: seq<Match>, p: Pattern): Bytes
    requires Disjoint(text, ms)
  {
    MaskedPrefix(text, ms, p) + text[EndOf(ms)..]
  }

  lemma MaskOneMore(text: Bytes, ms: seq<Match>, i: nat, p: Pattern)
    requires Disjoint(text, ms) && i < |ms|
    ensures EndOf(ms[..i]) <= ms[i].from <= ms[i].to <= |text| && EndOf(ms[..i + 1]) == ms[i].to
    ensures MaskedPrefix(text, ms[..i + 1], p) ==
            MaskedPrefix(text, ms[..i], p) + text[EndOf(ms[..i])..ms[i].from] +
            ReplaceMatch(text[ms[i].from..ms[i].to], p, ms[i].groups)
  {
    assert Front(ms[..i + 1]) == ms[..i];
    assert i > 0 ==> ms[i - 1].to <= ms[i].from;
  }

  method ApplyPattern(text: Bytes, p: Pattern) returns (r: Bytes)
    requires Finds(p)
    ensures r == Masked(text, p.find(text), p)
  {
    var all := p.find(text);
    assert Disjoint(text, all);
    if |all| == 0 {
      return text;
    }
    var sb, start := [], 0;
    for i := 0 to |all|
      invariant start == EndOf(all[..i]) <= |text|
      invariant sb == MaskedPrefix(text, all[..i], p)
    {
      MaskOneMore(text, all, i, p);
      sb := sb + text[start..all[i].from];
      sb := sb + ReplaceMatch(text[all[i].from..all[i].to], p, all[i].groups);
      start := all[i].to;
    }
    assert all[..|all|] == all;
    r := sb + text[start..];
  }

  /** The pieces of text before each match and after the last. */
  function Gaps(text: Bytes, ms: seq<Match>): (r: seq<Bytes>)
    requires Disjoint(text, ms)
    ensures |r| == |ms| + 1
  {
    if ms == [] then [text]
    else
      assert |ms| > 1 ==> ms[|ms| - 2].to <= ms[|ms| - 1].from;
      Front(Gaps(text, Front(ms))) + [text[EndOf(Front(ms))..Last(ms).from], text[Last(ms).to..]]
  }

  /** gaps[0] + parts[0] + gaps[1] + ... + gaps[n]. */
  function Interleave(gaps: seq<Bytes>, parts: seq<Bytes>): Bytes
    requires |gaps| == |parts| + 1
  {
    if parts == [] then gaps[0]
    else Interleave(Front(gaps), Front(parts)) + Last(parts) + Last(gaps)
  }

  function Matched(text: Bytes, ms: seq<Match>): (r: seq<Bytes>)
    requires Disjoint(text, ms)
    ensures |r| == |ms|
  {
    seq(|ms|, i requires 0 <= i < |ms| => text[ms[i].from..ms[i].to])
  }

  function Replaced(text: Bytes, ms: seq<Match>, p: Pattern): (r: seq<Bytes>)
    requires Disjoint(text, ms)
    ensures |r| == |ms|
  {
    seq(|ms|, i requires 0 <= i < |ms| => ReplaceMatch(text[ms[i].from..ms[i].to], p, ms[i].groups))
  }

  /** The text up to the end of the last match, with each match replaced by `parts[i]`. */
  function Assembled(text: Bytes, ms: seq<Match>, parts: seq<Bytes>): Bytes
    requires Disjoint(text, ms) && |parts| == |ms|
  {
    if ms == [] then []
    else
      assert |ms| > 1 ==> ms[|ms| - 2].to <= ms[|ms| - 1].from;
      Assembled(text, Front(ms), Front(parts)) + text[EndOf(Front(ms))..Last(ms).from] + Last(parts)
  }

  lemma {:induction false} AssembledIsInterleaved(text: Bytes, ms: seq<Match>, parts: seq<Bytes>)
    requires Disjoint(text, ms) && |parts| == |ms|
    ensures Interleave(Gaps(text, ms), parts) == Assembled(text, ms, parts) + text[EndOf(ms)..]
  {
    if ms != [] {
      assert |ms| > 1 ==> ms[|ms| - 2].to <= ms[|ms| - 1].from;
      var before, after := Front(Gaps(text, Front(ms))), text[Last(ms).to..];
      var gap := text[EndOf(Front(ms))..Last(ms).from];
      AssembledIsInterleaved(text, Front(ms), Front(parts));
      assert Front(Gaps(text, ms)) == before + [gap] && Last(Gaps(text, ms)) == after;
      LastGap(text, Front(ms));
      NewLastGap(before, Last(Gaps(text, Front(ms))), gap, Front(parts), Assembled(text, Front(ms), Front(parts)));
    }
  }

  lemma LastGap(text: Bytes, ms: seq<Match>)
    requires Disjoint(text, ms)
    ensures Last(Gaps(text, ms)) == text[EndOf(ms)..]
  {}

  /** Changing the last gap changes only the end. */
  lemma NewLastGap(before: seq<Bytes>, last: Bytes, gap: Bytes, parts: seq<Bytes>, lead: Bytes)
    requires |before| == |parts|
    requires Interleave(before + [last], parts) == lead + last
    ensures Interleave(before + [gap], parts) == lead + gap
  {
    if parts != [] {
      FrontLast(before, last);
      FrontLast(before, gap);
      var x := Interleave(before, Front(parts)) + Last(parts);
      assert x + last == lead + last;
      assert |x| == |lead|;
      assert x == (x + last)[..|x|] == (lead + last)[..|lead|] == lead;
    } else {
      assert [] + last == lead + last;
      assert |lead| == 0;
      assert before == [];
    }
  }

  lemma {:induction false} AssembledMatches(text: Bytes, ms: seq<Match>)
    requires Disjoint(text, ms)
    ensures EndOf(ms) <= |text| && Assembled(text, ms, Matched(text, ms)) == text[..EndOf(ms)]
  {
    if ms != [] {
      assert |ms| > 1 ==> ms[|ms| - 2].to <= ms[|ms| - 1].from;
      AssembledMatches(text, Front(ms));
      assert Front(Matched(text, ms)) == Matched(text, Front(ms));
      Slices(text, EndOf(Front(ms)), Last(ms).from, Last(ms).to);
    }
  }

  lemma Slices(text: Bytes, e: nat, a: nat, b: nat)
    requires e <= a <= b <= |text|
    ensures text[..e] + text[e..a] + text[a..b] == text[..b]
    ensures text[..e] + text[e..] == text
  {}

  lemma {:induction false} AssembledReplacements(text: Bytes, ms: seq<Match>, p: Pattern)
    requires Disjoint(text, ms)
    ensures Assembled(text, ms, Replaced(text, ms, p)) == MaskedPrefix(text, ms, p)
  {
    if ms != [] {
      AssembledReplacements(text, Front(ms), p);
      assert Front(Replaced(text, ms, p)) == Replaced(text, Front(ms), p);
    }
  }

  /** The input is its gaps interleaved with its matches; the output is the same gaps, in the
      same order, interleaved with one replacement for each match. */
  lemma MaskingKeepsGaps(text: Bytes, ms: seq<Match>, p: Pattern)
    requires Disjoint(text, ms)
    ensures text == Interleave(Gaps(text, ms), Matched(text, ms))
    ensures Masked(text, ms, p) == Interleave(Gaps(text, ms), Replaced(text, ms, p))
  {
    AssembledIsInterleaved(text, ms, Matched(text, ms));
    AssembledIsInterleaved(text, ms, Replaced(text, ms, p));
    AssembledMatches(text, ms);
    AssembledReplacements(text, ms, p);
    Slices(text, EndOf(ms), |text|, |text|);
  }

  lemma {:induction false} FullyReplaced(text: Bytes, ms: seq<Match>, p: Pattern)
    requires Disjoint(text, ms) && FullyMasks(p) && '$' !in p.mask
    ensures Replaced(text, ms, p) == seq(|ms|, _ => p.mask)
  {
    forall i | 0 <= i < |ms| ensures Replaced(text, ms, p)[i] == p.mask {
      PlainMaskIsConstant(p.mask, ms[i].groups, 0);
    }
  }

  /** A full mask without a dollar sign stands in the output in place of every match. */
  lemma FullMaskHides(text: Bytes, ms: seq<Match>, p: Pattern)
    requires Disjoint(text, ms) && FullyMasks(p) && '$' !in p.mask
    ensures Masked(text, ms, p) == Interleave(Gaps(text, ms), seq(|ms|, _ => p.mask))
  {
    MaskingKeepsGaps(text, ms, p);
    FullyReplaced(text, ms, p);
  }

  // ---------- Partial masks ----------

  predicate ShowsNonNegative(p: Pattern) {
    && p.partial.Some? && p.partial.value.showFirst >= 0 && p.partial.value.showLast >= 0
    && (p.partial.value.showFirst > 0 || p.partial.value.showLast > 0)
  }

  /** A partially masked match keeps its length exactly when neither show count is negative. */
  lemma PartialLengthIff(m: Bytes, p: Pattern, groups: seq<Bytes>)
    requires IsPartial(p)
    ensures |ReplaceMatch(m, p, groups)| == |m| <==> ShowsNonNegative(p)
  {
    var pm := p.partial.value;
    assert pm.showFirst < 0 ==> |PartlyMasked(m, pm)| == |m| - pm.showFirst;
    assert pm.showLast < 0 ==> |PartlyMasked(m, pm)| == |m| - pm.showLast;
  }

  /** Byte k of a match is hidden iff it lies past the first showFirst and before the last showLast. */
  lemma PartialAt(m: Bytes, p: Pattern, groups: seq<Bytes>, k: nat)
    requires ShowsNonNegative(p) && k < |m|
    ensures |ReplaceMatch(m, p, groups)| == |m|
    ensures var pm := p.partial.value;
            ReplaceMatch(m, p, groups)[k] == if pm.showFirst <= k < |m| - pm.showLast then pm.filler else m[k]
  {
    PartialLengthIff(m, p, groups);
  }

  function Shown(count: int, limit: nat): nat {
    if count < 0 then 0 else if count > limit then limit else count
  }

  /** With one negative count the other end is shown, all else is hidden, and the text grows by
      what is missing. */
  lemma NegativeShows(m: Bytes, p: Pattern, groups: seq<Bytes>, k: nat)
    requires p.partial.Some?
    requires var pm := p.partial.value; (pm.showFirst < 0 < pm.showLast) || (pm.showLast < 0 < pm.showFirst)
    ensures var pm := p.partial.value;
            var first, last := Shown(pm.showFirst, |m|), Shown(pm.showLast, |m|);
            var r := ReplaceMatch(m, p, groups);
            && |r| == |m| - (if pm.showFirst < 0 then pm.showFirst else pm.showLast)
            && (k < |r| ==>
                  r[k] == if k < first then m[k] else if k < |r| - last then pm.filler else m[|m| - (|r| - k)])
  {}

  /** Byte k of the text is a middle byte of one of the matches. */
  ghost predicate Hidden(ms: seq<Match>, pm: PartialMask, k: int) {
    exists i :: 0 <= i < |ms| && ms[i].from + pm.showFirst <= k < ms[i].to - pm.showLast
  }

  lemma {:induction false} PrefixLength(text: Bytes, ms: seq<Match>, p: Pattern)
    requires Disjoint(text, ms) && ShowsNonNegative(p)
    ensures EndOf(ms) <= |text| && |MaskedPrefix(text, ms, p)| == EndOf(ms)
  {
    if ms != [] {
      assert |ms| > 1 ==> ms[|ms| - 2].to <= ms[|ms| - 1].from;
      PrefixLength(text, Front(ms), p);
      PartialLengthIff(text[Last(ms).from..Last(ms).to], p, Last(ms).groups);
    }
  }

  lemma ThreeParts(whole: Bytes, a: Bytes, b: Bytes, c: Bytes, k: nat)
    requires whole == a + b + c && k < |whole|
    ensures whole[k] == if k < |a| then a[k] else if k < |a| + |b| then b[k - |a|] else c[k - |a| - |b|]
  {}

  /** The last match follows the others. */
  lemma LastMatch(text: Bytes, ms: seq<Match>)
    requires Disjoint(text, ms) && ms != []
    ensures Disjoint(text, Front(ms))
    ensures EndOf(Front(ms)) <= Last(ms).from <= Last(ms).to <= |text|
  {
    assert |ms| > 1 ==> ms[|ms| - 2].to <= ms[|ms| - 1].from;
  }

  lemma PrefixStep(text: Bytes, ms: seq<Match>, p: Pattern)
    requires Disjoint(text, ms) && ShowsNonNegative(p) && ms != []
    ensures Disjoint(text, Front(ms)) && EndOf(Front(ms)) <= Last(ms).from <= Last(ms).to <= |text|
    ensures |MaskedPrefix(text, ms, p)| == EndOf(ms) && |MaskedPrefix(text, Front(ms), p)| == EndOf(Front(ms))
    ensures |ReplaceMatch(text[Last(ms).from..Last(ms).to], p, Last(ms).groups)| == Last(ms).to - Last(ms).from
  {
    LastMatch(text, ms);
    PrefixLength(text, Front(ms), p);
    PrefixLength(text, ms, p);
    PartialLengthIff(text[Last(ms).from..Last(ms).to], p, Last(ms).groups);
  }

  /** Byte k, once it is known which of the three parts it falls in. */
  lemma PrefixParts(text: Bytes, ms: seq<Match>, p: Pattern, k: nat)
    requires Disjoint(text, ms) && ShowsNonNegative(p) && ms != [] && k < EndOf(ms)
    ensures Disjoint(text, Front(ms)) && EndOf(Front(ms)) <= Last(ms).from <= Last(ms).to <= |text|
    ensures |MaskedPrefix(text, ms, p)| == EndOf(ms) && |MaskedPrefix(text, Front(ms), p)| == EndOf(Front(ms))
    ensures |ReplaceMatch(text[Last(ms).from..Last(ms).to], p, Last(ms).groups)| == Last(ms).to - Last(ms).from
    ensures MaskedPrefix(text, ms, p)[k] ==
              if k < EndOf(Front(ms)) then MaskedPrefix(text, Front(ms), p)[k]
              else if k < Last(ms).from then text[k]
              else ReplaceMatch(text[Last(ms).from..Last(ms).to], p, Last(ms).groups)[k - Last(ms).from]
  {
    PrefixStep(text, ms, p);
    ThreeParts(MaskedPrefix(text, ms, p), MaskedPrefix(text, Front(ms), p), text[EndOf(Front(ms))..Last(ms).from],
               ReplaceMatch(text[Last(ms).from..Last(ms).to], p, Last(ms).groups), k);
  }

  lemma {:induction false} PrefixAt(text: Bytes, ms: seq<Match>, p: Pattern, k: nat)
    requires Disjoint(text, ms) && ShowsNonNegative(p) && k < EndOf(ms)
    ensures EndOf(ms) <= |text| && |MaskedPrefix(text, ms, p)| == EndOf(ms)
    ensures MaskedPrefix(text, ms, p)[k] == if Hidden(ms, p.partial.value, k) then p.partial.value.filler else text[k]
  {
    PrefixParts(text, ms, p, k);
    HiddenSplit(ms, p.partial.value, k);
    if k < EndOf(Front(ms)) {
      PrefixAt(text, Front(ms), p, k);
    } else {
      NotHiddenPast(text, Front(ms), p.partial.value, k);
      if Last(ms).from <= k {
        MatchAt(text, Last(ms), p, k);
      }
    }
  }

  lemma MatchAt(text: Bytes, m: Match, p: Pattern, k: nat)
    requires m.from <= k < m.to <= |text| && ShowsNonNegative(p)
    ensures var pm := p.partial.value;
            var r := ReplaceMatch(text[m.from..m.to], p, m.groups);
            |r| == m.to - m.from &&
            r[k - m.from] == if m.from + pm.showFirst <= k < m.to - pm.showLast then pm.filler else text[k]
  {
    PartialAt(text[m.from..m.to], p, m.groups, k - m.from);
  }

  lemma HiddenSplit(ms: seq<Match>, pm: PartialMask, k: int)
    requires ms != []
    ensures Hidden(ms, pm, k) <==>
            Hidden(Front(ms), pm, k) || Last(ms).from + pm.showFirst <= k < Last(ms).to - pm.showLast
  {
    if Hidden(Front(ms), pm, k) {
      var i :| 0 <= i < |Front(ms)| && Front(ms)[i].from + pm.showFirst <= k < Front(ms)[i].to - pm.showLast;
      assert ms[i] == Front(ms)[i];
    }
    if Hidden(ms, pm, k) {
      var i :| 0 <= i < |ms| && ms[i].from + pm.showFirst <= k < ms[i].to - pm.showLast;
      assert i < |ms| - 1 ==> Front(ms)[i] == ms[i];
    }
  }

  lemma NotHiddenPast(text: Bytes, ms: seq<Match>, pm: PartialMask, k: int)
    requires Disjoint(text, ms) && pm.showLast >= 0 && k >= EndOf(ms)
    ensures !Hidden(ms, pm, k)
  {
    assert forall i :: 0 <= i < |ms| - 1 ==> ms[i].to <= ms[|ms| - 1].from <= ms[|ms| - 1].to;
  }

  /** With a partial mask of non-negative show counts the output has the input's length and
      differs from it only at the middle bytes of matches longer than both counts together. */
  lemma PartialMaskIsLocal(text: Bytes, ms: seq<Match>, p: Pattern)
    requires Disjoint(text, ms) && ShowsNonNegative(p)
    ensures var out := Masked(text, ms, p);
            |out| == |text| &&
            forall k :: 0 <= k < |text| ==>
              out[k] == if Hidden(ms, p.partial.value, k) then p.partial.value.filler else text[k]
  {
    var out := Masked(text, ms, p);
    PrefixLength(text, ms, p);
    forall k | 0 <= k < |text|
      ensures out[k] == if Hidden(ms, p.partial.value, k) then p.partial.value.filler else text[k]
    {
      if k < EndOf(ms) {
        PrefixAt(text, ms, p, k);
      } else {
        NotHiddenPast(text, ms, p.partial.value, k);
      }
    }
  }

  // ---------- Several patterns, and JSON ----------

  function AllMasked(text: Bytes, names: seq<string>, patterns: map<string, Pattern>): Bytes
    requires forall n :: n in patterns ==> Finds(patterns[n])
  {
    if names == [] then text
    else
      var before := AllMasked(text, Front(names), patterns);
      if Last(names) in patterns then
        assert Disjoint(before, patterns[Last(names)].find(before));
        Masked(before, patterns[Last(names)].find(before), patterns[Last(names)])
      else before
  }

  method ApplyPatterns(text: Bytes, names: seq<string>, patterns: map<string, Pattern>) returns (r: Bytes)
    requires forall n :: n in patterns ==> Finds(patterns[n])
    ensures r == AllMasked(text, names, patterns)
  {
    r := text;
    for i := 0 to |names|
      invariant r == AllMasked(text, names[..i], patterns)
    {
      assert Front(names[..i + 1]) == names[..i];
      if names[i] in patterns {
        r := ApplyPattern(r, patterns[names[i]]);
      }
    }
    assert names[..|names|] == names;
  }

  /** Fields are applied one after the other, to the result of those before. */
  lemma {:induction false} FieldsCompose(text: Bytes, a: seq<string>, b: seq<string>, patterns: map<string, Pattern>)
    requires forall n :: n in patterns ==> Finds(patterns[n])
    ensures AllMasked(text, a + b, patterns) == AllMasked(AllMasked(text, a, patterns), b, patterns)
    decreases |b|
  {
    if b == [] {
      assert a + b == a;
    } else {
      FieldsCompose(text, a, Front(b), patterns);
      assert Front(a + b) == a + Front(b) && Last(a + b) == Last(b);
    }
  }

  /** A field with a pattern has all its matches replaced. */
  lemma OneField(text: Bytes, name: string, patterns: map<string, Pattern>)
    requires (forall n :: n in patterns ==> Finds(patterns[n])) && name in patterns
    ensures var p := patterns[name];
            && Disjoint(text, p.find(text))
            && AllMasked(text, [name], patterns) ==
               Interleave(Gaps(text, p.find(text)), Replaced(text, p.find(text), p))
  {
    var p := patterns[name];
    assert Finds(p) && Disjoint(text, p.find(text));
    assert Front([name]) == [] && AllMasked(text, [], patterns) == text;
    MaskingKeepsGaps(text, p.find(text), p);
  }

  /** A field without a pattern changes nothing. */
  lemma UnknownField(text: Bytes, name: string, patterns: map<string, Pattern>)
    requires (forall n :: n in patterns ==> Finds(patterns[n])) && name !in patterns
    ensures AllMasked(text, [name], patterns) == text
  {
    assert Front([name]) == [] && AllMasked(text, [], patterns) == text;
  }

  /** Whatever the order of the fields, partial masks keep the length. */
  lemma {:induction false} PartialMasksKeepLength(text: Bytes, names: seq<string>, patterns: map<string, Pattern>)
    requires forall n :: n in patterns ==> Finds(patterns[n]) && ShowsNonNegative(patterns[n])
    ensures |AllMasked(text, names, patterns)| == |text|
  {
    if names != [] {
      PartialMasksKeepLength(text, Front(names), patterns);
      if Last(names) in patterns {
        var before := AllMasked(text, Front(names), patterns);
        assert Disjoint(before, patterns[Last(names)].find(before));
        PartialMaskIsLocal(before, patterns[Last(names)].find(before), patterns[Last(names)]);
      }
    }
  }

  /** Decoded JSON: strings, arrays, objects, and everything else. */
  datatype Value =
    | Text(text: Bytes)
    | List(items: seq<Value>)
    | Object(fields: map<string, Value>)
    | Other(raw: string)

  function Traversed(v: Value, names: seq<string>, patterns: map<string, Pattern>): Value
    requires forall n :: n in patterns ==> Finds(patterns[n])
    decreases v
  {
    match v
    case Text(text) => Text(AllMasked(text, names, patterns))
    case List(items) => List(seq(|items|, i requires 0 <= i < |items| => Traversed(items[i], names, patterns)))
    case Object(fields) => Object(map k | k in fields :: Traversed(fields[k], names, patterns))
    case Other(_) => v
  }

  datatype Step = Index(i: nat) | Key(k: string)

  /** The value at a path of indices and keys. */
  function At(v: Value, path: seq<Step>): Option<Value> {
    if path == [] then Some(v)
    else match path[0]
      case Index(i) => if v.List? && i < |v.items| then At(v.items[i], path[1..]) else None
      case Key(k) => if v.Object? && k in v.fields then At(v.fields[k], path[1..]) else None
  }

  /** Masking a JSON value masks its strings where they stand and changes nothing else. */
  lemma {:induction false} TraversalIsLocal(v: Value, names: seq<string>, patterns: map<string, Pattern>,
                                            path: seq<Step>)
    requires forall n :: n in patterns ==> Finds(patterns[n])
    ensures var before, after := At(v, path), At(Traversed(v, names, patterns), path);
            && (after.Some? <==> before.Some?)
            && (before.Some? ==>
                  match before.value
                  case Text(text) => after.value == Text(AllMasked(text, names, patterns))
                  case List(items) => after.value.List? && |after.value.items| == |items|
                  case Object(fields) => after.value.Object? && after.value.fields.Keys == fields.Keys
                  case Other(_) => after == before)
    decreases |path|
  {
    if path != [] {
      match path[0]
      case Index(i) =>
        if v.List? && i < |v.items| {
          TraversalIsLocal(v.items[i], names, patterns, path[1..]);
        }
      case Key(k) =>
        if v.Object? && k in v.fields {
          TraversalIsLocal(v.fields[k], names, patterns, path[1..]);
        }
    }
  }
}
