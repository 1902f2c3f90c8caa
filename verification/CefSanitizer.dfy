/** internal/audit/sinks/cef.go: sanitizeCEF, eight whole-string replacements in turn. */
module CefSanitizer {
  import opened Basics
  import opened Text

  function Sanitize(s0: Bytes): Bytes {
    var s1 := ReplaceAll(s0, "\\", "\\\\");
    var s2 := ReplaceAll(s1, "|", "\\|");
    var s3 := ReplaceAll(s2, "=", "\\=");
    var s4 := ReplaceAll(s3, ":", "\\:");
    var s5 := ReplaceAll(s4, "\n", "");
    var s6 := ReplaceAll(s5, "\r", "");
    var s7 := ReplaceAll(s6, "\t", "_");
    ReplaceAll(s7, " ", "_")
  }

  // ---------- One pass ----------

  /** What becomes of a single byte. */
  function Escaped(c: char): Bytes {
    if c == '\\' || c == '|' || c == '=' || c == ':' then ['\\', c]
    else if c == '\n' || c == '\r' then []
    else if c == '\t' || c == ' ' then "_"
    else [c]
  }

  function EscapedAll(s: Bytes): Bytes {
    if s == [] then [] else Escaped(s[0]) + EscapedAll(s[1..])
  }

  lemma {:induction false} ReplaceCat(a: Bytes, b: Bytes, from: char, to: Bytes)
    ensures ReplaceAll(a + b, [from], to) == ReplaceAll(a, [from], to) + ReplaceAll(b, [from], to)
    decreases |a|
  {
    if a == [] {
      assert a + b == b;
    } else {
      assert (a + b)[1..] == a[1..] + b;
      assert (a + b)[..1] == a[..1] == [a[0]];
      ReplaceCat(a[1..], b, from, to);
    }
  }

  lemma ReplaceOne(c: char, from: char, to: Bytes)
    ensures ReplaceAll([c], [from], to) == if c == from then to else [c]
  {
    assert [c][..1] == [c];
  }

  lemma SanitizeCat(a: Bytes, b: Bytes)
    ensures Sanitize(a + b) == Sanitize(a) + Sanitize(b)
  {
    ReplaceCat(a, b, '\\', "\\\\");
    var a1, b1 := ReplaceAll(a, "\\", "\\\\"), ReplaceAll(b, "\\", "\\\\");
    ReplaceCat(a1, b1, '|', "\\|");
    var a2, b2 := ReplaceAll(a1, "|", "\\|"), ReplaceAll(b1, "|", "\\|");
    ReplaceCat(a2, b2, '=', "\\=");
    var a3, b3 := ReplaceAll(a2, "=", "\\="), ReplaceAll(b2, "=", "\\=");
    ReplaceCat(a3, b3, ':', "\\:");
    var a4, b4 := ReplaceAll(a3, ":", "\\:"), ReplaceAll(b3, ":", "\\:");
    ReplaceCat(a4, b4, '\n', "");
    var a5, b5 := ReplaceAll(a4, "\n", ""), ReplaceAll(b4, "\n", "");
    ReplaceCat(a5, b5, '\r', "");
    var a6, b6 := ReplaceAll(a5, "\r", ""), ReplaceAll(b5, "\r", "");
    ReplaceCat(a6, b6, '\t', "_");
    var a7, b7 := ReplaceAll(a6, "\t", "_"), ReplaceAll(b6, "\t", "_");
    ReplaceCat(a7, b7, ' ', "_");
  }

  /** A pass over at most two bytes. */
  lemma ReplaceTwo(c: char, d: char, from: char, to: Bytes)
    ensures ReplaceAll([c, d], [from], to) == (if c == from then to else [c]) + (if d == from then to else [d])
  {
    assert [c, d] == [c] + [d];
    ReplaceCat([c], [d], from, to);
    ReplaceOne(c, from, to);
    ReplaceOne(d, from, to);
  }

  /** The passes after `from` leave an escape alone. */
  lemma SanitizeOne(c: char)
    ensures Sanitize([c]) == Escaped(c)
  {
    ReplaceOne(c, '\\', "\\\\");
    var s1 := ReplaceAll([c], "\\", "\\\\");
    assert s1 == if c == '\\' then ['\\', '\\'] else [c];
    PassOver(s1, '|', "\\|");
    var s2 := ReplaceAll(s1, "|", "\\|");
    assert s2 == if c == '|' then ['\\', '|'] else s1;
    PassOver(s2, '=', "\\=");
    var s3 := ReplaceAll(s2, "=", "\\=");
    assert s3 == if c == '=' then ['\\', '='] else s2;
    PassOver(s3, ':', "\\:");
    var s4 := ReplaceAll(s3, ":", "\\:");
    assert s4 == if c == ':' then ['\\', ':'] else s3;
    PassOver(s4, '\n', "");
    var s5 := ReplaceAll(s4, "\n", "");
    assert s5 == if c == '\n' then [] else s4;
    PassOver(s5, '\r', "");
    var s6 := ReplaceAll(s5, "\r", "");
    assert s6 == if c == '\r' then [] else s5;
    PassOver(s6, '\t', "_");
    var s7 := ReplaceAll(s6, "\t", "_");
    assert s7 == if c == '\t' then "_" else s6;
    PassOver(s7, ' ', "_");
  }

  /** One pass over a string of at most two bytes. */
  lemma PassOver(s: Bytes, from: char, to: Bytes)
    requires |s| <= 2
    ensures s == [] ==> ReplaceAll(s, [from], to) == []
    ensures |s| == 1 ==> ReplaceAll(s, [from], to) == if s[0] == from then to else s
    ensures |s| == 2 && s[0] != from && s[1] != from ==> ReplaceAll(s, [from], to) == s
  {
    if |s| == 1 {
      assert s == [s[0]];
      ReplaceOne(s[0], from, to);
    } else if |s| == 2 {
      assert s == [s[0], s[1]];
      ReplaceTwo(s[0], s[1], from, to);
    }
  }

  /** The eight passes are one pass that treats each byte by itself. */
  lemma {:induction false} SanitizeIsOnePass(s: Bytes)
    ensures Sanitize(s) == EscapedAll(s)
    decreases |s|
  {
    if s == [] {
      assert forall from: char, to: Bytes :: ReplaceAll([], [from], to) == [];
    } else {
      assert s == [s[0]] + s[1..];
      SanitizeCat([s[0]], s[1..]);
      SanitizeOne(s[0]);
      SanitizeIsOnePass(s[1..]);
    }
  }

  // ---------- Reading it back ----------

  /** Remove one level of escaping. */
  function Unescaped(s: Bytes): Bytes {
    if s == [] then []
    else if s[0] == '\\' && |s| >= 2 then [s[1]] + Unescaped(s[2..])
    else [s[0]] + Unescaped(s[1..])
  }

  /** The input without line ends, and with tabs and spaces as underscores. */
  function Cleaned(s: Bytes): Bytes {
    if s == [] then []
    else if s[0] == '\n' || s[0] == '\r' then Cleaned(s[1..])
    else [if s[0] == '\t' || s[0] == ' ' then '_' else s[0]] + Cleaned(s[1..])
  }

  /** Read from the left, no delimiter stands outside an escape and no escape is cut off. */
  predicate NoBareDelimiter(s: Bytes) {
    s == [] ||
    if s[0] == '\\' then |s| >= 2 && NoBareDelimiter(s[2..])
    else s[0] != '|' && s[0] != '=' && s[0] != ':' && NoBareDelimiter(s[1..])
  }

  lemma {:induction false} EscapedReadsBack(s: Bytes)
    ensures Unescaped(EscapedAll(s)) == Cleaned(s) && NoBareDelimiter(EscapedAll(s))
    decreases |s|
  {
    if s != [] {
      EscapedReadsBack(s[1..]);
      var e, rest := Escaped(s[0]), EscapedAll(s[1..]);
      assert (e + rest)[|e|..] == rest;
    }
  }

  /** Removing one escape level gives back the cleaned input, and every |, = and : of the
      output is escaped. */
  lemma SanitizeReadsBack(s: Bytes)
    ensures Unescaped(Sanitize(s)) == Cleaned(s) && NoBareDelimiter(Sanitize(s))
  {
    SanitizeIsOnePass(s);
    EscapedReadsBack(s);
  }

  /** No line end, tab or space survives. */
  lemma {:induction false} SanitizeHasNoBlanks(s: Bytes, k: nat)
    requires k < |Sanitize(s)|
    ensures Sanitize(s)[k] !in "\n\r\t "
    decreases |s|
  {
    SanitizeIsOnePass(s);
    var e := Escaped(s[0]);
    if k >= |e| {
      SanitizeIsOnePass(s[1..]);
      SanitizeHasNoBlanks(s[1..], k - |e|);
    }
  }

  /** Two inputs collide exactly when they clean to the same text. */
  lemma SanitizeCollidesIff(a: Bytes, b: Bytes)
    ensures Sanitize(a) == Sanitize(b) <==> Cleaned(a) == Cleaned(b)
  {
    SanitizeReadsBack(a);
    SanitizeReadsBack(b);
    SanitizeOfCleaned(a);
    SanitizeOfCleaned(b);
  }

  lemma {:induction false} SanitizeOfCleaned(s: Bytes)
    ensures Sanitize(Cleaned(s)) == Sanitize(s)
    decreases |s|
  {
    SanitizeIsOnePass(s);
    SanitizeIsOnePass(Cleaned(s));
    if s != [] {
      SanitizeOfCleaned(s[1..]);
      SanitizeIsOnePass(s[1..]);
      SanitizeIsOnePass(Cleaned(s[1..]));
      var c := if s[0] == '\t' || s[0] == ' ' then '_' else s[0];
      assert ([c] + Cleaned(s[1..]))[1..] == Cleaned(s[1..]);
    }
  }
}
