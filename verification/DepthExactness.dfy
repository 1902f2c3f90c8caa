/** What the depth scanner decides about well-formed JSON:
    each walker stops one past its value, and a text passes iff its nesting fits. */
module DepthExactness {
  import opened Basics
  import opened DepthLimit
  import opened JsonGrammar

  /** `part` stands in `data` at index `i`. */
  ghost predicate Holds(data: Bytes, i: nat, part: Bytes) {
    i + |part| <= |data| && forall k {:trigger part[k]} :: 0 <= k < |part| ==> data[i + k] == part[k]
  }

  lemma HoldsCat(data: Bytes, i: nat, a: Bytes, b: Bytes)
    requires Holds(data, i, a + b)
    ensures Holds(data, i, a) && Holds(data, i + |a|, b)
  {
    forall k | 0 <= k < |a| ensures data[i + k] == a[k] {
      assert (a + b)[k] == a[k];
    }
    forall k | 0 <= k < |b| ensures data[i + |a| + k] == b[k] {
      assert (a + b)[|a| + k] == b[k];
    }
  }

  lemma HoldsParts(data: Bytes, i: nat, a: Bytes, b: Bytes, c: Bytes, d: Bytes, e: Bytes)
    requires Holds(data, i, a + b + c + d + e)
    ensures Holds(data, i, a) && Holds(data, i + |a|, b) && Holds(data, i + |a| + |b|, c)
    ensures Holds(data, i + |a| + |b| + |c|, d) && Holds(data, i + |a| + |b| + |c| + |d|, e)
  {
    HoldsCat(data, i, a + b + c + d, e);
    HoldsCat(data, i, a + b + c, d);
    HoldsCat(data, i, a + b, c);
    HoldsCat(data, i, a, b);
  }

  // ---------- Lexical parts ----------

  lemma {:induction false} SkipsWs(data: Bytes, i: nat, ws: Bytes)
    requires Holds(data, i, ws) && AllWs(ws)
    ensures WsEnd(data, i) == WsEnd(data, i + |ws|)
    decreases |ws|
  {
    if ws != [] {
      assert ws[0] == data[i + 0];
      assert ws == ws[..1] + ws[1..];
      HoldsCat(data, i, ws[..1], ws[1..]);
      SkipsWs(data, i + 1, ws[1..]);
    }
  }

  /** A body that skipString walks over without stopping. */
  predicate Skippable(s: Bytes) {
    s == [] ||
    if s[0] == '\\' then |s| >= 2 && Skippable(s[2..]) else s[0] != '"' && Skippable(s[1..])
  }

  lemma {:induction false} StringBodyIsSkippable(s: Bytes)
    requires IsStringBody(s)
    ensures Skippable(s)
  {
    if s == [] {
    } else if s[0] != '\\' {
      StringBodyIsSkippable(s[1..]);
    } else if s[1] != 'u' {
      StringBodyIsSkippable(s[2..]);
    } else {
      StringBodyIsSkippable(s[6..]);
      var t := s[2..];
      assert t[4..] == s[6..] && t[3..][1..] == t[4..] && t[2..][1..] == t[3..] && t[1..][1..] == t[2..];
      assert Skippable(t[3..]) && Skippable(t[2..]) && Skippable(t[1..]);
    }
  }

  lemma {:induction false} SkipsString(data: Bytes, i: nat, body: Bytes)
    requires Skippable(body) && Holds(data, i, body) && At(data, i + |body|, '"')
    ensures StringEnd(data, i) == Scan(i + |body| + 1, true)
    decreases |body|
  {
    if body != [] {
      var n := if body[0] == '\\' then 2 else 1;
      assert body[0] == data[i + 0];
      assert body == body[..n] + body[n..];
      HoldsCat(data, i, body[..n], body[n..]);
      SkipsString(data, i + n, body[n..]);
    }
  }

  /** No byte of a number or literal ends the scan, and none opens a container or a string. */
  predicate PlainByte(b: char) {
    !EndsScalar(b) && b != '[' && b != '{' && b != '"'
  }

  predicate Plain(s: Bytes) {
    forall k :: 0 <= k < |s| ==> PlainByte(s[k])
  }

  lemma {:induction false} DigitsArePlain(s: Bytes, k: nat)
    requires k < DigitCount(s)
    ensures PlainByte(s[k])
  {
    if k > 0 {
      DigitsArePlain(s[1..], k - 1);
    }
  }

  lemma ExpIsPlain(s: Bytes, k: nat)
    requires IsExp(s) && k < |s|
    ensures PlainByte(s[k])
  {
    var m := if |s| > 1 && (s[1] == '+' || s[1] == '-') then 2 else 1;
    if k >= m {
      DigitsArePlain(s[m..], k - m);
    }
  }

  lemma FracExpIsPlain(s: Bytes, k: nat)
    requires IsFracExp(s) && k < |s|
    ensures PlainByte(s[k])
  {
    if s[0] == '.' {
      var n := DigitCount(s[1..]);
      if 1 <= k < 1 + n {
        DigitsArePlain(s[1..], k - 1);
      } else if k > n {
        ExpIsPlain(s[1 + n..], k - 1 - n);
      }
    } else {
      ExpIsPlain(s, k);
    }
  }

  lemma NumberIsPlain(s: Bytes)
    requires IsNumber(s)
    ensures s != [] && Plain(s)
  {
    var m := if s != [] && s[0] == '-' then 1 else 0;
    var u := s[m..];
    var n := DigitCount(u);
    forall k | 0 <= k < |s| ensures PlainByte(s[k]) {
      if m <= k < m + n {
        DigitsArePlain(u, k - m);
      } else if k >= m + n {
        FracExpIsPlain(u[n..], k - m - n);
      }
    }
  }

  /** What may follow a value inside a container, or the end of the input. */
  predicate Delimited(data: Bytes, i: nat) {
    i < |data| ==> EndsScalar(data[i])
  }

  lemma {:induction false} SkipsScalar(data: Bytes, i: nat, s: Bytes)
    requires Plain(s) && Holds(data, i, s) && Delimited(data, i + |s|)
    ensures ScalarEnd(data, i) == i + |s|
    decreases |s|
  {
    if s != [] {
      assert s[0] == data[i + 0];
      assert s == s[..1] + s[1..];
      HoldsCat(data, i, s[..1], s[1..]);
      SkipsScalar(data, i + 1, s[1..]);
    }
  }

  // ---------- Values ----------

  /** A walker either stops just past a part of length `n`, or fails: exactly as it fits. */
  predicate Exact(r: Scan, start: nat, n: nat, fits: bool) {
    if fits then r == Scan(start + n, true) else !r.ok
  }

  /** The first byte of a rendering is neither whitespace nor a closing bracket. */
  lemma RenderStarts(d: Doc)
    requires WellFormed(d)
    ensures Render(d) != [] && !IsWs(Render(d)[0]) && Render(d)[0] != ']' && Render(d)[0] != '}'
    ensures d.Leaf? ==> Render(d)[0] != '[' && Render(d)[0] != '{' && Nesting(d.value) == 0
  {
    if d.Leaf? && d.value.Number? {
      NumberIsPlain(d.value.digits);
    }
  }

  lemma TextExact(data: Bytes, i: nat, body: Bytes, depth: nat, maxDepth: nat)
    requires IsStringBody(body) && Holds(data, i, "\"" + body + "\"") && depth <= maxDepth
    ensures ValueEnd(data, i, depth, maxDepth) == Scan(i + |body| + 2, true)
  {
    HoldsQuoted(data, i, body);
    StringBodyIsSkippable(body);
    SkipsString(data, i + 1, body);
  }

  lemma HoldsQuoted(data: Bytes, i: nat, body: Bytes)
    requires Holds(data, i, "\"" + body + "\"")
    ensures At(data, i, '"') && Holds(data, i + 1, body) && At(data, i + 1 + |body|, '"')
  {
    HoldsCat(data, i, "\"" + body, "\"");
    HoldsCat(data, i, "\"", body);
    assert "\""[0] == data[i + 0] && "\""[0] == data[i + 1 + |body| + 0];
  }

  lemma LeafExact(data: Bytes, i: nat, v: Json, depth: nat, maxDepth: nat)
    requires WellFormed(Leaf(v)) && Holds(data, i, RenderLeaf(v)) && Delimited(data, i + |RenderLeaf(v)|)
    requires depth <= maxDepth
    ensures ValueEnd(data, i, depth, maxDepth) == Scan(i + |RenderLeaf(v)|, true)
  {
    if v.Text? {
      TextExact(data, i, v.body, depth, maxDepth);
    } else {
      RenderStarts(Leaf(v));
      assert RenderLeaf(v)[0] == data[i + 0];
      if v.Number? {
        NumberIsPlain(v.digits);
      }
      SkipsScalar(data, i, RenderLeaf(v));
    }
  }

  /** walkValue stops just past a rendered value iff the value fits. */
  lemma {:induction false} ValueExact(data: Bytes, i: nat, d: Doc, depth: nat, maxDepth: nat)
    requires WellFormed(d) && Holds(data, i, Render(d)) && Delimited(data, i + |Render(d)|) && depth <= maxDepth
    ensures Exact(ValueEnd(data, i, depth, maxDepth),
                  i, |Render(d)|, depth + Nesting(ValueOf(d)) <= maxDepth)
    decreases d, 1
  {
    RenderStarts(d);
    assert Render(d)[0] == data[i + 0];
    match d
    case Leaf(v) => LeafExact(data, i, v, depth, maxDepth);
    case ArrayDoc(gap, items) =>
      HoldsBracketed(data, i, "[", ArrayInner(gap, items), "]");
      ArrayExact(data, i + 1, gap, items, depth + 1, maxDepth);
    case ObjectDoc(gap, fields) =>
      HoldsBracketed(data, i, "{", ObjectInner(gap, fields), "}");
      ObjectExact(data, i + 1, gap, fields, depth + 1, maxDepth);
  }

  lemma HoldsBracketed(data: Bytes, i: nat, open: Bytes, inner: Bytes, close: Bytes)
    requires Holds(data, i, open + inner + close) && |open| == |close| == 1
    ensures Holds(data, i + 1, inner) && At(data, i + 1 + |inner|, close[0])
  {
    HoldsCat(data, i, open + inner, close);
    HoldsCat(data, i, open, inner);
    assert close[0] == data[i + 1 + |inner| + 0];
  }

  /** walkArray starts just past the opening bracket and stops just past the closing one. */
  lemma {:induction false} ArrayExact(data: Bytes, i: nat, gap: Bytes, items: Items, depth: nat, maxDepth: nat)
    requires AllWs(gap) && WellFormedItems(items)
    requires Holds(data, i, ArrayInner(gap, items)) && At(data, i + |ArrayInner(gap, items)|, ']')
    ensures Exact(ArrayEnd(data, i, depth, maxDepth),
                  i, |ArrayInner(gap, items)| + 1, depth + MaxNesting(ValuesOf(items)) <= maxDepth)
    decreases items, 2
  {
    if depth <= maxDepth {
      match items
      case NoItems => SkipsWs(data, i, gap);
      case Item(_, _, _, _) =>
        ItemsOpen(data, i, items, depth, maxDepth);
        ItemsExact(data, i, items, depth, maxDepth);
    }
  }

  lemma {:induction false} ItemsOpen(data: Bytes, i: nat, items: Items, depth: nat, maxDepth: nat)
    requires items.Item? && WellFormedItems(items) && depth <= maxDepth
    requires Holds(data, i, RenderItems(items)) && At(data, i + |RenderItems(items)|, ']')
    ensures ArrayEnd(data, i, depth, maxDepth) == ItemsEnd(data, i, depth, maxDepth)
    decreases items, 1
  {
    FirstItem(data, i, items, depth, maxDepth);
    ArrayOpens(data, i, i + |items.before|, depth, maxDepth);
  }

  /** A non-empty array enters the loop. */
  lemma ArrayOpens(data: Bytes, i: nat, j: nat, depth: nat, maxDepth: nat)
    requires i <= |data| && j <= |data| && WsEnd(data, i) == WsEnd(data, j) == j && depth <= maxDepth
    requires !At(data, j, ']')
    ensures ArrayEnd(data, i, depth, maxDepth) == ItemsEnd(data, i, depth, maxDepth)
  {}

  /** One iteration of walkArray's loop. */
  lemma ItemsStep(data: Bytes, i: nat, j: nat, n: nat, fits: bool, e: nat, depth: nat, maxDepth: nat)
    requires i <= |data| && WsEnd(data, i) == j && j + n <= |data|
    requires Exact(ValueEnd(data, j, depth, maxDepth), j, n, fits)
    requires WsEnd(data, j + n) == e < |data|
    ensures !fits ==> !ItemsEnd(data, i, depth, maxDepth).ok
    ensures fits && data[e] == ']' ==> ItemsEnd(data, i, depth, maxDepth) == Scan(e + 1, true)
    ensures fits && data[e] == ',' ==> ItemsEnd(data, i, depth, maxDepth) == ItemsEnd(data, e + 1, depth, maxDepth)
  {}

  /** One value between whitespace: where it is found, where it ends, what comes next. */
  lemma {:induction false} ElementExact(data: Bytes, i: nat, before: Bytes, d: Doc, after: Bytes,
                                        depth: nat, maxDepth: nat)
    requires AllWs(before) && WellFormed(d) && AllWs(after) && depth <= maxDepth
    requires Holds(data, i, before) && Holds(data, i + |before|, Render(d))
    requires Holds(data, i + |before| + |Render(d)|, after)
    requires var e := i + |before| + |Render(d)| + |after|; e < |data| && !IsWs(data[e]) && EndsScalar(data[e])
    ensures var j := i + |before|;
            && WsEnd(data, i) == j && WsEnd(data, j) == j && !At(data, j, ']')
            && Exact(ValueEnd(data, j, depth, maxDepth), j, |Render(d)|, depth + Nesting(ValueOf(d)) <= maxDepth)
            && WsEnd(data, j + |Render(d)|) == j + |Render(d)| + |after|
    decreases d, 2
  {
    RenderStarts(d);
    var j := i + |before|;
    assert Render(d)[0] == data[j + 0];
    SkipsWs(data, i, before);
    SkipsWs(data, j + |Render(d)|, after);
    assert after != [] ==> after[0] == data[j + |Render(d)| + 0];
    ValueExact(data, j, d, depth, maxDepth);
  }

  /** A value between whitespace and before a delimiter, with its places given. */
  lemma {:induction false} ElementAt(data: Bytes, h: nat, j: nat, k: nat, e: nat, gap: Bytes, d: Doc, after: Bytes,
                                     depth: nat, maxDepth: nat)
    requires AllWs(gap) && WellFormed(d) && AllWs(after) && depth <= maxDepth
    requires j == h + |gap| && k == j + |Render(d)| && e == k + |after|
    requires Holds(data, h, gap) && Holds(data, j, Render(d)) && Holds(data, k, after)
    requires e < |data| && !IsWs(data[e]) && EndsScalar(data[e])
    ensures WsEnd(data, h) == j && WsEnd(data, j) == j && WsEnd(data, k) == e
    ensures Exact(ValueEnd(data, j, depth, maxDepth), j, k - j, depth + Nesting(ValueOf(d)) <= maxDepth)
    decreases d, 3
  {
    ElementExact(data, h, gap, d, after, depth, maxDepth);
  }

  /** Just past the comma or bracket that follows the first element. */
  function NextItem(start: nat, items: Items): nat
    requires items.Item?
  {
    start + |items.before| + |Render(items.item)| + |items.after| + 1
  }

  lemma HoldsItem(data: Bytes, i: nat, items: Items)
    requires items.Item? && Holds(data, i, RenderItems(items))
    ensures Holds(data, i, items.before) && Holds(data, i + |items.before|, Render(items.item))
    ensures Holds(data, i + |items.before| + |Render(items.item)|, items.after)
    ensures Holds(data, NextItem(i, items) - 1, MoreItems(items.rest))
  {
    var a, b, c := items.before, Render(items.item), items.after;
    HoldsCat(data, i, a + b + c, MoreItems(items.rest));
    HoldsCat(data, i, a + b, c);
    HoldsCat(data, i, a, b);
  }

  lemma AfterItem(data: Bytes, i: nat, items: Items)
    requires items.Item? && At(data, i + |RenderItems(items)|, ']')
    requires Holds(data, NextItem(i, items) - 1, MoreItems(items.rest))
    ensures At(data, NextItem(i, items) - 1, if items.rest.NoItems? then ']' else ',')
    ensures items.rest.Item? ==> Holds(data, NextItem(i, items), RenderItems(items.rest))
  {
    ItemsUnfold(items);
    if items.rest.Item? {
      HoldsComma(data, NextItem(i, items) - 1, RenderItems(items.rest));
    }
  }

  /** The elements after the first: where they stand and how deep they nest. */
  lemma OtherItems(data: Bytes, i: nat, items: Items)
    requires items.Item? && Holds(data, i, RenderItems(items)) && At(data, i + |RenderItems(items)|, ']')
    ensures MaxNesting(ValuesOf(items)) == Max(Nesting(ValueOf(items.item)), MaxNesting(ValuesOf(items.rest)))
    ensures i + |RenderItems(items)| ==
            if items.rest.NoItems? then NextItem(i, items) - 1 else NextItem(i, items) + |RenderItems(items.rest)|
    ensures items.rest.Item? ==> Holds(data, NextItem(i, items), RenderItems(items.rest))
    ensures items.rest.Item? ==> At(data, NextItem(i, items) + |RenderItems(items.rest)|, ']')
  {
    HoldsItem(data, i, items);
    AfterItem(data, i, items);
    ItemsUnfold(items);
  }

  /** The first element: the loop fails, finishes, or goes on at the next element. */
  lemma {:induction false} FirstItem(data: Bytes, i: nat, items: Items, depth: nat, maxDepth: nat)
    requires items.Item? && WellFormedItems(items) && depth <= maxDepth
    requires Holds(data, i, RenderItems(items)) && At(data, i + |RenderItems(items)|, ']')
    ensures var j := i + |items.before|;
            var next := NextItem(i, items);
            var fits := depth + Nesting(ValueOf(items.item)) <= maxDepth;
            var r := ItemsEnd(data, i, depth, maxDepth);
            && j <= |data| && WsEnd(data, i) == j && WsEnd(data, j) == j && !At(data, j, ']')
            && (!fits ==> !r.ok)
            && (fits && items.rest.NoItems? ==> r == Scan(next, true))
            && (fits && items.rest.Item? ==> next <= |data| && r == ItemsEnd(data, next, depth, maxDepth))
    decreases items, 0
  {
    var j, k, e := i + |items.before|, i + |items.before| + |Render(items.item)|, NextItem(i, items) - 1;
    HoldsItem(data, i, items);
    AfterItem(data, i, items);
    RenderStarts(items.item);
    assert Render(items.item)[0] == data[j + 0];
    ElementAt(data, i, j, k, e, items.before, items.item, items.after, depth, maxDepth);
    ItemsStep(data, i, j, k - j, depth + Nesting(ValueOf(items.item)) <= maxDepth, e, depth, maxDepth);
  }

  /** A walk over one part goes on over the others: it is exact on both together. */
  lemma ExactChain(r: Scan, others: Scan, i: nat, n: nat, next: nat, m: nat,
                   depth: nat, first: nat, rest: nat, maxDepth: nat)
    requires i + n == next + m && (depth + first <= maxDepth ==> r == others) && (depth + first > maxDepth ==> !r.ok)
    requires Exact(others, next, m, depth + rest <= maxDepth)
    ensures Exact(r, i, n, depth + Max(first, rest) <= maxDepth)
  {}

  lemma {:induction false} ItemsExact(data: Bytes, i: nat, items: Items, depth: nat, maxDepth: nat)
    requires items.Item? && WellFormedItems(items) && depth <= maxDepth
    requires Holds(data, i, RenderItems(items)) && At(data, i + |RenderItems(items)|, ']')
    ensures Exact(ItemsEnd(data, i, depth, maxDepth),
                  i, |RenderItems(items)| + 1, depth + MaxNesting(ValuesOf(items)) <= maxDepth)
    decreases items, 1
  {
    FirstItem(data, i, items, depth, maxDepth);
    OtherItems(data, i, items);
    if items.rest.Item? {
      var next := NextItem(i, items);
      ItemsExact(data, next, items.rest, depth, maxDepth);
      ExactChain(ItemsEnd(data, i, depth, maxDepth), ItemsEnd(data, next, depth, maxDepth),
                 i, |RenderItems(items)| + 1, next, |RenderItems(items.rest)| + 1,
                 depth, Nesting(ValueOf(items.item)), MaxNesting(ValuesOf(items.rest)), maxDepth);
    }
  }

  lemma ItemsUnfold(items: Items)
    requires items.Item?
    ensures MaxNesting(ValuesOf(items)) == Max(Nesting(ValueOf(items.item)), MaxNesting(ValuesOf(items.rest)))
    ensures |RenderItems(items)| ==
            |items.before| + |Render(items.item)| + |items.after| +
            if items.rest.NoItems? then 0 else 1 + |RenderItems(items.rest)|
  {
    assert ValuesOf(items) == [ValueOf(items.item)] + ValuesOf(items.rest);
  }

  lemma {:induction false} ObjectExact(data: Bytes, i: nat, gap: Bytes, fields: Fields, depth: nat, maxDepth: nat)
    requires AllWs(gap) && WellFormedFields(fields)
    requires Holds(data, i, ObjectInner(gap, fields)) && At(data, i + |ObjectInner(gap, fields)|, '}')
    ensures Exact(ObjectEnd(data, i, depth, maxDepth),
                  i, |ObjectInner(gap, fields)| + 1, depth + MaxMemberNesting(MembersOf(fields)) <= maxDepth)
    decreases fields, 3
  {
    if depth <= maxDepth {
      match fields
      case NoFields => SkipsWs(data, i, gap);
      case Field(_, _, _, _, _, _, _) =>
        FieldsOpen(data, i, fields, depth, maxDepth);
        FieldsExact(data, i, fields, depth, maxDepth);
    }
  }

  lemma {:induction false} FieldsOpen(data: Bytes, i: nat, fields: Fields, depth: nat, maxDepth: nat)
    requires fields.Field? && WellFormedFields(fields) && depth <= maxDepth
    requires Holds(data, i, RenderFields(fields)) && At(data, i + |RenderFields(fields)|, '}')
    ensures ObjectEnd(data, i, depth, maxDepth) == FieldsEnd(data, i, depth, maxDepth)
    decreases fields, 2
  {
    FirstField(data, i, fields, depth, maxDepth);
    ObjectOpens(data, i, i + |fields.before|, depth, maxDepth);
  }

  lemma ObjectOpens(data: Bytes, i: nat, j: nat, depth: nat, maxDepth: nat)
    requires i <= |data| && j <= |data| && WsEnd(data, i) == WsEnd(data, j) == j && depth <= maxDepth
    requires !At(data, j, '}')
    ensures ObjectEnd(data, i, depth, maxDepth) == FieldsEnd(data, i, depth, maxDepth)
  {}

  lemma ValueAfterWs(data: Bytes, h: nat, j: nat, depth: nat, maxDepth: nat)
    requires h <= |data| && j <= |data| && WsEnd(data, h) == WsEnd(data, j) && depth <= maxDepth
    ensures ValueEnd(data, h, depth, maxDepth) == ValueEnd(data, j, depth, maxDepth)
  {}

  lemma FieldsFail(data: Bytes, i: nat, h: nat, depth: nat, maxDepth: nat)
    requires i <= |data| && h <= |data| && KeyEnd(data, WsEnd(data, i)) == Scan(h, true)
    requires !ValueEnd(data, h, depth, maxDepth).ok
    ensures !FieldsEnd(data, i, depth, maxDepth).ok
  {}

  lemma FieldsClose(data: Bytes, i: nat, h: nat, k: nat, depth: nat, maxDepth: nat)
    requires i <= |data| && h <= |data| && KeyEnd(data, WsEnd(data, i)) == Scan(h, true)
    requires ValueEnd(data, h, depth, maxDepth) == Scan(k, true) && At(data, WsEnd(data, k), '}')
    ensures FieldsEnd(data, i, depth, maxDepth) == Scan(WsEnd(data, k) + 1, true)
  {}

  /** One iteration of walkObject's loop. */
  lemma FieldsStep(data: Bytes, i: nat, h: nat, j: nat, n: nat, fits: bool, e: nat, depth: nat, maxDepth: nat)
    requires i <= |data| && h <= |data| && KeyEnd(data, WsEnd(data, i)) == Scan(h, true)
    requires j + n <= |data| && WsEnd(data, h) == WsEnd(data, j) == j && depth <= maxDepth
    requires Exact(ValueEnd(data, j, depth, maxDepth), j, n, fits)
    requires WsEnd(data, j + n) == e < |data|
    ensures !fits ==> !FieldsEnd(data, i, depth, maxDepth).ok
    ensures fits && data[e] == '}' ==> FieldsEnd(data, i, depth, maxDepth) == Scan(e + 1, true)
    ensures fits && data[e] == ',' ==> FieldsEnd(data, i, depth, maxDepth) == FieldsEnd(data, e + 1, depth, maxDepth)
  {
    ValueAfterWs(data, h, j, depth, maxDepth);
    if !fits {
      FieldsFail(data, i, h, depth, maxDepth);
    } else if data[e] == '}' {
      FieldsClose(data, i, h, j + n, depth, maxDepth);
    } else if data[e] == ',' {
      FieldsContinue(data, i, Scan(h, true), Scan(j + n, true), e, depth, maxDepth);
    }
  }

  lemma KeyExact(data: Bytes, i: nat, before: Bytes, key: Bytes, beforeColon: Bytes)
    requires AllWs(before) && IsStringBody(key) && AllWs(beforeColon)
    requires Holds(data, i, RenderKey(before, key, beforeColon))
    ensures var j := i + |before|;
            WsEnd(data, i) == j && WsEnd(data, j) == j && !At(data, j, '}')
    ensures KeyEnd(data, WsEnd(data, i)) == Scan(i + |RenderKey(before, key, beforeColon)|, true)
  {
    var quoted := "\"" + key + "\"";
    var j := i + |before|;
    var c := j + |quoted|;
    HoldsCat(data, i, before + quoted + beforeColon, ":");
    HoldsCat(data, i, before + quoted, beforeColon);
    HoldsCat(data, i, before, quoted);
    HoldsQuoted(data, j, key);
    assert ":"[0] == data[c + |beforeColon| + 0];
    SkipsWs(data, i, before);
    StringBodyIsSkippable(key);
    SkipsString(data, j + 1, key);
    SkipsWs(data, c, beforeColon);
  }

  /** Where the first member's parts end: its key and colon, the gap, the value, and the comma or
      bracket that follows it. */
  function AfterKey(start: nat, fields: Fields): nat
    requires fields.Field?
  {
    start + |RenderKey(fields.before, fields.key, fields.beforeColon)|
  }

  function AfterGap(start: nat, fields: Fields): nat
    requires fields.Field?
  {
    AfterKey(start, fields) + |fields.afterColon|
  }

  function AfterValue(start: nat, fields: Fields): nat
    requires fields.Field?
  {
    AfterGap(start, fields) + |Render(fields.item)|
  }

  function NextField(start: nat, fields: Fields): nat
    requires fields.Field?
  {
    AfterValue(start, fields) + |fields.after| + 1
  }

  lemma HoldsField(data: Bytes, i: nat, fields: Fields)
    requires fields.Field? && Holds(data, i, RenderFields(fields))
    ensures Holds(data, i, RenderKey(fields.before, fields.key, fields.beforeColon))
    ensures Holds(data, AfterKey(i, fields), fields.afterColon)
    ensures Holds(data, AfterGap(i, fields), Render(fields.item))
    ensures Holds(data, AfterValue(i, fields), fields.after)
    ensures Holds(data, NextField(i, fields) - 1, MoreFields(fields.rest))
  {
    HoldsParts(data, i, RenderKey(fields.before, fields.key, fields.beforeColon), fields.afterColon,
               Render(fields.item), fields.after, MoreFields(fields.rest));
  }

  lemma AfterField(data: Bytes, i: nat, fields: Fields)
    requires fields.Field? && At(data, i + |RenderFields(fields)|, '}')
    requires Holds(data, NextField(i, fields) - 1, MoreFields(fields.rest))
    ensures At(data, NextField(i, fields) - 1, if fields.rest.NoFields? then '}' else ',')
    ensures fields.rest.Field? ==> Holds(data, NextField(i, fields), RenderFields(fields.rest))
  {
    FieldsUnfold(fields);
    if fields.rest.Field? {
      HoldsComma(data, NextField(i, fields) - 1, RenderFields(fields.rest));
    }
  }

  lemma HoldsComma(data: Bytes, i: nat, others: Bytes)
    requires Holds(data, i, "," + others)
    ensures At(data, i, ',') && Holds(data, i + 1, others)
  {
    HoldsCat(data, i, ",", others);
    assert ","[0] == data[i + 0];
  }

  /** The first member: the loop fails, finishes, or goes on at the next member. */
  lemma {:induction false} FirstField(data: Bytes, i: nat, fields: Fields, depth: nat, maxDepth: nat)
    requires fields.Field? && WellFormedFields(fields) && depth <= maxDepth
    requires Holds(data, i, RenderFields(fields)) && At(data, i + |RenderFields(fields)|, '}')
    ensures var j := i + |fields.before|;
            var next := NextField(i, fields);
            var fits := depth + Nesting(ValueOf(fields.item)) <= maxDepth;
            var r := FieldsEnd(data, i, depth, maxDepth);
            && j <= |data| && WsEnd(data, i) == j && WsEnd(data, j) == j && !At(data, j, '}')
            && (!fits ==> !r.ok)
            && (fits && fields.rest.NoFields? ==> r == Scan(next, true))
            && (fits && fields.rest.Field? ==> next <= |data| && r == FieldsEnd(data, next, depth, maxDepth))
    decreases fields, 1
  {
    var h, j, k, e := AfterKey(i, fields), AfterGap(i, fields), AfterValue(i, fields), NextField(i, fields) - 1;
    HoldsField(data, i, fields);
    AfterField(data, i, fields);
    KeyExact(data, i, fields.before, fields.key, fields.beforeColon);
    ElementAt(data, h, j, k, e, fields.afterColon, fields.item, fields.after, depth, maxDepth);
    FieldsStep(data, i, h, j, k - j, depth + Nesting(ValueOf(fields.item)) <= maxDepth, e, depth, maxDepth);
  }

  lemma {:induction false} FieldsExact(data: Bytes, i: nat, fields: Fields, depth: nat, maxDepth: nat)
    requires fields.Field? && WellFormedFields(fields) && depth <= maxDepth
    requires Holds(data, i, RenderFields(fields)) && At(data, i + |RenderFields(fields)|, '}')
    ensures Exact(FieldsEnd(data, i, depth, maxDepth),
                  i, |RenderFields(fields)| + 1, depth + MaxMemberNesting(MembersOf(fields)) <= maxDepth)
    decreases fields, 2
  {
    FirstField(data, i, fields, depth, maxDepth);
    OtherFields(data, i, fields);
    if fields.rest.Field? {
      var next := NextField(i, fields);
      FieldsExact(data, next, fields.rest, depth, maxDepth);
      ExactChain(FieldsEnd(data, i, depth, maxDepth), FieldsEnd(data, next, depth, maxDepth),
                 i, |RenderFields(fields)| + 1, next, |RenderFields(fields.rest)| + 1,
                 depth, Nesting(ValueOf(fields.item)), MaxMemberNesting(MembersOf(fields.rest)), maxDepth);
    }
  }

  /** The members after the first: where they stand and how deep they nest. */
  lemma OtherFields(data: Bytes, i: nat, fields: Fields)
    requires fields.Field? && Holds(data, i, RenderFields(fields)) && At(data, i + |RenderFields(fields)|, '}')
    ensures MaxMemberNesting(MembersOf(fields)) ==
            Max(Nesting(ValueOf(fields.item)), MaxMemberNesting(MembersOf(fields.rest)))
    ensures i + |RenderFields(fields)| ==
            if fields.rest.NoFields? then NextField(i, fields) - 1
            else NextField(i, fields) + |RenderFields(fields.rest)|
    ensures fields.rest.Field? ==> Holds(data, NextField(i, fields), RenderFields(fields.rest))
    ensures fields.rest.Field? ==> At(data, NextField(i, fields) + |RenderFields(fields.rest)|, '}')
  {
    HoldsField(data, i, fields);
    AfterField(data, i, fields);
    FieldsUnfold(fields);
  }

  lemma FieldsUnfold(fields: Fields)
    requires fields.Field?
    ensures MaxMemberNesting(MembersOf(fields)) ==
            Max(Nesting(ValueOf(fields.item)), MaxMemberNesting(MembersOf(fields.rest)))
    ensures |RenderFields(fields)| ==
            |RenderKey(fields.before, fields.key, fields.beforeColon)| +
            |fields.afterColon| + |Render(fields.item)| + |fields.after| +
            if fields.rest.NoFields? then 0 else 1 + |RenderFields(fields.rest)|
  {
    assert MembersOf(fields) == [Member(fields.key, ValueOf(fields.item))] + MembersOf(fields.rest);
  }

  // ---------- The decision ----------

  /** Leading whitespace does not matter. */
  lemma CheckAfterWs(lead: Bytes, data: Bytes, limit: nat)
    requires AllWs(lead) && data != [] && !IsWs(data[0])
    ensures Check(lead + data, limit) == Check(data, limit)
  {
    SkipsWs(lead + data, 0, lead);
    assert (lead + data)[|lead|..] == data && data[0..] == data;
  }

  /** A text that starts with a bracket is judged by what follows it. */
  lemma CheckOpens(data: Bytes, limit: nat)
    requires data != [] && (data[0] == '[' || data[0] == '{')
    ensures Check(data, limit) == Accepted <==>
            if data[0] == '[' then ArrayEnd(data, 1, 1, limit).ok else ObjectEnd(data, 1, 1, limit).ok
  {
    assert WsEnd(data, 0) == 0 && data[0..] == data;
  }

  lemma CheckArray(gap: Bytes, items: Items, trail: Bytes, limit: nat)
    requires AllWs(gap) && WellFormedItems(items)
    ensures Check("[" + ArrayInner(gap, items) + "]" + trail, limit) == Accepted <==>
            1 + MaxNesting(ValuesOf(items)) <= limit
  {
    var data := "[" + ArrayInner(gap, items) + "]" + trail;
    HoldsBracketed(data, 0, "[", ArrayInner(gap, items), "]");
    ArrayExact(data, 1, gap, items, 1, limit);
    CheckOpens(data, limit);
  }

  lemma CheckObject(gap: Bytes, fields: Fields, trail: Bytes, limit: nat)
    requires AllWs(gap) && WellFormedFields(fields)
    ensures Check("{" + ObjectInner(gap, fields) + "}" + trail, limit) == Accepted <==>
            1 + MaxMemberNesting(MembersOf(fields)) <= limit
  {
    var data := "{" + ObjectInner(gap, fields) + "}" + trail;
    HoldsBracketed(data, 0, "{", ObjectInner(gap, fields), "}");
    ObjectExact(data, 1, gap, fields, 1, limit);
    CheckOpens(data, limit);
  }

  lemma CheckExact(lead: Bytes, d: Doc, trail: Bytes, limit: nat)
    requires AllWs(lead) && WellFormed(d)
    ensures Check(lead + Render(d) + trail, limit) == Accepted <==> Nesting(ValueOf(d)) <= limit
  {
    var data := Render(d) + trail;
    RenderStarts(d);
    CheckAfterWs(lead, data, limit);
    assert lead + Render(d) + trail == lead + data;
    match d
    case Leaf(v) => assert data[0..] == data;
    case ArrayDoc(gap, items) => CheckArray(gap, items, trail, limit);
    case ObjectDoc(gap, fields) => CheckObject(gap, fields, trail, limit);
  }

  lemma AllWsCons(b: char, rest: Bytes)
    ensures AllWs([b] + rest) <==> IsWs(b) && AllWs(rest)
  {
    var s := [b] + rest;
    assert s[0] == b;
    if AllWs(s) {
      forall k | 0 <= k < |rest| ensures IsWs(rest[k]) {
        assert s[k + 1] == rest[k];
      }
    }
  }

  lemma {:induction false} SkipsAllWs(text: Bytes, i: nat)
    requires i <= |text|
    ensures WsEnd(text, i) == |text| <==> AllWs(text[i..])
    decreases |text| - i
  {
    if i < |text| {
      assert text[i..][0] == text[i] && text[i..][1..] == text[i + 1..];
      AllWsCons(text[i], text[i + 1..]);
      assert text[i..] == [text[i]] + text[i + 1..];
      if IsWs(text[i]) {
        SkipsAllWs(text, i + 1);
      }
    }
  }

  /** Blank input has a verdict of its own. */
  lemma EmptyIff(text: Bytes, limit: nat)
    ensures Check(text, limit) == EmptyInput <==> AllWs(text)
  {
    SkipsAllWs(text, 0);
    assert text[0..] == text;
  }

  /** On any other input, well-formed or not, the first byte that is not blank decides which
      error there can be: one for arrays, one for objects, none for anything else. */
  lemma VerdictBy(lead: Bytes, data: Bytes, limit: nat)
    requires AllWs(lead) && data != [] && !IsWs(data[0])
    ensures var v := Check(lead + data, limit);
            if data[0] == '[' then v == Accepted || v == InvalidArray
            else if data[0] == '{' then v == Accepted || v == InvalidObject
            else v == Accepted
  {
    CheckAfterWs(lead, data, limit);
    assert WsEnd(data, 0) == 0 && data[0..] == data;
  }

  /** For every JSON value and every text of it, the check passes iff the container
      nesting is within the limit in force. */
  lemma DepthCheckExact(v: Json, text: Bytes, maxDepth: int)
    requires Renders(v, text)
    ensures Check(text, EffectiveLimit(maxDepth)) == Accepted <==> Nesting(v) <= EffectiveLimit(maxDepth)
  {
    var lead: Bytes, d: Doc, trail: Bytes :|
      AllWs(lead) && WellFormed(d) && AllWs(trail) && ValueOf(d) == v && text == lead + Render(d) + trail;
    CheckExact(lead, d, trail, EffectiveLimit(maxDepth));
  }

  /** The scanner is lenient: it lets these pass, which are no JSON text, for the decoder to
      reject. So nothing more than termination is claimed about malformed input. */
  lemma {:induction false} MalformedCanPass()
    ensures Check("[,]", 1) == Accepted
    ensures Check("[1[[2]", 1) == Accepted
  {
    var a := "[,]";
    assert ValueEnd(a, 1, 1, 1) == Scan(1, true);
    assert a[0..] == a;
    assert ItemsEnd(a, 1, 1, 1) == ItemsEnd(a, 2, 1, 1) == Scan(3, true);
    var b := "[1[[2]";
    assert b[0..] == b;
    assert ScalarEnd(b, 4) == 5;
    assert ScalarEnd(b, 1) == ScalarEnd(b, 2) == ScalarEnd(b, 3) == ScalarEnd(b, 4);
    assert ItemsEnd(b, 1, 1, 1) == Scan(6, true);
  }
}
