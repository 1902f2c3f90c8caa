/** JSON texts as RFC 8259 defines them (sections 2 to 7).
    A byte is modelled by a `char`; nothing below depends on values above 127. */
module JsonGrammar {
  import opened Basics

  /** A JSON value. Strings and numbers keep the bytes that spell them. */
  datatype Json =
    | Null
    | Boolean(flag: bool)
    | Number(digits: Bytes)
    | Text(body: Bytes)
    | Array(elements: seq<Json>)
    | Object(members: seq<Member>)

  datatype Member = Member(key: Bytes, value: Json)

  /** Container nesting: scalars have none, an empty container counts one. */
  function Nesting(v: Json): nat {
    match v
    case Array(elements) => 1 + MaxNesting(elements)
    case Object(members) => 1 + MaxMemberNesting(members)
    case _ => 0
  }

  function MaxNesting(vs: seq<Json>): nat {
    if vs == [] then 0 else Max(Nesting(vs[0]), MaxNesting(vs[1..]))
  }

  function MaxMemberNesting(ms: seq<Member>): nat {
    if ms == [] then 0 else Max(Nesting(ms[0].value), MaxMemberNesting(ms[1..]))
  }

  // ---------- Lexical rules ----------

  /** Section 2: space, horizontal tab, line feed and carriage return. */
  predicate IsWs(b: char) {
    b as int in {0x20, 0x09, 0x0A, 0x0D}
  }

  predicate AllWs(s: Bytes) {
    forall k :: 0 <= k < |s| ==> IsWs(s[k])
  }

  predicate IsDigit(b: char) {
    '0' <= b <= '9'
  }

  predicate IsHex(b: char) {
    IsDigit(b) || 'a' <= b <= 'f' || 'A' <= b <= 'F'
  }

  function DigitCount(s: Bytes): (n: nat)
    ensures n <= |s|
  {
    if s != [] && IsDigit(s[0]) then 1 + DigitCount(s[1..]) else 0
  }

  /** Section 6: number = [ minus ] int [ frac ] [ exp ]. */
  predicate IsNumber(s: Bytes) {
    var u := if s != [] && s[0] == '-' then s[1..] else s;
    var n := DigitCount(u);
    n > 0 && (u[0] == '0' ==> n == 1) && IsFracExp(u[n..])
  }

  predicate IsFracExp(s: Bytes) {
    if s != [] && s[0] == '.' then
      var n := DigitCount(s[1..]);
      n > 0 && IsExp(s[1 + n..])
    else
      IsExp(s)
  }

  predicate IsExp(s: Bytes) {
    s == [] ||
    ((s[0] == 'e' || s[0] == 'E') &&
     var u := if |s| > 1 && (s[1] == '+' || s[1] == '-') then s[2..] else s[1..];
     DigitCount(u) == |u| && u != [])
  }

  /** Section 7: what may stand between the two quotation marks. */
  predicate IsStringBody(s: Bytes) {
    if s == [] then true
    else if s[0] == '\\' then
      |s| >= 2 &&
      if s[1] == 'u' then
        |s| >= 6 && IsHex(s[2]) && IsHex(s[3]) && IsHex(s[4]) && IsHex(s[5]) && IsStringBody(s[6..])
      else
        s[1] in "\"\\/bfnrt" && IsStringBody(s[2..])
    else
      s[0] != '"' && s[0] >= ' ' && IsStringBody(s[1..])
  }

  // ---------- The productions of sections 6 and 7 ----------

  predicate AllDigits(s: Bytes) {
    forall i :: 0 <= i < |s| ==> '0' <= s[i] <= '9'
  }

  lemma {:induction false} CountsDigits(d: Bytes, rest: Bytes)
    requires AllDigits(d) && (rest == [] || !('0' <= rest[0] <= '9'))
    ensures DigitCount(d + rest) == |d|
    decreases |d|
  {
    if d == [] {
      assert d + rest == rest;
    } else {
      assert (d + rest)[1..] == d[1..] + rest;
      CountsDigits(d[1..], rest);
    }
  }

  /** exp = e [ minus / plus ] 1*DIGIT, or nothing. */
  predicate ExpPart(e: Bytes, sign: Bytes, digits: Bytes) {
    || (e == [] && sign == [] && digits == [])
    || ((e == "e" || e == "E") && (sign == [] || sign == "+" || sign == "-") && AllDigits(digits) && digits != [])
  }

  lemma ExpIsExp(e: Bytes, sign: Bytes, digits: Bytes)
    requires ExpPart(e, sign, digits)
    ensures IsExp(e + sign + digits)
  {
    var s := e + sign + digits;
    if e != [] {
      CountsDigits(digits, []);
      assert digits + [] == digits;
      if sign == [] {
        assert s[1..] == digits;
      } else {
        assert s[1] == sign[0] && s[2..] == digits;
      }
    } else {
      assert s == [];
    }
  }

  lemma FracIsFracExp(frac: Bytes, exp: Bytes)
    requires frac == [] || (frac[0] == '.' && |frac| > 1 && AllDigits(frac[1..]))
    requires IsExp(exp)
    ensures IsFracExp(frac + exp)
  {
    if frac == [] {
      assert frac + exp == exp;
    } else {
      assert (frac + exp)[1..] == frac[1..] + exp;
      CountsDigits(frac[1..], exp);
      assert (frac + exp)[|frac|..] == exp;
    }
  }

  predicate IntPart(s: Bytes) {
    AllDigits(s) && s != [] && (s[0] == '0' ==> |s| == 1)
  }

  lemma SignedIsNumber(minus: Bytes, integer: Bytes, rest: Bytes)
    requires (minus == [] || minus == "-") && IntPart(integer)
    requires IsFracExp(rest) && (rest == [] || !('0' <= rest[0] <= '9'))
    ensures IsNumber(minus + (integer + rest))
  {
    var u := integer + rest;
    CountsDigits(integer, rest);
    assert u[0] == integer[0] && u[|integer|..] == rest;
    if minus == [] {
      assert minus + u == u;
    } else {
      assert (minus + u)[0] == '-' && (minus + u)[1..] == u;
    }
  }

  /** number = [ minus ] int [ frac ] [ exp ], and every such text is a number. */
  lemma NumberParts(minus: Bytes, integer: Bytes, frac: Bytes, e: Bytes, sign: Bytes, digits: Bytes)
    requires (minus == [] || minus == "-") && IntPart(integer)
    requires frac == [] || (frac[0] == '.' && |frac| > 1 && AllDigits(frac[1..]))
    requires ExpPart(e, sign, digits)
    ensures IsNumber(minus + (integer + (frac + (e + sign + digits))))
  {
    var exp := e + sign + digits;
    ExpIsExp(e, sign, digits);
    FracIsFracExp(frac, exp);
    assert frac == [] ==> frac + exp == exp;
    SignedIsNumber(minus, integer, frac + exp);
  }

  /** char = unescaped / escape, and every sequence of them is the body of a string. */
  predicate StringChar(c: Bytes) {
    || (|c| == 1 && c[0] as int >= 0x20 && c[0] != '"' && c[0] != '\\')
    || (|c| == 2 && c[0] == '\\' && c[1] in {'"', '\\', '/', 'b', 'f', 'n', 'r', 't'})
    || (|c| == 6 && c[0] == '\\' && c[1] == 'u' && forall i :: 2 <= i < 6 ==>
          ('0' <= c[i] <= '9' || 'A' <= c[i] <= 'F' || 'a' <= c[i] <= 'f'))
  }

  lemma StringBodyParts(c: Bytes, rest: Bytes)
    requires StringChar(c) && IsStringBody(rest)
    ensures IsStringBody([]) && IsStringBody(c + rest)
  {
    var s := c + rest;
    assert s[|c|..] == rest;
    assert forall i :: 0 <= i < |c| ==> s[i] == c[i];
  }

  // ---------- Concrete syntax ----------

  /** A value together with the whitespace of one particular text for it. */
  datatype Doc =
    | Leaf(value: Json)
    | ArrayDoc(gap: Bytes, items: Items)
    | ObjectDoc(gap: Bytes, fields: Fields)

  datatype Items =
    | NoItems
    | Item(before: Bytes, item: Doc, after: Bytes, rest: Items)

  datatype Fields =
    | NoFields
    | Field(before: Bytes, key: Bytes, beforeColon: Bytes, afterColon: Bytes, item: Doc, after: Bytes, rest: Fields)

  predicate WellFormed(d: Doc) {
    match d
    case Leaf(v) => v.Null? || v.Boolean? || (v.Number? && IsNumber(v.digits)) || (v.Text? && IsStringBody(v.body))
    case ArrayDoc(gap, items) => AllWs(gap) && WellFormedItems(items)
    case ObjectDoc(gap, fields) => AllWs(gap) && WellFormedFields(fields)
  }

  predicate WellFormedItems(items: Items) {
    match items
    case NoItems => true
    case Item(before, item, after, rest) =>
      AllWs(before) && WellFormed(item) && AllWs(after) && WellFormedItems(rest)
  }

  predicate WellFormedFields(fields: Fields) {
    match fields
    case NoFields => true
    case Field(before, key, beforeColon, afterColon, item, after, rest) =>
      AllWs(before) && IsStringBody(key) && AllWs(beforeColon) && AllWs(afterColon) &&
      WellFormed(item) && AllWs(after) && WellFormedFields(rest)
  }

  /** The value a concrete text stands for. */
  function ValueOf(d: Doc): Json {
    match d
    case Leaf(v) => v
    case ArrayDoc(_, items) => Array(ValuesOf(items))
    case ObjectDoc(_, fields) => Object(MembersOf(fields))
  }

  function ValuesOf(items: Items): seq<Json> {
    match items
    case NoItems => []
    case Item(_, item, _, rest) => [ValueOf(item)] + ValuesOf(rest)
  }

  function MembersOf(fields: Fields): seq<Member> {
    match fields
    case NoFields => []
    case Field(_, key, _, _, item, _, rest) => [Member(key, ValueOf(item))] + MembersOf(rest)
  }

  /** The bytes of a concrete text. */
  function Render(d: Doc): Bytes
    decreases d, 1
  {
    match d
    case Leaf(v) => RenderLeaf(v)
    case ArrayDoc(gap, items) => "[" + ArrayInner(gap, items) + "]"
    case ObjectDoc(gap, fields) => "{" + ObjectInner(gap, fields) + "}"
  }

  function ArrayInner(gap: Bytes, items: Items): Bytes
    decreases items, 1
  {
    if items.NoItems? then gap else RenderItems(items)
  }

  function ObjectInner(gap: Bytes, fields: Fields): Bytes
    decreases fields, 1
  {
    if fields.NoFields? then gap else RenderFields(fields)
  }

  function RenderLeaf(v: Json): Bytes {
    match v
    case Null => "null"
    case Boolean(flag) => if flag then "true" else "false"
    case Number(digits) => digits
    case Text(body) => "\"" + body + "\""
    case _ => []
  }

  function RenderItems(items: Items): Bytes
    decreases items, 0
  {
    match items
    case NoItems => []
    case Item(before, item, after, rest) =>
      before + Render(item) + after + MoreItems(rest)
  }

  function MoreItems(rest: Items): Bytes
    decreases rest, 1
  {
    if rest.NoItems? then [] else "," + RenderItems(rest)
  }

  function RenderFields(fields: Fields): Bytes
    decreases fields, 0
  {
    match fields
    case NoFields => []
    case Field(before, key, beforeColon, afterColon, item, after, rest) =>
      RenderKey(before, key, beforeColon) + afterColon + Render(item) + after + MoreFields(rest)
  }

  function RenderKey(before: Bytes, key: Bytes, beforeColon: Bytes): Bytes {
    before + ("\"" + key + "\"") + beforeColon + ":"
  }

  function MoreFields(rest: Fields): Bytes
    decreases rest, 1
  {
    if rest.NoFields? then [] else "," + RenderFields(rest)
  }

  /** Section 2: JSON-text = ws value ws. `text` is one of the texts of `v`. */
  ghost predicate Renders(v: Json, text: Bytes) {
    exists lead: Bytes, d: Doc, trail: Bytes ::
      AllWs(lead) && WellFormed(d) && AllWs(trail) && ValueOf(d) == v && text == lead + Render(d) + trail
  }

  // ---------- Every value has texts ----------

  /** Its numbers are spelled as numbers and its strings and keys as strings. */
  predicate Spelled(v: Json) {
    match v
    case Number(digits) => IsNumber(digits)
    case Text(body) => IsStringBody(body)
    case Array(elements) => forall i :: 0 <= i < |elements| ==> Spelled(elements[i])
    case Object(members) => forall i :: 0 <= i < |members| ==> IsStringBody(members[i].key) && Spelled(members[i].value)
    case _ => true
  }

  /** The value written with the same whitespace everywhere. */
  function Spaced(v: Json, ws: Bytes): Doc
    decreases v, 0
  {
    match v
    case Array(elements) => ArrayDoc(ws, SpacedItems(elements, ws))
    case Object(members) => ObjectDoc(ws, SpacedFields(members, ws))
    case _ => Leaf(v)
  }

  function SpacedItems(vs: seq<Json>, ws: Bytes): Items
    decreases vs, 1
  {
    if vs == [] then NoItems else Item(ws, Spaced(vs[0], ws), ws, SpacedItems(vs[1..], ws))
  }

  function SpacedFields(ms: seq<Member>, ws: Bytes): Fields
    decreases ms, 1
  {
    if ms == [] then NoFields
    else Field(ws, ms[0].key, ws, ws, Spaced(ms[0].value, ws), ws, SpacedFields(ms[1..], ws))
  }

  lemma {:induction false} SpacedIsWellFormed(v: Json, ws: Bytes)
    requires Spelled(v) && AllWs(ws)
    ensures WellFormed(Spaced(v, ws)) && ValueOf(Spaced(v, ws)) == v
    decreases v, 0
  {
    match v
    case Array(elements) => SpacedItemsAre(elements, ws);
    case Object(members) => SpacedFieldsAre(members, ws);
    case _ =>
  }

  lemma {:induction false} SpacedItemsAre(vs: seq<Json>, ws: Bytes)
    requires AllWs(ws) && forall i :: 0 <= i < |vs| ==> Spelled(vs[i])
    ensures WellFormedItems(SpacedItems(vs, ws)) && ValuesOf(SpacedItems(vs, ws)) == vs
    decreases vs, 1
  {
    if vs != [] {
      SpacedIsWellFormed(vs[0], ws);
      SpacedItemsAre(vs[1..], ws);
      assert vs == [vs[0]] + vs[1..];
    }
  }

  lemma {:induction false} SpacedFieldsAre(ms: seq<Member>, ws: Bytes)
    requires AllWs(ws) && forall i :: 0 <= i < |ms| ==> IsStringBody(ms[i].key) && Spelled(ms[i].value)
    ensures WellFormedFields(SpacedFields(ms, ws)) && MembersOf(SpacedFields(ms, ws)) == ms
    decreases ms, 1
  {
    if ms != [] {
      SpacedIsWellFormed(ms[0].value, ws);
      SpacedFieldsAre(ms[1..], ws);
      assert ms == [ms[0]] + ms[1..];
    }
  }

  /** So every value has a text, with any whitespace at every place where there may be some. */
  lemma EveryValueHasTexts(v: Json, ws: Bytes)
    requires Spelled(v) && AllWs(ws)
    ensures Renders(v, ws + Render(Spaced(v, ws)) + ws)
  {
    SpacedIsWellFormed(v, ws);
  }
}
