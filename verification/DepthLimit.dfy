/** internal/proxy/depth_limit.go: the scanner that bounds JSON nesting before decoding.
    The functions give each walker's result; the methods run its loops over an index. */
module DepthLimit {
  import opened Basics
  import opened JsonGrammar

  const MAX_JSON_DEPTH: nat := 32

  /** What a walker returns: an index and whether it succeeded. */
  datatype Scan = Scan(pos: nat, ok: bool)

  // ---------- The walkers as functions of the start index ----------

  /** isWS of the source. */
  predicate IsSpace(b: char)
    ensures IsSpace(b) <==> IsWs(b)
  {
    b == ' ' || b == '\t' || b == '\n' || b == '\r'
  }

  function WsEnd(data: Bytes, i: nat): (j: nat)
    requires i <= |data|
    ensures i <= j <= |data| && (j < |data| ==> !IsSpace(data[j]))
    decreases |data| - i
  {
    if i < |data| && IsSpace(data[i]) then WsEnd(data, i + 1) else i
  }

  /** An escape skips two bytes, so a failed scan can end one past the input. */
  function StringEnd(data: Bytes, i: nat): (r: Scan)
    requires i <= |data| + 1
    ensures r.ok ==> i < r.pos <= |data|
    ensures r.pos <= |data| + 1
    decreases |data| + 1 - i
  {
    if i >= |data| then Scan(i, false)
    else if data[i] == '\\' then StringEnd(data, i + 2)
    else if data[i] == '"' then Scan(i + 1, true)
    else StringEnd(data, i + 1)
  }

  predicate EndsScalar(b: char) {
    b == ',' || b == ']' || b == '}' || IsSpace(b)
  }

  /** May consume nothing. */
  function ScalarEnd(data: Bytes, i: nat): (j: nat)
    requires i <= |data|
    ensures i <= j <= |data|
    decreases |data| - i
  {
    if i < |data| && !EndsScalar(data[i]) then ScalarEnd(data, i + 1) else i
  }

  predicate At(data: Bytes, i: nat, b: char) {
    i < |data| && data[i] == b
  }

  function ValueEnd(data: Bytes, start: nat, depth: nat, maxDepth: nat): (r: Scan)
    requires start <= |data|
    ensures r.ok ==> start <= r.pos <= |data|
    ensures r.pos <= |data| + 1
    decreases |data| - start, 0
  {
    if depth > maxDepth then Scan(start, false) else
    var i := WsEnd(data, start);
    if i >= |data| then Scan(i, false)
    else if data[i] == '[' then ArrayEnd(data, i + 1, depth + 1, maxDepth)
    else if data[i] == '{' then ObjectEnd(data, i + 1, depth + 1, maxDepth)
    else if data[i] == '"' then StringEnd(data, i + 1)
    else Scan(ScalarEnd(data, i), true)
  }

  function ArrayEnd(data: Bytes, start: nat, depth: nat, maxDepth: nat): (r: Scan)
    requires start <= |data|
    ensures r.ok ==> start < r.pos <= |data|
    ensures r.pos <= |data| + 1
    decreases |data| - start, 2
  {
    if depth > maxDepth then Scan(start, false) else
    var i := WsEnd(data, start);
    if At(data, i, ']') then Scan(i + 1, true) else ItemsEnd(data, i, depth, maxDepth)
  }

  /** The loop of walkArray, entered at index `start`. */
  function ItemsEnd(data: Bytes, start: nat, depth: nat, maxDepth: nat): (r: Scan)
    requires start <= |data|
    ensures r.ok ==> start < r.pos <= |data|
    ensures r.pos <= |data| + 1
    decreases |data| - start, 1
  {
    var v := ValueEnd(data, WsEnd(data, start), depth, maxDepth);
    if !v.ok then v else
    var i := WsEnd(data, v.pos);
    if At(data, i, ']') then Scan(i + 1, true)
    else if !At(data, i, ',') then Scan(i, false)
    else ItemsEnd(data, i + 1, depth, maxDepth)
  }

  function ObjectEnd(data: Bytes, start: nat, depth: nat, maxDepth: nat): (r: Scan)
    requires start <= |data|
    ensures r.ok ==> start < r.pos <= |data|
    ensures r.pos <= |data| + 1
    decreases |data| - start, 2
  {
    if depth > maxDepth then Scan(start, false) else
    var i := WsEnd(data, start);
    if At(data, i, '}') then Scan(i + 1, true) else FieldsEnd(data, i, depth, maxDepth)
  }

  /** From the opening quote of a key to just past its colon. */
  function KeyEnd(data: Bytes, start: nat): (r: Scan)
    requires start <= |data|
    ensures r.ok ==> start < r.pos <= |data|
    ensures r.pos <= |data| + 1
  {
    if !At(data, start, '"') then Scan(start, false) else
    var key := StringEnd(data, start + 1);
    if !key.ok then key else
    var c := WsEnd(data, key.pos);
    if At(data, c, ':') then Scan(c + 1, true) else Scan(c, false)
  }

  /** The loop of walkObject, entered at index `start`. */
  function FieldsEnd(data: Bytes, start: nat, depth: nat, maxDepth: nat): (r: Scan)
    requires start <= |data|
    ensures r.ok ==> start < r.pos <= |data|
    ensures r.pos <= |data| + 1
    decreases |data| - start, 1
  {
    var key := KeyEnd(data, WsEnd(data, start));
    if !key.ok then key else
    var v := ValueEnd(data, key.pos, depth, maxDepth);
    if !v.ok then v else
    var e := WsEnd(data, v.pos);
    if At(data, e, '}') then Scan(e + 1, true)
    else if !At(data, e, ',') then Scan(e, false)
    else FieldsEnd(data, e + 1, depth, maxDepth)
  }

  lemma FieldsContinue(data: Bytes, start: nat, key: Scan, value: Scan, comma: nat, depth: nat, maxDepth: nat)
    requires start <= |data| && key == KeyEnd(data, WsEnd(data, start)) && key.ok
    requires value == ValueEnd(data, key.pos, depth, maxDepth) && value.ok
    requires comma == WsEnd(data, value.pos) && At(data, comma, ',')
    ensures FieldsEnd(data, start, depth, maxDepth) == FieldsEnd(data, comma + 1, depth, maxDepth)
  {}

  // ---------- The walkers as the source writes them ----------

  method SkipWS(data: Bytes, start: nat) returns (i: nat)
    requires start <= |data|
    ensures i == WsEnd(data, start)
  {
    i := start;
    while i < |data| && IsSpace(data[i])
      invariant start <= i <= |data|
      invariant WsEnd(data, i) == WsEnd(data, start)
    {
      i := i + 1;
    }
  }

  method SkipString(data: Bytes, start: nat) returns (i: nat, ok: bool)
    requires start <= |data|
    ensures Scan(i, ok) == StringEnd(data, start)
  {
    i := start;
    while i < |data|
      invariant start <= i <= |data| + 1
      invariant StringEnd(data, i) == StringEnd(data, start)
      decreases |data| + 1 - i
    {
      if data[i] == '\\' {
        i := i + 2;
        continue;
      }
      if data[i] == '"' {
        return i + 1, true;
      }
      i := i + 1;
    }
    return i, false;
  }

  /** How many further walker calls can be open below a call at `depth`.
      The bound does not mention the input. */
  function OpenCalls(depth: nat, maxDepth: nat, container: bool): nat {
    if depth > maxDepth then 0 else 2 * (maxDepth - depth) + if container then 2 else 1
  }

  /** `frames` counts the walker calls that were open at once, this one included. */
  method WalkArray(data: Bytes, start: nat, depth: nat, maxDepth: nat) returns (i: nat, ok: bool, ghost frames: nat)
    requires start <= |data|
    ensures Scan(i, ok) == ArrayEnd(data, start, depth, maxDepth)
    ensures frames <= 1 + OpenCalls(depth, maxDepth, true)
    decreases OpenCalls(depth, maxDepth, true)
  {
    i, frames := start, 1;
    if depth > maxDepth {
      return i, false, frames;
    }
    i := SkipWS(data, i);
    if i < |data| && data[i] == ']' {
      return i + 1, true, frames;
    }
    while true
      invariant start <= i <= |data|
      invariant ItemsEnd(data, i, depth, maxDepth) == ArrayEnd(data, start, depth, maxDepth)
      invariant frames <= 1 + OpenCalls(depth, maxDepth, true)
      decreases |data| - i
    {
      i := SkipWS(data, i);
      ghost var below;
      i, ok, below := WalkValue(data, i, depth, maxDepth);
      frames := Max(frames, 1 + below);
      if !ok {
        return i, false, frames;
      }
      i := SkipWS(data, i);
      if i < |data| && data[i] == ']' {
        return i + 1, true, frames;
      }
      if i >= |data| || data[i] != ',' {
        return i, false, frames;
      }
      i := i + 1;
    }
  }

  /** The first half of an iteration of walkObject's loop: a key and its colon. */
  method WalkKey(data: Bytes, start: nat) returns (i: nat, ok: bool)
    requires start <= |data|
    ensures Scan(i, ok) == KeyEnd(data, start)
  {
    i := start;
    if i >= |data| || data[i] != '"' {
      return i, false;
    }
    i, ok := SkipString(data, i + 1);
    if !ok {
      return i, false;
    }
    i := SkipWS(data, i);
    if i >= |data| || data[i] != ':' {
      return i, false;
    }
    i := i + 1;
  }

  /** An iteration of that loop: `more` says that it goes on. */
  method WalkMember(data: Bytes, start: nat, depth: nat, maxDepth: nat)
    returns (i: nat, ok: bool, more: bool, ghost frames: nat)
    requires start <= |data| && depth <= maxDepth
    ensures more ==> start < i <= |data|
    ensures more ==> FieldsEnd(data, start, depth, maxDepth) == FieldsEnd(data, i, depth, maxDepth)
    ensures !more ==> Scan(i, ok) == FieldsEnd(data, start, depth, maxDepth)
    ensures frames <= 1 + OpenCalls(depth, maxDepth, true)
    decreases OpenCalls(depth, maxDepth, true), 0
  {
    frames := 1;
    i := SkipWS(data, start);
    i, ok := WalkKey(data, i);
    ghost var key := Scan(i, ok);
    if !ok {
      return i, false, false, frames;
    }
    ghost var below;
    i, ok, below := WalkValue(data, i, depth, maxDepth);
    ghost var value := Scan(i, ok);
    frames := 1 + below;
    if !ok {
      return i, false, false, frames;
    }
    i := SkipWS(data, i);
    if i < |data| && data[i] == '}' {
      return i + 1, true, false, frames;
    }
    if i >= |data| || data[i] != ',' {
      return i, false, false, frames;
    }
    FieldsContinue(data, start, key, value, i, depth, maxDepth);
    return i + 1, true, true, frames;
  }

  method WalkObject(data: Bytes, start: nat, depth: nat, maxDepth: nat) returns (i: nat, ok: bool, ghost frames: nat)
    requires start <= |data|
    ensures Scan(i, ok) == ObjectEnd(data, start, depth, maxDepth)
    ensures frames <= 1 + OpenCalls(depth, maxDepth, true)
    decreases OpenCalls(depth, maxDepth, true), 1
  {
    i, frames := start, 1;
    if depth > maxDepth {
      return i, false, frames;
    }
    i := SkipWS(data, i);
    if i < |data| && data[i] == '}' {
      return i + 1, true, frames;
    }
    while true
      invariant start <= i <= |data|
      invariant FieldsEnd(data, i, depth, maxDepth) == ObjectEnd(data, start, depth, maxDepth)
      invariant frames <= 1 + OpenCalls(depth, maxDepth, true)
      decreases |data| - i
    {
      ghost var below;
      var more;
      i, ok, more, below := WalkMember(data, i, depth, maxDepth);
      frames := Max(frames, below);
      if !more {
        return i, ok, frames;
      }
    }
  }

  method WalkValue(data: Bytes, start: nat, depth: nat, maxDepth: nat) returns (i: nat, ok: bool, ghost frames: nat)
    requires start <= |data|
    ensures Scan(i, ok) == ValueEnd(data, start, depth, maxDepth)
    ensures frames <= 1 + OpenCalls(depth, maxDepth, false)
    decreases OpenCalls(depth, maxDepth, false)
  {
    i, frames := start, 1;
    if depth > maxDepth {
      return i, false, frames;
    }
    i := SkipWS(data, i);
    if i >= |data| {
      return i, false, frames;
    }
    ghost var below;
    if data[i] == '[' {
      i, ok, below := WalkArray(data, i + 1, depth + 1, maxDepth);
      frames := 1 + below;
    } else if data[i] == '{' {
      i, ok, below := WalkObject(data, i + 1, depth + 1, maxDepth);
      frames := 1 + below;
    } else if data[i] == '"' {
      i, ok := SkipString(data, i + 1);
    } else {
      ghost var first := i;
      while i < |data|
        invariant first <= i <= |data|
        invariant ScalarEnd(data, i) == ScalarEnd(data, first)
      {
        var c := data[i];
        if c == ',' || c == ']' || c == '}' || IsSpace(c) {
          break;
        }
        i := i + 1;
      }
      ok := true;
    }
  }

  // ---------- The entry points ----------

  /** The error a caller sees before decoding starts. */
  datatype Verdict = Accepted | EmptyInput | TooDeep | InvalidArray | InvalidObject

  /** NewLimitedUnmarshaler replaces a limit that is not positive. */
  function EffectiveLimit(maxDepth: int): nat {
    if maxDepth <= 0 then MAX_JSON_DEPTH else maxDepth
  }

  function Check(text: Bytes, limit: nat): Verdict {
    var data := text[WsEnd(text, 0)..];
    if data == [] then EmptyInput
    else if data[0] == '[' then
      if ArrayEnd(data, 1, 1, limit).ok then Accepted else InvalidArray
    else if data[0] == '{' then
      if ObjectEnd(data, 1, 1, limit).ok then Accepted else InvalidObject
    else Accepted
  }

  class LimitedUnmarshaler {
    const b: Bytes
    const maxDepth: nat

    constructor (b: Bytes, maxDepth: int)
      ensures this.b == b && this.maxDepth == EffectiveLimit(maxDepth) == if maxDepth > 0 then maxDepth else 32
    {
      this.b := b;
      this.maxDepth := if maxDepth <= 0 then MAX_JSON_DEPTH else maxDepth;
    }

    method CheckDepth(data: Bytes, depth: nat) returns (verdict: Verdict, ghost frames: nat)
      ensures depth > maxDepth ==> verdict == TooDeep
      ensures depth == 0 && data != [] && WsEnd(data, 0) == 0 ==> verdict == Check(data, maxDepth)
      ensures frames <= 2 * maxDepth + 3
    {
      frames := 1;
      if depth > maxDepth {
        return TooDeep, frames;
      }
      if 0 >= |data| {
        return Accepted, frames;
      }
      if data[0] == '[' {
        var _, ok, below := WalkArray(data, 1, depth + 1, maxDepth);
        frames := 1 + below;
        verdict := if ok then Accepted else InvalidArray;
      } else if data[0] == '{' {
        var _, ok, below := WalkObject(data, 1, depth + 1, maxDepth);
        frames := 1 + below;
        verdict := if ok then Accepted else InvalidObject;
      } else {
        verdict := Accepted;
      }
      assert data[0..] == data;
    }

    /** Unmarshal up to the hand-over to the decoder, which is not part of this model. */
    method Unmarshal() returns (verdict: Verdict, ghost frames: nat)
      ensures verdict == Check(b, maxDepth)
      ensures frames <= 2 * maxDepth + 3
    {
      var first := SkipWS(b, 0);
      var data := b[first..];
      if |data| == 0 {
        return EmptyInput, 0;
      }
      assert data[0..] == data;
      verdict, frames := CheckDepth(data, 0);
    }
  }
}
