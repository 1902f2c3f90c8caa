/** strings.ReplaceAll for a non-empty pattern. */
module Text {

  import opened Basics

  function ReplaceAll(s: Bytes, from: Bytes, to: Bytes): Bytes
    requires from != []
  {
    if |s| < |from| then s
    else if s[..|from|] == from then to + ReplaceAll(s[|from|..], from, to)
    else [s[0]] + ReplaceAll(s[1..], from, to)
  }

  function Repeat(c: char, n: nat): (r: Bytes)
    ensures |r| == n && forall k :: 0 <= k < n ==> r[k] == c
  {
    seq(n, _ => c)
  }

  function Decimal(n: nat): Bytes {
    (if n < 10 then [] else Decimal(n / 10)) + ["0123456789"[n % 10]]
  }
}
