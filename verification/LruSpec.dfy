/** The token cache of internal/auth/oauth.go as one sequence, most recently used first. */
module LruSpec {
  import opened Basics

  /** A cached identity and the time after which it counts as expired. */
  datatype Token = Token(identity: string, expiresAt: int)

  datatype Slot = Slot(key: string, token: Token)

  /** The position of `key`, or |s| if it is not cached. */
  function IndexOf(s: seq<Slot>, key: string): (i: nat)
    ensures i <= |s| && (i < |s| ==> s[i].key == key)
  {
    if s == [] || s[0].key == key then 0 else 1 + IndexOf(s[1..], key)
  }

  predicate Cached(s: seq<Slot>, key: string) {
    IndexOf(s, key) < |s|
  }

  function RemoveAt<T>(s: seq<T>, i: nat): seq<T>
    requires i < |s|
  {
    s[..i] + s[i + 1..]
  }

  predicate Expired(t: Token, now: int) {
    now > t.expiresAt
  }

  function Put(s: seq<Slot>, maxSize: nat, key: string, token: Token): seq<Slot> {
    var i := IndexOf(s, key);
    [Slot(key, token)] +
    if i < |s| then RemoveAt(s, i)
    else if |s| >= maxSize && s != [] then s[..|s| - 1]
    else s
  }

  /** What a lookup answers. */
  function Hit(s: seq<Slot>, key: string, now: int): Option<string> {
    var i := IndexOf(s, key);
    if i < |s| && !Expired(s[i].token, now) then Some(s[i].token.identity) else None
  }

  /** A hit moves to the front; an expired entry is dropped. */
  function Get(s: seq<Slot>, key: string, now: int): seq<Slot> {
    var i := IndexOf(s, key);
    if i == |s| then s
    else if Expired(s[i].token, now) then RemoveAt(s, i)
    else [s[i]] + RemoveAt(s, i)
  }

  function Delete(s: seq<Slot>, key: string): seq<Slot> {
    var i := IndexOf(s, key);
    if i < |s| then RemoveAt(s, i) else s
  }

  function Cleanup(s: seq<Slot>, now: int): seq<Slot> {
    if s == [] then []
    else if Expired(s[0].token, now) then Cleanup(s[1..], now)
    else [s[0]] + Cleanup(s[1..], now)
  }

  // ---------- Keys ----------

  function Keys(s: seq<Slot>): set<string> {
    if s == [] then {} else {s[0].key} + Keys(s[1..])
  }

  predicate DistinctKeys(s: seq<Slot>) {
    s == [] || (s[0].key !in Keys(s[1..]) && DistinctKeys(s[1..]))
  }

  lemma {:induction false} KeysAre(s: seq<Slot>, key: string)
    ensures key in Keys(s) <==> Cached(s, key)
  {
    if s != [] && s[0].key != key {
      KeysAre(s[1..], key);
    }
  }

  lemma {:induction false} KeyAt(s: seq<Slot>, i: nat)
    requires i < |s|
    ensures s[i].key in Keys(s)
    ensures DistinctKeys(s) ==> IndexOf(s, s[i].key) == i
  {
    if i > 0 {
      KeyAt(s[1..], i - 1);
    }
  }

  lemma {:induction false} KeysWithout(s: seq<Slot>, i: nat)
    requires DistinctKeys(s) && i < |s|
    ensures Keys(RemoveAt(s, i)) == Keys(s) - {s[i].key} && DistinctKeys(RemoveAt(s, i))
  {
    if i == 0 {
      assert RemoveAt(s, 0) == s[1..];
    } else {
      var rest := RemoveAt(s[1..], i - 1);
      KeysWithout(s[1..], i - 1);
      KeysWith(rest, s[0]);
      assert RemoveAt(s, i) == [s[0]] + rest;
      KeyAt(s[1..], i - 1);
    }
  }

  lemma KeysWith(s: seq<Slot>, slot: Slot)
    ensures Keys([slot] + s) == {slot.key} + Keys(s)
    ensures DistinctKeys(s) && slot.key !in Keys(s) ==> DistinctKeys([slot] + s)
  {
    assert ([slot] + s)[1..] == s;
  }

  lemma KeysMoved(s: seq<Slot>, i: nat, slot: Slot)
    requires DistinctKeys(s) && i < |s| && s[i].key == slot.key
    ensures Keys([slot] + RemoveAt(s, i)) == Keys(s) && DistinctKeys([slot] + RemoveAt(s, i))
  {
    KeysWithout(s, i);
    KeysWith(RemoveAt(s, i), slot);
    KeyAt(s, i);
  }

  lemma KeysRefreshed(s: seq<Slot>, slot: Slot)
    requires DistinctKeys(s) && s != [] && s[0].key == slot.key
    ensures Keys(s[0 := slot]) == Keys(s) && DistinctKeys(s[0 := slot])
  {
    assert s[0 := slot][1..] == s[1..];
  }

  /** One step of the sweep, which runs from the back to the front. */
  lemma SweepStep(s: seq<Slot>, j: nat, now: int)
    requires j < |s|
    ensures var t := s[..j + 1] + Cleanup(s[j + 1..], now);
            t[j] == s[j] &&
            s[..j] + Cleanup(s[j..], now) == if Expired(s[j].token, now) then RemoveAt(t, j) else t
  {
    assert s[j..][1..] == s[j + 1..];
  }
}
