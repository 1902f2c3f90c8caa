/** What any run of cache operations leaves behind: the recency sequence against its history. */
module LruHistory {
  import opened Basics
  import opened LruSpec

  datatype Op =
    | PutOp(key: string, token: Token)
    | GetOp(key: string, now: int)
    | DeleteOp(key: string)
    | CleanupOp(now: int)

  function Apply(s: seq<Slot>, maxSize: nat, op: Op): seq<Slot> {
    match op
    case PutOp(key, token) => Put(s, maxSize, key, token)
    case GetOp(key, now) => Get(s, key, now)
    case DeleteOp(key) => Delete(s, key)
    case CleanupOp(now) => Cleanup(s, now)
  }

  function Run(s: seq<Slot>, maxSize: nat, ops: seq<Op>): seq<Slot> {
    if ops == [] then s else Apply(Run(s, maxSize, Front(ops)), maxSize, Last(ops))
  }

  /** The keys an operation uses: those it puts and those it finds. */
  function Uses(s: seq<Slot>, op: Op): set<string> {
    match op
    case PutOp(key, _) => {key}
    case GetOp(key, now) => if Hit(s, key, now).Some? then {key} else {}
    case _ => {}
  }

  // ---------- Effects on keys ----------

  lemma KeysOfPut(s: seq<Slot>, maxSize: nat, key: string, token: Token)
    requires DistinctKeys(s) && |s| <= maxSize && maxSize > 0
    ensures var t := Put(s, maxSize, key, token);
            DistinctKeys(t) && |t| <= maxSize && t[0] == Slot(key, token)
    ensures Keys(Put(s, maxSize, key, token)) ==
            if Cached(s, key) then Keys(s)
            else if |s| < maxSize then Keys(s) + {key}
            else Keys(s) - {Last(s).key} + {key}
  {
    var slot := Slot(key, token);
    var i := IndexOf(s, key);
    if i < |s| {
      KeysMoved(s, i, slot);
    } else {
      KeysAre(s, key);
      if |s| >= maxSize {
        KeysWithout(s, |s| - 1);
        assert RemoveAt(s, |s| - 1) == s[..|s| - 1];
        KeysWith(s[..|s| - 1], slot);
      } else {
        KeysWith(s, slot);
      }
    }
  }

  lemma {:induction false} KeysOfCleanup(s: seq<Slot>, now: int)
    requires DistinctKeys(s)
    ensures var t := Cleanup(s, now); DistinctKeys(t) && Keys(t) <= Keys(s) && |t| <= |s|
  {
    if s != [] {
      KeysOfCleanup(s[1..], now);
      KeysWith(Cleanup(s[1..], now), s[0]);
    }
  }

  lemma KeysOfOther(s: seq<Slot>, maxSize: nat, op: Op)
    requires DistinctKeys(s) && !op.PutOp?
    ensures var t := Apply(s, maxSize, op); DistinctKeys(t) && Keys(t) <= Keys(s) && |t| <= |s|
  {
    match op
    case GetOp(key, now) =>
      var i := IndexOf(s, key);
      if i < |s| {
        KeysWithout(s, i);
        KeysMoved(s, i, s[i]);
      }
    case DeleteOp(key) =>
      if Cached(s, key) {
        KeysWithout(s, IndexOf(s, key));
      }
    case CleanupOp(now) => KeysOfCleanup(s, now);
  }

  /** The slots an operation other than put takes away. */
  predicate Gone(op: Op, slot: Slot)
    requires !op.PutOp?
  {
    match op
    case GetOp(key, now) => slot.key == key && now > slot.token.expiresAt
    case DeleteOp(key) => slot.key == key
    case CleanupOp(now) => now > slot.token.expiresAt
  }

  /** Get drops the entry it finds expired, delete its key, cleanup everything expired; and
      nothing else goes. */
  lemma RemovalsAreExact(s: seq<Slot>, maxSize: nat, op: Op, slot: Slot)
    requires DistinctKeys(s) && !op.PutOp?
    ensures slot in Apply(s, maxSize, op) <==> slot in s && !Gone(op, slot)
  {
    match op
    case GetOp(key, now) =>
      var i := IndexOf(s, key);
      if i < |s| {
        InRemoved(s, i, slot);
      } else if slot in s {
        KeyOf(s, slot);
      }
    case DeleteOp(key) =>
      var i := IndexOf(s, key);
      if i < |s| {
        InRemoved(s, i, slot);
      } else if slot in s {
        KeyOf(s, slot);
      }
    case CleanupOp(now) => InCleanup(s, now, slot);
  }

  lemma KeyOf(s: seq<Slot>, slot: Slot)
    requires slot in s
    ensures Cached(s, slot.key)
  {
    var j :| 0 <= j < |s| && s[j] == slot;
    KeyAt(s, j);
    KeysAre(s, slot.key);
  }

  lemma LeftIn(s: seq<Slot>, i: nat, m: nat)
    requires DistinctKeys(s) && i < |s| && m < |RemoveAt(s, i)|
    ensures RemoveAt(s, i)[m] in s && RemoveAt(s, i)[m].key != s[i].key
  {
    KeyGone(s, i, RemoveAt(s, i)[m]);
    assert RemoveAt(s, i)[m] == s[if m < i then m else m + 1];
  }

  lemma StaysIn(s: seq<Slot>, i: nat, j: nat)
    requires i < |s| && j < |s| && i != j
    ensures s[j] in RemoveAt(s, i)
  {
    var r := RemoveAt(s, i);
    assert s[j] == r[if j < i then j else j - 1];
  }

  lemma InRemoved(s: seq<Slot>, i: nat, slot: Slot)
    requires DistinctKeys(s) && i < |s|
    ensures slot in RemoveAt(s, i) <==> slot in s && slot.key != s[i].key
  {
    var r := RemoveAt(s, i);
    if slot in r {
      var m :| 0 <= m < |r| && r[m] == slot;
      LeftIn(s, i, m);
    }
    if slot in s && slot.key != s[i].key {
      var j :| 0 <= j < |s| && s[j] == slot;
      StaysIn(s, i, j);
    }
  }

  lemma {:induction false} InCleanup(s: seq<Slot>, now: int, slot: Slot)
    ensures slot in Cleanup(s, now) <==> slot in s && now <= slot.token.expiresAt
  {
    if s != [] {
      InCleanup(s[1..], now, slot);
      assert s == [s[0]] + s[1..];
    }
  }

  /** In every run the cache holds each key once and never exceeds its size. */
  lemma {:induction false} RunIsBounded(maxSize: nat, ops: seq<Op>)
    requires maxSize > 0
    ensures var s := Run([], maxSize, ops); DistinctKeys(s) && |s| <= maxSize
  {
    if ops != [] {
      RunIsBounded(maxSize, Front(ops));
      var s := Run([], maxSize, Front(ops));
      match Last(ops)
      case PutOp(key, token) => KeysOfPut(s, maxSize, key, token);
      case _ => KeysOfOther(s, maxSize, Last(ops));
    }
  }

  // ---------- Values ----------

  /** What was last put under `key`, unless it was deleted since. */
  function LastPut(ops: seq<Op>, key: string): Option<Token> {
    if ops == [] then None
    else if Last(ops).PutOp? && Last(ops).key == key then Some(Last(ops).token)
    else if Last(ops).DeleteOp? && Last(ops).key == key then None
    else LastPut(Front(ops), key)
  }

  /** Every slot of `t` is a slot of `s`. */
  predicate Within(t: seq<Slot>, s: seq<Slot>) {
    forall i :: 0 <= i < |t| ==> t[i] in s
  }

  lemma {:induction false} CleanupWithin(s: seq<Slot>, now: int)
    ensures Within(Cleanup(s, now), s)
  {
    if s != [] {
      CleanupWithin(s[1..], now);
      assert s == [s[0]] + s[1..];
    }
  }

  /** Whatever the cache holds is the last value put under its key. */
  lemma {:induction false} RunHoldsLastPuts(maxSize: nat, ops: seq<Op>, slot: Slot)
    requires maxSize > 0 && slot in Run([], maxSize, ops)
    ensures LastPut(ops, slot.key) == Some(slot.token)
  {
    if ops != [] {
      var s := Run([], maxSize, Front(ops));
      RunIsBounded(maxSize, Front(ops));
      var op := Last(ops);
      if op.CleanupOp? {
        CleanupWithin(s, op.now);
      }
      if slot in s {
        RunHoldsLastPuts(maxSize, Front(ops), slot);
        var j :| 0 <= j < |s| && s[j] == slot;
        KeyAt(s, j);
        if op.PutOp? && op.key == slot.key {
          KeyGone(s, j, slot);
        } else if op.DeleteOp? && op.key == slot.key {
          KeyGone(s, j, slot);
        }
      }
    }
  }

  lemma KeyGone(s: seq<Slot>, j: nat, slot: Slot)
    requires DistinctKeys(s) && j < |s|
    ensures forall k :: 0 <= k < |RemoveAt(s, j)| ==> RemoveAt(s, j)[k].key != s[j].key
  {
    KeysWithout(s, j);
    forall k | 0 <= k < |RemoveAt(s, j)| ensures RemoveAt(s, j)[k].key != s[j].key {
      KeyAt(RemoveAt(s, j), k);
    }
  }

  /** A lookup that succeeds returns the identity last put under the key, before its expiry. */
  lemma HitIsLastPut(maxSize: nat, ops: seq<Op>, key: string, now: int)
    requires maxSize > 0 && Hit(Run([], maxSize, ops), key, now).Some?
    ensures var put := LastPut(ops, key);
            put.Some? && Hit(Run([], maxSize, ops), key, now) == Some(put.value.identity) && now <= put.value.expiresAt
  {
    var s := Run([], maxSize, ops);
    RunHoldsLastPuts(maxSize, ops, s[IndexOf(s, key)]);
  }

  /** A lookup answers with an identity exactly when the key is cached and that identity was the
      last put under it and has not expired. */
  lemma {:induction false} HitIff(maxSize: nat, ops: seq<Op>, key: string, now: int, identity: string)
    requires maxSize > 0
    ensures Hit(Run([], maxSize, ops), key, now) == Some(identity) <==>
            && key in Keys(Run([], maxSize, ops))
            && LastPut(ops, key).Some? && LastPut(ops, key).value.identity == identity
            && now <= LastPut(ops, key).value.expiresAt
  {
    var s := Run([], maxSize, ops);
    KeysAre(s, key);
    if Cached(s, key) {
      RunHoldsLastPuts(maxSize, ops, s[IndexOf(s, key)]);
    }
  }

  // ---------- Recency ----------

  /** The position in the run of the last use of `key`, or -1. */
  function LastUse(maxSize: nat, ops: seq<Op>, key: string): (n: int)
    ensures -1 <= n < |ops|
  {
    if ops == [] then -1
    else if key in Uses(Run([], maxSize, Front(ops)), Last(ops)) then |ops| - 1
    else LastUse(maxSize, Front(ops), key)
  }

  /** `s` lists its keys from the latest use to the earliest. */
  ghost predicate LatestFirst(maxSize: nat, ops: seq<Op>, s: seq<Slot>) {
    forall i, j :: 0 <= i < j < |s| ==> LastUse(maxSize, ops, s[i].key) > LastUse(maxSize, ops, s[j].key)
  }

  lemma LatestFirstWithout(maxSize: nat, ops: seq<Op>, s: seq<Slot>, i: nat)
    requires LatestFirst(maxSize, ops, s) && i < |s|
    ensures LatestFirst(maxSize, ops, RemoveAt(s, i))
  {
    var t := RemoveAt(s, i);
    forall a, b | 0 <= a < b < |t| ensures LastUse(maxSize, ops, t[a].key) > LastUse(maxSize, ops, t[b].key) {
      var a', b' := if a < i then a else a + 1, if b < i then b else b + 1;
      assert t[a] == s[a'] && t[b] == s[b'];
    }
  }

  lemma {:induction false} LatestFirstCleanup(maxSize: nat, ops: seq<Op>, s: seq<Slot>, now: int)
    requires LatestFirst(maxSize, ops, s)
    ensures LatestFirst(maxSize, ops, Cleanup(s, now))
  {
    if s != [] {
      var rest := s[1..];
      LatestFirstCleanup(maxSize, ops, rest, now);
      CleanupWithin(rest, now);
      var t := Cleanup(rest, now);
      forall k | 0 <= k < |t| ensures LastUse(maxSize, ops, s[0].key) > LastUse(maxSize, ops, t[k].key) {
        assert t[k] in rest;
      }
    }
  }

  /** An operation that uses `key` makes it the latest; other keys keep their places. */
  lemma LatestFirstUsed(maxSize: nat, ops: seq<Op>, rest: seq<Slot>, slot: Slot)
    requires ops != [] && slot.key in Uses(Run([], maxSize, Front(ops)), Last(ops))
    requires LatestFirst(maxSize, Front(ops), rest) && slot.key !in Keys(rest)
    ensures LatestFirst(maxSize, ops, [slot] + rest)
  {
    forall k | 0 <= k < |rest|
      ensures LastUse(maxSize, ops, rest[k].key) == LastUse(maxSize, Front(ops), rest[k].key) < |ops| - 1
    {
      KeyAt(rest, k);
    }
  }

  lemma {:induction false} RunIsLatestFirst(maxSize: nat, ops: seq<Op>)
    requires maxSize > 0
    ensures LatestFirst(maxSize, ops, Run([], maxSize, ops))
  {
    if ops != [] {
      var before := Front(ops);
      var s := Run([], maxSize, before);
      RunIsLatestFirst(maxSize, before);
      RunIsBounded(maxSize, before);
      match Last(ops)
      case PutOp(key, token) =>
        var rest := Put(s, maxSize, key, token)[1..];
        RestOfPut(maxSize, before, s, key, token);
        LatestFirstUsed(maxSize, ops, rest, Slot(key, token));
      case GetOp(key, now) =>
        var i := IndexOf(s, key);
        if i < |s| {
          LatestFirstWithout(maxSize, before, s, i);
          KeysWithout(s, i);
          if Expired(s[i].token, now) {
            SameUse(maxSize, ops, RemoveAt(s, i));
          } else {
            LatestFirstUsed(maxSize, ops, RemoveAt(s, i), s[i]);
          }
        } else {
          SameUse(maxSize, ops, s);
        }
      case DeleteOp(key) =>
        if Cached(s, key) {
          LatestFirstWithout(maxSize, before, s, IndexOf(s, key));
        }
        SameUse(maxSize, ops, Delete(s, key));
      case CleanupOp(now) =>
        LatestFirstCleanup(maxSize, before, s, now);
        SameUse(maxSize, ops, Cleanup(s, now));
    }
  }

  lemma RestOfPut(maxSize: nat, before: seq<Op>, s: seq<Slot>, key: string, token: Token)
    requires maxSize > 0 && DistinctKeys(s) && |s| <= maxSize && LatestFirst(maxSize, before, s)
    ensures var t := Put(s, maxSize, key, token);
            t == [Slot(key, token)] + t[1..] && LatestFirst(maxSize, before, t[1..]) && key !in Keys(t[1..])
  {
    var t := Put(s, maxSize, key, token);
    KeysAre(s, key);
    var i := IndexOf(s, key);
    if i < |s| {
      LatestFirstWithout(maxSize, before, s, i);
      KeysWithout(s, i);
      assert t[1..] == RemoveAt(s, i);
    } else if |s| >= maxSize {
      LatestFirstWithout(maxSize, before, s, |s| - 1);
      KeysWithout(s, |s| - 1);
      assert t[1..] == RemoveAt(s, |s| - 1);
    } else {
      assert t[1..] == s;
    }
  }

  /** An operation that uses nothing changes no last use. */
  lemma SameUse(maxSize: nat, ops: seq<Op>, s: seq<Slot>)
    requires ops != [] && LatestFirst(maxSize, Front(ops), s)
    requires Uses(Run([], maxSize, Front(ops)), Last(ops)) == {}
    ensures LatestFirst(maxSize, ops, s)
  {
    forall k | 0 <= k < |s| ensures LastUse(maxSize, ops, s[k].key) == LastUse(maxSize, Front(ops), s[k].key) {}
  }

  lemma LastIsOldest(maxSize: nat, ops: seq<Op>, s: seq<Slot>, k: string)
    requires LatestFirst(maxSize, ops, s) && k in Keys(s) && k != Last(s).key
    ensures LastUse(maxSize, ops, Last(s).key) < LastUse(maxSize, ops, k)
  {
    KeysAre(s, k);
    assert IndexOf(s, k) < |s| - 1;
  }

  /** Putting a new key evicts nothing below capacity, and at capacity exactly the key
      whose last use is the earliest. */
  lemma {:induction false} EvictsLeastRecentlyUsed(maxSize: nat, ops: seq<Op>, key: string, token: Token)
    returns (victim: string)
    requires maxSize > 0 && key !in Keys(Run([], maxSize, ops))
    ensures var s := Run([], maxSize, ops);
            var t := Run([], maxSize, ops + [PutOp(key, token)]);
            if |s| < maxSize then Keys(t) == Keys(s) + {key}
            else
              && victim in Keys(s) && Keys(t) == Keys(s) - {victim} + {key}
              && forall k :: k in Keys(s) && k != victim ==> LastUse(maxSize, ops, victim) < LastUse(maxSize, ops, k)
  {
    var s := Run([], maxSize, ops);
    var longer := ops + [PutOp(key, token)];
    assert Front(longer) == ops;
    RunIsBounded(maxSize, ops);
    RunIsLatestFirst(maxSize, ops);
    KeysAre(s, key);
    KeysOfPut(s, maxSize, key, token);
    victim := "";
    if |s| == maxSize {
      victim := Last(s).key;
      KeyAt(s, |s| - 1);
      forall k | k in Keys(s) && k != victim ensures LastUse(maxSize, ops, victim) < LastUse(maxSize, ops, k) {
        LastIsOldest(maxSize, ops, s, k);
      }
    }
  }

  // ---------- Retention ----------

  /** The keys used more recently than `key`. */
  function Ahead(s: seq<Slot>, key: string): set<string> {
    if s == [] || s[0].key == key then {} else {s[0].key} + Ahead(s[1..], key)
  }

  lemma {:induction false} AheadSize(s: seq<Slot>, key: string)
    requires DistinctKeys(s) && Cached(s, key)
    ensures |Ahead(s, key)| == IndexOf(s, key) && Ahead(s, key) <= Keys(s)
  {
    if s[0].key != key {
      AheadSize(s[1..], key);
    }
  }

  lemma {:induction false} AheadWithout(s: seq<Slot>, i: nat, key: string)
    requires i < |s| && s[i].key != key && Cached(s, key)
    ensures Cached(RemoveAt(s, i), key) && Ahead(RemoveAt(s, i), key) <= Ahead(s, key)
  {
    var t := RemoveAt(s, i);
    if i == 0 {
      assert t == s[1..];
    } else if s[0].key != key {
      AheadWithout(s[1..], i - 1, key);
      assert t == [s[0]] + RemoveAt(s[1..], i - 1);
      AheadWith(RemoveAt(s[1..], i - 1), s[0], key);
    } else {
      assert t[0].key == key;
    }
  }

  lemma AheadWith(s: seq<Slot>, slot: Slot, key: string)
    ensures Ahead([slot] + s, key) == if slot.key == key then {} else {slot.key} + Ahead(s, key)
    ensures slot.key == key || Cached(s, key) ==> Cached([slot] + s, key)
  {
    assert ([slot] + s)[1..] == s;
  }

  lemma {:induction false} AheadCleanup(s: seq<Slot>, now: int, key: string)
    requires Cached(s, key) && !Expired(s[IndexOf(s, key)].token, now)
    ensures Cached(Cleanup(s, now), key) && Ahead(Cleanup(s, now), key) <= Ahead(s, key)
  {
    if s[0].key != key {
      AheadCleanup(s[1..], now, key);
      AheadWith(Cleanup(s[1..], now), s[0], key);
    } else {
      AheadWith(Cleanup(s[1..], now), s[0], key);
    }
  }

  /** The operation neither deletes `key` nor finds it expired. */
  predicate Spares(s: seq<Slot>, op: Op, key: string) {
    match op
    case PutOp(_, _) => true
    case GetOp(k, now) => k == key && Cached(s, key) ==> now <= s[IndexOf(s, key)].token.expiresAt
    case DeleteOp(k) => k != key
    case CleanupOp(now) => Cached(s, key) ==> now <= s[IndexOf(s, key)].token.expiresAt
  }

  predicate SparedThroughout(s: seq<Slot>, maxSize: nat, ops: seq<Op>, key: string) {
    ops == [] ||
    (SparedThroughout(s, maxSize, Front(ops), key) && Spares(Run(s, maxSize, Front(ops)), Last(ops), key))
  }

  /** The keys other than `key` that the run uses. */
  function OthersUsed(s: seq<Slot>, maxSize: nat, ops: seq<Op>, key: string): set<string> {
    if ops == [] then {}
    else OthersUsed(s, maxSize, Front(ops), key) + (Uses(Run(s, maxSize, Front(ops)), Last(ops)) - {key})
  }

  lemma PutKeeps(s: seq<Slot>, maxSize: nat, k: string, token: Token, key: string)
    requires DistinctKeys(s) && |s| <= maxSize && maxSize > 0 && Cached(s, key)
    requires !Cached(s, k) && |s| == maxSize ==> IndexOf(s, key) < |s| - 1
    ensures Cached(Put(s, maxSize, k, token), key)
    ensures Ahead(Put(s, maxSize, k, token), key) <= Ahead(s, key) + ({k} - {key})
  {
    AheadWith(Others(s, maxSize, k), Slot(k, token), key);
    if k != key {
      OthersKeep(s, maxSize, k, key);
    }
  }

  /** What a put leaves behind the slot it puts in front. */
  function Others(s: seq<Slot>, maxSize: nat, k: string): (r: seq<Slot>)
    ensures forall token :: Put(s, maxSize, k, token) == [Slot(k, token)] + r
  {
    var i := IndexOf(s, k);
    if i < |s| then RemoveAt(s, i) else if |s| >= maxSize && s != [] then s[..|s| - 1] else s
  }

  lemma OthersKeep(s: seq<Slot>, maxSize: nat, k: string, key: string)
    requires DistinctKeys(s) && |s| <= maxSize && maxSize > 0 && Cached(s, key) && k != key
    requires !Cached(s, k) && |s| == maxSize ==> IndexOf(s, key) < |s| - 1
    ensures Cached(Others(s, maxSize, k), key) && Ahead(Others(s, maxSize, k), key) <= Ahead(s, key)
  {
    var i := IndexOf(s, k);
    if i < |s| {
      AheadWithout(s, i, key);
    } else if |s| >= maxSize {
      KeyAt(s, |s| - 1);
      AheadWithout(s, |s| - 1, key);
      assert RemoveAt(s, |s| - 1) == s[..|s| - 1];
    }
  }

  /** One operation keeps a spared key, unless it is last in a full cache and a new key comes in. */
  lemma {:induction false} StepKeeps(s: seq<Slot>, maxSize: nat, op: Op, key: string)
    requires DistinctKeys(s) && |s| <= maxSize && maxSize > 0 && Cached(s, key) && Spares(s, op, key)
    requires op.PutOp? && !Cached(s, op.key) && |s| == maxSize ==> IndexOf(s, key) < |s| - 1
    ensures Cached(Apply(s, maxSize, op), key)
    ensures Ahead(Apply(s, maxSize, op), key) <= Ahead(s, key) + (Uses(s, op) - {key})
  {
    match op
    case PutOp(k, token) => PutKeeps(s, maxSize, k, token, key);
    case GetOp(k, now) =>
      var i := IndexOf(s, k);
      if i < |s| && k == key {
        AheadWith(RemoveAt(s, i), s[i], key);
      } else if i < |s| {
        AheadWithout(s, i, key);
        AheadWith(RemoveAt(s, i), s[i], key);
      }
    case DeleteOp(k) =>
      if Cached(s, k) {
        AheadWithout(s, IndexOf(s, k), key);
      }
    case CleanupOp(now) => AheadCleanup(s, now, key);
  }

  lemma {:induction false} RunKeeps(s: seq<Slot>, maxSize: nat, ops: seq<Op>, key: string)
    requires DistinctKeys(s) && |s| <= maxSize && maxSize > 0 && s != [] && s[0].key == key
    requires SparedThroughout(s, maxSize, ops, key)
    requires |OthersUsed(s, maxSize, ops, key)| < maxSize
    ensures var t := Run(s, maxSize, ops);
            && DistinctKeys(t) && |t| <= maxSize && Cached(t, key)
            && Ahead(t, key) <= OthersUsed(s, maxSize, ops, key)
  {
    if ops != [] {
      var before, op := Front(ops), Last(ops);
      var t := Run(s, maxSize, before);
      var others := OthersUsed(s, maxSize, before, key);
      SubsetSize(others, OthersUsed(s, maxSize, ops, key));
      RunKeeps(s, maxSize, before, key);
      AheadSize(t, key);
      if op.PutOp? && !Cached(t, op.key) && |t| == maxSize {
        KeysAre(t, op.key);
        KeyAt(t, IndexOf(t, key));
        SubsetSize(Ahead(t, key) + {op.key}, OthersUsed(s, maxSize, ops, key));
      }
      StepKeeps(t, maxSize, op, key);
      match op
      case PutOp(k, token) => KeysOfPut(t, maxSize, k, token);
      case _ => KeysOfOther(t, maxSize, op);
    }
  }

  /** A key that has been put or hit stays cached, as long as it is neither deleted nor found
      expired and fewer than `maxSize` distinct other keys are put or hit after it. */
  lemma Retention(maxSize: nat, before: seq<Op>, key: string, after: seq<Op>)
    requires maxSize > 0 && before != []
    requires key in Uses(Run([], maxSize, Front(before)), Last(before))
    requires SparedThroughout(Run([], maxSize, before), maxSize, after, key)
    requires |OthersUsed(Run([], maxSize, before), maxSize, after, key)| < maxSize
    ensures key in Keys(Run([], maxSize, before + after))
  {
    var s := Run([], maxSize, before);
    RunIsBounded(maxSize, before);
    RunKeeps(s, maxSize, after, key);
    RunAppend([], maxSize, before, after);
    KeysAre(Run(s, maxSize, after), key);
  }

  /** So a lookup then finds it, as long as it has not expired. */
  lemma {:induction false} RetainedIsHit(maxSize: nat, before: seq<Op>, key: string, after: seq<Op>, now: int)
    requires maxSize > 0 && before != []
    requires key in Uses(Run([], maxSize, Front(before)), Last(before))
    requires SparedThroughout(Run([], maxSize, before), maxSize, after, key)
    requires |OthersUsed(Run([], maxSize, before), maxSize, after, key)| < maxSize
    ensures LastPut(before + after, key).Some?
    ensures var put := LastPut(before + after, key).value;
            Hit(Run([], maxSize, before + after), key, now) == if now <= put.expiresAt then Some(put.identity) else None
  {
    var s := Run([], maxSize, before + after);
    Retention(maxSize, before, key, after);
    KeysAre(s, key);
    RunHoldsLastPuts(maxSize, before + after, s[IndexOf(s, key)]);
  }

  lemma {:induction false} RunAppend(s: seq<Slot>, maxSize: nat, a: seq<Op>, b: seq<Op>)
    ensures Run(s, maxSize, a + b) == Run(Run(s, maxSize, a), maxSize, b)
    decreases |b|
  {
    if b == [] {
      assert a + b == a;
    } else {
      RunAppend(s, maxSize, a, Front(b));
      assert Front(a + b) == a + Front(b) && Last(a + b) == Last(b);
    }
  }
}
