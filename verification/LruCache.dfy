/** internal/auth/oauth.go: lruCache, a doubly linked list and a map that must agree. */
module LruCache {
  import opened Basics
  import opened LruSpec

  /** A list element and the cacheNode it carries. */
  class Element {
    const key: string
    var token: Token
    var prev: Element?
    var next: Element?

    constructor (key: string, token: Token)
      ensures this.key == key && this.token == token
    {
      this.key, this.token := key, token;
      prev, next := null, null;
    }
  }

  lemma {:induction false} DistinctRemove<T>(s: seq<T>, i: nat)
    requires Distinct(s) && i < |s|
    ensures Distinct(RemoveAt(s, i)) && s[i] !in RemoveAt(s, i)
  {
    if i == 0 {
      assert RemoveAt(s, 0) == s[1..];
    } else {
      DistinctRemove(s[1..], i - 1);
      assert RemoveAt(s, i) == [s[0]] + RemoveAt(s[1..], i - 1);
      assert s[i] == s[1..][i - 1];
    }
  }

  /** Where an element of a shortened or reordered list was before. */
  lemma RemovedAt<T>(s: seq<T>, i: nat, k: nat)
    requires i < |s| && k < |s| - 1
    ensures RemoveAt(s, i)[k] == s[if k < i then k else k + 1]
  {}

  lemma MovedAt<T>(s: seq<T>, i: nat, k: nat)
    requires i < |s| && 0 < k < |s|
    ensures ([s[i]] + RemoveAt(s, i))[k] == s[if k - 1 < i then k - 1 else k]
  {}

  lemma Indices<T>(s: seq<T>)
    requires Distinct(s)
    ensures forall i, j :: 0 <= i < j < |s| ==> s[i] != s[j]
  {
    forall i, j | 0 <= i < j < |s| ensures s[i] != s[j] {
      DistinctAt(s, i, j);
    }
  }

  lemma FirstIs<T>(s: seq<T>, i: nat)
    requires Distinct(s) && i < |s| && s[i] == s[0]
    ensures i == 0 && s == [s[i]] + RemoveAt(s, i)
  {
    var rest := s[1..];
    assert forall j :: 0 <= j < |rest| ==> rest[j] == s[j + 1];
    assert s[0] !in rest;
  }

  /** The element at a place, or null beyond the ends. */
  ghost function PlaceOf(s: seq<Element>, k: int): Element? {
    if 0 <= k < |s| then s[k] else null
  }

  /** The neighbours and the ends once element i is gone. */
  lemma RemovedLinks(s: seq<Element>, i: nat, k: nat)
    requires i < |s| && k < |s| - 1
    ensures var r, o := RemoveAt(s, i), if k < i then k else k + 1;
            && r[k] == s[o] && o != i
            && PlaceOf(r, k + 1) == PlaceOf(s, if o + 1 == i then i + 1 else o + 1)
            && PlaceOf(r, k - 1) == PlaceOf(s, if o - 1 == i then i - 1 else o - 1)
  {}

  lemma RemovedEnds(s: seq<Element>, i: nat)
    requires i < |s|
    ensures PlaceOf(RemoveAt(s, i), 0) == PlaceOf(s, if i == 0 then 1 else 0)
    ensures PlaceOf(RemoveAt(s, i), |s| - 2) == PlaceOf(s, if i == |s| - 1 then i - 1 else |s| - 1)
  {}

  /** The doubly linked list, with the sequence of elements it stands for. */
  class RecencyList {
    var front: Element?
    var back: Element?
    var size: nat
    ghost var elements: seq<Element>
    /** Every element that is or was in the list. */
    ghost var repr: set<Element>

    ghost predicate Valid()
      reads this, repr
    {
      && size == |elements|
      && front == PlaceOf(elements, 0) && back == PlaceOf(elements, |elements| - 1)
      && Distinct(elements)
      && (forall i :: 0 <= i < |elements| ==> elements[i] in repr)
      && (forall i {:trigger elements[i].next} :: 0 <= i < |elements| ==>
            elements[i].next == PlaceOf(elements, i + 1))
      && (forall i {:trigger elements[i].prev} :: 0 <= i < |elements| ==>
            elements[i].prev == PlaceOf(elements, i - 1))
    }

    constructor ()
      ensures Valid() && elements == [] && repr == {}
    {
      front, back, size, elements, repr := null, null, 0, [], {};
    }

    method PushFront(e: Element)
      requires Valid() && e !in elements
      modifies this, e`prev, e`next, repr`prev
      ensures Valid() && elements == [e] + old(elements) && repr == old(repr) + {e}
    {
      e.prev, e.next := null, front;
      if front != null {
        front.prev := e;
      } else {
        back := e;
      }
      front, size := e, size + 1;
      elements, repr := [e] + elements, repr + {e};
    }

    /** Let the neighbours of an element, and the ends of the list, pass it by. */
    method Unlink(e: Element, ghost i: nat)
      requires Valid() && i < |elements| && elements[i] == e
      modifies this`front, this`back, repr`prev, repr`next
      ensures front == PlaceOf(elements, if i == 0 then 1 else 0)
      ensures back == PlaceOf(elements, if i == |elements| - 1 then i - 1 else |elements| - 1)
      ensures forall k {:trigger elements[k].next} :: 0 <= k < |elements| && k != i ==>
                elements[k].next == PlaceOf(elements, if k + 1 == i then i + 1 else k + 1)
      ensures forall k {:trigger elements[k].prev} :: 0 <= k < |elements| && k != i ==>
                elements[k].prev == PlaceOf(elements, if k - 1 == i then i - 1 else k - 1)
    {
      Indices(elements);
      if e.prev != null {
        e.prev.next := e.next;
      } else {
        front := e.next;
      }
      if e.next != null {
        e.next.prev := e.prev;
      } else {
        back := e.prev;
      }
    }

    method Remove(e: Element, ghost i: nat)
      requires Valid() && i < |elements| && elements[i] == e
      modifies this, repr`prev, repr`next
      ensures Valid() && elements == RemoveAt(old(elements), i) && repr == old(repr)
      ensures e !in elements
    {
      DistinctRemove(elements, i);
      Unlink(e, i);
      ghost var was := elements;
      size := size - 1;
      elements := RemoveAt(elements, i);
      RemovedEnds(was, i);
      Relinked(was, i);
    }

    /** The links that pass element i by are the links of the shorter list. */
    lemma Relinked(was: seq<Element>, i: nat)
      requires i < |was| && elements == RemoveAt(was, i)
      requires forall k {:trigger was[k].next} :: 0 <= k < |was| && k != i ==>
                 was[k] in repr && was[k].next == PlaceOf(was, if k + 1 == i then i + 1 else k + 1)
      requires forall k {:trigger was[k].prev} :: 0 <= k < |was| && k != i ==>
                 was[k].prev == PlaceOf(was, if k - 1 == i then i - 1 else k - 1)
      ensures forall k {:trigger elements[k].next} :: 0 <= k < |elements| ==>
                elements[k] in repr && elements[k].next == PlaceOf(elements, k + 1)
      ensures forall k {:trigger elements[k].prev} :: 0 <= k < |elements| ==>
                elements[k].prev == PlaceOf(elements, k - 1)
    {
      forall k | 0 <= k < |elements|
        ensures elements[k] in repr
        ensures elements[k].next == PlaceOf(elements, k + 1) && elements[k].prev == PlaceOf(elements, k - 1)
      {
        RemovedLinks(was, i, k);
        var o := if k < i then k else k + 1;
        assert was[o].next == PlaceOf(was, if o + 1 == i then i + 1 else o + 1);
        assert was[o].prev == PlaceOf(was, if o - 1 == i then i - 1 else o - 1);
      }
    }

    method MoveToFront(e: Element, ghost i: nat)
      requires Valid() && i < |elements| && elements[i] == e
      modifies this, repr`prev, repr`next
      ensures Valid() && elements == [e] + RemoveAt(old(elements), i) && repr == old(repr)
    {
      if front == e {
        FirstIs(elements, i);
        return;
      }
      Remove(e, i);
      PushFront(e);
    }
  }

  class Cache {
    const maxSize: nat
    const list: RecencyList
    var items: map<string, Element>
    /** The recency sequence this cache stands for. */
    ghost var recency: seq<Slot>

    ghost predicate Valid()
      reads this, list, list.repr
    {
      && 0 < maxSize
      && list.Valid() && |recency| == |list.elements| <= maxSize
      && items.Keys == Keys(recency) && DistinctKeys(recency)
      && (forall i :: 0 <= i < |recency| ==> Shows(recency[i], list.elements[i]))
    }

    /** A list element carries what its slot says, and the map leads to it. */
    ghost predicate Shows(slot: Slot, e: Element)
      reads this, e
    {
      slot == Slot(e.key, e.token) && e.key in items && items[e.key] == e
    }

    constructor (configured: int)
      ensures Valid() && fresh(list) && fresh(list.repr) && recency == []
      ensures maxSize == if configured > 0 then configured else 1000
    {
      maxSize := if configured <= 0 then 1000 else configured;
      list := new RecencyList();
      items := map[];
      recency := [];
    }

    lemma Position(key: string) returns (i: nat)
      requires Valid() && key in items
      ensures i < |recency| && list.elements[i] == items[key] && i == IndexOf(recency, key)
    {
      KeysAre(recency, key);
      i := IndexOf(recency, key);
    }

    lemma Absent(key: string)
      requires Valid() && key !in items
      ensures IndexOf(recency, key) == |recency|
    {
      KeysAre(recency, key);
    }

    /** No other slot has the key of slot `i`. */
    lemma Others(i: nat)
      requires Valid() && i < |recency|
      ensures forall j :: 0 <= j < |recency| && j != i ==> recency[j].key != recency[i].key
    {
      KeyAt(recency, i);
      forall j | 0 <= j < |recency| && j != i ensures recency[j].key != recency[i].key {
        KeyAt(recency, j);
      }
    }

    /** Take an element out of the map and the list. */
    method Drop(e: Element, ghost i: nat)
      requires Valid() && i < |list.elements| && list.elements[i] == e
      modifies this`items, this`recency, list, list.repr`prev, list.repr`next
      ensures Valid() && list.repr == old(list.repr)
      ensures list.elements == RemoveAt(old(list.elements), i) && recency == RemoveAt(old(recency), i)
    {
      Others(i);
      KeysWithout(recency, i);
      ghost var was, elements := recency, list.elements;
      items := items - {e.key};
      recency := RemoveAt(recency, i);
      list.Remove(e, i);
      forall k | 0 <= k < |recency|
        ensures Shows(recency[k], list.elements[k])
      {
        RemovedAt(was, i, k);
        RemovedAt(elements, i, k);
      }
    }

    /** No slot has a key that is not in the map. */
    lemma NewKey(key: string)
      requires Valid() && key !in items
      ensures forall j :: 0 <= j < |recency| ==> list.elements[j].key != key && recency[j].key in items
    {
      forall j | 0 <= j < |recency| ensures list.elements[j].key != key && recency[j].key in items {
        KeyAt(recency, j);
        assert Shows(recency[j], list.elements[j]);
      }
    }

    /** Put a new element in front. */
    method Add(key: string, token: Token)
      requires Valid() && |recency| < maxSize && key !in items
      modifies this`items, this`recency, list, list.repr`prev
      ensures Valid() && fresh(list.repr - old(list.repr))
      ensures recency == [Slot(key, token)] + old(recency)
    {
      KeysWith(recency, Slot(key, token));
      NewKey(key);
      ghost var was, elements := recency, list.elements;
      var e := new Element(key, token);
      items := items[key := e];
      recency := [Slot(key, token)] + recency;
      list.PushFront(e);
      forall k | 0 < k < |recency|
        ensures Shows(recency[k], list.elements[k])
      {
        assert recency[k] == was[k - 1] && list.elements[k] == elements[k - 1];
      }
    }

    /** Move an element to the front. */
    method MoveUp(e: Element, ghost i: nat)
      requires Valid() && i < |list.elements| && list.elements[i] == e
      modifies this`recency, list, list.repr`prev, list.repr`next
      ensures Valid() && list.repr == old(list.repr) && |recency| > 0 && list.elements[0] == e
      ensures recency == [old(recency)[i]] + RemoveAt(old(recency), i)
    {
      KeysMoved(recency, i, recency[i]);
      ghost var was, elements := recency, list.elements;
      recency := [was[i]] + RemoveAt(was, i);
      list.MoveToFront(e, i);
      forall k | 0 < k < |recency|
        ensures Shows(recency[k], list.elements[k])
      {
        MovedAt(was, i, k);
        MovedAt(elements, i, k);
      }
    }

    /** Overwrite the token of the front element. */
    method Refresh(e: Element, token: Token)
      requires Valid() && |recency| > 0 && list.elements[0] == e
      modifies this`recency, e`token
      ensures Valid() && recency == old(recency)[0 := Slot(e.key, token)]
    {
      Others(0);
      KeysRefreshed(recency, Slot(e.key, token));
      ghost var was := recency;
      recency := was[0 := Slot(e.key, token)];
      e.token := token;
      forall k | 0 < k < |recency|
        ensures Shows(recency[k], list.elements[k])
      {
        assert recency[k] == was[k];
      }
    }

    /** Drop the element at the back, if there is one. */
    method Evict()
      requires Valid()
      modifies this, list, list.repr
      ensures Valid() && list.repr == old(list.repr) && items.Keys <= old(items).Keys
      ensures recency == if old(recency) == [] then [] else old(recency)[..|old(recency)| - 1]
    {
      var last := list.back;
      if last != null {
        ghost var n := |recency| - 1;
        Drop(last, n);
        KeysWithout(old(recency), n);
        assert recency == old(recency)[..n];
      }
    }

    /** Put for a key that is cached. */
    method Overwrite(key: string, token: Token)
      requires Valid() && key in items
      modifies this, list, list.repr
      ensures Valid() && list.repr == old(list.repr)
      ensures recency == LruSpec.Put(old(recency), maxSize, key, token)
    {
      ghost var i := Position(key);
      var e := items[key];
      MoveUp(e, i);
      Refresh(e, token);
    }

    method Put(key: string, token: Token)
      requires Valid()
      modifies this, list, list.repr
      ensures Valid() && fresh(list.repr - old(list.repr))
      ensures recency == LruSpec.Put(old(recency), maxSize, key, token)
    {
      if key in items {
        Overwrite(key, token);
        return;
      }
      Absent(key);
      if list.size >= maxSize {
        Evict();
      }
      Add(key, token);
    }

    method Get(key: string, now: int) returns (r: Option<string>)
      requires Valid()
      modifies this, list, list.repr
      ensures Valid() && list.repr == old(list.repr)
      ensures recency == LruSpec.Get(old(recency), key, now)
      ensures r == Hit(old(recency), key, now)
    {
      if key !in items {
        Absent(key);
        return None;
      }
      var e := items[key];
      ghost var i := Position(key);
      if now > e.token.expiresAt {
        Drop(e, i);
        return None;
      }
      MoveUp(e, i);
      return Some(e.token.identity);
    }

    method Delete(key: string)
      requires Valid()
      modifies this, list, list.repr
      ensures Valid() && list.repr == old(list.repr)
      ensures recency == LruSpec.Delete(old(recency), key)
    {
      if key in items {
        ghost var i := Position(key);
        Drop(items[key], i);
      } else {
        Absent(key);
      }
    }

    /** One visit of the sweep, to the element at place `j` of the original sequence `s`. */
    method Visit(e: Element, now: int, ghost s: seq<Slot>, ghost j: nat) returns (prev: Element?)
      requires Valid() && j < |s| && j < |recency| && list.elements[j] == e
      requires recency == s[..j + 1] + LruSpec.Cleanup(s[j + 1..], now)
      modifies this, list, list.repr
      ensures Valid() && list.repr == old(list.repr) && j <= |recency|
      ensures prev == PlaceOf(list.elements, j - 1)
      ensures recency == s[..j] + LruSpec.Cleanup(s[j..], now)
    {
      prev := e.prev;
      SweepStep(s, j, now);
      if now > e.token.expiresAt {
        ghost var elements := list.elements;
        Drop(e, j);
        if j > 0 {
          RemovedAt(elements, j, j - 1);
        }
      }
    }

    method Cleanup(now: int)
      requires Valid()
      modifies this, list, list.repr
      ensures Valid() && list.repr == old(list.repr)
      ensures recency == LruSpec.Cleanup(old(recency), now)
    {
      ghost var s := recency;
      ghost var j := |recency|;
      var e := list.back;
      assert s[j..] == [] && s[..j] == s;
      while e != null
        invariant Valid() && list.repr == old(list.repr) && 0 <= j <= |s| && j <= |recency|
        invariant e == PlaceOf(list.elements, j - 1)
        invariant recency == s[..j] + LruSpec.Cleanup(s[j..], now)
        decreases j
      {
        j := j - 1;
        e := Visit(e, now, s, j);
      }
    }
  }
}
