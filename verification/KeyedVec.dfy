/** A vector searched by a key, first match first: how the note and query files keep their stanzas. */
module KeyedVec {
  import opened Wrappers

  function IndexOf<T>(s: seq<T>, key: T -> string, k: string): (r: Option<nat>)
    ensures r.Some? ==> r.value < |s| && key(s[r.value]) == k && forall j | 0 <= j < r.value :: key(s[j]) != k
    ensures r.None? ==> forall j | 0 <= j < |s| :: key(s[j]) != k
  {
    if s == [] then None
    else if key(s[0]) == k then Some(0)
    else
      match IndexOf(s[1..], key, k)
      case None => None
      case Some(i) => Some(i + 1)
  }

  function Find<T>(s: seq<T>, key: T -> string, k: string): Option<T> {
    var i := IndexOf(s, key, k);
    if i.Some? then Some(s[i.value]) else None
  }

  function FindOr<T>(s: seq<T>, key: T -> string, k: string, blank: T): T {
    var found := Find(s, key, k);
    if found.Some? then found.value else blank
  }

  /** Replaces the first element called `k`, or appends. */
  function Put<T>(s: seq<T>, key: T -> string, k: string, x: T): seq<T> {
    var i := IndexOf(s, key, k);
    if i.Some? then s[i.value := x] else s + [x]
  }

  function Retain<T>(s: seq<T>, keep: T -> bool): seq<T> {
    if s == [] then [] else (if keep(s[0]) then [s[0]] else []) + Retain(s[1..], keep)
  }

  ghost predicate Unique<T>(s: seq<T>, key: T -> string) {
    forall i, j | 0 <= i < j < |s| :: key(s[i]) != key(s[j])
  }

  /** The first match is determined by where it is. */
  lemma IndexOfIs<T>(s: seq<T>, key: T -> string, k: string, i: nat)
    requires i < |s| && key(s[i]) == k && forall j | 0 <= j < i :: key(s[j]) != k
    ensures IndexOf(s, key, k) == Some(i)
  {
  }

  lemma FindAfterPut<T>(s: seq<T>, key: T -> string, k: string, x: T, other: string)
    requires key(x) == k
    ensures Find(Put(s, key, k, x), key, other) == if other == k then Some(x) else Find(s, key, other)
  {
    var next := Put(s, key, k, x);
    var was, now := IndexOf(s, key, other), IndexOf(next, key, other);
    if other == k {
      IndexOfIs(next, key, k, if was.Some? then was.value else |s|);
    } else if was.Some? {
      IndexOfIs(next, key, other, was.value);
    } else {
      assert forall j | 0 <= j < |next| :: key(next[j]) != other;
    }
  }

  lemma PutKeepsUnique<T>(s: seq<T>, key: T -> string, k: string, x: T)
    requires Unique(s, key) && key(x) == k
    ensures Unique(Put(s, key, k, x), key)
    ensures forall y | y in Put(s, key, k, x) :: y == x || y in s
  {
  }

  lemma {:induction false} RetainSpec<T(!new)>(s: seq<T>, keep: T -> bool)
    ensures forall x :: x in Retain(s, keep) <==> x in s && keep(x)
  {
    if s != [] {
      assert s == [s[0]] + s[1..];
      RetainSpec(s[1..], keep);
    }
  }

  lemma {:induction false} RetainKeepsUnique<T(!new)>(s: seq<T>, keep: T -> bool, key: T -> string)
    requires Unique(s, key)
    ensures Unique(Retain(s, keep), key)
  {
    if s != [] {
      var rest := Retain(s[1..], keep);
      RetainKeepsUnique(s[1..], keep, key);
      RetainSpec(s[1..], keep);
      assert forall i | 0 <= i < |rest| :: rest[i] in rest;
    }
  }

  lemma FindIfUnique<T>(s: seq<T>, key: T -> string, x: T)
    requires Unique(s, key) && x in s
    ensures Find(s, key, key(x)) == Some(x)
  {
    var i :| 0 <= i < |s| && s[i] == x;
    IndexOfIs(s, key, key(x), i);
  }

  /** With distinct keys, dropping elements hides exactly the dropped ones. */
  lemma FindAfterRetain<T(!new)>(s: seq<T>, keep: T -> bool, key: T -> string, k: string)
    requires Unique(s, key)
    ensures var found := Find(s, key, k);
            Find(Retain(s, keep), key, k) == if found.Some? && keep(found.value) then found else None
  {
    RetainSpec(s, keep);
    RetainKeepsUnique(s, keep, key);
    var found, now := Find(s, key, k), Find(Retain(s, keep), key, k);
    if now.Some? {
      FindIfUnique(s, key, now.value);
    } else if found.Some? && keep(found.value) {
      FindIfUnique(Retain(s, keep), key, found.value);
    }
  }

  /** Dropping the one element called `k`. */
  lemma {:induction false} RetainAllBut<T(!new)>(s: seq<T>, key: T -> string, keep: T -> bool, k: string)
    requires Unique(s, key) && forall x: T :: keep(x) <==> key(x) != k
    ensures var i := IndexOf(s, key, k);
            Retain(s, keep) == if i.Some? then s[..i.value] + s[i.value + 1..] else s
  {
    if s != [] {
      RetainAllBut(s[1..], key, keep, k);
    }
  }

  lemma SameKeysSamePlace<T>(s: seq<T>, t: seq<T>, key: T -> string, k: string)
    requires |s| == |t| && forall i | 0 <= i < |s| :: key(s[i]) == key(t[i])
    ensures IndexOf(s, key, k) == IndexOf(t, key, k)
  {
    var i := IndexOf(s, key, k);
    if i.Some? {
      IndexOfIs(t, key, k, i.value);
    }
  }
}
