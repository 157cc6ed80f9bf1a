/** Python's sorted(xs, key=...): a stable sort by a key. Keys here are pairs
    compared lexicographically, as Python compares tuples; a descending sort
    on a single number x uses the key (-x, 0). */
module Sorting {

  datatype Key = Key(major: real, minor: real)

  predicate Less(a: Key, b: Key)
  {
    a.major < b.major || (a.major == b.major && a.minor < b.minor)
  }

  /** No element is strictly smaller, by key, than one before it. */
  predicate SortedBy<T>(s: seq<T>, key: T -> Key)
  {
    forall i, j :: 0 <= i < j < |s| ==> !Less(key(s[j]), key(s[i]))
  }

  /** Puts x after every element whose key is not greater than its own, so
      that equal keys keep their order of arrival. */
  function Insert<T(==)>(x: T, s: seq<T>, key: T -> Key): (r: seq<T>)
    requires SortedBy(s, key)
    ensures |r| == |s| + 1
    ensures SortedBy(r, key)
    ensures multiset(r) == multiset(s) + multiset{x}
  {
    if s == [] then [x]
    else if Less(key(x), key(s[0])) then [x] + s
    else
      var rest := Insert(x, s[1..], key);
      InsertHead(x, s, key, rest);
      [s[0]] + rest
  }

  lemma InsertHead<T>(x: T, s: seq<T>, key: T -> Key, rest: seq<T>)
    requires SortedBy(s, key) && s != [] && !Less(key(x), key(s[0]))
    requires SortedBy(rest, key)
    requires multiset(rest) == multiset(s[1..]) + multiset{x}
    ensures SortedBy([s[0]] + rest, key)
    ensures multiset([s[0]] + rest) == multiset(s) + multiset{x}
  {
    assert s == [s[0]] + s[1..];
    forall j | 0 <= j < |rest| ensures !Less(key(rest[j]), key(s[0])) {
      assert rest[j] in multiset(rest);
      if rest[j] != x {
        assert rest[j] in multiset(s[1..]);
        var k :| 0 <= k < |s[1..]| && s[1..][k] == rest[j];
        assert s[k + 1] == rest[j];
      }
    }
    var r := [s[0]] + rest;
    forall i, j | 0 <= i < j < |r| ensures !Less(key(r[j]), key(r[i])) {
      if i > 0 { assert r[i] == rest[i - 1] && r[j] == rest[j - 1]; }
      else { assert r[j] == rest[j - 1]; }
    }
  }

  /** The stable sort: each element is inserted after those that arrived
      before it with the same key. */
  function Sort<T(==)>(s: seq<T>, key: T -> Key): (r: seq<T>)
    ensures SortedBy(r, key)
    ensures multiset(r) == multiset(s)
    ensures |r| == |s|
  {
    if s == [] then []
    else
      assert s == s[..|s| - 1] + [s[|s| - 1]];
      Insert(s[|s| - 1], Sort(s[..|s| - 1], key), key)
  }

  lemma SortMembers<T>(s: seq<T>, key: T -> Key)
    ensures forall x :: x in Sort(s, key) <==> x in s
  {
    var r := Sort(s, key);
    forall x ensures x in r <==> x in s {
      assert x in r <==> x in multiset(r);
      assert x in s <==> x in multiset(s);
    }
  }

  /** The elements of s whose key is k, in their order in s. */
  function WithKey<T>(s: seq<T>, key: T -> Key, k: Key): seq<T>
  {
    if s == [] then [] else (if key(s[0]) == k then [s[0]] else []) + WithKey(s[1..], key, k)
  }

  lemma {:induction false} WithKeyConcat<T>(a: seq<T>, b: seq<T>, key: T -> Key, k: Key)
    ensures WithKey(a + b, key, k) == WithKey(a, key, k) + WithKey(b, key, k)
  {
    if a == [] {
      assert a + b == b;
    } else {
      assert (a + b)[1..] == a[1..] + b;
      WithKeyConcat(a[1..], b, key, k);
    }
  }

  /** The tail of a sorted list is sorted. */
  lemma SortedTail<T>(s: seq<T>, key: T -> Key)
    requires SortedBy(s, key) && s != []
    ensures SortedBy(s[1..], key)
  {
    var t := s[1..];
    forall i, j | 0 <= i < j < |t| ensures !Less(key(t[j]), key(t[i])) {
      assert t[i] == s[i + 1] && t[j] == s[j + 1];
    }
  }

  /** A sorted list whose first key is above k holds nothing with key k. */
  lemma {:induction false} NoneWithKey<T>(s: seq<T>, key: T -> Key, k: Key)
    requires SortedBy(s, key) && s != [] && Less(k, key(s[0]))
    ensures WithKey(s, key, k) == []
  {
    var t := s[1..];
    if t != [] {
      assert !Less(key(s[1]), key(s[0]));
      SortedTail(s, key);
      NoneWithKey(t, key, k);
    }
  }

  /** x inserted in front of a sorted list whose first key is above its own. */
  lemma InsertFront<T>(x: T, s: seq<T>, key: T -> Key, k: Key)
    requires SortedBy(s, key) && s != [] && Less(key(x), key(s[0]))
    ensures WithKey([x] + s, key, k) == WithKey(s, key, k) + WithKey([x], key, k)
  {
    WithKeyConcat([x], s, key, k);
    if key(x) == k {
      NoneWithKey(s, key, k);
    }
  }

  /** x inserted behind the head of a sorted list. */
  lemma InsertBehind<T>(x: T, s: seq<T>, rest: seq<T>, key: T -> Key, k: Key)
    requires s != []
    requires WithKey(rest, key, k) == WithKey(s[1..], key, k) + WithKey([x], key, k)
    ensures WithKey([s[0]] + rest, key, k) == WithKey(s, key, k) + WithKey([x], key, k)
  {
    WithKeyConcat([s[0]], rest, key, k);
    WithKeyConcat([s[0]], s[1..], key, k);
    assert s == [s[0]] + s[1..];
  }

  /** Inserting x puts it after every element with the same key. */
  lemma {:induction false} InsertStable<T>(x: T, s: seq<T>, key: T -> Key, k: Key)
    requires SortedBy(s, key)
    ensures WithKey(Insert(x, s, key), key, k) == WithKey(s, key, k) + WithKey([x], key, k)
  {
    if s == [] {
      assert Insert(x, s, key) == [x];
    } else if Less(key(x), key(s[0])) {
      assert Insert(x, s, key) == [x] + s;
      InsertFront(x, s, key, k);
    } else {
      SortedTail(s, key);
      InsertStable(x, s[1..], key, k);
      assert Insert(x, s, key) == [s[0]] + Insert(x, s[1..], key);
      InsertBehind(x, s, Insert(x, s[1..], key), key, k);
    }
  }

  /** The sort is stable: the elements with any one key appear in the
      result in the order in which they appear in the input. */
  lemma {:induction false} SortStable<T>(s: seq<T>, key: T -> Key, k: Key)
    ensures WithKey(Sort(s, key), key, k) == WithKey(s, key, k)
  {
    if s != [] {
      var init := s[..|s| - 1];
      SortStable(init, key, k);
      InsertStable(s[|s| - 1], Sort(init, key), key, k);
      assert s == init + [s[|s| - 1]];
      WithKeyConcat(init, [s[|s| - 1]], key, k);
    }
  }
}
