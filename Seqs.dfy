/** Sequence utilities with JavaScript's meaning: an Option for values that may be
    absent, Array.prototype.slice, the stable Array.prototype.sort of ECMAScript 2019
    (section 22.1.3.27) with a numeric key comparator, and plain objects used as
    string-keyed maps, which remember the order in which their keys were added. */
module Seqs {

  datatype Option<T> = None | Some(value: T)

  // ---------------------------------------------------------------------------
  // Array.prototype.slice(start, end)
  // ---------------------------------------------------------------------------

  /** How slice resolves one of its arguments against the length: a negative index
      counts from the end, and the result is clamped to [0, len]. */
  function RelativeIndex(x: int, len: nat): nat
  {
    if x < 0 then (if len + x > 0 then len + x else 0) else if x < len then x else len
  }

  /** s.slice(start, end). */
  function Slice<T>(s: seq<T>, start: int, end: int): (r: seq<T>)
    ensures |r| <= |s|
    ensures forall x :: x in r ==> x in s
    ensures 0 <= start <= end ==>
      r == s[if start < |s| then start else |s| .. if end < |s| then end else |s|]
    ensures 0 <= start <= end ==> |r| <= end - start
  {
    var from := RelativeIndex(start, |s|);
    var to := RelativeIndex(end, |s|);
    if from < to then s[from..to] else []
  }

  function Min(a: int, b: int): int
  {
    if a < b then a else b
  }

  /** Page `page` (counted from 1) of size pageSize: s.slice(start, start + pageSize)
      with start = (page - 1) * pageSize. */
  function Page<T>(s: seq<T>, page: int, pageSize: int): seq<T>
  {
    var start := (page - 1) * pageSize;
    Slice(s, start, start + pageSize)
  }

  /** The arithmetic of page bounds, kept apart from the sequence reasoning. */
  lemma PageBounds(page: int, pageSize: int)
    requires page >= 1 && pageSize >= 0
    ensures 0 <= (page - 1) * pageSize <= page * pageSize
    ensures (page - 1) * pageSize + pageSize == page * pageSize
  {
  }

  /** Page `page` is elements [(page-1)*pageSize, page*pageSize) of s, clipped to |s|. */
  lemma PageRange<T>(s: seq<T>, page: int, pageSize: int)
    requires page >= 1 && pageSize >= 0
    ensures 0 <= (page - 1) * pageSize <= page * pageSize
    ensures Page(s, page, pageSize) == s[Min((page - 1) * pageSize, |s|)..Min(page * pageSize, |s|)]
    ensures |Page(s, page, pageSize)| <= pageSize
  {
    PageBounds(page, pageSize);
  }

  /** Pages 1 to k, one after another. */
  function PagesUpTo<T>(s: seq<T>, pageSize: int, k: nat): seq<T>
  {
    if k == 0 then [] else PagesUpTo(s, pageSize, k - 1) + Page(s, k, pageSize)
  }

  /** Reading pages 1 to k in order gives the first k*pageSize elements. */
  lemma {:induction false} PagesUpToPrefix<T>(s: seq<T>, pageSize: nat, k: nat)
    ensures var n: nat := k * pageSize; PagesUpTo(s, pageSize, k) == s[..Min(n, |s|)]
  {
    if k == 0 {
      assert k * pageSize == 0;
    } else {
      var lo, hi := (k - 1) * pageSize, k * pageSize;
      PageBounds(k, pageSize);
      PagesUpToPrefix(s, pageSize, k - 1);
      var a, b := Min(lo, |s|), Min(hi, |s|);
      assert s[..a] + s[a..b] == s[..b];
    }
  }

  /** Removing element i of s, for i before the last element, keeps the last element
      last and removes element i of the rest; removing the last element is dropping it. */
  lemma RemoveAt<T>(s: seq<T>, i: nat)
    requires i < |s|
    ensures |s[..i] + s[i + 1..]| == |s| - 1
    ensures i == |s| - 1 ==> s[..i] + s[i + 1..] == s[..|s| - 1]
    ensures i < |s| - 1 ==>
      var rest := s[..i] + s[i + 1..];
      var init := s[..|s| - 1];
      && rest[|rest| - 1] == s[|s| - 1]
      && rest[..|rest| - 1] == init[..i] + init[i + 1..]
  {
    var rest := s[..i] + s[i + 1..];
    if i < |s| - 1 {
      var init := s[..|s| - 1];
      assert rest[|rest| - 1] == s[|s| - 1];
      assert forall j :: 0 <= j < |rest| - 1 ==> rest[j] == (init[..i] + init[i + 1..])[j];
    }
  }

  // ---------------------------------------------------------------------------
  // Stable sort by an integer key
  // ---------------------------------------------------------------------------

  /** Ascending by key. */
  predicate SortedBy<T>(s: seq<T>, key: T -> int)
  {
    forall i, j :: 0 <= i < j < |s| ==> key(s[i]) <= key(s[j])
  }

  /** Any slice of a sorted sequence is sorted. */
  lemma SliceSorted<T>(s: seq<T>, start: int, end: int, key: T -> int)
    requires SortedBy(s, key)
    ensures SortedBy(Slice(s, start, end), key)
  {
    var from, to := RelativeIndex(start, |s|), RelativeIndex(end, |s|);
    if from < to {
      var r := s[from..to];
      forall i, j | 0 <= i < j < |r| ensures key(r[i]) <= key(r[j]) {
        assert r[i] == s[from + i] && r[j] == s[from + j];
      }
    }
  }

  /** s.slice(0, end) is the prefix of s that slice's end index resolves to, so of a
      sorted sequence it keeps the elements with the least keys. */
  lemma SlicePrefix<T>(s: seq<T>, end: int, key: T -> int)
    ensures Slice(s, 0, end) == s[..RelativeIndex(end, |s|)]
    ensures end >= 0 ==> |Slice(s, 0, end)| == Min(end, |s|)
    ensures SortedBy(s, key) ==>
      forall y, z :: y in Slice(s, 0, end) && z in s && z !in Slice(s, 0, end) ==> key(y) <= key(z)
  {
    var n := RelativeIndex(end, |s|);
    var r := s[..n];
    assert Slice(s, 0, end) == r;
    if SortedBy(s, key) {
      forall y, z | y in r && z in s && z !in r ensures key(y) <= key(z) {
        var a :| 0 <= a < n && r[a] == y;
        var b :| 0 <= b < |s| && s[b] == z;
        assert s[a] == y;
      }
    }
  }

  /** The elements of s whose key is k, in the order they have in s. A sort is stable
      exactly when it keeps every such run unchanged. */
  function KeyRun<T>(s: seq<T>, key: T -> int, k: int): seq<T>
  {
    if s == [] then [] else (if key(s[0]) == k then [s[0]] else []) + KeyRun(s[1..], key, k)
  }

  lemma {:induction false} KeyRunMembers<T>(s: seq<T>, key: T -> int, k: int, x: T)
    requires x in KeyRun(s, key, k)
    ensures x in s && key(x) == k
  {
    if key(s[0]) == k && x == s[0] {
    } else {
      assert x in KeyRun(s[1..], key, k);
      KeyRunMembers(s[1..], key, k, x);
    }
  }

  /** Inserts x in front of the first element whose key is not below x's. */
  function Insert<T>(x: T, s: seq<T>, key: T -> int): (r: seq<T>)
    ensures |r| == |s| + 1
    ensures multiset(r) == multiset(s) + multiset{x}
  {
    if s == [] || key(x) <= key(s[0]) then
      [x] + s
    else
      assert s == [s[0]] + s[1..];
      [s[0]] + Insert(x, s[1..], key)
  }

  /** A sorted sequence stays sorted under a head whose key is not above any of its keys. */
  lemma ConsSorted<T>(h: T, s: seq<T>, key: T -> int)
    requires SortedBy(s, key)
    requires forall i :: 0 <= i < |s| ==> key(h) <= key(s[i])
    ensures SortedBy([h] + s, key)
  {
    var r := [h] + s;
    forall i, j | 0 <= i < j < |r| ensures key(r[i]) <= key(r[j]) {
      assert r[j] == s[j - 1];
      if i > 0 {
        assert r[i] == s[i - 1];
      }
    }
  }

  lemma {:induction false} InsertSorted<T>(x: T, s: seq<T>, key: T -> int)
    requires SortedBy(s, key)
    ensures SortedBy(Insert(x, s, key), key)
  {
    if s == [] || key(x) <= key(s[0]) {
      assert Insert(x, s, key) == [x] + s;
      ConsSorted(x, s, key);
    } else {
      var rest := Insert(x, s[1..], key);
      assert Insert(x, s, key) == [s[0]] + rest;
      assert SortedBy(s[1..], key);
      InsertSorted(x, s[1..], key);
      forall i | 0 <= i < |rest| ensures key(s[0]) <= key(rest[i]) {
        assert rest[i] in multiset(rest);
        assert rest[i] == x || rest[i] in multiset(s[1..]);
      }
      ConsSorted(s[0], rest, key);
    }
  }

  /** The ordering Array.prototype.sort produces: insertion sort, which is stable. */
  function SortBy<T>(s: seq<T>, key: T -> int): (r: seq<T>)
    ensures |r| == |s|
    ensures multiset(r) == multiset(s)
    ensures SortedBy(r, key)
  {
    if s == [] then []
    else
      assert s == [s[0]] + s[1..];
      var rest := SortBy(s[1..], key);
      InsertSorted(s[0], rest, key);
      Insert(s[0], rest, key)
  }

  lemma {:induction false} KeyRunOfInsert<T>(x: T, s: seq<T>, key: T -> int, k: int)
    ensures KeyRun(Insert(x, s, key), key, k) == (if key(x) == k then [x] else []) + KeyRun(s, key, k)
  {
    var xs: seq<T> := if key(x) == k then [x] else [];
    if s == [] || key(x) <= key(s[0]) {
      var r := [x] + s;
      assert Insert(x, s, key) == r;
      assert r[0] == x && r[1..] == s;
      assert KeyRun(r, key, k) == xs + KeyRun(s, key, k);
    } else {
      var heads: seq<T> := if key(s[0]) == k then [s[0]] else [];
      assert KeyRun(s, key, k) == heads + KeyRun(s[1..], key, k);
      assert heads == [] || xs == [];
      assert heads + (xs + KeyRun(s[1..], key, k)) == xs + (heads + KeyRun(s[1..], key, k));
      var rest := Insert(x, s[1..], key);
      var r := [s[0]] + rest;
      assert Insert(x, s, key) == r;
      assert r[0] == s[0] && r[1..] == rest;
      KeyRunOfInsert(x, s[1..], key, k);
      assert KeyRun(r, key, k) == heads + KeyRun(rest, key, k);
      assert KeyRun(rest, key, k) == xs + KeyRun(s[1..], key, k);
    }
  }

  /** SortBy is stable: the elements that share a key keep their relative order. */
  lemma {:induction false} SortByStable<T>(s: seq<T>, key: T -> int, k: int)
    ensures KeyRun(SortBy(s, key), key, k) == KeyRun(s, key, k)
  {
    if s != [] {
      SortByStable(s[1..], key, k);
      KeyRunOfInsert(s[0], SortBy(s[1..], key), key, k);
    }
  }

  lemma KeyRunNonEmpty<T>(s: seq<T>, key: T -> int)
    ensures s != [] ==> KeyRun(s, key, key(s[0])) != []
  {
  }

  /** The head of a sorted sequence has the least key. */
  lemma HeadKeyLeast<T>(s: seq<T>, key: T -> int, x: T)
    requires SortedBy(s, key) && x in s
    ensures key(s[0]) <= key(x)
  {
    var j :| 0 <= j < |s| && s[j] == x;
    if j > 0 {
      assert key(s[0]) <= key(s[j]);
    }
  }

  /** The first element of a non-empty run is the first element of s with that key. */
  lemma KeyRunHead<T>(s: seq<T>, key: T -> int)
    requires s != []
    ensures KeyRun(s, key, key(s[0])) != [] && KeyRun(s, key, key(s[0]))[0] == s[0]
  {
    assert KeyRun(s, key, key(s[0])) == [s[0]] + KeyRun(s[1..], key, key(s[0]));
  }

  /** Two sorted sequences with the same runs start with the same element. */
  lemma SameRunsSameHead<T>(a: seq<T>, b: seq<T>, key: T -> int)
    requires SortedBy(a, key) && SortedBy(b, key) && a != [] && b != []
    requires forall k :: KeyRun(a, key, k) == KeyRun(b, key, k)
    ensures a[0] == b[0]
  {
    var m, n := key(a[0]), key(b[0]);
    KeyRunHead(a, key);
    KeyRunHead(b, key);
    var ra, rb := KeyRun(a, key, m), KeyRun(b, key, n);
    assert KeyRun(b, key, m) == ra && a[0] in ra;
    KeyRunMembers(b, key, m, a[0]);
    HeadKeyLeast(b, key, a[0]);
    assert KeyRun(a, key, n) == rb && b[0] in rb;
    KeyRunMembers(a, key, n, b[0]);
    HeadKeyLeast(a, key, b[0]);
    assert m == n && ra == rb;
  }

  /** Equal runs with equal heads leave equal runs of the tails. */
  lemma SameRunsTails<T>(a: seq<T>, b: seq<T>, key: T -> int)
    requires a != [] && b != [] && a[0] == b[0]
    requires forall k :: KeyRun(a, key, k) == KeyRun(b, key, k)
    ensures forall k :: KeyRun(a[1..], key, k) == KeyRun(b[1..], key, k)
  {
    forall k ensures KeyRun(a[1..], key, k) == KeyRun(b[1..], key, k) {
      var p := if key(a[0]) == k then [a[0]] else [];
      assert KeyRun(a, key, k) == p + KeyRun(a[1..], key, k);
      assert KeyRun(b, key, k) == p + KeyRun(b[1..], key, k);
      assert KeyRun(a[1..], key, k) == (p + KeyRun(a[1..], key, k))[|p|..];
      assert KeyRun(b[1..], key, k) == (p + KeyRun(b[1..], key, k))[|p|..];
    }
  }

  /** A sorted sequence is determined by its runs of equal keys. */
  lemma {:induction false} SortedRunsDetermine<T>(a: seq<T>, b: seq<T>, key: T -> int)
    requires SortedBy(a, key) && SortedBy(b, key)
    requires forall k :: KeyRun(a, key, k) == KeyRun(b, key, k)
    ensures a == b
  {
    KeyRunNonEmpty(a, key);
    KeyRunNonEmpty(b, key);
    if a != [] && b != [] {
      SameRunsSameHead(a, b, key);
      SameRunsTails(a, b, key);
      assert SortedBy(a[1..], key) && SortedBy(b[1..], key);
      SortedRunsDetermine(a[1..], b[1..], key);
      assert a == [a[0]] + a[1..] && b == [b[0]] + b[1..];
    }
  }

  /** r is a stable sort of s: sorted, and every run of equal keys kept as it was. */
  ghost predicate IsStableSortOf<T>(r: seq<T>, s: seq<T>, key: T -> int)
  {
    SortedBy(r, key) && forall k :: KeyRun(r, key, k) == KeyRun(s, key, k)
  }

  /** SortBy is the one and only stable sort of its input, so it agrees with every
      conforming implementation of Array.prototype.sort. */
  lemma StableSortUnique<T>(r: seq<T>, s: seq<T>, key: T -> int)
    ensures IsStableSortOf(r, s, key) <==> r == SortBy(s, key)
  {
    forall k ensures KeyRun(SortBy(s, key), key, k) == KeyRun(s, key, k) {
      SortByStable(s, key, k);
    }
    if IsStableSortOf(r, s, key) {
      SortedRunsDetermine(r, SortBy(s, key), key);
    }
  }

  // ---------------------------------------------------------------------------
  // Plain objects with string keys (entries in insertion order)
  // ---------------------------------------------------------------------------

  type Entries<V> = seq<(string, V)>

  function Keys<V>(m: Entries<V>): (r: seq<string>)
    ensures |r| == |m|
    ensures forall i :: 0 <= i < |m| ==> r[i] == m[i].0
  {
    if m == [] then [] else [m[0].0] + Keys(m[1..])
  }

  /** An object never holds a key twice. */
  predicate UniqueKeys<V>(m: Entries<V>)
  {
    forall i, j :: 0 <= i < j < |m| ==> m[i].0 != m[j].0
  }

  /** m[k], or None for a key m does not have. */
  function Get<V>(m: Entries<V>, k: string): (r: Option<V>)
    ensures r.Some? <==> k in Keys(m)
  {
    if m == [] then None else if m[0].0 == k then Some(m[0].1) else Get(m[1..], k)
  }

  /** A property read returns the value stored under the key: the first entry that
      holds the key, should it occur more than once. */
  lemma {:induction false} GetStored<V>(m: Entries<V>, k: string)
    ensures Get(m, k).Some? ==>
      exists i :: 0 <= i < |m| && m[i] == (k, Get(m, k).value) && (forall j :: 0 <= j < i ==> m[j].0 != k)
  {
    if m != [] && m[0].0 != k && Get(m, k).Some? {
      GetStored(m[1..], k);
      var i :| 0 <= i < |m| - 1 && m[1..][i] == (k, Get(m, k).value) &&
        forall j :: 0 <= j < i ==> m[1..][j].0 != k;
      assert m[i + 1] == (k, Get(m, k).value);
      forall j | 0 <= j < i + 1 ensures m[j].0 != k {
        if j > 0 { assert m[1..][j - 1] == m[j]; }
      }
    } else if m != [] && m[0].0 == k {
      assert m[0] == (k, Get(m, k).value);
    }
  }

  /** m[k] = v: an existing key keeps its place, a new key goes last. */
  function Put<V>(m: Entries<V>, k: string, v: V): (r: Entries<V>)
    ensures Get(r, k) == Some(v)
    ensures forall k' :: k' != k ==> Get(r, k') == Get(m, k')
    ensures Keys(r) == if k in Keys(m) then Keys(m) else Keys(m) + [k]
  {
    if m == [] then [(k, v)]
    else if m[0].0 == k then
      var r := [(k, v)] + m[1..];
      assert r[1..] == m[1..];
      assert Keys(m)[0] == k;
      r
    else
      var rest := Put(m[1..], k, v);
      var r := [m[0]] + rest;
      assert r[1..] == rest;
      assert r[0] == m[0];
      assert Keys(r) == [m[0].0] + Keys(rest);
      assert Keys(m) == [m[0].0] + Keys(m[1..]);
      assert k in Keys(m) <==> k in Keys(m[1..]);
      assert [m[0].0] + (Keys(m[1..]) + [k]) == ([m[0].0] + Keys(m[1..])) + [k];
      r
  }

  /** Put never makes an object hold a key twice. */
  lemma PutUnique<V>(m: Entries<V>, k: string, v: V)
    requires UniqueKeys(m)
    ensures UniqueKeys(Put(m, k, v))
  {
    var r := Put(m, k, v);
    forall i, j | 0 <= i < j < |r| ensures r[i].0 != r[j].0 {
      assert Keys(r)[i] == r[i].0 && Keys(r)[j] == r[j].0;
      if k !in Keys(m) {
        assert Keys(m)[i] == m[i].0;
        if j < |m| { assert Keys(m)[j] == m[j].0; }
      } else {
        assert Keys(m)[i] == m[i].0 && Keys(m)[j] == m[j].0;
      }
    }
  }
}
