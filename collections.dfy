/** Sequence and map operations the handlers are built from: removing every
    occurrence of a value (MongooseArray.pull), filtering, a descending sort by
    a rank, taking a prefix or an offset/limit window, enumerating a
    collection, and summing a field. */
module Collections {
  import opened Common

  /** No value occurs twice. */
  ghost predicate NoDup<T(!new)>(s: seq<T>) {
    forall i, j :: 0 <= i < j < |s| ==> s[i] != s[j]
  }

  /** No two entries share an identifier. */
  ghost predicate DistinctIds<T(!new)>(s: seq<Entry<T>>) {
    forall i, j :: 0 <= i < j < |s| ==> s[i].id != s[j].id
  }

  lemma NoDupCons<T(!new)>(x: T, s: seq<T>)
    ensures NoDup([x] + s) <==> x !in s && NoDup(s)
  {
    var t := [x] + s;
    if x !in s && NoDup(s) {
      forall i, j | 0 <= i < j < |t| ensures t[i] != t[j] {
        if i == 0 {
          assert t[j] == s[j - 1];
        } else {
          assert t[i] == s[i - 1] && t[j] == s[j - 1];
        }
      }
    }
    if NoDup(t) {
      forall k | 0 <= k < |s| ensures s[k] != x {
        assert t[k + 1] == s[k] && t[0] == x;
      }
      forall i, j | 0 <= i < j < |s| ensures s[i] != s[j] {
        assert t[i + 1] == s[i] && t[j + 1] == s[j];
      }
    }
  }

  /** Appending a value that is absent keeps a duplicate-free sequence so. */
  lemma {:induction false} NoDupAppend<T(!new)>(s: seq<T>, x: T)
    requires NoDup(s) && x !in s
    ensures NoDup(s + [x])
  {
    var t := s + [x];
    forall i, j | 0 <= i < j < |t| ensures t[i] != t[j] {
      if j == |s| {
        assert t[i] == s[i];
      } else {
        assert t[i] == s[i] && t[j] == s[j];
      }
    }
  }

  /** An entry whose identifier the rest lacks can go in front. */
  lemma DistinctIdsCons<T(!new)>(e: Entry<T>, s: seq<Entry<T>>)
    requires DistinctIds(s) && forall d :: d in s ==> d.id != e.id
    ensures DistinctIds([e] + s)
  {
    var t := [e] + s;
    forall i, j | 0 <= i < j < |t| ensures t[i].id != t[j].id {
      assert t[j] == s[j - 1];
      if i > 0 {
        assert t[i] == s[i - 1];
      }
    }
  }

  /** The identifiers of a sequence of entries. */
  ghost function IdSet<T(!new)>(s: seq<Entry<T>>): set<Id> {
    set e | e in s :: e.id
  }

  /** Entries with distinct identifiers are as many as their identifiers. */
  lemma {:induction false} DistinctIdsCount<T(!new)>(s: seq<Entry<T>>)
    requires DistinctIds(s)
    ensures |IdSet(s)| == |s|
  {
    if s != [] {
      var t := s[1..];
      assert s == [s[0]] + t;
      assert DistinctIds(t) by {
        forall i, j | 0 <= i < j < |t| ensures t[i].id != t[j].id {
          assert t[i] == s[i + 1] && t[j] == s[j + 1];
        }
      }
      DistinctIdsCount(t);
      forall e | e in t ensures e.id != s[0].id {
        var k :| 0 <= k < |t| && t[k] == e;
        assert s[k + 1] == e;
      }
      assert IdSet(s) == {s[0].id} + IdSet(t);
    }
  }

  // ---------------------------------------------------------------- pull

  /** Every occurrence of `x` removed; the other elements keep their order. */
  function RemoveAll<T(!new,==)>(s: seq<T>, x: T): (r: seq<T>)
    ensures multiset(r) == multiset(s)[x := 0]
    ensures forall y :: y in r <==> y in s && y != x
  {
    if s == [] then []
    else
      assert s == [s[0]] + s[1..];
      if s[0] == x then RemoveAll(s[1..], x) else [s[0]] + RemoveAll(s[1..], x)
  }

  /** Removal distributes over concatenation, so the relative order of the
      remaining elements is that of `a + b`. */
  lemma {:induction false} RemoveAllAppend<T(!new)>(a: seq<T>, b: seq<T>, x: T)
    ensures RemoveAll(a + b, x) == RemoveAll(a, x) + RemoveAll(b, x)
  {
    if a == [] {
      assert a + b == b;
    } else {
      assert (a + b)[0] == a[0] && (a + b)[1..] == a[1..] + b;
      RemoveAllAppend(a[1..], b, x);
    }
  }

  /** Removing a value that does not occur changes nothing. */
  lemma {:induction false} RemoveAllAbsent<T(!new)>(s: seq<T>, x: T)
    requires x !in s
    ensures RemoveAll(s, x) == s
  {
    if s != [] {
      assert s[0] != x && x !in s[1..];
      RemoveAllAbsent(s[1..], x);
      assert s == [s[0]] + s[1..];
    }
  }

  /** Appending an absent value and then removing it gives back the sequence. */
  lemma AppendThenRemove<T(!new)>(s: seq<T>, x: T)
    requires x !in s
    ensures RemoveAll(s + [x], x) == s
  {
    RemoveAllAppend(s, [x], x);
    RemoveAllAbsent(s, x);
    assert RemoveAll([x], x) == [];
  }

  /** Removal keeps a duplicate-free sequence duplicate-free. */
  lemma {:induction false} RemoveAllNoDup<T(!new)>(s: seq<T>, x: T)
    requires NoDup(s)
    ensures NoDup(RemoveAll(s, x))
  {
    if s != [] {
      assert s == [s[0]] + s[1..];
      NoDupCons(s[0], s[1..]);
      RemoveAllNoDup(s[1..], x);
      if s[0] != x {
        NoDupCons(s[0], RemoveAll(s[1..], x));
      }
    }
  }

  // ---------------------------------------------------------------- filter

  function Filter<T(!new)>(s: seq<T>, p: T -> bool): (r: seq<T>)
    ensures forall y :: y in r <==> y in s && p(y)
    ensures |r| <= |s|
  {
    if s == [] then []
    else if p(s[0]) then [s[0]] + Filter(s[1..], p)
    else Filter(s[1..], p)
  }

  /** Filtering entries keeps their identifiers distinct. */
  lemma {:induction false} FilterDistinct<T(!new)>(s: seq<Entry<T>>, p: Entry<T> -> bool)
    requires DistinctIds(s)
    ensures DistinctIds(Filter(s, p))
  {
    if s != [] {
      var rest := Filter(s[1..], p);
      FilterDistinct(s[1..], p);
      if p(s[0]) {
        var r := [s[0]] + rest;
        forall i, j | 0 <= i < j < |r| ensures r[i].id != r[j].id {
          if i == 0 {
            assert r[j] in s[1..];
            var k :| 0 <= k < |s[1..]| && s[1..][k] == r[j];
            assert s[k + 1] == r[j];
          } else {
            assert r[i] == rest[i - 1] && r[j] == rest[j - 1];
          }
        }
      }
    }
  }

  // ---------------------------------------------------------------- order

  /** Sort keys, compared lexicographically: a primary and a tie-breaker. */
  type Rank = (int, int)

  predicate RankLe(a: Rank, b: Rank) {
    a.0 < b.0 || (a.0 == b.0 && a.1 <= b.1)
  }

  /** Ordered from the highest rank to the lowest. */
  ghost predicate SortedDesc<T(!new)>(s: seq<T>, key: T -> Rank) {
    forall i, j :: 0 <= i < j < |s| ==> RankLe(key(s[j]), key(s[i]))
  }

  lemma RankLeTrans(a: Rank, b: Rank, c: Rank)
    requires RankLe(a, b) && RankLe(b, c)
    ensures RankLe(a, c)
  {
  }

  /** In a sorted sequence nothing ranks above the head. */
  lemma SortedBelowHead<T(!new)>(s: seq<T>, key: T -> Rank)
    requires SortedDesc(s, key) && s != []
    ensures forall y :: y in s ==> RankLe(key(y), key(s[0]))
  {
    forall y | y in s ensures RankLe(key(y), key(s[0])) {
      var j :| 0 <= j < |s| && s[j] == y;
      if j > 0 {
        assert RankLe(key(s[j]), key(s[0]));
      }
    }
  }

  /** An element ranking at least as high as every element of a sorted
      sequence can go in front of it. */
  lemma SortedCons<T(!new)>(x: T, s: seq<T>, key: T -> Rank)
    requires SortedDesc(s, key)
    requires forall y :: y in s ==> RankLe(key(y), key(x))
    ensures SortedDesc([x] + s, key)
  {
    var t := [x] + s;
    forall i, j | 0 <= i < j < |t| ensures RankLe(key(t[j]), key(t[i])) {
      assert t[j] == s[j - 1];
      if i > 0 {
        assert t[i] == s[i - 1];
      }
    }
  }

  function Insert<T(!new)>(x: T, s: seq<T>, key: T -> Rank): (r: seq<T>)
    requires SortedDesc(s, key)
    ensures SortedDesc(r, key)
    ensures multiset(r) == multiset(s) + multiset{x}
    ensures forall y :: y in r <==> y in s || y == x
  {
    if s == [] || RankLe(key(s[0]), key(x)) then
      InsertInFront(x, s, key);
      [x] + s
    else
      assert s == [s[0]] + s[1..];
      var t := Insert(x, s[1..], key);
      InsertBehindHead(x, s, t, key);
      [s[0]] + t
  }

  lemma InsertInFront<T(!new)>(x: T, s: seq<T>, key: T -> Rank)
    requires SortedDesc(s, key)
    requires s == [] || RankLe(key(s[0]), key(x))
    ensures SortedDesc([x] + s, key)
  {
    if s != [] {
      SortedBelowHead(s, key);
      forall y | y in s ensures RankLe(key(y), key(x)) {
        RankLeTrans(key(y), key(s[0]), key(x));
      }
    }
    SortedCons(x, s, key);
  }

  lemma InsertBehindHead<T(!new)>(x: T, s: seq<T>, t: seq<T>, key: T -> Rank)
    requires SortedDesc(s, key) && s != [] && !RankLe(key(s[0]), key(x))
    requires SortedDesc(t, key)
    requires forall y :: y in t <==> y in s[1..] || y == x
    ensures SortedDesc([s[0]] + t, key)
  {
    SortedBelowHead(s, key);
    assert forall y :: y in s[1..] ==> y in s;
    SortedCons(s[0], t, key);
  }

  /** Insertion sort: highest rank first. */
  function SortDesc<T(!new)>(s: seq<T>, key: T -> Rank): (r: seq<T>)
    ensures SortedDesc(r, key)
    ensures multiset(r) == multiset(s)
    ensures |r| == |s|
    ensures forall y :: y in r <==> y in s
  {
    if s == [] then []
    else
      assert s == [s[0]] + s[1..];
      Insert(s[0], SortDesc(s[1..], key), key)
  }

  lemma DistinctIdsTail<T(!new)>(s: seq<Entry<T>>)
    requires DistinctIds(s) && s != []
    ensures DistinctIds(s[1..])
    ensures forall d :: d in s[1..] ==> d.id != s[0].id
  {
    var t := s[1..];
    forall i, j | 0 <= i < j < |t| ensures t[i].id != t[j].id {
      assert t[i] == s[i + 1] && t[j] == s[j + 1];
    }
    forall d | d in t ensures d.id != s[0].id {
      var k :| 0 <= k < |t| && t[k] == d;
      assert s[k + 1] == d;
    }
  }

  /** Inserting an entry whose identifier is new keeps identifiers distinct. */
  lemma {:induction false} InsertDistinct<T(!new)>(x: Entry<T>, s: seq<Entry<T>>, key: Entry<T> -> Rank)
    requires SortedDesc(s, key) && DistinctIds(s)
    requires forall d :: d in s ==> d.id != x.id
    ensures DistinctIds(Insert(x, s, key))
  {
    if s == [] || RankLe(key(s[0]), key(x)) {
      DistinctIdsCons(x, s);
    } else {
      assert s == [s[0]] + s[1..];
      DistinctIdsTail(s);
      assert forall d :: d in s[1..] ==> d in s;
      InsertDistinct(x, s[1..], key);
      DistinctIdsCons(s[0], Insert(x, s[1..], key));
    }
  }

  /** Sorting entries keeps their identifiers distinct. */
  lemma {:induction false} SortDistinct<T(!new)>(s: seq<Entry<T>>, key: Entry<T> -> Rank)
    requires DistinctIds(s)
    ensures DistinctIds(SortDesc(s, key))
  {
    if s != [] {
      DistinctIdsTail(s);
      SortDistinct(s[1..], key);
      InsertDistinct(s[0], SortDesc(s[1..], key), key);
    }
  }

  function Take<T(!new)>(s: seq<T>, k: nat): (r: seq<T>) {
    s[..Min(k, |s|)]
  }

  /** At most `limit` elements starting at offset `skip` (a cursor's
      skip/limit); empty when the offset is past the end. */
  function Window<T(!new)>(s: seq<T>, skip: nat, limit: nat): (r: seq<T>)
    ensures |r| == Max(0, Min(limit, |s| - skip))
    ensures forall i :: 0 <= i < |r| ==> r[i] == s[skip + i]
  {
    if skip >= |s| then [] else s[skip..Min(skip + limit, |s|)]
  }

  /** A window of a sorted sequence is sorted and drawn from it. */
  lemma WindowOfSorted<T(!new)>(s: seq<T>, key: T -> Rank, skip: nat, limit: nat)
    requires SortedDesc(s, key)
    ensures SortedDesc(Window(s, skip, limit), key)
    ensures forall e :: e in Window(s, skip, limit) ==> e in s
  {
    var w := Window(s, skip, limit);
    forall i, j | 0 <= i < j < |w| ensures RankLe(key(w[j]), key(w[i])) {
      assert w[i] == s[skip + i] && w[j] == s[skip + j];
    }
    forall e | e in w ensures e in s {
      var i :| 0 <= i < |w| && w[i] == e;
      assert s[skip + i] == e;
    }
  }

  /** A prefix of a sorted sequence is sorted, and nothing after it ranks
      above anything in it. */
  lemma PrefixOfSorted<T(!new)>(s: seq<T>, key: T -> Rank, n: nat)
    requires SortedDesc(s, key) && n <= |s|
    ensures SortedDesc(s[..n], key)
    ensures forall x, y :: x in s[..n] && y in s && y !in s[..n] ==> RankLe(key(y), key(x))
  {
    var top := s[..n];
    forall x, y | x in top && y in s && y !in top ensures RankLe(key(y), key(x)) {
      var i :| 0 <= i < n && top[i] == x;
      var j :| 0 <= j < |s| && s[j] == y;
      assert s[i] == x;
    }
  }

  lemma PrefixMultiset<T(!new)>(s: seq<T>, n: nat)
    requires n <= |s|
    ensures multiset(s[..n]) <= multiset(s)
  {
    assert s == s[..n] + s[n..];
  }

  /** The first `k` of a descending sort are the `k` highest-ranked elements:
      in order, taken from the input, as many as there are (up to `k`), and no
      element left out ranks above any element kept. */
  lemma TopK<T(!new)>(s: seq<T>, key: T -> Rank, k: nat)
    ensures var top := Take(SortDesc(s, key), k);
      && SortedDesc(top, key)
      && |top| == Min(k, |s|)
      && multiset(top) <= multiset(s)
      && (forall x, y :: x in top && y in s && y !in top ==> RankLe(key(y), key(x)))
  {
    var sorted := SortDesc(s, key);
    var n := Min(k, |s|);
    PrefixOfSorted(sorted, key, n);
    PrefixMultiset(sorted, n);
  }

  /** The first `k` of a sort of entries with distinct identifiers have
      distinct identifiers. */
  lemma TopKDistinct<T(!new)>(s: seq<Entry<T>>, key: Entry<T> -> Rank, k: nat)
    requires DistinctIds(s)
    ensures DistinctIds(Take(SortDesc(s, key), k))
  {
    var sorted := SortDesc(s, key);
    SortDistinct(s, key);
    var top := Take(sorted, k);
    forall i, j | 0 <= i < j < |top| ensures top[i].id != top[j].id {
      assert top[i] == sorted[i] && top[j] == sorted[j];
    }
  }

  /** Taking at least as many as there are returns everything. */
  lemma TakeAll<T(!new)>(s: seq<T>, k: nat)
    requires |s| <= k
    ensures Take(s, k) == s
  {
  }

  // ---------------------------------------------------------------- map, sum

  function MapSeq<T(!new), U>(s: seq<T>, f: T -> U): (r: seq<U>)
    ensures |r| == |s|
    ensures forall i :: 0 <= i < |s| ==> r[i] == f(s[i])
  {
    if s == [] then [] else [f(s[0])] + MapSeq(s[1..], f)
  }

  /** Mapping a sequence after inserting into it adds one image. */
  lemma {:induction false} MapInsert<T(!new), U>(x: T, s: seq<T>, key: T -> Rank, f: T -> U)
    requires SortedDesc(s, key)
    ensures multiset(MapSeq(Insert(x, s, key), f)) == multiset(MapSeq(s, f)) + multiset{f(x)}
  {
    if s == [] || RankLe(key(s[0]), key(x)) {
      assert MapSeq([x] + s, f) == [f(x)] + MapSeq(s, f);
    } else {
      assert s == [s[0]] + s[1..];
      assert forall j :: 0 < j < |s| ==> RankLe(key(s[j]), key(s[0]));
      var t := Insert(x, s[1..], key);
      MapInsert(x, s[1..], key, f);
      assert MapSeq([s[0]] + t, f) == [f(s[0])] + MapSeq(t, f);
      assert MapSeq(s, f) == [f(s[0])] + MapSeq(s[1..], f);
    }
  }

  /** Sorting does not change which images a mapping produces. */
  lemma {:induction false} MapSortPermutes<T(!new), U>(s: seq<T>, key: T -> Rank, f: T -> U)
    ensures multiset(MapSeq(SortDesc(s, key), f)) == multiset(MapSeq(s, f))
  {
    if s != [] {
      assert s == [s[0]] + s[1..];
      MapSortPermutes(s[1..], key, f);
      MapInsert(s[0], SortDesc(s[1..], key), key, f);
      assert MapSeq(s, f) == [f(s[0])] + MapSeq(s[1..], f);
    }
  }

  /** The sum of one numeric field over a sequence (Array.reduce from 0). */
  function SumOf<T(!new)>(s: seq<T>, f: T -> int): int {
    if s == [] then 0 else f(s[0]) + SumOf(s[1..], f)
  }

  lemma {:induction false} SumInsert<T(!new)>(x: T, s: seq<T>, key: T -> Rank, f: T -> int)
    requires SortedDesc(s, key)
    ensures SumOf(Insert(x, s, key), f) == f(x) + SumOf(s, f)
  {
    if s != [] && !RankLe(key(s[0]), key(x)) {
      assert s == [s[0]] + s[1..];
      assert forall j :: 0 < j < |s| ==> RankLe(key(s[j]), key(s[0]));
      SumInsert(x, s[1..], key, f);
      var t := Insert(x, s[1..], key);
      assert ([s[0]] + t)[1..] == t;
    } else {
      assert ([x] + s)[1..] == s;
    }
  }

  /** A sum does not depend on the order it is taken in. */
  lemma {:induction false} SumSortInvariant<T(!new)>(s: seq<T>, key: T -> Rank, f: T -> int)
    ensures SumOf(SortDesc(s, key), f) == SumOf(s, f)
  {
    if s != [] {
      SumSortInvariant(s[1..], key, f);
      SumInsert(s[0], SortDesc(s[1..], key), key, f);
    }
  }

  lemma {:induction false} SumNonNegative<T(!new)>(s: seq<T>, f: T -> int)
    requires forall i :: 0 <= i < |s| ==> f(s[i]) >= 0
    ensures SumOf(s, f) >= 0
  {
    if s != [] {
      SumNonNegative(s[1..], f);
    }
  }

  // ---------------------------------------------------------------- scan

  /** Every document of a collection, each once, in an order the store
      chooses (MongoDB gives no order without a sort). */
  ghost function Scan<T(!new)>(m: map<Id, T>): (r: seq<Entry<T>>)
    ensures forall e :: e in r <==> e.id in m && m[e.id] == e.doc
    ensures DistinctIds(r)
    ensures |r| == |m|
  {
    ScanKeys(m, m.Keys)
  }

  ghost function ScanKeys<T(!new)>(m: map<Id, T>, ks: set<Id>): (r: seq<Entry<T>>)
    requires ks <= m.Keys
    ensures forall e :: e in r <==> e.id in ks && m[e.id] == e.doc
    ensures DistinctIds(r)
    ensures |r| == |ks|
    decreases ks
  {
    if ks == {} then []
    else
      var k :| k in ks;
      var rest := ScanKeys(m, ks - {k});
      var r := [Entry(k, m[k])] + rest;
      assert DistinctIds(r) by {
        forall i, j | 0 <= i < j < |r| ensures r[i].id != r[j].id {
          assert r[j] == rest[j - 1] && r[j] in rest;
          if i > 0 {
            assert r[i] == rest[i - 1];
          }
        }
      }
      r
  }
}
