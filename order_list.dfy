/** helpers/orderList.ts: order a copy of a movie list by one numeric key,
    ascending or descending. `Array.prototype.sort` is stable, so the result is
    the one list that is sorted by the comparator and keeps the input order of
    entries with equal keys; the model computes it by stable insertion sort.
    The input, a value, is never changed. */
module OrderList {
  import opened MovieTypes

  datatype Order = Asc | Desc

  datatype OrderType = Popularity | VoteAverage | ReleaseDate

  /** The value the comparator subtracts: the release date's timestamp
      (`new Date(d).getTime()`, a parameter here), or the field itself. */
  function SortKey(kind: OrderType, timestamp: string -> real, m: Movie): (r: real)
    ensures kind == ReleaseDate ==> r == timestamp(m.releaseDate)
    ensures kind == Popularity ==> r == m.popularity
    ensures kind == VoteAverage ==> r == m.voteAverage
  {
    match kind
    case ReleaseDate => timestamp(m.releaseDate)
    case Popularity => m.popularity
    case VoteAverage => m.voteAverage
  }

  /** The comparator places a key `a` before `b` (returns at most 0):
      `a - b` ascending, `b - a` descending; that is, smaller keys first when
      ascending and larger keys first when descending. */
  function InOrder(order: Order, a: real, b: real): (r: bool)
    ensures r <==> if order == Asc then a <= b else b <= a
  {
    if order == Asc then a - b <= 0.0 else b - a <= 0.0
  }

  ghost predicate Sorted(order: Order, key: Movie -> real, s: seq<Movie>) {
    forall i, j :: 0 <= i < j < |s| ==> InOrder(order, key(s[i]), key(s[j]))
  }

  /** The entries whose key is `k`, in their order. */
  function WithKey(key: Movie -> real, s: seq<Movie>, k: real): seq<Movie> {
    if s == [] then [] else (if key(s[0]) == k then [s[0]] else []) + WithKey(key, s[1..], k)
  }

  /** `r` keeps the relative order of `s`'s entries with equal keys. */
  ghost predicate StableWrt(key: Movie -> real, r: seq<Movie>, s: seq<Movie>) {
    forall k :: WithKey(key, r, k) == WithKey(key, s, k)
  }

  /** Insert `x` before the first entry it may precede; `x` goes before entries
      with an equal key. */
  function Insert(order: Order, key: Movie -> real, x: Movie, s: seq<Movie>): seq<Movie> {
    if s == [] || InOrder(order, key(x), key(s[0])) then [x] + s else [s[0]] + Insert(order, key, x, s[1..])
  }

  function SortBy(order: Order, key: Movie -> real, s: seq<Movie>): seq<Movie> {
    if s == [] then [] else Insert(order, key, s[0], SortBy(order, key, s[1..]))
  }

  lemma {:induction false} InsertPermutes(order: Order, key: Movie -> real, x: Movie, s: seq<Movie>)
    ensures multiset(Insert(order, key, x, s)) == multiset(s) + multiset{x}
  {
    if s != [] && !InOrder(order, key(x), key(s[0])) {
      InsertPermutes(order, key, x, s[1..]);
      assert s == [s[0]] + s[1..];
    }
  }

  lemma SortedTail(order: Order, key: Movie -> real, s: seq<Movie>)
    requires s != [] && Sorted(order, key, s)
    ensures Sorted(order, key, s[1..])
  {
    forall i, j | 0 <= i < j < |s| - 1
      ensures InOrder(order, key(s[1..][i]), key(s[1..][j]))
    {
      assert s[1..][i] == s[i + 1] && s[1..][j] == s[j + 1];
    }
  }

  /** Every entry of `s` may follow a key `k`. */
  ghost predicate AllAfter(order: Order, key: Movie -> real, k: real, s: seq<Movie>) {
    forall j :: 0 <= j < |s| ==> InOrder(order, k, key(s[j]))
  }

  lemma AllAfterTail(order: Order, key: Movie -> real, k: real, s: seq<Movie>)
    requires s != [] && AllAfter(order, key, k, s)
    ensures AllAfter(order, key, k, s[1..])
  {
    forall j | 0 <= j < |s| - 1
      ensures InOrder(order, k, key(s[1..][j]))
    {
      assert s[1..][j] == s[j + 1];
    }
  }

  /** An entry placed before a sorted list it may precede keeps it sorted. */
  lemma ConsSorted(order: Order, key: Movie -> real, y: Movie, s: seq<Movie>)
    requires Sorted(order, key, s) && AllAfter(order, key, key(y), s)
    ensures Sorted(order, key, [y] + s)
  {
    var r := [y] + s;
    forall i, j | 0 <= i < j < |r|
      ensures InOrder(order, key(r[i]), key(r[j]))
    {
      assert r[j] == s[j - 1];
      if i > 0 {
        assert r[i] == s[i - 1];
      }
    }
  }

  /** Inserting an entry that may follow `k` into entries that may follow `k`
      gives entries that may follow `k`. */
  lemma {:induction false} InsertAllAfter(order: Order, key: Movie -> real, k: real, x: Movie, s: seq<Movie>)
    requires AllAfter(order, key, k, s) && InOrder(order, k, key(x))
    ensures AllAfter(order, key, k, Insert(order, key, x, s))
  {
    if s != [] && !InOrder(order, key(x), key(s[0])) {
      AllAfterTail(order, key, k, s);
      InsertAllAfter(order, key, k, x, s[1..]);
      var r := [s[0]] + Insert(order, key, x, s[1..]);
      forall j | 0 <= j < |r|
        ensures InOrder(order, k, key(r[j]))
      {
        if j > 0 {
          assert r[j] == Insert(order, key, x, s[1..])[j - 1];
        }
      }
    } else {
      var r := [x] + s;
      forall j | 0 <= j < |r|
        ensures InOrder(order, k, key(r[j]))
      {
        if j > 0 {
          assert r[j] == s[j - 1];
        }
      }
    }
  }

  lemma {:induction false} InsertSorted(order: Order, key: Movie -> real, x: Movie, s: seq<Movie>)
    requires Sorted(order, key, s)
    ensures Sorted(order, key, Insert(order, key, x, s))
  {
    if s == [] {
      assert Insert(order, key, x, s) == [x];
    } else if !InOrder(order, key(x), key(s[0])) {
      SortedTail(order, key, s);
      InsertSorted(order, key, x, s[1..]);
      assert AllAfter(order, key, key(s[0]), s) by {
        forall j | 0 <= j < |s|
          ensures InOrder(order, key(s[0]), key(s[j]))
        {
          if j > 0 {
            assert InOrder(order, key(s[0]), key(s[j]));
          }
        }
      }
      AllAfterTail(order, key, key(s[0]), s);
      InsertAllAfter(order, key, key(s[0]), x, s[1..]);
      ConsSorted(order, key, s[0], Insert(order, key, x, s[1..]));
    } else {
      assert AllAfter(order, key, key(x), s) by {
        forall j | 0 <= j < |s|
          ensures InOrder(order, key(x), key(s[j]))
        {
          if j > 0 {
            assert InOrder(order, key(s[0]), key(s[j]));
          }
        }
      }
      ConsSorted(order, key, x, s);
    }
  }

  lemma WithKeyCons(key: Movie -> real, x: Movie, s: seq<Movie>, k: real)
    ensures WithKey(key, [x] + s, k) == (if key(x) == k then [x] else []) + WithKey(key, s, k)
  {
    assert ([x] + s)[0] == x && ([x] + s)[1..] == s;
  }

  /** Inserting adds `x` in front of the entries with its key, and touches no other key. */
  lemma {:induction false} InsertWithKey(order: Order, key: Movie -> real, x: Movie, s: seq<Movie>, k: real)
    ensures WithKey(key, Insert(order, key, x, s), k) == (if key(x) == k then [x] else []) + WithKey(key, s, k)
  {
    if s == [] || InOrder(order, key(x), key(s[0])) {
      WithKeyCons(key, x, s, k);
    } else {
      InsertWithKey(order, key, x, s[1..], k);
      WithKeyCons(key, s[0], Insert(order, key, x, s[1..]), k);
      assert key(s[0]) != key(x);
    }
  }

  /** The insertion sort yields a sorted, stable permutation. */
  lemma {:induction false} SortByCorrect(order: Order, key: Movie -> real, s: seq<Movie>)
    ensures multiset(SortBy(order, key, s)) == multiset(s)
    ensures Sorted(order, key, SortBy(order, key, s))
    ensures StableWrt(key, SortBy(order, key, s), s)
  {
    if s != [] {
      var t := SortBy(order, key, s[1..]);
      SortByCorrect(order, key, s[1..]);
      InsertPermutes(order, key, s[0], t);
      InsertSorted(order, key, s[0], t);
      assert s == [s[0]] + s[1..];
      forall k
        ensures WithKey(key, SortBy(order, key, s), k) == WithKey(key, s, k)
      {
        InsertWithKey(order, key, s[0], t, k);
      }
    }
  }

  /** orderList: the list, sorted by the key of `kind` in the direction `order`. */
  function OrderList(order: Order, kind: OrderType, timestamp: string -> real, list: seq<Movie>): (r: seq<Movie>)
    ensures |r| == |list| && multiset(r) == multiset(list)
    ensures Sorted(order, m => SortKey(kind, timestamp, m), r)
    ensures StableWrt(m => SortKey(kind, timestamp, m), r, list)
  {
    var key := (m: Movie) => SortKey(kind, timestamp, m);
    SortByCorrect(order, key, list);
    assert |SortBy(order, key, list)| == |multiset(SortBy(order, key, list))|;
    SortBy(order, key, list)
  }

  lemma WithKeyHas(key: Movie -> real, s: seq<Movie>, k: real) returns (j: nat)
    requires WithKey(key, s, k) != []
    ensures j < |s| && key(s[j]) == k
    decreases |s|
  {
    if key(s[0]) == k {
      j := 0;
    } else {
      var j' := WithKeyHas(key, s[1..], k);
      j := j' + 1;
    }
  }

  /** Only one list is sorted and keeps equal keys in a given order: whatever
      stable algorithm sorts, with this comparator it produces the same list. */
  lemma {:induction false} SortedStableUnique(order: Order, key: Movie -> real, r1: seq<Movie>, r2: seq<Movie>)
    requires Sorted(order, key, r1) && Sorted(order, key, r2)
    requires forall k :: WithKey(key, r1, k) == WithKey(key, r2, k)
    ensures r1 == r2
    decreases |r1|
  {
    if r1 == [] || r2 == [] {
      var r := if r1 == [] then r2 else r1;
      if r != [] {
        assert WithKey(key, r1, key(r[0])) != WithKey(key, r2, key(r[0]));
      }
    } else {
      var a, b := r1[0], r2[0];
      assert WithKey(key, r1, key(a)) == [a] + WithKey(key, r1[1..], key(a));
      assert WithKey(key, r2, key(b)) == [b] + WithKey(key, r2[1..], key(b));
      var j := WithKeyHas(key, r2, key(a));
      var i := WithKeyHas(key, r1, key(b));
      assert InOrder(order, key(b), key(a)) by {
        if j > 0 { assert InOrder(order, key(r2[0]), key(r2[j])); }
      }
      assert InOrder(order, key(a), key(b)) by {
        if i > 0 { assert InOrder(order, key(r1[0]), key(r1[i])); }
      }
      assert key(a) == key(b);
      assert a == b;
      forall k
        ensures WithKey(key, r1[1..], k) == WithKey(key, r2[1..], k)
      {
        assert WithKey(key, r1, k) == (if key(a) == k then [a] else []) + WithKey(key, r1[1..], k);
        assert WithKey(key, r2, k) == (if key(b) == k then [b] else []) + WithKey(key, r2[1..], k);
        var p := if key(a) == k then [a] else [];
        assert WithKey(key, r1[1..], k) == (p + WithKey(key, r1[1..], k))[|p|..];
        assert WithKey(key, r2[1..], k) == (p + WithKey(key, r2[1..], k))[|p|..];
      }
      SortedTail(order, key, r1);
      SortedTail(order, key, r2);
      SortedStableUnique(order, key, r1[1..], r2[1..]);
      assert r1 == [a] + r1[1..] && r2 == [b] + r2[1..];
    }
  }

  /** Any sorted reordering of the list that keeps equal keys in their input
      order is `OrderList`'s result. */
  lemma OrderListIsTheStableSort(order: Order, kind: OrderType, timestamp: string -> real, list: seq<Movie>, r: seq<Movie>)
    requires Sorted(order, m => SortKey(kind, timestamp, m), r)
    requires StableWrt(m => SortKey(kind, timestamp, m), r, list)
    ensures r == OrderList(order, kind, timestamp, list)
  {
    var key := (m: Movie) => SortKey(kind, timestamp, m);
    var o := OrderList(order, kind, timestamp, list);
    assert forall k :: WithKey(key, r, k) == WithKey(key, o, k);
    SortedStableUnique(order, key, r, o);
  }
}
