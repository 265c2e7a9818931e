/** Shared vocabulary of the model: optional values, handler replies, and the
    handful of collection queries (find-one, filter, sort, skip, limit) that the
    backend asks of its document store. */
module Common {

  datatype Option<T> = None | Some(value: T)

  /** `value ?? fallback`: the given value, or the default when it is missing. */
  function Or<T>(o: Option<T>, fallback: T): T {
    if o.Some? then o.value else fallback
  }

  /** Users are referred to by an opaque identifier. */
  type UserId = nat

  /** Milliseconds in one day; instants throughout the model are milliseconds. */
  const DayMs: int := 24 * 60 * 60 * 1000

  /** What a request handler answers: the success shapes and the error statuses
      the routes return, each with the message the route sends. */
  datatype Reply =
    | Ok
    | Created
    | BadRequest(message: string)
    | Unauthorized(message: string)
    | Forbidden(message: string)
    | NotFound(message: string)
    | ServerError
  {
    /** The HTTP status code of the reply. */
    function Code(): int {
      match this
      case Ok => 200
      case Created => 201
      case BadRequest(_) => 400
      case Unauthorized(_) => 401
      case Forbidden(_) => 403
      case NotFound(_) => 404
      case ServerError => 500
    }

    predicate IsSuccess() {
      Ok? || Created?
    }
  }

  /** The position of the first element satisfying `p`: the document a
      `findOne` returns when the store is read in insertion order. */
  function FindFirst<T>(s: seq<T>, p: T -> bool): (r: Option<nat>)
    ensures r.Some? ==> r.value < |s| && p(s[r.value])
    ensures r.Some? ==> forall j :: 0 <= j < r.value ==> !p(s[j])
    ensures r.None? <==> forall j :: 0 <= j < |s| ==> !p(s[j])
  {
    if s == [] then None
    else if p(s[0]) then Some(0)
    else match FindFirst(s[1..], p)
      case None => None
      case Some(i) => Some(i + 1)
  }

  /** The elements of `s` satisfying `p`, in their original order. */
  function Filter<T>(s: seq<T>, p: T -> bool): (r: seq<T>)
    ensures |r| <= |s|
    ensures forall i :: 0 <= i < |r| ==> r[i] in s && p(r[i])
    ensures forall i :: 0 <= i < |s| && p(s[i]) ==> s[i] in r
    ensures multiset(r) <= multiset(s)
  {
    if s == [] then []
    else
      assert s == [s[0]] + s[1..];
      if p(s[0]) then [s[0]] + Filter(s[1..], p)
      else Filter(s[1..], p)
  }

  lemma {:induction false} FilterConcat<T>(a: seq<T>, b: seq<T>, p: T -> bool)
    ensures Filter(a + b, p) == Filter(a, p) + Filter(b, p)
  {
    if a == [] {
      assert a + b == b;
    } else {
      assert (a + b)[1..] == a[1..] + b;
      FilterConcat(a[1..], b, p);
    }
  }

  /** Filtering a sequence one element longer adds at most that element. */
  lemma FilterSnoc<T>(s: seq<T>, x: T, p: T -> bool)
    ensures Filter(s + [x], p) == Filter(s, p) + (if p(x) then [x] else [])
  {
    FilterConcat(s, [x], p);
    assert Filter([x], p) == if p(x) then [x] else [];
  }

  /** Two filters applied one after the other select what their conjunction selects. */
  lemma {:induction false} FilterFilter<T>(s: seq<T>, p: T -> bool, q: T -> bool, pq: T -> bool)
    requires forall x :: pq(x) == (p(x) && q(x))
    ensures Filter(Filter(s, p), q) == Filter(s, pq)
  {
    if s != [] {
      FilterFilter(s[1..], p, q, pq);
    }
  }

  /** The elements of `s` that `p` selects and those it rejects make up `s` again. */
  lemma {:induction false} FilterSplit<T>(s: seq<T>, p: T -> bool, np: T -> bool)
    requires forall x :: np(x) == !p(x)
    ensures multiset(Filter(s, p)) + multiset(Filter(s, np)) == multiset(s)
    ensures |Filter(s, p)| + |Filter(s, np)| == |s|
  {
    if s != [] {
      FilterSplit(s[1..], p, np);
      assert s == [s[0]] + s[1..];
    }
  }

  /** Filtering with a stronger predicate never yields more elements. */
  lemma {:induction false} FilterMonotone<T>(s: seq<T>, p: T -> bool, q: T -> bool)
    requires forall x :: p(x) ==> q(x)
    ensures |Filter(s, p)| <= |Filter(s, q)|
  {
    if s != [] {
      FilterMonotone(s[1..], p, q);
    }
  }

  /** Filtering with two predicates that agree on every element gives the same sequence. */
  lemma {:induction false} FilterCongruent<T>(s: seq<T>, p: T -> bool, q: T -> bool)
    requires forall x :: x in s ==> p(x) == q(x)
    ensures Filter(s, p) == Filter(s, q)
  {
    if s != [] {
      FilterCongruent(s[1..], p, q);
    }
  }

  /** No two elements of `s` share a key: what a unique index guarantees. */
  predicate UniqueBy<T, K(==)>(s: seq<T>, key: T -> K) {
    forall i, j :: 0 <= i < j < |s| ==> key(s[i]) != key(s[j])
  }

  /** Deleting documents never breaks a unique index. */
  lemma {:induction false} FilterUniqueBy<T, K>(s: seq<T>, p: T -> bool, key: T -> K)
    requires UniqueBy(s, key)
    ensures UniqueBy(Filter(s, p), key)
  {
    if s != [] {
      var rest := Filter(s[1..], p);
      FilterUniqueBy(s[1..], p, key);
      if p(s[0]) {
        forall j | 0 <= j < |rest| ensures key(s[0]) != key(rest[j]) {
          var k :| 0 <= k < |s[1..]| && s[1..][k] == rest[j];
          assert s[k + 1] == rest[j];
        }
        assert Filter(s, p) == [s[0]] + rest;
      }
    }
  }

  /** The keys the elements of `s` carry. */
  function KeySet<T, K>(s: seq<T>, key: T -> K): set<K> {
    set i | 0 <= i < |s| :: key(s[i])
  }

  /** A sequence has at most as many distinct keys as elements, and exactly as
      many when no key repeats. */
  lemma {:induction false} KeySetSize<T, K>(s: seq<T>, key: T -> K)
    ensures |KeySet(s, key)| <= |s|
    ensures |KeySet(s, key)| == |s| <==> UniqueBy(s, key)
  {
    if s != [] {
      var init := s[..|s| - 1];
      var last := key(s[|s| - 1]);
      KeySetSize(init, key);
      KeySetSnoc(s, key);
      if last in KeySet(init, key) {
        var i :| 0 <= i < |init| && key(init[i]) == last;
        assert s[i] == init[i];
        assert !UniqueBy(s, key);
      } else {
        UniqueSnoc(s, key);
      }
    }
  }

  /** One more element adds its key to the key set. */
  lemma KeySetSnoc<T, K>(s: seq<T>, key: T -> K)
    requires s != []
    ensures KeySet(s, key) == KeySet(s[..|s| - 1], key) + {key(s[|s| - 1])}
  {
    var init := s[..|s| - 1];
    forall x | x in KeySet(s, key) ensures x in KeySet(init, key) + {key(s[|s| - 1])} {
      var i :| 0 <= i < |s| && key(s[i]) == x;
      if i < |s| - 1 {
        assert init[i] == s[i];
      }
    }
    forall x | x in KeySet(init, key) ensures x in KeySet(s, key) {
      var i :| 0 <= i < |init| && key(init[i]) == x;
      assert s[i] == init[i];
    }
  }

  /** One more element with a fresh key keeps the keys unique, and only then. */
  lemma UniqueSnoc<T, K>(s: seq<T>, key: T -> K)
    requires s != [] && key(s[|s| - 1]) !in KeySet(s[..|s| - 1], key)
    ensures UniqueBy(s, key) <==> UniqueBy(s[..|s| - 1], key)
  {
    var init := s[..|s| - 1];
    if UniqueBy(init, key) {
      forall i, j | 0 <= i < j < |s| ensures key(s[i]) != key(s[j]) {
        assert s[i] == init[i];
        if j < |s| - 1 {
          assert s[j] == init[j];
        } else {
          assert key(init[i]) in KeySet(init, key);
        }
      }
    }
    if UniqueBy(s, key) {
      forall i, j | 0 <= i < j < |init| ensures key(init[i]) != key(init[j]) {
        assert s[i] == init[i] && s[j] == init[j];
      }
    }
  }

  /** A subset is at most as large as its superset, and as large only when equal. */
  lemma SubsetSize<T>(a: set<T>, b: set<T>)
    requires a <= b
    ensures |a| <= |b| && (|a| == |b| <==> a == b)
  {
    assert b == a + (b - a);
    assert |b| == |a| + |b - a|;
    if b - a != {} {
      var x :| x in b - a;
      assert |b - a| > 0;
    }
  }

  /** Every two elements of `s`, taken in order, are related by `ok`. */
  predicate Pairwise<T>(s: seq<T>, ok: (T, T) -> bool) {
    forall i, j :: 0 <= i < j < |s| ==> ok(s[i], s[j])
  }

  /** Deleting documents never breaks a constraint between pairs of them. */
  lemma {:induction false} FilterPairwise<T>(s: seq<T>, p: T -> bool, ok: (T, T) -> bool)
    requires Pairwise(s, ok)
    ensures Pairwise(Filter(s, p), ok)
  {
    if s != [] {
      var rest := Filter(s[1..], p);
      assert Pairwise(s[1..], ok) by {
        forall i, j | 0 <= i < j < |s[1..]| ensures ok(s[1..][i], s[1..][j]) {
          assert s[1..][i] == s[i + 1] && s[1..][j] == s[j + 1];
        }
      }
      FilterPairwise(s[1..], p, ok);
      if p(s[0]) {
        forall j | 0 <= j < |rest| ensures ok(s[0], rest[j]) {
          var k :| 0 <= k < |s[1..]| && s[1..][k] == rest[j];
          assert s[k + 1] == rest[j];
        }
        assert Filter(s, p) == [s[0]] + rest;
      }
    }
  }

  /** The `n`-element window of `s` starting after `skip` elements: the store's
      `skip(skip).limit(n)`, where a limit of 0 means no limit. */
  function Page<T>(s: seq<T>, skip: nat, n: nat): (r: seq<T>)
    ensures n > 0 ==> |r| <= n
    ensures |r| <= |s|
    ensures |r| == if |s| <= skip then 0 else if n == 0 || |s| - skip <= n then |s| - skip else n
    ensures forall i :: 0 <= i < |r| ==> skip + i < |s| && r[i] == s[skip + i]
  {
    Limit(Skip(s, skip), n)
  }

  /** The number of elements before page `page` (counted from 1) of `limit` elements. */
  function PageStart(page: nat, limit: nat): nat
    requires page >= 1
  {
    (page - 1) * limit
  }

  /** `s` is ordered by `key`, ascending. */
  predicate SortedBy<T>(s: seq<T>, key: T -> int) {
    forall i, j :: 0 <= i < j < |s| ==> key(s[i]) <= key(s[j])
  }

  /** `x` placed before the first element of `s` with a larger key. */
  function InsertBy<T>(x: T, s: seq<T>, key: T -> int): (r: seq<T>)
    ensures multiset(r) == multiset(s) + multiset{x}
    ensures |r| == |s| + 1
  {
    if s == [] then [x]
    else if key(x) < key(s[0]) then [x] + s
    else
      assert s == [s[0]] + s[1..];
      [s[0]] + InsertBy(x, s[1..], key)
  }

  /** A lower bound of `x` and of every element of `s` bounds the insertion's elements. */
  lemma {:induction false} InsertByBounded<T>(x: T, s: seq<T>, key: T -> int, b: int)
    requires b <= key(x) && forall i :: 0 <= i < |s| ==> b <= key(s[i])
    ensures forall i :: 0 <= i < |InsertBy(x, s, key)| ==> b <= key(InsertBy(x, s, key)[i])
  {
    if s != [] && key(x) >= key(s[0]) {
      var t := s[1..];
      assert forall i :: 0 <= i < |t| ==> t[i] == s[i + 1];
      InsertByBounded(x, t, key, b);
      var r := InsertBy(x, t, key);
      assert forall i :: 0 < i < |r| + 1 ==> ([s[0]] + r)[i] == r[i - 1];
    } else if s != [] {
      assert forall i :: 0 < i < |s| + 1 ==> ([x] + s)[i] == s[i - 1];
    }
  }

  /** An element no larger than any of a sorted sequence may go in front of it. */
  lemma ConsSorted<T>(a: T, r: seq<T>, key: T -> int)
    requires SortedBy(r, key) && forall i :: 0 <= i < |r| ==> key(a) <= key(r[i])
    ensures SortedBy([a] + r, key)
  {
    var c := [a] + r;
    forall i, j | 0 <= i < j < |c| ensures key(c[i]) <= key(c[j]) {
      assert c[j] == r[j - 1];
      if i > 0 {
        assert c[i] == r[i - 1];
      }
    }
  }

  /** Inserting into a sorted sequence keeps it sorted. */
  lemma {:induction false} InsertBySorted<T>(x: T, s: seq<T>, key: T -> int)
    requires SortedBy(s, key)
    ensures SortedBy(InsertBy(x, s, key), key)
  {
    if s == [] {
    } else if key(x) < key(s[0]) {
      ConsSorted(x, s, key);
    } else {
      var t := s[1..];
      assert SortedBy(t, key) by {
        forall i, j | 0 <= i < j < |t| ensures key(t[i]) <= key(t[j]) {
          assert t[i] == s[i + 1] && t[j] == s[j + 1];
        }
      }
      assert forall i :: 0 <= i < |t| ==> key(s[0]) <= key(t[i]) by {
        forall i | 0 <= i < |t| ensures key(s[0]) <= key(t[i]) {
          assert t[i] == s[i + 1];
        }
      }
      InsertBySorted(x, t, key);
      InsertByBounded(x, t, key, key(s[0]));
      ConsSorted(s[0], InsertBy(x, t, key), key);
    }
  }

  /** Two orderings of the same elements have the same members. */
  lemma SameMembers<T>(a: seq<T>, b: seq<T>)
    requires multiset(a) == multiset(b)
    ensures forall x :: x in a <==> x in b
  {
    forall x ensures x in a <==> x in b {
      assert x in a <==> x in multiset(a);
      assert x in b <==> x in multiset(b);
    }
  }

  /** The store's `sort`: a permutation of `s` ordered by `key`. The store
      promises nothing about the order of equal keys; neither does this contract. */
  function SortBy<T>(s: seq<T>, key: T -> int): (r: seq<T>)
    ensures SortedBy(r, key)
    ensures multiset(r) == multiset(s)
    ensures |r| == |s|
  {
    if s == [] then []
    else
      assert s == [s[0]] + s[1..];
      var rest := SortBy(s[1..], key);
      InsertBySorted(s[0], rest, key);
      InsertBy(s[0], rest, key)
  }

  /** The store's `limit(n)`: at most `n` leading elements, where 0 means no limit. */
  function Limit<T>(s: seq<T>, n: nat): (r: seq<T>)
    ensures r <= s
    ensures n == 0 ==> r == s
    ensures n > 0 ==> |r| == (if |s| < n then |s| else n)
  {
    if n == 0 || |s| <= n then s else s[..n]
  }

  /** The store's `skip(n)`: all but the first `n` elements. */
  function Skip<T>(s: seq<T>, n: nat): (r: seq<T>)
    ensures |r| == (if n < |s| then |s| - n else 0)
    ensures forall i :: 0 <= i < |r| ==> r[i] == s[n + i]
  {
    if n < |s| then s[n..] else []
  }

  /** Deletes the element at position `i`, keeping the order of the rest. */
  function RemoveAt<T>(s: seq<T>, i: nat): (r: seq<T>)
    requires i < |s|
    ensures |r| == |s| - 1
    ensures forall j :: 0 <= j < i ==> r[j] == s[j]
    ensures forall j :: i <= j < |r| ==> r[j] == s[j + 1]
    ensures multiset(r) == multiset(s) - multiset{s[i]}
  {
    assert s == s[..i] + [s[i]] + s[i + 1..];
    s[..i] + s[i + 1..]
  }
}
