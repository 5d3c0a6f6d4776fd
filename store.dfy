/** The entity store's query primitives, as the services use them: `findFirst`,
    `findMany` with a `where` filter, `orderBy` on two ascending keys, `skip` and
    `take`, `count`, and the page count derived from `count`. Tables are
    sequences of rows. */
module Store {

  import opened Common

  /** `findFirst`: the index of the first row satisfying `p`, if any. */
  function FindFirst<T>(rows: seq<T>, p: T -> bool): (r: Option<nat>)
    ensures r.Some? ==> r.value < |rows| && p(rows[r.value])
    ensures r.Some? ==> forall k :: 0 <= k < r.value ==> !p(rows[k])
    ensures r.None? <==> forall k :: 0 <= k < |rows| ==> !p(rows[k])
  {
    if rows == [] then None
    else if p(rows[0]) then Some(0)
    else
      match FindFirst(rows[1..], p)
      case None => None
      case Some(k) => Some(k + 1)
  }

  /** `findMany({ where })`: the rows satisfying `p`, in table order. */
  function Filter<T(!new)>(rows: seq<T>, p: T -> bool): (r: seq<T>)
    ensures |r| <= |rows|
    ensures forall x :: x in r <==> x in rows && p(x)
  {
    if rows == [] then []
    else
      assert rows == [rows[0]] + rows[1..];
      (if p(rows[0]) then [rows[0]] else []) + Filter(rows[1..], p)
  }

  lemma {:induction false} FilterAppend<T(!new)>(rows: seq<T>, x: T, p: T -> bool)
    ensures Filter(rows + [x], p) == Filter(rows, p) + (if p(x) then [x] else [])
  {
    if rows != [] {
      assert (rows + [x])[1..] == rows[1..] + [x];
      FilterAppend(rows[1..], x, p);
    }
  }

  /** No row satisfies `p`: nothing is selected. */
  lemma {:induction false} FilterNone<T(!new)>(rows: seq<T>, p: T -> bool)
    requires forall k :: 0 <= k < |rows| ==> !p(rows[k])
    ensures Filter(rows, p) == []
  {
    if rows != [] {
      FilterNone(rows[1..], p);
    }
  }

  /** Filtering twice with the same condition changes nothing more. */
  lemma {:induction false} FilterIdempotent<T(!new)>(rows: seq<T>, p: T -> bool)
    ensures Filter(Filter(rows, p), p) == Filter(rows, p)
  {
    if rows != [] {
      FilterIdempotent(rows[1..], p);
      var f := Filter(rows, p);
      if p(rows[0]) {
        assert f == [rows[0]] + Filter(rows[1..], p);
        assert f[0] == rows[0] && f[1..] == Filter(rows[1..], p);
        assert Filter(f, p) == [f[0]] + Filter(f[1..], p);
      } else {
        assert f == Filter(rows[1..], p);
      }
    }
  }

  /** Two conditions that agree on every row select the same rows. */
  lemma {:induction false} FilterCongruent<T(!new)>(rows: seq<T>, p: T -> bool, q: T -> bool)
    requires forall x :: p(x) == q(x)
    ensures Filter(rows, p) == Filter(rows, q)
  {
    if rows != [] {
      FilterCongruent(rows[1..], p, q);
    }
  }

  /** Filtering keeps a row as often as the table holds it, or drops it. */
  lemma {:induction false} FilterCount<T(!new)>(rows: seq<T>, p: T -> bool, x: T)
    ensures multiset(Filter(rows, p))[x] == if p(x) then multiset(rows)[x] else 0
  {
    if rows != [] {
      FilterCount(rows[1..], p, x);
      assert rows == [rows[0]] + rows[1..];
    }
  }

  /** Each row occurs at most once. */
  ghost predicate NoDup<T(!new)>(s: seq<T>)
  {
    forall x :: multiset(s)[x] <= 1
  }

  lemma FilterNoDup<T(!new)>(rows: seq<T>, p: T -> bool)
    requires NoDup(rows)
    ensures NoDup(Filter(rows, p))
  {
    forall x ensures multiset(Filter(rows, p))[x] <= 1 {
      FilterCount(rows, p, x);
    }
  }

  /** `orderBy: [{a: 'asc'}, {b: 'asc'}]` compares rows on the key (a, b). */
  predicate KeyLe(x: (int, int), y: (int, int))
  {
    x.0 < y.0 || (x.0 == y.0 && x.1 <= y.1)
  }

  predicate SortedBy<T>(s: seq<T>, key: T -> (int, int))
  {
    forall i, j :: 0 <= i < j < |s| ==> KeyLe(key(s[i]), key(s[j]))
  }

  function Insert<T(!new)>(x: T, s: seq<T>, key: T -> (int, int)): (r: seq<T>)
    requires SortedBy(s, key)
    ensures SortedBy(r, key)
    ensures multiset(r) == multiset(s) + multiset{x}
  {
    if s == [] then [x]
    else if KeyLe(key(x), key(s[0])) then [x] + s
    else
      var rest := Insert(x, s[1..], key);
      assert s == [s[0]] + s[1..];
      assert forall y :: y in rest ==> y in s[1..] || y == x by {
        forall y | y in rest ensures y in s[1..] || y == x {
          assert y in multiset(rest);
        }
      }
      assert forall k :: 0 <= k < |rest| ==> KeyLe(key(s[0]), key(rest[k])) by {
        forall k | 0 <= k < |rest| ensures KeyLe(key(s[0]), key(rest[k])) {
          assert rest[k] in rest;
          if rest[k] != x {
            var m :| 0 <= m < |s[1..]| && s[1..][m] == rest[k];
            assert s[m + 1] == rest[k];
          }
        }
      }
      [s[0]] + rest
  }

  /** Filtering a sorted sequence keeps it sorted. */
  lemma {:induction false} FilterSorted<T(!new)>(s: seq<T>, p: T -> bool, key: T -> (int, int))
    requires SortedBy(s, key)
    ensures SortedBy(Filter(s, p), key)
  {
    if s != [] {
      var rest := Filter(s[1..], p);
      assert SortedBy(s[1..], key) by {
        forall i, j | 0 <= i < j < |s[1..]| ensures KeyLe(key(s[1..][i]), key(s[1..][j])) {
          assert s[1..][i] == s[i + 1] && s[1..][j] == s[j + 1];
        }
      }
      FilterSorted(s[1..], p, key);
      if p(s[0]) {
        var r := [s[0]] + rest;
        forall i, j | 0 <= i < j < |r| ensures KeyLe(key(r[i]), key(r[j])) {
          if i == 0 {
            assert r[j] in rest;
            var m :| 0 <= m < |s[1..]| && s[1..][m] == r[j];
            assert s[m + 1] == r[j];
          } else {
            assert r[i] == rest[i - 1] && r[j] == rest[j - 1];
          }
        }
        assert Filter(s, p) == r;
      } else {
        assert Filter(s, p) == rest;
      }
    }
  }

  /** `orderBy` over a result set: a sorted permutation of the rows. */
  function SortBy<T(!new)>(s: seq<T>, key: T -> (int, int)): (r: seq<T>)
    ensures SortedBy(r, key)
    ensures multiset(r) == multiset(s)
    ensures |r| == |s|
    ensures forall x :: x in r <==> x in s
  {
    if s == [] then []
    else
      assert s == [s[0]] + s[1..];
      var r := Insert(s[0], SortBy(s[1..], key), key);
      assert forall x :: x in r <==> x in multiset(r);
      r
  }

  /** `skip` then `take` applied to an ordered result set. */
  function Window<T>(s: seq<T>, skip: nat, take: nat): (r: seq<T>)
    ensures |r| == if skip >= |s| then 0 else if |s| - skip < take then |s| - skip else take
    ensures forall i :: 0 <= i < |r| ==> skip + i < |s| && r[i] == s[skip + i]
  {
    if skip >= |s| then []
    else if |s| - skip < take then s[skip..]
    else s[skip..skip + take]
  }

  /** A window of a sorted sequence is sorted. */
  lemma WindowSorted<T>(s: seq<T>, skip: nat, take: nat, key: T -> (int, int))
    requires SortedBy(s, key)
    ensures SortedBy(Window(s, skip, take), key)
  {
    var w := Window(s, skip, take);
    forall i, j | 0 <= i < j < |w| ensures KeyLe(key(w[i]), key(w[j])) {
      assert w[i] == s[skip + i] && w[j] == s[skip + j];
    }
  }

  /** A page of a sorted query result holds only matching rows, in order. */
  lemma PageOfQuery<T(!new)>(rows: seq<T>, p: T -> bool, key: T -> (int, int), skip: nat, take: nat)
    ensures var page := Window(SortBy(Filter(rows, p), key), skip, take);
      && SortedBy(page, key)
      && |page| <= take
      && forall x :: x in page ==> x in rows && p(x)
  {
    var ordered := SortBy(Filter(rows, p), key);
    var page := Window(ordered, skip, take);
    WindowSorted(ordered, skip, take, key);
    forall x | x in page ensures x in rows && p(x) {
      var k :| 0 <= k < |page| && page[k] == x;
      assert x == ordered[skip + k];
    }
  }

  /** `ordered` is what `findMany` returns for `where: p` and `orderBy: key`:
      the matching rows, each as often as in the table, in key order (rows
      with equal keys may come in any order). */
  ghost predicate OrderedQuery<T(!new)>(ordered: seq<T>, rows: seq<T>, p: T -> bool, key: T -> (int, int))
  {
    multiset(ordered) == multiset(Filter(rows, p)) && SortedBy(ordered, key)
  }

  /** Paging with `skip = (page - 1) * limit` and `take = limit` shows every
      row of a result set exactly where expected: row `i` is at position
      `i % limit` of page `i / limit + 1`, a page no later than the page count. */
  lemma {:induction false} EveryRowOnItsPage<T>(s: seq<T>, limit: int, i: nat)
    requires limit >= 1 && i < |s|
    ensures var page := i / limit + 1;
      && 1 <= page <= PageCount(|s|, limit)
      && i % limit < |Window(s, Skip(page, limit), limit)|
      && Window(s, Skip(page, limit), limit)[i % limit] == s[i]
  {
    var q := i / limit;
    var skip := Skip(q + 1, limit);
    assert i == q * limit + i % limit && 0 <= i % limit < limit;
    assert skip == q * limit;
    RowsBeforeLastPage(q, PageCount(|s|, limit), limit, i, |s|);
  }

  /** The page holding row `i` is within the page count. */
  lemma RowsBeforeLastPage(q: int, n: nat, limit: int, i: nat, total: nat)
    requires limit >= 1 && q * limit <= i < total <= n * limit
    ensures q < n
  {
    assert (n - q) * limit == n * limit - q * limit;
    assert (n - q) * limit > 0;
  }

  /** The `pagination` object returned next to a page of rows. */
  datatype Pagination = Pagination(total: nat, page: int, limit: int, totalPages: nat)

  /** The rows skipped before page `page` (counted from 1) of `limit` rows. */
  function Skip(page: int, limit: int): (n: nat)
    requires page >= 1 && limit >= 1
    ensures n == (page - 1) * limit
  {
    (page - 1) * limit
  }

  /** `n` is `Math.ceil(total / limit)`: the fewest pages of `limit` rows that hold `total` rows. */
  predicate IsPageCount(total: nat, limit: nat, n: nat)
  {
    n * limit >= total && (n == 0 || (n - 1) * limit < total)
  }

  /** `Math.ceil(total / limit)` in integers. */
  function PageCount(total: nat, limit: nat): (n: nat)
    requires limit >= 1
    ensures IsPageCount(total, limit, n)
  {
    var q := total / limit;
    var m := total % limit;
    assert total == q * limit + m;
    if m == 0 then q
    else
      assert (q + 1) * limit == q * limit + limit;
      q + 1
  }

  /** The `pagination` object for `total` matching rows. */
  function Paginate(total: nat, page: int, limit: int): (r: Pagination)
    requires page >= 1 && limit >= 1
    ensures r.total == total && r.page == page && r.limit == limit
    ensures IsPageCount(total, limit, r.totalPages)
  {
    Pagination(total, page, limit, PageCount(total, limit))
  }
}
