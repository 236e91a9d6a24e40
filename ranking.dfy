/** The breakdown's final `sort((a, b) => b.total - a.total)`. Since
    ECMAScript 2019 `Array.prototype.sort` is stable, so the result is the
    entries ordered by non-increasing total with equal totals in their
    original order. `SortByTotal` is one such sort (insertion sort);
    `StableSortIsUnique` shows that every stable descending sort returns the
    same sequence. */
module Ranking {
  import opened Grouping

  predicate SortedByTotal(s: seq<CategoryEntry>) {
    forall i, j :: 0 <= i < j < |s| ==> s[i].total >= s[j].total
  }

  /** The entries of `s` whose total is `v`, in their order in `s`. */
  function WithTotal(s: seq<CategoryEntry>, v: int): seq<CategoryEntry> {
    if s == [] then []
    else (if s[0].total == v then [s[0]] else []) + WithTotal(s[1..], v)
  }

  lemma {:induction false} WithTotalMembers(s: seq<CategoryEntry>, v: int, e: CategoryEntry)
    ensures e in WithTotal(s, v) <==> e in s && e.total == v
  {
    if s != [] {
      WithTotalMembers(s[1..], v, e);
      assert e in s <==> e == s[0] || e in s[1..];
    }
  }

  /** Places `x` before the first entry whose total is not larger than its own. */
  function Insert(x: CategoryEntry, s: seq<CategoryEntry>): (r: seq<CategoryEntry>)
    ensures |r| == |s| + 1
    ensures multiset(r) == multiset(s) + multiset{x}
  {
    if s == [] || s[0].total <= x.total then [x] + s
    else
      assert s == [s[0]] + s[1..];
      [s[0]] + Insert(x, s[1..])
  }

  lemma {:induction false} InsertSorted(x: CategoryEntry, s: seq<CategoryEntry>)
    requires SortedByTotal(s)
    ensures SortedByTotal(Insert(x, s))
  {
    if s != [] && s[0].total > x.total {
      InsertSorted(x, s[1..]);
      var r := Insert(x, s[1..]);
      forall e | e in r ensures s[0].total >= e.total {
        assert e in multiset(r);
        if e != x {
          assert e in multiset(s[1..]);
          var i :| 0 <= i < |s[1..]| && s[1..][i] == e;
          assert s[i + 1] == e;
        }
      }
    }
  }

  lemma WithTotalCons(e: CategoryEntry, s: seq<CategoryEntry>, v: int)
    ensures WithTotal([e] + s, v) == (if e.total == v then [e] else []) + WithTotal(s, v)
  {
    assert ([e] + s)[1..] == s;
  }

  /** Insertion keeps, for every total, the entries with that total in the
      order they have when `x` stands in front: the step that makes the sort stable. */
  lemma {:induction false} InsertStable(x: CategoryEntry, s: seq<CategoryEntry>, v: int)
    ensures WithTotal(Insert(x, s), v) == WithTotal([x] + s, v)
  {
    if s != [] && s[0].total > x.total {
      var rest := s[1..];
      var fx := if x.total == v then [x] else [];
      var fs := if s[0].total == v then [s[0]] else [];
      calc {
        WithTotal(Insert(x, s), v);
        { assert Insert(x, s) == [s[0]] + Insert(x, rest); }
        WithTotal([s[0]] + Insert(x, rest), v);
        { WithTotalCons(s[0], Insert(x, rest), v); }
        fs + WithTotal(Insert(x, rest), v);
        { InsertStable(x, rest, v); }
        fs + WithTotal([x] + rest, v);
        { WithTotalCons(x, rest, v); }
        fs + (fx + WithTotal(rest, v));
        { assert fs == [] || fx == []; }
        fx + (fs + WithTotal(rest, v));
        { WithTotalCons(s[0], rest, v); assert s == [s[0]] + rest; }
        fx + WithTotal(s, v);
        { WithTotalCons(x, s, v); }
        WithTotal([x] + s, v);
      }
    }
  }

  /** Sorts by non-increasing total; of two entries with equal totals the
      earlier one stays first. */
  function SortByTotal(s: seq<CategoryEntry>): (r: seq<CategoryEntry>)
    ensures SortedByTotal(r)
    ensures multiset(r) == multiset(s)
    ensures |r| == |s|
  {
    if s == [] then []
    else
      assert s == [s[0]] + s[1..];
      InsertSorted(s[0], SortByTotal(s[1..]));
      Insert(s[0], SortByTotal(s[1..]))
  }

  /** Stability: for every total, the entries with that total come out in
      the order they went in. */
  lemma {:induction false} SortStable(s: seq<CategoryEntry>, v: int)
    ensures WithTotal(SortByTotal(s), v) == WithTotal(s, v)
  {
    if s != [] {
      SortStable(s[1..], v);
      InsertStable(s[0], SortByTotal(s[1..]), v);
      var t := SortByTotal(s[1..]);
      assert ([s[0]] + t)[1..] == t;
      assert s == [s[0]] + s[1..];
    }
  }

  lemma WithTotalHead(s: seq<CategoryEntry>)
    requires s != []
    ensures WithTotal(s, s[0].total) == [s[0]] + WithTotal(s[1..], s[0].total)
    ensures forall v :: v != s[0].total ==> WithTotal(s, v) == WithTotal(s[1..], v)
  {
  }

  /** Sorted sequences that agree total by total start with the same total. */
  lemma SameLeadingTotal(r: seq<CategoryEntry>, q: seq<CategoryEntry>)
    requires r != [] && q != [] && SortedByTotal(r) && SortedByTotal(q)
    requires forall v :: WithTotal(r, v) == WithTotal(q, v)
    ensures r[0].total == q[0].total
  {
    var a, b := r[0].total, q[0].total;
    WithTotalMembers(r, a, r[0]);
    WithTotalMembers(q, a, r[0]);
    WithTotalMembers(q, b, q[0]);
    WithTotalMembers(r, b, q[0]);
    assert WithTotal(r, a) == WithTotal(q, a);
    assert WithTotal(r, b) == WithTotal(q, b);
    var i :| 0 <= i < |q| && q[i] == r[0];
    var j :| 0 <= j < |r| && r[j] == q[0];
    assert b >= a && a >= b;
  }

  /** With the same leading total, the first entry of that total is the same in both. */
  lemma SameHead(r: seq<CategoryEntry>, q: seq<CategoryEntry>)
    requires r != [] && q != [] && r[0].total == q[0].total
    requires WithTotal(r, r[0].total) == WithTotal(q, r[0].total)
    ensures r[0] == q[0]
  {
    WithTotalHead(r);
    WithTotalHead(q);
    assert WithTotal(r, r[0].total)[0] == r[0];
    assert WithTotal(q, q[0].total)[0] == q[0];
  }

  /** Removing the same head from both keeps them in agreement. */
  lemma TailsAgree(r: seq<CategoryEntry>, q: seq<CategoryEntry>)
    requires r != [] && q != [] && r[0] == q[0]
    requires forall v :: WithTotal(r, v) == WithTotal(q, v)
    ensures forall v :: WithTotal(r[1..], v) == WithTotal(q[1..], v)
  {
    var a := r[0].total;
    WithTotalHead(r);
    WithTotalHead(q);
    forall v ensures WithTotal(r[1..], v) == WithTotal(q[1..], v) {
      assert WithTotal(r, v) == WithTotal(q, v);
      if v == a {
        assert WithTotal(r, v)[1..] == WithTotal(r[1..], v);
        assert WithTotal(q, v)[1..] == WithTotal(q[1..], v);
      }
    }
  }

  /** Two sequences sorted by non-increasing total that agree, total by
      total, on their entries and the order of those entries are the same
      sequence. */
  lemma {:induction false} StableSortIsUnique(r: seq<CategoryEntry>, q: seq<CategoryEntry>)
    requires SortedByTotal(r) && SortedByTotal(q)
    requires forall v :: WithTotal(r, v) == WithTotal(q, v)
    ensures r == q
    decreases |r|
  {
    if r == [] {
      if q != [] {
        WithTotalHead(q);
      }
    } else if q == [] {
      WithTotalHead(r);
    } else {
      SameLeadingTotal(r, q);
      SameHead(r, q);
      TailsAgree(r, q);
      StableSortIsUnique(r[1..], q[1..]);
      assert r == [r[0]] + r[1..];
      assert q == [q[0]] + q[1..];
    }
  }

  /** Any stable sort by non-increasing total of `s` returns `SortByTotal(s)`. */
  lemma AnyStableSortAgrees(s: seq<CategoryEntry>, r: seq<CategoryEntry>)
    requires SortedByTotal(r)
    requires forall v :: WithTotal(r, v) == WithTotal(s, v)
    ensures r == SortByTotal(s)
  {
    forall v ensures WithTotal(r, v) == WithTotal(SortByTotal(s), v) {
      SortStable(s, v);
    }
    StableSortIsUnique(r, SortByTotal(s));
  }

  lemma SumsCons(e: CategoryEntry, s: seq<CategoryEntry>)
    ensures SumTotals([e] + s) == e.total + SumTotals(s)
    ensures SumCounts([e] + s) == e.count + SumCounts(s)
  {
    assert [e][..0] == [];
    SumsAppend([e], s);
  }

  lemma {:induction false} SumsOfInsert(x: CategoryEntry, s: seq<CategoryEntry>)
    ensures SumTotals(Insert(x, s)) == x.total + SumTotals(s)
    ensures SumCounts(Insert(x, s)) == x.count + SumCounts(s)
  {
    if s != [] && s[0].total > x.total {
      var y, rest := s[0], s[1..];
      SumsOfInsert(x, rest);
      SumsCons(y, Insert(x, rest));
      SumsCons(y, rest);
      assert s == [y] + rest;
    } else {
      SumsCons(x, s);
    }
  }

  /** Sorting moves entries but keeps the sums of their totals and counts. */
  lemma {:induction false} SortKeepsSums(s: seq<CategoryEntry>)
    ensures SumTotals(SortByTotal(s)) == SumTotals(s)
    ensures SumCounts(SortByTotal(s)) == SumCounts(s)
  {
    if s != [] {
      var rest := s[1..];
      SortKeepsSums(rest);
      SumsOfInsert(s[0], SortByTotal(rest));
      SumsCons(s[0], rest);
      assert s == [s[0]] + rest;
    }
  }

  lemma {:induction false} AtMostOnce(a: seq<CategoryEntry>, x: CategoryEntry)
    requires DistinctCategories(a)
    ensures multiset(a)[x] <= 1
  {
    if a != [] {
      assert a == [a[0]] + a[1..];
      assert DistinctCategories(a[1..]) by {
        forall i, j | 0 <= i < j < |a[1..]| ensures a[1..][i].category != a[1..][j].category {
          assert a[1..][i] == a[i + 1] && a[1..][j] == a[j + 1];
        }
      }
      AtMostOnce(a[1..], x);
      if a[0] == x {
        assert x !in a[1..];
      }
    }
  }

  lemma AtLeastTwice(b: seq<CategoryEntry>, i: int, j: int)
    requires 0 <= i < j < |b| && b[i] == b[j]
    ensures multiset(b)[b[i]] >= 2
  {
    assert b == b[..j] + b[j..];
    assert b[i] in b[..j];
    assert b[j] in b[j..];
    assert multiset(b) == multiset(b[..j]) + multiset(b[j..]);
  }

  /** A permutation of entries with distinct category ids has distinct ids too. */
  lemma PermutationKeepsDistinct(a: seq<CategoryEntry>, b: seq<CategoryEntry>)
    requires multiset(a) == multiset(b) && DistinctCategories(a)
    ensures DistinctCategories(b)
  {
    forall i, j | 0 <= i < j < |b| ensures b[i].category != b[j].category {
      if b[i].category == b[j].category {
        assert b[i] in multiset(a) && b[j] in multiset(a);
        var p :| 0 <= p < |a| && a[p] == b[i];
        var q :| 0 <= q < |a| && a[q] == b[j];
        assert p == q;
        AtLeastTwice(b, i, j);
        AtMostOnce(a, b[i]);
        assert false;
      }
    }
  }
}
