/** What the category breakdown's `Map` holds after its `forEach` loop: one
    entry per category id, in order of first appearance, each with the total
    and the count of that category's transactions. */
module Grouping {
  import opened Ledger

  /** A value of the breakdown's Map: the populated category's display fields
      and the running total and count. `category` is the Map key, kept with the
      value so that properties can name it; the response itself omits it. */
  datatype CategoryEntry = CategoryEntry(category: CategoryId, name: string, color: string, kind: string, total: int, count: nat)

  /** Every transaction's category resolves through `populate`. */
  predicate AllResolved(txs: seq<Transaction>, cats: map<CategoryId, Category>) {
    forall i :: 0 <= i < |txs| ==> txs[i].category in cats
  }

  predicate DistinctIds(ids: seq<CategoryId>) {
    forall i, j :: 0 <= i < j < |ids| ==> ids[i] != ids[j]
  }

  predicate DistinctCategories(es: seq<CategoryEntry>) {
    forall i, j :: 0 <= i < j < |es| ==> es[i].category != es[j].category
  }

  /** The category ids of `txs` in order of first appearance: the Map's key order. */
  function FirstSeen(txs: seq<Transaction>): seq<CategoryId> {
    if txs == [] then []
    else
      var init := FirstSeen(txs[..|txs| - 1]);
      var k := txs[|txs| - 1].category;
      if k in init then init else init + [k]
  }

  lemma FirstSeenSnoc(s: seq<Transaction>, t: Transaction)
    ensures FirstSeen(s + [t]) == if t.category in FirstSeen(s) then FirstSeen(s) else FirstSeen(s) + [t.category]
  {
    var txs := s + [t];
    assert txs[..|txs| - 1] == s;
  }

  /** The key order lists each category id of the transactions, and nothing else, exactly once. */
  lemma {:induction false} FirstSeenMembers(txs: seq<Transaction>)
    ensures DistinctIds(FirstSeen(txs))
    ensures forall k :: k in FirstSeen(txs) <==> exists i :: 0 <= i < |txs| && txs[i].category == k
  {
    if txs != [] {
      var s, t := txs[..|txs| - 1], txs[|txs| - 1];
      FirstSeenMembers(s);
      assert txs == s + [t];
      FirstSeenSnoc(s, t);
      forall k ensures k in FirstSeen(txs) <==> exists i :: 0 <= i < |txs| && txs[i].category == k {
        if k in FirstSeen(txs) {
          if k in FirstSeen(s) {
            var i :| 0 <= i < |s| && s[i].category == k;
            assert txs[i] == s[i];
          } else {
            assert txs[|s|] == t;
          }
        }
        if exists i :: 0 <= i < |txs| && txs[i].category == k {
          var i :| 0 <= i < |txs| && txs[i].category == k;
          if i < |s| {
            assert s[i] == txs[i];
          }
        }
      }
    }
  }

  function InCategory(k: CategoryId): Transaction -> bool {
    (t: Transaction) => t.category == k
  }

  /** The entry of category `k` (resolved to `c`): the sum and the number of its transactions. */
  function EntryFor(k: CategoryId, c: Category, txs: seq<Transaction>): CategoryEntry {
    var mine := Where(txs, InCategory(k));
    CategoryEntry(k, c.name, c.color, c.kind, Total(mine), |mine|)
  }

  function Entries(ids: seq<CategoryId>, cats: map<CategoryId, Category>, txs: seq<Transaction>): (es: seq<CategoryEntry>)
    requires forall k :: k in ids ==> k in cats
    ensures |es| == |ids|
    ensures forall j :: 0 <= j < |ids| ==> es[j] == EntryFor(ids[j], cats[ids[j]], txs)
  {
    seq(|ids|, j requires 0 <= j < |ids| => EntryFor(ids[j], cats[ids[j]], txs))
  }

  /** `Array.from(categoryMap.values())` once every transaction has been counted. */
  function Grouped(txs: seq<Transaction>, cats: map<CategoryId, Category>): seq<CategoryEntry>
    requires AllResolved(txs, cats)
  {
    ResolvedIds(txs, cats);
    Entries(FirstSeen(txs), cats, txs)
  }

  /** The grouping has exactly one entry per distinct category id among the
      transactions, each with the count and the total of that category's
      transactions. */
  lemma GroupedProperties(txs: seq<Transaction>, cats: map<CategoryId, Category>)
    requires AllResolved(txs, cats)
    ensures var r := Grouped(txs, cats);
      && DistinctCategories(r)
      && (forall t :: t in txs ==> exists j :: 0 <= j < |r| && r[j].category == t.category)
      && (forall j :: 0 <= j < |r| ==> exists i :: 0 <= i < |txs| && txs[i].category == r[j].category)
      && (forall e :: e in r ==> e.category in cats && e == EntryFor(e.category, cats[e.category], txs))
  {
    FirstSeenMembers(txs);
    GroupedCovers(txs, cats);
    GroupedEntries(FirstSeen(txs), cats, txs);
  }

  lemma ResolvedIds(txs: seq<Transaction>, cats: map<CategoryId, Category>)
    requires AllResolved(txs, cats)
    ensures forall k :: k in FirstSeen(txs) ==> k in cats
  {
    FirstSeenMembers(txs);
  }

  lemma GroupedEntries(ids: seq<CategoryId>, cats: map<CategoryId, Category>, txs: seq<Transaction>)
    requires DistinctIds(ids) && forall k :: k in ids ==> k in cats
    ensures DistinctCategories(Entries(ids, cats, txs))
    ensures forall e :: e in Entries(ids, cats, txs) ==> e.category in cats && e == EntryFor(e.category, cats[e.category], txs)
  {
  }

  lemma GroupedCovers(txs: seq<Transaction>, cats: map<CategoryId, Category>)
    requires AllResolved(txs, cats)
    ensures forall k :: k in FirstSeen(txs) ==> k in cats
    ensures var r := Entries(FirstSeen(txs), cats, txs);
      && (forall t :: t in txs ==> exists j :: 0 <= j < |r| && r[j].category == t.category)
      && (forall j :: 0 <= j < |r| ==> exists i :: 0 <= i < |txs| && txs[i].category == r[j].category)
  {
    FirstSeenMembers(txs);
    var ids := FirstSeen(txs);
    var r := Entries(ids, cats, txs);
    forall t | t in txs ensures exists j :: 0 <= j < |r| && r[j].category == t.category {
      var i :| 0 <= i < |txs| && txs[i] == t;
      assert t.category in ids;
      var j :| 0 <= j < |ids| && ids[j] == t.category;
      assert r[j].category == t.category;
    }
    forall j | 0 <= j < |r| ensures exists i :: 0 <= i < |txs| && txs[i].category == r[j].category {
      assert r[j].category == ids[j];
      assert ids[j] in ids;
    }
  }

  function SumTotals(es: seq<CategoryEntry>): int {
    if es == [] then 0 else SumTotals(es[..|es| - 1]) + es[|es| - 1].total
  }

  function SumCounts(es: seq<CategoryEntry>): int {
    if es == [] then 0 else SumCounts(es[..|es| - 1]) + es[|es| - 1].count
  }

  lemma {:induction false} SumsAppend(a: seq<CategoryEntry>, b: seq<CategoryEntry>)
    ensures SumTotals(a + b) == SumTotals(a) + SumTotals(b)
    ensures SumCounts(a + b) == SumCounts(a) + SumCounts(b)
  {
    if b == [] {
      assert a + b == a;
    } else {
      var ab := a + b;
      assert ab[..|ab| - 1] == a + b[..|b| - 1];
      assert ab[|ab| - 1] == b[|b| - 1];
      SumsAppend(a, b[..|b| - 1]);
    }
  }

  lemma EntriesSnocIds(ids: seq<CategoryId>, k: CategoryId, cats: map<CategoryId, Category>, txs: seq<Transaction>)
    requires forall j :: j in ids + [k] ==> j in cats
    ensures Entries(ids + [k], cats, txs) == Entries(ids, cats, txs) + [EntryFor(k, cats[k], txs)]
  {
  }

  /** One more transaction adds its amount (and 1) to the sums over a set of
      distinct ids exactly when its category is among them. */
  lemma {:induction false} EntriesSnocTx(ids: seq<CategoryId>, cats: map<CategoryId, Category>, s: seq<Transaction>, t: Transaction)
    requires DistinctIds(ids) && forall k :: k in ids ==> k in cats
    ensures SumTotals(Entries(ids, cats, s + [t])) == SumTotals(Entries(ids, cats, s)) + (if t.category in ids then t.amount else 0)
    ensures SumCounts(Entries(ids, cats, s + [t])) == SumCounts(Entries(ids, cats, s)) + (if t.category in ids then 1 else 0)
  {
    if ids != [] {
      var init, k := ids[..|ids| - 1], ids[|ids| - 1];
      assert ids == init + [k];
      EntriesSnocTx(init, cats, s, t);
      EntriesSnocIds(init, k, cats, s + [t]);
      EntriesSnocIds(init, k, cats, s);
      SumsAppend(Entries(init, cats, s + [t]), [EntryFor(k, cats[k], s + [t])]);
      SumsAppend(Entries(init, cats, s), [EntryFor(k, cats[k], s)]);
      TotalWhereSnoc(s, t, InCategory(k));
      WhereSnoc(s, t, InCategory(k));
      assert t.category in ids <==> t.category in init || t.category == k;
      assert k !in init;
    }
  }

  lemma {:induction false} NoneInCategory(s: seq<Transaction>, k: CategoryId)
    requires k !in FirstSeen(s)
    ensures Where(s, InCategory(k)) == []
  {
    if s != [] {
      var init, t := s[..|s| - 1], s[|s| - 1];
      assert s == init + [t];
      FirstSeenSnoc(init, t);
      NoneInCategory(init, k);
      WhereSnoc(init, t, InCategory(k));
    }
  }

  /** The entries' totals add up to the sum of all amounts, and their counts
      to the number of transactions. */
  lemma {:induction false} GroupedSums(txs: seq<Transaction>, cats: map<CategoryId, Category>)
    requires AllResolved(txs, cats)
    ensures SumTotals(Grouped(txs, cats)) == Total(txs)
    ensures SumCounts(Grouped(txs, cats)) == |txs|
  {
    if txs != [] {
      var s, t := txs[..|txs| - 1], txs[|txs| - 1];
      assert txs == s + [t];
      assert AllResolved(s, cats);
      GroupedSums(s, cats);
      GroupedSnoc(s, t, cats);
    }
  }

  lemma GroupedSnoc(s: seq<Transaction>, t: Transaction, cats: map<CategoryId, Category>)
    requires AllResolved(s + [t], cats)
    ensures AllResolved(s, cats)
    ensures SumTotals(Grouped(s + [t], cats)) == SumTotals(Grouped(s, cats)) + t.amount
    ensures SumCounts(Grouped(s + [t], cats)) == SumCounts(Grouped(s, cats)) + 1
  {
    assert forall i :: 0 <= i < |s| ==> s[i] == (s + [t])[i];
    var txs := s + [t];
    assert txs[..|txs| - 1] == s;
    var ids := FirstSeen(s);
    FirstSeenMembers(s);
    ResolvedIds(s, cats);
    EntriesSnocTx(ids, cats, s, t);
    if t.category !in ids {
      NewCategorySnoc(s, t, cats);
    }
  }

  lemma NewCategorySnoc(s: seq<Transaction>, t: Transaction, cats: map<CategoryId, Category>)
    requires AllResolved(s + [t], cats) && AllResolved(s, cats)
    requires t.category !in FirstSeen(s) && forall k :: k in FirstSeen(s) ==> k in cats
    ensures SumTotals(Grouped(s + [t], cats)) == SumTotals(Entries(FirstSeen(s), cats, s + [t])) + t.amount
    ensures SumCounts(Grouped(s + [t], cats)) == SumCounts(Entries(FirstSeen(s), cats, s + [t])) + 1
  {
    var txs := s + [t];
    var ids := FirstSeen(s);
    FirstSeenSnoc(s, t);
    assert t.category in cats by {
      assert txs[|s|] == t;
    }
    GroupedIsEntries(txs, cats);
    AppendEntry(ids, t.category, cats, s, t);
  }

  lemma GroupedIsEntries(txs: seq<Transaction>, cats: map<CategoryId, Category>)
    requires AllResolved(txs, cats)
    ensures forall k :: k in FirstSeen(txs) ==> k in cats
    ensures Grouped(txs, cats) == Entries(FirstSeen(txs), cats, txs)
  {
    ResolvedIds(txs, cats);
  }

  lemma AppendEntry(ids: seq<CategoryId>, k: CategoryId, cats: map<CategoryId, Category>, s: seq<Transaction>, t: Transaction)
    requires forall j :: j in ids ==> j in cats
    requires k in cats && k == t.category && k !in FirstSeen(s)
    ensures SumTotals(Entries(ids + [k], cats, s + [t])) == SumTotals(Entries(ids, cats, s + [t])) + t.amount
    ensures SumCounts(Entries(ids + [k], cats, s + [t])) == SumCounts(Entries(ids, cats, s + [t])) + 1
  {
    var txs := s + [t];
    EntriesSnocIds(ids, k, cats, txs);
    var e := EntryFor(k, cats[k], txs);
    SumsAppend(Entries(ids, cats, txs), [e]);
    FirstOfCategory(s, t);
    assert [e][..0] == [];
  }

  /** The first transaction of a category makes an entry of that amount and count 1. */
  lemma FirstOfCategory(s: seq<Transaction>, t: Transaction)
    requires t.category !in FirstSeen(s)
    ensures Where(s + [t], InCategory(t.category)) == [t]
    ensures Total(Where(s + [t], InCategory(t.category))) == t.amount
  {
    assert [t][..0] == [];
    NoneInCategory(s, t.category);
    WhereSnoc(s, t, InCategory(t.category));
  }
}
