/**
 * What the paging query of `select_page` returns, over a table given as its
 * rows in the query's order, each with its SQLite `oid`. The query keeps
 * the rows that pass the caller's filter and whose oid is not among the
 * first `(page-1)*size` oids, then limits to `size` rows. The exclusion is
 * computed over the whole table, ignoring the filter.
 */
module DbPagination {
  import opened DbMapping

  /** A stored row with its oid. */
  datatype Entry = Entry(oid: int, row: Row)

  /** SQLite `LIMIT n`: the first `n` rows; a negative limit means no limit. */
  function Limit(xs: seq<Entry>, n: int): (r: seq<Entry>)
    ensures n < 0 ==> r == xs
    ensures 0 <= n ==> r == xs[..if n < |xs| then n else |xs|]
  {
    if n < 0 || n >= |xs| then xs else xs[..n]
  }

  function Oids(xs: seq<Entry>): set<int>
  {
    set e | e in xs :: e.oid
  }

  /** The rows passing `keep` and whose oid is not in `excluded`, in order. */
  function Where(xs: seq<Entry>, keep: Entry -> bool, excluded: set<int>): (r: seq<Entry>)
    ensures forall e :: e in r <==> e in xs && keep(e) && e.oid !in excluded
    ensures |r| <= |xs|
  {
    if xs == [] then []
    else
      var init := Where(xs[..|xs| - 1], keep, excluded);
      var last := xs[|xs| - 1];
      assert forall e :: e in xs <==> e in xs[..|xs| - 1] || e == last;
      if keep(last) && last.oid !in excluded then init + [last] else init
  }

  function KeepAll(e: Entry): bool { true }

  /** The page the query returns, as written: the exclusion subquery sees the whole table. */
  function Page(table: seq<Entry>, keep: Entry -> bool, page: int, size: int): seq<Entry>
  {
    Limit(Where(table, keep, Oids(Limit(table, (page - 1) * size))), size)
  }

  /** The first page excludes nothing: it is the first `size` rows passing the filter. */
  lemma FirstPageExcludesNothing(table: seq<Entry>, keep: Entry -> bool, size: int)
    ensures Page(table, keep, 1, size) == Limit(Where(table, keep, {}), size)
  {
    assert Limit(table, 0) == [];
    assert Oids([]) == {};
  }

  predicate DistinctOids(xs: seq<Entry>)
  {
    forall i, j :: 0 <= i < j < |xs| ==> xs[i].oid != xs[j].oid
  }

  /** Filtering by nothing and excluding the oids of a prefix leaves the rest of the table. */
  lemma {:induction false} WhereAllAfterPrefix(xs: seq<Entry>, k: nat)
    requires DistinctOids(xs) && k <= |xs|
    ensures Where(xs, KeepAll, Oids(xs[..k])) == xs[k..]
    decreases |xs|
  {
    if |xs| > k {
      var init := xs[..|xs| - 1];
      assert init[..k] == xs[..k];
      assert DistinctOids(init);
      WhereAllAfterPrefix(init, k);
      var last := xs[|xs| - 1];
      assert last.oid !in Oids(xs[..k]);
      assert xs[k..] == init[k..] + [last];
    } else {
      assert xs[..k] == xs;
      WhereNoneLeft(xs, xs);
    }
  }

  lemma {:induction false} WhereNoneLeft(xs: seq<Entry>, all: seq<Entry>)
    requires forall e :: e in xs ==> e in all
    ensures Where(xs, KeepAll, Oids(all)) == []
    decreases |xs|
  {
    if xs != [] {
      assert xs[|xs| - 1] in all;
      WhereNoneLeft(xs[..|xs| - 1], all);
    }
  }

  /**
   * Without a filter, page `p` is exactly the `p`-th slice of `size` rows of
   * the table, so consecutive pages partition it.
   */
  lemma UnfilteredPageIsSlice(table: seq<Entry>, page: int, size: int)
    requires DistinctOids(table)
    requires page >= 1 && size >= 0
    ensures var lo := (page - 1) * size;
      Page(table, KeepAll, page, size) ==
        if lo >= |table| then [] else table[lo..if lo + size < |table| then lo + size else |table|]
  {
    SliceAtOffset(table, (page - 1) * size, size);
  }

  /** The unfiltered query with `lo` rows excluded is the slice of `size` rows starting at `lo`. */
  lemma SliceAtOffset(table: seq<Entry>, lo: int, size: int)
    requires DistinctOids(table)
    requires lo >= 0 && size >= 0
    ensures Limit(Where(table, KeepAll, Oids(Limit(table, lo))), size) ==
      if lo >= |table| then [] else table[lo..if lo + size < |table| then lo + size else |table|]
  {
    ExcludedPrefix(table, lo);
    LimitOfSuffix(table, lo, size);
  }

  /** Excluding the oids of the first `lo` rows leaves the rows after them. */
  lemma ExcludedPrefix(table: seq<Entry>, lo: int)
    requires DistinctOids(table) && lo >= 0
    ensures Where(table, KeepAll, Oids(Limit(table, lo))) == table[if lo < |table| then lo else |table|..]
  {
    var k := if lo < |table| then lo else |table|;
    assert Limit(table, lo) == table[..k];
    WhereAllAfterPrefix(table, k);
  }

  /** The first `size` rows after the first `lo`. */
  lemma LimitOfSuffix(table: seq<Entry>, lo: int, size: int)
    requires lo >= 0 && size >= 0
    ensures Limit(table[if lo < |table| then lo else |table|..], size) ==
      if lo >= |table| then [] else table[lo..if lo + size < |table| then lo + size else |table|]
  {
    if lo < |table| {
      var hi := if lo + size < |table| then lo + size else |table|;
      assert table[lo..][..hi - lo] == table[lo..hi];
    }
  }

  /**
   * With a filter the pages overlap. In a table whose first two rows fail
   * the filter, page 2 of size 1 repeats page 1.
   */
  lemma FilteredPagesRepeat()
    ensures var table := [Entry(1, []), Entry(2, []), Entry(3, []), Entry(4, [])];
      var keep := (e: Entry) => e.oid >= 3;
      Page(table, keep, 1, 1) == [Entry(3, [])] && Page(table, keep, 2, 1) == [Entry(3, [])]
  {
    var table := [Entry(1, []), Entry(2, []), Entry(3, []), Entry(4, [])];
    var keep := (e: Entry) => e.oid >= 3;
    assert Limit(table, 0) == [];
    assert Limit(table, 1) == [Entry(1, [])];
    assert Oids([Entry(1, [])]) == {1};
    assert table[..3][..2][..1] == table[..1];
    assert table[..3][..2] == table[..2];
    assert table[..1][..0] == [];
    assert Where(table[..1], keep, {}) == [];
    assert Where(table[..2], keep, {}) == [];
    assert Where(table[..3], keep, {}) == [Entry(3, [])];
    assert Where(table, keep, {}) == [Entry(3, []), Entry(4, [])];
    assert Where(table[..1], keep, {1}) == [];
    assert Where(table[..2], keep, {1}) == [];
    assert Where(table[..3], keep, {1}) == [Entry(3, [])];
    assert Where(table, keep, {1}) == [Entry(3, []), Entry(4, [])];
  }

  /** The evidently intended page: the exclusion counts only rows that pass the filter. */
  function FilteredPage(table: seq<Entry>, keep: Entry -> bool, page: int, size: int): seq<Entry>
  {
    var passing := Where(table, keep, {});
    Limit(Where(passing, KeepAll, Oids(Limit(passing, (page - 1) * size))), size)
  }

  lemma {:induction false} WherePreservesDistinct(xs: seq<Entry>, keep: Entry -> bool, excluded: set<int>)
    requires DistinctOids(xs)
    ensures DistinctOids(Where(xs, keep, excluded))
    decreases |xs|
  {
    if xs != [] {
      var init := xs[..|xs| - 1];
      WherePreservesDistinct(init, keep, excluded);
      var r := Where(init, keep, excluded);
      var last := xs[|xs| - 1];
      forall e | e in r ensures e.oid != last.oid {
        var i :| 0 <= i < |init| && init[i] == e;
        assert xs[i] == e;
      }
    }
  }

  /**
   * With the filter applied inside the exclusion, page `p` is the `p`-th
   * slice of `size` rows among those passing the filter.
   */
  lemma FilteredPageIsSlice(table: seq<Entry>, keep: Entry -> bool, page: int, size: int)
    requires DistinctOids(table)
    requires page >= 1 && size >= 0
    ensures var passing := Where(table, keep, {});
      var lo := (page - 1) * size;
      FilteredPage(table, keep, page, size) ==
        if lo >= |passing| then [] else passing[lo..if lo + size < |passing| then lo + size else |passing|]
  {
    var passing := Where(table, keep, {});
    WherePreservesDistinct(table, keep, {});
    UnfilteredPageIsSlice(passing, page, size);
  }
}
