/**
 * The pager library the paginator drives. Its range checks, page count and
 * windowing are not part of this model: they are the opaque functions of a
 * `Library` value that callers supply. The usual windowing rule is stated as
 * the predicate `ConventionalPager`, which lemmas take as an explicit
 * assumption; nothing here proves that the real library satisfies it.
 */
module Pagerfanta {
  import opened Php

  /**
   * The two adapters the paginator builds. A Doctrine adapter stands for a
   * query; `rows` is the ordered result set that query denotes at the moment
   * of the (single, stable) read.
   */
  datatype Adapter<T> = ArrayAdapter(elements: seq<T>) | DoctrineORMAdapter(rows: seq<T>)

  /** The ordered items an adapter ranges over. */
  function Rows<T>(a: Adapter<T>): seq<T> {
    match a
    case ArrayAdapter(xs) => xs
    case DoctrineORMAdapter(xs) => xs
  }

  /**
   * The behaviour of the pager library, as functions of the adapter and the
   * values set on the pager:
   * - `filterMaxPerPage(n)`: the value `setMaxPerPage(n)` stores, or `None`
   *   when it throws;
   * - `filterCurrentPage(a, m, p)`: the value `setCurrentPage(p)` stores when
   *   the maximum per page is `m`, or `None` when it throws;
   * - `nbResults(a)`, `nbPages(a, m)`, `currentPageResults(a, m, p)`: what
   *   the getters return in that state.
   */
  datatype Library<!T> = Library(
    filterMaxPerPage: int -> Option<int>,
    filterCurrentPage: (Adapter<T>, int, int) -> Option<int>,
    nbResults: Adapter<T> -> int,
    nbPages: (Adapter<T>, int) -> int,
    currentPageResults: (Adapter<T>, int, int) -> seq<T>)

  /** The pager object: an adapter plus the two values its setters store. */
  class Pager<T> {
    const lib: Library<T>
    const adapter: Adapter<T>
    var maxPerPage: int
    var currentPage: int

    /** A new pager starts from the library's defaults (10 per page, page 1). */
    constructor (lib: Library<T>, adapter: Adapter<T>)
      ensures this.lib == lib && this.adapter == adapter
      ensures maxPerPage == 10 && currentPage == 1
    {
      this.lib := lib;
      this.adapter := adapter;
      maxPerPage := 10;
      currentPage := 1;
    }

    /** `setMaxPerPage`: `ok` is false where the library throws; then nothing changes. */
    method SetMaxPerPage(n: int) returns (ok: bool)
      modifies this
      ensures ok <==> lib.filterMaxPerPage(n).Some?
      ensures maxPerPage == if ok then lib.filterMaxPerPage(n).value else old(maxPerPage)
      ensures currentPage == old(currentPage)
    {
      var filtered := lib.filterMaxPerPage(n);
      ok := filtered.Some?;
      if ok {
        maxPerPage := filtered.value;
      }
    }

    /**
     * `setCurrentPage`: the page is checked against the maximum per page set
     * before it; `ok` is false where the library throws.
     */
    method SetCurrentPage(p: int) returns (ok: bool)
      modifies this
      ensures ok <==> lib.filterCurrentPage(adapter, old(maxPerPage), p).Some?
      ensures currentPage == if ok then lib.filterCurrentPage(adapter, old(maxPerPage), p).value else old(currentPage)
      ensures maxPerPage == old(maxPerPage)
    {
      var filtered := lib.filterCurrentPage(adapter, maxPerPage, p);
      ok := filtered.Some?;
      if ok {
        currentPage := filtered.value;
      }
    }

    /** `getCurrentPageResults` in the current state. */
    function CurrentPageResults(): seq<T>
      reads this
    {
      lib.currentPageResults(adapter, maxPerPage, currentPage)
    }

    /** `getNbPages` in the current state. */
    function NbPages(): int
      reads this
    {
      lib.nbPages(adapter, maxPerPage)
    }

    /** `getNbResults`: independent of the pager's state. */
    function NbResults(): int
      reads this
    {
      lib.nbResults(adapter)
    }
  }

  // ---------------------------------------------------------------------
  // The conventional windowing rule, as an assumption.

  /** The items of page `p` (counting from 1) when pages hold `m` items. */
  function Window<T>(xs: seq<T>, m: nat, p: nat): (w: seq<T>)
    requires m >= 1 && p >= 1
    ensures |w| <= m
    ensures |w| == if p * m <= |xs| then m else if (p - 1) * m < |xs| then |xs| - (p - 1) * m else 0
    ensures forall i :: 0 <= i < |w| ==> (p - 1) * m + i < |xs| && w[i] == xs[(p - 1) * m + i]
  {
    var lo := if (p - 1) * m < |xs| then (p - 1) * m else |xs|;
    var hi := if p * m < |xs| then p * m else |xs|;
    xs[lo..hi]
  }

  function FilteredMaxPerPage<T>(lib: Library<T>, n: int): Option<int> {
    lib.filterMaxPerPage(n)
  }

  function FilteredCurrentPage<T>(lib: Library<T>, a: Adapter<T>, m: int, p: int): Option<int> {
    lib.filterCurrentPage(a, m, p)
  }

  function PageResults<T>(lib: Library<T>, a: Adapter<T>, m: int, p: int): seq<T> {
    lib.currentPageResults(a, m, p)
  }

  function ResultCount<T>(lib: Library<T>, a: Adapter<T>): int {
    lib.nbResults(a)
  }

  /**
   * The behaviour usually expected of the pager: a positive maximum per page
   * is stored as given, a positive page is stored as given when it is
   * accepted, the total is the number of rows, and page `p` is the window
   * `[(p-1)*m, p*m)` of the rows.
   */
  ghost predicate ConventionalPager<T(!new)>(lib: Library<T>) {
    && (forall n: int :: n >= 1 ==> FilteredMaxPerPage(lib, n) == Some(n))
    && (forall a: Adapter<T>, m: int, p: int ::
          m >= 1 && p >= 1 && FilteredCurrentPage(lib, a, m, p).Some? ==> FilteredCurrentPage(lib, a, m, p) == Some(p))
    && (forall a: Adapter<T> :: ResultCount(lib, a) == |Rows(a)|)
    && (forall a: Adapter<T>, m: int, p: int ::
          m >= 1 && p >= 1 ==> PageResults(lib, a, m, p) == Window(Rows(a), m, p))
  }

  /** Concatenation of the first `k` pages. */
  function FirstPages<T>(xs: seq<T>, m: nat, k: nat): seq<T>
    requires m >= 1
  {
    if k == 0 then [] else FirstPages(xs, m, k - 1) + Window(xs, m, k)
  }

  /** The first `k` pages, laid end to end, are the first `k*m` items: nothing skipped, nothing repeated. */
  lemma {:induction false} FirstPagesArePrefix<T>(xs: seq<T>, m: nat, k: nat)
    requires m >= 1
    ensures FirstPages(xs, m, k) == xs[..if k * m < |xs| then k * m else |xs|]
  {
    if k > 0 {
      FirstPagesArePrefix(xs, m, k - 1);
      var lo := if (k - 1) * m < |xs| then (k - 1) * m else |xs|;
      var hi := if k * m < |xs| then k * m else |xs|;
      assert (k - 1) * m <= k * m;
      assert xs[..lo] + xs[lo..hi] == xs[..hi];
    }
  }

  /** Any `k` pages covering the total reproduce the whole source in order. */
  lemma PagesCoverRows<T>(xs: seq<T>, m: nat, k: nat)
    requires m >= 1 && k * m >= |xs|
    ensures FirstPages(xs, m, k) == xs
  {
    FirstPagesArePrefix(xs, m, k);
  }

  /** Every page of an empty source is empty. */
  lemma EmptySourceHasEmptyPages<T>(m: nat, p: nat)
    requires m >= 1 && p >= 1
    ensures Window<T>([], m, p) == []
  {
  }

  /**
   * Under the conventional rule, a pager configured with `m >= 1` keeps it,
   * an accepted page `p >= 1` is kept as given, page `p` serves exactly
   * window `p` of the rows, and the total counts all of them.
   */
  lemma ConventionalPagerServesWindow<T(!new)>(lib: Library<T>, a: Adapter<T>, m: int, p: int)
    requires ConventionalPager(lib)
    requires m >= 1 && p >= 1
    ensures lib.filterMaxPerPage(m) == Some(m)
    ensures lib.filterCurrentPage(a, m, p).Some? ==> lib.filterCurrentPage(a, m, p) == Some(p)
    ensures lib.currentPageResults(a, m, p) == Window(Rows(a), m, p)
    ensures lib.nbResults(a) == |Rows(a)|
  {
    assert FilteredMaxPerPage(lib, m) == Some(m);
    assert FilteredCurrentPage(lib, a, m, p).Some? ==> FilteredCurrentPage(lib, a, m, p) == Some(p);
    assert PageResults(lib, a, m, p) == Window(Rows(a), m, p);
    assert ResultCount(lib, a) == |Rows(a)|;
  }
}
