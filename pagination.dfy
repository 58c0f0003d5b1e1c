/**
 * What both paginator revisions build once the pager is configured: the
 * decorated items of the current page wrapped in a paginated representation.
 */
module Pagination {
  import opened Php
  import opened Pagerfanta

  /**
   * The paginated representation: the collection of items, the route and
   * its (always empty) parameters, the page and limit as requested, the
   * pager's page count and total, and the `absolute` flag (always false).
   */
  datatype Envelope<T> = Envelope(
    items: seq<T>,
    route: Option<string>,
    routeParameters: map<string, string>,
    page: int,
    limit: int,
    pages: int,
    total: int,
    absolute: bool)

  /** The pager throws while being configured. */
  datatype PagerError = InvalidMaxPerPage | InvalidCurrentPage

  /** `array_map($f, $xs)` on a list: `f` applied to each item, in order. */
  function ArrayMap<T>(f: T -> T, xs: seq<T>): (r: seq<T>)
    ensures |r| == |xs|
    ensures forall i :: 0 <= i < |xs| ==> r[i] == f(xs[i])
  {
    if xs == [] then [] else [f(xs[0])] + ArrayMap(f, xs[1..])
  }

  /** The items after the optional decorator: mapped through it, or untouched when there is none. */
  function Decorated<T>(closure: Option<T -> T>, items: seq<T>): (r: seq<T>)
    ensures |r| == |items|
    ensures closure.None? ==> r == items
    ensures closure.Some? ==> forall i :: 0 <= i < |items| ==> r[i] == closure.value(items[i])
  {
    match closure
    case None => items
    case Some(f) => ArrayMap(f, items)
  }

  /**
   * The outcome of `getPaginatedRepresentation` for a given route: the pager
   * gets the maximum per page first and the current page second (so the page
   * is checked against the new maximum), and the items are read after both.
   */
  function Represent<T>(lib: Library<T>, adapter: Adapter<T>, page: int, limit: int,
                        closure: Option<T -> T>, route: Option<string>): (r: Result<Envelope<T>, PagerError>)
    ensures r.Success? <==>
      lib.filterMaxPerPage(limit).Some? && lib.filterCurrentPage(adapter, lib.filterMaxPerPage(limit).value, page).Some?
    ensures lib.filterMaxPerPage(limit).None? ==> r == Failure(InvalidMaxPerPage)
    ensures lib.filterMaxPerPage(limit).Some? && lib.filterCurrentPage(adapter, lib.filterMaxPerPage(limit).value, page).None? ==>
      r == Failure(InvalidCurrentPage)
    ensures r.Success? ==>
      var m := lib.filterMaxPerPage(limit).value;
      var p := lib.filterCurrentPage(adapter, m, page).value;
      var served := lib.currentPageResults(adapter, m, p);
      && r.value.page == page && r.value.limit == limit
      && r.value.route == route && r.value.routeParameters == map[] && !r.value.absolute
      && r.value.pages == lib.nbPages(adapter, m)
      && r.value.total == lib.nbResults(adapter)
      && |r.value.items| == |served|
      && (forall i :: 0 <= i < |served| ==> r.value.items[i] == (if closure.Some? then closure.value(served[i]) else served[i]))
  {
    match lib.filterMaxPerPage(limit)
    case None => Failure(InvalidMaxPerPage)
    case Some(m) =>
      match lib.filterCurrentPage(adapter, m, page)
      case None => Failure(InvalidCurrentPage)
      case Some(p) =>
        Success(Envelope(Decorated(closure, lib.currentPageResults(adapter, m, p)), route, map[],
                         page, limit, lib.nbPages(adapter, m), lib.nbResults(adapter), false))
  }

  /**
   * Under the conventional pager rule, a successful envelope for `limit >= 1`
   * and `page >= 1` holds exactly the decorated window `page` of the source,
   * no more than `limit` items, and the total counts the undecorated source.
   */
  lemma ConventionalEnvelope<T(!new)>(lib: Library<T>, adapter: Adapter<T>, page: int, limit: int,
                                  closure: Option<T -> T>, route: Option<string>)
    requires ConventionalPager(lib)
    requires page >= 1 && limit >= 1
    requires Represent(lib, adapter, page, limit, closure, route).Success?
    ensures var e := Represent(lib, adapter, page, limit, closure, route).value;
      && e.items == Decorated(closure, Window(Rows(adapter), limit, page))
      && |e.items| <= limit
      && e.total == |Rows(adapter)|
  {
    ConventionalPagerServesWindow(lib, adapter, limit, page);
  }

  /** Decoration distributes over concatenation: decorating page by page is decorating the whole. */
  lemma {:induction false} DecoratedAppend<T>(closure: Option<T -> T>, xs: seq<T>, ys: seq<T>)
    ensures Decorated(closure, xs + ys) == Decorated(closure, xs) + Decorated(closure, ys)
  {
    var l, r := Decorated(closure, xs + ys), Decorated(closure, xs) + Decorated(closure, ys);
    assert |l| == |r|;
    forall i | 0 <= i < |l| ensures l[i] == r[i] {
      if i < |xs| {
        assert (xs + ys)[i] == xs[i];
      } else {
        assert (xs + ys)[i] == ys[i - |xs|];
      }
    }
  }

  /** The items of the envelope for page `p`, or none when the pager refuses it. */
  function PageItems<T>(lib: Library<T>, adapter: Adapter<T>, limit: int, closure: Option<T -> T>,
                        route: Option<string>, p: int): seq<T>
  {
    var r := Represent(lib, adapter, p, limit, closure, route);
    if r.Success? then r.value.items else []
  }

  /** The items of the envelopes for pages 1 to k, laid end to end. */
  function ConcatenatedPages<T>(lib: Library<T>, adapter: Adapter<T>, limit: int, closure: Option<T -> T>,
                                route: Option<string>, k: nat): seq<T>
  {
    if k == 0 then [] else ConcatenatedPages(lib, adapter, limit, closure, route, k - 1)
                           + PageItems(lib, adapter, limit, closure, route, k)
  }

  /** The decorated pages 1 to k, laid end to end, are the decoration of the first `min(k*limit, n)` rows. */
  lemma {:induction false} ConcatenatedPagesArePrefix<T>(lib: Library<T>, adapter: Adapter<T>, limit: int,
                                                      closure: Option<T -> T>, route: Option<string>, k: nat)
    requires limit >= 1
    requires forall p :: 1 <= p <= k ==>
      PageItems(lib, adapter, limit, closure, route, p) == Decorated(closure, Window(Rows(adapter), limit, p))
    ensures ConcatenatedPages(lib, adapter, limit, closure, route, k) == Decorated(closure, FirstPages(Rows(adapter), limit, k))
  {
    if k > 0 {
      var rows := Rows(adapter);
      var before, last := FirstPages(rows, limit, k - 1), Window(rows, limit, k);
      ConcatenatedPagesArePrefix(lib, adapter, limit, closure, route, k - 1);
      assert PageItems(lib, adapter, limit, closure, route, k) == Decorated(closure, last);
      assert FirstPages(rows, limit, k) == before + last;
      DecoratedAppend(closure, before, last);
    }
  }

  /**
   * Under the conventional pager rule, when pages 1 to k are all served and
   * `k * limit` covers the source, their envelopes together hold every source
   * item, decorated, once and in order.
   */
  lemma ConventionalPagesCoverSource<T(!new)>(lib: Library<T>, adapter: Adapter<T>, limit: int,
                                          closure: Option<T -> T>, route: Option<string>, k: nat)
    requires ConventionalPager(lib)
    requires limit >= 1 && k * limit >= |Rows(adapter)|
    requires forall p :: 1 <= p <= k ==> Represent(lib, adapter, p, limit, closure, route).Success?
    ensures ConcatenatedPages(lib, adapter, limit, closure, route, k) == Decorated(closure, Rows(adapter))
  {
    forall p | 1 <= p <= k
      ensures PageItems(lib, adapter, limit, closure, route, p) == Decorated(closure, Window(Rows(adapter), limit, p))
    {
      ConventionalEnvelope(lib, adapter, p, limit, closure, route);
    }
    ConcatenatedPagesArePrefix(lib, adapter, limit, closure, route, k);
    PagesCoverRows(Rows(adapter), limit, k);
  }
}
