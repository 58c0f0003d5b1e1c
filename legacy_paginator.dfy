/**
 * The paginator of the older bundle revision: the route of the envelope is a
 * parameter, `get_nodes` by default, passed through unchanged.
 */
module LegacyPaginator {
  import opened Php
  import opened Pagerfanta
  import opened Pagination

  class Paginator {
    constructor ()
    {
    }

    /** Paginates a Doctrine query (here: the rows it denotes). */
    method GetPaginatedQueryBuilderResult<T>(lib: Library<T>, query: seq<T>, page: int := 0, limit: int := 20,
                                             closure: Option<T -> T> := None, route: Option<string> := Some("get_nodes"))
      returns (r: Result<Envelope<T>, PagerError>)
      ensures r == Represent(lib, DoctrineORMAdapter(query), page, limit, closure, route)
    {
      r := GetPaginatedRepresentation(lib, DoctrineORMAdapter(query), page, limit, closure, route);
    }

    /** Paginates an in-memory array. */
    method GetPaginatedArrayResult<T>(lib: Library<T>, elements: seq<T>, page: int := 0, limit: int := 20,
                                      closure: Option<T -> T> := None, route: Option<string> := Some("get_nodes"))
      returns (r: Result<Envelope<T>, PagerError>)
      ensures r == Represent(lib, ArrayAdapter(elements), page, limit, closure, route)
    {
      r := GetPaginatedRepresentation(lib, ArrayAdapter(elements), page, limit, closure, route);
    }

    /**
     * Configures a fresh pager (maximum per page, then current page),
     * decorates the current page and wraps it with the given route, the
     * requested page and limit and the pager's counts.
     */
    method GetPaginatedRepresentation<T>(lib: Library<T>, adapter: Adapter<T>, page: int := 0, limit: int := 20,
                                         closure: Option<T -> T> := None, route: Option<string> := Some("get_nodes"))
      returns (r: Result<Envelope<T>, PagerError>)
      ensures r == Represent(lib, adapter, page, limit, closure, route)
    {
      var pager := new Pager(lib, adapter);
      var accepted := pager.SetMaxPerPage(limit);
      if !accepted {
        return Failure(InvalidMaxPerPage);
      }
      accepted := pager.SetCurrentPage(page);
      if !accepted {
        return Failure(InvalidCurrentPage);
      }

      var items := pager.CurrentPageResults();
      if closure.Some? {
        items := ArrayMap(closure.value, items);
      }

      r := Success(Envelope(items, route, map[], page, limit, pager.NbPages(), pager.NbResults(), false));
    }
  }
}
