/**
 * The paginator of the current bundle revision: the route of the envelope is
 * taken from the current request (or `get_nodes` outside a request).
 */
module Paginator {
  import opened Php
  import opened Pagerfanta
  import opened Pagination

  /** A request, as far as `Request::get` sees it: its named parameters. */
  datatype Request = Request(parameters: map<string, string>) {
    /** `$request->get($key)`: the parameter, or `null` when absent. */
    function Get(key: string): Option<string> {
      if key in parameters then Some(parameters[key]) else None
    }
  }

  /** The request stack: the request being handled, if any. */
  datatype RequestStack = RequestStack(currentRequest: Option<Request>)

  /** The route the envelope carries for a given request stack. */
  function RouteOf(stack: RequestStack): (route: Option<string>)
    ensures stack.currentRequest.None? ==> route == Some("get_nodes")
    ensures stack.currentRequest.Some? ==> (route.Some? <==> "_route" in stack.currentRequest.value.parameters)
    ensures stack.currentRequest.Some? && route.Some? ==> route.value == stack.currentRequest.value.parameters["_route"]
  {
    match stack.currentRequest
    case None => Some("get_nodes")
    case Some(request) => request.Get("_route")
  }

  class Paginator {
    const requestStack: RequestStack

    constructor (requestStack: RequestStack)
      ensures this.requestStack == requestStack
    {
      this.requestStack := requestStack;
    }

    /** Paginates a Doctrine query (here: the rows it denotes). */
    method GetPaginatedQueryBuilderResult<T>(lib: Library<T>, query: seq<T>, page: int := 0, limit: int := 20,
                                             closure: Option<T -> T> := None)
      returns (r: Result<Envelope<T>, PagerError>)
      ensures r == Represent(lib, DoctrineORMAdapter(query), page, limit, closure, RouteOf(requestStack))
    {
      r := GetPaginatedRepresentation(lib, DoctrineORMAdapter(query), page, limit, closure);
    }

    /** Paginates an in-memory array. */
    method GetPaginatedArrayResult<T>(lib: Library<T>, elements: seq<T>, page: int := 0, limit: int := 20,
                                      closure: Option<T -> T> := None)
      returns (r: Result<Envelope<T>, PagerError>)
      ensures r == Represent(lib, ArrayAdapter(elements), page, limit, closure, RouteOf(requestStack))
    {
      r := GetPaginatedRepresentation(lib, ArrayAdapter(elements), page, limit, closure);
    }

    /**
     * Configures a fresh pager (maximum per page, then current page), reads
     * the route from the current request, decorates the current page and
     * wraps it with the requested page and limit and the pager's counts.
     */
    method GetPaginatedRepresentation<T>(lib: Library<T>, adapter: Adapter<T>, page: int := 0, limit: int := 20,
                                         closure: Option<T -> T> := None)
      returns (r: Result<Envelope<T>, PagerError>)
      ensures r == Represent(lib, adapter, page, limit, closure, RouteOf(requestStack))
      ensures r.Success? ==> r.value.route == (if requestStack.currentRequest.None? then Some("get_nodes")
                                               else requestStack.currentRequest.value.Get("_route"))
    {
      var pager := new Pager(lib, adapter);
      var accepted := pager.SetMaxPerPage(limit);
      if !accepted {
        return Failure(InvalidMaxPerPage);
      }
      accepted := pager.SetCurrentPage(page);
      if !accepted {
        return Failure(InvalidCurrentPage);
      }
      var request := requestStack.currentRequest;
      var route: Option<string> := Some("get_nodes");
      if request.Some? {
        route := request.value.Get("_route");
      }

      var items := pager.CurrentPageResults();
      if closure.Some? {
        items := ArrayMap(closure.value, items);
      }

      r := Success(Envelope(items, route, map[], page, limit, pager.NbPages(), pager.NbResults(), false));
    }
  }
}
