/**
 * The incremental loader of frontend/src/pages/UserTable.jsx. It keeps its cursor in React
 * state (`page`) rather than a ref, and its `loadMore` closure tests `page >= totalPages`
 * with the page it has just fetched. Its guard, its mount effect and its state are those of
 * DemoTable; what differs is stated here and proved to coincide with DemoTable's rules.
 */
module UserTable {
  import opened Prelude
  import opened TableView
  import DemoTable

  /** loadMore after its `await`: `hasMore` drops when the page just fetched is the last one or beyond. */
  function Complete<T>(s: DemoTable.LoaderState<T>, result: DemoTable.FetchResult<T>): (r: DemoTable.LoaderState<T>)
    requires s.loading
    ensures !r.loading && r.didLoadOnce == s.didLoadOnce
    ensures result.Fetched? ==>
              && r.users == s.users + result.newUsers
              && r.page == s.page + 1
              && (r.hasMore <==> s.hasMore && s.page < result.totalPages)
    ensures result.FetchFailed? ==> r == s.(loading := false)
  {
    match result
    case Fetched(newUsers, totalPages) =>
      s.(users := s.users + newUsers, page := s.page + 1,
         hasMore := if s.page >= totalPages then false else s.hasMore, loading := false)
    case FetchFailed =>
      s.(loading := false)
  }

  /**
   * Testing the fetched page with `>=` and testing the advanced cursor with `>` (DemoTable)
   * agree on every state and every response.
   */
  lemma CompleteMatchesRefCursor<T>(s: DemoTable.LoaderState<T>, result: DemoTable.FetchResult<T>)
    requires s.loading
    ensures Complete(s, result) == DemoTable.Complete(s, result)
  {
  }

  /** The continuation effect's condition, with its explicit return when no item is visible. */
  predicate ShouldContinue<T>(s: DemoTable.LoaderState<T>, items: seq<VirtualItem>)
    ensures ShouldContinue(s, items) ==> s.didLoadOnce && items != [] && DemoTable.CanFetch(s)
  {
    && s.didLoadOnce
    && |items| > 0
    && items[|items| - 1].index >= |s.users| - 1
    && s.hasMore
    && !s.loading
  }

  /** The explicit empty-window return decides as DemoTable's `undefined >= n` comparison does. */
  lemma ShouldContinueMatchesDemo<T>(s: DemoTable.LoaderState<T>, items: seq<VirtualItem>)
    ensures ShouldContinue(s, items) <==> DemoTable.ShouldContinue(s, items)
  {
  }

  class Loader<T> {
    var users: seq<T>
    var page: int
    var hasMore: bool
    var loading: bool
    var didLoadOnce: bool

    function State(): DemoTable.LoaderState<T>
      reads this
    {
      DemoTable.LoaderState(users, page, hasMore, loading, didLoadOnce)
    }

    constructor ()
      ensures State() == DemoTable.Initial()
    {
      users, page, hasMore, loading, didLoadOnce := [], 1, true, false, false;
    }

    /** loadMore up to its `await`; returns the page it requests, if it requests one. */
    method LoadMore() returns (request: Option<int>)
      modifies this
      ensures State() == DemoTable.Begin(old(State()))
      ensures request == if DemoTable.CanFetch(old(State())) then Some(old(page)) else None
    {
      if loading || !hasMore {
        return None;
      }
      loading := true;
      request := Some(page);
    }

    /** loadMore after its `await`, with the `page` its closure captured at the request. */
    method Settle(result: DemoTable.FetchResult<T>)
      requires loading
      modifies this
      ensures State() == Complete(old(State()), result)
    {
      if result.Fetched? {
        var fetched := page;
        users := users + result.newUsers;
        page := page + 1;
        if fetched >= result.totalPages {
          hasMore := false;
        }
      }
      loading := false;
    }

    /** The mount effect's `setDidLoadOnce(true)` once its `await loadMore()` has returned. */
    method FinishInitialLoad()
      requires !loading
      modifies this
      ensures State() == old(State()).(didLoadOnce := true)
    {
      didLoadOnce := true;
    }

    /** One run of the continuation effect over the current virtual items. */
    method OnVirtualItems(items: seq<VirtualItem>) returns (request: Option<int>)
      modifies this
      ensures State() == if ShouldContinue(old(State()), items) then DemoTable.Begin(old(State())) else old(State())
      ensures request == if ShouldContinue(old(State()), items) then Some(old(page)) else None
    {
      if !didLoadOnce {
        return None;
      }
      if |items| == 0 {
        return None;
      }
      if items[|items| - 1].index >= |users| - 1 && hasMore && !loading {
        request := LoadMore();
      } else {
        request := None;
      }
    }
  }
}
