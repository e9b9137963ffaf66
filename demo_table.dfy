/**
 * The incremental loader of frontend/src/pages/DemoTable.jsx, which keeps its page cursor in
 * a ref (`pageRef`). `loadMore` is split at its `await` into two steps: Begin (the guard and
 * `setLoading(true)`) and Complete (the response or the thrown error, then the `finally`
 * clause). Each run of an effect is one step; React's scheduling is not modelled.
 */
module DemoTable {
  import opened Prelude
  import opened TableView
  import UsersController

  /** `LIMIT`: the page size the table asks for. */
  const Limit := 50

  /** What the awaited `usePaginatedUsers(page, LIMIT)` gives: a page and the server's page count, or an error. */
  datatype FetchResult<T> = Fetched(newUsers: seq<T>, totalPages: int) | FetchFailed

  /** The component's state: `users`, the cursor (`pageRef.current`), `hasMore`, `loading`, `didLoadOnce`. */
  datatype LoaderState<T> = LoaderState(users: seq<T>, page: int, hasMore: bool, loading: bool, didLoadOnce: bool)

  /** The state on mount. */
  function Initial<T>(): LoaderState<T>
  {
    LoaderState([], 1, true, false, false)
  }

  /** loadMore's guard lets a request through: none is in flight and more data may exist. */
  predicate CanFetch<T>(s: LoaderState<T>)
  {
    !s.loading && s.hasMore
  }

  /** loadMore up to its `await`: a no-op exactly when the guard stops it, otherwise the request goes out. */
  function Begin<T>(s: LoaderState<T>): (r: LoaderState<T>)
    ensures r == s <==> !CanFetch(s)
    ensures r.users == s.users && r.page == s.page && r.hasMore == s.hasMore && r.didLoadOnce == s.didLoadOnce
  {
    if CanFetch(s) then s.(loading := true) else s
  }

  /**
   * loadMore after its `await`. On success the page is appended as it came, the cursor moves
   * to the next page, and `hasMore` drops once the cursor passes totalPages; on failure only
   * `loading` changes.
   */
  function Complete<T>(s: LoaderState<T>, result: FetchResult<T>): (r: LoaderState<T>)
    requires s.loading
    ensures !r.loading && r.didLoadOnce == s.didLoadOnce
    ensures result.Fetched? ==>
              && r.users == s.users + result.newUsers
              && r.page == s.page + 1
              && (r.hasMore <==> s.hasMore && s.page + 1 <= result.totalPages)
    ensures result.FetchFailed? ==> r == s.(loading := false)
  {
    match result
    case Fetched(newUsers, totalPages) =>
      var next := s.page + 1;
      s.(users := s.users + newUsers, page := next,
         hasMore := if next > totalPages then false else s.hasMore, loading := false)
    case FetchFailed =>
      s.(loading := false)
  }

  /** The continuation effect's condition for calling loadMore. */
  predicate ShouldContinue<T>(s: LoaderState<T>, items: seq<VirtualItem>)
    ensures ShouldContinue(s, items) ==> s.didLoadOnce && items != [] && CanFetch(s)
    ensures ShouldContinue(s, items) ==> items[|items| - 1].index + 1 >= |s.users|
  {
    s.didLoadOnce && ReachedEnd(items, |s.users|) && s.hasMore && !s.loading
  }

  /** One run of the continuation effect: it changes the state exactly when it calls loadMore. */
  function Continue<T>(s: LoaderState<T>, items: seq<VirtualItem>): (r: LoaderState<T>)
    ensures r != s <==> ShouldContinue(s, items)
    ensures ShouldContinue(s, items) ==> r == Begin(s)
  {
    if ShouldContinue(s, items) then Begin(s) else s
  }

  /** After a failed fetch nothing but `loading` has changed, and the next loadMore asks for the same page. */
  lemma FailureIsRetriable<T>(s: LoaderState<T>)
    requires s.loading && s.hasMore
    ensures var f := Complete(s, FetchFailed);
            f.users == s.users && f.page == s.page && f.hasMore && CanFetch(f) && Begin(f).page == s.page
  {
  }

  /** Redundant loadMore calls collapse: a second call before the response changes nothing. */
  lemma BeginIdempotent<T>(s: LoaderState<T>)
    ensures Begin(Begin(s)) == Begin(s)
  {
  }

  // ---------------------------------------------------------------------------------------
  // Traces of events

  /** What can happen to the component, one step at a time. */
  datatype Event<T> =
    | LoadMore                          // the mount effect calls loadMore
    | Respond(result: FetchResult<T>)   // the outstanding fetch settles
    | InitialSettled                    // initLoad's `await loadMore()` resumes
    | Scroll(items: seq<VirtualItem>)   // the continuation effect runs with these virtual items

  /**
   * A response settles the request in flight; with none in flight there is nothing to settle
   * and the event changes nothing. Likewise initLoad resumes only once the loadMore it awaits
   * has settled.
   */
  function Step<T>(s: LoaderState<T>, e: Event<T>): (r: LoaderState<T>)
    ensures e.Respond? && !s.loading ==> r == s
    ensures e.InitialSettled? ==> r == if s.loading then s else s.(didLoadOnce := true)
    ensures r.didLoadOnce != s.didLoadOnce ==> e.InitialSettled? && !s.loading
    ensures r.users != s.users || r.page != s.page ==> e.Respond? && s.loading
    ensures !s.hasMore ==> !r.hasMore
  {
    match e
    case LoadMore => Begin(s)
    case Respond(result) => if s.loading then Complete(s, result) else s
    case InitialSettled => if s.loading then s else s.(didLoadOnce := true)
    case Scroll(items) => Continue(s, items)
  }

  /** No continuation fires before initLoad has resumed. */
  lemma NoContinuationBeforeMount<T>(s: LoaderState<T>, items: seq<VirtualItem>)
    requires !s.didLoadOnce
    ensures Continue(s, items) == s && !Issues(s, Scroll(items))
  {
  }

  /**
   * The mount effect: its loadMore sends the request for page 1; initLoad cannot resume while
   * that request is in flight; once the response is in, it resumes with the page applied.
   */
  lemma MountSequence<T>(result: FetchResult<T>)
    ensures var m := Run(Initial<T>(), [LoadMore]);
            m.loading && !m.didLoadOnce && Issues(Initial<T>(), LoadMore)
    ensures Run(Initial<T>(), [LoadMore, InitialSettled]) == Run(Initial<T>(), [LoadMore])
    ensures var m := Run(Initial<T>(), [LoadMore, Respond(result), InitialSettled]);
            && m.didLoadOnce && !m.loading
            && (result.Fetched? ==>
                  m.users == result.newUsers && m.page == 2 && (m.hasMore <==> 2 <= result.totalPages))
            && (result.FetchFailed? ==> m.users == [] && m.page == 1 && m.hasMore)
  {
    var s0 := Initial<T>();
    var s1 := Step(s0, LoadMore);
    assert Run(s0, [LoadMore]) == Run(s1, []);
    var two: seq<Event<T>> := [LoadMore, InitialSettled];
    assert two[1..] == [InitialSettled];
    assert Run(s0, two) == Run(s1, [InitialSettled]) == Run(Step(s1, InitialSettled), []);
    var three: seq<Event<T>> := [LoadMore, Respond(result), InitialSettled];
    assert three[1..] == [Respond(result), InitialSettled];
    assert three[1..][1..] == [InitialSettled];
    var s2 := Step(s1, Respond(result));
    assert Run(s0, three) == Run(s2, [InitialSettled]) == Run(Step(s2, InitialSettled), []);
  }

  /** The event sends a request to the server. */
  predicate Issues<T>(s: LoaderState<T>, e: Event<T>)
  {
    match e
    case LoadMore => CanFetch(s)
    case Scroll(items) => ShouldContinue(s, items)
    case _ => false
  }

  /** The event settles a request. */
  predicate Settles<T>(s: LoaderState<T>, e: Event<T>)
  {
    e.Respond? && s.loading
  }

  /** A request goes out only when none is in flight, and it is then the one in flight. */
  lemma OneFetchInFlight<T>(s: LoaderState<T>, e: Event<T>)
    ensures Issues(s, e) <==> !s.loading && Step(s, e).loading
  {
  }

  function Run<T>(s: LoaderState<T>, events: seq<Event<T>>): LoaderState<T>
    decreases |events|
  {
    if events == [] then s else Run(Step(s, events[0]), events[1..])
  }

  /** The requests a trace sends. */
  function Requests<T>(s: LoaderState<T>, events: seq<Event<T>>): nat
    decreases |events|
  {
    if events == [] then 0
    else (if Issues(s, events[0]) then 1 else 0) + Requests(Step(s, events[0]), events[1..])
  }

  /** The responses a trace applies. */
  function Responses<T>(s: LoaderState<T>, events: seq<Event<T>>): nat
    decreases |events|
  {
    if events == [] then 0
    else (if Settles(s, events[0]) then 1 else 0) + Responses(Step(s, events[0]), events[1..])
  }

  /** The pages a trace receives successfully, in arrival order, and how many there are. */
  function Received<T>(s: LoaderState<T>, events: seq<Event<T>>): seq<seq<T>>
    decreases |events|
  {
    if events == [] then []
    else (if Settles(s, events[0]) && events[0].result.Fetched? then [events[0].result.newUsers] else [])
         + Received(Step(s, events[0]), events[1..])
  }

  function Flatten<T>(pages: seq<seq<T>>): seq<T>
  {
    if pages == [] then [] else pages[0] + Flatten(pages[1..])
  }

  lemma {:induction false} FlattenAppend<T>(a: seq<seq<T>>, b: seq<seq<T>>)
    ensures Flatten(a + b) == Flatten(a) + Flatten(b)
  {
    if a == [] {
      assert a + b == b;
    } else {
      assert (a + b)[0] == a[0];
      assert (a + b)[1..] == a[1..] + b;
      FlattenAppend(a[1..], b);
    }
  }

  /**
   * Over any trace: `users` is the old list followed by every received page in order, the
   * cursor has moved once per received page, `hasMore` never comes back, and each request
   * is settled by exactly one response except the one still in flight.
   */
  lemma {:induction false} RunInvariants<T>(s: LoaderState<T>, events: seq<Event<T>>)
    ensures Run(s, events).users == s.users + Flatten(Received(s, events))
    ensures Run(s, events).page == s.page + |Received(s, events)|
    ensures !s.hasMore ==> !Run(s, events).hasMore
    ensures s.didLoadOnce ==> Run(s, events).didLoadOnce
    ensures Requests(s, events) + (if s.loading then 1 else 0)
            == Responses(s, events) + (if Run(s, events).loading then 1 else 0)
    decreases |events|
  {
    if events != [] {
      var e, s' := events[0], Step(s, events[0]);
      RunInvariants(s', events[1..]);
      var mine: seq<seq<T>> := if Settles(s, e) && e.result.Fetched? then [e.result.newUsers] else [];
      FlattenAppend(mine, Received(s', events[1..]));
      assert Received(s, events) == mine + Received(s', events[1..]);
    }
  }

  /** Once `hasMore` is false no event sends a request, and only `didLoadOnce` can still change. */
  lemma {:induction false} ExhaustedStaysQuiet<T>(s: LoaderState<T>, events: seq<Event<T>>)
    requires !s.hasMore && !s.loading
    ensures Requests(s, events) == 0
    ensures Run(s, events) == s.(didLoadOnce := Run(s, events).didLoadOnce)
    decreases |events|
  {
    if events != [] {
      ExhaustedStaysQuiet(Step(s, events[0]), events[1..]);
    }
  }

  // ---------------------------------------------------------------------------------------
  // Loading the whole list from the backend

  /** The successful answer to a request for `page`: the backend's page with LIMIT. */
  function ServerResult<T>(all: seq<T>, page: int): FetchResult<T>
    requires page >= 1
  {
    var resp := UsersController.FetchUsers(all, page, Limit);
    Fetched(resp.users, resp.totalPages)
  }

  /** The pages a session fetches before `hasMore` drops: the server's totalPages, and at least one. */
  function PagesNeeded(n: nat): nat
  {
    Max(1, UsersController.CeilDiv(n, Limit))
  }

  /** One loadMore call carried through: the request, then the server's page or a failure. */
  function Round<T>(s: LoaderState<T>, all: seq<T>, ok: bool): (r: LoaderState<T>)
    requires s.page >= 1
    ensures r.page >= s.page
  {
    Step(Step(s, LoadMore), Respond(if ok then ServerResult(all, s.page) else FetchFailed))
  }

  function Rounds<T>(s: LoaderState<T>, all: seq<T>, oks: seq<bool>): LoaderState<T>
    requires s.page >= 1
    decreases |oks|
  {
    if oks == [] then s
    else Rounds(Round(s, all, oks[0]), all, oks[1..])
  }

  function CountTrue(oks: seq<bool>): nat
  {
    if oks == [] then 0 else (if oks[0] then 1 else 0) + CountTrue(oks[1..])
  }

  /** After j successful pages: no fetch in flight, cursor j + 1, and `users` is pages 1..j. */
  ghost predicate Synced<T>(s: LoaderState<T>, all: seq<T>, j: nat)
  {
    && !s.loading
    && j <= PagesNeeded(|all|)
    && s.page == j + 1
    && s.users == UsersController.PagesUpTo(all, Limit, j)
    && s.hasMore == (j < PagesNeeded(|all|))
  }

  /** A successful round adds the next page until none is left; a failed or surplus round changes nothing. */
  lemma RoundAdvances<T>(s: LoaderState<T>, all: seq<T>, ok: bool, j: nat)
    requires Synced(s, all, j)
    ensures !(ok && j < PagesNeeded(|all|)) ==> Round(s, all, ok) == s
    ensures Synced(Round(s, all, ok), all, if ok && j < PagesNeeded(|all|) then j + 1 else j)
  {
    if ok && j < PagesNeeded(|all|) {
      var resp := UsersController.FetchUsers(all, j + 1, Limit);
      UsersController.TotalPagesIgnoresPage(all, j + 1, 1, Limit);
      assert resp.totalPages == UsersController.CeilDiv(|all|, Limit) by {
        UsersController.CeilDivUnique(|all|, Limit, resp.totalPages);
      }
    }
  }

  lemma {:induction false} RoundsDrain<T>(s: LoaderState<T>, all: seq<T>, oks: seq<bool>, j: nat)
    requires Synced(s, all, j)
    ensures Synced(Rounds(s, all, oks), all, Min(PagesNeeded(|all|), j + CountTrue(oks)))
    decreases |oks|
  {
    if oks != [] {
      var j' := if oks[0] && j < PagesNeeded(|all|) then j + 1 else j;
      RoundAdvances(s, all, oks[0], j);
      RoundsDrain(Round(s, all, oks[0]), all, oks[1..], j');
    }
  }

  /**
   * If every successful fetch returns the backend's page for the current cursor, enough
   * successful loads, with failures anywhere in between, end with `hasMore` false and
   * `users` equal to the whole list; any further loads change nothing.
   */
  lemma LoadsRebuildList<T>(all: seq<T>, oks: seq<bool>, more: seq<bool>)
    requires CountTrue(oks) >= PagesNeeded(|all|)
    ensures Rounds(Initial(), all, oks).users == all
    ensures !Rounds(Initial(), all, oks).hasMore && !Rounds(Initial(), all, oks).loading
    ensures Rounds(Initial(), all, oks).page == PagesNeeded(|all|) + 1
    ensures Rounds(Rounds(Initial(), all, oks), all, more) == Rounds(Initial(), all, oks)
  {
    var n := PagesNeeded(|all|);
    assert UsersController.PagesUpTo(all, Limit, 0) == [];
    RoundsDrain(Initial(), all, oks, 0);
    var r := Rounds(Initial(), all, oks);
    UsersController.PagesRebuildAll(all, Limit);
    if UsersController.CeilDiv(|all|, Limit) == 0 {
      assert all == [];
      assert UsersController.PagesUpTo(all, Limit, 1) == [];
    }
    RoundsFixed(r, all, more);
  }

  /** With every page in, rounds are no-ops. */
  lemma {:induction false} RoundsFixed<T>(s: LoaderState<T>, all: seq<T>, more: seq<bool>)
    requires Synced(s, all, PagesNeeded(|all|))
    ensures Rounds(s, all, more) == s
    decreases |more|
  {
    if more != [] {
      RoundAdvances(s, all, more[0], PagesNeeded(|all|));
      RoundsFixed(s, all, more[1..]);
    }
  }

  /** 120 users with LIMIT 50: three successful loads fetch them all, and a fourth is a no-op. */
  lemma ThreePagesScenario<T>(all: seq<T>)
    requires |all| == 120
    ensures Rounds(Initial(), all, [true, true, true]).users == all
    ensures !Rounds(Initial(), all, [true, true, true]).hasMore
    ensures Round(Rounds(Initial(), all, [true, true, true]), all, true)
            == Rounds(Initial(), all, [true, true, true])
  {
    assert PagesNeeded(120) == 3;
    assert CountTrue([true, true, true]) == 3;
    LoadsRebuildList(all, [true, true, true], [true]);
  }

  /**
   * 120 users: page 1 arrives, the request for page 2 fails. The list holds page 1, the
   * cursor is still 2 and `hasMore` still true; a retry then appends page 2.
   */
  lemma RetryScenario<T>(all: seq<T>)
    requires |all| == 120
    ensures var s := Rounds(Initial(), all, [true, false]);
            s.users == all[..50] && s.page == 2 && s.hasMore && !s.loading
    ensures Round(Rounds(Initial(), all, [true, false]), all, true).users == all[..100]
  {
    assert PagesNeeded(120) == 3;
    assert UsersController.PagesUpTo(all, Limit, 0) == [];
    assert CountTrue([true, false]) == 1;
    RoundsDrain(Initial(), all, [true, false], 0);
    var s := Rounds(Initial(), all, [true, false]);
    UsersController.PagesUpToIsPrefix(all, Limit, 1);
    RoundAdvances(s, all, true, 1);
    UsersController.PagesUpToIsPrefix(all, Limit, 2);
  }

  // ---------------------------------------------------------------------------------------
  // The component's state, updated in place

  class Loader<T> {
    var users: seq<T>
    var pageRef: int
    var hasMore: bool
    var loading: bool
    var didLoadOnce: bool

    function State(): LoaderState<T>
      reads this
    {
      LoaderState(users, pageRef, hasMore, loading, didLoadOnce)
    }

    constructor ()
      ensures State() == Initial()
    {
      users, pageRef, hasMore, loading, didLoadOnce := [], 1, true, false, false;
    }

    /** loadMore up to its `await`; returns the page it requests, if it requests one. */
    method LoadMore() returns (request: Option<int>)
      modifies this
      ensures State() == Begin(old(State()))
      ensures request == if CanFetch(old(State())) then Some(old(pageRef)) else None
    {
      if loading || !hasMore {
        return None;
      }
      loading := true;
      request := Some(pageRef);
    }

    /** loadMore after its `await`: apply the response or swallow the error, then `finally`. */
    method Settle(result: FetchResult<T>)
      requires loading
      modifies this
      ensures State() == Complete(old(State()), result)
    {
      if result.Fetched? {
        users := users + result.newUsers;
        pageRef := pageRef + 1;
        if pageRef > result.totalPages {
          hasMore := false;
        }
      }
      loading := false;
    }

    /** The mount effect's `setDidLoadOnce(true)` once its `await loadMore()` has returned. */
    method FinishInitialLoad()
      requires !loading
      modifies this
      ensures State() == old(State()).(didLoadOnce := true)
    {
      didLoadOnce := true;
    }

    /** One run of the continuation effect over the current virtual items. */
    method OnVirtualItems(items: seq<VirtualItem>) returns (request: Option<int>)
      modifies this
      ensures State() == Continue(old(State()), items)
      ensures request == if ShouldContinue(old(State()), items) then Some(old(pageRef)) else None
    {
      if !didLoadOnce {
        return None;
      }
      if ReachedEnd(items, |users|) && hasMore && !loading {
        request := LoadMore();
      } else {
        request := None;
      }
    }
  }
}
