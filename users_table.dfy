/**
 * The continuation logic of frontend/src/pages/UsersTable.jsx. This component takes
 * `users`, `loading` and `hasMore` from a hook and owns only a small state machine of its
 * own: `isInitialLoad`, `fetchingNextPage` and the cursor `pageRef`. Two effects drive it;
 * each run of an effect is one step, and what the hook reports is an input of that step.
 */
module UsersTable {
  import opened TableView

  /** `isInitialLoad`, `fetchingNextPage` and `pageRef.current`. */
  datatype CursorState = CursorState(isInitialLoad: bool, fetchingNextPage: bool, page: int)

  /** The state on mount. */
  function InitialCursor(): CursorState
  {
    CursorState(true, false, 1)
  }

  /** What the data hook reports at an effect run: `users.length`, `hasMore`, `loading`. */
  datatype HookView = HookView(usersLen: nat, hasMore: bool, loading: bool)

  /** One run of the continuation effect. */
  function ContinuationEffect(c: CursorState, items: seq<VirtualItem>, hook: HookView): (r: CursorState)
    ensures r.page == c.page || r.page == c.page + 1
    ensures r.page == c.page + 1 ==> !c.fetchingNextPage && r.fetchingNextPage && !c.isInitialLoad
    ensures r.isInitialLoad ==> c.isInitialLoad
    ensures c.fetchingNextPage ==> r.fetchingNextPage
  {
    if c.isInitialLoad && !hook.loading then
      c.(isInitialLoad := false)
    else if ReachedEnd(items, hook.usersLen) && hook.hasMore && !hook.loading && !c.fetchingNextPage then
      c.(fetchingNextPage := true, page := c.page + 1)
    else
      c
  }

  /** One run of the effect on `loading`: a settled fetch re-arms the trigger. */
  function LoadingEffect(c: CursorState, loading: bool): (r: CursorState)
    ensures r.page == c.page && r.isInitialLoad == c.isInitialLoad
    ensures r.fetchingNextPage <==> c.fetchingNextPage && loading
  {
    if !loading then c.(fetchingNextPage := false) else c
  }

  /**
   * The cursor moves exactly when the initial phase is over, the last visible row reaches
   * the end of the list, more data exists, nothing is loading and no advance is pending;
   * it then moves by one and marks an advance pending. While the initial phase lasts the
   * cursor never moves: a run with `loading` false only ends the phase.
   */
  lemma AdvanceExactly(c: CursorState, items: seq<VirtualItem>, hook: HookView)
    ensures var r := ContinuationEffect(c, items, hook);
            r.page != c.page <==>
              !c.isInitialLoad && ReachedEnd(items, hook.usersLen) && hook.hasMore
              && !hook.loading && !c.fetchingNextPage
    ensures var r := ContinuationEffect(c, items, hook);
            r.page != c.page ==> r.page == c.page + 1 && r.fetchingNextPage && r.isInitialLoad == c.isInitialLoad
    ensures c.isInitialLoad && !hook.loading ==>
              ContinuationEffect(c, items, hook) == c.(isInitialLoad := false)
  {
  }

  /** What can happen: a run of either effect. */
  datatype Event =
    | EffectRun(items: seq<VirtualItem>, hook: HookView)
    | LoadingObserved(loading: bool)

  function Step(c: CursorState, e: Event): CursorState
  {
    match e
    case EffectRun(items, hook) => ContinuationEffect(c, items, hook)
    case LoadingObserved(loading) => LoadingEffect(c, loading)
  }

  function Run(c: CursorState, events: seq<Event>): CursorState
    decreases |events|
  {
    if events == [] then c else Run(Step(c, events[0]), events[1..])
  }

  /** The event clears `fetchingNextPage`: the loading effect sees `loading` false. */
  predicate Rearms(e: Event)
  {
    e.LoadingObserved? && !e.loading
  }

  /**
   * Between two re-arming events the cursor advances at most once, and not at all if an
   * advance was already pending: one advance per outstanding fetch.
   */
  lemma {:induction false} AtMostOneAdvance(c: CursorState, events: seq<Event>)
    requires forall i :: 0 <= i < |events| ==> !Rearms(events[i])
    ensures c.page <= Run(c, events).page <= c.page + 1
    ensures c.fetchingNextPage ==> Run(c, events).page == c.page && Run(c, events).fetchingNextPage
    ensures Run(c, events).page == c.page + 1 ==> Run(c, events).fetchingNextPage
    decreases |events|
  {
    if events != [] {
      AtMostOneAdvance(Step(c, events[0]), events[1..]);
    }
  }

  /** Over any trace the cursor never decreases and the initial phase never comes back. */
  lemma {:induction false} CursorMonotone(c: CursorState, events: seq<Event>)
    ensures Run(c, events).page >= c.page
    ensures !c.isInitialLoad ==> !Run(c, events).isInitialLoad
    decreases |events|
  {
    if events != [] {
      CursorMonotone(Step(c, events[0]), events[1..]);
    }
  }

  class CursorTrigger {
    var isInitialLoad: bool
    var fetchingNextPage: bool
    var pageRef: int

    function State(): CursorState
      reads this
    {
      CursorState(isInitialLoad, fetchingNextPage, pageRef)
    }

    constructor ()
      ensures State() == InitialCursor()
    {
      isInitialLoad, fetchingNextPage, pageRef := true, false, 1;
    }

    /** One run of the continuation effect; `advanced` says whether it moved the cursor. */
    method RunContinuationEffect(items: seq<VirtualItem>, hook: HookView) returns (advanced: bool)
      modifies this
      ensures State() == ContinuationEffect(old(State()), items, hook)
      ensures advanced <==> pageRef != old(pageRef)
    {
      advanced := false;
      if isInitialLoad && !hook.loading {
        isInitialLoad := false;
        return;
      }
      if ReachedEnd(items, hook.usersLen) && hook.hasMore && !hook.loading && !fetchingNextPage {
        fetchingNextPage := true;
        pageRef := pageRef + 1;
        advanced := true;
      }
    }

    /** One run of the effect on `loading`. */
    method RunLoadingEffect(loading: bool)
      modifies this
      ensures State() == LoadingEffect(old(State()), loading)
    {
      if !loading {
        fetchingNextPage := false;
      }
    }
  }
}
