/**
 * The backend's paged read, `fetchUsers` in backend/src/controllers/users.controller.js:
 * a pure function of the in-memory user list and the (already parsed) `page` and `limit`
 * query parameters.
 */
module UsersController {
  import opened Prelude

  const DefaultPage := 1
  const DefaultLimit := 10

  /**
   * `parseInt(q) || d`: a parse that fails (NaN, written None) or yields 0 is falsy and gives
   * way to the default; every other integer, negative ones included, is kept as it is.
   */
  function OrDefault(parsed: Option<int>, default: int): (r: int)
    ensures parsed.Some? && parsed.value != 0 ==> r == parsed.value
    ensures parsed == None || parsed == Some(0) ==> r == default
  {
    match parsed
    case None => default
    case Some(v) => if v != 0 then v else default
  }

  /** `parseInt(req.query.page) || 1`: never 0, and at least 1 exactly when the parse was not negative. */
  function PageParam(parsed: Option<int>): (page: int)
    ensures page != 0
    ensures page >= 1 <==> (parsed == None || parsed.value >= 0)
  {
    OrDefault(parsed, DefaultPage)
  }

  /** `parseInt(req.query.limit) || 10`: never 0, and at least 1 exactly when the parse was not negative. */
  function LimitParam(parsed: Option<int>): (limit: int)
    ensures limit != 0
    ensures limit >= 1 <==> (parsed == None || parsed.value >= 0)
  {
    OrDefault(parsed, DefaultLimit)
  }

  /** `Math.ceil(n / d)` over the integers: the least q with n <= q * d. */
  function CeilDiv(n: nat, d: nat): (q: nat)
    requires d >= 1
    ensures (q - 1) * d < n <= q * d
  {
    var q := (n + d - 1) / d;
    assert n + d - 1 == q * d + (n + d - 1) % d;
    q
  }

  /** The JSON body of a 200 response. */
  datatype Response<T> = Response(currentPage: int, totalPages: nat, totalUsers: nat, users: seq<T>)

  /** The window of at most `limit` records starting at `start`, clamped to the list. */
  function Window<T>(all: seq<T>, start: nat, limit: nat): (r: seq<T>)
    ensures |r| == Min(limit, Max(0, |all| - start))
    ensures forall i :: 0 <= i < |r| ==> r[i] == all[start + i]
  {
    Slice(all, start, start + limit)
  }

  /**
   * One call of the endpoint over the list `all`. The page holds the records from index
   * (page - 1) * limit on, at most `limit` of them; the counters echo the request and the list.
   */
  function FetchUsers<T>(all: seq<T>, page: int, limit: int): (r: Response<T>)
    requires page >= 1 && limit >= 1
    ensures r.currentPage == page && r.totalUsers == |all|
    ensures (r.totalPages - 1) * limit < |all| <= r.totalPages * limit
    ensures |r.users| == Min(limit, Max(0, |all| - (page - 1) * limit))
    ensures forall i :: 0 <= i < |r.users| ==> r.users[i] == all[(page - 1) * limit + i]
  {
    var startIndex: nat := (page - 1) * limit;
    Response(page, CeilDiv(|all|, limit), |all|, Window(all, startIndex, limit))
  }

  lemma MulMonotone(a: int, b: int, c: nat)
    requires a <= b
    ensures a * c <= b * c
  {
  }

  /** The bounds (q - 1) * d < n <= q * d pin the page count down: only one q meets them. */
  lemma {:induction false} CeilDivUnique(n: nat, d: nat, q: int)
    requires d >= 1
    requires (q - 1) * d < n <= q * d
    ensures q == CeilDiv(n, d)
  {
    var c := CeilDiv(n, d);
    if q < c {
      MulMonotone(q, c - 1, d);
    } else if c < q {
      MulMonotone(c, q - 1, d);
    }
  }

  /** totalPages depends only on the list and the limit, never on the requested page. */
  lemma TotalPagesIgnoresPage<T>(all: seq<T>, page1: int, page2: int, limit: int)
    requires page1 >= 1 && page2 >= 1 && limit >= 1
    ensures FetchUsers(all, page1, limit).totalPages == FetchUsers(all, page2, limit).totalPages
  {
  }

  /** A page is empty exactly when it lies past the last page; totalPages is reported either way. */
  lemma {:induction false} EmptyIffPastEnd<T>(all: seq<T>, page: int, limit: int)
    requires page >= 1 && limit >= 1
    ensures FetchUsers(all, page, limit).users == [] <==> page > FetchUsers(all, page, limit).totalPages
  {
    var r := FetchUsers(all, page, limit);
    if page > r.totalPages {
      MulMonotone(r.totalPages, page - 1, limit);
    } else {
      MulMonotone(page - 1, r.totalPages - 1, limit);
    }
  }

  /** Ten users, page 5 of 10: an empty page, and still one page in all. */
  lemma PastEndExample<T>(all: seq<T>)
    requires |all| == 10
    ensures FetchUsers(all, 5, 10) == Response(5, 1, 10, [])
  {
    EmptyIffPastEnd(all, 5, 10);
  }

  /** The records of pages 1..k, in page order. */
  function PagesUpTo<T>(all: seq<T>, limit: int, k: nat): seq<T>
    requires limit >= 1
  {
    if k == 0 then [] else PagesUpTo(all, limit, k - 1) + FetchUsers(all, k, limit).users
  }

  /** Pages 1..k put end to end are the first k * limit records, without gaps or repeats. */
  lemma {:induction false} PagesUpToIsPrefix<T>(all: seq<T>, limit: int, k: nat)
    requires limit >= 1
    ensures PagesUpTo(all, limit, k) == all[..Min(k * limit, |all|)]
  {
    if k > 0 {
      PagesUpToIsPrefix(all, limit, k - 1);
      PageStart(k, limit);
      var start: nat := (k - 1) * limit;
      PageIsSlice(all, k, limit);
      var lo: nat := if start <= |all| then start else |all|;
      var hi: nat := if start + limit <= |all| then start + limit else |all|;
      assert lo == Min(start, |all|) && hi == Min(start + limit, |all|);
      PrefixThenSlice(all, lo, hi);
    }
  }

  lemma PrefixThenSlice<T>(s: seq<T>, lo: nat, hi: nat)
    requires lo <= hi <= |s|
    ensures s[..lo] + s[lo..hi] == s[..hi]
  {
  }

  /** Page k starts at a non-negative offset, limit records before page k + 1. */
  lemma PageStart(k: int, limit: int)
    requires k >= 1 && limit >= 1
    ensures (k - 1) * limit >= 0
    ensures (k - 1) * limit + limit == k * limit
  {
  }

  /** Page p is the slice of the list between the clamped bounds (p - 1) * limit and p * limit. */
  lemma PageIsSlice<T>(all: seq<T>, page: int, limit: int)
    requires page >= 1 && limit >= 1
    ensures var start := (page - 1) * limit;
            FetchUsers(all, page, limit).users == all[Min(start, |all|)..Min(start + limit, |all|)]
  {
    var start := (page - 1) * limit;
    var r := FetchUsers(all, page, limit).users;
    var lo, hi := Min(start, |all|), Min(start + limit, |all|);
    assert |r| == hi - lo;
    assert forall i :: 0 <= i < |r| ==> r[i] == all[lo..hi][i];
  }

  /** Pages 1..totalPages put end to end rebuild the whole list. */
  lemma {:induction false} PagesRebuildAll<T>(all: seq<T>, limit: int)
    requires limit >= 1
    ensures PagesUpTo(all, limit, FetchUsers(all, 1, limit).totalPages) == all
  {
    var t := FetchUsers(all, 1, limit).totalPages;
    PagesUpToIsPrefix(all, limit, t);
    assert all[..|all|] == all;
  }
}
