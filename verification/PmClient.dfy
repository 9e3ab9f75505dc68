/** The PM platform client: pagination over an arbitrary server, and retry with back-off. */
module PmClient {
  import opened Options

  // ---- Pagination --------------------------------------------------------------------------------

  datatype Query = ByPage(page: nat) | ByCursor(cursor: string)

  /** `items` is `None` when the field is there and not a list. */
  datatype Reply<T> =
    | Page(items: Option<seq<T>>, nextCursor: Option<string>, total: Option<int>)
    | Unavailable

  type Server<T> = Query -> Reply<T>

  datatype Pager<T> = Pager(items: seq<T>, cursor: Option<string>, page: nat) {
    /** Any cursor other than null is sent, an empty one included. */
    function Ask(): Query {
      if cursor.Some? then ByCursor(cursor.value) else ByPage(page)
    }
  }

  datatype Turn<T> = Go(pager: Pager<T>) | Stop(items: seq<T>) | Throw

  /** One request and what the loop makes of the reply. */
  function TurnOf<T>(server: Server<T>, p: Pager<T>): Turn<T> {
    match server(p.Ask())
    case Unavailable => Throw
    case Page(items, next, total) =>
      if items.None? then Throw
      else
        var all := p.items + items.value;
        if next.Some? && next.value != "" then Go(Pager(all, next, p.page))
        else if total.Some? && |all| < total.value then Go(Pager(all, next, p.page + 1))
        else Stop(all)
  }

  function Start<T>(): Pager<T> {
    Pager([], None, 1)
  }

  ghost predicate Ends<T>(server: Server<T>, p: Pager<T>, n: nat)
    decreases n
  {
    n > 0 && (TurnOf(server, p).Go? ==> Ends(server, TurnOf(server, p).pager, n - 1))
  }

  ghost predicate Terminates<T>(server: Server<T>) {
    exists n: nat :: Ends(server, Start(), n)
  }

  /** The result of a run that ends, and the requests it takes. */
  ghost function ResultOf<T>(server: Server<T>, p: Pager<T>, n: nat): (Option<seq<T>>, nat)
    requires Ends(server, p, n)
    decreases n
  {
    match TurnOf(server, p)
    case Go(q) => var (r, k) := ResultOf(server, q, n - 1); (r, k + 1)
    case Stop(items) => (Some(items), 1)
    case Throw => (None, 1)
  }

  method GetPaginated<T>(server: Server<T>, ghost n: nat)
    returns (result: Option<seq<T>>, requests: nat)
    requires Ends(server, Start(), n)
    ensures (result, requests) == ResultOf(server, Start(), n)
  {
    var items: seq<T> := [];
    var cursor: Option<string> := None;
    var page: nat := 1;
    requests := 0;
    ghost var left := n;
    while true
      invariant Ends(server, Pager(items, cursor, page), left)
      invariant var (r, k) := ResultOf(server, Pager(items, cursor, page), left);
                ResultOf(server, Start(), n) == (r, k + requests)
      decreases left
    {
      var reply := server(if cursor.Some? then ByCursor(cursor.value) else ByPage(page));
      requests := requests + 1;
      if reply.Unavailable? || reply.items.None? {
        return None, requests;
      }
      items := items + reply.items.value;
      cursor := reply.nextCursor;
      if cursor.Some? && cursor.value != "" {
        left := left - 1;
        continue;
      }
      if reply.total.Some? && |items| < reply.total.value {
        page := page + 1;
        left := left - 1;
        continue;
      }
      return Some(items), requests;
    }
  }

  // ---- An offset server --------------------------------------------------------------------------

  function Prefix(n: nat, bound: nat): nat {
    if n < bound then n else bound
  }

  /** A server that holds `all`, pages it, and claims `total` items. */
  ghost predicate Offset<T>(server: Server<T>, all: seq<T>, pageSize: nat, total: int) {
    forall k: nat :: k >= 1 ==>
      server(ByPage(k)) == Page(Some(Slice(all, pageSize, k)), None, Some(total))
  }

  function Slice<T>(all: seq<T>, pageSize: nat, k: nat): seq<T>
    requires k >= 1
  {
    all[Prefix((k - 1) * pageSize, |all|)..Prefix(k * pageSize, |all|)]
  }

  /** The loop after `k` pages of an offset server. */
  ghost function After<T>(all: seq<T>, pageSize: nat, k: nat): Pager<T> {
    Pager(all[..Prefix(k * pageSize, |all|)], None, k + 1)
  }

  lemma OffsetTurn<T>(server: Server<T>, all: seq<T>, pageSize: nat, total: int, k: nat)
    requires Offset(server, all, pageSize, total)
    ensures var seen := Prefix((k + 1) * pageSize, |all|);
            TurnOf(server, After(all, pageSize, k))
            == (if seen < total then Go(After(all, pageSize, k + 1)) else Stop(all[..seen]))
  {
    var lo, hi := Prefix(k * pageSize, |all|), Prefix((k + 1) * pageSize, |all|);
    assert (k + 1) * pageSize == k * pageSize + pageSize;
    assert all[..lo] + all[lo..hi] == all[..hi];
    assert server(ByPage(k + 1)) == Page(Some(Slice(all, pageSize, k + 1)), None, Some(total));
  }

  /** Pages for `total` items: one, and one more for each full page before the last. */
  function PagesFor(total: int, pageSize: nat): (n: nat)
    requires pageSize >= 1
    ensures n >= 1
    decreases total
  {
    if total <= pageSize then 1 else 1 + PagesFor(total - pageSize, pageSize)
  }

  /** That is max(1, ceil(total / pageSize)): the least positive number of pages that holds `total`. */
  lemma {:induction false} PagesForIsCeiling(total: int, pageSize: nat)
    requires pageSize >= 1
    ensures var n := PagesFor(total, pageSize);
            total <= n * pageSize && (n > 1 ==> (n - 1) * pageSize < total)
    decreases total
  {
    if total > pageSize {
      PagesForIsCeiling(total - pageSize, pageSize);
      var m := PagesFor(total - pageSize, pageSize);
      assert (m + 1) * pageSize == m * pageSize + pageSize;
      assert (m - 1) * pageSize + pageSize == m * pageSize;
    }
  }

  lemma {:induction false} OffsetEnds<T>(server: Server<T>, all: seq<T>, pageSize: nat, total: int, k: nat)
    requires Offset(server, all, pageSize, total) && pageSize >= 1 && total <= |all|
    requires k == 0 || k * pageSize < total
    ensures var n := PagesFor(total - k * pageSize, pageSize);
            && Ends(server, After(all, pageSize, k), n)
            && ResultOf(server, After(all, pageSize, k), n)
               == (Some(all[..Prefix((k + n) * pageSize, |all|)]), n)
            && (k + n) * pageSize >= total
    decreases |all| - k * pageSize
  {
    OffsetTurn(server, all, pageSize, total, k);
    assert (k + 1) * pageSize == k * pageSize + pageSize;
    if (k + 1) * pageSize < total {
      OffsetEnds(server, all, pageSize, total, k + 1);
    }
  }

  lemma {:induction false} OffsetNeverEnds<T>(server: Server<T>, all: seq<T>, pageSize: nat, total: int, k: nat, n: nat)
    requires Offset(server, all, pageSize, total) && total > |all|
    ensures !Ends(server, After(all, pageSize, k), n)
    decreases n
  {
    OffsetTurn(server, all, pageSize, total, k);
    if n > 0 {
      OffsetNeverEnds(server, all, pageSize, total, k + 1, n - 1);
    }
  }

  /** Against an offset server the loop ends exactly when the claimed total is not too large. */
  lemma OffsetEndsExactly<T>(server: Server<T>, all: seq<T>, pageSize: nat, total: int)
    requires Offset(server, all, pageSize, total) && pageSize >= 1
    ensures Terminates(server) <==> total <= |all|
  {
    assert After(all, pageSize, 0) == Start();
    if total <= |all| {
      OffsetEnds(server, all, pageSize, total, 0);
      var n: nat := PagesFor(total - 0 * pageSize, pageSize);
      assert Ends(server, Start(), n);
    } else {
      forall n: nat ensures !Ends(server, Start(), n) {
        OffsetNeverEnds(server, all, pageSize, total, 0, n);
      }
    }
  }

  /** An honest offset server: its list, exactly once, in order, in max(1, ceil) requests. */
  lemma HonestOffset<T>(server: Server<T>, all: seq<T>, pageSize: nat)
    requires Offset(server, all, pageSize, |all|) && pageSize >= 1
    ensures var n := PagesFor(|all|, pageSize);
            && Ends(server, Start(), n)
            && ResultOf(server, Start(), n) == (Some(all), n)
  {
    assert After(all, pageSize, 0) == Start();
    OffsetEnds(server, all, pageSize, |all|, 0);
    var n := PagesFor(|all|, pageSize);
    assert all[..Prefix(n * pageSize, |all|)] == all;
  }

  // ---- A cursor chain ----------------------------------------------------------------------------

  /** From `q` the server hands out `pages` one by one, linked by `keys`; the last has no link. */
  ghost predicate Chain<T>(server: Server<T>, q: Query, pages: seq<seq<T>>, keys: seq<string>, total: Option<int>)
    requires |pages| == |keys| + 1
    decreases |keys|
  {
    if keys == [] then server(q) == Page(Some(pages[0]), None, total)
    else
      && keys[0] != ""
      && server(q) == Page(Some(pages[0]), Some(keys[0]), total)
      && Chain(server, ByCursor(keys[0]), pages[1..], keys[1..], total)
  }

  function Flatten<T>(pages: seq<seq<T>>): seq<T> {
    if pages == [] then [] else pages[0] + Flatten(pages[1..])
  }

  lemma {:induction false} ChainFrom<T>(
    server: Server<T>, p: Pager<T>, pages: seq<seq<T>>, keys: seq<string>, total: Option<int>)
    requires |pages| == |keys| + 1 && Chain(server, p.Ask(), pages, keys, total)
    requires total.Some? ==> total.value <= |p.items + Flatten(pages)|
    ensures Ends(server, p, |pages|)
    ensures ResultOf(server, p, |pages|) == (Some(p.items + Flatten(pages)), |pages|)
    decreases |keys|
  {
    assert pages[0] + Flatten(pages[1..]) == Flatten(pages);
    if keys == [] {
      assert pages[1..] == [] && Flatten(pages) == pages[0];
    } else {
      var q := Pager(p.items + pages[0], Some(keys[0]), p.page);
      assert q.items + Flatten(pages[1..]) == p.items + Flatten(pages);
      ChainFrom(server, q, pages[1..], keys[1..], total);
    }
  }

  /** Against a cursor chain whose total is absent or right: the pages, concatenated. */
  lemma CursorChain<T>(server: Server<T>, pages: seq<seq<T>>, keys: seq<string>, total: Option<int>)
    requires |pages| == |keys| + 1 && Chain(server, ByPage(1), pages, keys, total)
    requires total.Some? ==> total.value == |Flatten(pages)|
    ensures Ends(server, Start(), |pages|)
    ensures ResultOf(server, Start(), |pages|) == (Some(Flatten(pages)), |pages|)
  {
    assert Start<T>().items + Flatten(pages) == Flatten(pages);
    ChainFrom(server, Start(), pages, keys, total);
  }

  // ---- Retry -------------------------------------------------------------------------------------

  /** What one attempt brings; `retryAfter` is the header as a number, if it is one. */
  datatype Attempt = Timeout | TransportFailure | Response(status: int, retryAfter: Option<real>)

  datatype Failure = ClientError | AuthError | NotFoundError | RateLimitedError | ServerError

  datatype Outcome = Ok(status: int) | Err(error: Failure)

  predicate Retryable(a: Attempt) {
    a.Response? ==> a.status == 429 || 500 <= a.status < 600
  }

  predicate Succeeds(a: Attempt) {
    a.Response? && 200 <= a.status < 300
  }

  /** How the attempt that decides the request is reported. */
  function Verdict(a: Attempt): Outcome {
    match a
    case Timeout => Err(ClientError)
    case TransportFailure => Err(ClientError)
    case Response(status, _) =>
      if 200 <= status < 300 then Ok(status)
      else if status == 401 || status == 403 then Err(AuthError)
      else if status == 404 then Err(NotFoundError)
      else if status == 429 then Err(RateLimitedError)
      else if 500 <= status < 600 then Err(ServerError)
      else Err(ClientError)
  }

  /** The first attempt from `k` on that is not retried. */
  function Decisive(attempts: nat -> Attempt, k: nat, maxRetries: nat): (d: nat)
    requires k <= maxRetries
    ensures k <= d <= maxRetries
    ensures forall i :: k <= i < d ==> Retryable(attempts(i))
    ensures d == maxRetries || !Retryable(attempts(d))
    decreases maxRetries - k
  {
    if k == maxRetries || !Retryable(attempts(k)) then k else Decisive(attempts, k + 1, maxRetries)
  }

  function Pow2(n: nat): nat {
    if n == 0 then 1 else 2 * Pow2(n - 1)
  }

  function Wait(a: Attempt, k: nat, base: real, jitter: real): real {
    if a.Response? && a.status == 429 && a.retryAfter.Some? && a.retryAfter.value > 0.0
    then a.retryAfter.value
    else base * Pow2(k) as real + jitter
  }

  class Client {
    const maxRetries: nat
    const baseBackoff: real

    constructor (retries: int, backoff: real)
      ensures maxRetries == (if retries < 0 then 0 else retries)
      ensures baseBackoff == (if backoff < 0.0 then 0.0 else backoff)
    {
      maxRetries := if retries < 0 then 0 else retries;
      baseBackoff := if backoff < 0.0 then 0.0 else backoff;
    }

    /** `slept` is the list of waits; `jitter(k)` is what the random source gives at attempt `k`. */
    method Request(attempts: nat -> Attempt, jitter: nat -> real)
      returns (outcome: Outcome, slept: seq<real>)
      ensures var d := Decisive(attempts, 0, maxRetries);
              && outcome == Verdict(attempts(d))
              && |slept| == d
              && forall k :: 0 <= k < d ==> slept[k] == Wait(attempts(k), k, baseBackoff, jitter(k))
    {
      slept := [];
      var attempt := 0;
      while true
        invariant attempt == |slept| <= maxRetries
        invariant Decisive(attempts, attempt, maxRetries) == Decisive(attempts, 0, maxRetries)
        invariant forall k :: 0 <= k < attempt ==>
                    slept[k] == Wait(attempts(k), k, baseBackoff, jitter(k))
        decreases maxRetries - attempt
      {
        var got := attempts(attempt);
        match got {
          case Timeout =>
            if attempt == maxRetries {
              return Err(ClientError), slept;
            }
          case TransportFailure =>
            if attempt == maxRetries {
              return Err(ClientError), slept;
            }
          case Response(status, retryAfter) =>
            if 200 <= status < 300 {
              return Ok(status), slept;
            }
            if status == 401 || status == 403 {
              return Err(AuthError), slept;
            }
            if status == 404 {
              return Err(NotFoundError), slept;
            }
            if status == 429 {
              if attempt == maxRetries {
                return Err(RateLimitedError), slept;
              }
            } else if 500 <= status < 600 {
              if attempt == maxRetries {
                return Err(ServerError), slept;
              }
            } else {
              return Err(ClientError), slept;
            }
        }
        slept := slept + [Wait(got, attempt, baseBackoff, jitter(attempt))];
        attempt := attempt + 1;
      }
    }
  }

  /** A request succeeds exactly when a 2xx comes within the limit, after retryable attempts only. */
  lemma SucceedsExactly(attempts: nat -> Attempt, maxRetries: nat)
    ensures Verdict(attempts(Decisive(attempts, 0, maxRetries))).Ok?
       <==> exists k: nat :: k <= maxRetries && Succeeds(attempts(k))
              && forall i: nat :: i < k ==> Retryable(attempts(i))
  {
    var d := Decisive(attempts, 0, maxRetries);
    if k: nat :| k <= maxRetries && Succeeds(attempts(k)) && forall i: nat :: i < k ==> Retryable(attempts(i)) {
      assert k == d;
    }
    if Verdict(attempts(d)).Ok? {
      assert Succeeds(attempts(d));
    }
  }

  ghost function Total(slept: seq<real>): real {
    if slept == [] then 0.0 else Total(slept[..|slept| - 1]) + slept[|slept| - 1]
  }

  /** Without Retry-After, `r` retries wait between base(2^r - 1) and base(2^r - 1 + r) in all. */
  lemma {:induction false} TotalWait(
    attempts: nat -> Attempt, jitter: nat -> real, base: real, slept: seq<real>)
    requires base >= 0.0
    requires forall k: nat :: 0.0 <= jitter(k) <= base
    requires forall k :: 0 <= k < |slept| ==>
               && slept[k] == Wait(attempts(k), k, base, jitter(k))
               && (attempts(k).Response? ==> attempts(k).retryAfter.None?)
    ensures var r := |slept|;
            base * (Pow2(r) as real - 1.0) <= Total(slept) <= base * (Pow2(r) as real - 1.0 + r as real)
  {
    if slept != [] {
      var r := |slept| - 1;
      TotalWait(attempts, jitter, base, slept[..r]);
      WaitStep(base, Pow2(r) as real, r as real, Total(slept[..r]), jitter(r));
    }
  }

  lemma WaitStep(base: real, p: real, r: real, before: real, j: real)
    requires base * (p - 1.0) <= before <= base * (p - 1.0 + r) && 0.0 <= j <= base
    ensures base * (2.0 * p - 1.0) <= before + (base * p + j) <= base * (2.0 * p - 1.0 + (r + 1.0))
  {
    Distribute(base, p - 1.0, p);
    Distribute(base, p - 1.0 + r, p);
    Distribute(base, 2.0 * p - 1.0 + r, 1.0);
  }

  lemma Distribute(x: real, y: real, z: real)
    ensures x * y + x * z == x * (y + z)
  {
  }
}
