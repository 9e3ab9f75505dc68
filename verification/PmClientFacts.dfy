/** Which replies end the pagination, which attempts are repeated, and what is reported and waited. */
module PmClientFacts {
  import opened Options
  import opened PmClient

  // ---- Pages -------------------------------------------------------------------------------------

  /** A failed request and items that are no list end the loop with an error. */
  lemma BadReplyThrows<T>(server: Server<T>, p: Pager<T>)
    ensures TurnOf(server, p).Throw?
       <==> server(p.Ask()) == Unavailable || (server(p.Ask()).Page? && server(p.Ask()).items == None)
  {
  }

  /**
   * After a good reply the items are added; a non-empty cursor is followed, else a total that is
   * not reached asks for the next page, else the loop is over.
   */
  lemma GoodReply<T>(server: Server<T>, p: Pager<T>, more: seq<T>, next: Option<string>, total: Option<int>)
    requires server(p.Ask()) == Page(Some(more), next, total)
    ensures var follow := next != None && next != Some("");
            var short := total.Some? && |p.items + more| < total.value;
            && (TurnOf(server, p).Go? <==> follow || short)
            && (follow ==> TurnOf(server, p) == Go(Pager(p.items + more, next, p.page)))
            && (!follow && short ==> TurnOf(server, p) == Go(Pager(p.items + more, next, p.page + 1)))
            && (!follow && !short ==> TurnOf(server, p) == Stop(p.items + more))
  {
  }

  /** The first request is for page 1; a cursor, an empty one included, takes the place of the page. */
  lemma WhatIsAsked<T>(p: Pager<T>)
    ensures Start<T>().Ask() == ByPage(1) && Start<T>().items == []
    ensures p.cursor == None ==> p.Ask() == ByPage(p.page)
    ensures forall c :: p.cursor == Some(c) ==> p.Ask() == ByCursor(c)
  {
  }

  /** One request per turn: the count is the least number of turns in which the run ends. */
  lemma {:induction false} RequestsAreTurns<T>(server: Server<T>, p: Pager<T>, n: nat)
    requires Ends(server, p, n)
    ensures var (r, k) := ResultOf(server, p, n); 1 <= k <= n && Ends(server, p, k) && !Ends(server, p, k - 1)
    decreases n
  {
    if TurnOf(server, p).Go? {
      RequestsAreTurns(server, TurnOf(server, p).pager, n - 1);
    }
  }

  // ---- Attempts ----------------------------------------------------------------------------------

  /** Time-outs, transport failures, 429 and the 500s are repeated, and nothing else. */
  lemma RepeatedExactly(a: Attempt)
    ensures Retryable(Timeout) && Retryable(TransportFailure)
    ensures a.Response? ==> (Retryable(a) <==> a.status == 429 || a.status / 100 == 5)
  {
  }

  /** What is reported of the attempt that decides. */
  lemma ReportOf(a: Attempt)
    ensures a == Timeout || a == TransportFailure ==> Verdict(a) == Err(ClientError)
    ensures a.Response? ==>
              && (Verdict(a).Ok? <==> a.status / 100 == 2) && (Verdict(a).Ok? ==> Verdict(a).status == a.status)
              && (Verdict(a) == Err(AuthError) <==> a.status in {401, 403})
              && (Verdict(a) == Err(NotFoundError) <==> a.status == 404)
              && (Verdict(a) == Err(RateLimitedError) <==> a.status == 429)
              && (Verdict(a) == Err(ServerError) <==> a.status / 100 == 5)
  {
  }

  /** Retry-After is obeyed on a 429 if it is positive; otherwise the wait doubles with each attempt. */
  lemma WaitFacts(a: Attempt, k: nat, base: real, jitter: real)
    ensures forall s :: a == Response(429, Some(s)) && s > 0.0 ==> Wait(a, k, base, jitter) == s
    ensures (a.Response? && a.status == 429 ==> a.retryAfter.None? || a.retryAfter.value <= 0.0) ==>
              && Wait(a, 0, base, jitter) == base + jitter
              && Wait(a, k + 1, base, 0.0) == 2.0 * Wait(a, k, base, 0.0)
  {
    if a.Response? && a.status == 429 ==> a.retryAfter.None? || a.retryAfter.value <= 0.0 {
      Doubled(base, Pow2(k) as real);
    }
  }

  lemma Doubled(x: real, y: real)
    ensures x * (2.0 * y) == 2.0 * (x * y) && x * 1.0 == x
  {
  }

  /** The first attempt of which none before is not repeated decides, or the last allowed. */
  lemma {:induction false} DecidesExactly(attempts: nat -> Attempt, maxRetries: nat, d: nat)
    requires d <= maxRetries && (forall i: nat :: i < d ==> Retryable(attempts(i)))
    requires d == maxRetries || !Retryable(attempts(d))
    ensures Decisive(attempts, 0, maxRetries) == d
  {
  }
}
