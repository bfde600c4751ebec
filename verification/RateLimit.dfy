/**
 The fixed-window rate limiter of lib/utils.ts (`checkRateLimit` and the
 periodic sweep), as a pure transition on an explicit store of windows. The
 process-wide map becomes the `store` argument and result, and `Date.now()`
 becomes the `now` argument (milliseconds).
 */
module RateLimit {

  /** One client's window: requests counted so far and the instant it ends. */
  datatype Window = Window(count: int, resetAt: int)

  type Store = map<string, Window>

  datatype Decision = Decision(allowed: bool, remaining: int)

  datatype Outcome = Outcome(decision: Decision, store: Store)

  const DefaultMaxRequests: int := 10
  const DefaultWindowMs: int := 60000

  /** A window is over strictly after its reset instant. */
  predicate Expired(w: Window, now: int)
  {
    now > w.resetAt
  }

  /** The key has a window that is still running at `now`. */
  predicate Live(store: Store, key: string, now: int)
  {
    key in store && !Expired(store[key], now)
  }

  /** `checkRateLimit(key, maxRequests, windowMs)` at time `now`. */
  function CheckRateLimit(store: Store, key: string, now: int, maxRequests: int, windowMs: int): (out: Outcome)
    // No window, or an expired one: a fresh window holding this one request.
    ensures !Live(store, key, now) ==>
      out.decision == Decision(true, maxRequests - 1)
      && out.store == store[key := Window(1, now + windowMs)]
    // A full live window: denied, and nothing is recorded.
    ensures Live(store, key, now) && store[key].count >= maxRequests ==>
      out.decision == Decision(false, 0) && out.store == store
    // A live window with room: the request is counted in the same window.
    ensures Live(store, key, now) && store[key].count < maxRequests ==>
      out.store == store[key := Window(store[key].count + 1, store[key].resetAt)]
      && out.decision == Decision(true, maxRequests - out.store[key].count)
    // Other clients' windows are untouched.
    ensures out.store - {key} == store - {key}
    ensures key in out.store
  {
    if !Live(store, key, now) then
      Outcome(Decision(true, maxRequests - 1), store[key := Window(1, now + windowMs)])
    else
      var w := store[key];
      if w.count >= maxRequests then Outcome(Decision(false, 0), store)
      else
        var w' := w.(count := w.count + 1);
        Outcome(Decision(true, maxRequests - w'.count), store[key := w'])
  }

  /** The sweep's result: exactly the windows still running at `now`, unchanged. */
  function Sweep(store: Store, now: int): (swept: Store)
    ensures forall k :: k in swept <==> k in store && !Expired(store[k], now)
    ensures forall k :: k in swept ==> swept[k] == store[k]
  {
    map k | k in store && !Expired(store[k], now) :: store[k]
  }

  /** The body of the periodic sweep: visit every entry, deleting the expired ones. */
  method SweepExpired(store: Store, now: int) returns (swept: Store)
    ensures forall k :: k in swept <==> k in store && !Expired(store[k], now)
    ensures forall k :: k in swept ==> swept[k] == store[k]
  {
    swept := store;
    var pending := store.Keys;
    while pending != {}
      invariant pending <= store.Keys
      invariant forall k :: k in swept <==> k in store && (k in pending || !Expired(store[k], now))
      invariant forall k :: k in swept ==> swept[k] == store[k]
      decreases |pending|
    {
      var k :| k in pending;
      if Expired(store[k], now) {
        swept := swept - {k};
      }
      pending := pending - {k};
    }
  }

  // ---------------------------------------------------------------------------
  // The per-window bound
  // ---------------------------------------------------------------------------

  /** How many of the requests made at the instants `nows`, in order, are allowed. */
  function AllowedCount(store: Store, key: string, nows: seq<int>, maxRequests: int, windowMs: int): nat
    decreases |nows|
  {
    if |nows| == 0 then 0
    else
      var out := CheckRateLimit(store, key, nows[0], maxRequests, windowMs);
      (if out.decision.allowed then 1 else 0) + AllowedCount(out.store, key, nows[1..], maxRequests, windowMs)
  }

  /**
   While a live window lasts it admits no more requests than it has room
   for, and it keeps its reset instant.
   */
  lemma {:induction false} LiveWindowBound(store: Store, key: string, nows: seq<int>, maxRequests: int, windowMs: int)
    requires key in store
    requires forall i :: 0 <= i < |nows| ==> nows[i] <= store[key].resetAt
    ensures AllowedCount(store, key, nows, maxRequests, windowMs)
      <= if maxRequests - store[key].count < 0 then 0 else maxRequests - store[key].count
    decreases |nows|
  {
    if |nows| > 0 {
      var out := CheckRateLimit(store, key, nows[0], maxRequests, windowMs);
      assert Live(store, key, nows[0]);
      assert out.store[key].resetAt == store[key].resetAt;
      LiveWindowBound(out.store, key, nows[1..], maxRequests, windowMs);
    }
  }

  /**
   For `maxRequests >= 1`: of the requests made inside one window (all no
   later than the first request plus `windowMs`, the first one finding no
   running window), at most `maxRequests` are allowed.
   */
  lemma AtMostMaxRequestsPerWindow(store: Store, key: string, nows: seq<int>, maxRequests: int, windowMs: int)
    requires maxRequests >= 1
    requires |nows| >= 1 && !Live(store, key, nows[0])
    requires forall i :: 0 <= i < |nows| ==> nows[i] <= nows[0] + windowMs
    ensures AllowedCount(store, key, nows, maxRequests, windowMs) <= maxRequests
  {
    var out := CheckRateLimit(store, key, nows[0], maxRequests, windowMs);
    assert out.store[key] == Window(1, nows[0] + windowMs);
    LiveWindowBound(out.store, key, nows[1..], maxRequests, windowMs);
  }

  /**
   Every recorded window has counted at least one request and, for
   `maxRequests >= 1`, no more than `maxRequests`.
   */
  ghost predicate WellFormed(store: Store, maxRequests: int)
  {
    forall k :: k in store ==> 1 <= store[k].count <= maxRequests
  }

  /**
   Checks preserve well-formedness, and the `remaining` they report always
   lies between 0 and `maxRequests - 1`.
   */
  lemma CheckKeepsWellFormed(store: Store, key: string, now: int, maxRequests: int, windowMs: int)
    requires maxRequests >= 1 && WellFormed(store, maxRequests)
    ensures WellFormed(CheckRateLimit(store, key, now, maxRequests, windowMs).store, maxRequests)
    ensures 0 <= CheckRateLimit(store, key, now, maxRequests, windowMs).decision.remaining < maxRequests
  {
  }

  /** The sweep only deletes, so it keeps a well-formed store well-formed. */
  lemma SweepKeepsWellFormed(store: Store, now: int, maxRequests: int)
    requires WellFormed(store, maxRequests)
    ensures WellFormed(Sweep(store, now), maxRequests)
  {
  }

  /**
   With two requests per 1000 ms, three quick requests are allowed, allowed
   and denied (remaining 1, 0, 0), and a request after the window has ended
   starts a new one (remaining 1).
   */
  lemma TwoPerSecondScenario()
    ensures var s0: Store := map[];
      var o1 := CheckRateLimit(s0, "k", 0, 2, 1000);
      var o2 := CheckRateLimit(o1.store, "k", 10, 2, 1000);
      var o3 := CheckRateLimit(o2.store, "k", 20, 2, 1000);
      var o4 := CheckRateLimit(o3.store, "k", 1001, 2, 1000);
      o1.decision == Decision(true, 1) && o2.decision == Decision(true, 0)
      && o3.decision == Decision(false, 0) && o4.decision == Decision(true, 1)
  {
  }

  /**
   With the default arguments a client gets at most ten requests in any
   minute that starts with a fresh window, and the first one reports nine
   remaining.
   */
  lemma DefaultLimitIsTenPerMinute(store: Store, key: string, nows: seq<int>)
    requires |nows| >= 1 && !Live(store, key, nows[0])
    requires forall i :: 0 <= i < |nows| ==> nows[i] <= nows[0] + DefaultWindowMs
    ensures AllowedCount(store, key, nows, DefaultMaxRequests, DefaultWindowMs) <= 10
    ensures CheckRateLimit(store, key, nows[0], DefaultMaxRequests, DefaultWindowMs).decision == Decision(true, 9)
  {
    AtMostMaxRequestsPerWindow(store, key, nows, DefaultMaxRequests, DefaultWindowMs);
  }
}
