/**
 * The two bounds on outbound OIDC discovery: the negative cache of issuers
 * whose last fetch failed, and the window of recent fetch attempts.
 */
module DiscoveryCache {
  import opened Prelude

  type Issuer = nat

  /** The deployment's settings, under their environment names. */
  datatype Config = Config(
    failureTtl: int,        // DISCOVERY_FAILURE_CACHE_TTL
    unreachableTtl: int,    // DISCOVERY_UNREACHABLE_CACHE_TTL
    cacheMax: nat,          // DISCOVERY_FAILURE_CACHE_MAX_SIZE
    maxAttempts: int,       // DISCOVERY_RATE_LIMIT_MAX_ATTEMPTS
    window: int,            // DISCOVERY_RATE_LIMIT_WINDOW_SECONDS
    maxWaiters: nat)        // DISCOVERY_MAX_WAITERS

  // ----- the negative cache -------------------------------------------------

  datatype Cache = Cache(failures: map<Issuer, real>, unreachable: set<Issuer>)

  function Ttl(cfg: Config, unreachable: set<Issuer>, issuer: Issuer): real {
    if issuer in unreachable then cfg.unreachableTtl as real else cfg.failureTtl as real
  }

  predicate Stale(cfg: Config, c: Cache, now: real, issuer: Issuer)
    requires issuer in c.failures
  {
    now - c.failures[issuer] > Ttl(cfg, c.unreachable, issuer)
  }

  function Unexpired(cfg: Config, c: Cache, now: real): set<Issuer> {
    set i | i in c.failures && !Stale(cfg, c, now, i)
  }

  /** What a prune at `now` must leave: the unexpired entries, or the newest `cacheMax` of them. */
  ghost predicate Pruned(cfg: Config, before: Cache, now: real, after: Cache) {
    var live := Unexpired(cfg, before, now);
    && after.failures.Keys <= live
    && (forall i :: i in after.failures ==> after.failures[i] == before.failures[i])
    && (|live| <= cfg.cacheMax ==> after.failures.Keys == live)
    && (|live| > cfg.cacheMax ==> |after.failures.Keys| == cfg.cacheMax)
    && (forall kept, dropped :: kept in after.failures && dropped in live - after.failures.Keys ==>
          before.failures[dropped] <= before.failures[kept])
    && after.unreachable == before.unreachable - (before.failures.Keys - after.failures.Keys)
  }

  class FailureCache {
    var failures: map<Issuer, real>
    var unreachable: set<Issuer>

    function State(): Cache
      reads this
    {
      Cache(failures, unreachable)
    }

    constructor ()
      ensures State() == Cache(map[], {})
    {
      failures, unreachable := map[], {};
    }

    method Prune(cfg: Config, now: real)
      modifies this
      ensures Pruned(cfg, old(State()), now, State())
    {
      DropExpired(cfg, now);
      ghost var trimmed := State();
      assert Unexpired(cfg, old(State()), now) == trimmed.failures.Keys;
      assert |trimmed.failures| == |trimmed.failures.Keys|;
      DropOverflow(cfg.cacheMax);
    }

    method DropExpired(cfg: Config, now: real)
      modifies this
      ensures failures == map i | i in Unexpired(cfg, old(State()), now) :: old(failures)[i]
      ensures unreachable == old(unreachable) - (old(failures).Keys - failures.Keys)
    {
      var expired: set<Issuer> := set i | i in failures && Stale(cfg, State(), now, i);
      var left := expired;
      while left != {}
        invariant left <= expired
        invariant failures == old(failures) - (expired - left)
        invariant unreachable == old(unreachable) - (expired - left)
        decreases left
      {
        var iss :| iss in left;
        failures := failures - {iss};
        unreachable := unreachable - {iss};
        left := left - {iss};
      }
      assert old(failures).Keys - failures.Keys == expired;
    }

    method DropOverflow(cacheMax: nat)
      modifies this
      ensures failures.Keys <= old(failures).Keys
      ensures forall i :: i in failures ==> failures[i] == old(failures)[i]
      ensures unreachable == old(unreachable) - (old(failures).Keys - failures.Keys)
      ensures |old(failures)| <= cacheMax ==> failures == old(failures)
      ensures |old(failures)| > cacheMax ==> |failures.Keys| == cacheMax
      ensures forall kept, dropped :: kept in failures && dropped in old(failures).Keys - failures.Keys ==>
                old(failures)[dropped] <= old(failures)[kept]
    {
      if |failures| > cacheMax {
        var overflow := |failures| - cacheMax;
        var order := OldestFirst(failures);
        OrderLength(order, failures);
        OldestDropped(order, failures, overflow);
        Forget(order[..overflow]);
        assert old(failures).Keys - failures.Keys == Image(order[..overflow]);
      }
    }

    method Forget(oldest: seq<Issuer>)
      modifies this
      ensures failures == old(failures) - Image(oldest)
      ensures unreachable == old(unreachable) - Image(oldest)
    {
      for k := 0 to |oldest|
        invariant failures == old(failures) - Image(oldest[..k])
        invariant unreachable == old(unreachable) - Image(oldest[..k])
      {
        assert Image(oldest[..k + 1]) == Image(oldest[..k]) + {oldest[k]};
        failures := failures - {oldest[k]};
        unreachable := unreachable - {oldest[k]};
      }
      assert oldest[..|oldest|] == oldest;
    }
  }

  ghost predicate OldestOrder(order: seq<Issuer>, times: map<Issuer, real>) {
    && Image(order) == times.Keys
    && (forall i, j :: 0 <= i < j < |order| ==> order[i] != order[j])
    && (forall i, j :: 0 <= i < j < |order| ==> times[order[i]] <= times[order[j]])
  }

  /** The issuers by failure time, oldest first. */
  method OldestFirst(times: map<Issuer, real>) returns (order: seq<Issuer>)
    ensures OldestOrder(order, times)
  {
    order := [];
    var left := times.Keys;
    while left != {}
      invariant left !! Image(order) && left + Image(order) == times.Keys
      invariant forall i, j :: 0 <= i < j < |order| ==> order[i] != order[j]
      invariant forall i, j :: 0 <= i < j < |order| ==> times[order[i]] <= times[order[j]]
      invariant forall i, iss :: 0 <= i < |order| && iss in left ==> times[order[i]] <= times[iss]
      decreases left
    {
      var oldest := Oldest(times, left);
      assert Image(order + [oldest]) == Image(order) + {oldest};
      order := order + [oldest];
      left := left - {oldest};
    }
  }

  method Oldest(times: map<Issuer, real>, among: set<Issuer>) returns (oldest: Issuer)
    requires among != {} && among <= times.Keys
    ensures oldest in among
    ensures forall iss :: iss in among ==> times[oldest] <= times[iss]
  {
    oldest :| oldest in among;
    var left := among - {oldest};
    while left != {}
      invariant left <= among && oldest in among
      invariant forall iss :: iss in among - left ==> times[oldest] <= times[iss]
      decreases left
    {
      var iss :| iss in left;
      if times[iss] < times[oldest] {
        oldest := iss;
      }
      left := left - {iss};
    }
  }

  lemma {:induction false} OrderLength(order: seq<Issuer>, times: map<Issuer, real>)
    requires OldestOrder(order, times)
    ensures |order| == |times|
  {
    DistinctImage(order);
    assert |times| == |times.Keys|;
  }

  /** Dropping the first `n` of the order leaves the rest, none older than any dropped. */
  lemma {:induction false} OldestDropped(order: seq<Issuer>, times: map<Issuer, real>, n: nat)
    requires OldestOrder(order, times) && n <= |order|
    ensures Image(order[..n]) <= times.Keys && |times.Keys - Image(order[..n])| == |times| - n
    ensures forall kept, dropped :: kept in times.Keys - Image(order[..n]) && dropped in Image(order[..n]) ==>
              times[dropped] <= times[kept]
  {
    OrderLength(order, times);
    DistinctImage(order[..n]);
    assert forall k :: 0 <= k < n ==> order[..n][k] in Image(order[..n]);
    forall kept, dropped | kept in times.Keys - Image(order[..n]) && dropped in Image(order[..n])
      ensures times[dropped] <= times[kept]
    {
      var j :| 0 <= j < |order| && order[j] == kept;
      var i :| 0 <= i < n && order[..n][i] == dropped;
    }
  }

  /** A prune leaves only unexpired entries, at most the cap, and keeps every flag on a live entry. */
  lemma {:induction false} PruneBounds(cfg: Config, before: Cache, now: real, after: Cache)
    requires Pruned(cfg, before, now, after) && before.unreachable <= before.failures.Keys
    ensures |after.failures| <= cfg.cacheMax
    ensures after.unreachable <= after.failures.Keys
    ensures forall i :: i in after.failures ==>
              && Ttl(cfg, after.unreachable, i) == Ttl(cfg, before.unreachable, i)
              && !Stale(cfg, after, now, i)
    ensures forall i :: i in before.failures && i !in after.failures ==>
              || Stale(cfg, before, now, i)
              || (|after.failures| == cfg.cacheMax
                  && forall kept :: kept in after.failures ==> before.failures[i] <= after.failures[kept])
    ensures forall i :: i in after.failures ==>
              i in before.failures && after.failures[i] == before.failures[i]
              && (i in after.unreachable <==> i in before.unreachable)
  {
    assert |after.failures| == |after.failures.Keys|;
  }

  // ----- the attempt window -------------------------------------------------

  /** The deque once its stale head entries are popped. */
  function DropStale(times: seq<real>, now: real, window: int): seq<real> {
    if times != [] && now - times[0] > window as real then DropStale(times[1..], now, window)
    else times
  }

  class AttemptWindow {
    var times: seq<real>

    constructor ()
      ensures times == []
    {
      times := [];
    }

    /** False where the source raises 503. */
    method Check(now: real, cfg: Config) returns (admitted: bool)
      modifies this
      ensures var kept := DropStale(old(times), now, cfg.window);
              && admitted == (|kept| < cfg.maxAttempts)
              && times == if admitted then kept + [now] else kept
    {
      while times != [] && now - times[0] > cfg.window as real
        invariant DropStale(times, now, cfg.window) == DropStale(old(times), now, cfg.window)
        decreases |times|
      {
        times := times[1..];
      }
      if |times| >= cfg.maxAttempts {
        return false;
      }
      times := times + [now];
      return true;
    }
  }

  /** The deque and every reading ever admitted, in admission order. */
  datatype Attempts = Attempts(deque: seq<real>, admitted: seq<real>)

  function Attempt(a: Attempts, now: real, window: int, maxAttempts: int): Attempts {
    var kept := DropStale(a.deque, now, window);
    if |kept| < maxAttempts then Attempts(kept + [now], a.admitted + [now])
    else Attempts(kept, a.admitted)
  }

  function AttemptAll(nows: seq<real>, window: int, maxAttempts: int): Attempts {
    if nows == [] then Attempts([], [])
    else Attempt(AttemptAll(nows[..|nows| - 1], window, maxAttempts), nows[|nows| - 1], window, maxAttempts)
  }

  /** The latest reading admitted up to index `i`. */
  function Latest(admitted: seq<real>, i: nat): real
    requires i < |admitted|
  {
    if i == 0 then admitted[0] else MaxReal(Latest(admitted, i - 1), admitted[i])
  }

  lemma {:induction false} LatestBounds(admitted: seq<real>, i: nat, j: nat)
    requires j <= i < |admitted|
    ensures admitted[j] <= Latest(admitted, i)
  {
    if j < i {
      LatestBounds(admitted, i - 1, j);
    }
  }

  lemma {:induction false} LatestIsOne(admitted: seq<real>, i: nat) returns (j: nat)
    requires i < |admitted|
    ensures j <= i && admitted[j] == Latest(admitted, i)
  {
    if i == 0 || Latest(admitted, i - 1) < admitted[i] {
      j := i;
    } else {
      j := LatestIsOne(admitted, i - 1);
    }
  }

  lemma {:induction false} LatestPrefix(a: seq<real>, b: seq<real>, i: nat)
    requires i < |a|
    ensures Latest(a + b, i) == Latest(a, i)
  {
    if i > 0 {
      LatestPrefix(a, b, i - 1);
    }
  }

  /** The deque is a suffix of the admitted readings; what fell off is a window behind the latest. */
  ghost predicate Windowed(a: Attempts, window: int, maxAttempts: int) {
    && |a.deque| <= |a.admitted|
    && a.deque == a.admitted[|a.admitted| - |a.deque|..]
    && |a.deque| <= MaxInt(maxAttempts, 0)
    && (forall i :: 0 <= i < |a.admitted| - |a.deque| ==>
          a.admitted[i] + window as real < Latest(a.admitted, |a.admitted| - 1))
  }

  lemma {:induction false} DropStaleSuffix(times: seq<real>, now: real, window: int)
    ensures var kept := DropStale(times, now, window);
            && |kept| <= |times|
            && kept == times[|times| - |kept|..]
            && (forall i :: 0 <= i < |times| - |kept| ==> now - times[i] > window as real)
            && (kept != [] ==> now - kept[0] <= window as real)
  {
    if times != [] && now - times[0] > window as real {
      DropStaleSuffix(times[1..], now, window);
    }
  }

  lemma {:induction false} PopKeepsWindow(a: Attempts, kept: seq<real>, now: real, window: int, maxAttempts: int)
    requires Windowed(a, window, maxAttempts) && kept == DropStale(a.deque, now, window)
    ensures |kept| <= |a.admitted| && kept == a.admitted[|a.admitted| - |kept|..]
    ensures kept != [] ==> now - window as real <= kept[0]
    ensures forall i :: 0 <= i < |a.admitted| - |kept| ==>
              a.admitted[i] + window as real < MaxReal(now, Latest(a.admitted, |a.admitted| - 1))
  {
    DropStaleSuffix(a.deque, now, window);
    var first := |a.admitted| - |a.deque|;
    forall i | 0 <= i < |a.admitted| - |kept|
      ensures a.admitted[i] + window as real < MaxReal(now, Latest(a.admitted, |a.admitted| - 1))
    {
      if first <= i {
        assert a.admitted[i] == a.deque[i - first];
      }
    }
  }

  lemma {:induction false} LatestAppend(admitted: seq<real>, now: real)
    ensures Latest(admitted + [now], |admitted|) ==
              if admitted == [] then now else MaxReal(Latest(admitted, |admitted| - 1), now)
  {
    if admitted != [] {
      LatestPrefix(admitted, [now], |admitted| - 1);
    }
  }

  lemma {:induction false} AdmitKeepsWindow(admitted: seq<real>, kept: seq<real>, now: real, window: int,
                                            maxAttempts: int)
    requires |kept| <= |admitted| && kept == admitted[|admitted| - |kept|..] && |kept| < maxAttempts
    requires forall i :: 0 <= i < |admitted| - |kept| ==>
               admitted[i] + window as real < MaxReal(now, Latest(admitted, |admitted| - 1))
    ensures Windowed(Attempts(kept + [now], admitted + [now]), window, maxAttempts)
  {
    LatestAppend(admitted, now);
    assert (admitted + [now])[|admitted| - |kept|..] == kept + [now];
  }

  lemma {:induction false} AttemptKeepsWindow(a: Attempts, now: real, window: int, maxAttempts: int)
    requires Windowed(a, window, maxAttempts)
    ensures Windowed(Attempt(a, now, window, maxAttempts), window, maxAttempts)
  {
    var kept := DropStale(a.deque, now, window);
    if |kept| < maxAttempts {
      PopKeepsWindow(a, kept, now, window, maxAttempts);
      AdmitKeepsWindow(a.admitted, kept, now, window, maxAttempts);
    } else {
      DropStaleSuffix(a.deque, now, window);
      assert |kept| == |a.deque|;
    }
  }

  lemma {:induction false} AttemptsWindowed(nows: seq<real>, window: int, maxAttempts: int)
    ensures Windowed(AttemptAll(nows, window, maxAttempts), window, maxAttempts)
  {
    if nows != [] {
      AttemptsWindowed(nows[..|nows| - 1], window, maxAttempts);
      AttemptKeepsWindow(AttemptAll(nows[..|nows| - 1], window, maxAttempts), nows[|nows| - 1], window, maxAttempts);
    }
  }

  /** Whatever the order of the readings: an attempt and the one `maxAttempts` before it are
      more than a window apart, each dated by the latest reading admitted so far. */
  lemma {:induction false} AttemptsSpaced(nows: seq<real>, window: int, maxAttempts: int, i: nat, n: nat)
    requires i < n < |AttemptAll(nows, window, maxAttempts).admitted| && n - i >= maxAttempts
    ensures var admitted := AttemptAll(nows, window, maxAttempts).admitted;
            Latest(admitted, i) + window as real < Latest(admitted, n)
  {
    var front := nows[..|nows| - 1];
    var a := AttemptAll(front, window, maxAttempts);
    var now := nows[|nows| - 1];
    var a' := AttemptAll(nows, window, maxAttempts);
    if n < |a.admitted| {
      AttemptsSpaced(front, window, maxAttempts, i, n);
      LatestPrefix(a.admitted, [now], i);
      LatestPrefix(a.admitted, [now], n);
    } else {
      AttemptsWindowed(nows, window, maxAttempts);
      var j := LatestIsOne(a'.admitted, i);
    }
  }

  function AdmittedIn(admitted: seq<real>, from: real, to: real): set<nat> {
    set i: nat | i < |admitted| && from <= Latest(admitted, i) <= to
  }

  /** So at most `maxAttempts` admitted fetches fall in any closed window. */
  lemma {:induction false} AttemptsInWindow(nows: seq<real>, window: int, maxAttempts: nat, from: real)
    ensures |AdmittedIn(AttemptAll(nows, window, maxAttempts).admitted, from, from + window as real)| <= maxAttempts
  {
    var admitted := AttemptAll(nows, window, maxAttempts).admitted;
    var hits := AdmittedIn(admitted, from, from + window as real);
    forall i, n | i in hits && n in hits ensures n - i < maxAttempts {
      SpanWithin(nows, window, maxAttempts, i, n);
    }
    SpanCount(hits, maxAttempts);
  }

  /** Numbers that lie less than `most` apart are at most that many. */
  lemma {:induction false} SpanCount(hits: set<nat>, most: nat)
    requires forall i, n :: i in hits && n in hits ==> n - i < most
    ensures |hits| <= most
  {
    if hits != {} {
      var n := Last(hits);
      var first := if n + 1 < most then 0 else n + 1 - most;
      var span := Below(n + 1) - Below(first);
      SubsetCardinality(hits, span);
      assert Below(n + 1) == span + Below(first) && |Below(n + 1)| == |span| + |Below(first)|;
    }
  }

  lemma {:induction false} SpanWithin(nows: seq<real>, window: int, maxAttempts: nat, i: nat, n: nat)
    requires i < |AttemptAll(nows, window, maxAttempts).admitted| &&
        n < |AttemptAll(nows, window, maxAttempts).admitted|
    requires var admitted := AttemptAll(nows, window, maxAttempts).admitted;
             Latest(admitted, n) <= Latest(admitted, i) + window as real
    ensures n - i < maxAttempts
  {
    if maxAttempts == 0 {
      NoneAdmitted(nows, window);
    } else if n - i >= maxAttempts {
      AttemptsSpaced(nows, window, maxAttempts, i, n);
    }
  }

  lemma {:induction false} NoneAdmitted(nows: seq<real>, window: int)
    ensures AttemptAll(nows, window, 0).admitted == []
  {
    if nows != [] {
      NoneAdmitted(nows[..|nows| - 1], window);
    }
  }

  lemma {:induction false} Last(s: set<nat>) returns (n: nat)
    requires s != {}
    ensures n in s && forall i :: i in s ==> i <= n
  {
    var x :| x in s;
    n := x;
    var rest := s - {x};
    assert s == rest + {x};
    if rest != {} {
      var m := Last(rest);
      n := if x < m then m else x;
    }
  }

  ghost predicate Ordered(nows: seq<real>) {
    forall i, j :: 0 <= i < j < |nows| ==> nows[i] <= nows[j]
  }

  /** Readings in order are dated by themselves, so the bound is on the readings. */
  lemma {:induction false} OrderedLatest(admitted: seq<real>, i: nat)
    requires Ordered(admitted) && i < |admitted|
    ensures Latest(admitted, i) == admitted[i]
  {
    var j := LatestIsOne(admitted, i);
    LatestBounds(admitted, i, i);
  }

  lemma {:induction false} AdmittedOrdered(nows: seq<real>, window: int, maxAttempts: int)
    requires Ordered(nows)
    ensures var admitted := AttemptAll(nows, window, maxAttempts).admitted;
            Ordered(admitted) && (admitted != [] ==> nows != [] && admitted[|admitted| - 1] <= nows[|nows| - 1])
  {
    if nows != [] {
      AdmittedOrdered(nows[..|nows| - 1], window, maxAttempts);
    }
  }

  function Since(admitted: seq<real>, from: real): set<nat> {
    set i: nat | i < |admitted| && from <= admitted[i]
  }

  /** Readings in order are answered as a log of every admitted attempt would answer them. */
  lemma {:induction false} OrderedLikeFullLog(nows: seq<real>, now: real, window: int, maxAttempts: int)
    requires Ordered(nows + [now]) && window >= 0
    ensures var a := AttemptAll(nows, window, maxAttempts);
            |DropStale(a.deque, now, window)| == |Since(a.admitted, now - window as real)|
  {
    OrderedFront(nows, now);
    AdmittedOrdered(nows, window, maxAttempts);
    AttemptsWindowed(nows, window, maxAttempts);
    KeptCount(AttemptAll(nows, window, maxAttempts), now, window, maxAttempts);
  }

  lemma {:induction false} KeptCount(a: Attempts, now: real, window: int, maxAttempts: int)
    requires Windowed(a, window, maxAttempts) && Ordered(a.admitted)
    requires a.admitted != [] ==> a.admitted[|a.admitted| - 1] <= now
    ensures |DropStale(a.deque, now, window)| == |Since(a.admitted, now - window as real)|
  {
    var first := FirstKept(a, now, window, maxAttempts);
    PoppedCount(a.admitted, first, now, window as real);
  }

  /** The first `first` readings are a window behind, and the next one is not. */
  ghost predicate PoppedAt(admitted: seq<real>, first: nat, now: real, span: real) {
    && first <= |admitted|
    && (first < |admitted| ==> now - span <= admitted[first])
    && forall i :: 0 <= i < first ==> admitted[i] + span < MaxReal(now, Latest(admitted, |admitted| - 1))
  }

  /** Where in the admitted readings the deque begins once it is popped. */
  lemma {:induction false} FirstKept(a: Attempts, now: real, window: int, maxAttempts: int) returns (first: nat)
    requires Windowed(a, window, maxAttempts)
    ensures first + |DropStale(a.deque, now, window)| == |a.admitted|
    ensures PoppedAt(a.admitted, first, now, window as real)
  {
    var kept := DropStale(a.deque, now, window);
    PopKeepsWindow(a, kept, now, window, maxAttempts);
    first := |a.admitted| - |kept|;
  }

  lemma {:induction false} PoppedCount(admitted: seq<real>, first: nat, now: real, span: real)
    requires Ordered(admitted) && PoppedAt(admitted, first, now, span)
    requires admitted != [] ==> admitted[|admitted| - 1] <= now
    ensures |Since(admitted, now - span)| == |admitted| - first
  {
    if admitted != [] {
      OrderedLatest(admitted, |admitted| - 1);
    }
    RecentCount(admitted, first, now - span);
  }

  lemma {:induction false} OrderedFront(nows: seq<real>, now: real)
    requires Ordered(nows + [now])
    ensures Ordered(nows)
    ensures nows != [] ==> nows[|nows| - 1] <= now
  {
    forall i, j | 0 <= i < j < |nows| ensures nows[i] <= nows[j] {
      assert (nows + [now])[i] <= (nows + [now])[j];
    }
    assert nows != [] ==> (nows + [now])[|nows| - 1] <= (nows + [now])[|nows|];
  }

  lemma {:induction false} RecentCount(admitted: seq<real>, first: nat, from: real)
    requires first <= |admitted|
    requires forall i :: 0 <= i < first ==> admitted[i] < from
    requires forall i :: first <= i < |admitted| ==> from <= admitted[i]
    ensures |Since(admitted, from)| == |admitted| - first
  {
    assert Since(admitted, from) == Below(|admitted|) - Below(first);
    assert Below(|admitted|) == Since(admitted, from) + Below(first);
  }

  lemma {:induction false} AttemptLast(front: seq<real>, now: real, window: int, maxAttempts: int)
    ensures AttemptAll(front + [now], window, maxAttempts)
         == Attempt(AttemptAll(front, window, maxAttempts), now, window, maxAttempts)
  {
    assert (front + [now])[..|front + [now]| - 1] == front;
  }

  lemma {:induction false} NothingStale(times: seq<real>, now: real, window: int)
    requires times != [] ==> now - times[0] <= window as real
    ensures DropStale(times, now, window) == times
  {
  }

  // ----- readings out of order ---------------------------------------------------------

  /** No reading is more than `skew` behind one that reached the lock before it. */
  ghost predicate Skewed(nows: seq<real>, skew: real) {
    forall i, j :: 0 <= i < j < |nows| ==> nows[i] <= nows[j] + skew
  }

  /** Admitted attempts dated by their own readings. */
  function OwnIn(admitted: seq<real>, from: real, to: real): set<nat> {
    set i: nat | i < |admitted| && from <= admitted[i] <= to
  }

  lemma {:induction false} AdmittedWereRead(nows: seq<real>, window: int, maxAttempts: int)
    ensures forall x :: x in AttemptAll(nows, window, maxAttempts).admitted ==> x in nows
  {
    if nows != [] {
      AdmittedWereRead(nows[..|nows| - 1], window, maxAttempts);
    }
  }

  lemma {:induction false} AdmittedSkewed(nows: seq<real>, window: int, maxAttempts: int, skew: real)
    requires Skewed(nows, skew)
    ensures Skewed(AttemptAll(nows, window, maxAttempts).admitted, skew)
  {
    if nows != [] {
      var front := nows[..|nows| - 1];
      AdmittedSkewed(front, window, maxAttempts, skew);
      AdmittedWereRead(front, window, maxAttempts);
      var admitted := AttemptAll(front, window, maxAttempts).admitted;
      forall i | 0 <= i < |admitted| ensures admitted[i] <= nows[|nows| - 1] + skew {
        assert admitted[i] in admitted;
        var j :| 0 <= j < |front| && front[j] == admitted[i];
        assert nows[j] <= nows[|nows| - 1] + skew;
      }
    }
  }

  lemma {:induction false} SkewedLatest(admitted: seq<real>, skew: real, i: nat)
    requires Skewed(admitted, skew) && skew >= 0.0 && i < |admitted|
    ensures admitted[i] <= Latest(admitted, i) <= admitted[i] + skew
  {
    LatestBounds(admitted, i, i);
    var j := LatestIsOne(admitted, i);
  }

  /** A window loses at most the skew: that much shorter, it holds at most the limit of readings. */
  lemma {:induction false} SkewedBound(nows: seq<real>, window: int, maxAttempts: nat, skew: real, from: real,
                                       length: real)
    requires Skewed(nows, skew) && skew >= 0.0 && length <= window as real - skew
    ensures Bounded(nows, window, maxAttempts, from, length)
  {
    var admitted := AttemptAll(nows, window, maxAttempts).admitted;
    var hits := OwnIn(admitted, from, from + length);
    AdmittedSkewed(nows, window, maxAttempts, skew);
    forall i, n | i in hits && n in hits ensures n - i < maxAttempts {
      SkewedLatest(admitted, skew, i);
      SkewedLatest(admitted, skew, n);
      SpanWithin(nows, window, maxAttempts, i, n);
    }
    SpanCount(hits, maxAttempts);
  }

  ghost predicate Bounded(nows: seq<real>, window: int, maxAttempts: nat, from: real, length: real) {
    |OwnIn(AttemptAll(nows, window, maxAttempts).admitted, from, from + length)| <= maxAttempts
  }

  /** With a limit of one, the order of readings does not matter: an admitted one is the latest. */
  lemma {:induction false} SoleOrdered(nows: seq<real>, window: nat)
    ensures Sole(AttemptAll(nows, window, 1))
  {
    if nows != [] {
      SoleOrdered(nows[..|nows| - 1], window);
      SoleStep(AttemptAll(nows[..|nows| - 1], window, 1), nows[|nows| - 1], window);
    }
  }

  ghost predicate Sole(a: Attempts) {
    Ordered(a.admitted) && a.deque == if a.admitted == [] then [] else [a.admitted[|a.admitted| - 1]]
  }

  lemma {:induction false} SoleStep(a: Attempts, now: real, window: nat)
    requires Sole(a)
    ensures Sole(Attempt(a, now, window, 1))
  {
    if a.admitted != [] {
      var last := a.admitted[|a.admitted| - 1];
      if now - last > window as real {
        assert DropStale([last][1..], now, window) == [];
        assert forall i :: 0 <= i < |a.admitted| ==> a.admitted[i] <= last;
      }
    }
  }

  lemma {:induction false} SoleBound(nows: seq<real>, window: nat, from: real, length: real)
    requires length <= window as real
    ensures Bounded(nows, window, 1, from, length)
  {
    var admitted := AttemptAll(nows, window, 1).admitted;
    var hits := OwnIn(admitted, from, from + length);
    SoleOrdered(nows, window);
    forall i, n | i in hits && n in hits ensures n < i + 1 {
      OrderedLatest(admitted, i);
      OrderedLatest(admitted, n);
      SpanWithin(nows, window, 1, i, n);
    }
    SpanCount(hits, 1);
  }

  // A limit of attempts at 0, one late enough to push them all out, and one that was read
  // `skew` earlier but reaches the lock last.

  function Zeros(n: nat): seq<real> {
    seq(n, _ => 0.0)
  }

  lemma {:induction false} ZerosAdmitted(n: nat, window: nat, maxAttempts: nat)
    requires n <= maxAttempts
    ensures AttemptAll(Zeros(n), window, maxAttempts) == Attempts(Zeros(n), Zeros(n))
  {
    if n > 0 {
      assert Zeros(n) == Zeros(n - 1) + [0.0];
      ZerosAdmitted(n - 1, window, maxAttempts);
      AttemptLast(Zeros(n - 1), 0.0, window, maxAttempts);
      NothingStale(Zeros(n - 1), 0.0, window);
    }
  }

  lemma {:induction false} ZerosStale(n: nat, now: real, window: nat)
    requires now > window as real
    ensures DropStale(Zeros(n), now, window) == []
  {
    if n > 0 {
      assert Zeros(n)[1..] == Zeros(n - 1);
      ZerosStale(n - 1, now, window);
    }
  }

  lemma {:induction false} OnlyLast(n: nat, last: real, window: nat, maxAttempts: nat)
    requires 1 <= n <= maxAttempts && last > window as real
    ensures AttemptAll(Zeros(n) + [last], window, maxAttempts) == Attempts([last], Zeros(n) + [last])
  {
    ZerosAdmitted(n, window, maxAttempts);
    AttemptLast(Zeros(n), last, window, maxAttempts);
    ZerosStale(n, last, window);
  }

  lemma {:induction false} LateReading(window: nat, maxAttempts: nat, late: real, length: real)
    requires maxAttempts >= 2 && late > window as real && length <= late
    ensures var nows := Zeros(maxAttempts) + [late] + [length];
            AttemptAll(nows, window, maxAttempts).admitted == nows
  {
    OnlyLast(maxAttempts, late, window, maxAttempts);
    AttemptLast(Zeros(maxAttempts) + [late], length, window, maxAttempts);
    NothingStale([late], length, window);
  }

  lemma {:induction false} OneTooMany(window: nat, maxAttempts: nat, skew: real, length: real) returns (nows: seq<real>)
    requires maxAttempts >= 1 && skew >= 0.0 && length >= 0.0
    requires length > if maxAttempts == 1 then window as real else window as real - skew
    ensures Skewed(nows, skew) && !Bounded(nows, window, maxAttempts, 0.0, length)
  {
    if maxAttempts == 1 {
      nows := Zeros(1) + [length];
      OnlyLast(1, length, window, 1);
      AllHits(1, [], length);
      assert Zeros(1) + [] == Zeros(1);
    } else {
      nows := Zeros(maxAttempts) + [length + skew] + [length];
      LateReading(window, maxAttempts, length + skew, length);
      LateSkewed(maxAttempts, length, skew);
      AllHits(maxAttempts, [length + skew], length);
    }
  }

  lemma {:induction false} LateSkewed(n: nat, length: real, skew: real)
    requires length >= 0.0 && skew >= 0.0
    ensures Skewed(Zeros(n) + [length + skew] + [length], skew)
  {
  }

  lemma {:induction false} AllHits(most: nat, between: seq<real>, length: real)
    requires 0.0 <= length
    ensures |OwnIn(Zeros(most) + between + [length], 0.0, length)| > most
  {
    var admitted := Zeros(most) + between + [length];
    var hits := Below(most) + {|admitted| - 1};
    SubsetCardinality(hits, OwnIn(admitted, 0.0, length));
  }

  /** Exactly how much of the window is left when readings can reach the lock out of order. */
  lemma {:induction false} SkewedBoundIff(window: nat, maxAttempts: nat, skew: real, length: real)
    requires maxAttempts >= 1 && skew >= 0.0 && length >= 0.0
    ensures (forall nows, from :: Skewed(nows, skew) ==> Bounded(nows, window, maxAttempts, from, length))
            <==> length <= if maxAttempts == 1 then window as real else window as real - skew
  {
    if length > if maxAttempts == 1 then window as real else window as real - skew {
      var nows := OneTooMany(window, maxAttempts, skew, length);
      assert !Bounded(nows, window, maxAttempts, 0.0, length);
    } else {
      forall nows, from | Skewed(nows, skew) ensures Bounded(nows, window, maxAttempts, from, length) {
        if maxAttempts == 1 {
          SoleBound(nows, window, from, length);
        } else {
          SkewedBound(nows, window, maxAttempts, skew, from, length);
        }
      }
    }
  }
}
