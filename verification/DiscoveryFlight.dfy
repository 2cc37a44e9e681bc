/**
 * Single-flight OIDC discovery: concurrent calls for one issuer share one
 * outbound fetch. The shared state is a class whose methods are the
 * lock-protected regions; the calls interleave as steps of a state machine
 * over the same relations.
 */
module DiscoveryFlight {
  import opened Prelude
  import opened DiscoveryCache

  /** One invocation. A call creates at most one flight, so it also names that flight. */
  type Call = nat

  datatype AuthError = AuthError(status: int, detail: string)

  const UNAVAILABLE := AuthError(503, "Unable to fetch OIDC discovery document")
  const MISMATCH := AuthError(403, "Discovery document issuer mismatch")
  const NO_URI := AuthError(503, "Discovery document has no jwks_uri")

  /** How a call ends. `Crashed` is an exception other than AuthError. */
  datatype Outcome = Uri(uri: string) | Raised(error: AuthError) | Crashed

  datatype Flight = Flight(done: bool, uri: Option<string>, error: Option<AuthError>)

  const NEW_FLIGHT := Flight(false, None, None)

  /** What the outbound fetch gives back; a document without jwks_uri has the empty one,
      and `NotAnObject` is JSON that has no fields to look up. */
  datatype Fetched =
    | Failed(unreachable: bool)
    | Document(issuerMatches: bool, jwksUri: string)
    | NotAnObject

  datatype Verdict = Suppressed | Leads | Refused | Waits

  datatype Shared = Shared(cache: Cache, attempts: seq<real>, inflight: map<Issuer, Call>, waiters: int)

  // ----- the lock-protected regions ------------------------------------------

  /** Prune, then the negative cache, then claim, refuse or park: one region. */
  ghost predicate Entered(cfg: Config, s: Shared, now: real, issuer: Issuer, call: Call, s': Shared, v: Verdict) {
    && Pruned(cfg, s.cache, now, s'.cache)
    && s'.attempts == s.attempts
    && v == (if issuer in s'.cache.failures && !Stale(cfg, s'.cache, now, issuer) then Suppressed
             else if issuer !in s.inflight then Leads
             else if s.waiters >= cfg.maxWaiters then Refused
             else Waits)
    && s'.inflight == (if v.Leads? then s.inflight[issuer := call] else s.inflight)
    && s'.waiters == (if v.Waits? then s.waiters + 1 else s.waiters)
  }

  function RecordIn(c: Cache, issuer: Issuer, now: real, unreachable: bool): Cache {
    Cache(c.failures[issuer := now], if unreachable then c.unreachable + {issuer} else c.unreachable - {issuer})
  }

  class Discovery {
    const cfg: Config
    const cache: FailureCache
    const window: AttemptWindow
    var inflight: map<Issuer, Call>
    var waiters: int

    function State(): Shared
      reads this, cache, window
    {
      Shared(cache.State(), window.times, inflight, waiters)
    }

    constructor (cfg: Config)
      ensures this.cfg == cfg && fresh(cache) && fresh(window)
      ensures State() == Shared(Cache(map[], {}), [], map[], 0)
    {
      this.cfg := cfg;
      cache := new FailureCache();
      window := new AttemptWindow();
      inflight, waiters := map[], 0;
    }

    method Enter(now: real, issuer: Issuer, call: Call) returns (v: Verdict)
      modifies this, cache
      ensures Entered(cfg, old(State()), now, issuer, call, State(), v)
    {
      cache.Prune(cfg, now);
      if issuer in cache.failures && !Stale(cfg, cache.State(), now, issuer) {
        return Suppressed;
      }
      if issuer !in inflight {
        inflight := inflight[issuer := call];
        return Leads;
      }
      if waiters >= cfg.maxWaiters {
        return Refused;
      }
      waiters := waiters + 1;
      return Waits;
    }

    method Record(issuer: Issuer, now: real, unreachable: bool)
      modifies cache
      ensures State() == old(State()).(cache := RecordIn(old(State()).cache, issuer, now, unreachable))
    {
      cache.failures := cache.failures[issuer := now];
      if unreachable {
        cache.unreachable := cache.unreachable + {issuer};
      } else {
        cache.unreachable := cache.unreachable - {issuer};
      }
    }

    method Pop(issuer: Issuer)
      modifies this
      ensures State() == old(State()).(inflight := old(inflight) - {issuer})
    {
      inflight := inflight - {issuer};
    }

    method Unpark()
      modifies this
      ensures State() == old(State()).(waiters := old(waiters) - 1)
    {
      waiters := waiters - 1;
    }

    method SpendAttempt(now: real) returns (admitted: bool)
      modifies window
      ensures admitted == Admits(cfg, old(State()), now)
      ensures State() == old(State()).(attempts := Spend(cfg, old(State()), now))
    {
      admitted := window.Check(now, cfg);
    }
  }

  predicate Admits(cfg: Config, s: Shared, now: real) {
    |DropStale(s.attempts, now, cfg.window)| < cfg.maxAttempts
  }

  function Spend(cfg: Config, s: Shared, now: real): seq<real> {
    DropStale(s.attempts, now, cfg.window) + if Admits(cfg, s, now) then [now] else []
  }

  // ----- calls, interleaved ---------------------------------------------------

  datatype Role = Leader | Follower(flight: Call, finished: bool) | TurnedAway

  /** Where a call stands; `now` is the clock as it read it before taking the lock. */
  datatype Pc =
    | Arrived(now: real)
    | Leading(now: real)
    | Fetching(now: real)
    | Failing(now: real, unreachable: bool)
    | Closing(result: Outcome)
    | Signalling(result: Outcome)
    | Waiting(flight: Call)
    | Woken(flight: Call, finished: bool)
    | Leaving(flight: Call, finished: bool)
    | Returned(role: Role, result: Outcome)

  datatype Thread = Thread(issuer: Issuer, pc: Pc)

  /** The last failure recorded for an issuer, and whether capacity has since evicted it. */
  datatype Memory = Memory(at: real, ttl: real, evicted: bool)

  datatype Sys = Sys(
    clock: real,
    sh: Shared,
    flights: map<Call, Flight>,
    calls: map<Call, Thread>,
    memory: map<Issuer, Memory>)

  const INITIAL := Sys(0.0, Shared(Cache(map[], {}), [], map[], 0), map[], map[], map[])

  datatype Action =
    | Tick(elapsed: real)
    | Arrive(call: Call, issuer: Issuer)
    | Enter(call: Call, verdict: Verdict)
    | RateCheck(call: Call)
    | Fetch(call: Call, fetched: Fetched)
    | Record(call: Call)
    | Pop(call: Call)
    | Signal(call: Call)
    | Wake(call: Call, finished: bool)
    | Unpark(call: Call)
    | Finish(call: Call)

  function At(s: Sys, c: Call, pc: Pc): Sys
    requires c in s.calls
  {
    s.(calls := s.calls[c := Thread(s.calls[c].issuer, pc)])
  }

  function Fill(s: Sys, c: Call, uri: Option<string>, error: Option<AuthError>): Sys {
    s.(flights := s.flights[c := Flight(false, uri, error)])
  }

  function AfterVerdict(c: Call, now: real, v: Verdict, leader: Option<Call>): Pc {
    match v
    case Leads => Leading(now)
    case Waits => if leader.Some? then Waiting(leader.value) else Arrived(now)
    case _ => Returned(TurnedAway, Raised(UNAVAILABLE))
  }

  function Lookup(m: map<Issuer, Call>, i: Issuer): Option<Call> {
    if i in m then Some(m[i]) else None
  }

  function Judge(fetched: Fetched): Outcome
    requires !fetched.Failed?
  {
    match fetched
    case NotAnObject => Crashed
    case Document(ok, uri) => if !ok then Raised(MISMATCH) else if uri == "" then Raised(NO_URI) else Uri(uri)
  }

  function FillWith(s: Sys, c: Call, r: Outcome): Sys {
    match r
    case Uri(u) => Fill(s, c, Some(u), None)
    case Raised(e) => Fill(s, c, None, Some(e))
    case Crashed => s
  }

  /** What a woken call makes of the flight it waited on. */
  function ReadFlight(f: Flight, finished: bool): Outcome {
    if finished && f.uri.Some? && f.uri.value != "" then Uri(f.uri.value)
    else if finished && f.error.Some? then Raised(f.error.value)
    else Raised(UNAVAILABLE)
  }

  /** A prune at `now` may evict live entries; memory notes which. */
  function Evict(cfg: Config, memory: map<Issuer, Memory>, before: Cache, now: real,
                 after: Cache): map<Issuer, Memory> {
    map i | i in memory ::
      if i in Unexpired(cfg, before, now) && i !in after.failures then memory[i].(evicted := true) else memory[i]
  }

  ghost predicate Next(cfg: Config, s: Sys, a: Action, s': Sys) {
    match a
    case Tick(d) => d >= 0.0 && s' == s.(clock := s.clock + d)
    case Arrive(c, i) => c !in s.calls && s' == s.(calls := s.calls[c := Thread(i, Arrived(s.clock))])
    case Enter(c, v) =>
      && c in s.calls && s.calls[c].pc.Arrived?
      && EnterStep(cfg, s, c, v, s')
    case RateCheck(c) =>
      && c in s.calls && s.calls[c].pc.Leading?
      && var now := s.calls[c].pc.now;
         var spent := s.(sh := s.sh.(attempts := Spend(cfg, s.sh, now)));
         s' == if Admits(cfg, s.sh, now) then At(spent, c, Fetching(now))
               else At(FillWith(spent, c, Raised(UNAVAILABLE)), c, Closing(Raised(UNAVAILABLE)))
    case Fetch(c, fetched) =>
      && c in s.calls && s.calls[c].pc.Fetching?
      && s' == if fetched.Failed? then At(s, c, Failing(s.calls[c].pc.now, fetched.unreachable))
               else At(FillWith(s, c, Judge(fetched)), c, Closing(Judge(fetched)))
    case Record(c) =>
      && c in s.calls && s.calls[c].pc.Failing?
      && var Thread(i, pc) := s.calls[c];
         var cache := RecordIn(s.sh.cache, i, pc.now, pc.unreachable);
         s' == At(FillWith(s.(sh := s.sh.(cache := cache),
                              memory := s.memory[i := Memory(pc.now, Ttl(cfg, cache.unreachable, i), false)]),
                           c, Raised(UNAVAILABLE)),
                  c, Closing(Raised(UNAVAILABLE)))
    case Pop(c) =>
      && c in s.calls && s.calls[c].pc.Closing?
      && s' == At(s.(sh := s.sh.(inflight := s.sh.inflight - {s.calls[c].issuer})), c, Signalling(s.calls[c].pc.result))
    case Signal(c) =>
      && c in s.calls && s.calls[c].pc.Signalling? && c in s.flights
      && s' == At(s.(flights := s.flights[c := s.flights[c].(done := true)]), c, Returned(Leader, s.calls[c].pc.result))
    case Wake(c, finished) =>
      && c in s.calls && s.calls[c].pc.Waiting?
      && (finished ==> s.calls[c].pc.flight in s.flights && s.flights[s.calls[c].pc.flight].done)
      && s' == At(s, c, Woken(s.calls[c].pc.flight, finished))
    case Unpark(c) =>
      && c in s.calls && s.calls[c].pc.Woken?
      && s' == At(s.(sh := s.sh.(waiters := s.sh.waiters - 1)), c,
        Leaving(s.calls[c].pc.flight, s.calls[c].pc.finished))
    case Finish(c) =>
      && c in s.calls && s.calls[c].pc.Leaving? && s.calls[c].pc.flight in s.flights
      && var f := s.calls[c].pc.flight;
         var finished := s.calls[c].pc.finished;
         s' == At(s, c, Returned(Follower(f, finished), ReadFlight(s.flights[f], finished)))
  }

  ghost predicate EnterStep(cfg: Config, s: Sys, c: Call, v: Verdict, s': Sys)
    requires c in s.calls && s.calls[c].pc.Arrived?
  {
    var Thread(i, pc) := s.calls[c];
    && Entered(cfg, s.sh, pc.now, i, c, s'.sh, v)
    && s'.clock == s.clock
    && s'.memory == Evict(cfg, s.memory, s.sh.cache, pc.now, s'.sh.cache)
    && s'.flights == (if v.Leads? then s.flights[c := NEW_FLIGHT] else s.flights)
    && s'.calls == s.calls[c := Thread(i, AfterVerdict(c, pc.now, v, Lookup(s.sh.inflight, i)))]
  }

  /** A run is an initial state followed by steps. */
  ghost predicate Run(cfg: Config, states: seq<Sys>, actions: seq<Action>) {
    && |states| == |actions| + 1
    && states[0] == INITIAL
    && forall k :: 0 <= k < |actions| ==> Next(cfg, states[k], actions[k], states[k + 1])
  }

  // ----- claims and waiters ---------------------------------------------------

  predicate InClaim(pc: Pc) {
    pc.Leading? || pc.Fetching? || pc.Failing? || pc.Closing?
  }

  predicate Parked(pc: Pc) {
    pc.Waiting? || pc.Woken?
  }

  function ParkedCalls(calls: map<Call, Thread>): set<Call> {
    set c | c in calls && Parked(calls[c].pc)
  }

  /** Each in-flight entry is the flight of the one call between claim and pop for that issuer. */
  ghost predicate ClaimsHold(s: Sys) {
    && (forall i :: i in s.sh.inflight ==>
          && s.sh.inflight[i] in s.calls
          && InClaim(s.calls[s.sh.inflight[i]].pc) && s.calls[s.sh.inflight[i]].issuer == i)
    && (forall c :: c in s.calls && InClaim(s.calls[c].pc) ==>
          s.calls[c].issuer in s.sh.inflight && s.sh.inflight[s.calls[c].issuer] == c)
  }

  ghost predicate WaitersHold(cfg: Config, s: Sys) {
    s.sh.waiters == |ParkedCalls(s.calls)| <= cfg.maxWaiters
  }

  /** A call moves from `from` to `to`; a newly arrived one has no `from`. */
  ghost predicate Moves(s: Sys, c: Call, from: Option<Pc>, to: Pc, s': Sys) {
    && (from.Some? <==> c in s.calls)
    && (from.Some? ==> s.calls[c].pc == from.value)
    && c in s'.calls && s'.calls == s.calls[c := s'.calls[c]] && s'.calls[c].pc == to
    && (from.Some? ==> s'.calls[c].issuer == s.calls[c].issuer)
  }

  function From(s: Sys, c: Call): Option<Pc> {
    if c in s.calls then Some(s.calls[c].pc) else None
  }

  /** Every step but a tick moves exactly the call it names. */
  lemma {:induction false} StepMoves(cfg: Config, s: Sys, a: Action, s': Sys)
    requires Next(cfg, s, a, s') && !a.Tick?
    ensures a.call in s'.calls && Moves(s, a.call, From(s, a.call), s'.calls[a.call].pc, s')
  {
  }

  predicate WasInClaim(from: Option<Pc>) {
    from.Some? && InClaim(from.value)
  }

  predicate WasParked(from: Option<Pc>) {
    from.Some? && Parked(from.value)
  }

  /** How each step treats the in-flight map and the waiter counter. */
  lemma {:induction false} StepCounters(cfg: Config, s: Sys, a: Action, s': Sys)
    requires Next(cfg, s, a, s') && !a.Tick?
    requires a.call in s'.calls
    ensures !a.Enter? && !a.Pop? ==>
              s'.sh.inflight == s.sh.inflight && (WasInClaim(From(s, a.call)) <==> InClaim(s'.calls[a.call].pc))
    ensures !a.Enter? && !a.Unpark? ==>
              s'.sh.waiters == s.sh.waiters && (WasParked(From(s, a.call)) <==> Parked(s'.calls[a.call].pc))
  {
  }

  lemma {:induction false} ClaimsKept(cfg: Config, s: Sys, a: Action, s': Sys)
    requires ClaimsHold(s) && Next(cfg, s, a, s')
    ensures ClaimsHold(s')
  {
    if a.Tick? {
    } else if a.Enter? {
      ClaimsKeptByEnter(cfg, s, a.call, a.verdict, s');
    } else if a.Pop? {
      ClaimsKeptByPop(cfg, s, a.call, s');
    } else {
      StepMoves(cfg, s, a, s');
      StepCounters(cfg, s, a, s');
      ClaimsFrame(s, a.call, s');
    }
  }

  lemma {:induction false} ClaimsFrame(s: Sys, c: Call, s': Sys)
    requires ClaimsHold(s) && c in s'.calls && Moves(s, c, From(s, c), s'.calls[c].pc, s')
    requires s'.sh.inflight == s.sh.inflight && (WasInClaim(From(s, c)) <==> InClaim(s'.calls[c].pc))
    ensures ClaimsHold(s')
  {
  }

  lemma {:induction false} ClaimsKeptByEnter(cfg: Config, s: Sys, c: Call, v: Verdict, s': Sys)
    requires ClaimsHold(s) && Next(cfg, s, Enter(c, v), s')
    ensures ClaimsHold(s')
  {
    var t := Thread(s.calls[c].issuer, AfterVerdict(c, s.calls[c].pc.now, v, Lookup(s.sh.inflight, s.calls[c].issuer)));
    assert s'.calls == s.calls[c := t];
    if v.Leads? {
      assert InClaim(t.pc);
    } else {
      assert !InClaim(t.pc);
    }
  }

  lemma {:induction false} ClaimsKeptByPop(cfg: Config, s: Sys, c: Call, s': Sys)
    requires ClaimsHold(s) && Next(cfg, s, Pop(c), s')
    ensures ClaimsHold(s')
  {
    forall i | i in s'.sh.inflight ensures s'.sh.inflight[i] != c {
      assert s.calls[s.sh.inflight[i]].issuer == i;
    }
  }

  lemma {:induction false} WaitersKept(cfg: Config, s: Sys, a: Action, s': Sys)
    requires WaitersHold(cfg, s) && Next(cfg, s, a, s')
    ensures WaitersHold(cfg, s')
  {
    if a.Tick? {
      assert s'.calls == s.calls;
    } else {
      StepMoves(cfg, s, a, s');
      StepCounters(cfg, s, a, s');
      ParkedCount(s, a.call, s');
      if a.Enter? {
        EnterParks(cfg, s, a.call, a.verdict, s');
      }
    }
  }

  lemma {:induction false} EnterParks(cfg: Config, s: Sys, c: Call, v: Verdict, s': Sys)
    requires Next(cfg, s, Enter(c, v), s')
    ensures From(s, c).Some? && !Parked(From(s, c).value) && c in s'.calls
    ensures v.Waits? <==> Parked(s'.calls[c].pc)
    ensures s'.sh.waiters == if v.Waits? then s.sh.waiters + 1 else s.sh.waiters
    ensures v.Waits? ==> s.sh.waiters < cfg.maxWaiters
  {
  }

  lemma {:induction false} ParkedCount(s: Sys, c: Call, s': Sys)
    requires c in s'.calls && Moves(s, c, From(s, c), s'.calls[c].pc, s')
    ensures |ParkedCalls(s'.calls)| == |ParkedCalls(s.calls)|
              - (if WasParked(From(s, c)) then 1 else 0) + (if Parked(s'.calls[c].pc) then 1 else 0)
  {
    var before, after := ParkedCalls(s.calls), ParkedCalls(s'.calls);
    assert before - {c} == after - {c};
    CountWithout(before, c);
    CountWithout(after, c);
  }

  lemma {:induction false} CountWithout(calls: set<Call>, c: Call)
    ensures |calls| == |calls - {c}| + if c in calls then 1 else 0
  {
    assert calls == if c in calls then (calls - {c}) + {c} else calls - {c};
  }

  // ----- flights and what followers read --------------------------------------

  /** The call owns a flight: it claimed the issuer when it entered. */
  predicate OwnsFlight(pc: Pc) {
    InClaim(pc) || pc.Signalling? || (pc.Returned? && pc.role.Leader?)
  }

  /** A flight carries an outcome when its fields spell exactly that outcome. */
  predicate Carries(f: Flight, r: Outcome) {
    match r
    case Uri(u) => u != "" && f.uri == Some(u) && f.error == None
    case Raised(e) => f.uri == None && f.error == Some(e)
    case Crashed => f.uri == None && f.error == None
  }

  predicate OwnFlightOk(pc: Pc, f: Flight) {
    match pc
    case Leading(_) => f == NEW_FLIGHT
    case Fetching(_) => f == NEW_FLIGHT
    case Failing(_, _) => f == NEW_FLIGHT
    case Closing(r) => !f.done && Carries(f, r)
    case Signalling(r) => !f.done && Carries(f, r)
    case Returned(role, r) => role.Leader? ==> f.done && Carries(f, r)
    case _ => true
  }

  /** What a follower gets: the leader's outcome, unless it gave up or the leader crashed. */
  function Delivered(leader: Outcome, finished: bool): Outcome {
    if finished && !leader.Crashed? then leader else Raised(UNAVAILABLE)
  }

  predicate Follows(pc: Pc, f: Call, finished: bool) {
    match pc
    case Waiting(g) => g == f && !finished
    case Woken(g, w) => g == f && w == finished
    case Leaving(g, w) => g == f && w == finished
    case Returned(Follower(g, w), _) => g == f && w == finished
    case _ => false
  }

  /** The followed call owned the flight for the same issuer, and a finished wait saw it signalled. */
  ghost predicate FollowerOk(s: Sys, c: Call, f: Call, finished: bool)
    requires c in s.calls
  {
    && f in s.calls && OwnsFlight(s.calls[f].pc) && s.calls[f].issuer == s.calls[c].issuer
    && (finished ==> s.calls[f].pc.Returned?)
    && (s.calls[c].pc.Returned? && finished ==>
          s.calls[c].pc.result == Delivered(s.calls[f].pc.result, true))
    && (s.calls[c].pc.Returned? && !finished ==> s.calls[c].pc.result == Raised(UNAVAILABLE))
  }

  ghost predicate OwnersHold(s: Sys) {
    forall c :: c in s.calls && OwnsFlight(s.calls[c].pc) ==> c in s.flights && OwnFlightOk(s.calls[c].pc, s.flights[c])
  }

  ghost predicate FollowersHold(s: Sys) {
    forall c, f, finished :: c in s.calls && Follows(s.calls[c].pc, f, finished) ==> FollowerOk(s, c, f, finished)
  }

  /** A step touches no flight but that of the call it names, and leaves it in order. */
  lemma {:induction false} StepFlights(cfg: Config, s: Sys, a: Action, s': Sys)
    requires Next(cfg, s, a, s') && !a.Tick? && OwnersHold(s)
    requires a.call in s'.calls
    ensures forall d :: d != a.call ==>
        (d in s'.flights <==> d in s.flights) && (d in s.flights ==> s'.flights[d] == s.flights[d])
    ensures OwnsFlight(s'.calls[a.call].pc) ==>
              a.call in s'.flights && OwnFlightOk(s'.calls[a.call].pc, s'.flights[a.call])
  {
    if a.RateCheck? {
      CheckFlight(cfg, s, a.call, s');
    } else if a.Fetch? {
      FetchFlight(cfg, s, a.call, a.fetched, s');
    } else if a.Record? {
      RecordFlight(cfg, s, a.call, s');
    } else if a.Enter? {
      EnterFlight(cfg, s, a.call, a.verdict, s');
    } else if a.Pop? {
      PopFlight(cfg, s, a.call, s');
    } else if a.Signal? {
      SignalFlight(cfg, s, a.call, s');
    } else {
      QuietFlight(cfg, s, a, s');
    }
  }

  ghost predicate OnlyFlight(s: Sys, c: Call, s': Sys) {
    && (forall d :: d != c ==>
      (d in s'.flights <==> d in s.flights) && (d in s.flights ==> s'.flights[d] == s.flights[d]))
    && c in s'.calls
    && (OwnsFlight(s'.calls[c].pc) ==> c in s'.flights && OwnFlightOk(s'.calls[c].pc, s'.flights[c]))
  }

  lemma {:induction false} CheckFlight(cfg: Config, s: Sys, c: Call, s': Sys)
    requires Next(cfg, s, RateCheck(c), s') && OwnersHold(s)
    ensures OnlyFlight(s, c, s')
  {
  }

  lemma {:induction false} FetchFlight(cfg: Config, s: Sys, c: Call, fetched: Fetched, s': Sys)
    requires Next(cfg, s, Fetch(c, fetched), s') && OwnersHold(s)
    ensures OnlyFlight(s, c, s')
  {
  }

  lemma {:induction false} RecordFlight(cfg: Config, s: Sys, c: Call, s': Sys)
    requires Next(cfg, s, Record(c), s') && OwnersHold(s)
    ensures OnlyFlight(s, c, s')
  {
  }

  lemma {:induction false} EnterFlight(cfg: Config, s: Sys, c: Call, v: Verdict, s': Sys)
    requires Next(cfg, s, Enter(c, v), s')
    ensures OnlyFlight(s, c, s')
  {
  }

  lemma {:induction false} PopFlight(cfg: Config, s: Sys, c: Call, s': Sys)
    requires Next(cfg, s, Pop(c), s') && OwnersHold(s)
    ensures OnlyFlight(s, c, s')
  {
  }

  lemma {:induction false} SignalFlight(cfg: Config, s: Sys, c: Call, s': Sys)
    requires Next(cfg, s, Signal(c), s') && OwnersHold(s)
    ensures OnlyFlight(s, c, s')
  {
  }

  lemma {:induction false} QuietFlight(cfg: Config, s: Sys, a: Action, s': Sys)
    requires Next(cfg, s, a, s') && (a.Arrive? || a.Wake? || a.Unpark? || a.Finish?)
    ensures OnlyFlight(s, a.call, s')
  {
  }

  lemma {:induction false} OwnersKept(cfg: Config, s: Sys, a: Action, s': Sys)
    requires OwnersHold(s) && Next(cfg, s, a, s')
    ensures OwnersHold(s')
  {
    if !a.Tick? {
      StepMoves(cfg, s, a, s');
      StepFlights(cfg, s, a, s');
    }
  }

  /** Owning a flight is for good, and a returned call never moves. */
  lemma {:induction false} StepOwning(cfg: Config, s: Sys, a: Action, s': Sys)
    requires Next(cfg, s, a, s') && !a.Tick?
    requires a.call in s'.calls
    ensures a.call in s.calls ==> !s.calls[a.call].pc.Returned?
    ensures a.call in s.calls && OwnsFlight(s.calls[a.call].pc) ==> OwnsFlight(s'.calls[a.call].pc)
  {
  }

  /** How the moving call can become, or stay, a follower. */
  lemma {:induction false} MoverFollows(cfg: Config, s: Sys, a: Action, s': Sys, f: Call, finished: bool)
    requires Next(cfg, s, a, s') && !a.Tick? && a.call in s'.calls
    requires Follows(s'.calls[a.call].pc, f, finished)
    requires ClaimsHold(s) && OwnersHold(s) && FollowersHold(s)
    ensures f in s.calls && OwnsFlight(s.calls[f].pc) && s.calls[f].issuer == s'.calls[a.call].issuer
    ensures finished ==> s.calls[f].pc.Returned?
    ensures s'.calls[a.call].pc.Returned? ==>
        f in s.flights && s'.calls[a.call].pc.result == ReadFlight(s.flights[f], finished)
  {
    match a
    case Enter(c, v) => assert s.sh.inflight[s.calls[c].issuer] == f;
    case Wake(c, w) => assert Follows(s.calls[c].pc, f, false) && FollowerOk(s, c, f, false);
    case Unpark(c) => assert Follows(s.calls[c].pc, f, finished) && FollowerOk(s, c, f, finished);
    case Finish(c) => assert Follows(s.calls[c].pc, f, finished) && FollowerOk(s, c, f, finished);
    case _ =>
  }

  lemma {:induction false} FollowersKept(cfg: Config, s: Sys, a: Action, s': Sys)
    requires ClaimsHold(s) && OwnersHold(s) && FollowersHold(s) && Next(cfg, s, a, s')
    ensures FollowersHold(s')
  {
    if a.Tick? {
      assert s'.calls == s.calls;
    } else {
      StepMoves(cfg, s, a, s');
      StepOwning(cfg, s, a, s');
      forall c, f, finished | c in s'.calls && Follows(s'.calls[c].pc, f, finished)
        ensures FollowerOk(s', c, f, finished)
      {
        if c == a.call {
          MoverFollows(cfg, s, a, s', f, finished);
          MoverOk(s, a.call, s', f, finished);
        } else {
          BystanderOk(s, a.call, s', c, f, finished);
        }
      }
    }
  }

  /** A call that stood still still follows in order: its flight's owner kept it, or did not move. */
  lemma {:induction false} BystanderOk(s: Sys, moved: Call, s': Sys, c: Call, f: Call, finished: bool)
    requires moved in s'.calls && Moves(s, moved, From(s, moved), s'.calls[moved].pc, s')
    requires moved in s.calls ==> !s.calls[moved].pc.Returned?
    requires moved in s.calls && OwnsFlight(s.calls[moved].pc) ==> OwnsFlight(s'.calls[moved].pc)
    requires c != moved && c in s'.calls && Follows(s'.calls[c].pc, f, finished) && FollowersHold(s)
    ensures FollowerOk(s', c, f, finished)
  {
    assert FollowerOk(s, c, f, finished);
  }

  lemma {:induction false} MoverOk(s: Sys, c: Call, s': Sys, f: Call, finished: bool)
    requires c in s'.calls && Moves(s, c, From(s, c), s'.calls[c].pc, s')
    requires c in s.calls ==> !s.calls[c].pc.Returned?
    requires c in s.calls && OwnsFlight(s.calls[c].pc) ==> OwnsFlight(s'.calls[c].pc)
    requires Follows(s'.calls[c].pc, f, finished) && OwnersHold(s)
    requires f in s.calls && OwnsFlight(s.calls[f].pc) && s.calls[f].issuer == s'.calls[c].issuer
    requires finished ==> s.calls[f].pc.Returned?
    requires s'.calls[c].pc.Returned? ==> f in s.flights && s'.calls[c].pc.result == ReadFlight(s.flights[f], finished)
    ensures FollowerOk(s', c, f, finished)
  {
  }

  // ----- remembered failures ----------------------------------------------------

  /** The recorded failure no longer holds an issuer back. */
  predicate Lapsed(m: Memory, clock: real) {
    m.evicted || clock > m.at + m.ttl
  }

  predicate Attempting(pc: Pc) {
    pc.Leading? || pc.Fetching? || pc.Failing?
  }

  predicate HasReading(pc: Pc) {
    pc.Arrived? || Attempting(pc)
  }

  ghost predicate CacheHolds(cfg: Config, s: Sys) {
    && s.sh.cache.unreachable <= s.sh.cache.failures.Keys
    && (forall i :: i in s.sh.cache.failures ==>
          i in s.memory && s.memory[i] == Memory(s.sh.cache.failures[i], Ttl(cfg, s.sh.cache.unreachable, i), false))
    && (forall i :: i in s.memory && !Lapsed(s.memory[i], s.clock) ==> i in s.sh.cache.failures)
  }

  ghost predicate ReadingsHold(s: Sys) {
    forall c :: c in s.calls && HasReading(s.calls[c].pc) ==> s.calls[c].pc.now <= s.clock
  }

  /** Nobody attempts a fetch for an issuer whose remembered failure still stands. */
  ghost predicate AttemptsHold(s: Sys) {
    forall c :: c in s.calls && Attempting(s.calls[c].pc) && s.calls[c].issuer in s.memory ==>
      Lapsed(s.memory[s.calls[c].issuer], s.clock)
  }

  lemma {:induction false} ReadingsKept(cfg: Config, s: Sys, a: Action, s': Sys)
    requires ReadingsHold(s) && Next(cfg, s, a, s')
    ensures ReadingsHold(s') && s.clock <= s'.clock
  {
  }

  /** Only entering and recording touch the cache and the memory. */
  lemma {:induction false} StepCache(cfg: Config, s: Sys, a: Action, s': Sys)
    requires Next(cfg, s, a, s')
    ensures !a.Enter? && !a.Record? ==> s'.sh.cache == s.sh.cache && s'.memory == s.memory
    ensures !a.Tick? ==> s'.clock == s.clock
    ensures s.clock <= s'.clock
  {
  }

  lemma {:induction false} CacheKeptByEnter(cfg: Config, s: Sys, c: Call, v: Verdict, s': Sys)
    requires CacheHolds(cfg, s) && ReadingsHold(s) && Next(cfg, s, Enter(c, v), s')
    ensures CacheHolds(cfg, s')
    ensures forall i :: i in s'.memory <==> i in s.memory
    ensures forall i :: i in s.memory && Lapsed(s.memory[i], s.clock) ==> Lapsed(s'.memory[i], s.clock)
  {
    var now := s.calls[c].pc.now;
    PruneBounds(cfg, s.sh.cache, now, s'.sh.cache);
    forall i | i in s'.memory && !Lapsed(s'.memory[i], s.clock) ensures i in s'.sh.cache.failures {
      assert i in s.sh.cache.failures;
      assert i in Unexpired(cfg, s.sh.cache, now);
    }
  }

  lemma {:induction false} CacheKeptByRecord(cfg: Config, s: Sys, c: Call, s': Sys)
    requires CacheHolds(cfg, s) && Next(cfg, s, Record(c), s')
    ensures CacheHolds(cfg, s')
    ensures forall i :: i in s'.memory && i != s.calls[c].issuer ==> i in s.memory && s'.memory[i] == s.memory[i]
  {
  }

  lemma {:induction false} CacheKept(cfg: Config, s: Sys, a: Action, s': Sys)
    requires CacheHolds(cfg, s) && ReadingsHold(s) && Next(cfg, s, a, s')
    ensures CacheHolds(cfg, s')
  {
    StepCache(cfg, s, a, s');
    if a.Enter? {
      CacheKeptByEnter(cfg, s, a.call, a.verdict, s');
    } else if a.Record? {
      CacheKeptByRecord(cfg, s, a.call, s');
    }
  }

  /** A call that leads found no entry left for its issuer. */
  lemma {:induction false} LeaderFoundNothing(cfg: Config, s: Sys, c: Call, s': Sys)
    requires CacheHolds(cfg, s) && ReadingsHold(s) && Next(cfg, s, Enter(c, Leads), s')
    ensures s.calls[c].issuer in s'.memory ==> Lapsed(s'.memory[s.calls[c].issuer], s.clock)
  {
    PruneBounds(cfg, s.sh.cache, s.calls[c].pc.now, s'.sh.cache);
    CacheKeptByEnter(cfg, s, c, Leads, s');
  }

  lemma {:induction false} AttemptsKept(cfg: Config, s: Sys, a: Action, s': Sys)
    requires ClaimsHold(s) && AttemptsHold(s) && CacheHolds(cfg, s) && ReadingsHold(s) && Next(cfg, s, a, s')
    ensures AttemptsHold(s')
  {
    StepCache(cfg, s, a, s');
    if a.Tick? {
    } else {
      StepMoves(cfg, s, a, s');
      if a.Enter? {
        AttemptsKeptByEnter(cfg, s, a.call, a.verdict, s');
      } else if a.Record? {
        CacheKeptByRecord(cfg, s, a.call, s');
        assert !Attempting(s'.calls[a.call].pc);
      } else {
        AttemptContinues(cfg, s, a, s');
      }
    }
  }

  lemma {:induction false} AttemptsKeptByEnter(cfg: Config, s: Sys, c: Call, v: Verdict, s': Sys)
    requires AttemptsHold(s) && CacheHolds(cfg, s) && ReadingsHold(s) && Next(cfg, s, Enter(c, v), s')
    ensures AttemptsHold(s')
  {
    CacheKeptByEnter(cfg, s, c, v, s');
    if v.Leads? {
      LeaderFoundNothing(cfg, s, c, s');
    }
  }

  /** Apart from a fresh claim, a call attempting a fetch was already attempting it. */
  lemma {:induction false} AttemptContinues(cfg: Config, s: Sys, a: Action, s': Sys)
    requires Next(cfg, s, a, s') && !a.Tick? && !a.Enter? && a.call in s'.calls
    ensures Attempting(s'.calls[a.call].pc) ==> a.call in s.calls && Attempting(s.calls[a.call].pc)
  {
  }

  // ----- what holds in every interleaving ----------------------------------------

  ghost predicate Inv(cfg: Config, s: Sys) {
    && ClaimsHold(s) && WaitersHold(cfg, s)
    && OwnersHold(s) && FollowersHold(s)
    && CacheHolds(cfg, s) && ReadingsHold(s) && AttemptsHold(s)
  }

  lemma {:induction false} StepKeepsInv(cfg: Config, s: Sys, a: Action, s': Sys)
    requires Inv(cfg, s) && Next(cfg, s, a, s')
    ensures Inv(cfg, s')
  {
    ClaimsKept(cfg, s, a, s');
    WaitersKept(cfg, s, a, s');
    OwnersKept(cfg, s, a, s');
    FollowersKept(cfg, s, a, s');
    CacheKept(cfg, s, a, s');
    ReadingsKept(cfg, s, a, s');
    AttemptsKept(cfg, s, a, s');
  }

  lemma {:induction false} RunInv(cfg: Config, states: seq<Sys>, actions: seq<Action>, k: nat)
    requires Run(cfg, states, actions) && k < |states|
    ensures Inv(cfg, states[k])
  {
    if k == 0 {
      assert ParkedCalls(INITIAL.calls) == {};
    } else {
      RunInv(cfg, states, actions, k - 1);
      StepKeepsInv(cfg, states[k - 1], actions[k - 1], states[k]);
    }
  }

  /** In every interleaving: one call per issuer between claim and pop, owning the in-flight
      entry, and the counter is the number of parked calls, within its bound. */
  lemma {:induction false} SingleFlight(cfg: Config, states: seq<Sys>, actions: seq<Action>, k: nat)
    requires Run(cfg, states, actions) && k < |states|
    ensures var s := states[k];
            && (forall c :: c in s.calls && InClaim(s.calls[c].pc) ==>
                  Lookup(s.sh.inflight, s.calls[c].issuer) == Some(c))
            && (forall c, d :: (c in s.calls && d in s.calls && s.calls[c].issuer == s.calls[d].issuer
                                && InClaim(s.calls[c].pc) && InClaim(s.calls[d].pc)) ==> c == d)
            && 0 <= s.sh.waiters == |ParkedCalls(s.calls)| <= cfg.maxWaiters
  {
    RunInv(cfg, states, actions, k);
  }

  /** Once every call has returned, nothing is in flight and nobody is counted as waiting. */
  lemma {:induction false} QuietWhenReturned(cfg: Config, states: seq<Sys>, actions: seq<Action>, k: nat)
    requires Run(cfg, states, actions) && k < |states|
    requires forall c :: c in states[k].calls ==> states[k].calls[c].pc.Returned?
    ensures states[k].sh.inflight == map[] && states[k].sh.waiters == 0
  {
    RunInv(cfg, states, actions, k);
    var s := states[k];
    assert forall i :: i !in s.sh.inflight;
    assert ParkedCalls(s.calls) == {};
  }

  /** A call that was woken by the signal returns after its leader, with the leader's own outcome
      exactly when the document was not JSON without fields; one that gave up gets the 503. */
  lemma {:induction false} FollowersShare(cfg: Config, states: seq<Sys>, actions: seq<Action>, k: nat,
                                          c: Call, f: Call, finished: bool)
    requires Run(cfg, states, actions) && k < |states|
    requires c in states[k].calls && states[k].calls[c].pc.Returned?
             && states[k].calls[c].pc.role == Follower(f, finished)
    ensures f in states[k].calls && states[k].calls[f].issuer == states[k].calls[c].issuer
    ensures finished ==>
              && states[k].calls[f].pc.Returned? && states[k].calls[f].pc.role.Leader?
              && (states[k].calls[c].pc.result == states[k].calls[f].pc.result
                  <==> Fetch(f, NotAnObject) !in actions[..k])
              && (states[k].calls[f].pc.result.Crashed? <==> Fetch(f, NotAnObject) in actions[..k])
    ensures !finished || states[k].calls[f].pc == Returned(Leader, Crashed) ==>
              states[k].calls[c].pc.result == Raised(UNAVAILABLE)
  {
    RunInv(cfg, states, actions, k);
    assert Follows(states[k].calls[c].pc, f, finished);
    assert FollowerOk(states[k], c, f, finished);
    CrashedIffNoObject(cfg, states, actions, k, f);
  }

  predicate IsCrashed(s: Sys, c: Call) {
    c in s.calls && HasCrashed(s.calls[c].pc)
  }

  predicate HasCrashed(pc: Pc) {
    (pc.Closing? || pc.Signalling? || (pc.Returned? && pc.role.Leader?)) && pc.result.Crashed?
  }

  /** A leader crashes exactly when the document it fetched is JSON but no object. */
  lemma {:induction false} CrashedIffNoObject(cfg: Config, states: seq<Sys>, actions: seq<Action>, k: nat, c: Call)
    requires Run(cfg, states, actions) && k <= |actions|
    ensures IsCrashed(states[k], c) <==> Fetch(c, NotAnObject) in actions[..k]
  {
    if k > 0 {
      CrashedIffNoObject(cfg, states, actions, k - 1, c);
      assert Next(cfg, states[k - 1], actions[k - 1], states[k]);
      assert actions[..k] == actions[..k - 1] + [actions[k - 1]];
      CrashedStep(cfg, states[k - 1], actions[k - 1], states[k], c);
    }
  }

  lemma {:induction false} CrashedStep(cfg: Config, s: Sys, a: Action, s': Sys, c: Call)
    requires Next(cfg, s, a, s')
    ensures IsCrashed(s', c) <==> IsCrashed(s, c) || a == Fetch(c, NotAnObject)
  {
    if !a.Tick? {
      StepMoves(cfg, s, a, s');
      if a.call == c {
        MoverCrashed(cfg, s, a, s');
      }
    }
  }

  lemma {:induction false} MoverCrashed(cfg: Config, s: Sys, a: Action, s': Sys)
    requires Next(cfg, s, a, s') && !a.Tick?
    ensures IsCrashed(s', a.call) <==> IsCrashed(s, a.call) || a == Fetch(a.call, NotAnObject)
  {
    match a
    case Fetch(c, fetched) => FetchCrashes(cfg, s, c, fetched, s');
    case Record(c) => RecordRaises(cfg, s, c, s');
    case RateCheck(c) => CheckRaises(cfg, s, c, s');
    case Enter(c, v) => EnterRuns(cfg, s, c, v, s');
    case Pop(c) => PopPassesOn(cfg, s, c, s');
    case Signal(c) => SignalPassesOn(cfg, s, c, s');
    case _ => FollowerRuns(cfg, s, a, s');
  }

  lemma {:induction false} EnterRuns(cfg: Config, s: Sys, c: Call, v: Verdict, s': Sys)
    requires Next(cfg, s, Enter(c, v), s')
    ensures !IsCrashed(s, c) && !IsCrashed(s', c)
  {
  }

  lemma {:induction false} PopPassesOn(cfg: Config, s: Sys, c: Call, s': Sys)
    requires Next(cfg, s, Pop(c), s')
    ensures IsCrashed(s, c) <==> IsCrashed(s', c)
  {
  }

  lemma {:induction false} SignalPassesOn(cfg: Config, s: Sys, c: Call, s': Sys)
    requires Next(cfg, s, Signal(c), s')
    ensures IsCrashed(s, c) <==> IsCrashed(s', c)
  {
  }

  lemma {:induction false} FollowerRuns(cfg: Config, s: Sys, a: Action, s': Sys)
    requires Next(cfg, s, a, s') && (a.Arrive? || a.Wake? || a.Unpark? || a.Finish?)
    ensures !IsCrashed(s, a.call) && !IsCrashed(s', a.call)
  {
  }

  lemma {:induction false} FetchCrashes(cfg: Config, s: Sys, c: Call, fetched: Fetched, s': Sys)
    requires Next(cfg, s, Fetch(c, fetched), s')
    ensures IsCrashed(s', c) <==> fetched == NotAnObject
    ensures !IsCrashed(s, c)
  {
  }

  lemma {:induction false} RecordRaises(cfg: Config, s: Sys, c: Call, s': Sys)
    requires Next(cfg, s, Record(c), s')
    ensures !IsCrashed(s, c) && !IsCrashed(s', c)
  {
  }

  lemma {:induction false} CheckRaises(cfg: Config, s: Sys, c: Call, s': Sys)
    requires Next(cfg, s, RateCheck(c), s')
    ensures !IsCrashed(s, c) && !IsCrashed(s', c)
  {
  }

  // ----- what a call answers ---------------------------------------------------------

  /** The outcome a leader has settled on. */
  function Settled(s: Sys, c: Call): Option<Outcome> {
    if c in s.calls && HasSettled(s.calls[c].pc) then Some(s.calls[c].pc.result) else None
  }

  predicate HasSettled(pc: Pc) {
    pc.Closing? || pc.Signalling? || (pc.Returned? && pc.role.Leader?)
  }

  /** What a fetched document must lead to: its URI if it has one and names the issuer asked for,
      403 if it names another, 503 if it has no URI, and a crash if it has no fields at all. */
  predicate Fits(fetched: Fetched, r: Outcome) {
    match fetched
    case Document(true, u) => if u == "" then r.Raised? && r.error.status == 503 else r == Uri(u)
    case Document(false, _) => r.Raised? && r.error.status == 403
    case NotAnObject => r == Crashed
    case Failed(_) => false
  }

  lemma {:induction false} FetchSettles(cfg: Config, s: Sys, c: Call, fetched: Fetched, s': Sys)
    requires Next(cfg, s, Fetch(c, fetched), s')
    ensures Settled(s, c).None?
    ensures fetched.Failed? ==> Settled(s', c).None?
    ensures !fetched.Failed? ==> Settled(s', c).Some? && Fits(fetched, Settled(s', c).value)
  {
  }

  lemma {:induction false} CheckSettles(cfg: Config, s: Sys, c: Call, s': Sys)
    requires Next(cfg, s, RateCheck(c), s')
    ensures Settled(s, c).None?
    ensures Settled(s', c).Some? ==> Settled(s', c).value.Raised? && Settled(s', c).value.error.status == 503
  {
  }

  lemma {:induction false} RecordSettles(cfg: Config, s: Sys, c: Call, s': Sys)
    requires Next(cfg, s, Record(c), s')
    ensures Settled(s, c).None?
    ensures Settled(s', c).Some? && Settled(s', c).value.Raised? && Settled(s', c).value.error.status == 503
  {
  }

  lemma {:induction false} ClosingSettles(cfg: Config, s: Sys, a: Action, s': Sys)
    requires Next(cfg, s, a, s') && (a.Pop? || a.Signal?)
    ensures Settled(s', a.call) == Settled(s, a.call)
  {
  }

  lemma {:induction false} EnterSettles(cfg: Config, s: Sys, c: Call, v: Verdict, s': Sys)
    requires Next(cfg, s, Enter(c, v), s')
    ensures Settled(s, c).None? && Settled(s', c).None?
  {
  }

  lemma {:induction false} FollowerSettles(cfg: Config, s: Sys, a: Action, s': Sys)
    requires Next(cfg, s, a, s') && (a.Arrive? || a.Wake? || a.Unpark? || a.Finish?)
    ensures Settled(s, a.call).None? && Settled(s', a.call).None?
  {
  }

  /** A call settles once: by the document it fetched, or on the 503. */
  ghost predicate Explained(past: seq<Action>, c: Call, r: Option<Outcome>) {
    && (forall fetched: Fetched :: Fetch(c, fetched) in past && !fetched.Failed? ==> r.Some? && Fits(fetched, r.value))
    && (r.Some? ==>
          || (exists fetched: Fetched :: Fetch(c, fetched) in past && !fetched.Failed?)
          || (r.value.Raised? && r.value.error.status == 503))
  }

  lemma {:induction false} StepExplained(cfg: Config, s: Sys, a: Action, s': Sys, past: seq<Action>, c: Call)
    requires Next(cfg, s, a, s') && Explained(past, c, Settled(s, c))
    ensures Explained(past + [a], c, Settled(s', c))
  {
    assert forall b :: b in past + [a] <==> b in past || b == a;
    if a.Tick? || a.call != c {
      assert Settled(s', c) == Settled(s, c) by { OthersSettled(cfg, s, a, s', c); }
    } else {
      match a
      case Fetch(_, fetched) => FetchSettles(cfg, s, c, fetched, s');
      case RateCheck(_) => CheckSettles(cfg, s, c, s');
      case Record(_) => RecordSettles(cfg, s, c, s');
      case Enter(_, v) => EnterSettles(cfg, s, c, v, s');
      case Pop(_) => ClosingSettles(cfg, s, a, s');
      case Signal(_) => ClosingSettles(cfg, s, a, s');
      case _ => FollowerSettles(cfg, s, a, s');
    }
  }

  lemma {:induction false} OthersSettled(cfg: Config, s: Sys, a: Action, s': Sys, c: Call)
    requires Next(cfg, s, a, s') && (a.Tick? || a.call != c)
    ensures Settled(s', c) == Settled(s, c)
  {
    if !a.Tick? {
      StepMoves(cfg, s, a, s');
    }
  }

  lemma {:induction false} RunExplained(cfg: Config, states: seq<Sys>, actions: seq<Action>, k: nat, c: Call)
    requires Run(cfg, states, actions) && k <= |actions|
    ensures Explained(actions[..k], c, Settled(states[k], c))
  {
    if k > 0 {
      RunExplained(cfg, states, actions, k - 1, c);
      StepExplained(cfg, states[k - 1], actions[k - 1], states[k], actions[..k - 1], c);
      assert actions[..k] == actions[..k - 1] + [actions[k - 1]];
    }
  }

  ghost predicate FetchedForeign(past: seq<Action>, f: Call) {
    exists u :: Fetch(f, Document(false, u)) in past
  }

  /** What a leader answers: the URI of exactly the document it fetched under its own issuer, the
      403 exactly for a document of another issuer, a crash exactly for one without fields, and a
      503 in every other case. */
  lemma {:induction false} LeaderAnswers(cfg: Config, states: seq<Sys>, actions: seq<Action>, k: nat, f: Call)
    requires Run(cfg, states, actions) && k <= |actions|
    requires f in states[k].calls && states[k].calls[f].pc.Returned? && states[k].calls[f].pc.role.Leader?
    ensures var r := states[k].calls[f].pc.result;
            && (forall u :: r == Uri(u) <==> u != "" && Fetch(f, Document(true, u)) in actions[..k])
            && (r.Raised? && r.error.status == 403 <==> FetchedForeign(actions[..k], f))
            && (r.Crashed? <==> Fetch(f, NotAnObject) in actions[..k])
            && (r.Raised? ==> r.error.status == 403 || r.error.status == 503)
  {
    RunExplained(cfg, states, actions, k, f);
    var r := states[k].calls[f].pc.result;
    assert Settled(states[k], f) == Some(r);
    if fetched: Fetched :| Fetch(f, fetched) in actions[..k] && !fetched.Failed? {
      assert Fits(fetched, r);
    }
  }

  /** A call that never followed or led was turned away with the 503. */
  lemma {:induction false} TurnedAwayAnswer(cfg: Config, states: seq<Sys>, actions: seq<Action>, k: nat, c: Call)
    requires Run(cfg, states, actions) && k <= |actions|
    requires c in states[k].calls && states[k].calls[c].pc.Returned? && states[k].calls[c].pc.role.TurnedAway?
    ensures var r := states[k].calls[c].pc.result;
            r.Raised? && r.error.status == 503
  {
    assert Next(cfg, states[k - 1], actions[k - 1], states[k]);
    if c in states[k - 1].calls && states[k - 1].calls[c].pc.Returned? {
      StepKeepsReturned(cfg, states[k - 1], actions[k - 1], states[k], c);
      TurnedAwayAnswer(cfg, states, actions, k - 1, c);
    } else {
      TurningAway(cfg, states[k - 1], actions[k - 1], states[k], c);
    }
  }

  lemma {:induction false} StepKeepsReturned(cfg: Config, s: Sys, a: Action, s': Sys, c: Call)
    requires Next(cfg, s, a, s') && c in s.calls && s.calls[c].pc.Returned?
    ensures c in s'.calls && s'.calls[c] == s.calls[c]
  {
    if !a.Tick? {
      StepMoves(cfg, s, a, s');
      StepOwning(cfg, s, a, s');
    }
  }

  lemma {:induction false} TurningAway(cfg: Config, s: Sys, a: Action, s': Sys, c: Call)
    requires Next(cfg, s, a, s') && !(c in s.calls && s.calls[c].pc.Returned?)
    requires c in s'.calls && s'.calls[c].pc.Returned? && s'.calls[c].pc.role.TurnedAway?
    ensures var r := s'.calls[c].pc.result;
            r.Raised? && r.error.status == 503
  {
    if !a.Tick? {
      StepMoves(cfg, s, a, s');
    }
  }

  /** Whoever returns a URI got it from a document its leader fetched for the same issuer and that
      names that issuer; whoever raises the 403 had a leader whose document names another. Every
      other error is a 503. */
  lemma {:induction false} AnswerHasSource(cfg: Config, states: seq<Sys>, actions: seq<Action>, k: nat, c: Call)
    returns (f: Call)
    requires Run(cfg, states, actions) && k <= |actions|
    requires c in states[k].calls && states[k].calls[c].pc.Returned?
    ensures f in states[k].calls && states[k].calls[f].issuer == states[k].calls[c].issuer
    ensures var r := states[k].calls[c].pc.result;
            && (r.Uri? ==> r.uri != "" && Fetch(f, Document(true, r.uri)) in actions[..k])
            && (r.Crashed? ==> f == c && Fetch(c, NotAnObject) in actions[..k])
            && (r.Raised? ==> r.error.status == 503 || (r.error.status == 403 && FetchedForeign(actions[..k], f)))
  {
    match states[k].calls[c].pc.role
    case Leader =>
      f := c;
      LeaderAnswers(cfg, states, actions, k, c);
    case TurnedAway =>
      f := c;
      TurnedAwayAnswer(cfg, states, actions, k, c);
    case Follower(leader, finished) =>
      f := leader;
      FollowersShare(cfg, states, actions, k, c, leader, finished);
      if finished {
        LeaderAnswers(cfg, states, actions, k, leader);
      }
  }

  /** No fetch for an issuer starts, or is under way, while its last recorded failure is within
      its lifetime, unless the capacity bound evicted that failure. */
  lemma {:induction false} NoRefetchWithinTtl(cfg: Config, states: seq<Sys>, actions: seq<Action>, k: nat, c: Call)
    requires Run(cfg, states, actions) && k < |states|
    requires c in states[k].calls && Attempting(states[k].calls[c].pc)
    requires states[k].calls[c].issuer in states[k].memory
    requires !states[k].memory[states[k].calls[c].issuer].evicted
    ensures var m := states[k].memory[states[k].calls[c].issuer];
            states[k].clock > m.at + m.ttl
  {
    RunInv(cfg, states, actions, k);
  }

  /** A remembered failure answers every call until its lifetime ends, and no call that read the
      clock after that. */
  lemma {:induction false} SuppressedWithinTtl(cfg: Config, s: Sys, c: Call, v: Verdict, s': Sys)
    requires Inv(cfg, s) && Next(cfg, s, Enter(c, v), s')
    requires s.calls[c].issuer in s.memory
    ensures var m := s'.memory[s.calls[c].issuer];
            && (!Lapsed(m, s.clock) ==> v == Suppressed)
            && (v == Suppressed ==> !m.evicted && s.calls[c].pc.now <= m.at + m.ttl)
  {
    PruneBounds(cfg, s.sh.cache, s.calls[c].pc.now, s'.sh.cache);
    CacheKeptByEnter(cfg, s, c, v, s');
  }

  /** Only a fetch that failed is recorded, with the kind of its failure: a call that the rate limit
      or the document stopped is not remembered against its issuer. */
  lemma {:induction false} FailingFetched(cfg: Config, states: seq<Sys>, actions: seq<Action>, k: nat, c: Call)
    requires Run(cfg, states, actions) && k <= |actions|
    requires c in states[k].calls && states[k].calls[c].pc.Failing?
    ensures Fetch(c, Failed(states[k].calls[c].pc.unreachable)) in actions[..k]
  {
    assert Next(cfg, states[k - 1], actions[k - 1], states[k]);
    assert actions[..k] == actions[..k - 1] + [actions[k - 1]];
    if c in states[k - 1].calls && states[k - 1].calls[c] == states[k].calls[c] {
      FailingFetched(cfg, states, actions, k - 1, c);
    } else {
      StartsFailing(cfg, states[k - 1], actions[k - 1], states[k], c);
    }
  }

  lemma {:induction false} StartsFailing(cfg: Config, s: Sys, a: Action, s': Sys, c: Call)
    requires Next(cfg, s, a, s') && c in s'.calls && s'.calls[c].pc.Failing?
    requires !(c in s.calls && s.calls[c] == s'.calls[c])
    ensures a == Fetch(c, Failed(s'.calls[c].pc.unreachable))
  {
    if !a.Tick? {
      StepMoves(cfg, s, a, s');
    }
  }

  /** A call of this issuer fetched and failed. */
  ghost predicate FailedFor(s: Sys, past: seq<Action>, i: Issuer, c: Call, unreachable: bool) {
    c in s.calls && s.calls[c].issuer == i && Fetch(c, Failed(unreachable)) in past
  }

  /** So an issuer is remembered, and answered from the cache, only after such a failure. */
  lemma {:induction false} RememberedFailed(cfg: Config, states: seq<Sys>, actions: seq<Action>, k: nat, i: Issuer)
    requires Run(cfg, states, actions) && k <= |actions| && i in states[k].memory
    ensures exists c, unreachable :: FailedFor(states[k], actions[..k], i, c, unreachable)
  {
    var s, a, s' := states[k - 1], actions[k - 1], states[k];
    assert Next(cfg, s, a, s');
    assert actions[..k] == actions[..k - 1] + [a];
    if i in s.memory {
      RememberedFailed(cfg, states, actions, k - 1, i);
      var c, unreachable :| FailedFor(s, actions[..k - 1], i, c, unreachable);
      StepKeepsIssuer(cfg, s, a, s', c);
      assert FailedFor(s', actions[..k], i, c, unreachable);
    } else {
      StepRemembers(cfg, s, a, s', i);
      FailingFetched(cfg, states, actions, k - 1, a.call);
      assert FailedFor(s', actions[..k], i, a.call, s.calls[a.call].pc.unreachable);
    }
  }

  lemma {:induction false} StepKeepsIssuer(cfg: Config, s: Sys, a: Action, s': Sys, c: Call)
    requires Next(cfg, s, a, s') && c in s.calls
    ensures c in s'.calls && s'.calls[c].issuer == s.calls[c].issuer
  {
    if !a.Tick? {
      StepMoves(cfg, s, a, s');
    }
  }

  lemma {:induction false} StepRemembers(cfg: Config, s: Sys, a: Action, s': Sys, i: Issuer)
    requires Next(cfg, s, a, s') && i in s'.memory && i !in s.memory
    ensures a.Record? && a.call in s.calls && s.calls[a.call].issuer == i && s.calls[a.call].pc.Failing?
    ensures a.call in s'.calls && s'.calls[a.call].issuer == i
  {
    StepCache(cfg, s, a, s');
  }

  /** The lifetime runs from the leader's arrival, not from the failure: a fetch that took longer
      than the lifetime to fail is never remembered against a call that arrives afterwards. */
  lemma {:induction false} SlowFailureForgotten(cfg: Config, s: Sys, leader: Call, s1: Sys, t: Sys, c: Call,
                                                v: Verdict, t': Sys)
    requires Inv(cfg, s) && Next(cfg, s, Record(leader), s1)
    requires var ttl := if s.calls[leader].pc.unreachable then cfg.unreachableTtl else cfg.failureTtl;
             s.clock > s.calls[leader].pc.now + ttl as real
    requires Inv(cfg, t) && Next(cfg, t, Enter(c, v), t')
    requires t.calls[c].issuer == s.calls[leader].issuer && t.calls[c].pc.now >= s.clock
    requires t.calls[c].issuer in t.memory && t.memory[t.calls[c].issuer] == s1.memory[s.calls[leader].issuer]
    ensures v != Suppressed
  {
    SuppressedWithinTtl(cfg, t, c, v, t');
  }

  // ----- two runs -------------------------------------------------------------------

  lemma {:induction false} Extend(cfg: Config, states: seq<Sys>, actions: seq<Action>, a: Action, s': Sys)
    returns (states': seq<Sys>, actions': seq<Action>)
    requires Run(cfg, states, actions) && Next(cfg, states[|actions|], a, s')
    ensures states' == states + [s'] && actions' == actions + [a]
    ensures Run(cfg, states', actions')
  {
    states', actions' := states + [s'], actions + [a];
  }

  const EMPTY := Cache(map[], {})

  lemma {:induction false} EnterEmpty(cfg: Config, s: Sys, c: Call, v: Verdict, s': Sys)
    requires c in s.calls && s.calls[c].pc.Arrived? && s.sh.cache == EMPTY && s.memory == map[]
    requires v == (if s.calls[c].issuer !in s.sh.inflight then Leads else Waits) &&
        (v.Waits? ==> s.sh.waiters < cfg.maxWaiters)
    requires var now := s.calls[c].pc.now;
             s' == s.(sh := if v.Leads? then s.sh.(inflight := s.sh.inflight[s.calls[c].issuer := c])
                            else s.sh.(waiters := s.sh.waiters + 1),
                      flights := if v.Leads? then s.flights[c := NEW_FLIGHT] else s.flights,
                      calls := s.calls[c := Thread(s.calls[c].issuer,
                          AfterVerdict(c, now, v, Lookup(s.sh.inflight, s.calls[c].issuer)))])
    ensures Next(cfg, s, Enter(c, v), s')
  {
    assert Unexpired(cfg, EMPTY, s.calls[c].pc.now) == {};
  }

  /** The fetch of call 0 is under way, and nobody else has come yet. */
  function Fetching0(i: Issuer): Sys {
    Sys(0.0, Shared(EMPTY, [0.0], map[i := 0], 0), map[0 := NEW_FLIGHT], map[0 := Thread(i, Fetching(0.0))], map[])
  }

  lemma {:induction false} LeaderFetches(cfg: Config, i: Issuer) returns (states: seq<Sys>, actions: seq<Action>)
    requires cfg.maxAttempts >= 1
    ensures Run(cfg, states, actions) && states[|actions|] == Fetching0(i)
  {
    var s1 := INITIAL.(calls := map[0 := Thread(i, Arrived(0.0))]);
    var s2 := Sys(0.0, Shared(EMPTY, [], map[i := 0], 0), map[0 := NEW_FLIGHT], map[0 := Thread(i, Leading(0.0))],
        map[]);
    states, actions := [INITIAL], [];
    states, actions := Extend(cfg, states, actions, Arrive(0, i), s1);
    EnterEmpty(cfg, s1, 0, Leads, s2);
    states, actions := Extend(cfg, states, actions, Enter(0, Leads), s2);
    CheckPasses(cfg, i, s2);
    states, actions := Extend(cfg, states, actions, RateCheck(0), Fetching0(i));
  }

  lemma {:induction false} CheckPasses(cfg: Config, i: Issuer, s: Sys)
    requires cfg.maxAttempts >= 1
    requires s ==
        Sys(0.0, Shared(EMPTY, [], map[i := 0], 0), map[0 := NEW_FLIGHT], map[0 := Thread(i, Leading(0.0))], map[])
    ensures Next(cfg, s, RateCheck(0), Fetching0(i))
  {
    assert DropStale([], 0.0, cfg.window) == [];
    assert [] + [0.0] == [0.0];
  }

  /** The document is JSON but no object: the leader crashes, and a follower that waited to the
      end gets the 503 instead of its leader's outcome. */
  lemma {:induction false} CrashReachesFollower(cfg: Config, i: Issuer) returns (states: seq<Sys>, actions: seq<Action>)
    requires cfg.maxAttempts >= 1 && cfg.maxWaiters >= 1
    ensures Run(cfg, states, actions) && Fetch(0, NotAnObject) in actions
    ensures var calls := states[|actions|].calls;
            && calls == map[0 := Thread(i, Returned(Leader, Crashed)),
                            1 := Thread(i, Returned(Follower(0, true), Raised(UNAVAILABLE)))]
  {
    states, actions := LeaderFetches(cfg, i);
    var s4;
    s4, states, actions := FollowerParks(cfg, i, states, actions);
    var s5 := At(s4, 0, Closing(Crashed));
    states, actions := Extend(cfg, states, actions, Fetch(0, NotAnObject), s5);
    var at := |actions| - 1;
    var s6 := At(s5, 0, Signalling(Crashed)).(sh := Shared(EMPTY, [0.0], map[], 1));
    states, actions := Extend(cfg, states, actions, Pop(0), s6);
    var s7 := At(s6, 0, Returned(Leader, Crashed)).(flights := map[0 := Flight(true, None, None)]);
    states, actions := Extend(cfg, states, actions, Signal(0), s7);
    states, actions := FollowerReturns(cfg, i, states, actions);
    assert actions[at] == Fetch(0, NotAnObject);
  }

  lemma {:induction false} FollowerParks(cfg: Config, i: Issuer, states: seq<Sys>, actions: seq<Action>)
    returns (s: Sys, states': seq<Sys>, actions': seq<Action>)
    requires cfg.maxWaiters >= 1 && Run(cfg, states, actions) && states[|actions|] == Fetching0(i)
    ensures Run(cfg, states', actions') && states'[|actions'|] == s
    ensures s == Fetching0(i).(sh := Shared(EMPTY, [0.0], map[i := 0], 1),
                               calls := map[0 := Thread(i, Fetching(0.0)), 1 := Thread(i, Waiting(0))])
  {
    var s1 := Fetching0(i).(calls := map[0 := Thread(i, Fetching(0.0)), 1 := Thread(i, Arrived(0.0))]);
    s := s1.(sh := Shared(EMPTY, [0.0], map[i := 0], 1),
             calls := map[0 := Thread(i, Fetching(0.0)), 1 := Thread(i, Waiting(0))]);
    states', actions' := Extend(cfg, states, actions, Arrive(1, i), s1);
    EnterEmpty(cfg, s1, 1, Waits, s);
    states', actions' := Extend(cfg, states', actions', Enter(1, Waits), s);
  }

  lemma {:induction false} FollowerReturns(cfg: Config, i: Issuer, states: seq<Sys>, actions: seq<Action>)
    returns (states': seq<Sys>, actions': seq<Action>)
    requires Run(cfg, states, actions)
    requires states[|actions|] == Sys(0.0, Shared(EMPTY, [0.0], map[], 1), map[0 := Flight(true, None, None)],
                                      map[0 := Thread(i, Returned(Leader, Crashed)), 1 := Thread(i, Waiting(0))], map[])
    ensures Run(cfg, states', actions') && actions <= actions'
    ensures states'[|actions'|].calls == map[0 := Thread(i, Returned(Leader, Crashed)),
                                             1 := Thread(i, Returned(Follower(0, true), Raised(UNAVAILABLE)))]
  {
    var s8 := At(states[|actions|], 1, Woken(0, true));
    states', actions' := Extend(cfg, states, actions, Wake(1, true), s8);
    var s9 := At(s8, 1, Leaving(0, true)).(sh := Shared(EMPTY, [0.0], map[], 0));
    states', actions' := Extend(cfg, states', actions', Unpark(1), s9);
    var s10 := At(s9, 1, Returned(Follower(0, true), Raised(UNAVAILABLE)));
    states', actions' := Extend(cfg, states', actions', Finish(1), s10);
  }

  /** A fetch that fails after more than the lifetime is recorded, and the next call leads again
      the moment the first one is done. */
  lemma {:induction false} SlowFailureRefetched(cfg: Config, i: Issuer, unreachable: bool, took: real)
    returns (states: seq<Sys>, actions: seq<Action>)
    requires cfg.maxAttempts >= 1 && took >= 0.0
    requires took > if unreachable then cfg.unreachableTtl as real else cfg.failureTtl as real
    ensures Run(cfg, states, actions) && Record(0) in actions
    ensures var s := states[|actions|];
            s.clock == took && i in s.memory && s.memory[i].at == 0.0 && 1 in s.calls &&
                s.calls[1] == Thread(i, Leading(took))
  {
    states, actions := SlowFailureRecorded(cfg, i, unreachable, took);
    var at := |actions| - 1;
    var s6 := states[|actions|];
    var s7 := At(s6, 0, Signalling(Raised(UNAVAILABLE))).(sh := s6.sh.(inflight := map[]));
    states, actions := Extend(cfg, states, actions, Pop(0), s7);
    var s8 := s7.(calls := s7.calls[1 := Thread(i, Arrived(took))]);
    states, actions := Extend(cfg, states, actions, Arrive(1, i), s8);
    var s9 := StaleEntryPruned(cfg, s8, 1, i);
    states, actions := Extend(cfg, states, actions, Enter(1, Leads), s9);
    assert actions[at] == Record(0);
  }

  lemma {:induction false} SlowFailureRecorded(cfg: Config, i: Issuer, unreachable: bool, took: real)
    returns (states: seq<Sys>, actions: seq<Action>)
    requires cfg.maxAttempts >= 1 && took >= 0.0
    ensures Run(cfg, states, actions) && actions != [] && actions[|actions| - 1] == Record(0)
    ensures var cache := RecordIn(EMPTY, i, 0.0, unreachable);
            states[|actions|] ==
                Sys(took, Shared(cache, [0.0], map[i := 0], 0), map[0 := Flight(false, None, Some(UNAVAILABLE))],
                                     map[0 := Thread(i, Closing(Raised(UNAVAILABLE)))],
                                     map[i := Memory(0.0, Ttl(cfg, cache.unreachable, i), false)])
  {
    states, actions := LeaderFetches(cfg, i);
    var s4 := Fetching0(i).(clock := took);
    states, actions := Extend(cfg, states, actions, Tick(took), s4);
    var s5 := At(s4, 0, Failing(0.0, unreachable));
    states, actions := Extend(cfg, states, actions, Fetch(0, Failed(unreachable)), s5);
    var cache := RecordIn(EMPTY, i, 0.0, unreachable);
    var s6 := At(s5, 0, Closing(Raised(UNAVAILABLE)))
              .(sh := s5.sh.(cache := cache), flights := map[0 := Flight(false, None, Some(UNAVAILABLE))],
                memory := map[i := Memory(0.0, Ttl(cfg, cache.unreachable, i), false)]);
    states, actions := Extend(cfg, states, actions, Record(0), s6);
  }

  /** A call whose issuer has the only entry, already stale at its reading, leads. */
  lemma {:induction false} StaleEntryPruned(cfg: Config, s: Sys, c: Call, i: Issuer) returns (s': Sys)
    requires c in s.calls && s.calls[c].pc.Arrived? && s.calls[c].issuer == i && i !in s.sh.inflight
    requires s.sh.cache.failures.Keys == {i} && s.sh.cache.unreachable <= {i} &&
        Stale(cfg, s.sh.cache, s.calls[c].pc.now, i)
    ensures Next(cfg, s, Enter(c, Leads), s')
    ensures s'.clock == s.clock && s'.memory == s.memory && c in s'.calls &&
        s'.calls[c] == Thread(i, Leading(s.calls[c].pc.now))
  {
    assert Unexpired(cfg, s.sh.cache, s.calls[c].pc.now) == {};
    s' := s.(sh := s.sh.(cache := EMPTY, inflight := s.sh.inflight[i := c]), flights := s.flights[c := NEW_FLIGHT],
             calls := s.calls[c := Thread(i, Leading(s.calls[c].pc.now))]);
  }

  // ----- the attempt budget in a run -----------------------------------------------

  /** The clock readings brought to the rate limit, in the order its lock served them. */
  ghost function Readings(states: seq<Sys>, actions: seq<Action>): (nows: seq<real>)
    requires |states| == |actions| + 1
  {
    if actions == [] then []
    else
      var k := |actions| - 1;
      var a := actions[k];
      Readings(states[..k + 1], actions[..k])
      + if a.RateCheck? && a.call in states[k].calls && states[k].calls[a.call].pc.Leading?
        then [states[k].calls[a.call].pc.now] else []
  }

  /** When the steps of the run that started a fetch happened. */
  ghost function FetchStarts(states: seq<Sys>, actions: seq<Action>): (starts: seq<real>)
    requires |states| == |actions| + 1
  {
    if actions == [] then []
    else
      var k := |actions| - 1;
      var a := actions[k];
      FetchStarts(states[..k + 1], actions[..k])
      + if a.RateCheck? && a.call in states[k + 1].calls &&
          states[k + 1].calls[a.call].pc.Fetching? then [states[k].clock] else []
  }

  /** The fetches a run starts are exactly the attempts the window admits, so its bounds on
      attempts are bounds on outbound fetches across all issuers. */
  lemma {:induction false} FetchesAreAdmitted(cfg: Config, states: seq<Sys>, actions: seq<Action>)
    requires Run(cfg, states, actions)
    ensures var a := AttemptAll(Readings(states, actions), cfg.window, cfg.maxAttempts);
            && states[|actions|].sh.attempts == a.deque
            && |FetchStarts(states, actions)| == |a.admitted|
  {
    if actions != [] {
      var k := |actions| - 1;
      var front := Readings(states[..k + 1], actions[..k]);
      FetchesAreAdmitted(cfg, states[..k + 1], actions[..k]);
      assert Next(cfg, states[k], actions[k], states[k + 1]);
      if actions[k].RateCheck? {
        var now := states[k].calls[actions[k].call].pc.now;
        AttemptLast(front, now, cfg.window, cfg.maxAttempts);
        CheckSpends(cfg, states[k], actions[k].call, states[k + 1],
                    AttemptAll(front, cfg.window, cfg.maxAttempts));
      } else {
        AttemptsUntouched(cfg, states[k], actions[k], states[k + 1]);
        assert front + [] == front;
      }
    }
  }

  /** A check keeps the deque in step with the admitted readings, and fetches exactly if admitted. */
  lemma {:induction false} CheckSpends(cfg: Config, s: Sys, c: Call, s': Sys, a: Attempts)
    requires Next(cfg, s, RateCheck(c), s') && s.sh.attempts == a.deque
    ensures var a' := Attempt(a, s.calls[c].pc.now, cfg.window, cfg.maxAttempts);
            && s'.sh.attempts == a'.deque
            && |a'.admitted| == |a.admitted| + if c in s'.calls && s'.calls[c].pc.Fetching? then 1 else 0
  {
  }

  lemma {:induction false} AttemptsUntouched(cfg: Config, s: Sys, a: Action, s': Sys)
    requires Next(cfg, s, a, s') && !a.RateCheck?
    ensures s'.sh.attempts == s.sh.attempts
  {
  }

  /** At most DISCOVERY_RATE_LIMIT_MAX_ATTEMPTS of them fall in any closed window. */
  lemma {:induction false} FetchWindowBound(cfg: Config, states: seq<Sys>, actions: seq<Action>, from: real)
    requires Run(cfg, states, actions) && cfg.maxAttempts >= 0
    ensures var admitted := AttemptAll(Readings(states, actions), cfg.window, cfg.maxAttempts).admitted;
            && |FetchStarts(states, actions)| == |admitted|
            && |AdmittedIn(admitted, from, from + cfg.window as real)| <= cfg.maxAttempts
  {
    FetchesAreAdmitted(cfg, states, actions);
    AttemptsInWindow(Readings(states, actions), cfg.window, cfg.maxAttempts, from);
  }

  /** Every check reaches the rate limit at most `delay` after its call read the clock. */
  ghost predicate PromptChecks(states: seq<Sys>, actions: seq<Action>, delay: real)
    requires |states| == |actions| + 1
  {
    forall k :: 0 <= k < |actions| && actions[k].RateCheck? && actions[k].call in states[k].calls
                && states[k].calls[actions[k].call].pc.Leading? ==>
      states[k].clock - states[k].calls[actions[k].call].pc.now <= delay
  }

  /** How admitted readings date the fetches they start: never after the start, and at most `delay` before. */
  ghost predicate Dated(admitted: seq<real>, starts: seq<real>, clock: real, delay: real) {
    && |starts| == |admitted|
    && forall n :: 0 <= n < |starts| ==> Latest(admitted, n) <= starts[n] <= clock && starts[n] <= admitted[n] + delay
  }

  lemma {:induction false} StartsDated(cfg: Config, states: seq<Sys>, actions: seq<Action>, delay: real)
    requires Run(cfg, states, actions) && PromptChecks(states, actions, delay)
    ensures Dated(AttemptAll(Readings(states, actions), cfg.window, cfg.maxAttempts).admitted,
                  FetchStarts(states, actions), states[|actions|].clock, delay)
  {
    if actions != [] {
      var k := |actions| - 1;
      var before, past := states[..k + 1], actions[..k];
      StartsDated(cfg, before, past, delay);
      RunInv(cfg, states, actions, k);
      assert Next(cfg, states[k], actions[k], states[k + 1]);
      var nows, starts := Readings(before, past), FetchStarts(before, past);
      if actions[k].RateCheck? {
        var now := states[k].calls[actions[k].call].pc.now;
        AttemptLast(nows, now, cfg.window, cfg.maxAttempts);
        FetchesAreAdmitted(cfg, before, past);
        CheckDated(cfg, states[k], actions[k].call, states[k + 1],
                   AttemptAll(nows, cfg.window, cfg.maxAttempts), starts, delay);
      } else {
        assert nows + [] == nows && starts + [] == starts;
        ReadingsKept(cfg, states[k], actions[k], states[k + 1]);
      }
    }
  }

  lemma {:induction false} CheckDated(cfg: Config, s: Sys, c: Call, s': Sys, a: Attempts, starts: seq<real>,
                                      delay: real)
    requires Next(cfg, s, RateCheck(c), s') && s.sh.attempts == a.deque && Dated(a.admitted, starts, s.clock, delay)
    requires s.calls[c].pc.now <= s.clock <= s.calls[c].pc.now + delay
    ensures Dated(Attempt(a, s.calls[c].pc.now, cfg.window, cfg.maxAttempts).admitted,
                  starts + if c in s'.calls && s'.calls[c].pc.Fetching? then [s.clock] else [], s'.clock, delay)
  {
    DatedAppend(a.admitted, starts, s.clock, delay, s.calls[c].pc.now);
    assert starts + [] == starts;
  }

  lemma {:induction false} DatedAppend(admitted: seq<real>, starts: seq<real>, clock: real, delay: real, now: real)
    requires Dated(admitted, starts, clock, delay) && now <= clock <= now + delay
    ensures Dated(admitted + [now], starts + [clock], clock, delay)
  {
    LatestAppend(admitted, now);
    forall n | 0 <= n < |admitted| ensures Latest(admitted + [now], n) == Latest(admitted, n) {
      LatestPrefix(admitted, [now], n);
    }
  }

  /** When every check is that prompt, at most the limit of fetches fall in any closed interval a
      delay shorter than the window, dated by their own readings or by when they started. */
  lemma {:induction false} FetchStartBound(cfg: Config, states: seq<Sys>, actions: seq<Action>, delay: real,
                                           from: real, length: real)
    requires Run(cfg, states, actions) && PromptChecks(states, actions, delay)
    requires cfg.maxAttempts >= 0 && length <= cfg.window as real - delay
    ensures var admitted := AttemptAll(Readings(states, actions), cfg.window, cfg.maxAttempts).admitted;
            |OwnIn(admitted, from, from + length)| <= cfg.maxAttempts
    ensures |OwnIn(FetchStarts(states, actions), from, from + length)| <= cfg.maxAttempts
  {
    var nows := Readings(states, actions);
    var admitted := AttemptAll(nows, cfg.window, cfg.maxAttempts).admitted;
    var starts := FetchStarts(states, actions);
    StartsDated(cfg, states, actions, delay);
    DatedSpan(cfg, nows, starts, states[|actions|].clock, delay, OwnIn(admitted, from, from + length), from, length);
    DatedSpan(cfg, nows, starts, states[|actions|].clock, delay, OwnIn(starts, from, from + length), from, length);
  }

  lemma {:induction false} DatedSpan(cfg: Config, nows: seq<real>, starts: seq<real>, clock: real, delay: real,
                                     hits: set<nat>, from: real, length: real)
    requires cfg.maxAttempts >= 0 && length <= cfg.window as real - delay
    requires var admitted := AttemptAll(nows, cfg.window, cfg.maxAttempts).admitted;
             && Dated(admitted, starts, clock, delay)
             && (hits == OwnIn(admitted, from, from + length) || hits == OwnIn(starts, from, from + length))
    ensures |hits| <= cfg.maxAttempts
  {
    var admitted := AttemptAll(nows, cfg.window, cfg.maxAttempts).admitted;
    forall i, n | i in hits && n in hits ensures n - i < cfg.maxAttempts {
      LatestBounds(admitted, i, i);
      assert starts[n] <= from + length + delay;
      SpanWithin(nows, cfg.window, cfg.maxAttempts, i, n);
    }
    SpanCount(hits, cfg.maxAttempts);
  }
}
