/**
 * The Redis sliding-window rate limiter: a sorted set of accepted request
 * times that is pruned on every request and expires on its own.
 */
module SlidingWindow {
  import opened Prelude

  type Member = nat

  /** The sorted set under one limiter key, with its Redis expiry moment. */
  datatype Zset = Zset(scores: map<Member, real>, expiresAt: Option<real>)

  /** `now` is the caller's reading; `at` is Redis's clock when the script runs. */
  datatype Request = Request(now: real, at: real, member: Member)

  predicate Expired(z: Zset, at: real) {
    z.expiresAt.Some? && z.expiresAt.value <= at
  }

  function Live(z: Zset, at: real): map<Member, real> {
    if Expired(z, at) then map[] else z.scores
  }

  /** The entries newer than `now - window`: what ZREMRANGEBYSCORE leaves. */
  function Newer(scores: map<Member, real>, cut: real): (kept: map<Member, real>)
  {
    map m | m in scores && scores[m] > cut :: scores[m]
  }

  class LimiterKey {
    var scores: map<Member, real>
    var expiresAt: Option<real>

    function State(): Zset
      reads this
    {
      Zset(scores, expiresAt)
    }

    constructor ()
      ensures State() == Zset(map[], None)
    {
      scores, expiresAt := map[], None;
    }

    /** One atomic run of the script. */
    method Run(q: Request, window: int, maxReq: int) returns (allowed: bool)
      requires window > 0
      modifies this
      ensures allowed == Allows(old(State()), q, window, maxReq)
      ensures State() == After(old(State()), q, window, maxReq)
    {
      if Expired(State(), q.at) {
        scores, expiresAt := map[], None;
      }
      scores := Newer(scores, q.now - window as real);
      if |scores| == 0 {
        expiresAt := None;
      }
      if |scores| >= maxReq {
        return false;
      }
      scores := scores[q.member := q.now];
      expiresAt := Some(q.at + window as real);
      return true;
    }
  }

  predicate Allows(z: Zset, q: Request, window: int, maxReq: int) {
    |Newer(Live(z, q.at), q.now - window as real)| < maxReq
  }

  function After(z: Zset, q: Request, window: int, maxReq: int): Zset {
    var kept := Newer(Live(z, q.at), q.now - window as real);
    if Allows(z, q, window, maxReq) then
      Zset(kept[q.member := q.now], Some(q.at + window as real))
    else
      Zset(kept, if |kept| == 0 then None else z.expiresAt)
  }

  // ----- the reference: a log that forgets nothing --------------------------

  type Log = map<Member, real>

  predicate LogAllows(log: Log, now: real, window: int, maxReq: int) {
    |Within(log, now - window as real, now)| < maxReq
  }

  /** The accepted requests in the half-open interval (from, to]. */
  function Within(log: Log, from: real, to: real): set<Member> {
    set m | m in log && from < log[m] <= to
  }

  /** The limiter, the full log of what it accepted, and the last reading it processed. */
  datatype Sys = Sys(z: Zset, log: Log, last: Option<real>)

  const START := Sys(Zset(map[], None), map[], None)

  function Step(s: Sys, q: Request, window: int, maxReq: int): Sys {
    Sys(After(s.z, q, window, maxReq),
        if Allows(s.z, q, window, maxReq) then s.log[q.member := q.now] else s.log,
        Some(q.now))
  }

  function RunAll(qs: seq<Request>, window: int, maxReq: int): Sys {
    if qs == [] then START
    else Step(RunAll(qs[..|qs| - 1], window, maxReq), qs[|qs| - 1], window, maxReq)
  }

  /** Readings do not go back, members are fresh, and no reading is stale against Redis's expiry. */
  ghost predicate Timely(s: Sys, q: Request, window: int) {
    && (s.last.Some? ==> s.last.value <= q.now)
    && q.member !in s.log
    && (Expired(s.z, q.at) ==> forall m :: m in s.log ==> s.log[m] <= q.now - window as real)
  }

  ghost predicate TimelyRun(qs: seq<Request>, window: int, maxReq: int) {
    forall k :: 0 <= k < |qs| ==> Timely(RunAll(qs[..k], window, maxReq), qs[k], window)
  }

  // ----- the pruned set keeps exactly what the log would count --------------

  ghost predicate Tracks(s: Sys, window: int) {
    && (forall m :: m in s.z.scores ==> m in s.log && s.log[m] == s.z.scores[m])
    && (s.last.None? ==> s.log == map[])
    && (s.last.Some? ==>
          && (forall m :: m in s.log ==> s.log[m] <= s.last.value)
          && (forall m :: m in s.log && s.log[m] > s.last.value - window as real ==>
                s.z.expiresAt.Some? && m in s.z.scores))
  }

  /** One timely request is answered as the full log would answer it. */
  lemma {:induction false} StepRefines(s: Sys, q: Request, window: int, maxReq: int)
    requires window > 0 && Tracks(s, window) && Timely(s, q, window)
    ensures Allows(s.z, q, window, maxReq) <==> LogAllows(s.log, q.now, window, maxReq)
    ensures Tracks(Step(s, q, window, maxReq), window)
  {
    var kept := Newer(Live(s.z, q.at), q.now - window as real);
    assert kept.Keys == Within(s.log, q.now - window as real, q.now);
    assert |kept| == |kept.Keys|;
  }

  lemma {:induction false} RunTracks(qs: seq<Request>, window: int, maxReq: int)
    requires window > 0 && TimelyRun(qs, window, maxReq)
    ensures Tracks(RunAll(qs, window, maxReq), window)
  {
    if qs != [] {
      PrefixTimely(qs, window, maxReq);
      RunTracks(qs[..|qs| - 1], window, maxReq);
      StepRefines(RunAll(qs[..|qs| - 1], window, maxReq), qs[|qs| - 1], window, maxReq);
    }
  }

  lemma {:induction false} PrefixTimely(qs: seq<Request>, window: int, maxReq: int)
    requires qs != [] && TimelyRun(qs, window, maxReq)
    ensures TimelyRun(qs[..|qs| - 1], window, maxReq)
    ensures Timely(RunAll(qs[..|qs| - 1], window, maxReq), qs[|qs| - 1], window)
  {
    var front := qs[..|qs| - 1];
    forall k | 0 <= k < |front| ensures Timely(RunAll(front[..k], window, maxReq), front[k], window) {
      assert front[..k] == qs[..k];
    }
  }

  /** Along any timely run, every answer is the answer of the complete log. */
  lemma {:induction false} AnswersLikeFullLog(qs: seq<Request>, k: nat, window: int, maxReq: int)
    requires window > 0 && k < |qs| && TimelyRun(qs, window, maxReq)
    ensures var s := RunAll(qs[..k], window, maxReq);
            Allows(s.z, qs[k], window, maxReq) <==> LogAllows(s.log, qs[k].now, window, maxReq)
  {
    forall i | 0 <= i < k ensures qs[..k][..i] == qs[..i] {}
    RunTracks(qs[..k], window, maxReq);
    StepRefines(RunAll(qs[..k], window, maxReq), qs[k], window, maxReq);
  }

  /** Every half-open interval (t - window, t], at any t, holds at most maxReq accepted requests. */
  lemma {:induction false} WindowBound(qs: seq<Request>, window: int, maxReq: nat, t: real)
    requires window > 0 && TimelyRun(qs, window, maxReq)
    ensures |Within(RunAll(qs, window, maxReq).log, t - window as real, t)| <= maxReq
  {
    if qs == [] {
      assert Within(START.log, t - window as real, t) == {};
    } else {
      var front, q := qs[..|qs| - 1], qs[|qs| - 1];
      PrefixTimely(qs, window, maxReq);
      WindowBound(front, window, maxReq, t);
      RunTracks(front, window, maxReq);
      var s := RunAll(front, window, maxReq);
      StepRefines(s, q, window, maxReq);
      var log' := Step(s, q, window, maxReq).log;
      var before := Within(s.log, t - window as real, t);
      var after := Within(log', t - window as real, t);
      if t < q.now || !Allows(s.z, q, window, maxReq) {
        assert after == before;
      } else {
        assert after <= Within(s.log, q.now - window as real, q.now) + {q.member};
        SubsetCardinality(after, Within(s.log, q.now - window as real, q.now) + {q.member});
      }
    }
  }

  ghost predicate ExpiresAfter(z: Zset, qs: seq<Request>, window: int) {
    && (z.scores != map[] <==> z.expiresAt.Some?)
    && (z.expiresAt.Some? ==> exists k :: 0 <= k < |qs| && z.expiresAt.value == qs[k].at + window as real)
  }

  /** A key never outlives its last request by more than a window, and holds no entry without a
      time to live. */
  lemma {:induction false} KeyExpires(qs: seq<Request>, window: int, maxReq: int)
    ensures ExpiresAfter(RunAll(qs, window, maxReq).z, qs, window)
  {
    if qs != [] {
      var n := |qs| - 1;
      KeyExpires(qs[..n], window, maxReq);
      var z, z' := RunAll(qs[..n], window, maxReq).z, RunAll(qs, window, maxReq).z;
      if Allows(z, qs[n], window, maxReq) {
        assert qs[n].member in z'.scores;
        assert z'.expiresAt.value == qs[n].at + window as real;
      } else {
        assert |z'.scores| == 0 <==> z'.scores == map[];
        if z'.scores != map[] {
          var k :| 0 <= k < n && z.expiresAt.value == qs[..n][k].at + window as real;
          assert z'.expiresAt.value == qs[k].at + window as real;
        }
      }
    }
  }

  // ----- when the expiry is harmless ----------------------------------------

  /** What holds along runs whose readings are taken when the script runs. */
  ghost predicate Prompt(s: Sys, window: int) {
    s.z.expiresAt.Some? ==> forall m :: m in s.log ==> s.log[m] <= s.z.expiresAt.value - window as real
  }

  lemma {:induction false} PromptStep(s: Sys, q: Request, window: int, maxReq: int)
    requires window > 0 && Tracks(s, window) && Prompt(s, window)
    requires q.at == q.now && q.member !in s.log && (s.last.Some? ==> s.last.value <= q.now)
    ensures Timely(s, q, window)
    ensures Prompt(Step(s, q, window, maxReq), window)
  {
  }

  ghost predicate SentBy(qs: seq<Request>, m: Member) {
    exists k :: 0 <= k < |qs| && qs[k].member == m
  }

  lemma {:induction false} LoggedWereSent(qs: seq<Request>, window: int, maxReq: int)
    ensures forall m :: m in RunAll(qs, window, maxReq).log ==> SentBy(qs, m)
    ensures RunAll(qs, window, maxReq).last == if qs == [] then None else Some(qs[|qs| - 1].now)
  {
    if qs != [] {
      var front := qs[..|qs| - 1];
      LoggedWereSent(front, window, maxReq);
      forall m | m in RunAll(qs, window, maxReq).log ensures SentBy(qs, m) {
        if m == qs[|qs| - 1].member {
        } else {
          var k :| 0 <= k < |front| && front[k].member == m;
          assert qs[k].member == m;
        }
      }
    }
  }

  /** With one clock, read at the moment the script runs, every run is timely. */
  lemma {:induction false} PromptReadingsAreTimely(qs: seq<Request>, window: int, maxReq: int)
    requires window > 0
    requires forall k :: 0 <= k < |qs| ==> qs[k].at == qs[k].now
    requires forall i, j :: 0 <= i < j < |qs| ==> qs[i].now <= qs[j].now && qs[i].member != qs[j].member
    ensures TimelyRun(qs, window, maxReq)
    ensures Prompt(RunAll(qs, window, maxReq), window)
  {
    if qs != [] {
      var front, q := qs[..|qs| - 1], qs[|qs| - 1];
      PromptReadingsAreTimely(front, window, maxReq);
      RunTracks(front, window, maxReq);
      LoggedWereSent(front, window, maxReq);
      PromptStep(RunAll(front, window, maxReq), q, window, maxReq);
      TimelyAppend(front, q, window, maxReq);
      assert qs == front + [q];
    }
  }

  lemma {:induction false} TimelyAppend(front: seq<Request>, q: Request, window: int, maxReq: int)
    requires TimelyRun(front, window, maxReq) && Timely(RunAll(front, window, maxReq), q, window)
    ensures TimelyRun(front + [q], window, maxReq)
  {
    var qs := front + [q];
    forall k | 0 <= k < |qs| ensures Timely(RunAll(qs[..k], window, maxReq), qs[k], window) {
      assert qs[..k] == if k < |front| then front[..k] else front;
    }
  }

  /** On an expired key the answer agrees with the log under every limit exactly when the
      reading is a full window past every accepted request. */
  lemma {:induction false} ExpiryHarmlessIff(s: Sys, q: Request, window: int)
    requires window > 0 && Tracks(s, window) && Expired(s.z, q.at)
    requires s.last.Some? ==> s.last.value <= q.now
    ensures (forall maxReq :: Allows(s.z, q, window, maxReq) <==> LogAllows(s.log, q.now, window, maxReq))
            <==> (forall m :: m in s.log ==> s.log[m] <= q.now - window as real)
  {
    var counted := Within(s.log, q.now - window as real, q.now);
    assert Newer(Live(s.z, q.at), q.now - window as real) == map[];
    if forall m :: m in s.log ==> s.log[m] <= q.now - window as real {
      assert counted == {};
    } else {
      var m :| m in s.log && s.log[m] > q.now - window as real;
      assert m in counted;
      assert Allows(s.z, q, window, 1) && !LogAllows(s.log, q.now, window, 1);
    }
  }

  // ----- readings that are late by a bounded delay ---------------------------

  /** The script runs at most `delay` after its request was dated, on the same clock. */
  ghost predicate Delayed(qs: seq<Request>, delay: real) {
    && (forall k :: 0 <= k < |qs| ==> qs[k].now <= qs[k].at <= qs[k].now + delay)
    && (forall i, j :: 0 <= i < j < |qs| ==> qs[i].at <= qs[j].at && qs[i].member != qs[j].member)
  }

  /** What is still missing from the set at `clock` was accepted a full window earlier. */
  ghost predicate Holding(s: Sys, clock: real, window: int) {
    && (forall m :: m in s.z.scores ==> m in s.log && s.log[m] == s.z.scores[m])
    && (forall m :: m in s.log ==> s.log[m] <= clock && (m in s.z.scores || s.log[m] + window as real <= clock))
    && (s.z.scores != map[] ==> s.z.expiresAt.Some?)
    && (s.z.expiresAt.Some? ==> forall m :: m in s.z.scores ==> s.log[m] + window as real <= s.z.expiresAt.value)
  }

  lemma {:induction false} StepHolds(s: Sys, clock: real, q: Request, window: int, maxReq: int)
    requires Holding(s, clock, window) && q.member !in s.log && clock <= q.at && q.now <= q.at
    ensures Holding(Step(s, q, window, maxReq), q.at, window)
  {
    var kept := Newer(Live(s.z, q.at), q.now - window as real);
    assert |kept| == 0 <==> kept == map[];
    assert forall m :: m in s.log ==> m in kept || s.log[m] + window as real <= q.at;
  }

  lemma {:induction false} RunHolds(qs: seq<Request>, delay: real, window: int, maxReq: int, clock: real)
    requires Delayed(qs, delay) && (qs == [] || qs[|qs| - 1].at <= clock)
    ensures Holding(RunAll(qs, window, maxReq), clock, window)
  {
    if qs != [] {
      var front, q := qs[..|qs| - 1], qs[|qs| - 1];
      RunHolds(front, delay, window, maxReq, q.at);
      LoggedWereSent(front, window, maxReq);
      StepHolds(RunAll(front, window, maxReq), q.at, q, window, maxReq);
    }
  }

  ghost predicate Bounded(qs: seq<Request>, window: int, maxReq: nat, t: real, length: real) {
    |Within(RunAll(qs, window, maxReq).log, t - length, t)| <= maxReq
  }

  /** The limit loses at most the delay: intervals that much shorter hold at most maxReq. */
  lemma {:induction false} DelayedBound(qs: seq<Request>, delay: real, window: int, maxReq: nat, t: real, length: real)
    requires Delayed(qs, delay) && delay >= 0.0 && length <= window as real - delay
    ensures Bounded(qs, window, maxReq, t, length)
  {
    if qs == [] {
      assert Within(START.log, t - length, t) == {};
    } else {
      var front, q := qs[..|qs| - 1], qs[|qs| - 1];
      DelayedBound(front, delay, window, maxReq, t, length);
      RunHolds(front, delay, window, maxReq, q.at);
      StepBounded(RunAll(front, window, maxReq), q, delay, window, maxReq, t, length);
    }
  }

  /** Whatever was accepted in an interval that short before the request is still in the set. */
  lemma {:induction false} StillKept(s: Sys, q: Request, delay: real, window: int, t: real, length: real)
    requires Holding(s, q.at, window) && q.at <= q.now + delay && 0.0 <= delay && length <= window as real - delay
    requires t - length < q.now <= t
    ensures forall m :: m in s.log && t - length < s.log[m] <= t ==> m in Newer(Live(s.z, q.at), q.now - window as real)
  {
  }

  lemma {:induction false} StepBounded(s: Sys, q: Request, delay: real, window: int, maxReq: nat, t: real, length: real)
    requires Holding(s, q.at, window) && q.at <= q.now + delay && 0.0 <= delay && length <= window as real - delay
    requires |Within(s.log, t - length, t)| <= maxReq
    ensures |Within(Step(s, q, window, maxReq).log, t - length, t)| <= maxReq
  {
    if Allows(s.z, q, window, maxReq) && t - length < q.now <= t {
      AcceptedBounded(s, q, delay, window, maxReq, t, length);
    } else {
      SubsetCardinality(Within(Step(s, q, window, maxReq).log, t - length, t), Within(s.log, t - length, t));
    }
  }

  lemma {:induction false} AcceptedBounded(s: Sys, q: Request, delay: real, window: int, maxReq: nat, t: real,
                                           length: real)
    requires Holding(s, q.at, window) && q.at <= q.now + delay && 0.0 <= delay && length <= window as real - delay
    requires Allows(s.z, q, window, maxReq) && t - length < q.now <= t
    ensures |Within(s.log[q.member := q.now], t - length, t)| <= maxReq
  {
    var kept := Newer(Live(s.z, q.at), q.now - window as real);
    assert |kept| == |kept.Keys|;
    StillKept(s, q, delay, window, t, length);
    SubsetCardinality(Within(s.log[q.member := q.now], t - length, t), kept.Keys + {q.member});
  }

  // A limit of requests at 0, and one whose script runs when their key has just expired.

  function AtZero(n: nat): seq<Request> {
    seq(n, i requires i >= 0 => Request(0.0, 0.0, i))
  }

  function ZeroLog(n: nat): Log {
    map m | m in Below(n) :: 0.0
  }

  lemma {:induction false} RunLast(front: seq<Request>, q: Request, window: int, maxReq: int)
    ensures RunAll(front + [q], window, maxReq) == Step(RunAll(front, window, maxReq), q, window, maxReq)
  {
    assert (front + [q])[..|front + [q]| - 1] == front;
  }

  lemma {:induction false} AllAccepted(n: nat, window: int, maxReq: nat)
    requires window > 0 && n <= maxReq
    ensures RunAll(AtZero(n), window, maxReq) == ZeroState(n, window)
  {
    if n > 0 {
      var q := Request(0.0, 0.0, n - 1);
      assert AtZero(n) == AtZero(n - 1) + [q];
      AllAccepted(n - 1, window, maxReq);
      RunLast(AtZero(n - 1), q, window, maxReq);
      ZeroStep(n - 1, window, maxReq);
    }
  }

  function ZeroState(n: nat, window: int): Sys {
    if n == 0 then START else Sys(Zset(ZeroLog(n), Some(window as real)), ZeroLog(n), Some(0.0))
  }

  lemma {:induction false} ZeroStep(n: nat, window: int, maxReq: nat)
    requires window > 0 && n < maxReq
    ensures Step(ZeroState(n, window), Request(0.0, 0.0, n), window, maxReq) == ZeroState(n + 1, window)
  {
    assert Live(ZeroState(n, window).z, 0.0) == ZeroLog(n);
    ZeroLogKept(n, 0.0 - window as real);
    ZeroLogAdd(n);
  }

  lemma {:induction false} ZeroLogKept(n: nat, cut: real)
    requires cut < 0.0
    ensures Newer(ZeroLog(n), cut) == ZeroLog(n) && |ZeroLog(n)| == n
  {
    assert ZeroLog(n).Keys == Below(n);
    assert |ZeroLog(n)| == |ZeroLog(n).Keys|;
  }

  lemma {:induction false} ZeroLogAdd(n: nat)
    ensures ZeroLog(n)[n := 0.0] == ZeroLog(n + 1)
  {
  }

  lemma {:induction false} AcceptedOnExpiry(n: nat, window: int, now: real)
    requires window > 0 && n >= 1
    ensures Step(ZeroState(n, window), Request(now, window as real, n), window, n).log == ZeroLog(n)[n := now]
  {
    assert Live(ZeroState(n, window).z, window as real) == map[];
    assert Newer(map[], now - window as real) == map[];
  }

  lemma {:induction false} Crowd(n: nat, t: real, length: real)
    requires 0.0 <= t < length
    ensures |Within(ZeroLog(n)[n := t], t - length, t)| == n + 1
  {
    assert Within(ZeroLog(n)[n := t], t - length, t) == Below(n + 1);
  }

  lemma {:induction false} AtZeroDelayed(n: nat, q: Request, delay: real)
    requires 0.0 <= q.at && q.now <= q.at <= q.now + delay && q.member == n && delay >= 0.0
    ensures Delayed(AtZero(n) + [q], delay)
  {
  }

  lemma {:induction false} OneTooMany(delay: real, window: int, maxReq: nat, length: real)
      returns (qs: seq<Request>, t: real)
    requires window > 0 && maxReq >= 1 && delay >= 0.0 && length > 0.0 && length > window as real - delay
    ensures Delayed(qs, delay) && !Bounded(qs, window, maxReq, t, length)
  {
    t := MaxReal(0.0, window as real - delay);
    var q := Request(t, window as real, maxReq);
    qs := AtZero(maxReq) + [q];
    AtZeroDelayed(maxReq, q, delay);
    AllAccepted(maxReq, window, maxReq);
    RunLast(AtZero(maxReq), q, window, maxReq);
    AcceptedOnExpiry(maxReq, window, t);
    Crowd(maxReq, t, length);
  }

  /** Exactly how long an interval the limit holds for, when readings reach the script late. */
  lemma {:induction false} DelayBoundIff(delay: real, window: int, maxReq: nat, length: real)
    requires window > 0 && maxReq >= 1 && delay >= 0.0 && length > 0.0
    ensures (forall qs, t :: Delayed(qs, delay) ==> Bounded(qs, window, maxReq, t, length))
            <==> length <= window as real - delay
  {
    if length <= window as real - delay {
      forall qs, t | Delayed(qs, delay) ensures Bounded(qs, window, maxReq, t, length) {
        DelayedBound(qs, delay, window, maxReq, t, length);
      }
    } else {
      var qs, t := OneTooMany(delay, window, maxReq, length);
      assert !Bounded(qs, window, maxReq, t, length);
    }
  }
}
