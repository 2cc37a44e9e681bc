/**
 * The Redis lease mutex: SET NX EX in a polling loop, then a release made of
 * a separate GET and DELETE.
 */
module LeaseMutex {
  import opened Prelude

  /** One acquisition attempt; its random value names it. */
  type Client = nat

  /** The lock key's value and the moment Redis drops it. */
  datatype Entry = Entry(owner: Client, until: real)

  predicate Live(key: Option<Entry>, clock: real) {
    key.Some? && clock < key.value.until
  }

  /** The Redis commands the mutex uses on its key. */
  class LockKey {
    var entry: Option<Entry>

    constructor ()
      ensures entry == None
    {
      entry := None;
    }

    method SetNx(clock: real, owner: Client, lease: real) returns (acquired: bool)
      modifies this
      ensures acquired == !Live(old(entry), clock)
      ensures entry == AfterSet(old(entry), clock, owner, lease)
    {
      if Live(entry, clock) {
        return false;
      }
      entry := Some(Entry(owner, clock + lease));
      return true;
    }

    /** GET: the owner stored under an unexpired key. */
    method Get(clock: real) returns (value: Option<Client>)
      ensures value == OwnerAt(entry, clock)
    {
      if Live(entry, clock) {
        return Some(entry.value.owner);
      }
      return None;
    }

    /** DELETE removes whatever is there. */
    method Delete()
      modifies this
      ensures entry == None
    {
      entry := None;
    }
  }

  function AfterSet(key: Option<Entry>, clock: real, owner: Client, lease: real): Option<Entry> {
    if Live(key, clock) then key else Some(Entry(owner, clock + lease))
  }

  function OwnerAt(key: Option<Entry>, clock: real): Option<Client> {
    if Live(key, clock) then Some(key.value.owner) else None
  }

  // ----- clients, interleaved ---------------------------------------------------

  /** `Blocked` remembers the failed SET: when it ran and whose key stopped it. */
  datatype Pc =
    | Polling(start: real)
    | Blocked(start: real, tried: real, holder: Entry)
    | Inside(until: real)
    | Checked(until: real, owned: bool)
    | Left
    | TimedOut(start: real, tried: real, measured: real, holder: Entry)

  datatype Sys = Sys(clock: real, key: Option<Entry>, pcs: map<Client, Pc>)

  const INITIAL := Sys(0.0, None, map[])

  datatype Config = Config(lease: real, maxWait: real)

  datatype Action =
    | Tick(elapsed: real)
    | Start(c: Client)
    | TrySet(c: Client)
    | Measure(c: Client)
    | GetValue(c: Client)
    | Release(c: Client)
    | Abandon(c: Client)

  function At(s: Sys, c: Client, pc: Pc): Sys {
    s.(pcs := s.pcs[c := pc])
  }

  ghost predicate Next(cfg: Config, s: Sys, a: Action, s': Sys) {
    match a
    case Tick(d) => d >= 0.0 && s' == s.(clock := s.clock + d)
    case Start(c) => c !in s.pcs && s' == At(s, c, Polling(s.clock))
    case TrySet(c) =>
      && c in s.pcs && s.pcs[c].Polling?
      && s' == At(s, c, if Live(s.key, s.clock) then Blocked(s.pcs[c].start, s.clock, s.key.value)
                        else Inside(s.clock + cfg.lease)).(key := AfterSet(s.key, s.clock, c, cfg.lease))
    case Measure(c) =>
      && c in s.pcs && s.pcs[c].Blocked?
      && var b := s.pcs[c];
         s' == At(s, c, if s.clock - b.start > cfg.maxWait then TimedOut(b.start, b.tried, s.clock, b.holder)
                        else Polling(b.start))
    case GetValue(c) =>
      && c in s.pcs && s.pcs[c].Inside?
      && s' == At(s, c, Checked(s.pcs[c].until, OwnerAt(s.key, s.clock) == Some(c)))
    case Release(c) =>
      && c in s.pcs && s.pcs[c].Checked?
      && s' == if s.pcs[c].owned then At(s, c, Left).(key := None) else At(s, c, Left)
    case Abandon(c) =>
      // The process dies inside: no release runs, and the lease is left to expire.
      && c in s.pcs && (s.pcs[c].Inside? || s.pcs[c].Checked?)
      && s' == At(s, c, Left)
  }

  ghost predicate Run(cfg: Config, states: seq<Sys>, actions: seq<Action>) {
    && |states| == |actions| + 1
    && states[0] == INITIAL
    && forall k :: 0 <= k < |actions| ==> Next(cfg, states[k], actions[k], states[k + 1])
  }

  /** Every DELETE that is sent reaches Redis before its sender's lease ends. */
  predicate PromptRelease(s: Sys, a: Action) {
    match a
    case Release(c) => c in s.pcs && s.pcs[c].Checked? && s.pcs[c].owned ==> s.clock < s.pcs[c].until
    case _ => true
  }

  ghost predicate PromptRun(states: seq<Sys>, actions: seq<Action>) {
    |states| == |actions| + 1 && forall k :: 0 <= k < |actions| ==> PromptRelease(states[k], actions[k])
  }

  /** The client may still touch the key: it is inside, or about to DELETE. */
  predicate Holds(pc: Pc) {
    pc.Inside? || (pc.Checked? && pc.owned)
  }

  // ----- exclusion under leases --------------------------------------------------

  /** Within its lease, a holder's own entry is under the key. */
  ghost predicate LeasesOwned(s: Sys) {
    forall c :: c in s.pcs && Holds(s.pcs[c]) && s.clock < s.pcs[c].until ==>
      s.key == Some(Entry(c, s.pcs[c].until))
  }

  predicate InsideLease(s: Sys, c: Client) {
    c in s.pcs && s.pcs[c].Inside? && s.clock < s.pcs[c].until
  }

  predicate HeldBy(s: Sys, e: Entry) {
    e.owner in s.pcs && Holds(s.pcs[e.owner]) && s.pcs[e.owner].until == e.until
  }

  /** A DELETE that is sent does not hit the live key of another holder. It may be late. */
  predicate HarmlessRelease(s: Sys, a: Action) {
    match a
    case Release(c) =>
      c in s.pcs && s.pcs[c].Checked? && s.pcs[c].owned && Live(s.key, s.clock) && s.key.value.owner != c ==>
        !HeldBy(s, s.key.value)
    case _ => true
  }

  ghost predicate HarmlessUpTo(states: seq<Sys>, actions: seq<Action>, n: nat)
    requires n <= |actions| <= |states|
  {
    forall k :: 0 <= k < n ==> HarmlessRelease(states[k], actions[k])
  }

  lemma {:induction false} LeasesKept(cfg: Config, s: Sys, a: Action, s': Sys)
    requires LeasesOwned(s) && Next(cfg, s, a, s') && HarmlessRelease(s, a)
    ensures LeasesOwned(s')
  {
  }

  /** One DELETE keeps every holder's claim exactly when it is harmless: the comparison the
      separate GET made too early. */
  lemma {:induction false} ReleaseSafeIff(cfg: Config, s: Sys, c: Client, s': Sys)
    requires LeasesOwned(s) && Next(cfg, s, Release(c), s')
    ensures LeasesOwned(s') <==> HarmlessRelease(s, Release(c))
  {
    if s.pcs[c].owned && Live(s.key, s.clock) {
      var d := s.key.value.owner;
      if d != c && HeldBy(s, s.key.value) {
        assert s'.pcs[d] == s.pcs[d];
      }
    }
  }

  lemma {:induction false} RunLeases(cfg: Config, states: seq<Sys>, actions: seq<Action>, k: nat)
    requires Run(cfg, states, actions) && k <= |actions| && HarmlessUpTo(states, actions, k)
    ensures LeasesOwned(states[k])
  {
    if k > 0 {
      RunLeases(cfg, states, actions, k - 1);
      LeasesKept(cfg, states[k - 1], actions[k - 1], states[k]);
    }
  }

  /** Every holder keeps its claim throughout a run exactly when every DELETE is harmless. */
  lemma {:induction false} LeasesOwnedIff(cfg: Config, states: seq<Sys>, actions: seq<Action>, n: nat)
    requires Run(cfg, states, actions) && n <= |actions|
    ensures (forall k :: 0 <= k <= n ==> LeasesOwned(states[k])) <==> HarmlessUpTo(states, actions, n)
  {
    if HarmlessUpTo(states, actions, n) {
      forall k | 0 <= k <= n ensures LeasesOwned(states[k]) {
        RunLeases(cfg, states, actions, k);
      }
    } else {
      var k :| 0 <= k < n && !HarmlessRelease(states[k], actions[k]);
      assert Next(cfg, states[k], actions[k], states[k + 1]);
      if LeasesOwned(states[k]) {
        ReleaseSafeIff(cfg, states[k], actions[k].c, states[k + 1]);
      }
    }
  }

  /** As long as every DELETE was harmless, at most one client is inside within its lease. */
  lemma {:induction false} Exclusion(cfg: Config, states: seq<Sys>, actions: seq<Action>, k: nat, c: Client, d: Client)
    requires Run(cfg, states, actions) && k <= |actions| && HarmlessUpTo(states, actions, k)
    requires InsideLease(states[k], c) && InsideLease(states[k], d)
    ensures c == d
  {
    RunLeases(cfg, states, actions, k);
  }

  /** ... and a DELETE that is on time removes its own client's key, however late the others. */
  lemma {:induction false} DeletesOwnKey(cfg: Config, states: seq<Sys>, actions: seq<Action>, k: nat, c: Client)
    requires Run(cfg, states, actions) && k < |actions| && HarmlessUpTo(states, actions, k)
    requires actions[k] == Release(c) && states[k + 1].key != states[k].key && PromptRelease(states[k], actions[k])
    ensures states[k].key == Some(Entry(c, states[k].pcs[c].until))
  {
    RunLeases(cfg, states, actions, k);
    assert Next(cfg, states[k], actions[k], states[k + 1]);
  }

  /** When no DELETE is late, none does harm. */
  lemma {:induction false} PromptIsHarmless(cfg: Config, states: seq<Sys>, actions: seq<Action>, n: nat)
    requires Run(cfg, states, actions) && PromptRun(states, actions) && n <= |actions|
    ensures HarmlessUpTo(states, actions, n)
  {
    if n > 0 {
      PromptIsHarmless(cfg, states, actions, n - 1);
      RunLeases(cfg, states, actions, n - 1);
      assert PromptRelease(states[n - 1], actions[n - 1]);
    }
  }

  /** So without late DELETEs clients exclude each other and delete only their own keys. */
  lemma {:induction false} PromptExclusion(cfg: Config, states: seq<Sys>, actions: seq<Action>, k: nat)
    requires Run(cfg, states, actions) && PromptRun(states, actions) && k < |actions|
    ensures forall c, d :: InsideLease(states[k], c) && InsideLease(states[k], d) ==> c == d
    ensures actions[k].Release? && states[k + 1].key != states[k].key ==>
              states[k].key == Some(Entry(actions[k].c, states[k].pcs[actions[k].c].until))
  {
    PromptIsHarmless(cfg, states, actions, k);
    RunLeases(cfg, states, actions, k);
    if actions[k].Release? && states[k + 1].key != states[k].key {
      DeletesOwnKey(cfg, states, actions, k, actions[k].c);
    }
  }

  // ----- what the comparison is for -----------------------------------------------------

  /** A DELETE is sent only by a client whose GET found its own value under a live key. */
  lemma {:induction false} DeletesOnlyIfFound(cfg: Config, states: seq<Sys>, actions: seq<Action>, k: nat, c: Client)
    returns (j: nat)
    requires Run(cfg, states, actions) && k <= |actions|
    requires c in states[k].pcs && states[k].pcs[c].Checked? && states[k].pcs[c].owned
    ensures j < k && actions[j] == GetValue(c)
    ensures Live(states[j].key, states[j].clock) && states[j].key.value.owner == c
  {
    assert Next(cfg, states[k - 1], actions[k - 1], states[k]);
    if actions[k - 1] == GetValue(c) {
      j := k - 1;
    } else {
      j := DeletesOnlyIfFound(cfg, states, actions, k - 1, c);
    }
  }

  /** ... and a client whose GET found no key, or another's, leaves the key alone. */
  lemma {:induction false} ForeignKeyLeft(cfg: Config, s: Sys, c: Client, s': Sys, a: Action, s'': Sys)
    requires Next(cfg, s, GetValue(c), s') && !(Live(s.key, s.clock) && s.key.value.owner == c)
    requires s'.pcs[c].Checked? && a == Release(c) && Next(cfg, s', a, s'')
    ensures s''.key == s.key
  {
  }

  /** Every release is a GET and, with nothing in between, the DELETE it decides on. */
  ghost predicate AtomicReleases(actions: seq<Action>) {
    forall k :: 0 <= k < |actions| && actions[k].Release? ==> k > 0 && actions[k - 1] == GetValue(actions[k].c)
  }

  /** Were compare and delete one step, no DELETE would do harm and clients would exclude each
      other, however long their work outlives their leases. */
  lemma {:induction false} AtomicReleasesExclude(cfg: Config, states: seq<Sys>, actions: seq<Action>)
    requires Run(cfg, states, actions) && AtomicReleases(actions)
    ensures HarmlessUpTo(states, actions, |actions|) && Excludes(states)
  {
    forall k | 0 <= k < |actions| ensures HarmlessRelease(states[k], actions[k]) {
      if actions[k].Release? {
        assert Next(cfg, states[k - 1], actions[k - 1], states[k]);
      }
    }
    forall k, c, d | 0 <= k < |states| && InsideLease(states[k], c) && InsideLease(states[k], d) ensures c == d {
      Exclusion(cfg, states, actions, k, c, d);
    }
  }

  // ----- what goes wrong when a DELETE is late ------------------------------------

  lemma {:induction false} Extend(cfg: Config, states: seq<Sys>, actions: seq<Action>, a: Action, s': Sys)
    returns (states': seq<Sys>, actions': seq<Action>)
    requires Run(cfg, states, actions) && Next(cfg, states[|actions|], a, s')
    ensures states' == states + [s'] && actions' == actions + [a]
    ensures Run(cfg, states', actions')
  {
    states', actions' := states + [s'], actions + [a];
  }

  /** Client 0 has found its own value but not sent its DELETE, its lease is just over, and
      client 1 is inside; client 2 is polling. */
  function LateHolder(lease: real): Sys {
    Sys(lease, Some(Entry(1, lease + lease)),
        map[0 := Checked(lease, true), 1 := Inside(lease + lease), 2 := Polling(0.0)])
  }

  lemma {:induction false} LateHolderRun(cfg: Config) returns (states: seq<Sys>, actions: seq<Action>)
    requires cfg.lease > 0.0
    ensures Run(cfg, states, actions) && states[|actions|] == LateHolder(cfg.lease)
    ensures actions == [Start(0), Start(1), Start(2), TrySet(0), GetValue(0), Tick(cfg.lease), TrySet(1)]
  {
    var s3 := INITIAL.(pcs := map[0 := Polling(0.0), 1 := Polling(0.0), 2 := Polling(0.0)]);
    var s4 := At(s3, 0, Inside(cfg.lease)).(key := Some(Entry(0, cfg.lease)));
    var s5 := At(s4, 0, Checked(cfg.lease, true));
    var s6 := s5.(clock := cfg.lease);
    states, actions := [INITIAL], [];
    states, actions := Extend(cfg, states, actions, Start(0), At(INITIAL, 0, Polling(0.0)));
    states, actions := Extend(cfg, states, actions, Start(1), At(At(INITIAL, 0, Polling(0.0)), 1, Polling(0.0)));
    states, actions := Extend(cfg, states, actions, Start(2), s3);
    states, actions := Extend(cfg, states, actions, TrySet(0), s4);
    states, actions := Extend(cfg, states, actions, GetValue(0), s5);
    states, actions := Extend(cfg, states, actions, Tick(cfg.lease), s6);
    states, actions := Extend(cfg, states, actions, TrySet(1), LateHolder(cfg.lease));
  }

  /** A GET just before expiry and a DELETE right after it: clients 1 and 2 end up inside
      together, both within their leases. */
  lemma {:induction false} LateDeleteBreaksExclusion(cfg: Config) returns (states: seq<Sys>, actions: seq<Action>)
    requires cfg.lease > 0.0
    ensures Run(cfg, states, actions) && |actions| == 9
    ensures actions[..7] == [Start(0), Start(1), Start(2), TrySet(0), GetValue(0), Tick(cfg.lease), TrySet(1)]
    ensures actions[7] == Release(0) && actions[8] == TrySet(2) && states[7] == LateHolder(cfg.lease)
    ensures InsideLease(states[9], 1) && InsideLease(states[9], 2)
  {
    var until := cfg.lease + cfg.lease;
    states, actions := LateHolderRun(cfg);
    var s8 := At(LateHolder(cfg.lease), 0, Left).(key := None);
    states, actions := Extend(cfg, states, actions, Release(0), s8);
    var s9 := At(s8, 2, Inside(until)).(key := Some(Entry(2, until)));
    states, actions := Extend(cfg, states, actions, TrySet(2), s9);
  }

  /** Client 1's GET and DELETE both fall inside its own lease, and its DELETE still removes
      client 2's live key, because client 0's late one came in between. */
  lemma {:induction false} LateDeleteSpoilsPromptClient(cfg: Config) returns (states: seq<Sys>, actions: seq<Action>)
    requires cfg.lease > 0.0
    ensures Run(cfg, states, actions) && |actions| == 11 && actions[10] == Release(1)
    ensures var s := states[10];
            && 1 in s.pcs && s.pcs[1].Checked? && s.pcs[1].owned && s.clock < s.pcs[1].until
            && Live(s.key, s.clock) && s.key.value.owner == 2 && states[11].key == None
  {
    var until := cfg.lease + cfg.lease;
    states, actions := LateHolderRun(cfg);
    var s8 := At(LateHolder(cfg.lease), 1, Checked(until, true));
    states, actions := Extend(cfg, states, actions, GetValue(1), s8);
    var s9 := At(s8, 0, Left).(key := None);
    states, actions := Extend(cfg, states, actions, Release(0), s9);
    var s10 := At(s9, 2, Inside(until)).(key := Some(Entry(2, until)));
    states, actions := Extend(cfg, states, actions, TrySet(2), s10);
    var s11 := At(s10, 1, Left).(key := None);
    states, actions := Extend(cfg, states, actions, Release(1), s11);
  }

  // ----- how long a client may hold the lock -----------------------------------------

  /** A DELETE that is sent reaches Redis at most `hold` after its client's SET. */
  predicate HeldAtMost(cfg: Config, s: Sys, a: Action, hold: real) {
    match a
    case Release(c) =>
      c in s.pcs && s.pcs[c].Checked? && s.pcs[c].owned ==> s.clock <= s.pcs[c].until - cfg.lease + hold
    case _ => true
  }

  ghost predicate HoldRun(cfg: Config, states: seq<Sys>, actions: seq<Action>, hold: real)
    requires |states| == |actions| + 1
  {
    forall k :: 0 <= k < |actions| ==> HeldAtMost(cfg, states[k], actions[k], hold)
  }

  ghost predicate Excludes(states: seq<Sys>) {
    forall k, c, d :: 0 <= k < |states| && InsideLease(states[k], c) && InsideLease(states[k], d) ==> c == d
  }

  ghost predicate HoldExcludes(cfg: Config, states: seq<Sys>, actions: seq<Action>, hold: real) {
    Run(cfg, states, actions) && HoldRun(cfg, states, actions, hold) ==> Excludes(states)
  }

  /** Clients that hold the lock at most that long exclude each other in every run exactly when
      that is shorter than the lease. */
  lemma {:induction false} HoldExcludesIff(cfg: Config, hold: real)
    requires cfg.lease > 0.0
    ensures (forall states, actions :: HoldExcludes(cfg, states, actions, hold)) <==> hold < cfg.lease
  {
    if hold < cfg.lease {
      forall states, actions ensures HoldExcludes(cfg, states, actions, hold) {
        if Run(cfg, states, actions) && HoldRun(cfg, states, actions, hold) {
          ShortHoldExcludes(cfg, states, actions, hold);
        }
      }
    } else {
      var states, actions := LateDeleteBreaksExclusion(cfg);
      forall k | 0 <= k < |actions| ensures HeldAtMost(cfg, states[k], actions[k], hold) {
        assert k < 7 ==> actions[k] == actions[..7][k];
      }
      assert !Excludes(states);
      assert !HoldExcludes(cfg, states, actions, hold);
    }
  }

  lemma {:induction false} ShortHoldExcludes(cfg: Config, states: seq<Sys>, actions: seq<Action>, hold: real)
    requires Run(cfg, states, actions) && HoldRun(cfg, states, actions, hold) && hold < cfg.lease
    ensures Excludes(states)
  {
    forall k | 0 <= k < |actions| ensures PromptRelease(states[k], actions[k]) {
      assert HeldAtMost(cfg, states[k], actions[k], hold);
    }
    forall k, c, d | 0 <= k < |states| && InsideLease(states[k], c) && InsideLease(states[k], d) ensures c == d {
      PromptIsHarmless(cfg, states, actions, k);
      Exclusion(cfg, states, actions, k, c, d);
    }
  }

  // ----- waiting -------------------------------------------------------------------

  /** A waiter's times are in order, and the key that stopped it was live when it tried. */
  ghost predicate WaitsTimed(cfg: Config, s: Sys) {
    && (forall c :: c in s.pcs && s.pcs[c].Polling? ==> s.pcs[c].start <= s.clock)
    && (forall c :: c in s.pcs && s.pcs[c].Blocked? ==>
          s.pcs[c].tried < s.pcs[c].holder.until && s.pcs[c].start <= s.pcs[c].tried <= s.clock)
    && (forall c :: c in s.pcs && s.pcs[c].TimedOut? ==>
          && s.pcs[c].tried < s.pcs[c].holder.until && s.pcs[c].start <= s.pcs[c].tried <= s.pcs[c].measured
          && s.pcs[c].measured - s.pcs[c].start > cfg.maxWait)
  }

  lemma {:induction false} RunWaitsTimed(cfg: Config, states: seq<Sys>, actions: seq<Action>, k: nat)
    requires Run(cfg, states, actions) && k <= |actions|
    ensures WaitsTimed(cfg, states[k])
  {
    if k > 0 {
      RunWaitsTimed(cfg, states, actions, k - 1);
      StepWaitsTimed(cfg, states[k - 1], actions[k - 1], states[k]);
    }
  }

  lemma {:induction false} StepWaitsTimed(cfg: Config, s: Sys, a: Action, s': Sys)
    requires WaitsTimed(cfg, s) && Next(cfg, s, a, s')
    ensures WaitsTimed(cfg, s')
  {
  }

  /** Step `j` is a SET that acquires the key. */
  ghost predicate Acquires(states: seq<Sys>, actions: seq<Action>, j: nat)
    requires j < |actions| <= |states|
  {
    actions[j].TrySet? && !Live(states[j].key, states[j].clock)
  }

  /** Step `j` acquires the key as exactly this entry. */
  ghost predicate Acquired(cfg: Config, states: seq<Sys>, actions: seq<Action>, j: nat, e: Entry)
    requires j < |actions| < |states|
  {
    Acquires(states, actions, j) && e == Entry(actions[j].c, states[j].clock + cfg.lease) &&
        states[j + 1].key == Some(e)
  }

  /** What is under the key was put there by an acquisition, a lease before it expires. */
  lemma {:induction false} KeyOrigin(cfg: Config, states: seq<Sys>, actions: seq<Action>, k: nat) returns (j: nat)
    requires Run(cfg, states, actions) && k <= |actions| && states[k].key.Some?
    ensures j < k && Acquired(cfg, states, actions, j, states[k].key.value)
  {
    assert Next(cfg, states[k - 1], actions[k - 1], states[k]);
    if Acquires(states, actions, k - 1) {
      j := k - 1;
    } else {
      j := KeyOrigin(cfg, states, actions, k - 1);
    }
  }

  /** So was the key that stopped a waiter. */
  lemma {:induction false} HolderOrigin(cfg: Config, states: seq<Sys>, actions: seq<Action>, k: nat, c: Client)
      returns (j: nat)
    requires Run(cfg, states, actions) && k <= |actions|
    requires c in states[k].pcs && (states[k].pcs[c].Blocked? || states[k].pcs[c].TimedOut?)
    ensures j < k && Acquired(cfg, states, actions, j, states[k].pcs[c].holder)
  {
    assert Next(cfg, states[k - 1], actions[k - 1], states[k]);
    if actions[k - 1] == TrySet(c) {
      j := KeyOrigin(cfg, states, actions, k - 1);
    } else {
      j := HolderOrigin(cfg, states, actions, k - 1, c);
    }
  }

  /** Before step `k`, some client acquired the key later than `start`. */
  ghost predicate Overtaken(states: seq<Sys>, actions: seq<Action>, k: nat, start: real)
    requires k <= |actions| <= |states|
  {
    exists j :: 0 <= j < k && Acquires(states, actions, j) && states[j].clock > start
  }

  /** A timed-out client whose last answer took at most `delay` to come back. */
  ghost predicate TimedOutWithin(s: Sys, c: Client, delay: real) {
    c in s.pcs && s.pcs[c].TimedOut? && s.pcs[c].measured - s.pcs[c].tried <= delay
  }

  /** If the wait budget covers a lease plus the time an answer took to come back, the client
      whose key stopped a timed-out waiter acquired it after the waiter arrived. */
  lemma {:induction false} TimeoutMeansOvertaken(cfg: Config, states: seq<Sys>, actions: seq<Action>, k: nat,
                                                 c: Client, delay: real)
    returns (j: nat)
    requires Run(cfg, states, actions) && k <= |actions|
    requires TimedOutWithin(states[k], c, delay) && cfg.maxWait >= cfg.lease + delay
    ensures j < k && Acquired(cfg, states, actions, j, states[k].pcs[c].holder)
    ensures states[j].clock > states[k].pcs[c].start
  {
    RunWaitsTimed(cfg, states, actions, k);
    j := HolderOrigin(cfg, states, actions, k, c);
  }

  /** Client 0 takes the free key at 0; then the clock moves on to `later`. */
  lemma {:induction false} HolderThenTick(cfg: Config, later: real, waits: bool)
      returns (states: seq<Sys>, actions: seq<Action>)
    requires cfg.lease > 0.0 && later >= 0.0
    ensures Run(cfg, states, actions) && states[0] == INITIAL
    ensures actions == [Start(0), TrySet(0)] + (if waits then [Start(1)] else []) + [Tick(later)]
    ensures states[|actions|] == Sys(later, Some(Entry(0, cfg.lease)),
                                     if waits then map[0 := Inside(cfg.lease), 1 := Polling(0.0)]
                                         else map[0 := Inside(cfg.lease)])
    ensures forall k :: 0 <= k < |actions| ==> states[k].clock == 0.0
  {
    var e := Entry(0, cfg.lease);
    var s2 := Sys(0.0, Some(e), map[0 := Inside(cfg.lease)]);
    states, actions := [INITIAL], [];
    states, actions := Extend(cfg, states, actions, Start(0), At(INITIAL, 0, Polling(0.0)));
    states, actions := Extend(cfg, states, actions, TrySet(0), s2);
    if waits {
      states, actions := Extend(cfg, states, actions, Start(1), At(s2, 1, Polling(0.0)));
    }
    var s := states[|actions|];
    states, actions := Extend(cfg, states, actions, Tick(later), s.(clock := later));
  }

  /** With any smaller budget an answer that slow times a waiter out although nobody acquired
      the key after it arrived. */
  lemma {:induction false} SlowAnswerTimesOut(cfg: Config, delay: real) returns (states: seq<Sys>, actions: seq<Action>)
    requires cfg.lease > 0.0 && delay >= 0.0 && cfg.maxWait < cfg.lease + delay
    ensures Run(cfg, states, actions) && |actions| == 7
    ensures TimedOutWithin(states[7], 1, delay) && !Overtaken(states, actions, 7, states[7].pcs[1].start)
  {
    var tried := MaxReal(0.0, (cfg.maxWait - delay + cfg.lease) / 2.0);
    var e := Entry(0, cfg.lease);
    states, actions := HolderThenTick(cfg, tried, true);
    var s5 := At(states[4], 1, Blocked(0.0, tried, e));
    var s6 := s5.(clock := tried + delay);
    var s7 := At(s6, 1, TimedOut(0.0, tried, tried + delay, e));
    states, actions := Extend(cfg, states, actions, TrySet(1), s5);
    states, actions := Extend(cfg, states, actions, Tick(delay), s6);
    states, actions := Extend(cfg, states, actions, Measure(1), s7);
    assert Live(states[4].key, states[4].clock);
  }

  ghost predicate Tells(cfg: Config, states: seq<Sys>, actions: seq<Action>, c: Client, delay: real) {
    Run(cfg, states, actions) && TimedOutWithin(states[|actions|], c, delay) ==>
      Overtaken(states, actions, |actions|, states[|actions|].pcs[c].start)
  }

  /** Timeouts tell of an acquisition after the waiter's arrival, in every run whose answers take
      at most `delay`, exactly when the budget covers a lease and that delay. */
  lemma {:induction false} TimeoutTellsIff(cfg: Config, delay: real)
    requires cfg.lease > 0.0 && delay >= 0.0
    ensures (forall states, actions, c :: Tells(cfg, states, actions, c, delay)) <==> cfg.maxWait >= cfg.lease + delay
  {
    if cfg.maxWait >= cfg.lease + delay {
      forall states, actions, c ensures Tells(cfg, states, actions, c, delay) {
        if Run(cfg, states, actions) && TimedOutWithin(states[|actions|], c, delay) {
          var j := TimeoutMeansOvertaken(cfg, states, actions, |actions|, c, delay);
          assert Acquires(states, actions, j);
        }
      }
    } else {
      var states, actions := SlowAnswerTimesOut(cfg, delay);
      assert !Tells(cfg, states, actions, 1, delay);
    }
  }

  // ----- the config read ---------------------------------------------------------------

  /** A reader's last poll in a run: the states in which it arrived, in which Redis ran its GET,
      and in which it read the clock afterwards. */
  datatype Read = Read(arrived: nat, tried: nat, answered: nat)

  ghost predicate Reads(states: seq<Sys>, r: Read) {
    r.arrived <= r.tried <= r.answered < |states|
  }

  /** The poll as the reader sees it. */
  function PollAt(states: seq<Sys>, r: Read): Poll
    requires Reads(states, r)
  {
    var s := states[r.tried];
    Poll(s.clock, if Live(s.key, s.clock) then s.key else None, states[r.answered].clock)
  }

  /** The reader raises: it found a key, its budget is used up, and the answer took at most `delay`. */
  ghost predicate GaveUpWithin(states: seq<Sys>, r: Read, timeout: real, delay: real)
    requires Reads(states, r)
  {
    var poll := PollAt(states, r);
    && poll.seen.Some? && poll.measured - states[r.arrived].clock >= timeout
    && poll.measured - poll.at <= delay
  }

  /** If its budget covers a lease plus that delay, the client whose key the reader found acquired
      it after the reader arrived. */
  lemma {:induction false} ReadTimeoutMeansOvertaken(cfg: Config, states: seq<Sys>, actions: seq<Action>, r: Read,
                                                     timeout: real, delay: real) returns (j: nat)
    requires Run(cfg, states, actions) && Reads(states, r) && GaveUpWithin(states, r, timeout, delay)
    requires timeout >= cfg.lease + delay
    ensures j < r.tried && Acquired(cfg, states, actions, j, PollAt(states, r).seen.value)
    ensures states[j].clock > states[r.arrived].clock
  {
    j := KeyOrigin(cfg, states, actions, r.tried);
  }

  /** With any smaller budget a reader gives up although nobody acquired the key after it arrived. */
  lemma {:induction false} SlowAnswerFailsRead(cfg: Config, timeout: real, delay: real)
    returns (states: seq<Sys>, actions: seq<Action>, r: Read)
    requires cfg.lease > 0.0 && delay >= 0.0 && timeout < cfg.lease + delay
    ensures Run(cfg, states, actions) && Reads(states, r) && GaveUpWithin(states, r, timeout, delay)
    ensures !Overtaken(states, actions, r.tried, states[r.arrived].clock)
  {
    var tried := MaxReal(0.0, timeout - delay);
    states, actions := HolderThenTick(cfg, tried, false);
    states, actions := Extend(cfg, states, actions, Tick(delay), states[3].(clock := tried + delay));
    r := Read(2, 3, 4);
  }

  ghost predicate ReadTells(cfg: Config, states: seq<Sys>, actions: seq<Action>, r: Read, timeout: real, delay: real) {
    Run(cfg, states, actions) && Reads(states, r) && GaveUpWithin(states, r, timeout, delay) ==>
      Overtaken(states, actions, r.tried, states[r.arrived].clock)
  }

  /** A read that gives up tells of an acquisition after its arrival, in every run whose answers
      take at most `delay`, exactly when its budget covers a lease and that delay. */
  lemma {:induction false} ReadTellsIff(cfg: Config, timeout: real, delay: real)
    requires cfg.lease > 0.0 && delay >= 0.0
    ensures (forall states, actions, r :: ReadTells(cfg, states, actions, r, timeout, delay)) <==>
        timeout >= cfg.lease + delay
  {
    if timeout >= cfg.lease + delay {
      forall states, actions, r ensures ReadTells(cfg, states, actions, r, timeout, delay) {
        if Run(cfg, states, actions) && Reads(states, r) && GaveUpWithin(states, r, timeout, delay) {
          var j := ReadTimeoutMeansOvertaken(cfg, states, actions, r, timeout, delay);
          assert Acquires(states, actions, j);
        }
      }
    } else {
      var states, actions, r := SlowAnswerFailsRead(cfg, timeout, delay);
      assert !ReadTells(cfg, states, actions, r, timeout, delay);
    }
  }

  // ----- the polling loops -----------------------------------------------------------

  /** One poll: Redis ran it at `at` and found `seen`; the clock read `measured` afterwards. */
  datatype Poll = Poll(at: real, seen: Option<Entry>, measured: real)

  /** What the polls of one caller can look like, whatever other clients do. */
  ghost predicate Polls(polls: nat -> Poll, start: real, interval: real) {
    && polls(0).at >= start
    && (forall k: nat :: polls(k).at <= polls(k).measured)
    && (forall j: nat, k: nat :: j + 1 == k ==> polls(j).measured + interval <= polls(k).at)
    && (forall k: nat :: polls(k).seen.Some? ==> Live(polls(k).seen, polls(k).at))
  }

  /** No loop of this kind polls more often than this. */
  function MostPolls(budget: real, interval: real): (most: nat)
    requires interval > 0.0
    ensures most >= 1
  {
    if budget < 0.0 then 1
    else
      AtMostQuotient(0.0, budget, interval);
      (budget / interval).Floor + 2
  }

  /** The acquire loop stops at the first free key, or at the first check over the budget. */
  method AcquireLoop(polls: nat -> Poll, start: real, maxWait: real, interval: real)
    returns (acquired: bool, tries: nat)
    requires interval > 0.0 && Polls(polls, start, interval)
    ensures 1 <= tries <= MostPolls(maxWait, interval)
    ensures tries > 1 ==> (tries - 2) as real * interval <= maxWait
    ensures forall k: nat :: k < tries - 1 ==> polls(k).seen.Some? && polls(k).measured - start <= maxWait
    ensures acquired <==> polls(tries - 1).seen.None?
    ensures !acquired ==> polls(tries - 1).measured - start > maxWait
  {
    tries := 0;
    while true
      invariant tries == 0 || tries + 1 <= MostPolls(maxWait, interval)
      invariant tries > 0 ==> (tries - 1) as real * interval <= maxWait
      invariant forall k: nat :: k < tries ==> polls(k).seen.Some? && polls(k).measured - start <= maxWait
      decreases MostPolls(maxWait, interval) - tries
    {
      var poll := polls(tries);
      tries := tries + 1;
      if poll.seen.None? {
        return true, tries;
      }
      if poll.measured - start > maxWait {
        return false, tries;
      }
      PollsFit(polls, start, maxWait, interval, tries - 1);
    }
  }

  /** The config read waits the same way, but gives up as soon as the budget is reached. */
  method CheckNoConfigLock(polls: nat -> Poll, start: real, timeout: real, interval: real)
    returns (free: bool, tries: nat)
    requires interval > 0.0 && Polls(polls, start, interval)
    ensures 1 <= tries <= MostPolls(timeout, interval)
    ensures tries > 1 ==> (tries - 2) as real * interval <= timeout
    ensures forall k: nat :: k < tries - 1 ==> polls(k).seen.Some? && polls(k).measured - start < timeout
    ensures free <==> polls(tries - 1).seen.None?
    ensures !free ==> polls(tries - 1).measured - start >= timeout
  {
    tries := 0;
    while true
      invariant tries == 0 || tries + 1 <= MostPolls(timeout, interval)
      invariant tries > 0 ==> (tries - 1) as real * interval <= timeout
      invariant forall k: nat :: k < tries ==> polls(k).seen.Some? && polls(k).measured - start < timeout
      decreases MostPolls(timeout, interval) - tries
    {
      var poll := polls(tries);
      tries := tries + 1;
      if poll.seen.None? {
        return true, tries;
      }
      if poll.measured - start >= timeout {
        return false, tries;
      }
      PollsFit(polls, start, timeout, interval, tries - 1);
    }
  }

  lemma {:induction false} PollsFit(polls: nat -> Poll, start: real, budget: real, interval: real, k: nat)
    requires interval > 0.0 && Polls(polls, start, interval) && polls(k).measured - start <= budget
    ensures k + 2 <= MostPolls(budget, interval)
    ensures k as real * interval <= budget
  {
    PollsElapse(polls, start, interval, k);
    AtMostQuotient(k as real, budget, interval);
  }

  lemma {:induction false} PollsElapse(polls: nat -> Poll, start: real, interval: real, k: nat)
    requires interval > 0.0 && Polls(polls, start, interval)
    ensures 0.0 <= k as real * interval <= polls(k).at - start
  {
    if k > 0 {
      PollsElapse(polls, start, interval, k - 1);
      var j := k - 1;
      var before := j as real * interval;
      assert k as real * interval == before + interval by {
        assert k as real == j as real + 1.0;
        OneMore(j as real, interval);
      }
      assert polls(j).at <= polls(j).measured && polls(j).measured + interval <= polls(k).at;
      assert before <= polls(j).at - start;
    }
  }

  lemma {:induction false} OneMore(k: real, interval: real)
    ensures (k + 1.0) * interval == k * interval + interval
  {
  }

  lemma {:induction false} AtMostQuotient(k: real, budget: real, interval: real)
    requires interval > 0.0 && k * interval <= budget
    ensures k <= budget / interval
  {
    var q := budget / interval;
    assert q * interval == budget;
    assert (q - k) * interval >= 0.0;
  }
}
