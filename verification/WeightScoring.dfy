/**
 * Weight-mode scoring of one login: cumulative weights, hazard rules with
 * their floor, familiarity, list overrides, and the decay on clean logins.
 */
module WeightScoring {
  import opened Prelude

  type Param = nat

  /** Deployment settings, under their environment names. */
  datatype Deployment = Deployment(
    defaultLevel: int,    // DEFAULT_RISK_LEVEL
    t2: int, t3: int,     // WEIGHT_RISK_BANDS
    hazardParams: int,    // HAZARD_CHANGED_PARAMS_THRESHOLD
    hazardFailures: int,  // HAZARD_FAILED_ATTEMPTS_THRESHOLD
    minEvents: int,       // MIN_AUTH_EVENTS
    decayDays: int,       // DROP_DOWN_DECAY_DAYS
    decaySteps: int)      // DROP_DOWN_DECAY_STEPS

  /** Everything a login is scored in besides the signals that changed. `weight` gives the
      configured weight of a parameter, 3 when it has none. */
  datatype Context = Context(
    weight: Param -> int,
    last: int, secondLast: int,
    validAuths: nat, failures24h: nat,
    deviceCredibility: real, netLocCredibility: real,
    blacklisted: nat, whitelisted: nat,
    idleMs: Option<real>)

  // ----- cumulative weight ------------------------------------------------------

  ghost function Weigh(weight: Param -> int, s: set<Param>): int {
    if s == {} then 0
    else var p :| p in s; weight(p) + Weigh(weight, s - {p})
  }

  lemma {:induction false} WeighRemove(weight: Param -> int, s: set<Param>, p: Param)
    requires p in s
    ensures Weigh(weight, s) == weight(p) + Weigh(weight, s - {p})
  {
    var q :| q in s && Weigh(weight, s) == weight(q) + Weigh(weight, s - {q});
    if q != p {
      WeighRemove(weight, s - {q}, p);
      WeighRemove(weight, s - {p}, q);
      assert s - {q} - {p} == s - {p} - {q};
    }
  }

  /** With non-negative weights, more changed signals never weigh less. */
  lemma {:induction false} WeighMonotone(weight: Param -> int, a: set<Param>, b: set<Param>)
    requires a <= b && forall p :: p in b ==> weight(p) >= 0
    ensures Weigh(weight, a) <= Weigh(weight, b)
    decreases |b - a|
  {
    if b - a == {} {
      assert a == b;
    } else {
      var p :| p in b - a;
      assert b - (a + {p}) == (b - a) - {p};
      WeighRemove(weight, a + {p}, p);
      assert (a + {p}) - {p} == a;
      WeighMonotone(weight, a + {p}, b);
    }
  }

  // ----- levels -------------------------------------------------------------------

  function BandLevel(d: Deployment, weight: int): int {
    if weight >= d.t3 then 3 else if weight >= d.t2 then d.defaultLevel else 1
  }

  ghost function PartialLevel(d: Deployment, ctx: Context, changed: set<Param>): int {
    if changed == {} then 1 else BandLevel(d, Weigh(ctx.weight, changed))
  }

  /** A level together with the floor later adjustments must respect; 0 is no floor. */
  datatype Scored = Scored(level: int, floor: int)

  ghost function Hazard(d: Deployment, ctx: Context, changed: set<Param>): Scored {
    var partial := PartialLevel(d, ctx, changed);
    if |changed| >= d.hazardParams then
      if ctx.failures24h >= d.hazardFailures then Scored(4, 4) else Scored(3, 3)
    else if |changed| < 2 && partial == 3 && ctx.last < 3 then Scored(d.defaultLevel, 0)
    else if partial == 3 && ctx.secondLast >= 3 && ctx.last >= 3
            && ctx.validAuths >= d.minEvents + 2 && ctx.failures24h >= d.hazardFailures then Scored(4, 0)
    else Scored(partial, 0)
  }

  const MS_PER_DAY := 86_400_000

  function DropDown(d: Deployment, ctx: Context): int {
    var stale := ctx.idleMs.Some? && ctx.idleMs.value > (d.decayDays * MS_PER_DAY) as real;
    MaxInt(1, ctx.last - if stale then MaxInt(1, d.decaySteps) else 1)
  }

  function Familiarity(ctx: Context): real {
    ctx.deviceCredibility * 0.55 + ctx.netLocCredibility * 0.45
  }

  function AdjustForCredibility(c: real, s: Scored, whitelisted: bool): int {
    if c < 0.3 then (if !whitelisted && s.level < 3 then 3 else s.level)
    else if c < 0.6 then s.level
    else if c < 0.85 then (if s.level >= 2 && s.level - 1 >= s.floor then s.level - 1 else s.level)
    else if s.level > 1 && s.floor <= 1 then 1 else s.level
  }

  function AdjustForLists(blacklisted: nat, whitelisted: nat, level: int): int {
    if whitelisted == 0 && blacklisted == 0 then level
    else if blacklisted > 0 && whitelisted == 0 then 4
    else if whitelisted > 0 && blacklisted == 0 then (if level >= 2 then 2 else 1)
    else 3
  }

  ghost function Evaluate(d: Deployment, ctx: Context, changed: set<Param>): int {
    var s := if changed != {} || ctx.blacklisted > 0 then Hazard(d, ctx, changed) else Scored(DropDown(d, ctx), 0);
    AdjustForLists(ctx.blacklisted, ctx.whitelisted, AdjustForCredibility(Familiarity(ctx), s, ctx.whitelisted > 0))
  }

  /** The decision stored for a login, behind the history gate. */
  ghost function Decision(d: Deployment, ctx: Context, changed: set<Param>): int {
    if ctx.validAuths < d.minEvents then (if ctx.blacklisted >= 1 then 4 else 3)
    else Evaluate(d, ctx, changed)
  }

  /** Familiarity in twentieths: 11 parts device, 9 parts network location. */
  function Points(ctx: Context): real {
    11.0 * ctx.deviceCredibility + 9.0 * ctx.netLocCredibility
  }

  /** Where the thresholds of the familiarity lie. */
  lemma {:induction false} FamiliarityPoints(ctx: Context)
    ensures Familiarity(ctx) < 0.3 <==> Points(ctx) < 6.0
    ensures Familiarity(ctx) < 0.6 <==> Points(ctx) < 12.0
    ensures Familiarity(ctx) < 0.85 <==> Points(ctx) < 17.0
  {
  }

  // ----- the service --------------------------------------------------------------

  class DecisionService {
    const d: Deployment
    const ctx: Context
    var riskFloor: int

    constructor (d: Deployment, ctx: Context)
      ensures this.d == d && this.ctx == ctx && riskFloor == 0
    {
      this.d, this.ctx, riskFloor := d, ctx, 0;
    }

    method PartialDecisions(changed: set<Param>) returns (level: int)
      ensures level == PartialLevel(d, ctx, changed)
    {
      if changed == {} {
        return 1;
      }
      var total, left := 0, changed;
      while left != {}
        invariant left <= changed
        invariant total + Weigh(ctx.weight, left) == Weigh(ctx.weight, changed)
        decreases left
      {
        var p :| p in left;
        WeighRemove(ctx.weight, left, p);
        total := total + ctx.weight(p);
        left := left - {p};
      }
      if total >= d.t3 {
        return 3;
      }
      return if total >= d.t2 then d.defaultLevel else 1;
    }

    method HazardActivation(changed: set<Param>) returns (level: int)
      requires riskFloor == 0
      modifies this
      ensures Scored(level, riskFloor) == Hazard(d, ctx, changed)
    {
      if |changed| >= d.hazardParams {
        if ctx.failures24h >= d.hazardFailures {
          riskFloor := 4;
          return 4;
        }
        riskFloor := 3;
        return 3;
      }
      var decision := PartialDecisions(changed);
      if |changed| < 2 && decision == 3 && ctx.last < 3 {
        return d.defaultLevel;
      }
      if decision == 3 && ctx.secondLast >= 3 && ctx.last >= 3
         && ctx.validAuths >= d.minEvents + 2 && ctx.failures24h >= d.hazardFailures {
        return 4;
      }
      return decision;
    }

    method EvaluateRisk(changed: set<Param>) returns (level: int)
      requires riskFloor == 0
      modifies this
      ensures level == Evaluate(d, ctx, changed)
    {
      if changed != {} || ctx.blacklisted > 0 {
        level := HazardActivation(changed);
      } else {
        level := DropDown(d, ctx);
      }
      level := AdjustForCredibility(Familiarity(ctx), Scored(level, riskFloor), ctx.whitelisted > 0);
      level := AdjustForLists(ctx.blacklisted, ctx.whitelisted, level);
    }

    method ProcessDecision(changed: set<Param>) returns (level: int)
      requires riskFloor == 0
      modifies this
      ensures level == Decision(d, ctx, changed)
    {
      if ctx.validAuths < d.minEvents {
        level := 3;
        if ctx.blacklisted >= 1 {
          level := 4;
        }
        return;
      }
      level := EvaluateRisk(changed);
    }
  }

  // ----- monotonicity in the changed signals ------------------------------------------

  ghost predicate NonNegative(ctx: Context, s: set<Param>) {
    forall p :: p in s ==> ctx.weight(p) >= 0
  }

  predicate Sane(d: Deployment) {
    1 <= d.defaultLevel <= 3
  }

  /** The settings under which more changes never lower a level: one change already counts as many,
      or the middle level fits between its neighbours wherever it can be given. */
  predicate Orderly(d: Deployment) {
    || d.hazardParams <= 1
    || (d.hazardParams == 2 && (d.defaultLevel <= 3 || (d.hazardFailures <= 0 && d.defaultLevel == 4)))
    || (d.hazardParams >= 3 && d.defaultLevel <= 3 && (d.defaultLevel >= 1 || !(0 < d.t2 < d.t3)))
  }

  /** Hazard activation respects inclusion, in the level and in the floor. */
  lemma {:induction false} HazardMonotone(d: Deployment, ctx: Context, a: set<Param>, b: set<Param>)
    requires Orderly(d) && a != {} && a <= b && NonNegative(ctx, b)
    ensures Hazard(d, ctx, a).level <= Hazard(d, ctx, b).level
    ensures Hazard(d, ctx, a).floor <= Hazard(d, ctx, b).floor
  {
    SubsetCardinality(a, b);
    WeighMonotone(ctx.weight, a, b);
    WeighMonotone(ctx.weight, {}, a);
    assert |a| >= 1 by {
      var p :| p in a;
      SubsetCardinality({p}, a);
    }
    if |b| < 2 {
      SameSize(a, b);
    }
  }

  lemma {:induction false} SameSize(a: set<Param>, b: set<Param>)
    requires a <= b && |a| == |b|
    ensures a == b
  {
    assert b == a + (b - a);
    assert |b - a| == 0;
  }

  /** A floor, when set, is the level itself, and only hazard levels carry one. */
  lemma {:induction false} HazardFloor(d: Deployment, ctx: Context, changed: set<Param>)
    ensures var s := Hazard(d, ctx, changed);
            s.floor == 0 || (s.floor == s.level && s.level >= 3)
    ensures Sane(d) ==> 1 <= Hazard(d, ctx, changed).level <= 4
  {
  }

  /** More changed signals never lower the decision, in any context. */
  lemma {:induction false} MoreChangesNeverSafer(d: Deployment, ctx: Context, a: set<Param>, b: set<Param>)
    requires Orderly(d) && a != {} && a <= b && NonNegative(ctx, b)
    ensures Decision(d, ctx, a) <= Decision(d, ctx, b)
  {
    HazardMonotone(d, ctx, a, b);
    var p :| p in a;
    assert p in b;
    DecisionFollows(d, ctx, a, b);
  }

  /** What happens after hazard activation keeps the order of levels and floors. */
  lemma {:induction false} DecisionFollows(d: Deployment, ctx: Context, a: set<Param>, b: set<Param>)
    requires a != {} && b != {}
    requires Hazard(d, ctx, a).level <= Hazard(d, ctx, b).level && Hazard(d, ctx, a).floor <= Hazard(d, ctx, b).floor
    ensures Decision(d, ctx, a) <= Decision(d, ctx, b)
  {
    HazardFloor(d, ctx, a);
    HazardFloor(d, ctx, b);
  }

  ghost predicate Pair(d: Deployment, ctx: Context, a: set<Param>, b: set<Param>) {
    Decision(d, ctx, a) <= Decision(d, ctx, b)
  }

  ghost predicate AlwaysMonotone(d: Deployment) {
    forall ctx, a, b :: a != {} && a <= b && NonNegative(ctx, b) ==> Pair(d, ctx, a, b)
  }

  /** A context with two signals of chosen weight, no list match and middling familiarity. */
  ghost function TwoSignals(d: Deployment, last: int, w0: int, w1: int): Context {
    Context(p => if p == 0 then w0 else w1, last, 1, MaxInt(d.minEvents, 0), 0, 0.5, 0.5, 0, 0, None)
  }

  lemma {:induction false} TwoSignalsScored(d: Deployment, last: int, w0: int, w1: int)
    requires d.hazardParams >= 2
    ensures Decision(d, TwoSignals(d, last, w0, w1), {0}) ==
              if BandLevel(d, w0) == 3 && last < 3 then d.defaultLevel else BandLevel(d, w0)
    ensures Decision(d, TwoSignals(d, last, w0, w1), {0, 1}) ==
              if d.hazardParams >= 3 then BandLevel(d, w0 + w1) else if d.hazardFailures <= 0 then 4 else 3
  {
    var ctx := TwoSignals(d, last, w0, w1);
    WeighRemove(ctx.weight, {0}, 0);
    WeighRemove(ctx.weight, {0, 1}, 1);
    assert {0, 1} - {1} == {0} && {0} - {0} == {};
  }

  /** Monotonicity over all contexts holds exactly for orderly settings. */
  lemma {:induction false} MonotoneIffOrderly(d: Deployment)
    ensures AlwaysMonotone(d) <==> Orderly(d)
  {
    if Orderly(d) {
      forall ctx, a, b | a != {} && a <= b && NonNegative(ctx, b) ensures Pair(d, ctx, a, b) {
        MoreChangesNeverSafer(d, ctx, a, b);
      }
    } else if d.defaultLevel > 3 {
      var w := MaxInt(d.t3, 0);
      TwoSignalsScored(d, 1, w, 0);
      assert !Pair(d, TwoSignals(d, 1, w, 0), {0}, {0, 1});
    } else {
      TwoSignalsScored(d, 4, 0, d.t2);
      assert !Pair(d, TwoSignals(d, 4, 0, d.t2), {0}, {0, 1});
    }
  }

  /** With the shipped shape of settings, that is: the middle level is 1, 2 or 3. */
  lemma {:induction false} MonotoneIffSane(d: Deployment)
    requires 0 < d.t2 < d.t3 && d.hazardParams >= 3
    ensures AlwaysMonotone(d) <==> Sane(d)
  {
    MonotoneIffOrderly(d);
  }

  /** The smallest sum that counts as Risk 3. */
  function Heavy(d: Deployment): int {
    if d.defaultLevel == 3 then MinInt(d.t2, d.t3) else d.t3
  }

  /** A negative weight, which the settings schema admits, lets an extra change lower the level. */
  lemma {:induction false} NegativeWeightLowers(d: Deployment, w: int)
    requires Sane(d) && d.hazardParams >= 3 && w < 0 && w < Heavy(d)
    ensures Decision(d, TwoSignals(d, 4, MaxInt(Heavy(d), 0), w), {0}) == 3
    ensures Decision(d, TwoSignals(d, 4, MaxInt(Heavy(d), 0), w), {0, 1}) < 3
  {
    TwoSignalsScored(d, 4, MaxInt(Heavy(d), 0), w);
  }

  /** In every context, one more change of weight `w` never lowers the decision. */
  ghost predicate AddingIsSafe(d: Deployment, w: int) {
    forall ctx, a, p :: a != {} && p !in a && NonNegative(ctx, a) && ctx.weight(p) == w ==> Pair(d, ctx, a, a + {p})
  }

  /** Exactly which weights make one more change safe when the others are non-negative: a negative
      one is harmless only when two changes already are many, or when it alone counts as Risk 3. */
  lemma {:induction false} AddingIsSafeIff(d: Deployment, w: int)
    requires Sane(d)
    ensures AddingIsSafe(d, w) <==> w >= 0 || d.hazardParams <= 2 || w >= Heavy(d)
  {
    if w >= 0 || d.hazardParams <= 2 || w >= Heavy(d) {
      forall ctx, a, p | a != {} && p !in a && NonNegative(ctx, a) && ctx.weight(p) == w
        ensures Pair(d, ctx, a, a + {p})
      {
        if w >= 0 {
          MoreChangesNeverSafer(d, ctx, a, a + {p});
        } else if d.hazardParams <= 2 {
          TwoAreMany(d, ctx, a, p);
        } else {
          AllHeavy(d, ctx, a, p);
        }
      }
    } else {
      NegativeWeightLowers(d, w);
      assert {0} + {1} == {0, 1};
      assert !Pair(d, TwoSignals(d, 4, MaxInt(Heavy(d), 0), w), {0}, {0} + {1});
    }
  }

  /** Every sum of the others reaches Risk 3, with the extra change or without. */
  lemma {:induction false} AllHeavy(d: Deployment, ctx: Context, a: set<Param>, p: Param)
    requires Sane(d) && a != {} && p !in a && NonNegative(ctx, a) && 0 > ctx.weight(p) >= Heavy(d)
    ensures Decision(d, ctx, a) <= Decision(d, ctx, a + {p})
  {
    WeighMonotone(ctx.weight, {}, a);
    WeighRemove(ctx.weight, a + {p}, p);
    assert (a + {p}) - {p} == a;
    assert |a + {p}| >= 2 by {
      var q :| q in a;
      SubsetCardinality({q, p}, a + {p});
    }
    DecisionFollows(d, ctx, a, a + {p});
  }

  lemma {:induction false} TwoAreMany(d: Deployment, ctx: Context, a: set<Param>, p: Param)
    requires Sane(d) && d.hazardParams <= 2 && a != {} && p !in a
    ensures Decision(d, ctx, a) <= Decision(d, ctx, a + {p})
  {
    assert |a + {p}| >= 2 by {
      var q :| q in a;
      SubsetCardinality({q, p}, a + {p});
    }
    HazardFloor(d, ctx, a);
    DecisionFollows(d, ctx, a, a + {p});
  }

  /** The empty set is a real exception: after a Risk 4 a clean login still scores 3, above a
      login on which one light signal changed. */
  lemma {:induction false} CleanCanScoreHigher(d: Deployment)
    requires Sane(d) && d.hazardParams >= 2 && 0 < d.t2 && 0 < d.t3
    ensures Decision(d, TwoSignals(d, 4, 0, 0), {}) == 3
    ensures Decision(d, TwoSignals(d, 4, 0, 0), {0}) == 1
  {
    TwoSignalsScored(d, 4, 0, 0);
  }

  /** A clean login in this context scores no higher than any login with changes would. */
  ghost predicate CleanIsSafest(d: Deployment, ctx: Context) {
    forall weight, b :: b != {} && NonNegative(ctx.(weight := weight), b) ==> SafestClean(d, ctx, weight, b)
  }

  ghost predicate SafestClean(d: Deployment, ctx: Context, weight: Param -> int, b: set<Param>) {
    Decision(d, ctx, {}) <= Decision(d, ctx.(weight := weight), b)
  }

  /** The level one change of no weight has before familiarity and lists; 3 stands for more too. */
  function Lightest(d: Deployment, last: int): int {
    if d.t3 <= 0 then (if last < 3 then d.defaultLevel else 3)
    else if d.t2 <= 0 then d.defaultLevel else 1
  }

  /** Exactly when that is so, allow-list matches included: the history gate or a deny-list match
      decides alone, one change already counts as many, relaxation and familiarity take the clean
      login to 1, or the lightest change lands on the same side of what the rest maps together. */
  lemma {:induction false} CleanIsSafestIff(d: Deployment, ctx: Context)
    requires Sane(d) && ctx.last <= 4
    ensures var drop, light, c := ctx.last - Relaxation(d, ctx), Lightest(d, ctx.last), Points(ctx);
            CleanIsSafest(d, ctx) <==>
              || ctx.validAuths < d.minEvents || ctx.blacklisted > 0 || d.hazardParams <= 1
              || drop <= 1 || (c >= 12.0 && drop <= 2) || c >= 17.0
              || light >= 3
              || (if ctx.whitelisted == 0 then c < 6.0 || drop <= light else light >= 2 && c < 12.0)
  {
    FamiliarityPoints(ctx);
    var light := Lightest(d, ctx.last);
    if ctx.validAuths >= d.minEvents && ctx.blacklisted == 0 && d.hazardParams > 1 && light < 3 {
      LightestScored(d, ctx);
      if Decision(d, ctx, {}) > Decision(d, ctx.(weight := _ => 0), {0}) {
        assert !SafestClean(d, ctx, _ => 0, {0});
      }
    }
    if Decision(d, ctx, {}) <= AfterAll(ctx, Scored(light, 0)) || d.hazardParams <= 1
       || ctx.validAuths < d.minEvents || ctx.blacklisted > 0 {
      forall weight, b | b != {} && NonNegative(ctx.(weight := weight), b) ensures SafestClean(d, ctx, weight, b) {
        NothingLighter(d, ctx.(weight := weight), b);
      }
    }
  }

  /** What familiarity and the lists make of a level. */
  function AfterAll(ctx: Context, s: Scored): int {
    AdjustForLists(ctx.blacklisted, ctx.whitelisted, AdjustForCredibility(Familiarity(ctx), s, ctx.whitelisted > 0))
  }

  lemma {:induction false} LightestScored(d: Deployment, ctx: Context)
    requires d.hazardParams > 1 && ctx.validAuths >= d.minEvents && Lightest(d, ctx.last) < 3
    ensures Decision(d, ctx.(weight := _ => 0), {0}) == AfterAll(ctx, Scored(Lightest(d, ctx.last), 0))
  {
    WeighRemove(_ => 0, {0}, 0);
    assert {0} - {0} == {};
  }

  /** No change has a lower level than the lightest one, and many have a floor of 3. */
  lemma {:induction false} NothingLighter(d: Deployment, ctx: Context, b: set<Param>)
    requires Sane(d) && b != {} && NonNegative(ctx, b)
    ensures Hazard(d, ctx, b).level >= Lightest(d, ctx.last)
    ensures d.hazardParams <= 1 ==> Hazard(d, ctx, b).floor >= 3
    ensures ctx.validAuths >= d.minEvents ==> Decision(d, ctx, b) >= AfterAll(ctx, Scored(Lightest(d, ctx.last), 0))
  {
    WeighMonotone(ctx.weight, {}, b);
    HazardFloor(d, ctx, b);
    var q :| q in b;
    SubsetCardinality({q}, b);
  }

  // ----- familiarity ------------------------------------------------------------------

  function WithFamiliarity(ctx: Context, device: real, netLoc: real): Context {
    ctx.(deviceCredibility := device, netLocCredibility := netLoc)
  }

  /** Raising either credibility never raises the decision. */
  lemma {:induction false} FamiliarNeverRiskier(d: Deployment, ctx: Context, changed: set<Param>, device: real,
                                                netLoc: real)
    requires ctx.deviceCredibility <= device && ctx.netLocCredibility <= netLoc
    ensures Decision(d, WithFamiliarity(ctx, device, netLoc), changed) <= Decision(d, ctx, changed)
  {
    var ctx' := WithFamiliarity(ctx, device, netLoc);
    assert Familiarity(ctx) <= Familiarity(ctx');
    assert Hazard(d, ctx', changed) == Hazard(d, ctx, changed);
    HazardFloor(d, ctx, changed);
  }

  /** Every stored decision is a level from 1 to 4. */
  lemma {:induction false} DecisionInRange(d: Deployment, ctx: Context, changed: set<Param>)
    requires Sane(d) && ctx.last <= 4
    ensures 1 <= Decision(d, ctx, changed) <= 4
  {
    HazardFloor(d, ctx, changed);
  }

  // ----- what a login scores, from its inputs ----------------------------------------------

  /** How many levels a clean login takes off: one, or after a long idle time the configured steps. */
  function Relaxation(d: Deployment, ctx: Context): (steps: int)
    ensures steps >= 1
  {
    if ctx.idleMs.Some? && ctx.idleMs.value > 86_400_000.0 * d.decayDays as real && d.decaySteps > 1
    then d.decaySteps else 1
  }

  /** The changed weights alone reach level `l`. */
  ghost predicate HeavyChange(d: Deployment, ctx: Context, changed: set<Param>, l: int) {
    changed != {} &&
    var sum := Weigh(ctx.weight, changed);
    (sum >= d.t3 && l <= 3) || (sum >= d.t2 && sum < d.t3 && l <= d.defaultLevel)
  }

  /** Before familiarity and lists, the login scores at least `l`, for `l` from 2. */
  ghost predicate Earns(d: Deployment, ctx: Context, changed: set<Param>, l: int) {
    if changed == {} then ctx.last - Relaxation(d, ctx) >= l
    else if |changed| >= d.hazardParams then l <= 3 || (l == 4 && ctx.failures24h >= d.hazardFailures)
    else if |changed| == 1 && ctx.last < 3 && HeavyChange(d, ctx, changed, 3) then l <= d.defaultLevel
    else HeavyChange(d, ctx, changed, l) || (l == 4 && Escalates(d, ctx, changed))
  }

  ghost predicate Many(d: Deployment, changed: set<Param>) {
    changed != {} && |changed| >= d.hazardParams
  }

  /** Past the history gate, with no list match, the login scores at least `l`. */
  ghost predicate EarnsUnlisted(d: Deployment, ctx: Context, changed: set<Param>, l: int) {
    || (Points(ctx) < 6.0 && l <= 3)
    || (Points(ctx) < 12.0 && Earns(d, ctx, changed, l))
    || (Points(ctx) < 17.0 && Earns(d, ctx, changed, l + 1))
    || (Many(d, changed) && Earns(d, ctx, changed, l))
  }

  /** For every level, exactly which inputs reach it. */
  lemma {:induction false} DecisionReachesIff(d: Deployment, ctx: Context, changed: set<Param>, l: int)
    requires Sane(d) && 2 <= l <= 4
    ensures Decision(d, ctx, changed) >= l <==>
              if ctx.validAuths < d.minEvents then l <= 3 || ctx.blacklisted > 0
              else if ctx.blacklisted > 0 then l <= 3 || ctx.whitelisted == 0
              else if ctx.whitelisted > 0 then
                l == 2 && ((Points(ctx) < 12.0 && Earns(d, ctx, changed, 2))
                           || (Points(ctx) < 17.0 && Earns(d, ctx, changed, 3))
                           || Many(d, changed))
              else EarnsUnlisted(d, ctx, changed, l)
  {
    FamiliarityPoints(ctx);
    if changed != {} {
      var p :| p in changed;
      SubsetCardinality({p}, changed);
      assert |changed| >= 1;
      LevelEarned(d, ctx, changed);
    }
  }

  /** Hazard activation gives the level its inputs earn, with a floor exactly for many changes. */
  lemma {:induction false} LevelEarned(d: Deployment, ctx: Context, changed: set<Param>)
    requires Sane(d) && |changed| >= 1
    ensures forall l :: l >= 2 ==> (Hazard(d, ctx, changed).level >= l <==> Earns(d, ctx, changed, l))
    ensures Hazard(d, ctx, changed).floor == if Many(d, changed) then Hazard(d, ctx, changed).level else 0
  {
  }

  // ----- when a login is refused, and what cannot be bargained down ------------------------

  /** Three Risk 3 verdicts in a row on a known account, with repeated failures. */
  ghost predicate Escalates(d: Deployment, ctx: Context, changed: set<Param>) {
    && HeavyChange(d, ctx, changed, 3) && ctx.last >= 3 && ctx.secondLast >= 3
    && ctx.validAuths >= d.minEvents + 2 && ctx.failures24h >= d.hazardFailures
  }

  /** Exactly when a login scores Risk 4: a deny-list match that no allow-list match tempers, or,
      with no list match, many changes with repeated failures, or an escalation in a context that
      is not familiar. */
  lemma {:induction false} RefusedIff(d: Deployment, ctx: Context, changed: set<Param>)
    requires Sane(d) && ctx.last <= 4
    ensures Decision(d, ctx, changed) == 4 <==>
              if ctx.validAuths < d.minEvents then ctx.blacklisted > 0
              else if ctx.blacklisted > 0 || ctx.whitelisted > 0 then ctx.blacklisted > 0 && ctx.whitelisted == 0
              else changed != {} &&
                   if |changed| >= d.hazardParams then ctx.failures24h >= d.hazardFailures
                   else Escalates(d, ctx, changed) && Points(ctx) < 12.0
  {
    FamiliarityPoints(ctx);
  }

  /** When many signals changed at once, no familiarity brings the decision below Risk 3; only an
      allow-list match does, and then to Risk 2 exactly when no deny list matched. */
  lemma {:induction false} FloorHolds(d: Deployment, ctx: Context, changed: set<Param>)
    requires ctx.validAuths >= d.minEvents && changed != {} && |changed| >= d.hazardParams
    ensures ctx.whitelisted == 0 ==> Decision(d, ctx, changed) >= 3
    ensures ctx.whitelisted > 0 ==> Decision(d, ctx, changed) == if ctx.blacklisted == 0 then 2 else 3
  {
  }

  // ----- decay over clean logins --------------------------------------------------------

  /** Past the history gate, with no deny-list match: clean when nothing changed. */
  predicate Clean(d: Deployment, ctx: Context) {
    ctx.validAuths >= d.minEvents && ctx.blacklisted == 0
  }

  /** Nothing raises the level of a clean login in this context. */
  predicate Trusted(ctx: Context) {
    Points(ctx) >= 6.0 || ctx.whitelisted > 0
  }

  /** Consecutive clean logins, each completed and so the next one's last decision. */
  ghost predicate CleanRun(d: Deployment, ctxs: seq<Context>, levels: seq<int>) {
    && |levels| == |ctxs| + 1
    && forall k :: 0 <= k < |ctxs| ==> CleanLogin(d, ctxs, levels, k)
  }

  ghost predicate CleanLogin(d: Deployment, ctxs: seq<Context>, levels: seq<int>, k: nat)
    requires k < |ctxs| && |levels| == |ctxs| + 1
  {
    Clean(d, ctxs[k]) && ctxs[k].last == levels[k] && levels[k + 1] == Decision(d, ctxs[k], {})
  }

  /** While the context is familiar or on an allow list, k clean logins take at least k levels off,
      down to 1. */
  lemma {:induction false} CleanLoginsDecay(d: Deployment, ctxs: seq<Context>, levels: seq<int>, k: nat)
    requires CleanRun(d, ctxs, levels) && k < |levels| && levels[0] >= 1
    requires forall i :: 0 <= i < |ctxs| ==> Trusted(ctxs[i])
    ensures 1 <= levels[k] <= MaxInt(1, levels[0] - k)
    ensures k > 0 && levels[k - 1] == 1 ==> levels[k] == 1
  {
    if k > 0 {
      CleanLoginsDecay(d, ctxs, levels, k - 1);
      assert CleanLogin(d, ctxs, levels, k - 1);
    }
  }

  /** A clean login never raises the level exactly when the context is not largely unfamiliar, or
      an allow list matched, or the level already was at least 3. */
  lemma {:induction false} CleanRaisesIff(d: Deployment, ctx: Context)
    requires Clean(d, ctx) && ctx.last >= 1
    ensures Decision(d, ctx, {}) <= ctx.last <==> Trusted(ctx) || ctx.last >= 3
  {
  }
}
