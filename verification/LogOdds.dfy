/**
 * Log-odds scoring: signed evidence per signal, summed with a bias, passed
 * through a logistic function and banded into a risk level.
 */
module LogOdds {
  import opened Prelude
  import WeightScoring

  type Param = nat

  datatype Setting = Setting(weight: int, enabled: bool)

  /** The credibility entry sits beside the signals in the contributions. */
  datatype Source = Signal(p: Param) | Credibility

  type Contributions = map<Source, real>

  datatype Scorer = Scorer(params: map<Param, Setting>, identity: set<Param>, bias: real, t1: real, t2: real, t3: real)

  const MAX_RISK_EVIDENCE := 2.5
  const MAX_TRUST_EVIDENCE := 0.5
  const CREDIBILITY_SCALE := 5.0

  /** The thresholds the constructor accepts. */
  predicate ValidThresholds(t1: real, t2: real, t3: real) {
    0.0 <= t1 < t2 < t3 <= 1.0
  }

  function WeightFactor(sc: Scorer, p: Param): real {
    MinInt(if p in sc.params then sc.params[p].weight else 3, 3) as real / 3.0
  }

  // ----- evidence -----------------------------------------------------------------

  /** What one signal adds; None when it adds no entry. */
  function Evidence(sc: Scorer, changed: set<Param>, unavailable: set<Param>, p: Param): Option<real> {
    if p in sc.params then
      if !sc.params[p].enabled || p in unavailable then None
      else if p in changed then Some(MAX_RISK_EVIDENCE * WeightFactor(sc, p))
      else if p in sc.identity then Some(-MAX_TRUST_EVIDENCE * WeightFactor(sc, p))
      else None
    else if p in changed then Some(MAX_RISK_EVIDENCE * WeightFactor(sc, p))
    else None
  }

  function CredibilityEvidence(device: real, netLoc: real): real {
    (0.5 - (device * 0.55 + netLoc * 0.45)) * CREDIBILITY_SCALE
  }

  /** The contributions are exactly the entries the signals and the credibility add. */
  ghost predicate ContributionsOf(sc: Scorer, changed: set<Param>, unavailable: set<Param>, device: real,
                                  netLoc: real, m: Contributions) {
    && (forall p :: Signal(p) in m <==> Evidence(sc, changed, unavailable, p).Some?)
    && (forall p :: Signal(p) in m ==> Evidence(sc, changed, unavailable, p) == Some(m[Signal(p)]))
    && Credibility in m && m[Credibility] == CredibilityEvidence(device, netLoc)
  }

  ghost function Total(m: Contributions): real {
    if m == map[] then 0.0
    else var k :| k in m; m[k] + Total(m - {k})
  }

  lemma {:induction false} TotalRemove(m: Contributions, k: Source)
    requires k in m
    ensures Total(m) == m[k] + Total(m - {k})
    decreases |m|
  {
    var j :| j in m && Total(m) == m[j] + Total(m - {j});
    if j != k {
      TotalRemove(m - {j}, k);
      TotalRemove(m - {k}, j);
      assert m - {j} - {k} == m - {k} - {j};
    }
  }

  /** Entry by entry larger, and new entries not negative: the total is larger. */
  lemma {:induction false} TotalMonotone(a: Contributions, b: Contributions)
    requires forall k :: k in a ==> k in b && a[k] <= b[k]
    requires forall k :: k in b && k !in a ==> b[k] >= 0.0
    ensures Total(a) <= Total(b)
    decreases |b|
  {
    if b == map[] {
      assert a == map[];
    } else {
      var k :| k in b;
      TotalRemove(b, k);
      if k in a {
        TotalRemove(a, k);
      } else {
        assert a - {k} == a;
      }
      TotalMonotone(a - {k}, b - {k});
    }
  }

  // ----- the logistic ----------------------------------------------------------------

  /** All the scoring needs of an exponential. */
  ghost predicate Exponential(exp: real -> real) {
    && (forall x :: exp(x) > 0.0)
    && (forall x, y :: x <= y ==> exp(x) <= exp(y))
    && (forall x, y :: x + y == 0.0 ==> exp(x) * exp(y) == 1.0)
  }

  /** The two branches that avoid overflow. */
  function Logistic(exp: real -> real, x: real): real
    requires forall y :: exp(y) > 0.0
  {
    if x >= 0.0 then 1.0 / (1.0 + exp(-x)) else exp(x) / (1.0 + exp(x))
  }

  /** Both branches are the one textbook formula. */
  lemma {:induction false} LogisticFormula(exp: real -> real, x: real)
    requires Exponential(exp)
    ensures Logistic(exp, x) == 1.0 / (1.0 + exp(-x))
    ensures 0.0 < Logistic(exp, x) < 1.0
  {
    var z, w := exp(x), exp(-x);
    assert x + -x == 0.0;
    assert z * w == 1.0;
    Reciprocals(z, w);
  }

  lemma {:induction false} Reciprocals(z: real, w: real)
    requires z > 0.0 && w > 0.0 && z * w == 1.0
    ensures z / (1.0 + z) == 1.0 / (1.0 + w)
    ensures 0.0 < 1.0 / (1.0 + w) < 1.0
  {
    var q := 1.0 / (1.0 + w);
    assert q * (1.0 + w) == 1.0;
    assert z * (1.0 + w) == 1.0 + z;
    assert z == (q * (1.0 + w)) * z == q * (1.0 + z);
    Quotient(z, q, 1.0 + z);
    SmallQuotient(w);
  }

  lemma {:induction false} Quotient(a: real, q: real, b: real)
    requires b > 0.0 && a == q * b
    ensures a / b == q
  {
  }

  lemma {:induction false} SmallQuotient(w: real)
    requires w > 0.0
    ensures 0.0 < 1.0 / (1.0 + w) < 1.0
  {
  }

  lemma {:induction false} LogisticMonotone(exp: real -> real, x: real, y: real)
    requires Exponential(exp) && x <= y
    ensures Logistic(exp, x) <= Logistic(exp, y)
  {
    LogisticFormula(exp, x);
    LogisticFormula(exp, y);
    assert exp(-y) <= exp(-x);
    ReciprocalAntitone(1.0 + exp(-y), 1.0 + exp(-x));
  }

  lemma {:induction false} ReciprocalAntitone(a: real, b: real)
    requires 0.0 < a <= b
    ensures 1.0 / b <= 1.0 / a
  {
    var p, q := 1.0 / a, 1.0 / b;
    assert p * a == 1.0 && q * b == 1.0;
    assert q > 0.0;
    assert q * a <= q * b;
    assert (p - q) * a >= 0.0;
  }

  // ----- the scorer -----------------------------------------------------------------

  function RiskLevel(sc: Scorer, probability: real): int {
    if probability < sc.t1 then 1
    else if probability < sc.t2 then 2
    else if probability < sc.t3 then 3
    else 4
  }

  /** The result: level, probability, evidence and its breakdown. */
  datatype Scored = Scored(level: int, probability: real, evidence: real, contributions: Contributions)

  ghost predicate IsScore(sc: Scorer, exp: real -> real, changed: set<Param>, unavailable: set<Param>,
                          device: real, netLoc: real, r: Scored)
    requires Exponential(exp)
  {
    && ContributionsOf(sc, changed, unavailable, device, netLoc, r.contributions)
    && r.evidence == Total(r.contributions)
    && r.probability == Logistic(exp, r.evidence + sc.bias)
    && r.level == RiskLevel(sc, r.probability)
  }

  method Score(sc: Scorer, exp: real -> real, changed: set<Param>, unavailable: set<Param>, device: real, netLoc: real)
    returns (r: Scored)
    requires Exponential(exp)
    ensures IsScore(sc, exp, changed, unavailable, device, netLoc, r)
  {
    var m: Contributions := map[];
    var left := sc.params.Keys;
    while left != {}
      invariant left <= sc.params.Keys
      invariant forall p :: Signal(p) in m <==>
                  p in sc.params.Keys - left && Evidence(sc, changed, unavailable, p).Some?
      invariant forall p :: Signal(p) in m ==> Evidence(sc, changed, unavailable, p) == Some(m[Signal(p)])
      decreases left
    {
      var p :| p in left;
      left := left - {p};
      if sc.params[p].enabled && p !in unavailable {
        if p in changed {
          m := m[Signal(p) := MAX_RISK_EVIDENCE * WeightFactor(sc, p)];
        } else if p in sc.identity {
          m := m[Signal(p) := -MAX_TRUST_EVIDENCE * WeightFactor(sc, p)];
        }
      }
    }
    left := changed;
    while left != {}
      invariant left <= changed
      invariant forall p :: Signal(p) in m <==>
                  (p in sc.params || p in changed - left) && Evidence(sc, changed, unavailable, p).Some?
      invariant forall p :: Signal(p) in m ==> Evidence(sc, changed, unavailable, p) == Some(m[Signal(p)])
      decreases left
    {
      var p :| p in left;
      left := left - {p};
      if Signal(p) !in m && p !in sc.params {
        m := m[Signal(p) := MAX_RISK_EVIDENCE * WeightFactor(sc, p)];
      }
    }
    m := m[Credibility := CredibilityEvidence(device, netLoc)];
    var evidence := Sum(m);
    var probability := Logistic(exp, evidence + sc.bias);
    r := Scored(RiskLevel(sc, probability), probability, evidence, m);
  }

  method Sum(m: Contributions) returns (total: real)
    ensures total == Total(m)
  {
    total := 0.0;
    var left := m;
    while left != map[]
      invariant total + Total(left) == Total(m)
      decreases |left|
    {
      var k :| k in left;
      TotalRemove(left, k);
      total := total + left[k];
      left := left - {k};
    }
  }

  // ----- what changes the level -------------------------------------------------------

  /** No configured weight is negative. */
  ghost predicate NonNegative(sc: Scorer) {
    forall p :: p in sc.params ==> sc.params[p].weight >= 0
  }

  lemma {:induction false} LevelMonotone(sc: Scorer, exp: real -> real, e1: real, e2: real)
    requires Exponential(exp) && ValidThresholds(sc.t1, sc.t2, sc.t3) && e1 <= e2
    ensures RiskLevel(sc, Logistic(exp, e1 + sc.bias)) <= RiskLevel(sc, Logistic(exp, e2 + sc.bias))
  {
    LogisticMonotone(exp, e1 + sc.bias, e2 + sc.bias);
  }

  /** More changed signals and less credibility never lower the level, nor the decision after
      the list overrides. */
  lemma {:induction false} MoreEvidenceNeverSafer(
      sc: Scorer, exp: real -> real, unavailable: set<Param>, blacklisted: nat, whitelisted: nat,
      a: set<Param>, device: real, netLoc: real, r: Scored,
      b: set<Param>, device': real, netLoc': real, r': Scored)
    requires Exponential(exp) && ValidThresholds(sc.t1, sc.t2, sc.t3) && NonNegative(sc)
    requires a <= b && device' <= device && netLoc' <= netLoc
    requires IsScore(sc, exp, a, unavailable, device, netLoc, r)
    requires IsScore(sc, exp, b, unavailable, device', netLoc', r')
    ensures r.level <= r'.level
    ensures WeightScoring.AdjustForLists(blacklisted, whitelisted, r.level)
         <= WeightScoring.AdjustForLists(blacklisted, whitelisted, r'.level)
  {
    EvidenceMonotone(sc, unavailable, a, device, netLoc, r.contributions, b, device', netLoc', r'.contributions);
    LevelMonotone(sc, exp, r.evidence, r'.evidence);
  }

  lemma {:induction false} EvidenceMonotone(sc: Scorer, unavailable: set<Param>,
                                            a: set<Param>, device: real, netLoc: real, m: Contributions,
                                            b: set<Param>, device': real, netLoc': real, m': Contributions)
    requires NonNegative(sc) && a <= b && device' <= device && netLoc' <= netLoc
    requires ContributionsOf(sc, a, unavailable, device, netLoc, m)
    requires ContributionsOf(sc, b, unavailable, device', netLoc', m')
    ensures Total(m) <= Total(m')
  {
    forall k | k in m ensures k in m' && m[k] <= m'[k] {
      match k
      case Signal(p) => SignalMonotone(sc, a, b, unavailable, p);
      case Credibility =>
    }
    forall k | k in m' && k !in m ensures m'[k] >= 0.0 {
      match k
      case Signal(p) => SignalMonotone(sc, a, b, unavailable, p);
      case Credibility =>
    }
    TotalMonotone(m, m');
  }

  lemma {:induction false} SignalMonotone(sc: Scorer, a: set<Param>, b: set<Param>, unavailable: set<Param>, p: Param)
    requires NonNegative(sc) && a <= b
    ensures var x, y := Evidence(sc, a, unavailable, p), Evidence(sc, b, unavailable, p);
            && (x.Some? ==> y.Some? && x.value <= y.value)
            && (x.None? && y.Some? ==> y.value >= 0.0)
  {
    assert WeightFactor(sc, p) >= 0.0;
  }

  /** Marking one more signal as changed raises the evidence by its full swing, so it lowers it
      exactly when the signal counts and its weight is negative. */
  lemma {:induction false} OneMoreChange(sc: Scorer, unavailable: set<Param>, changed: set<Param>, p: Param,
                                         device: real, netLoc: real, m: Contributions, m': Contributions)
    requires p !in changed
    requires ContributionsOf(sc, changed, unavailable, device, netLoc, m)
    requires ContributionsOf(sc, changed + {p}, unavailable, device, netLoc, m')
    ensures var counts := p in sc.params ==> sc.params[p].enabled && p !in unavailable;
            var trusted := p in sc.params && p in sc.identity;
            Total(m') - Total(m) ==
              if !counts then 0.0
              else (MAX_RISK_EVIDENCE + if trusted then MAX_TRUST_EVIDENCE else 0.0) * WeightFactor(sc, p)
    ensures (p in sc.params ==> sc.params[p].enabled && p !in unavailable) ==>
              var weight := if p in sc.params then MinInt(sc.params[p].weight, 3) as real else 3.0;
              Total(m') - Total(m) == if p in sc.params && p in sc.identity then weight else weight * 2.5 / 3.0
    ensures Total(m') < Total(m) <==>
              p in sc.params && sc.params[p].enabled && p !in unavailable && sc.params[p].weight < 0
  {
    var k := Signal(p);
    assert m - {k} == m' - {k} by {
      forall j | j != k ensures (j in m <==> j in m') && (j in m ==> m[j] == m'[j]) {
        match j
        case Signal(q) => assert Evidence(sc, changed, unavailable, q) == Evidence(sc, changed + {p}, unavailable, q);
        case Credibility =>
      }
    }
    if k in m {
      TotalRemove(m, k);
    } else {
      assert m - {k} == m;
    }
    if k in m' {
      TotalRemove(m', k);
    } else {
      assert m' - {k} == m';
    }
  }

  // ----- what a login scores ---------------------------------------------------------------

  /** With no signal to speak of, the evidence is what familiarity gives: from 2.5 for a wholly
      unknown place down to -2.5 for a wholly familiar one. */
  lemma {:induction false} BareEvidence(sc: Scorer, unavailable: set<Param>, device: real, netLoc: real,
                                        m: Contributions)
    requires forall p :: p in sc.params && p in sc.identity ==> p in unavailable || !sc.params[p].enabled
    requires ContributionsOf(sc, {}, unavailable, device, netLoc, m)
    ensures Total(m) == 2.5 - 2.75 * device - 2.25 * netLoc
  {
    assert forall p :: Evidence(sc, {}, unavailable, p).None?;
    forall k | k != Credibility ensures k !in m {
      assert k == Signal(k.p);
    }
    TotalRemove(m, Credibility);
    assert m - {Credibility} == map[];
  }

  /** With the same signals, familiarity moves the evidence by the same amounts. */
  lemma {:induction false} FamiliarityMoves(sc: Scorer, unavailable: set<Param>, changed: set<Param>, device: real,
                                            netLoc: real,
                                            device': real, netLoc': real, m: Contributions, m': Contributions)
    requires ContributionsOf(sc, changed, unavailable, device, netLoc, m)
    requires ContributionsOf(sc, changed, unavailable, device', netLoc', m')
    ensures Total(m) - Total(m') == 2.75 * (device' - device) + 2.25 * (netLoc' - netLoc)
  {
    TotalRemove(m, Credibility);
    TotalRemove(m', Credibility);
    forall k | k != Credibility ensures (k in m <==> k in m') && (k in m ==> m[k] == m'[k]) {
      match k
      case Signal(p) => assert Signal(p) in m <==> Evidence(sc, changed, unavailable, p).Some?;
      case Credibility =>
    }
    assert m - {Credibility} == m' - {Credibility};
  }

  /** One more identity signal that stayed put and counts takes a sixth per point of weight off,
      up to a half. */
  lemma {:induction false} TrustMoves(sc: Scorer, unavailable: set<Param>, changed: set<Param>, p: Param,
                                      device: real, netLoc: real, m: Contributions, m': Contributions)
    requires p in sc.params && p in sc.identity && sc.params[p].enabled && p !in changed && p !in unavailable
    requires ContributionsOf(sc, changed, unavailable, device, netLoc, m)
    requires ContributionsOf(sc, changed, unavailable + {p}, device, netLoc, m')
    ensures Total(m) - Total(m') == -(MinInt(sc.params[p].weight, 3) as real) / 6.0
  {
    TotalRemove(m, Signal(p));
    forall k | k != Signal(p) ensures (k in m <==> k in m') && (k in m ==> m[k] == m'[k]) {
      match k
      case Signal(q) =>
        assert Evidence(sc, changed, unavailable, q) == Evidence(sc, changed, unavailable + {p}, q);
      case Credibility =>
    }
    assert Evidence(sc, changed, unavailable + {p}, p).None?;
    assert m - {Signal(p)} == m';
  }

  /** The level counts the thresholds the odds have reached. */
  lemma {:induction false} LevelByOdds(sc: Scorer, exp: real -> real, changed: set<Param>, unavailable: set<Param>,
                                       device: real, netLoc: real, r: Scored)
    requires Exponential(exp) && ValidThresholds(sc.t1, sc.t2, sc.t3)
    requires IsScore(sc, exp, changed, unavailable, device, netLoc, r)
    ensures var x := Total(r.contributions) + sc.bias;
            && (r.level >= 2 <==> !Under(exp, x, sc.t1))
            && (r.level >= 3 <==> !Under(exp, x, sc.t2))
            && (r.level >= 4 <==> !Under(exp, x, sc.t3))
            && 1 <= r.level <= 4
  {
    UnderIff(exp, r.evidence + sc.bias, sc.t1);
    UnderIff(exp, r.evidence + sc.bias, sc.t2);
    UnderIff(exp, r.evidence + sc.bias, sc.t3);
  }

  // ----- when one more change lowers the level -----------------------------------------

  /** The probability at these log-odds is below the threshold, said without a division. */
  predicate Under(exp: real -> real, x: real, t: real) {
    exp(x) * (1.0 - t) < t
  }

  lemma {:induction false} UnderIff(exp: real -> real, x: real, t: real)
    requires Exponential(exp)
    ensures Logistic(exp, x) < t <==> Under(exp, x, t)
  {
    var z, w := exp(x), exp(-x);
    assert x + -x == 0.0;
    assert z * w == 1.0;
    LogisticFormula(exp, x);
    Odds(z, w, Logistic(exp, x), t);
  }

  lemma {:induction false} Odds(z: real, w: real, p: real, t: real)
    requires z > 0.0 && w > 0.0 && z * w == 1.0 && p == 1.0 / (1.0 + w)
    ensures p < t <==> z * (1.0 - t) < t
  {
    assert p * (1.0 + w) == 1.0;
    assert z * (1.0 + w) == z + 1.0;
    assert p * (z + 1.0) == z by {
      assert p * (z * (1.0 + w)) == z * (p * (1.0 + w));
    }
    Scaled(p, t, z + 1.0);
    assert t * (z + 1.0) == z * t + t && z * (1.0 - t) == z - z * t;
  }

  lemma {:induction false} Scaled(a: real, b: real, c: real)
    requires c > 0.0
    ensures a < b <==> a * c < b * c
  {
    assert (b - a) * c == b * c - a * c;
    if a < b {
      assert (b - a) * c > 0.0;
    } else {
      assert (a - b) * c >= 0.0;
    }
  }

  /** What marking `p` as changed adds to the evidence, when it counts. */
  function Swing(sc: Scorer, p: Param): real {
    (MAX_RISK_EVIDENCE + if p in sc.params && p in sc.identity then MAX_TRUST_EVIDENCE else 0.0) * WeightFactor(sc, p)
  }

  predicate Counts(sc: Scorer, unavailable: set<Param>, p: Param) {
    p in sc.params ==> sc.params[p].enabled && p !in unavailable
  }

  /** The log-odds were at or above the threshold, and the swing takes them under it. */
  predicate Crosses(exp: real -> real, x: real, swing: real, t: real) {
    !Under(exp, x, t) && Under(exp, x + swing, t)
  }

  predicate CrossesOne(sc: Scorer, exp: real -> real, x: real, swing: real) {
    Crosses(exp, x, swing, sc.t1) || Crosses(exp, x, swing, sc.t2) || Crosses(exp, x, swing, sc.t3)
  }

  predicate CountsAgainst(sc: Scorer, unavailable: set<Param>, p: Param) {
    p in sc.params && Counts(sc, unavailable, p) && sc.params[p].weight < 0
  }

  /** In a given context one more change lowers the level exactly when its signal counts, its weight
      is negative and its swing takes the log-odds under one of the thresholds. */
  lemma {:induction false} LevelLowersIff(sc: Scorer, exp: real -> real, unavailable: set<Param>,
                                          changed: set<Param>, p: Param,
                                          device: real, netLoc: real, r: Scored, r': Scored)
    requires Exponential(exp) && ValidThresholds(sc.t1, sc.t2, sc.t3) && p !in changed
    requires IsScore(sc, exp, changed, unavailable, device, netLoc, r)
    requires IsScore(sc, exp, changed + {p}, unavailable, device, netLoc, r')
    ensures r'.level < r.level <==>
              CountsAgainst(sc, unavailable, p) && CrossesOne(sc, exp, r.evidence + sc.bias, Swing(sc, p))
  {
    EvidenceMoves(sc, unavailable, changed, p, device, netLoc, r.contributions, r'.contributions);
    if CountsAgainst(sc, unavailable, p) {
      LevelCrosses(sc, exp, r.evidence + sc.bias, Swing(sc, p), r'.evidence + sc.bias);
    } else {
      LevelMonotone(sc, exp, r.evidence, r'.evidence);
    }
  }

  /** Only a counted signal of negative weight lowers the evidence, and by its swing. */
  lemma {:induction false} EvidenceMoves(sc: Scorer, unavailable: set<Param>, changed: set<Param>, p: Param,
                                         device: real, netLoc: real, m: Contributions, m': Contributions)
    requires p !in changed
    requires ContributionsOf(sc, changed, unavailable, device, netLoc, m)
    requires ContributionsOf(sc, changed + {p}, unavailable, device, netLoc, m')
    ensures CountsAgainst(sc, unavailable, p) ==> Total(m') == Total(m) + Swing(sc, p) < Total(m)
    ensures !CountsAgainst(sc, unavailable, p) ==> Total(m) <= Total(m')
  {
    OneMoreChange(sc, unavailable, changed, p, device, netLoc, m, m');
  }

  lemma {:induction false} LevelCrosses(sc: Scorer, exp: real -> real, x: real, swing: real, y: real)
    requires Exponential(exp) && ValidThresholds(sc.t1, sc.t2, sc.t3) && y == x + swing && swing <= 0.0
    ensures RiskLevel(sc, Logistic(exp, y)) < RiskLevel(sc, Logistic(exp, x)) <==> CrossesOne(sc, exp, x, swing)
  {
    LogisticMonotone(exp, y, x);
    CrossesIff(exp, x, swing, y, sc.t1);
    CrossesIff(exp, x, swing, y, sc.t2);
    CrossesIff(exp, x, swing, y, sc.t3);
  }

  lemma {:induction false} CrossesIff(exp: real -> real, x: real, swing: real, y: real, t: real)
    requires Exponential(exp) && y == x + swing
    ensures Crosses(exp, x, swing, t) <==> Logistic(exp, y) < t <= Logistic(exp, x)
  {
    UnderIff(exp, x, t);
    UnderIff(exp, y, t);
  }

  /** Marking a counted signal of this weight as changed never lowers the level, whatever the
      other weights, the settings and the context. */
  ghost predicate AddingIsSafe(exp: real -> real, w: int)
    requires Exponential(exp)
  {
    forall sc, changed, unavailable, p, device, netLoc, r, r' ::
      AddsWeight(sc, exp, changed, unavailable, p, device, netLoc, r, r', w) ==> r.level <= r'.level
  }

  ghost predicate AddsWeight(sc: Scorer, exp: real -> real, changed: set<Param>, unavailable: set<Param>, p: Param,
                             device: real, netLoc: real, r: Scored, r': Scored, w: int)
    requires Exponential(exp)
  {
    && ValidThresholds(sc.t1, sc.t2, sc.t3) && p in sc.params && sc.params[p].weight == w && p !in changed
    && IsScore(sc, exp, changed, unavailable, device, netLoc, r)
    && IsScore(sc, exp, changed + {p}, unavailable, device, netLoc, r')
  }

  ghost predicate Increasing(exp: real -> real) {
    forall x, y :: x < y ==> exp(x) < exp(y)
  }

  /** One more change is safe in log-odds mode exactly when its weight is not negative. */
  lemma {:induction false} AddingIsSafeIff(exp: real -> real, w: int)
    requires Exponential(exp) && Increasing(exp)
    ensures AddingIsSafe(exp, w) <==> w >= 0
  {
    if w >= 0 {
      forall sc, changed, unavailable, p, device, netLoc, r, r' |
        AddsWeight(sc, exp, changed, unavailable, p, device, netLoc, r, r', w)
        ensures r.level <= r'.level
      {
        LevelLowersIff(sc, exp, unavailable, changed, p, device, netLoc, r, r');
      }
    } else {
      var sc, r, r' := NegativeSignal(exp, w);
      assert AddsWeight(sc, exp, {}, {}, 0, 0.5, 0.5, r, r', w);
    }
  }

  /** Even odds, and one signal of negative weight that takes them under the threshold at a half. */
  lemma {:induction false} NegativeSignal(exp: real -> real, w: int) returns (sc: Scorer, r: Scored, r': Scored)
    requires Exponential(exp) && Increasing(exp) && w < 0
    ensures AddsWeight(sc, exp, {}, {}, 0, 0.5, 0.5, r, r', w) && r'.level < r.level
  {
    sc := OneSignal(w);
    r, r' := ScoreOf(sc, exp, {}), ScoreOf(sc, exp, {0});
    assert {} + {0} == {0};
    OneSignalScored(exp, w, {});
    OneSignalScored(exp, w, {0});
    TotalRemove(r.contributions, Credibility);
    assert r.contributions - {Credibility} == map[];
    EvenOdds(exp, Swing(sc, 0));
    LevelLowersIff(sc, exp, {}, {}, 0, 0.5, 0.5, r, r');
  }

  function OneSignal(w: int): Scorer {
    Scorer(map[0 := Setting(w, true)], {}, 0.0, 0.0, 0.5, 1.0)
  }

  ghost function ScoreOf(sc: Scorer, exp: real -> real, changed: set<Param>): Scored
    requires Exponential(exp)
  {
    var m: Contributions := if 0 in changed
      then map[Credibility := 0.0, Signal(0) := MAX_RISK_EVIDENCE * WeightFactor(sc, 0)] else map[Credibility := 0.0];
    var p := Logistic(exp, Total(m) + sc.bias);
    Scored(RiskLevel(sc, p), p, Total(m), m)
  }

  lemma {:induction false} OneSignalScored(exp: real -> real, w: int, changed: set<Param>)
    requires Exponential(exp) && changed <= {0}
    ensures IsScore(OneSignal(w), exp, changed, {}, 0.5, 0.5, ScoreOf(OneSignal(w), exp, changed))
  {
    var sc := OneSignal(w);
    assert CredibilityEvidence(0.5, 0.5) == 0.0;
    var added := Some(MAX_RISK_EVIDENCE * WeightFactor(sc, 0));
    assert forall p :: Evidence(sc, changed, {}, p) == if p == 0 && p in changed then added else None;
  }

  lemma {:induction false} EvenOdds(exp: real -> real, swing: real)
    requires Exponential(exp) && Increasing(exp) && swing < 0.0
    ensures Crosses(exp, 0.0, swing, 0.5)
  {
    assert 0.0 + 0.0 == 0.0;
    assert exp(0.0) * exp(0.0) == 1.0;
    UnitSquare(exp(0.0));
    assert exp(swing) < exp(0.0);
  }

  lemma {:induction false} UnitSquare(z: real)
    requires z > 0.0 && z * z == 1.0
    ensures z == 1.0
  {
    assert (z - 1.0) * (z + 1.0) == 0.0;
  }
}
