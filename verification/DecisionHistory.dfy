/**
 * The decisions stored for one user over time, whichever way each was scored.
 */
module DecisionHistory {
  import opened Prelude
  import opened WeightScoring
  import LogOdds

  datatype Mode =
    | ByWeights
    | ByLogOdds(sc: LogOdds.Scorer, exp: real -> real, unavailable: set<Param>, r: LogOdds.Scored)

  datatype Login = Login(ctx: Context, changed: set<Param>, mode: Mode)

  /** The stored level: the history gate comes first in either mode. */
  ghost function Stored(d: Deployment, login: Login): int {
    var Login(ctx, changed, mode) := login;
    if mode.ByWeights? || ctx.validAuths < d.minEvents then Decision(d, ctx, changed)
    else AdjustForLists(ctx.blacklisted, ctx.whitelisted, mode.r.level)
  }

  /** Past the gate, a login's last decision is one stored before, and a log-odds result is the
      scorer's result for this login. */
  ghost predicate Follows(d: Deployment, logins: seq<Login>, k: nat)
    requires k < |logins|
  {
    var Login(ctx, changed, mode) := logins[k];
    ctx.validAuths >= d.minEvents ==>
      && (exists j :: 0 <= j < k && Stored(d, logins[j]) == ctx.last)
      && (mode.ByLogOdds? ==>
            && LogOdds.Exponential(mode.exp)
            && LogOdds.IsScore(mode.sc, mode.exp, changed, mode.unavailable, ctx.deviceCredibility,
                               ctx.netLocCredibility, mode.r))
  }

  ghost predicate History(d: Deployment, logins: seq<Login>) {
    forall k :: 0 <= k < |logins| ==> Follows(d, logins, k)
  }

  /** Past the gate the lists have the last word in either mode, and without a match a log-odds
      level is stored as it is. */
  lemma {:induction false} ListsOverride(d: Deployment, login: Login)
    requires login.ctx.validAuths >= d.minEvents
    ensures var Login(ctx, _, mode) := login;
            && (ctx.blacklisted > 0 && ctx.whitelisted == 0 ==> Stored(d, login) == 4)
            && (ctx.blacklisted > 0 && ctx.whitelisted > 0 ==> Stored(d, login) == 3)
            && (ctx.blacklisted == 0 && ctx.whitelisted > 0 ==> 1 <= Stored(d, login) <= 2)
            && (ctx.blacklisted == 0 && ctx.whitelisted == 0 && mode.ByLogOdds? ==> Stored(d, login) == mode.r.level)
  {
  }

  /** Every decision of a history is a level from 1 to 4. */
  lemma {:induction false} StoredInRange(d: Deployment, logins: seq<Login>, k: nat)
    requires Sane(d) && History(d, logins) && k < |logins|
    ensures 1 <= Stored(d, logins[k]) <= 4
  {
    assert Follows(d, logins, k);
    var Login(ctx, changed, mode) := logins[k];
    if ctx.validAuths >= d.minEvents && mode.ByWeights? {
      var j :| 0 <= j < k && Stored(d, logins[j]) == ctx.last;
      StoredInRange(d, logins, j);
      DecisionInRange(d, ctx, changed);
    }
  }
}
