/**
 * The limiter of /health probes: calls share a recent check, and abandoned
 * checks can only pile up to a bound.
 */
module HealthLimiter {
  import opened Prelude

  const MAX_RUNNING_CHECKS := 3
  const STUCK_CHECK_SECONDS := 30.0
  const MIN_CHECK_INTERVAL := 1.0

  type Check = nat
  type Task = nat

  datatype Started = Started(task: Task, at: real)

  function Unfinished(s: seq<Started>, done: set<Task>): seq<Started> {
    if s == [] then []
    else Unfinished(s[..|s| - 1], done) + if s[|s| - 1].task in done then [] else [s[|s| - 1]]
  }

  /** How many entries began less than STUCK_CHECK_SECONDS before `now`. */
  function Young(s: seq<Started>, now: real): nat {
    if s == [] then 0
    else Young(s[..|s| - 1], now) + if now - s[|s| - 1].at < STUCK_CHECK_SECONDS then 1 else 0
  }

  /** What the route remembers about one dependency. */
  datatype Memo = Memo(running: seq<Started>, latest: Option<Started>)

  datatype Verdict = Shares(s: Started) | Starts(s: Started) | Refuses

  function Judge(m: Memo, now: real, done: set<Task>, task: Task): Verdict {
    if m.latest.Some? && now - m.latest.value.at < MIN_CHECK_INTERVAL then Shares(m.latest.value)
    else if Young(Unfinished(m.running, done), now) >= MAX_RUNNING_CHECKS then Refuses
    else Starts(Started(task, now))
  }

  function After(m: Memo, done: set<Task>, v: Verdict): Memo {
    match v
    case Shares(_) => m
    case Refuses => m.(running := Unfinished(m.running, done))
    case Starts(s) => Memo(Unfinished(m.running, done) + [s], Some(s))
  }

  class HealthRoute {
    var running: map<Check, seq<Started>>
    var latest: map<Check, Started>

    function Remembered(check: Check): Memo
      reads this
    {
      Memo(if check in running then running[check] else [],
           if check in latest then Some(latest[check]) else None)
    }

    constructor ()
      ensures forall check :: Remembered(check) == Memo([], None)
    {
      running, latest := map[], map[];
    }

    /** The part of _status before it waits: `done` are the tasks finished by now, `task` the
        one a new check would become. */
    method Begin(check: Check, now: real, done: set<Task>, task: Task) returns (v: Verdict)
      modifies this
      ensures v == Judge(old(Remembered(check)), now, done, task)
      ensures Remembered(check) == After(old(Remembered(check)), done, v)
      ensures forall other :: other != check ==> Remembered(other) == old(Remembered(other))
    {
      if check in latest && now - latest[check].at < MIN_CHECK_INTERVAL {
        return Shares(latest[check]);
      }
      var all := if check in running then running[check] else [];
      var left, counted := StillRunning(all, done, now);
      running := running[check := left];
      assert forall other :: other != check ==> Remembered(other) == old(Remembered(other));
      if counted >= MAX_RUNNING_CHECKS {
        return Refuses;
      }
      var s := Started(task, now);
      running := running[check := left + [s]];
      latest := latest[check := s];
      return Starts(s);
    }
  }

  /** The unfinished entries, and how many of them are not yet stuck. */
  method StillRunning(all: seq<Started>, done: set<Task>, now: real) returns (left: seq<Started>, counted: nat)
    ensures left == Unfinished(all, done) && counted == Young(left, now)
  {
    left, counted := [], 0;
    for k := 0 to |all|
      invariant left == Unfinished(all[..k], done)
      invariant counted == Young(left, now)
    {
      assert all[..k + 1][..k] == all[..k];
      if all[k].task !in done {
        YoungAppend(left, all[k], now);
        left := left + [all[k]];
        counted := counted + if now - all[k].at < STUCK_CHECK_SECONDS then 1 else 0;
      }
    }
    assert all[..|all|] == all;
  }

  // ----- runs of one dependency ---------------------------------------------------------

  /** Calls at a clock that does not go back, and checks that finish in between. */
  datatype Event = Call(now: real, task: Task) | Finish(task: Task)

  datatype Sys = Sys(memo: Memo, done: set<Task>, started: seq<Started>, clock: real)

  function Step(s: Sys, e: Event): Sys {
    match e
    case Finish(t) => s.(done := s.done + {t})
    case Call(now, t) =>
      var v := Judge(s.memo, now, s.done, t);
      Sys(After(s.memo, s.done, v), s.done, if v.Starts? then s.started + [v.s] else s.started, now)
  }

  function RunAll(es: seq<Event>): Sys {
    if es == [] then Sys(Memo([], None), {}, [], 0.0) else Step(RunAll(es[..|es| - 1]), es[|es| - 1])
  }

  ghost predicate Forward(es: seq<Event>) {
    forall k :: 0 <= k < |es| && es[k].Call? ==> RunAll(es[..k]).clock <= es[k].now
  }

  lemma {:induction false} UnfinishedTwice(s: seq<Started>, a: set<Task>, b: set<Task>)
    requires a <= b
    ensures Unfinished(Unfinished(s, a), b) == Unfinished(s, b)
  {
    if s != [] {
      var front := s[..|s| - 1];
      UnfinishedTwice(front, a, b);
      var kept := Unfinished(front, a);
      if s[|s| - 1].task in a {
        assert Unfinished(s, a) == kept;
      } else {
        assert (kept + [s[|s| - 1]])[..|kept|] == kept;
      }
    }
  }

  lemma {:induction false} UnfinishedAppend(s: seq<Started>, x: Started, done: set<Task>)
    ensures Unfinished(s + [x], done) == Unfinished(s, done) + if x.task in done then [] else [x]
  {
    assert (s + [x])[..|s|] == s;
  }

  lemma {:induction false} YoungShrinks(s: seq<Started>, a: set<Task>, b: set<Task>, now: real, later: real)
    requires a <= b && now <= later
    ensures Young(Unfinished(s, b), later) <= Young(Unfinished(s, a), now)
  {
    if s != [] {
      var front, x := s[..|s| - 1], s[|s| - 1];
      assert s == front + [x];
      YoungShrinks(front, a, b, now, later);
      YoungUnfinished(front, x, a, now);
      YoungUnfinished(front, x, b, later);
    }
  }

  lemma {:induction false} YoungUnfinished(s: seq<Started>, x: Started, done: set<Task>, now: real)
    ensures Young(Unfinished(s + [x], done), now) == Young(Unfinished(s, done), now)
              + if x.task !in done && now - x.at < STUCK_CHECK_SECONDS then 1 else 0
  {
    UnfinishedAppend(s, x, done);
    YoungAppend(Unfinished(s, done), x, now);
    assert Unfinished(s, done) + [] == Unfinished(s, done);
  }

  lemma {:induction false} YoungAppend(s: seq<Started>, x: Started, now: real)
    ensures Young(s + [x], now) == Young(s, now) + if now - x.at < STUCK_CHECK_SECONDS then 1 else 0
  {
    assert (s + [x])[..|s|] == s;
  }

  /** The tracking list has lost only finished checks; starts are spaced and `latest` is the last. */
  ghost predicate Tracked(s: Sys) {
    && Unfinished(s.memo.running, s.done) == Unfinished(s.started, s.done)
    && (s.memo.latest.None? <==> s.started == [])
    && (s.started != [] ==>
      s.memo.latest == Some(s.started[|s.started| - 1]) && s.started[|s.started| - 1].at <= s.clock)
    && (forall i, j :: 0 <= i < j < |s.started| ==> s.started[i].at + MIN_CHECK_INTERVAL <= s.started[j].at)
  }

  lemma {:induction false} StepTracked(s: Sys, e: Event)
    requires Tracked(s) && (e.Call? ==> s.clock <= e.now)
    ensures Tracked(Step(s, e))
  {
    match e
    case Finish(task) =>
      FinishTracked(s, task);
    case Call(now, task) =>
      match Judge(s.memo, now, s.done, task)
      case Shares(_) =>
      case Refuses => RefuseTracked(s, now);
      case Starts(begun) => StartTracked(s, begun);
  }

  lemma {:induction false} FinishTracked(s: Sys, task: Task)
    requires Tracked(s)
    ensures Tracked(s.(done := s.done + {task}))
  {
    UnfinishedTwice(s.memo.running, s.done, s.done + {task});
    UnfinishedTwice(s.started, s.done, s.done + {task});
  }

  lemma {:induction false} RefuseTracked(s: Sys, now: real)
    requires Tracked(s) && s.clock <= now
    ensures Tracked(Sys(s.memo.(running := Unfinished(s.memo.running, s.done)), s.done, s.started, now))
  {
    UnfinishedTwice(s.memo.running, s.done, s.done);
  }

  lemma {:induction false} StartTracked(s: Sys, begun: Started)
    requires Tracked(s) && s.clock <= begun.at
    requires s.memo.latest.Some? ==> begun.at - s.memo.latest.value.at >= MIN_CHECK_INTERVAL
    ensures Tracked(Sys(Memo(Unfinished(s.memo.running, s.done) + [begun], Some(begun)), s.done, s.started + [begun],
        begun.at))
  {
    AppendTracked(s.memo.running, s.started, begun, s.done);
    LateEnough(s, begun.at);
  }

  lemma {:induction false} AppendTracked(running: seq<Started>, started: seq<Started>, begun: Started, done: set<Task>)
    requires Unfinished(running, done) == Unfinished(started, done)
    ensures Unfinished(Unfinished(running, done) + [begun], done) == Unfinished(started + [begun], done)
  {
    UnfinishedTwice(running, done, done);
    UnfinishedAppend(Unfinished(running, done), begun, done);
    UnfinishedAppend(started, begun, done);
  }

  /** A check that no recent one is shared for starts an interval after every earlier one. */
  lemma {:induction false} LateEnough(s: Sys, now: real)
    requires Tracked(s) && (s.memo.latest.Some? ==> now - s.memo.latest.value.at >= MIN_CHECK_INTERVAL)
    ensures forall i :: 0 <= i < |s.started| ==> s.started[i].at + MIN_CHECK_INTERVAL <= now
  {
    forall i | 0 <= i < |s.started| ensures s.started[i].at + MIN_CHECK_INTERVAL <= now {
      assert i < |s.started| - 1 ==> s.started[i].at + MIN_CHECK_INTERVAL <= s.started[|s.started| - 1].at;
    }
  }

  lemma {:induction false} RunTracked(es: seq<Event>)
    requires Forward(es)
    ensures Tracked(RunAll(es))
  {
    if es != [] {
      var front := es[..|es| - 1];
      ForwardPrefix(es);
      RunTracked(front);
      StepTracked(RunAll(front), es[|es| - 1]);
    }
  }

  lemma {:induction false} ForwardPrefix(es: seq<Event>)
    requires Forward(es) && es != []
    ensures Forward(es[..|es| - 1])
    ensures es[|es| - 1].Call? ==> RunAll(es[..|es| - 1]).clock <= es[|es| - 1].now
  {
    var front := es[..|es| - 1];
    forall k | 0 <= k < |front| && front[k].Call? ensures RunAll(front[..k]).clock <= front[k].now {
      assert front[..k] == es[..k];
    }
  }

  /** No unfinished check is ever dropped from the tracking list, and consecutive starts are at
      least MIN_CHECK_INTERVAL apart. */
  lemma {:induction false} ChecksTrackedAndSpaced(es: seq<Event>)
    requires Forward(es)
    ensures var s := RunAll(es);
            && Unfinished(s.memo.running, s.done) == Unfinished(s.started, s.done)
            && (forall i, j :: 0 <= i < j < |s.started| ==> s.started[i].at + MIN_CHECK_INTERVAL <= s.started[j].at)
  {
    RunTracked(es);
  }

  lemma {:induction false} StartBound(started: seq<Started>, done: set<Task>, begun: Started, t: real)
    requires Young(Unfinished(started, done), begun.at) < MAX_RUNNING_CHECKS && begun.at <= t
    ensures Young(Unfinished(started + [begun], done), t) <= MAX_RUNNING_CHECKS
  {
    YoungShrinks(started, done, done, begun.at, t);
    UnfinishedAppend(started, begun, done);
    YoungAppend(Unfinished(started, done), begun, t);
    assert Unfinished(started, done) + [] == Unfinished(started, done);
  }

  /** At every moment at most MAX_RUNNING_CHECKS of all the checks ever started are unfinished
      and younger than STUCK_CHECK_SECONDS. */
  lemma {:induction false} RunningBound(es: seq<Event>, t: real)
    requires Forward(es) && RunAll(es).clock <= t
    ensures Young(Unfinished(RunAll(es).started, RunAll(es).done), t) <= MAX_RUNNING_CHECKS
  {
    if es != [] {
      var front, e := es[..|es| - 1], es[|es| - 1];
      ForwardPrefix(es);
      var s := RunAll(front);
      RunTracked(front);
      if e.Finish? {
        RunningBound(front, t);
        YoungShrinks(s.started, s.done, s.done + {e.task}, t, t);
      } else {
        var v := Judge(s.memo, e.now, s.done, e.task);
        if v.Starts? {
          StartBound(s.started, s.done, v.s, t);
        } else {
          RunningBound(front, t);
        }
      }
    }
  }

  /** A check that was started, is unfinished, and began less than half a minute before `t`. */
  ghost predicate Running(s: Sys, i: nat, t: real) {
    i < |s.started| && s.started[i].task !in s.done && t - s.started[i].at < 30.0
  }

  ghost function RunningAmong(s: Sys, n: nat, t: real): set<nat> {
    set i: nat | i < n && Running(s, i, t)
  }

  /** At every moment at most three of all checks ever started are running. */
  lemma {:induction false} AtMostThreeRun(es: seq<Event>, t: real)
    requires Forward(es) && RunAll(es).clock <= t
    ensures |RunningAmong(RunAll(es), |RunAll(es).started|, t)| <= 3
  {
    RunningBound(es, t);
    RunningCount(RunAll(es), |RunAll(es).started|, t);
    assert RunAll(es).started[..|RunAll(es).started|] == RunAll(es).started;
  }

  lemma {:induction false} RunningCount(s: Sys, n: nat, t: real)
    requires n <= |s.started|
    ensures |RunningAmong(s, n, t)| == Young(Unfinished(s.started[..n], s.done), t)
  {
    if n == 0 {
      assert RunningAmong(s, 0, t) == {};
    } else {
      RunningCount(s, n - 1, t);
      assert s.started[..n] == s.started[..n - 1] + [s.started[n - 1]];
      YoungUnfinished(s.started[..n - 1], s.started[n - 1], s.done, t);
      OneMoreRuns(s, n - 1, t);
    }
  }

  lemma {:induction false} OneMoreRuns(s: Sys, n: nat, t: real)
    requires n < |s.started|
    ensures |RunningAmong(s, n + 1, t)| == |RunningAmong(s, n, t)| + if Running(s, n, t) then 1 else 0
  {
    assert RunningAmong(s, n + 1, t) == RunningAmong(s, n, t) + if Running(s, n, t) then {n} else {};
  }

  /** What a call does, by the full history: it shares the last check, and no other, exactly within
      a second of its start; else it is refused exactly when three checks are running; else it
      starts its own. */
  lemma {:induction false} CallAnswers(es: seq<Event>, now: real, task: Task)
    requires Forward(es) && RunAll(es).clock <= now
    ensures var s := RunAll(es);
            Answers(s, now, task, Judge(s.memo, now, s.done, task), |RunningAmong(s, |s.started|, now)|)
  {
    var s := RunAll(es);
    RunTracked(es);
    RunningCount(s, |s.started|, now);
    assert s.started[..|s.started|] == s.started;
    VerdictAnswers(s, now, task);
  }

  ghost predicate Answers(s: Sys, now: real, task: Task, v: Verdict, running: nat) {
    var recent := s.started != [] && now - s.started[|s.started| - 1].at < 1.0;
    && (v.Shares? <==> recent) && (v.Shares? ==> v.s == s.started[|s.started| - 1])
    && (v.Refuses? <==> !recent && running >= 3)
    && (v.Starts? ==> v.s == Started(task, now))
  }

  lemma {:induction false} VerdictAnswers(s: Sys, now: real, task: Task)
    requires Tracked(s)
    ensures Answers(s, now, task, Judge(s.memo, now, s.done, task), Young(Unfinished(s.started, s.done), now))
  {
  }

  /** A call starts a check exactly when, by the full history, none started within the interval
      and fewer than MAX_RUNNING_CHECKS unfinished ones are young. */
  lemma {:induction false} StartsByHistory(es: seq<Event>, now: real, task: Task)
    requires Forward(es) && RunAll(es).clock <= now
    ensures var s := RunAll(es);
            Judge(s.memo, now, s.done, task).Starts? <==>
              && (forall i :: 0 <= i < |s.started| ==> now - s.started[i].at >= MIN_CHECK_INTERVAL)
              && Young(Unfinished(s.started, s.done), now) < MAX_RUNNING_CHECKS
  {
    RunTracked(es);
    var s := RunAll(es);
    if s.memo.latest.None? || now - s.memo.latest.value.at >= MIN_CHECK_INTERVAL {
      LateEnough(s, now);
    }
  }
}
