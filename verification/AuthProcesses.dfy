/**
 * The life of an authentication process: a risk decision opens it and leaves
 * an expiring per-user pointer to it; webhook events close it, through the
 * pointer or by naming it.
 */
module AuthProcesses {
  import opened Prelude

  type Realm = nat
  type User = nat
  type Id = nat

  /** An id as a client spelled it; every spelling of a UUID has one canonical id. */
  datatype RawId = Uuid(id: Id, spelling: nat) | NotUuid(text: nat)

  function Canonical(raw: Option<RawId>): Option<Id> {
    if raw.Some? && raw.value.Uuid? then Some(raw.value.id) else None
  }

  datatype Status = PreAuth | LoginError | Login

  function Rank(s: Status): nat {
    match s
    case PreAuth => 0
    case LoginError => 1
    case Login => 2
  }

  datatype Row = Row(realm: Realm, user: User, status: Status)

  datatype Kind = LOGIN | LOGIN_ERROR | OTHER

  function FinalStatus(k: Kind): Status
    requires k != OTHER
  {
    if k == LOGIN then Login else LoginError
  }

  /** A stored webhook event, linked to the process it was taken to belong to. */
  datatype Event = Event(realm: Realm, user: Option<User>, kind: Kind, link: Option<Id>)

  datatype Sys = Sys(pointers: map<(Realm, User), RawId>, rows: map<Id, Row>, events: map<Id, Event>)

  /** `realm` signed the token; the subject check has matched `user` to it. */
  datatype Payload = Payload(realm: Realm, user: Option<User>, id: RawId, kind: Kind)

  // ----- the store and its operations ------------------------------------------

  class Store {
    var pointers: map<(Realm, User), RawId>
    var rows: map<Id, Row>
    var events: map<Id, Event>

    function State(): Sys
      reads this
    {
      Sys(pointers, rows, events)
    }

    constructor ()
      ensures State() == Sys(map[], map[], map[])
    {
      pointers, rows, events := map[], map[], map[];
    }

    /** `scored` says whether the evaluation ran through to inserting its row. */
    method Decide(realm: Realm, user: User, raw: RawId, scored: bool) returns (ok: bool)
      modifies this
      ensures State() == AfterDecide(old(State()), realm, user, raw, scored)
      ensures ok <==> scored && raw.Uuid? && raw.id !in old(rows)
    {
      if (realm, user) in pointers {
        pointers := pointers - {(realm, user)};
      }
      pointers := pointers[(realm, user) := raw];
      if !scored || raw.NotUuid? || raw.id in rows {
        return false;
      }
      rows := rows[raw.id := Row(realm, user, PreAuth)];
      return true;
    }

    /** The pointer's five minutes end, or the route clears it after a failed evaluation. */
    method Vanish(realm: Realm, user: User)
      modifies this
      ensures State() == AfterVanish(old(State()), realm, user)
    {
      pointers := pointers - {(realm, user)};
    }

    /** False where the source raises. */
    method ProcessEvent(p: Payload) returns (ok: bool)
      modifies this
      ensures State() == AfterEvent(old(State()), p)
      ensures ok == Accepted(old(State()), p)
    {
      var processId: Option<RawId> := None;
      var own: Option<Id> := None;
      if p.user.Some? {
        var key := (p.realm, p.user.value);
        var openId: Option<RawId> := if key in pointers then Some(pointers[key]) else None;
        processId := openId;
        if p.kind != OTHER {
          own := OwnProcess(p);
          if own.Some? {
            processId := Some(Uuid(own.value, 0));
            if own == Canonical(openId) {
              own := None;
            }
          }
        }
      }
      var stored := CreateEvent(p, processId);
      if !stored {
        return false;
      }
      if own.Some? {
        if !(rows[own.value].status == Login && p.kind != LOGIN) {
          rows := rows[own.value := rows[own.value].(status := FinalStatus(p.kind))];
        }
        return true;
      }
      if processId.Some? && p.kind != OTHER {
        var id := Canonical(processId).value;
        if rows[id].realm != p.realm {
          return false;
        }
        rows := rows[id := rows[id].(status := FinalStatus(p.kind))];
        pointers := pointers - {(p.realm, p.user.value)};
      }
      return true;
    }

    /** The decision an outcome names by its id, if it is this user's. */
    method OwnProcess(p: Payload) returns (own: Option<Id>)
      requires p.user.Some?
      ensures own == Named(State(), p)
    {
      if p.id.NotUuid? || p.id.id !in rows {
        return None;
      }
      var row := rows[p.id.id];
      if row.realm != p.realm || row.user != p.user.value {
        return None;
      }
      return Some(p.id.id);
    }

    /** The insert fails on a malformed or used id, and on a link to no row. */
    method CreateEvent(p: Payload, link: Option<RawId>) returns (ok: bool)
      modifies this`events
      ensures ok == Insertable(old(State()), p, link)
      ensures events == if ok then old(events)[p.id.id := Event(p.realm, p.user, p.kind, Canonical(link))]
          else old(events)
    {
      if p.id.NotUuid? || p.id.id in events {
        return false;
      }
      if link.Some? && (link.value.NotUuid? || link.value.id !in rows) {
        return false;
      }
      events := events[p.id.id := Event(p.realm, p.user, p.kind, Canonical(link))];
      return true;
    }
  }

  // ----- the operations on values ------------------------------------------------

  function AfterDecide(s: Sys, realm: Realm, user: User, raw: RawId, scored: bool): Sys {
    var pointed := s.(pointers := s.pointers[(realm, user) := raw]);
    if scored && raw.Uuid? && raw.id !in s.rows then
      pointed.(rows := s.rows[raw.id := Row(realm, user, PreAuth)])
    else pointed
  }

  function AfterVanish(s: Sys, realm: Realm, user: User): Sys {
    s.(pointers := s.pointers - {(realm, user)})
  }

  function Open(s: Sys, p: Payload): Option<RawId> {
    if p.user.Some? && (p.realm, p.user.value) in s.pointers then Some(s.pointers[(p.realm, p.user.value)]) else None
  }

  function Named(s: Sys, p: Payload): Option<Id> {
    if p.user.Some? && p.id.Uuid? && p.id.id in s.rows
       && s.rows[p.id.id].realm == p.realm && s.rows[p.id.id].user == p.user.value
    then Some(p.id.id) else None
  }

  /** The process an event belongs to: the named decision if it is an outcome, else the open one. */
  function Target(s: Sys, p: Payload): Option<RawId> {
    if p.kind != OTHER && Named(s, p).Some? then Some(Uuid(p.id.id, 0)) else Open(s, p)
  }

  predicate Insertable(s: Sys, p: Payload, link: Option<RawId>) {
    && p.id.Uuid? && p.id.id !in s.events
    && (link.Some? ==> link.value.Uuid? && link.value.id in s.rows)
  }

  predicate Accepted(s: Sys, p: Payload) {
    && Insertable(s, p, Target(s, p))
    && (Target(s, p).Some? && p.kind != OTHER ==> s.rows[Target(s, p).value.id].realm == p.realm)
  }

  function AfterEvent(s: Sys, p: Payload): Sys {
    var target := Target(s, p);
    if !Insertable(s, p, target) then s
    else
      var stored := s.(events := s.events[p.id.id := Event(p.realm, p.user, p.kind, Canonical(target))]);
      if target.None? || p.kind == OTHER then stored
      else
        var id := target.value.id;
        var closed := stored.(rows := s.rows[id := s.rows[id].(status := FinalStatus(p.kind))]);
        if Named(s, p).Some? && Canonical(Open(s, p)) != Some(id) then
          if s.rows[id].status == Login && p.kind != LOGIN then stored else closed
        else if s.rows[id].realm != p.realm then stored
        else closed.(pointers := s.pointers - {(p.realm, p.user.value)})
  }

  // ----- runs --------------------------------------------------------------------

  datatype Action =
    | Decide(realm: Realm, user: User, raw: RawId, scored: bool)
    | Vanish(realm: Realm, user: User)
    | Receive(payload: Payload)

  function After(s: Sys, a: Action): Sys {
    match a
    case Decide(r, u, raw, scored) => AfterDecide(s, r, u, raw, scored)
    case Vanish(r, u) => AfterVanish(s, r, u)
    case Receive(p) => AfterEvent(s, p)
  }

  function RunAll(actions: seq<Action>): Sys {
    if actions == [] then Sys(map[], map[], map[])
    else After(RunAll(actions[..|actions| - 1]), actions[|actions| - 1])
  }

  /** An open pointer, when its row exists, names a pre-auth row of its own realm and user. */
  ghost predicate PointersOpen(s: Sys) {
    forall key :: key in s.pointers && s.pointers[key].Uuid? && s.pointers[key].id in s.rows ==>
      s.rows[s.pointers[key].id] == Row(key.0, key.1, PreAuth)
  }

  /** Rows keep their owner and their status never goes down. */
  ghost predicate Climbs(s: Sys, s': Sys) {
    forall id :: id in s.rows ==>
      && id in s'.rows && s'.rows[id].realm == s.rows[id].realm && s'.rows[id].user == s.rows[id].user
      && Rank(s.rows[id].status) <= Rank(s'.rows[id].status)
  }

  lemma {:induction false} EventKeepsPointers(s: Sys, p: Payload)
    requires PointersOpen(s)
    ensures PointersOpen(AfterEvent(s, p)) && Climbs(s, AfterEvent(s, p))
  {
    var s' := AfterEvent(s, p);
    var target := Target(s, p);
    if Insertable(s, p, target) && target.Some? && p.kind != OTHER {
      var id := target.value.id;
      forall key | key in s'.pointers && s'.pointers[key].Uuid? && s'.pointers[key].id in s'.rows
        ensures s'.rows[s'.pointers[key].id] == Row(key.0, key.1, PreAuth)
      {
        // Two users' pointers cannot name one row: the row has one owner.
        assert s.rows[s.pointers[key].id] == Row(key.0, key.1, PreAuth);
      }
    }
  }

  /** The id a decision carries does not name a finished or foreign row, and creates no row that
      another user's pointer is waiting for. A retry while its own row is pre-auth is fine. */
  ghost predicate SafeDecision(s: Sys, a: Action) {
    a.Decide? && a.raw.Uuid? ==>
      if a.raw.id in s.rows then s.rows[a.raw.id] == Row(a.realm, a.user, PreAuth)
      else a.scored ==> forall key :: key in s.pointers && key != (a.realm, a.user) ==>
             Canonical(Some(s.pointers[key])) != Some(a.raw.id)
  }

  /** A fresh id is always safe: it names no row and is not pending for another user. */
  lemma {:induction false} FreshIsSafe(s: Sys, a: Action)
    requires a.Decide? && a.raw.Uuid? && a.raw.id !in s.rows
    requires forall key :: key in s.pointers && key != (a.realm, a.user) ==>
        Canonical(Some(s.pointers[key])) != Some(a.raw.id)
    ensures SafeDecision(s, a)
  {
  }

  ghost predicate SafeRun(actions: seq<Action>) {
    forall k :: 0 <= k < |actions| ==> SafeDecision(RunAll(actions[..k]), actions[k])
  }

  /** A step keeps the pointers in order exactly when it is no unsafe decision. */
  lemma {:induction false} StepSafeIff(s: Sys, a: Action)
    requires PointersOpen(s)
    ensures PointersOpen(After(s, a)) <==> SafeDecision(s, a)
  {
    match a
    case Vanish(_, _) =>
    case Receive(p) => EventKeepsPointers(s, p);
    case Decide(realm, user, raw, scored) => DecideSafeIff(s, realm, user, raw, scored);
  }

  lemma {:induction false} StepClimbs(s: Sys, a: Action)
    requires PointersOpen(s)
    ensures Climbs(s, After(s, a))
  {
    if a.Receive? {
      EventKeepsPointers(s, a.payload);
    }
  }

  lemma {:induction false} SafePrefix(actions: seq<Action>, k: nat)
    requires SafeRun(actions) && k <= |actions|
    ensures SafeRun(actions[..k])
  {
    forall i | 0 <= i < k ensures SafeDecision(RunAll(actions[..k][..i]), actions[..k][i]) {
      assert actions[..k][..i] == actions[..i];
    }
  }

  lemma {:induction false} RunLast(actions: seq<Action>, k: nat)
    requires k < |actions|
    ensures RunAll(actions[..k + 1]) == After(RunAll(actions[..k]), actions[k])
  {
    assert actions[..k + 1][..k] == actions[..k];
  }

  lemma {:induction false} RunKeepsPointers(actions: seq<Action>)
    requires SafeRun(actions)
    ensures PointersOpen(RunAll(actions))
  {
    if actions != [] {
      var n := |actions| - 1;
      SafePrefix(actions, n);
      RunKeepsPointers(actions[..n]);
      StepSafeIff(RunAll(actions[..n]), actions[n]);
    }
  }

  /** The pointers are in order throughout a run exactly when all its decisions are safe. */
  lemma {:induction false} PointersOpenIff(actions: seq<Action>)
    ensures (forall k :: 0 <= k <= |actions| ==> PointersOpen(RunAll(actions[..k]))) <==> SafeRun(actions)
  {
    if SafeRun(actions) {
      forall k | 0 <= k <= |actions| ensures PointersOpen(RunAll(actions[..k])) {
        SafePrefix(actions, k);
        RunKeepsPointers(actions[..k]);
      }
    } else {
      var k :| 0 <= k < |actions| && !SafeDecision(RunAll(actions[..k]), actions[k]);
      RunLast(actions, k);
      if PointersOpen(RunAll(actions[..k])) {
        StepSafeIff(RunAll(actions[..k]), actions[k]);
        assert !PointersOpen(RunAll(actions[..k + 1]));
      }
    }
  }

  /** Over any run of safe decisions, a process's status only climbs pre-auth, LOGIN_ERROR, LOGIN. */
  lemma {:induction false} StatusOnlyClimbs(actions: seq<Action>, k: nat)
    requires SafeRun(actions) && k <= |actions|
    ensures Climbs(RunAll(actions[..k]), RunAll(actions))
    decreases |actions| - k
  {
    if k == |actions| {
      assert actions[..k] == actions;
    } else {
      SafePrefix(actions, k);
      RunKeepsPointers(actions[..k]);
      StepClimbs(RunAll(actions[..k]), actions[k]);
      RunLast(actions, k);
      StatusOnlyClimbs(actions, k + 1);
    }
  }

  /** A decision keeps the pointers in order exactly when it is safe. */
  lemma {:induction false} DecideSafeIff(s: Sys, realm: Realm, user: User, raw: RawId, scored: bool)
    requires PointersOpen(s)
    ensures PointersOpen(AfterDecide(s, realm, user, raw, scored)) <==>
        SafeDecision(s, Decide(realm, user, raw, scored))
  {
    var s' := AfterDecide(s, realm, user, raw, scored);
    if raw.Uuid? && raw.id in s.rows {
      assert s'.pointers[(realm, user)] == raw;
      forall key | key in s'.pointers && key != (realm, user) ensures s'.pointers[key] == s.pointers[key] {}
    } else if raw.Uuid? && scored {
      forall key | key in s.pointers && key != (realm, user) ensures s'.pointers[key] == s.pointers[key] {}
    }
  }

  // ----- exactly when a status goes down --------------------------------------------

  /** An error closes, through the pointer, a process that ended in a login: closing by pointer
      is the one branch that does not look at the status it overwrites. */
  ghost predicate Undoes(s: Sys, a: Action) {
    && a.Receive? && a.payload.kind == LOGIN_ERROR && Accepted(s, a.payload)
    && Open(s, a.payload).Some? && Canonical(Open(s, a.payload)) == Canonical(Target(s, a.payload))
    && s.rows[Open(s, a.payload).value.id].status == Login
  }

  /** From any state, a step lowers a status exactly if it is such an error. */
  lemma {:induction false} StepClimbsIff(s: Sys, a: Action)
    ensures Climbs(s, After(s, a)) <==> !Undoes(s, a)
  {
    if Undoes(s, a) {
      var id := Open(s, a.payload).value.id;
      assert After(s, a).rows[id].status == LoginError;
    }
  }

  /** Statuses climb throughout a run, whatever its ids, exactly when no error undoes a login. */
  lemma {:induction false} StatusesClimbIff(actions: seq<Action>)
    ensures (forall j, k :: 0 <= j <= k <= |actions| ==> Climbs(RunAll(actions[..j]), RunAll(actions[..k])))
            <==> (forall k :: 0 <= k < |actions| ==> !Undoes(RunAll(actions[..k]), actions[k]))
  {
    if forall k :: 0 <= k < |actions| ==> !Undoes(RunAll(actions[..k]), actions[k]) {
      forall j, k | 0 <= j <= k <= |actions| ensures Climbs(RunAll(actions[..j]), RunAll(actions[..k])) {
        ClimbsBetween(actions, j, k);
      }
    } else {
      var k :| 0 <= k < |actions| && Undoes(RunAll(actions[..k]), actions[k]);
      StepClimbsIff(RunAll(actions[..k]), actions[k]);
      RunLast(actions, k);
      assert !Climbs(RunAll(actions[..k]), RunAll(actions[..k + 1]));
    }
  }

  lemma {:induction false} ClimbsBetween(actions: seq<Action>, j: nat, k: nat)
    requires j <= k <= |actions|
    requires forall i :: 0 <= i < |actions| ==> !Undoes(RunAll(actions[..i]), actions[i])
    ensures Climbs(RunAll(actions[..j]), RunAll(actions[..k]))
  {
    if j < k {
      ClimbsBetween(actions, j, k - 1);
      StepClimbsIff(RunAll(actions[..k - 1]), actions[k - 1]);
      RunLast(actions, k - 1);
    }
  }

  /** No pointer names a login of its own realm. */
  ghost predicate NoLoginOpen(s: Sys) {
    forall key :: key in s.pointers ==> !NamesLogin(s, key.0, s.pointers[key])
  }

  predicate NamesLogin(s: Sys, realm: Realm, raw: RawId) {
    raw.Uuid? && raw.id in s.rows && s.rows[raw.id].realm == realm && s.rows[raw.id].status == Login
  }

  /** No event that could come next lowers a status exactly when no pointer names such a login. */
  lemma {:induction false} NextEventClimbsIff(s: Sys)
    ensures (forall p :: Climbs(s, AfterEvent(s, p))) <==> NoLoginOpen(s)
  {
    if NoLoginOpen(s) {
      forall p ensures Climbs(s, AfterEvent(s, p)) {
        StepClimbsIff(s, Receive(p));
      }
    } else {
      var key :| key in s.pointers && NamesLogin(s, key.0, s.pointers[key]);
      var id := Unused(s.rows.Keys + s.events.Keys);
      var p := Payload(key.0, Some(key.1), Uuid(id, 0), LOGIN_ERROR);
      assert Undoes(s, Receive(p));
      StepClimbsIff(s, Receive(p));
    }
  }

  lemma {:induction false} Unused(ids: set<Id>) returns (id: Id)
    ensures id !in ids
  {
    if forall i: nat :: i < |ids| + 1 ==> i in ids {
      SubsetCardinality(Below(|ids| + 1), ids);
    }
    id :| id !in ids;
  }

  /** A decision keeps it so exactly when its id names no login of its realm. */
  lemma {:induction false} DecisionKeepsIff(s: Sys, realm: Realm, user: User, raw: RawId, scored: bool)
    requires NoLoginOpen(s)
    ensures NoLoginOpen(AfterDecide(s, realm, user, raw, scored)) <==> !NamesLogin(s, realm, raw)
  {
    var s' := AfterDecide(s, realm, user, raw, scored);
    assert s'.pointers[(realm, user)] == raw;
    if !NamesLogin(s, realm, raw) {
      forall key | key in s'.pointers ensures !NamesLogin(s', key.0, s'.pointers[key]) {
        assert key != (realm, user) ==> !NamesLogin(s, key.0, s.pointers[key]);
      }
    }
  }

  // ----- refused decisions and their clean-up -----------------------------------------

  /** No row is inserted: the evaluation fails, or the id is malformed or used. */
  predicate Refused(s: Sys, raw: RawId, scored: bool) {
    !scored || raw.NotUuid? || raw.id in s.rows
  }

  /** The users whose last decision was refused and whose pointer is not deleted yet. The route
      deletes it after the mutex is released, so other steps can come in between. */
  ghost function Uncleared(actions: seq<Action>): set<(Realm, User)> {
    if actions == [] then {}
    else
      var front := actions[..|actions| - 1];
      match actions[|actions| - 1]
      case Decide(r, u, raw, scored) =>
        if Refused(RunAll(front), raw, scored) then Uncleared(front) + {(r, u)} else Uncleared(front) - {(r, u)}
      case Vanish(r, u) => Uncleared(front) - {(r, u)}
      case Receive(_) => Uncleared(front)
  }

  /** The step is not an outcome of a user whose refused decision still awaits its clean-up. */
  ghost predicate OutsideWindow(uncleared: set<(Realm, User)>, a: Action) {
    a.Receive? && a.payload.kind != OTHER && a.payload.user.Some? ==>
        (a.payload.realm, a.payload.user.value) !in uncleared
  }

  ghost predicate ClearedInTime(actions: seq<Action>) {
    forall k :: 0 <= k < |actions| ==> OutsideWindow(Uncleared(actions[..k]), actions[k])
  }

  /** Every other pointer names an existing pre-auth row of its own realm and user. */
  ghost predicate OthersOpen(s: Sys, uncleared: set<(Realm, User)>) {
    forall key :: key in s.pointers && key !in uncleared ==>
      && s.pointers[key].Uuid? && s.pointers[key].id in s.rows
      && s.rows[s.pointers[key].id] == Row(key.0, key.1, PreAuth)
  }

  lemma {:induction false} EventKeepsOthers(s: Sys, uncleared: set<(Realm, User)>, p: Payload)
    requires OthersOpen(s, uncleared) && OutsideWindow(uncleared, Receive(p))
    ensures OthersOpen(AfterEvent(s, p), uncleared) && Climbs(s, AfterEvent(s, p))
  {
    var s' := AfterEvent(s, p);
    forall key | key in s'.pointers && key !in uncleared
      ensures s'.pointers[key].Uuid? && s'.pointers[key].id in s'.rows
      ensures s'.rows[s'.pointers[key].id] == Row(key.0, key.1, PreAuth)
    {
      assert s.rows[s.pointers[key].id] == Row(key.0, key.1, PreAuth);
    }
    StepClimbsIff(s, Receive(p));
  }

  lemma {:induction false} StepKeepsOthers(front: seq<Action>, a: Action)
    requires OthersOpen(RunAll(front), Uncleared(front)) && OutsideWindow(Uncleared(front), a)
    ensures OthersOpen(RunAll(front + [a]), Uncleared(front + [a])) && !Undoes(RunAll(front), a)
  {
    assert (front + [a])[..|front|] == front;
    match a
    case Receive(p) =>
      EventKeepsOthers(RunAll(front), Uncleared(front), p);
      StepClimbsIff(RunAll(front), a);
    case _ =>
  }

  lemma {:induction false} RunKeepsOthers(actions: seq<Action>, k: nat)
    requires ClearedInTime(actions) && k <= |actions|
    ensures OthersOpen(RunAll(actions[..k]), Uncleared(actions[..k]))
    ensures k < |actions| ==> !Undoes(RunAll(actions[..k]), actions[k])
  {
    if k > 0 {
      RunKeepsOthers(actions, k - 1);
      StepKeepsOthers(actions[..k - 1], actions[k - 1]);
      assert actions[..k] == actions[..k - 1] + [actions[k - 1]];
    }
    if k < |actions| {
      StepKeepsOthers(actions[..k], actions[k]);
    }
  }

  /** Whatever ids decisions carry, replays included: if no outcome of a user falls between a
      refused decision and its clean-up, every other pointer is in order and statuses climb. */
  lemma {:induction false} ClearedRunClimbs(actions: seq<Action>, j: nat, k: nat)
    requires ClearedInTime(actions) && j <= k <= |actions|
    ensures Climbs(RunAll(actions[..j]), RunAll(actions[..k]))
    ensures OthersOpen(RunAll(actions[..k]), Uncleared(actions[..k]))
  {
    forall i | 0 <= i < |actions| ensures !Undoes(RunAll(actions[..i]), actions[i]) {
      RunKeepsOthers(actions, i);
    }
    ClimbsBetween(actions, j, k);
    RunKeepsOthers(actions, k);
  }

  // ----- what one outcome touches ---------------------------------------------------

  /** An accepted outcome that names its own decision settles only that row, a LOGIN winning over
      an error, is linked to it, and clears the user's pointer exactly if it names that row. */
  lemma {:induction false} OwnOutcome(s: Sys, p: Payload)
    requires PointersOpen(s) && p.kind != OTHER && Named(s, p).Some? && p.id.id !in s.events
    ensures Accepted(s, p)
    ensures var s' := AfterEvent(s, p);
            var id := p.id.id;
            && s'.rows ==
              s.rows[id := s.rows[id].(status := if s.rows[id].status == Login then Login else FinalStatus(p.kind))]
            && s'.pointers ==
              (if Canonical(Open(s, p)) == Some(id) then s.pointers - {(p.realm, p.user.value)} else s.pointers)
            && s'.events == s.events[id := Event(p.realm, p.user, p.kind, Some(id))]
  {
    var id := p.id.id;
    assert s.rows[id].(status := s.rows[id].status) == s.rows[id];
    assert s.rows == s.rows[id := s.rows[id]];
  }

  /** An outcome that names no decision of its user closes the open process, if there is one. */
  lemma {:induction false} UnnamedOutcome(s: Sys, p: Payload)
    requires PointersOpen(s) && p.kind != OTHER && Named(s, p).None? && Accepted(s, p)
    ensures AfterEvent(s, p).events == s.events[p.id.id := Event(p.realm, p.user, p.kind, Canonical(Open(s, p)))]
    ensures var s' := AfterEvent(s, p);
            if Open(s, p).None? then s'.rows == s.rows && s'.pointers == s.pointers
            else
              var id := Open(s, p).value.id;
              && id in s.rows && s.rows[id] == Row(p.realm, p.user.value, PreAuth)
              && s'.rows == s.rows[id := Row(p.realm, p.user.value, FinalStatus(p.kind))]
              && s'.pointers == s.pointers - {(p.realm, p.user.value)}
  {
  }

  /** An event that is no outcome, or names no user, settles nothing; it is linked to the user's
      open process, if there is one. */
  lemma {:induction false} OtherEvent(s: Sys, p: Payload)
    requires p.kind == OTHER || p.user.None?
    ensures AfterEvent(s, p).rows == s.rows && AfterEvent(s, p).pointers == s.pointers
    ensures Accepted(s, p) ==> AfterEvent(s, p).events[p.id.id].link == Canonical(Open(s, p))
    ensures !Accepted(s, p) ==> AfterEvent(s, p) == s
  {
  }

  /** An event that is refused changes no row and no pointer; a stored event is never overwritten,
      and an accepted one is stored as it came. */
  lemma {:induction false} EventsKept(s: Sys, p: Payload)
    ensures var s' := AfterEvent(s, p);
            && (!Accepted(s, p) ==> s'.rows == s.rows && s'.pointers == s.pointers)
            && (forall id :: id in s.events ==> id in s'.events && s'.events[id] == s.events[id])
            && (forall id :: id in s'.events && id !in s.events ==> p.id.Uuid? && id == p.id.id)
            && (Accepted(s, p) ==>
                  && p.id.Uuid? && p.id.id !in s.events && p.id.id in s'.events
                  && s'.events[p.id.id].(link := None) == Event(p.realm, p.user, p.kind, None))
  {
  }

  /** Every link names a stored process. */
  ghost predicate LinksExist(s: Sys) {
    forall id :: id in s.events && s.events[id].link.Some? ==> s.events[id].link.value in s.rows
  }

  lemma {:induction false} RunLinksExist(actions: seq<Action>)
    ensures LinksExist(RunAll(actions))
  {
    if actions != [] {
      RunLinksExist(actions[..|actions| - 1]);
      StepLinksExist(RunAll(actions[..|actions| - 1]), actions[|actions| - 1]);
    }
  }

  lemma {:induction false} StepLinksExist(s: Sys, a: Action)
    requires LinksExist(s)
    ensures LinksExist(After(s, a))
  {
  }

  /** No step changes the open pointer of a user it is not about; a decision sets its own user's to
      its id and adds at most its row, an expiry or clean-up drops its own user's and nothing else. */
  lemma {:induction false} UsersApart(s: Sys, a: Action, key: (Realm, User))
    ensures var s' := After(s, a);
            var own := match a
              case Decide(r, u, _, _) => Some((r, u))
              case Vanish(r, u) => Some((r, u))
              case Receive(p) => if p.user.Some? then Some((p.realm, p.user.value)) else None;
            && (own != Some(key) ==>
                  (key in s'.pointers <==> key in s.pointers) &&
                      (key in s.pointers ==> s'.pointers[key] == s.pointers[key]))
            && (a.Vanish? && own == Some(key) ==> key !in s'.pointers && s'.rows == s.rows && s'.events == s.events)
            && (a.Decide? && own == Some(key) ==>
                  && key in s'.pointers && s'.pointers[key] == a.raw && s'.events == s.events
                  && s'.rows == if Refused(s, a.raw, a.scored) then s.rows
                                else s.rows[a.raw.id := Row(a.realm, a.user, PreAuth)])
  {
  }

  /** Whatever the state, one realm's event changes no row or pointer of another realm. */
  lemma {:induction false} RealmsApart(s: Sys, p: Payload)
    ensures var s' := AfterEvent(s, p);
            && s'.rows.Keys == s.rows.Keys
            && (forall id :: id in s.rows && s.rows[id].realm != p.realm ==> s'.rows[id] == s.rows[id])
            && (forall key :: key in s.pointers && key.0 != p.realm ==>
              key in s'.pointers && s'.pointers[key] == s.pointers[key])
            && (forall key :: key in s'.pointers ==> key in s.pointers)
  {
  }

  const DECISION := Decide(1, 2, Uuid(7, 0), true)
  const SUCCESS := Receive(Payload(1, Some(2), Uuid(7, 0), LOGIN))
  const ERROR := Receive(Payload(1, Some(2), Uuid(8, 0), LOGIN_ERROR))
  const CLEANUP := Vanish(1, 2)

  /** A decision, its login, and the same decision replayed: it is refused, and until the clean-up
      the user's open pointer still names the finished process. */
  lemma {:induction false} Replayed()
    ensures var s := RunAll([DECISION, SUCCESS, DECISION]);
            && s.rows == map[7 := Row(1, 2, Login)] && s.pointers == map[(1, 2) := Uuid(7, 0)] && 8 !in s.events
    ensures (1, 2) in Uncleared([DECISION, SUCCESS, DECISION])
  {
    var actions := [DECISION, SUCCESS, DECISION];
    assert actions[..2][..1] == [DECISION] && [DECISION][..0] == [] && actions[..2] == [DECISION, SUCCESS];
    var s1 := RunAll([DECISION]);
    assert s1 == After(RunAll([]), DECISION);
    assert s1 == Sys(map[(1, 2) := Uuid(7, 0)], map[7 := Row(1, 2, PreAuth)], map[]);
    var s2 := RunAll(actions[..2]);
    assert s2.rows == map[7 := Row(1, 2, Login)] && s2.pointers == map[] && 8 !in s2.events;
  }

  /** An error that arrives in that window undoes the login; the clean-up comes too late. */
  lemma {:induction false} ReplayUndoesLogin()
    ensures RunAll([DECISION, SUCCESS, DECISION]).rows == map[7 := Row(1, 2, Login)]
    ensures RunAll([DECISION, SUCCESS, DECISION] + [ERROR] + [CLEANUP]).rows == map[7 := Row(1, 2, LoginError)]
    ensures !OutsideWindow(Uncleared([DECISION, SUCCESS, DECISION]), ERROR)
  {
    var actions := [DECISION, SUCCESS, DECISION];
    Replayed();
    assert (actions + [ERROR])[..3] == actions;
    assert (actions + [ERROR] + [CLEANUP])[..4] == actions + [ERROR];
    assert RunAll(actions + [ERROR]) == After(RunAll(actions), ERROR);
    assert RunAll(actions + [ERROR] + [CLEANUP]) == After(RunAll(actions + [ERROR]), CLEANUP);
  }

  /** The same error after the clean-up leaves the login as it is. */
  lemma {:induction false} ClearedReplayKeepsLogin()
    ensures RunAll([DECISION, SUCCESS, DECISION] + [CLEANUP] + [ERROR]).rows == map[7 := Row(1, 2, Login)]
  {
    var actions := [DECISION, SUCCESS, DECISION];
    Replayed();
    assert (actions + [CLEANUP])[..3] == actions;
    assert (actions + [CLEANUP] + [ERROR])[..4] == actions + [CLEANUP];
    assert RunAll(actions + [CLEANUP]) == After(RunAll(actions), CLEANUP);
    assert RunAll(actions + [CLEANUP] + [ERROR]) == After(RunAll(actions + [CLEANUP]), ERROR);
  }
}
