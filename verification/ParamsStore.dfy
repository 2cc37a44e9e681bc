/**
 * The versioned parameter store: rows per realm and group, one of them
 * active, with the scoring settings carried on the active row; and the
 * settings and scoring writes over it.
 */
module ParamsStore {
  import opened Prelude
  import opened Parameters

  type Realm = nat
  type RowId = nat
  type Hash = nat
  type Scoring = nat

  /** `Phantom` is an empty or missing group id. */
  datatype Group = Default | Phantom | Named(id: nat)

  datatype Row = Row(realm: Realm, group: Group, active: bool, hash: Hash, params: seq<Param>, scoring: Option<Scoring>)

  type Rows = map<RowId, Row>

  predicate IsActive(rows: Rows, id: RowId, realm: Realm, group: Group) {
    id in rows && rows[id].active && rows[id].realm == realm && rows[id].group == group
  }

  predicate IsVersion(rows: Rows, id: RowId, realm: Realm, group: Group, hash: Hash) {
    id in rows && rows[id].realm == realm && rows[id].group == group && rows[id].hash == hash
  }

  ghost predicate HasActive(rows: Rows, realm: Realm, group: Group) {
    exists id :: IsActive(rows, id, realm, group)
  }

  /** At most one active row per realm and group, and one row per realm, group and hash. */
  ghost predicate Consistent(rows: Rows) {
    && (forall i, j, realm, group :: IsActive(rows, i, realm, group) && IsActive(rows, j, realm, group) ==> i == j)
    && (forall i, j, realm, group, hash ::
          IsVersion(rows, i, realm, group, hash) && IsVersion(rows, j, realm, group, hash) ==> i == j)
  }

  /** The scoring settings in force: those on the active row. */
  ghost function ScoringOf(rows: Rows, realm: Realm, group: Group): Option<Scoring> {
    if HasActive(rows, realm, group) then
      var id :| IsActive(rows, id, realm, group); rows[id].scoring
    else None
  }

  lemma {:induction false} ScoringOfActive(rows: Rows, id: RowId, realm: Realm, group: Group)
    requires Consistent(rows) && IsActive(rows, id, realm, group)
    ensures ScoringOf(rows, realm, group) == rows[id].scoring
  {
  }

  // ----- what each store call does, row by row ----------------------------------------

  function Cleared(row: Row, realm: Realm, group: Group): Row {
    if row.realm == realm && (row.group == group || row.group == Phantom) then row.(active := false) else row
  }

  ghost predicate Activated(rows: Rows, realm: Realm, group: Group, hash: Hash, params: seq<Param>, rows': Rows,
                            id: RowId) {
    && id in rows'
    && rows'[id] ==
      Row(realm, group, true, hash, if id in rows then rows[id].params else params, ScoringOf(rows, realm, group))
    && (id in rows ==> IsVersion(rows, id, realm, group, hash))
    && (id !in rows ==> forall j :: !IsVersion(rows, j, realm, group, hash))
    && (forall j :: j != id ==> (j in rows' <==> j in rows))
    && (forall j :: j != id && j in rows ==> rows'[j] == Cleared(rows[j], realm, group))
  }

  ghost predicate Deactivated(rows: Rows, realm: Realm, group: Group, rows': Rows) {
    && rows'.Keys == rows.Keys
    && forall j :: j in rows ==>
         rows'[j] == if rows[j].realm == realm && rows[j].group == group then rows[j].(active := false) else rows[j]
  }

  /** None and no change when no row is active. */
  ghost predicate ScoringSet(rows: Rows, realm: Realm, group: Group, scoring: Option<Scoring>, rows': Rows,
                             id: Option<RowId>) {
    if id.None? then !HasActive(rows, realm, group) && rows' == rows
    else IsActive(rows, id.value, realm, group) && rows' == rows[id.value := rows[id.value].(scoring := scoring)]
  }

  class ConfigStore {
    var rows: Rows
    var nextId: RowId

    ghost predicate Valid()
      reads this
    {
      Consistent(rows) && forall id :: id in rows ==> id < nextId
    }

    constructor ()
      ensures Valid() && rows == map[]
    {
      rows, nextId := map[], 0;
    }

    method FindActive(realm: Realm, group: Group) returns (found: Option<RowId>)
      ensures found.None? <==> !HasActive(rows, realm, group)
      ensures found.Some? ==> IsActive(rows, found.value, realm, group)
    {
      var ids := set id | id in rows && IsActive(rows, id, realm, group);
      if ids == {} {
        assert forall id :: IsActive(rows, id, realm, group) ==> id in ids;
        return None;
      }
      var id :| id in ids;
      return Some(id);
    }

    method FindVersion(realm: Realm, group: Group, hash: Hash) returns (found: Option<RowId>)
      ensures found.None? <==> forall id :: !IsVersion(rows, id, realm, group, hash)
      ensures found.Some? ==> IsVersion(rows, found.value, realm, group, hash)
    {
      var ids := set id | id in rows && IsVersion(rows, id, realm, group, hash);
      if ids == {} {
        assert forall id :: IsVersion(rows, id, realm, group, hash) ==> id in ids;
        return None;
      }
      var id :| id in ids;
      return Some(id);
    }

    method Activate(realm: Realm, group: Group, hash: Hash, params: seq<Param>) returns (id: RowId)
      requires Valid()
      modifies this
      ensures Valid()
      ensures Activated(old(rows), realm, group, hash, params, rows, id)
    {
      var existing := FindVersion(realm, group, hash);
      var current := FindActive(realm, group);
      var preserved := if current.Some? then rows[current.value].scoring else None;
      if current.Some? {
        ScoringOfActive(rows, current.value, realm, group);
      }
      rows := map j | j in rows :: Cleared(rows[j], realm, group);
      if existing.Some? {
        id := existing.value;
        rows := rows[id := rows[id].(active := true, scoring := preserved)];
      } else {
        id := nextId;
        nextId := nextId + 1;
        rows := rows[id := Row(realm, group, true, hash, params, preserved)];
      }
      ActivateConsistent(old(rows), realm, group, hash, params, rows, id);
    }

    method Deactivate(realm: Realm, group: Group)
      requires Valid()
      modifies this
      ensures Valid()
      ensures Deactivated(old(rows), realm, group, rows)
    {
      rows := map j | j in rows ::
        if rows[j].realm == realm && rows[j].group == group then rows[j].(active := false) else rows[j];
      DeactivateConsistent(old(rows), realm, group, rows);
    }

    method UpdateScoring(realm: Realm, group: Group, scoring: Option<Scoring>) returns (id: Option<RowId>)
      requires Valid()
      modifies this
      ensures Valid()
      ensures ScoringSet(old(rows), realm, group, scoring, rows, id)
    {
      id := FindActive(realm, group);
      if id.Some? {
        rows := rows[id.value := rows[id.value].(scoring := scoring)];
        SetScoringConsistent(old(rows), realm, group, scoring, rows, id);
      }
    }
  }

  // ----- invariants over any sequence of store calls ---------------------------------------

  lemma {:induction false} ActivateConsistent(rows: Rows, realm: Realm, group: Group, hash: Hash, params: seq<Param>,
                                              rows': Rows, id: RowId)
    requires Consistent(rows) && Activated(rows, realm, group, hash, params, rows', id)
    ensures Consistent(rows')
    ensures forall j :: IsActive(rows', j, realm, group) <==> j == id
  {
    forall j, r, g | IsActive(rows', j, r, g)
      ensures j == id || (IsActive(rows, j, r, g) && (r != realm || g != group))
    {}
    forall j, r, g, h | IsVersion(rows', j, r, g, h) ensures j == id || IsVersion(rows, j, r, g, h) {}
  }

  lemma {:induction false} DeactivateConsistent(rows: Rows, realm: Realm, group: Group, rows': Rows)
    requires Consistent(rows) && Deactivated(rows, realm, group, rows')
    ensures Consistent(rows')
  {
    forall j, r, g | IsActive(rows', j, r, g) ensures IsActive(rows, j, r, g) {}
    forall j, r, g, h | IsVersion(rows', j, r, g, h) ensures IsVersion(rows, j, r, g, h) {}
  }

  lemma {:induction false} SetScoringConsistent(rows: Rows, realm: Realm, group: Group, scoring: Option<Scoring>,
                                                rows': Rows, id: Option<RowId>)
    requires Consistent(rows) && ScoringSet(rows, realm, group, scoring, rows', id)
    ensures Consistent(rows')
  {
    forall j, r, g | IsActive(rows', j, r, g) ensures IsActive(rows, j, r, g) {}
    forall j, r, g, h | IsVersion(rows', j, r, g, h) ensures IsVersion(rows, j, r, g, h) {}
  }

  /** What an activation leaves active: its row in its group, no phantom row of the realm, and in
      every other group what was. Rows change nothing but their active flag, except that the
      activated one carries the scoring that was in force. */
  lemma {:induction false} ActivatedMeans(rows: Rows, realm: Realm, group: Group, hash: Hash, params: seq<Param>,
                                          rows': Rows, id: RowId)
    requires Activated(rows, realm, group, hash, params, rows', id)
    ensures forall j, r, g :: IsActive(rows', j, r, g) <==>
              if r == realm && g == group then j == id
              else IsActive(rows, j, r, g) && !(r == realm && g == Phantom)
    ensures forall j :: j in rows && j != id ==> j in rows' && rows'[j].(active := rows[j].active) == rows[j]
    ensures forall j :: j in rows' && j !in rows ==> j == id && rows'[id].params == params && rows'[id].hash == hash
    ensures id in rows ==>
        rows[id].hash == hash && rows'[id].(active := rows[id].active, scoring := rows[id].scoring) == rows[id]
    ensures Consistent(rows) ==>
              forall i :: IsActive(rows, i, realm, group) ==> rows'[id].scoring == rows[i].scoring
    ensures !HasActive(rows, realm, group) ==> rows'[id].scoring == None
  {
    forall j, r, g ensures IsActive(rows', j, r, g) <==>
      (if r == realm && g == group then j == id else IsActive(rows, j, r, g) && !(r == realm && g == Phantom))
    {
      assert j in rows && j != id ==> rows'[j] == Cleared(rows[j], realm, group);
    }
    forall i | Consistent(rows) && IsActive(rows, i, realm, group) ensures rows'[id].scoring == rows[i].scoring {
      ScoringOfActive(rows, i, realm, group);
    }
  }

  /** A deactivation empties exactly its group; a scoring write changes only the settings in force. */
  lemma {:induction false} DeactivatedMeans(rows: Rows, realm: Realm, group: Group, rows': Rows)
    requires Deactivated(rows, realm, group, rows')
    ensures forall j, r, g :: IsActive(rows', j, r, g) <==> IsActive(rows, j, r, g) && !(r == realm && g == group)
    ensures rows'.Keys == rows.Keys
    ensures forall j :: j in rows ==> rows'[j].(active := rows[j].active) == rows[j]
  {
  }

  lemma {:induction false} ScoringSetMeans(rows: Rows, realm: Realm, group: Group, scoring: Option<Scoring>,
                                           rows': Rows, id: Option<RowId>)
    requires Consistent(rows) && ScoringSet(rows, realm, group, scoring, rows', id)
    ensures id.Some? <==> HasActive(rows, realm, group)
    ensures forall j, r, g :: IsActive(rows', j, r, g) <==> IsActive(rows, j, r, g)
    ensures forall r, g :: ScoringOf(rows', r, g) ==
              if r == realm && g == group && HasActive(rows, realm, group) then scoring else ScoringOf(rows, r, g)
    ensures forall j :: j in rows' ==> j in rows && rows'[j].(scoring := rows[j].scoring) == rows[j]
  {
    SetScoringConsistent(rows, realm, group, scoring, rows', id);
    forall j, r, g ensures IsActive(rows', j, r, g) <==> IsActive(rows, j, r, g) {}
    forall r, g ensures ScoringOf(rows', r, g) ==
      (if r == realm && g == group && HasActive(rows, realm, group) then scoring else ScoringOf(rows, r, g))
    {
      if HasActive(rows, r, g) {
        var j :| IsActive(rows, j, r, g);
        assert IsActive(rows', j, r, g);
        ScoringOfActive(rows, j, r, g);
        ScoringOfActive(rows', j, r, g);
      }
    }
  }

  datatype Call =
    | ActivateCall(realm: Realm, group: Group, hash: Hash, params: seq<Param>, id: RowId)
    | DeactivateCall(realm: Realm, group: Group)
    | ScoringCall(realm: Realm, group: Group, scoring: Option<Scoring>, found: Option<RowId>)

  ghost predicate Next(rows: Rows, c: Call, rows': Rows) {
    match c
    case ActivateCall(r, g, h, ps, id) => Activated(rows, r, g, h, ps, rows', id)
    case DeactivateCall(r, g) => Deactivated(rows, r, g, rows')
    case ScoringCall(r, g, sc, found) => ScoringSet(rows, r, g, sc, rows', found)
  }

  /** Calls of any writers, in any order, from an empty table. */
  ghost predicate Run(states: seq<Rows>, calls: seq<Call>) {
    && |states| == |calls| + 1 && states[0] == map[]
    && forall k :: 0 <= k < |calls| ==> Next(states[k], calls[k], states[k + 1])
  }

  lemma {:induction false} StepConsistent(rows: Rows, c: Call, rows': Rows)
    requires Consistent(rows) && Next(rows, c, rows')
    ensures Consistent(rows')
  {
    match c
    case ActivateCall(r, g, h, ps, id) => ActivateConsistent(rows, r, g, h, ps, rows', id);
    case DeactivateCall(r, g) => DeactivateConsistent(rows, r, g, rows');
    case ScoringCall(r, g, sc, found) => SetScoringConsistent(rows, r, g, sc, rows', found);
  }

  /** After any calls there is at most one active row per group and one row per version. */
  lemma {:induction false} RunConsistent(states: seq<Rows>, calls: seq<Call>, k: nat)
    requires Run(states, calls) && k < |states|
    ensures Consistent(states[k])
  {
    if k > 0 {
      RunConsistent(states, calls, k - 1);
      StepConsistent(states[k - 1], calls[k - 1], states[k]);
    }
  }

  /** A call that only settings writes make, as far as one realm's default group is concerned. */
  predicate KeepsDefault(c: Call, realm: Realm) {
    match c
    case DeactivateCall(r, g) => r != realm || g != Default
    case ScoringCall(r, g, _, _) => r != realm || g != Default
    case _ => true
  }

  /** Activations, and deactivations of other groups, leave the default group's scoring as it is. */
  lemma {:induction false} StepKeepsScoring(rows: Rows, c: Call, rows': Rows, realm: Realm)
    requires Consistent(rows) && Next(rows, c, rows') && KeepsDefault(c, realm)
    ensures ScoringOf(rows', realm, Default) == ScoringOf(rows, realm, Default)
    ensures HasActive(rows, realm, Default) ==> HasActive(rows', realm, Default)
  {
    StepConsistent(rows, c, rows');
    if c.ActivateCall? && c.realm == realm && c.group == Default {
      ActivateConsistent(rows, realm, Default, c.hash, c.params, rows', c.id);
      assert IsActive(rows', c.id, realm, Default);
      ScoringOfActive(rows', c.id, realm, Default);
    } else {
      forall id ensures IsActive(rows', id, realm, Default) <==> IsActive(rows, id, realm, Default) {}
      if HasActive(rows, realm, Default) {
        var id :| IsActive(rows, id, realm, Default);
        assert IsActive(rows', id, realm, Default);
        ScoringOfActive(rows, id, realm, Default);
        ScoringOfActive(rows', id, realm, Default);
      }
    }
  }

  /** Between any two moments of a run without scoring writes to it, a realm's default scoring
      settings are the same, and an active default row is never lost. */
  lemma {:induction false} RunKeepsScoring(states: seq<Rows>, calls: seq<Call>, from: nat, to: nat, realm: Realm)
    requires Run(states, calls) && from <= to < |states|
    requires forall k :: from <= k < to ==> KeepsDefault(calls[k], realm)
    ensures ScoringOf(states[to], realm, Default) == ScoringOf(states[from], realm, Default)
    ensures HasActive(states[from], realm, Default) ==> HasActive(states[to], realm, Default)
  {
    if from < to {
      RunKeepsScoring(states, calls, from, to - 1, realm);
      RunConsistent(states, calls, to - 1);
      StepKeepsScoring(states[to - 1], calls[to - 1], states[to], realm);
    }
  }

  lemma {:induction false} RunKeepsActive(states: seq<Rows>, calls: seq<Call>, from: nat, to: nat, realm: Realm)
    requires Run(states, calls) && from <= to < |states|
    requires forall k :: from <= k < to && calls[k].DeactivateCall? ==>
        calls[k].realm != realm || calls[k].group != Default
    requires HasActive(states[from], realm, Default)
    ensures HasActive(states[to], realm, Default)
  {
    if from < to {
      RunKeepsActive(states, calls, from, to - 1, realm);
      RunConsistent(states, calls, to - 1);
      var c := calls[to - 1];
      if c.ScoringCall? {
        var id :| IsActive(states[to - 1], id, realm, Default);
        assert IsActive(states[to], id, realm, Default);
      } else {
        StepKeepsScoring(states[to - 1], c, states[to], realm);
      }
    }
  }

  /** Once the default group has been seeded, a scoring write lands on its active row, whatever
      settings writes ran in between under their own lock. */
  lemma {:induction false} SeededScoringLands(states: seq<Rows>, calls: seq<Call>, seed: nat, write: nat, realm: Realm)
    requires Run(states, calls) && seed < write < |calls|
    requires calls[seed].ActivateCall? && calls[seed].realm == realm && calls[seed].group == Default
    requires forall k :: seed < k < write && calls[k].DeactivateCall? ==>
        calls[k].realm != realm || calls[k].group != Default
    requires calls[write].ScoringCall? && calls[write].realm == realm && calls[write].group == Default
    ensures calls[write].found.Some?
    ensures ScoringOf(states[write + 1], realm, Default) == calls[write].scoring
  {
    RunConsistent(states, calls, seed);
    assert Next(states[seed], calls[seed], states[seed + 1]);
    assert IsActive(states[seed + 1], calls[seed].id, realm, Default);
    RunKeepsActive(states, calls, seed + 1, write, realm);
    assert Next(states[write], calls[write], states[write + 1]);
    RunConsistent(states, calls, write + 1);
    var id := calls[write].found.value;
    assert IsActive(states[write + 1], id, realm, Default);
    ScoringOfActive(states[write + 1], id, realm, Default);
  }
}
