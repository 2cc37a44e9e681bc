/** The settings and scoring writes: how a submission becomes store calls. */
module ParamsService {
  import opened Prelude
  import opened Parameters
  import opened ParamsStore

  datatype Assignment = Assignment(realm: Realm, group: Group, param: Param)

  /** The HTTP errors a write answers with. */
  datatype WriteError = WrongRealm | WrongCount | NotPersisted

  /** An unset group folds into the default one. */
  function Normal(g: Group): Group {
    if g == Phantom then Default else g
  }

  /** What a submission says for one group, in order. */
  function Submitted(request: seq<Assignment>, g: Group): seq<Param> {
    if request == [] then []
    else Submitted(request[..|request| - 1], g)
         + if Normal(request[|request| - 1].group) == g then [request[|request| - 1].param] else []
  }

  /** What the default group stores; other groups store just what was submitted. */
  function Stored(defaults: seq<Param>, request: seq<Assignment>, g: Group): seq<Param> {
    var ps := Submitted(request, g);
    if g == Default then ps + Missing(defaults, Names(ps)) else ps
  }

  /** A submission is read entry by entry, in order, an unset group counting as the default one. */
  lemma {:induction false} SubmittedMeans(a: seq<Assignment>, b: seq<Assignment>, x: Assignment, g: Group)
    requires g != Phantom
    ensures Submitted(a + b, g) == Submitted(a, g) + Submitted(b, g)
    ensures Submitted([x], g) == if x.group == g || (x.group == Phantom && g == Default) then [x.param] else []
  {
    assert [x][..0] == [];
    if b == [] {
      assert a + b == a;
    } else {
      assert (a + b)[..|a + b| - 1] == a + b[..|b| - 1];
      SubmittedMeans(a, b[..|b| - 1], x, g);
    }
  }

  /** What is stored begins with what was submitted; only the default group is completed, with the
      shipped entries nothing was submitted for. */
  lemma {:induction false} StoredMeans(defaults: seq<Param>, request: seq<Assignment>, g: Group)
    ensures Submitted(request, g) <= Stored(defaults, request, g)
    ensures g != Default ==> Stored(defaults, request, g) == Submitted(request, g)
    ensures forall p :: p in Stored(defaults, request, Default)[|Submitted(request, Default)|..] <==>
              p in defaults && p.name !in Names(Submitted(request, Default))
  {
    var ps := Submitted(request, Default);
    assert Stored(defaults, request, Default)[|ps|..] == Missing(defaults, Names(ps));
    MissingMembers(defaults, Names(ps));
  }

  /** Pigeonhole: a default-group list passes the size check exactly when its names are the
      shipped names, each once: none twice, none unknown, none missing. */
  lemma {:induction false} SizeCheckMeansPermutation(defaults: seq<Param>, request: seq<Assignment>)
    requires DistinctNames(defaults)
    ensures var full := Stored(defaults, request, Default);
            |full| == |defaults| <==> DistinctNames(full) && Names(full) == Names(defaults)
  {
    var ps := Submitted(request, Default);
    var full := Stored(defaults, request, Default);
    var rest := Missing(defaults, Names(ps));
    MissingNames(defaults, Names(ps));
    MissingDistinct(defaults, Names(ps));
    DistinctCount(rest);
    NamesJoin(ps, Missing(defaults, Names(ps)));
    DistinctCount(full);
    DistinctCount(defaults);
    SubsetCardinality(Names(defaults), Names(full));
  }

  // ----- the writes ------------------------------------------------------------------

  ghost predicate Injective(hash: seq<Param> -> Hash) {
    forall a, b :: hash(a) == hash(b) ==> a == b
  }

  /** Every row is stored under the hash of its parameters. */
  ghost predicate Hashed(rows: Rows, hash: seq<Param> -> Hash) {
    forall id :: id in rows ==> rows[id].hash == hash(rows[id].params)
  }

  /** What no settings write for `realm` touches. */
  ghost predicate Untouched(before: Rows, after: Rows, realm: Realm) {
    && (forall id :: id in after && after[id].realm != realm ==> id in before && before[id] == after[id])
    && (forall id :: id in before && before[id].realm != realm ==> id in after && before[id] == after[id])
    && (forall r :: ScoringOf(after, r, Default) == ScoringOf(before, r, Default))
  }

  lemma {:induction false} UntouchedThrough(before: Rows, rows: Rows, after: Rows, realm: Realm)
    requires Untouched(before, rows, realm) && Untouched(rows, after, realm)
    ensures Untouched(before, after, realm)
  {
  }

  /** The default group has the active row it had, with the parameters it had, or still has none. */
  ghost predicate DefaultKept(before: Rows, after: Rows, realm: Realm) {
    && (forall ps :: Holds(before, realm, Default, ps) ==> Holds(after, realm, Default, ps))
    && (!HasActive(before, realm, Default) ==> !HasActive(after, realm, Default))
  }

  /** Every other group keeps the parameters it has, or still has none. */
  ghost predicate OthersKept(rows: Rows, rows': Rows, realm: Realm, g: Group) {
    && (forall h, qs :: h != g && h != Phantom && Holds(rows, realm, h, qs) ==> Holds(rows', realm, h, qs))
    && (forall h :: h != g && !HasActive(rows, realm, h) ==> !HasActive(rows', realm, h))
  }

  /** How far a submission is stored: the groups done hold what they should, groups not submitted
      gained nothing, and the default group is as it was until its turn. */
  ghost predicate Progress(before: Rows, rows: Rows, realm: Realm, defaults: seq<Param>, request: seq<Assignment>,
                           groups: set<Group>, done: set<Group>) {
    && done <= groups
    && (Default in done ==> |Stored(defaults, request, Default)| == |defaults|)
    && (forall g :: g in done ==> Holds(rows, realm, g, Stored(defaults, request, g)))
    && (forall g :: g !in groups && !HasActive(before, realm, g) ==> !HasActive(rows, realm, g))
    && (Default !in done ==> DefaultKept(before, rows, realm))
  }

  lemma {:induction false} ProgressStep(before: Rows, rows: Rows, rows': Rows, realm: Realm, defaults: seq<Param>,
                                        request: seq<Assignment>, groups: set<Group>, done: set<Group>, g: Group)
    requires Progress(before, rows, realm, defaults, request, groups, done) && OthersKept(rows, rows', realm, g)
    requires g in groups && Phantom !in groups && Holds(rows', realm, g, Stored(defaults, request, g))
    requires g == Default ==> |Stored(defaults, request, Default)| == |defaults|
    ensures Progress(before, rows', realm, defaults, request, groups, done + {g})
  {
  }

  lemma {:induction false} DeactivateKeepsDefault(before: Rows, rows: Rows, realm: Realm, g: Group, rows': Rows)
    requires Deactivated(rows, realm, g, rows') && g != Default && DefaultKept(before, rows, realm)
    ensures DefaultKept(before, rows', realm)
  {
    forall ps | Holds(rows, realm, Default, ps) ensures Holds(rows', realm, Default, ps) {
      var id :| IsActive(rows, id, realm, Default) && rows[id].params == ps;
      assert IsActive(rows', id, realm, Default) && rows'[id].params == ps;
    }
    DeactivatedMeans(rows, realm, g, rows');
  }

  /** The active row of the group holds these parameters. */
  ghost predicate Holds(rows: Rows, realm: Realm, g: Group, ps: seq<Param>) {
    exists id :: IsActive(rows, id, realm, g) && rows[id].params == ps
  }

  lemma {:induction false} CallUntouched(before: Rows, rows: Rows, c: Call, rows': Rows, realm: Realm)
    requires Consistent(rows) && Next(rows, c, rows') && c.realm == realm
    requires !c.ScoringCall? && KeepsDefault(c, realm)
    requires Untouched(before, rows, realm)
    ensures Untouched(before, rows', realm)
  {
    forall r ensures ScoringOf(rows', r, Default) == ScoringOf(before, r, Default) {
      StepKeepsScoring(rows, c, rows', r);
    }
  }

  lemma {:induction false} ActivateHolds(rows: Rows, realm: Realm, g: Group, hash: seq<Param> -> Hash,
                                         ps: seq<Param>, rows': Rows, id: RowId)
    requires Activated(rows, realm, g, hash(ps), ps, rows', id) && Hashed(rows, hash) && Injective(hash)
    ensures Hashed(rows', hash) && Holds(rows', realm, g, ps)
    ensures OthersKept(rows, rows', realm, g)
  {
    assert rows'[id].params == ps;
    assert IsActive(rows', id, realm, g);
    forall h, qs | h != g && h != Phantom && Holds(rows, realm, h, qs) ensures Holds(rows', realm, h, qs) {
      var j :| IsActive(rows, j, realm, h) && rows[j].params == qs;
      assert IsActive(rows', j, realm, h) && rows'[j].params == qs;
    }
    forall h | h != g && HasActive(rows', realm, h) ensures HasActive(rows, realm, h) {
      var j :| IsActive(rows', j, realm, h);
      assert IsActive(rows, j, realm, h);
    }
  }

  class ParamsConfigService {
    const store: ConfigStore
    const defaults: seq<Param>
    const hash: seq<Param> -> Hash

    ghost predicate Valid()
      reads store
    {
      store.Valid() && Hashed(store.rows, hash) && Injective(hash) && DistinctNames(defaults)
    }

    constructor (store: ConfigStore, defaults: seq<Param>, hash: seq<Param> -> Hash)
      requires store.Valid() && Hashed(store.rows, hash) && Injective(hash) && DistinctNames(defaults)
      ensures this.store == store && this.defaults == defaults && this.hash == hash && Valid()
    {
      this.store, this.defaults, this.hash := store, defaults, hash;
    }

    /** Groups a submission, remembering the order groups first appear in. */
    method GroupUp(request: seq<Assignment>) returns (groups: map<Group, seq<Param>>, order: seq<Group>)
      ensures groups.Keys == Image(order)
      ensures forall g :: g in groups ==> groups[g] == Submitted(request, g) != [] && g != Phantom
      ensures forall g :: g !in groups ==> Submitted(request, g) == []
    {
      groups, order := map[], [];
      for k := 0 to |request|
        invariant groups.Keys == Image(order)
        invariant forall g :: g in groups ==> groups[g] == Submitted(request[..k], g) != [] && g != Phantom
        invariant forall g :: g !in groups ==> Submitted(request[..k], g) == []
      {
        assert request[..k + 1][..k] == request[..k];
        var g := Normal(request[k].group);
        if g !in groups {
          assert Image(order + [g]) == Image(order) + {g};
          order := order + [g];
          groups := groups[g := []];
        }
        groups := groups[g := groups[g] + [request[k].param]];
      }
      assert request[..|request|] == request;
    }

    /** The back-fill loop of the default group. */
    method BackFill(params: seq<Param>) returns (full: seq<Param>)
      ensures full == params + Missing(defaults, Names(params))
    {
      var present := Names(params);
      full := params;
      for k := 0 to |defaults|
        invariant full == params + Missing(defaults[..k], present)
      {
        assert defaults[..k + 1][..k] == defaults[..k];
        if defaults[k].name !in present {
          full := full + [defaults[k]];
        }
      }
      assert defaults[..|defaults|] == defaults;
    }

    /** Drops the override groups that no longer appear in the submission. */
    method DropAbsent(realm: Realm, submitted: set<Group>)
      requires Valid()
      modifies store
      ensures Valid()
      ensures Untouched(old(store.rows), store.rows, realm)
      ensures forall g :: g != Default && g != Phantom && g !in submitted ==> !HasActive(store.rows, realm, g)
      ensures DefaultKept(old(store.rows), store.rows, realm)
    {
      ghost var before := store.rows;
      var snapshot := store.rows;
      var left := set id | id in snapshot && snapshot[id].active && snapshot[id].realm == realm;
      while left != {}
        invariant Valid()
        invariant Untouched(before, store.rows, realm)
        invariant left <= snapshot.Keys
        invariant DefaultKept(before, store.rows, realm)
        invariant forall g, id :: (g != Default && g != Phantom && g !in submitted
                                   && IsActive(store.rows, id, realm, g)) ==>
                    id in left && snapshot[id].group == g
        decreases left
      {
        var id :| id in left;
        left := left - {id};
        var g := Normal(snapshot[id].group);
        if g != Default && g !in submitted {
          ghost var rows := store.rows;
          store.Deactivate(realm, g);
          CallUntouched(before, rows, DeactivateCall(realm, g), store.rows, realm);
          DeactivatedHashes(rows, realm, g, store.rows, hash);
          DeactivateKeepsDefault(before, rows, realm, g, store.rows);
        }
      }
    }

    method UpdateRealmParams(realm: Realm, request: seq<Assignment>) returns (r: Result<(), WriteError>)
      requires Valid()
      modifies store
      ensures Valid()
      ensures Untouched(old(store.rows), store.rows, realm)
      ensures r == Err(WrongRealm) <==> exists k :: 0 <= k < |request| && request[k].realm != realm
      ensures r == Err(WrongRealm) ==> store.rows == old(store.rows)
      ensures r != Err(WrongRealm) ==>
                (r.Ok? <==> (Submitted(request, Default) != [] ==> |Stored(defaults, request, Default)| == |defaults|))
      ensures r.Ok? ==> forall g :: Submitted(request, g) != [] ==>
          Holds(store.rows, realm, g, Stored(defaults, request, g))
      ensures r != Err(WrongRealm) ==>
                forall g :: g != Default && g != Phantom && Submitted(request, g) == [] ==>
                    !HasActive(store.rows, realm, g)
      ensures r.Err? || Submitted(request, Default) == [] ==> DefaultKept(old(store.rows), store.rows, realm)
    {
      for k := 0 to |request|
        invariant forall i :: 0 <= i < k ==> request[i].realm == realm
      {
        if request[k].realm != realm {
          return Err(WrongRealm);
        }
      }
      var groups, order := GroupUp(request);
      DropAbsent(realm, groups.Keys);
      r := StoreGroups(realm, request, groups, order);
    }

    method StoreGroups(realm: Realm, ghost request: seq<Assignment>, groups: map<Group, seq<Param>>, order: seq<Group>)
      returns (r: Result<(), WriteError>)
      requires Valid() && groups.Keys == Image(order)
      requires forall g :: g in groups ==> groups[g] == Submitted(request, g) != [] && g != Phantom
      requires forall g :: g !in groups ==> Submitted(request, g) == []
      modifies store
      ensures Valid()
      ensures Untouched(old(store.rows), store.rows, realm)
      ensures r.Ok? || r == Err(WrongCount)
      ensures r.Ok? <==> (Default in groups ==> |Stored(defaults, request, Default)| == |defaults|)
      ensures r.Ok? ==> forall g :: g in groups ==> Holds(store.rows, realm, g, Stored(defaults, request, g))
      ensures forall g :: g !in groups && !old(HasActive(store.rows, realm, g)) ==> !HasActive(store.rows, realm, g)
      ensures r.Err? || Default !in groups ==> DefaultKept(old(store.rows), store.rows, realm)
    {
      ghost var before := store.rows;
      ghost var done: set<Group> := {};
      for k := 0 to |order|
        invariant Valid()
        invariant Untouched(before, store.rows, realm)
        invariant done == Image(order[..k])
        invariant Progress(before, store.rows, realm, defaults, request, groups.Keys, done)
      {
        var g := order[k];
        assert g in groups.Keys;
        assert Image(order[..k + 1]) == Image(order[..k]) + {g};
        ghost var rows := store.rows;
        var stored := StoreGroup(realm, g, groups[g]);
        UntouchedThrough(before, rows, store.rows, realm);
        if !stored {
          return Err(WrongCount);
        }
        ProgressStep(before, rows, store.rows, realm, defaults, request, groups.Keys, done, g);
        done := done + {g};
      }
      assert order[..|order|] == order;
      r := Ok(());
    }

    /** Completes, size-checks, hashes and activates one group's parameters. */
    method StoreGroup(realm: Realm, g: Group, submitted: seq<Param>) returns (ok: bool)
      requires Valid() && g != Phantom
      modifies store
      ensures Valid()
      ensures Untouched(old(store.rows), store.rows, realm)
      ensures var full := if g == Default then submitted + Missing(defaults, Names(submitted)) else submitted;
              && (ok <==> (g == Default ==> |full| == |defaults|))
              && (ok ==> Holds(store.rows, realm, g, full))
      ensures !ok ==> store.rows == old(store.rows)
      ensures OthersKept(old(store.rows), store.rows, realm, g)
    {
      var params := submitted;
      if g == Default {
        params := BackFill(params);
        if |params| != |defaults| {
          return false;
        }
      }
      ghost var rows := store.rows;
      var id := store.Activate(realm, g, hash(params), params);
      CallUntouched(rows, rows, ActivateCall(realm, g, hash(params), params, id), store.rows, realm);
      ActivateHolds(rows, realm, g, hash, params, store.rows, id);
      return true;
    }

    /** A scoring write seeds the default parameters when no row is active, then lands. */
    method UpdateScoringConfig(realm: Realm, group: Group, scoring: Option<Scoring>)
        returns (r: Result<RowId, WriteError>)
      requires Valid()
      modifies store
      ensures Valid()
      ensures r.Ok? && IsActive(store.rows, r.value, realm, group) && store.rows[r.value].scoring == scoring
      ensures !old(HasActive(store.rows, realm, group)) ==> store.rows[r.value].params == defaults
      ensures old(HasActive(store.rows, realm, group)) ==>
                IsActive(old(store.rows), r.value, realm, group)
                && store.rows == old(store.rows)[r.value := old(store.rows)[r.value].(scoring := scoring)]
      ensures forall j, realm', g :: (realm' != realm || (g != group && g != Phantom)) ==>
                (IsActive(store.rows, j, realm', g) <==> IsActive(old(store.rows), j, realm', g))
    {
      var found := store.UpdateScoring(realm, group, scoring);
      if found.None? {
        ghost var rows := store.rows;
        var id := store.Activate(realm, group, hash(defaults), defaults);
        ActivateHolds(rows, realm, group, hash, defaults, store.rows, id);
        ActivatedMeans(rows, realm, group, hash(defaults), defaults, store.rows, id);
        found := store.UpdateScoring(realm, group, scoring);
      }
      if found.None? {
        return Err(NotPersisted);
      }
      return Ok(found.value);
    }
  }

  lemma {:induction false} DeactivatedHashes(rows: Rows, realm: Realm, g: Group, rows': Rows, hash: seq<Param> -> Hash)
    requires Deactivated(rows, realm, g, rows') && Hashed(rows, hash)
    ensures Hashed(rows', hash)
    ensures forall j, r, h :: IsActive(rows', j, r, h) ==> IsActive(rows, j, r, h) && (r != realm || h != g)
  {
  }
}
