/**
 * The two readers of a realm's configuration: the settings read behind the
 * admin page, and the overlay a decision is scored with.
 */
module ParamsReader {
  import opened Prelude
  import opened Parameters
  import opened ParamsStore
  import ParamsService

  /** DEFAULT_DECISION_PARAMS, DEFAULT_INACTIVE_DAYS, and the realm whose rows are the last resort. */
  datatype Shipped = Shipped(defaults: seq<Param>, inactiveDays: int, realm: Realm)

  /** The dormancy threshold the engine enforces for a stored value. */
  function Effective(sh: Shipped, v: Inactive): Inactive {
    if v.Days? && v.days >= 1 then v else Days(sh.inactiveDays)
  }

  function FillOne(sh: Shipped, p: Param): Param {
    if p.name == INACTIVE_ACCOUNT then p.(inactive := Effective(sh, p.inactive)) else p
  }

  function Fill(sh: Shipped, ps: seq<Param>): (r: seq<Param>)
    ensures |r| == |ps| && forall i :: 0 <= i < |ps| ==> r[i] == FillOne(sh, ps[i])
  {
    seq(|ps|, i requires 0 <= i < |ps| => FillOne(sh, ps[i]))
  }

  /** The default group's entries as the settings read reports them. */
  function Reported(sh: Shipped, base: seq<Param>): seq<Param> {
    Fill(sh, base + Missing(sh.defaults, Names(base)))
  }

  // ----- the settings read ----------------------------------------------------------

  method SeedMissingDefaults(sh: Shipped, ps: seq<Param>) returns (r: seq<Param>)
    ensures r == ps + Missing(sh.defaults, Names(ps))
  {
    var present := Names(ps);
    r := ps;
    for k := 0 to |sh.defaults|
      invariant r == ps + Missing(sh.defaults[..k], present)
    {
      assert sh.defaults[..k + 1][..k] == sh.defaults[..k];
      if sh.defaults[k].name !in present {
        r := r + [sh.defaults[k]];
      }
    }
    assert sh.defaults[..|sh.defaults|] == sh.defaults;
  }

  method FillEffectiveInactiveDays(sh: Shipped, ps: seq<Param>) returns (r: seq<Param>)
    ensures r == Fill(sh, ps)
  {
    r := [];
    for k := 0 to |ps|
      invariant r == Fill(sh, ps[..k])
    {
      if ps[k].name != INACTIVE_ACCOUNT {
        r := r + [ps[k]];
      } else {
        var configured := ps[k].inactive;
        r := r + [if configured.Days? && configured.days >= 1 then ps[k]
                  else ps[k].(inactive := Days(sh.inactiveDays))];
      }
    }
    assert ps[..|ps|] == ps;
  }

  /** What one active row contributes to the read. */
  function RowReported(sh: Shipped, row: Row): seq<Param> {
    if row.group == Default then Reported(sh, row.params) else row.params
  }

  function AllReported(sh: Shipped, active: seq<Row>): seq<Param> {
    if active == [] then [] else AllReported(sh, active[..|active| - 1]) + RowReported(sh, active[|active| - 1])
  }

  /** A realm without active rows is shown the shipped entries. */
  function SettingsRead(sh: Shipped, active: seq<Row>): seq<Param> {
    if active == [] then sh.defaults else AllReported(sh, active)
  }

  /** `active` lists the realm's active rows, as the repository returns them. */
  method GetAllParametersByRealm(sh: Shipped, active: seq<Row>) returns (all: seq<Param>)
    ensures all == SettingsRead(sh, active)
  {
    if active == [] {
      return sh.defaults;
    }
    all := [];
    for k := 0 to |active|
      invariant all == AllReported(sh, active[..k])
    {
      assert active[..k + 1][..k] == active[..k];
      var params := active[k].params;
      if active[k].group == Default {
        params := SeedMissingDefaults(sh, params);
        params := FillEffectiveInactiveDays(sh, params);
      }
      all := all + params;
    }
    assert active[..|active|] == active;
  }

  // ----- the decision's overlay --------------------------------------------------------

  /** The entry a later duplicate leaves under a name. */
  function Last(ps: seq<Param>, n: Name): Option<Param> {
    if ps == [] then None
    else if ps[|ps| - 1].name == n then Some(ps[|ps| - 1])
    else Last(ps[..|ps| - 1], n)
  }

  lemma {:induction false} LastIn(ps: seq<Param>, n: Name)
    ensures Last(ps, n).None? <==> n !in Names(ps)
    ensures Last(ps, n).Some? ==> Last(ps, n).value in ps && Last(ps, n).value.name == n
    ensures DistinctNames(ps) ==> forall p :: p in ps && p.name == n ==> Last(ps, n) == Some(p)
  {
    if ps != [] {
      var front, last := ps[..|ps| - 1], ps[|ps| - 1];
      assert ps == front + [last];
      NamesAppend(front, last);
      LastIn(front, n);
      if DistinctNames(ps) {
        forall p | p in ps && p.name == n ensures Last(ps, n) == Some(p) {
          if p != last {
            assert p in front;
            var i :| 0 <= i < |front| && front[i] == p;
            assert ps[i].name != ps[|ps| - 1].name;
          }
        }
      }
    }
  }

  lemma {:induction false} LastJoin(a: seq<Param>, b: seq<Param>, n: Name)
    ensures Last(a + b, n) == if Last(b, n).Some? then Last(b, n) else Last(a, n)
  {
    if b == [] {
      assert a + b == a;
    } else {
      assert (a + b)[..|a + b| - 1] == a + b[..|b| - 1];
      if b[|b| - 1].name != n {
        LastJoin(a, b[..|b| - 1], n);
      }
    }
  }

  /** The realm's own entry for a signal, or the shipped one. */
  function BaseEntry(sh: Shipped, base: seq<Param>, n: Name): Option<Param> {
    if Last(base, n).Some? then Last(base, n) else Last(Missing(sh.defaults, Names(base)), n)
  }

  function BaseInactive(sh: Shipped, base: seq<Param>): Inactive {
    var e := BaseEntry(sh, base, INACTIVE_ACCOUNT);
    if e.Some? then e.value.inactive else Absent
  }

  /** How each signal resolves: override, else base, else shipped, under the realm's own threshold. */
  function Resolved(sh: Shipped, base: seq<Param>, over: Option<seq<Param>>, n: Name): Option<Param> {
    var e := if over.Some? && Last(over.value, n).Some? then Last(over.value, n) else BaseEntry(sh, base, n);
    if e.Some? && n == INACTIVE_ACCOUNT then
      Some(e.value.(inactive := Effective(sh, BaseInactive(sh, base))))
    else e
  }

  /** The enabled signals a decision is scored with. */
  ghost predicate Scores(sh: Shipped, base: seq<Param>, over: Option<seq<Param>>, m: map<Name, Param>) {
    && (forall n :: n in m <==> Resolved(sh, base, over, n).Some? && !Resolved(sh, base, over, n).value.disabled)
    && (forall n :: n in m ==> Resolved(sh, base, over, n) == Some(m[n]))
  }

  function Get(m: map<Name, Param>, n: Name): Option<Param> {
    if n in m then Some(m[n]) else None
  }

  /** A dict filled from a list: a later entry overwrites an earlier one of its name. */
  method Overlay(m: map<Name, Param>, ps: seq<Param>) returns (r: map<Name, Param>)
    ensures forall n :: Get(r, n) == if Last(ps, n).Some? then Last(ps, n) else Get(m, n)
  {
    r := m;
    for k := 0 to |ps|
      invariant forall n :: Get(r, n) == if Last(ps[..k], n).Some? then Last(ps[..k], n) else Get(m, n)
    {
      assert ps[..k + 1][..k] == ps[..k];
      r := r[ps[k].name := ps[k]];
    }
    assert ps[..|ps|] == ps;
  }

  method GetActiveParams(sh: Shipped, base: seq<Param>, over: Option<seq<Param>>) returns (m: map<Name, Param>)
    requires DistinctNames(sh.defaults)
    ensures Scores(sh, base, over, m)
  {
    var merged := Overlay(map[], base);
    merged := SeedByName(sh, merged, base);
    var baseInactive := if INACTIVE_ACCOUNT in merged then merged[INACTIVE_ACCOUNT].inactive else Absent;
    assert forall n :: Get(merged, n) == BaseEntry(sh, base, n);
    if over.Some? {
      merged := Overlay(merged, over.value);
    }
    if INACTIVE_ACCOUNT in merged {
      merged := merged[INACTIVE_ACCOUNT := merged[INACTIVE_ACCOUNT].(inactive := baseInactive)];
    }
    merged := map n | n in merged :: FillOne(sh, merged[n]);
    NamesKept(sh, base, over);
    assert forall n :: Get(merged, n) == Resolved(sh, base, over, n);
    m := map n | n in merged && !merged[n].disabled :: merged[n];
    assert forall n :: n in m <==> Get(merged, n).Some? && !merged[n].disabled;
  }

  datatype Decided = Decided(params: map<Name, Param>, id: RowId, scoring: Option<Scoring>)

  /** The row a realm's decisions build on: its own active default row, else the last resort's. */
  ghost predicate IsBase(sh: Shipped, rows: Rows, realm: Realm, id: RowId) {
    if HasActive(rows, realm, Default) then IsActive(rows, id, realm, Default)
    else IsActive(rows, id, sh.realm, Default)
  }

  /** The overlay of the group's active row, if it has one, over the base; the scoring is the base's. */
  ghost predicate DecidedFrom(sh: Shipped, rows: Rows, realm: Realm, group: Group, d: Decided, base: RowId) {
    && IsBase(sh, rows, realm, base)
    && d.scoring == rows[base].scoring
    && if group != Default && HasActive(rows, realm, group) then
         IsActive(rows, d.id, realm, group) && Scores(sh, rows[base].params, Some(rows[d.id].params), d.params)
       else
         d.id == base && Scores(sh, rows[base].params, None, d.params)
  }

  /** None where the source raises: there is no default configuration at all. */
  method GetActiveParamsForRealmGroup(sh: Shipped, store: ConfigStore, realm: Realm, group: Group)
      returns (r: Option<Decided>)
    requires store.Valid() && DistinctNames(sh.defaults)
    ensures r.None? <==> !HasActive(store.rows, realm, Default) && !HasActive(store.rows, sh.realm, Default)
    ensures r.Some? ==> exists base :: DecidedFrom(sh, store.rows, realm, group, r.value, base)
  {
    var config := store.FindActive(realm, group);
    var base, over: Option<RowId> := config, None;
    if group != Default {
      base := store.FindActive(realm, Default);
      over := config;
    }
    if base.None? {
      base := store.FindActive(sh.realm, Default);
    }
    if base.None? {
      return None;
    }
    var overParams := if over.Some? then Some(store.rows[over.value].params) else None;
    var m := GetActiveParams(sh, store.rows[base.value].params, overParams);
    var d := Decided(m, if over.Some? then over.value else base.value, store.rows[base.value].scoring);
    assert DecidedFrom(sh, store.rows, realm, group, d, base.value);
    return Some(d);
  }

  /** Entries resolve to an entry of their own name. */
  lemma {:induction false} NamesKept(sh: Shipped, base: seq<Param>, over: Option<seq<Param>>)
    ensures forall n :: Resolved(sh, base, over, n).Some? ==> Resolved(sh, base, over, n).value.name == n
    ensures forall n :: BaseEntry(sh, base, n).Some? ==> BaseEntry(sh, base, n).value.name == n
    ensures over.Some? ==> forall n :: Last(over.value, n).Some? ==> Last(over.value, n).value.name == n
  {
    forall n ensures BaseEntry(sh, base, n).Some? ==> BaseEntry(sh, base, n).value.name == n {
      LastIn(base, n);
      LastIn(Missing(sh.defaults, Names(base)), n);
    }
    if over.Some? {
      forall n ensures Last(over.value, n).Some? ==> Last(over.value, n).value.name == n {
        LastIn(over.value, n);
      }
    }
  }

  /** The back-fill over the merged dict adds the shipped signals it lacks. */
  method SeedByName(sh: Shipped, m: map<Name, Param>, ghost base: seq<Param>) returns (r: map<Name, Param>)
    requires forall n :: Get(m, n) == Last(base, n)
    requires DistinctNames(sh.defaults)
    ensures forall n :: Get(r, n) == BaseEntry(sh, base, n)
  {
    r := m;
    for k := 0 to |sh.defaults|
      invariant forall n :: Get(r, n) ==
                  if Last(base, n).Some? then Last(base, n) else Last(Missing(sh.defaults[..k], Names(base)), n)
    {
      var d := sh.defaults[k];
      assert sh.defaults[..k + 1][..k] == sh.defaults[..k];
      LastIn(base, d.name);
      DefaultNotYetSeen(sh.defaults, Names(base), k);
      if d.name !in r {
        r := r[d.name := d];
      }
    }
    assert sh.defaults[..|sh.defaults|] == sh.defaults;
  }

  lemma {:induction false} DefaultNotYetSeen(defaults: seq<Param>, present: set<Name>, k: nat)
    requires DistinctNames(defaults) && k < |defaults|
    ensures Last(Missing(defaults[..k], present), defaults[k].name) == None
    ensures forall n :: Last(Missing(defaults[..k + 1], present), n) ==
              if defaults[k].name !in present && n == defaults[k].name then Some(defaults[k])
              else Last(Missing(defaults[..k], present), n)
  {
    var front := Missing(defaults[..k], present);
    assert defaults[..k + 1][..k] == defaults[..k];
    LastIn(front, defaults[k].name);
    MissingFrom(defaults[..k], present);
    forall p | p in front ensures p.name != defaults[k].name {
      assert p in defaults[..k];
      var i :| 0 <= i < k && defaults[i] == p;
    }
    assert front + [] == front;
    assert (front + [defaults[k]])[..|front|] == front;
  }

  // ----- what the two readers agree on ---------------------------------------------------

  /** The enabled signals the settings read shows are exactly those the decision scores. */
  ghost predicate Agree(sh: Shipped, base: seq<Param>, m: map<Name, Param>) {
    forall p :: (p in Reported(sh, base) && !p.disabled) <==> (p.name in m && m[p.name] == p)
  }

  /** No enabled entry of the realm's configuration is overwritten by a later, different one. */
  ghost predicate NoneShadowed(sh: Shipped, base: seq<Param>) {
    forall p :: p in base && !p.disabled ==>
      Last(base, p.name).Some? && FillOne(sh, Last(base, p.name).value) == FillOne(sh, p)
  }

  lemma {:induction false} ReportedEntries(sh: Shipped, base: seq<Param>, p: Param)
    ensures p in Reported(sh, base) <==>
              exists q :: (q in base || q in Missing(sh.defaults, Names(base))) && FillOne(sh, q) == p
  {
    var all := base + Missing(sh.defaults, Names(base));
    if p in Reported(sh, base) {
      var i :| 0 <= i < |all| && Fill(sh, all)[i] == p;
      assert FillOne(sh, all[i]) == p && all[i] in all;
    }
    if q :| (q in base || q in Missing(sh.defaults, Names(base))) && FillOne(sh, q) == p {
      assert q in all;
      var i :| 0 <= i < |all| && all[i] == q;
      assert Fill(sh, all)[i] == p;
    }
  }

  /** Without overrides a signal resolves to its last entry, filled. */
  lemma {:induction false} DefaultResolves(sh: Shipped, base: seq<Param>, n: Name)
    requires DistinctNames(sh.defaults)
    ensures var e := BaseEntry(sh, base, n);
            Resolved(sh, base, None, n) == if e.Some? then Some(FillOne(sh, e.value)) else None
    ensures n in Names(base) ==>
        BaseEntry(sh, base, n) == Last(base, n) && Last(base, n).Some? && Last(base, n).value in base
    ensures n !in Names(base) ==>
              forall q: Param :: q.name == n && q in Missing(sh.defaults, Names(base)) <==>
                  BaseEntry(sh, base, n) == Some(q)
  {
    NamesKept(sh, base, None);
    LastIn(base, n);
    LastIn(Missing(sh.defaults, Names(base)), n);
    MissingDistinct(sh.defaults, Names(base));
  }

  /** The two readers agree on the default group exactly when no enabled entry is shadowed; a
      duplicate-free configuration always qualifies. */
  lemma {:induction false} ReadersAgreeIff(sh: Shipped, base: seq<Param>, m: map<Name, Param>)
    requires DistinctNames(sh.defaults) && Scores(sh, base, None, m)
    ensures Agree(sh, base, m) <==> NoneShadowed(sh, base)
    ensures DistinctNames(base) ==> NoneShadowed(sh, base)
  {
    if NoneShadowed(sh, base) {
      forall p ensures (p in Reported(sh, base) && !p.disabled) <==> (p.name in m && m[p.name] == p) {
        AgreeOn(sh, base, m, p);
      }
    }
    if Agree(sh, base, m) {
      forall p | p in base && !p.disabled
        ensures Last(base, p.name).Some? && FillOne(sh, Last(base, p.name).value) == FillOne(sh, p)
      {
        ReportedEntries(sh, base, FillOne(sh, p));
        DefaultResolves(sh, base, p.name);
        assert p.name in Names(base);
      }
    }
    if DistinctNames(base) {
      forall p | p in base && !p.disabled
        ensures Last(base, p.name).Some? && FillOne(sh, Last(base, p.name).value) == FillOne(sh, p)
      {
        LastIn(base, p.name);
      }
    }
  }

  lemma {:induction false} AgreeOn(sh: Shipped, base: seq<Param>, m: map<Name, Param>, p: Param)
    requires DistinctNames(sh.defaults) && Scores(sh, base, None, m) && NoneShadowed(sh, base)
    ensures (p in Reported(sh, base) && !p.disabled) <==> (p.name in m && m[p.name] == p)
  {
    var n := p.name;
    ReportedEntries(sh, base, p);
    DefaultResolves(sh, base, n);
    MissingNames(sh.defaults, Names(base));
    if p in Reported(sh, base) && !p.disabled {
      var q :| (q in base || q in Missing(sh.defaults, Names(base))) && FillOne(sh, q) == p;
      assert q.name == n && !q.disabled;
      if q in base {
        assert n in Names(base);
      } else {
        assert n in Names(Missing(sh.defaults, Names(base)));
        assert n !in Names(base);
      }
    }
    if n in m && m[n] == p {
      var e := BaseEntry(sh, base, n);
      assert FillOne(sh, e.value) == p;
      if n !in Names(base) {
        assert e.value.name == n;
        assert e.value in Missing(sh.defaults, Names(base));
      }
    }
  }

  /** Any default-group configuration a settings write accepted reads back as it is scored. */
  lemma {:induction false} WrittenReadsAsScored(sh: Shipped, request: seq<ParamsService.Assignment>,
                                                m: map<Name, Param>)
    requires DistinctNames(sh.defaults)
    requires |ParamsService.Stored(sh.defaults, request, Default)| == |sh.defaults|
    requires Scores(sh, ParamsService.Stored(sh.defaults, request, Default), None, m)
    ensures Agree(sh, ParamsService.Stored(sh.defaults, request, Default), m)
  {
    ParamsService.SizeCheckMeansPermutation(sh.defaults, request);
    ReadersAgreeIff(sh, ParamsService.Stored(sh.defaults, request, Default), m);
  }

  /** The threshold the read shows for a stored one: its own if it is a day or more, else the default. */
  function Shown(sh: Shipped, p: Param): Param {
    if p.name != INACTIVE_ACCOUNT || (p.inactive.Days? && p.inactive.days >= 1) then p
    else p.(inactive := Days(sh.inactiveDays))
  }

  lemma {:induction false} AllReportedMembers(sh: Shipped, active: seq<Row>, p: Param)
    ensures p in AllReported(sh, active) <==> exists k :: 0 <= k < |active| && p in RowReported(sh, active[k])
  {
    if active != [] {
      var n := |active| - 1;
      AllReportedMembers(sh, active[..n], p);
      if p in AllReported(sh, active[..n]) {
        var k :| 0 <= k < n && p in RowReported(sh, active[..n][k]);
        assert p in RowReported(sh, active[k]);
      }
      if k :| 0 <= k < |active| && p in RowReported(sh, active[k]) {
        assert k < n ==> active[..n][k] == active[k];
      }
    }
  }

  /** What the settings read lists for a realm with active rows: every entry of every override row
      as it is stored, and for a default row every entry and every shipped signal it lacks, each
      with the threshold in force; and nothing else. */
  lemma {:induction false} SettingsReadLists(sh: Shipped, active: seq<Row>, p: Param)
    ensures p in SettingsRead(sh, active) <==>
              if active == [] then p in sh.defaults else exists k :: 0 <= k < |active| && Contributes(sh, active[k], p)
  {
    AllReportedMembers(sh, active, p);
    forall k | 0 <= k < |active| ensures p in RowReported(sh, active[k]) <==> Contributes(sh, active[k], p) {
      RowContributes(sh, active[k], p);
    }
  }

  ghost predicate Contributes(sh: Shipped, row: Row, p: Param) {
    if row.group != Default then p in row.params
    else exists q :: (q in row.params || (q in sh.defaults && q.name !in Names(row.params))) && p == Shown(sh, q)
  }

  lemma {:induction false} RowContributes(sh: Shipped, row: Row, p: Param)
    ensures p in RowReported(sh, row) <==> Contributes(sh, row, p)
  {
    ReportedEntries(sh, row.params, p);
    MissingMembers(sh.defaults, Names(row.params));
    assert forall q :: FillOne(sh, q) == Shown(sh, q);
  }

  /** Whenever a default row is active, or no row at all, every shipped signal is listed. */
  lemma {:induction false} SettingsReadComplete(sh: Shipped, active: seq<Row>, k: nat)
    requires active == [] || (k < |active| && active[k].group == Default)
    ensures Names(sh.defaults) <= Names(SettingsRead(sh, active))
  {
    forall d | d in sh.defaults && active != [] ensures d.name in Names(SettingsRead(sh, active)) {
      var present := exists q :: q in active[k].params && q.name == d.name;
      var q :| if present then q in active[k].params && q.name == d.name else q == d;
      assert Contributes(sh, active[k], Shown(sh, q));
      SettingsReadLists(sh, active, Shown(sh, q));
      assert Shown(sh, q).name == d.name;
    }
  }

  /** When it is the only one, the enabled entries listed are exactly those a default-group decision
      scores, if and only if none of them is shadowed. */
  lemma {:induction false} SettingsReadAgrees(sh: Shipped, row: Row, m: map<Name, Param>)
    requires DistinctNames(sh.defaults) && row.group == Default && Scores(sh, row.params, None, m)
    ensures (forall p :: (p in SettingsRead(sh, [row]) && !p.disabled) <==> (p.name in m && m[p.name] == p))
            <==> NoneShadowed(sh, row.params)
  {
    assert [row][..0] == [];
    assert AllReported(sh, [row]) == [] + Reported(sh, row.params) == Reported(sh, row.params);
    ReadersAgreeIff(sh, row.params, m);
  }

  /** A signal is scored exactly if the list that decides it, override, else base, else shipped,
      has it enabled. */
  lemma {:induction false} ScoredIffEnabled(sh: Shipped, base: seq<Param>, over: seq<Param>, m: map<Name, Param>,
                                            n: Name)
    requires DistinctNames(sh.defaults) && DistinctNames(base) && DistinctNames(over)
    requires Scores(sh, base, Some(over), m)
    ensures var source := if n in Names(over) then over else if n in Names(base) then base else sh.defaults;
            n in m <==> exists p :: p in source && p.name == n && !p.disabled
  {
    var source := if n in Names(over) then over else if n in Names(base) then base else sh.defaults;
    EnabledIn(source, n);
    LastIn(over, n);
    LastIn(base, n);
    if n !in Names(base) {
      LastMissing(sh.defaults, Names(base), n);
    }
    assert Resolved(sh, base, Some(over), n).Some? <==> Last(source, n).Some?;
  }

  lemma {:induction false} EnabledIn(ps: seq<Param>, n: Name)
    requires DistinctNames(ps)
    ensures (exists p :: p in ps && p.name == n && !p.disabled)
            <==> Last(ps, n).Some? && !Last(ps, n).value.disabled
  {
    LastIn(ps, n);
  }

  lemma {:induction false} LastMissing(defaults: seq<Param>, present: set<Name>, n: Name)
    requires DistinctNames(defaults) && n !in present
    ensures Last(Missing(defaults, present), n) == Last(defaults, n)
  {
    LastIn(defaults, n);
    LastIn(Missing(defaults, present), n);
    MissingMembers(defaults, present);
    MissingDistinct(defaults, present);
  }

  /** What a decision gets: the scoring in force for the realm's default group if it has one, else
      for the last resort's; the id of the group's own active row if it has one, else of the base. */
  lemma {:induction false} DecidedMeans(sh: Shipped, rows: Rows, realm: Realm, group: Group, d: Decided, base: RowId)
    requires Consistent(rows) && DecidedFrom(sh, rows, realm, group, d, base)
    ensures var from := if HasActive(rows, realm, Default) then realm else sh.realm;
            && IsActive(rows, base, from, Default)
            && d.scoring == ScoringOf(rows, from, Default)
    ensures if group != Default &&
        HasActive(rows, realm, group) then IsActive(rows, d.id, realm, group) else d.id == base
    ensures d.id == base ==> Scores(sh, rows[base].params, None, d.params)
    ensures d.id != base ==> Scores(sh, rows[base].params, Some(rows[d.id].params), d.params)
  {
    ScoringOfActive(rows, base, if HasActive(rows, realm, Default) then realm else sh.realm, Default);
  }

  /** For an override group each enabled signal is the override's entry, else the realm's, else the
      shipped one, and the dormancy threshold is the realm's effective one whoever set the entry. */
  lemma {:induction false} OverridesResolve(sh: Shipped, base: seq<Param>, over: seq<Param>, m: map<Name, Param>,
                                            n: Name)
    requires Scores(sh, base, Some(over), m) && n in m
    ensures n != INACTIVE_ACCOUNT ==>
              if n in Names(over) then m[n] in over
              else if n in Names(base) then m[n] in base
              else m[n] in sh.defaults
    ensures n == INACTIVE_ACCOUNT ==>
              m[n].inactive == Effective(sh, BaseInactive(sh, base)) && m[n].inactive.Days?
              && (sh.inactiveDays >= 1 ==> m[n].inactive.days >= 1)
    ensures n == INACTIVE_ACCOUNT && n in Names(base) ==>
              exists p :: p in base && p.name == n && m[n].inactive == Shown(sh, p).inactive
    ensures m[n].name == n && !m[n].disabled
  {
    LastIn(over, n);
    LastIn(base, n);
    LastIn(Missing(sh.defaults, Names(base)), n);
    MissingFrom(sh.defaults, Names(base));
    NamesKept(sh, base, Some(over));
  }

  /** With a shadowed duplicate the settings page shows a signal the decision does not score. */
  lemma ShadowedDuplicateDisagrees(sh: Shipped, m: map<Name, Param>)
    requires sh.defaults == []
    requires Scores(sh, [Param(5, 3, false, 0, Absent), Param(5, 3, true, 0, Absent)], None, m)
    ensures Reported(sh, [Param(5, 3, false, 0, Absent), Param(5, 3, true, 0, Absent)])[0] ==
        Param(5, 3, false, 0, Absent)
    ensures m == map[]
  {
    var base := [Param(5, 3, false, 0, Absent), Param(5, 3, true, 0, Absent)];
    assert Missing(sh.defaults, Names(base)) == [];
    forall n ensures Resolved(sh, base, None, n).Some? ==> Resolved(sh, base, None, n).value.disabled {
      assert base[..1] == [base[0]] && base[..1][..0] == [];
      LastIn(base, n);
      assert Last(base[..1], n).Some? ==> n == 5;
    }
  }
}
