/** The signal settings a configuration stores, shared by the store and the readers. */
module Parameters {

  type Name = nat

  const INACTIVE_ACCOUNT: Name := 0

  /** A stored `inactive_days`: absent, an integer, or something that is not one. */
  datatype Inactive = Absent | Days(days: int) | NotInteger

  /** `lists` stands for the white and black lists, which nothing here looks into. */
  datatype Param = Param(name: Name, weight: int, disabled: bool, lists: nat, inactive: Inactive)

  ghost predicate DistinctNames(ps: seq<Param>) {
    forall i, j :: 0 <= i < j < |ps| ==> ps[i].name != ps[j].name
  }

  function Names(ps: seq<Param>): set<Name> {
    set p | p in ps :: p.name
  }

  lemma {:induction false} NamesAppend(ps: seq<Param>, p: Param)
    ensures Names(ps + [p]) == Names(ps) + {p.name}
  {
    assert forall q :: q in ps + [p] <==> q in ps || q == p;
    assert p in ps + [p];
  }

  /** Distinct names are as many as the entries. */
  lemma {:induction false} DistinctCount(ps: seq<Param>)
    ensures |Names(ps)| <= |ps|
    ensures DistinctNames(ps) <==> |Names(ps)| == |ps|
  {
    if ps != [] {
      var n := |ps| - 1;
      var front := ps[..n];
      assert ps == front + [ps[n]];
      NamesAppend(front, ps[n]);
      DistinctCount(front);
      DistinctAppend(front, ps[n]);
    }
  }

  lemma {:induction false} DistinctAppend(front: seq<Param>, last: Param)
    ensures DistinctNames(front + [last]) <==> DistinctNames(front) && last.name !in Names(front)
  {
    var ps := front + [last];
    forall i, j | 0 <= i < j < |ps| && ps[i].name == ps[j].name
      ensures !DistinctNames(front) || last.name in Names(front)
    {
      assert j == |front| ==> front[i] in front;
      assert j < |front| ==> front[i].name == front[j].name;
    }
    if DistinctNames(ps) {
      forall p | p in front ensures p.name != last.name {
        var i :| 0 <= i < |front| && front[i] == p;
        assert ps[i].name != ps[|front|].name;
      }
      forall i, j | 0 <= i < j < |front| ensures front[i].name != front[j].name {
        assert ps[i].name != ps[j].name;
      }
    }
  }

  /** The shipped defaults not named yet, in order. */
  function Missing(defaults: seq<Param>, present: set<Name>): seq<Param> {
    if defaults == [] then []
    else Missing(defaults[..|defaults| - 1], present)
         + if defaults[|defaults| - 1].name in present then [] else [defaults[|defaults| - 1]]
  }

  lemma {:induction false} MissingNames(defaults: seq<Param>, present: set<Name>)
    ensures Names(Missing(defaults, present)) == Names(defaults) - present
  {
    if defaults != [] {
      var n := |defaults| - 1;
      var front, last := defaults[..n], defaults[n];
      assert defaults == front + [last];
      MissingNames(front, present);
      NamesAppend(front, last);
      NamesAppend(Missing(front, present), last);
      assert Missing(front, present) + [] == Missing(front, present);
    }
  }

  lemma {:induction false} MissingDistinct(defaults: seq<Param>, present: set<Name>)
    requires DistinctNames(defaults)
    ensures DistinctNames(Missing(defaults, present))
  {
    if defaults != [] {
      var n := |defaults| - 1;
      var front, last := defaults[..n], defaults[n];
      MissingDistinct(front, present);
      var rest := Missing(front, present);
      forall i | 0 <= i < |rest| ensures rest[i].name != last.name {
        MissingFrom(front, present);
        assert rest[i] in rest;
        var k :| 0 <= k < n && front[k] == rest[i];
        assert defaults[k].name != defaults[n].name;
      }
    }
  }

  lemma {:induction false} MissingFrom(defaults: seq<Param>, present: set<Name>)
    ensures forall p :: p in Missing(defaults, present) ==> p in defaults
  {
    if defaults != [] {
      MissingFrom(defaults[..|defaults| - 1], present);
    }
  }

  /** Exactly the shipped entries whose names are not present. */
  lemma {:induction false} MissingMembers(defaults: seq<Param>, present: set<Name>)
    ensures forall p :: p in Missing(defaults, present) <==> p in defaults && p.name !in present
  {
    if defaults != [] {
      var front, last := defaults[..|defaults| - 1], defaults[|defaults| - 1];
      assert defaults == front + [last];
      MissingMembers(front, present);
    }
  }

  lemma {:induction false} NamesJoin(a: seq<Param>, b: seq<Param>)
    ensures Names(a + b) == Names(a) + Names(b)
  {
    assert forall p :: p in a + b <==> p in a || p in b;
  }
}
