/**
 * Membership tests over large CIDR lists: one sorted, merged range table per
 * address family, searched by bisection.
 */
module IpRanges {
  import opened Prelude

  /** An inclusive interval of addresses, as integers. */
  datatype Range = Range(lo: int, hi: int)

  predicate Inside(v: int, r: Range) {
    r.lo <= v <= r.hi
  }

  /** What a linear scan of the list would answer. */
  ghost predicate Covers(rs: seq<Range>, v: int) {
    exists i :: 0 <= i < |rs| && Inside(v, rs[i])
  }

  ghost predicate SameCover(a: seq<Range>, b: seq<Range>) {
    forall v :: Covers(a, v) <==> Covers(b, v)
  }

  ghost predicate Proper(rs: seq<Range>) {
    forall i :: 0 <= i < |rs| ==> rs[i].lo <= rs[i].hi
  }

  /** Ascending, with at least one uncovered integer between neighbours. */
  ghost predicate Canonical(t: seq<Range>) {
    && Proper(t)
    && forall i, j :: 0 <= i < j < |t| ==> t[i].hi + 1 < t[j].lo
  }

  // ----- sorting -----------------------------------------------------------

  /** Python's order on pairs. */
  predicate PairLe(a: Range, b: Range) {
    a.lo < b.lo || (a.lo == b.lo && a.hi <= b.hi)
  }

  ghost predicate Ascending(rs: seq<Range>) {
    forall i, j :: 0 <= i < j < |rs| ==> PairLe(rs[i], rs[j])
  }

  function Insert(r: Range, rs: seq<Range>): (s: seq<Range>)
    requires Ascending(rs)
    ensures Ascending(s)
    ensures multiset(s) == multiset(rs) + multiset{r}
  {
    if rs == [] then [r]
    else if PairLe(r, rs[0]) then [r] + rs
    else
      assert rs == [rs[0]] + rs[1..];
      var rest := Insert(r, rs[1..]);
      assert forall i :: 0 <= i < |rest| ==> PairLe(rs[0], rest[i]) by {
        forall i | 0 <= i < |rest| ensures PairLe(rs[0], rest[i]) {
          assert rest[i] in multiset(rest);
          assert rest[i] in multiset(rs[1..]) || rest[i] == r;
        }
      }
      [rs[0]] + rest
  }

  function Sorted(rs: seq<Range>): (s: seq<Range>)
    ensures Ascending(s)
    ensures multiset(s) == multiset(rs)
  {
    if rs == [] then []
    else
      assert rs == [rs[0]] + rs[1..];
      Insert(rs[0], Sorted(rs[1..]))
  }

  lemma {:induction false} SortedCover(rs: seq<Range>)
    ensures SameCover(Sorted(rs), rs)
    ensures Proper(rs) ==> Proper(Sorted(rs))
  {
    var s := Sorted(rs);
    assert forall x :: x in s <==> x in multiset(s);
    assert forall x :: x in rs <==> x in multiset(rs);
    forall v ensures Covers(s, v) <==> Covers(rs, v) {
      if Covers(s, v) {
        var i :| 0 <= i < |s| && Inside(v, s[i]);
        assert s[i] in rs;
      }
      if Covers(rs, v) {
        var i :| 0 <= i < |rs| && Inside(v, rs[i]);
        assert rs[i] in s;
      }
    }
    if Proper(rs) {
      forall i | 0 <= i < |s| ensures s[i].lo <= s[i].hi {
        assert s[i] in rs;
      }
    }
  }

  // ----- merging -----------------------------------------------------------

  /** Flattens sorted intervals; touching ones (start == previous end + 1) are joined too. */
  method Merge(order: seq<Range>) returns (merged: seq<Range>)
    requires Ascending(order) && Proper(order)
    ensures Canonical(merged)
    ensures SameCover(merged, order)
  {
    merged := [];
    for k := 0 to |order|
      invariant Canonical(merged)
      invariant merged != [] ==> k > 0 && merged[|merged| - 1].lo <= order[k - 1].lo
      invariant SameCover(merged, order[..k])
    {
      var r := order[k];
      assert merged != [] ==> PairLe(order[k - 1], r);
      assert order[..k + 1] == order[..k] + [r];
      AppendCover(order[..k], r);
      if merged != [] && r.lo <= merged[|merged| - 1].hi + 1 {
        var last := |merged| - 1;
        WidenCover(merged, r);
        merged := merged[last := Range(merged[last].lo, MaxInt(merged[last].hi, r.hi))];
      } else {
        AppendCover(merged, r);
        AppendCanonical(merged, r);
        merged := merged + [r];
      }
    }
    assert order[..|order|] == order;
  }

  lemma {:induction false} AppendCanonical(t: seq<Range>, r: Range)
    requires Canonical(t) && r.lo <= r.hi
    requires t != [] ==> t[|t| - 1].hi + 1 < r.lo
    ensures Canonical(t + [r])
  {
    var s := t + [r];
    forall i, j | 0 <= i < j < |s| ensures s[i].hi + 1 < s[j].lo {
      if j == |t| && i < |t| - 1 {
        assert t[i].hi + 1 < t[|t| - 1].lo;
      }
    }
  }

  // ----- the table of one address family -----------------------------------

  class VersionTable {
    const starts: seq<int>
    const ends: seq<int>

    ghost predicate Valid() {
      |starts| == |ends| && Canonical(Table())
    }

    ghost function Table(): (t: seq<Range>)
      requires |starts| == |ends|
      ensures |t| == |starts|
      ensures forall i :: 0 <= i < |t| ==> t[i] == Range(starts[i], ends[i])
    {
      seq(|starts|, i requires 0 <= i < |starts| => Range(starts[i], ends[i]))
    }

    constructor (ranges: seq<Range>)
      requires Proper(ranges)
      ensures Valid()
      ensures SameCover(Table(), ranges)
    {
      var order := Sorted(ranges);
      SortedCover(ranges);
      var merged := Merge(order);
      starts := seq(|merged|, i requires 0 <= i < |merged| => merged[i].lo);
      ends := seq(|merged|, i requires 0 <= i < |merged| => merged[i].hi);
      new;
      assert Table() == merged;
    }

    /** Bisection answers exactly what a linear scan of the table would. */
    method Contains(value: int) returns (found: bool)
      requires Valid()
      ensures found <==> Covers(Table(), value)
    {
      var after: int := BisectRight(starts, value);
      var index := after - 1;
      found := index >= 0 && value <= ends[index];
      ghost var t := Table();
      assert forall i :: after <= i < |t| ==> value < t[i].lo;
      if index >= 0 {
        assert starts[index] == t[index].lo <= value;
        assert forall i :: 0 <= i < index ==> t[i].hi + 1 < t[index].lo;
        assert Inside(value, t[index]) <==> found;
      }
    }
  }

  /** The insertion point after every element not above `value`. */
  method BisectRight(a: seq<int>, value: int) returns (at: nat)
    requires forall i, j :: 0 <= i < j < |a| ==> a[i] <= a[j]
    ensures at <= |a|
    ensures forall i :: 0 <= i < at ==> a[i] <= value
    ensures forall i :: at <= i < |a| ==> value < a[i]
  {
    var lo, hi := 0, |a|;
    while lo < hi
      invariant 0 <= lo <= hi <= |a|
      invariant forall i :: 0 <= i < lo ==> a[i] <= value
      invariant forall i :: hi <= i < |a| ==> value < a[i]
    {
      var mid := (lo + hi) / 2;
      if value < a[mid] {
        hi := mid;
      } else {
        lo := mid + 1;
      }
    }
    at := lo;
  }

  lemma {:induction false} AppendCover(rs: seq<Range>, r: Range)
    ensures forall v :: Covers(rs + [r], v) <==> Covers(rs, v) || Inside(v, r)
  {
    var s := rs + [r];
    forall v ensures Covers(s, v) <==> Covers(rs, v) || Inside(v, r) {
      if Covers(s, v) {
        var i :| 0 <= i < |s| && Inside(v, s[i]);
        assert i < |rs| ==> s[i] == rs[i];
      }
      if Covers(rs, v) {
        var i :| 0 <= i < |rs| && Inside(v, rs[i]);
        assert s[i] == rs[i];
      }
      if Inside(v, r) {
        assert s[|rs|] == r;
      }
    }
  }

  /** Stretching the last interval over a touching one adds exactly that one. */
  lemma {:induction false} WidenCover(t: seq<Range>, r: Range)
    requires Canonical(t) && t != [] && r.lo <= r.hi
    requires t[|t| - 1].lo <= r.lo <= t[|t| - 1].hi + 1
    ensures var last := |t| - 1;
            var after := t[last := Range(t[last].lo, MaxInt(t[last].hi, r.hi))];
            && Canonical(after)
            && forall v :: Covers(after, v) <==> Covers(t, v) || Inside(v, r)
  {
    var last := |t| - 1;
    var after := t[last := Range(t[last].lo, MaxInt(t[last].hi, r.hi))];
    assert forall i :: 0 <= i < last ==> after[i] == t[i];
    forall v ensures Covers(after, v) <==> Covers(t, v) || Inside(v, r) {
      if Covers(after, v) {
        var i :| 0 <= i < |after| && Inside(v, after[i]);
        assert i == last ==> Inside(v, t[last]) || Inside(v, r);
      }
      if Covers(t, v) {
        var i :| 0 <= i < |t| && Inside(v, t[i]);
        assert Inside(v, after[i]);
      }
      if Inside(v, r) {
        assert Inside(v, after[last]);
      }
    }
  }

  // ----- what the merged form is worth -------------------------------------

  /** The gap after every interval of a canonical table is uncovered. */
  lemma {:induction false} GapUncovered(t: seq<Range>, i: nat)
    requires Canonical(t) && i < |t|
    ensures !Covers(t, t[i].hi + 1)
  {
    forall k | 0 <= k < |t| ensures !Inside(t[i].hi + 1, t[k]) {
      if k < i {
        assert t[k].hi + 1 < t[i].lo;
      }
    }
  }

  /** Nothing is covered below the first interval of a canonical table. */
  lemma {:induction false} LeastCovered(t: seq<Range>, v: int)
    requires Canonical(t) && Covers(t, v)
    ensures t != [] && t[0].lo <= v
  {
    var i :| 0 <= i < |t| && Inside(v, t[i]);
    assert i > 0 ==> t[0].hi + 1 < t[i].lo;
  }

  lemma {:induction false} TailCover(t: seq<Range>)
    requires Canonical(t) && t != []
    ensures Canonical(t[1..])
    ensures forall v :: Covers(t[1..], v) <==> Covers(t, v) && t[0].hi < v
  {
    forall v ensures Covers(t[1..], v) <==> Covers(t, v) && t[0].hi < v {
      if Covers(t[1..], v) {
        var i :| 0 <= i < |t[1..]| && Inside(v, t[1..][i]);
        assert t[1..][i] == t[i + 1];
        assert t[0].hi + 1 < t[i + 1].lo;
      }
      if Covers(t, v) && t[0].hi < v {
        var i :| 0 <= i < |t| && Inside(v, t[i]);
        assert t[1..][i - 1] == t[i];
      }
    }
  }

  lemma {:induction false} CoversSomething(t: seq<Range>)
    requires Canonical(t)
    ensures t != [] ==> exists v :: Covers(t, v)
  {
    if t != [] {
      assert Inside(t[0].lo, t[0]);
      assert Covers(t, t[0].lo);
    }
  }

  /** The canonical table of a set of addresses is unique. */
  lemma {:induction false} CanonicalUnique(a: seq<Range>, b: seq<Range>)
    requires Canonical(a) && Canonical(b) && SameCover(a, b)
    ensures a == b
    decreases |a| + |b|
  {
    if a == [] {
      CoversSomething(b);
    } else {
      assert Inside(a[0].lo, a[0]) && Covers(a, a[0].lo);
      LeastCovered(b, a[0].lo);
      assert Inside(b[0].lo, b[0]) && Covers(b, b[0].lo);
      LeastCovered(a, b[0].lo);
      SameFirstEnd(a, b);
      SameFirstEnd(b, a);
      TailCover(a);
      TailCover(b);
      CanonicalUnique(a[1..], b[1..]);
      assert a == [a[0]] + a[1..] && b == [b[0]] + b[1..];
    }
  }

  lemma {:induction false} SameFirstEnd(a: seq<Range>, b: seq<Range>)
    requires Canonical(a) && Canonical(b) && SameCover(a, b)
    requires a != [] && b != [] && a[0].lo == b[0].lo
    ensures b[0].hi <= a[0].hi
  {
    GapUncovered(a, 0);
    var v, r := a[0].hi + 1, b[0];
    assert Inside(v, r) ==> Covers(b, v);
  }

  ghost function CoveringIndex(rs: seq<Range>, v: int): (j: nat)
    requires Covers(rs, v)
    ensures j < |rs| && Inside(v, rs[j])
  {
    var j :| 0 <= j < |rs| && Inside(v, rs[j]);
    j
  }

  /** No list of intervals with the same cover is shorter than the canonical one. */
  lemma {:induction false} CanonicalShortest(t: seq<Range>, rs: seq<Range>)
    requires Canonical(t) && SameCover(t, rs)
    ensures |t| <= |rs|
  {
    forall i | 0 <= i < |t| ensures Covers(rs, t[i].lo) {
      assert Inside(t[i].lo, t[i]) && Covers(t, t[i].lo);
    }
    var pick: seq<nat> := seq(|t|, i requires 0 <= i < |t| => CoveringIndex(rs, t[i].lo));
    forall i, k | 0 <= i < k < |pick| ensures pick[i] != pick[k] {
      assert Inside(t[i].lo, rs[pick[i]]) && Inside(t[k].lo, rs[pick[k]]);
      GapUncovered(t, i);
      assert t[i].hi + 1 < t[k].lo;
      var v, r := t[i].hi + 1, rs[pick[i]];
      assert Inside(v, r) ==> Covers(rs, v);
    }
    DistinctBelow(pick, |rs|);
  }

  /** Two lists naming the same addresses build the same table, the shortest there is. */
  lemma {:induction false} TableIsCanonicalForm(x: VersionTable, xs: seq<Range>, y: VersionTable, ys: seq<Range>)
    requires x.Valid() && SameCover(x.Table(), xs)
    requires y.Valid() && SameCover(y.Table(), ys)
    ensures SameCover(xs, ys) <==> x.starts == y.starts && x.ends == y.ends
    ensures |x.starts| <= |xs|
  {
    if SameCover(xs, ys) {
      CanonicalUnique(x.Table(), y.Table());
      assert forall i :: 0 <= i < |x.starts| ==> x.Table()[i] == y.Table()[i];
    }
    if x.starts == y.starts && x.ends == y.ends {
      assert x.Table() == y.Table();
    }
    CanonicalShortest(x.Table(), xs);
  }

  // ----- one labelled list, per address family ------------------------------

  datatype Version = V4 | V6

  /** One line of a list file, after the address parser has seen it. */
  datatype Line = Ignored | Network(version: Version, range: Range)

  ghost predicate Lists(lines: seq<Line>, version: Version, v: int) {
    exists i :: 0 <= i < |lines| && IsMatch(lines[i], version, v)
  }

  predicate IsMatch(line: Line, version: Version, v: int) {
    line.Network? && line.version == version && Inside(v, line.range)
  }

  ghost predicate Mentions(lines: seq<Line>, version: Version) {
    exists i :: 0 <= i < |lines| && IsFor(lines[i], version)
  }

  predicate IsFor(line: Line, version: Version) {
    line.Network? && line.version == version
  }

  class IpRangeIndex {
    const tables: map<Version, VersionTable>

    ghost predicate Valid() {
      forall version :: version in tables ==> tables[version].Valid() && tables[version].starts != []
    }

    /** Every parsed network of either family, and nothing else, is indexed. */
    constructor FromLines(lines: seq<Line>)
      requires forall i :: 0 <= i < |lines| && lines[i].Network? ==> lines[i].range.lo <= lines[i].range.hi
      ensures Valid()
      ensures forall version :: version in tables <==> Mentions(lines, version)
      ensures forall version, v :: version in tables ==>
                (Covers(tables[version].Table(), v) <==> Lists(lines, version, v))
    {
      var collected: map<Version, seq<Range>> := map[V4 := [], V6 := []];
      for k := 0 to |lines|
        invariant V4 in collected && V6 in collected
        invariant forall version :: version in collected ==> Proper(collected[version])
        invariant forall version :: version in collected ==>
                    (collected[version] != [] <==> Mentions(lines[..k], version))
        invariant forall version, v :: version in collected ==>
                    (Covers(collected[version], v) <==> Lists(lines[..k], version, v))
      {
        assert lines[..k + 1] == lines[..k] + [lines[k]];
        LinesAppend(lines[..k], lines[k]);
        if lines[k].Network? {
          var version := lines[k].version;
          assert version.V4? || version.V6?;
          AppendCover(collected[version], lines[k].range);
          collected := collected[version := collected[version] + [lines[k].range]];
        }
      }
      assert lines[..|lines|] == lines;
      var built: map<Version, VersionTable> := map[];
      if collected[V4] != [] {
        var table := new VersionTable(collected[V4]);
        NotEmpty(table, collected[V4]);
        built := built[V4 := table];
      }
      if collected[V6] != [] {
        var table := new VersionTable(collected[V6]);
        NotEmpty(table, collected[V6]);
        built := built[V6 := table];
      }
      tables := built;
    }

    method CoversVersion(version: Version) returns (covered: bool)
      ensures covered <==> version in tables
    {
      covered := version in tables;
    }

    method Contains(version: Version, address: int) returns (found: bool)
      requires Valid()
      ensures found <==> version in tables && Covers(tables[version].Table(), address)
    {
      if version !in tables {
        return false;
      }
      found := tables[version].Contains(address);
    }
  }

  lemma {:induction false} NotEmpty(table: VersionTable, ranges: seq<Range>)
    requires table.Valid() && SameCover(table.Table(), ranges) && Proper(ranges) && ranges != []
    ensures table.starts != []
  {
    assert Inside(ranges[0].lo, ranges[0]) && Covers(ranges, ranges[0].lo);
    assert Covers(table.Table(), ranges[0].lo);
  }

  lemma {:induction false} LinesAppend(lines: seq<Line>, line: Line)
    ensures forall version, v :: Lists(lines + [line], version, v) <==>
              Lists(lines, version, v) || IsMatch(line, version, v)
    ensures forall version :: Mentions(lines + [line], version) <==>
              Mentions(lines, version) || IsFor(line, version)
  {
    var s := lines + [line];
    forall version, v
      ensures Lists(s, version, v) <==> Lists(lines, version, v) || IsMatch(line, version, v)
    {
      if Lists(lines, version, v) {
        var i :| 0 <= i < |lines| && IsMatch(lines[i], version, v);
        assert s[i] == lines[i];
      }
      if IsMatch(line, version, v) {
        assert s[|lines|] == line;
      }
    }
    forall version ensures Mentions(s, version) <==> Mentions(lines, version) || IsFor(line, version) {
      if Mentions(lines, version) {
        var i :| 0 <= i < |lines| && IsFor(lines[i], version);
        assert s[i] == lines[i];
      }
      if IsFor(line, version) {
        assert s[|lines|] == line;
      }
    }
  }
}
