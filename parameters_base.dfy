/** Bounded parameter values and the per-access-level category lookups and
    walks. The number of access levels is generated code; here it is the
    argument `levels`. */
module ParametersBase {
  import opened CTypes
  import opened Wrappers
  import Seqs

  /** A parameter descriptor; `value` is the cell its value pointer names. */
  class Param {
    const id: int
    const name: string
    const isEnum: bool
    const access: int
    const description: string
    const min: int32
    const max: int32
    const exponent: int
    var value: int32

    constructor (id: int, name: string, isEnum: bool, access: int, description: string,
                 min: int32, max: int32, exponent: int, value: int32)
      ensures this.id == id && this.name == name && this.isEnum == isEnum && this.access == access
      ensures this.description == description && this.min == min && this.max == max
      ensures this.exponent == exponent && this.value == value
    {
      this.id, this.name, this.isEnum, this.access := id, name, isEnum, access;
      this.description, this.min, this.max, this.exponent := description, min, max, exponent;
      this.value := value;
    }
  }

  /** The value after ParamIncreaseValue: the maximum wraps to the minimum.
      Incrementing INT32_MAX (possible only for a value above its maximum)
      is modelled as two's-complement wrap-around. */
  function Increased(v: int32, min: int32, max: int32): (r: int32)
    ensures min <= v <= max ==> min <= r <= max
    ensures v == max ==> r == min
    ensures v != max && v < 0x7FFF_FFFF ==> r == v + 1
  {
    if v == max then min else WrapInt32(v + 1)
  }

  /** The value after ParamDecreaseValue: the minimum wraps to the maximum. */
  function Decreased(v: int32, min: int32, max: int32): (r: int32)
    ensures min <= v <= max ==> min <= r <= max
    ensures v == min ==> r == max
    ensures v != min && v > -0x8000_0000 ==> r == v - 1
  {
    if v == min then max else WrapInt32(v - 1)
  }

  predicate InRange(v: int, min: int, max: int) {
    min <= v <= max
  }

  /** Decrease undoes Increase and Increase undoes Decrease on in-range values. */
  lemma IncreaseDecreaseInverse(v: int32, min: int32, max: int32)
    requires InRange(v, min, max)
    ensures Decreased(Increased(v, min, max), min, max) == v
    ensures Increased(Decreased(v, min, max), min, max) == v
  {
  }

  /** The value after k increases. */
  function IncreasedTimes(v: int32, min: int32, max: int32, k: nat): int32 {
    if k == 0 then v else Increased(IncreasedTimes(v, min, max, k - 1), min, max)
  }

  /** The value after k decreases. */
  function DecreasedTimes(v: int32, min: int32, max: int32, k: nat): int32 {
    if k == 0 then v else Decreased(DecreasedTimes(v, min, max, k - 1), min, max)
  }

  /** Below the maximum, k increases add k. */
  lemma {:induction false} IncreaseClimbs(v: int32, min: int32, max: int32, k: nat)
    requires InRange(v, min, max) && v + k <= max
    ensures IncreasedTimes(v, min, max, k) == v + k
  {
    if k > 0 {
      IncreaseClimbs(v, min, max, k - 1);
    }
  }

  /** Above the minimum, k decreases subtract k. */
  lemma {:induction false} DecreaseDescends(v: int32, min: int32, max: int32, k: nat)
    requires InRange(v, min, max) && v - k >= min
    ensures DecreasedTimes(v, min, max, k) == v - k
  {
    if k > 0 {
      DecreaseDescends(v, min, max, k - 1);
    }
  }

  /** Repeated increases compose. */
  lemma {:induction false} IncreasesCompose(v: int32, min: int32, max: int32, j: nat, k: nat)
    ensures IncreasedTimes(v, min, max, j + k) == IncreasedTimes(IncreasedTimes(v, min, max, j), min, max, k)
  {
    if k > 0 {
      IncreasesCompose(v, min, max, j, k - 1);
    }
  }

  /** Repeated decreases compose. */
  lemma {:induction false} DecreasesCompose(v: int32, min: int32, max: int32, j: nat, k: nat)
    ensures DecreasedTimes(v, min, max, j + k) == DecreasedTimes(DecreasedTimes(v, min, max, j), min, max, k)
  {
    if k > 0 {
      DecreasesCompose(v, min, max, j, k - 1);
    }
  }

  /** Increasing walks [min, max] as a cycle: a full round of
      max - min + 1 steps returns to the start. */
  lemma {:induction false} IncreaseFullCycle(v: int32, min: int32, max: int32)
    requires InRange(v, min, max)
    ensures IncreasedTimes(v, min, max, max - min + 1) == v
  {
    var up: nat, down: nat := max - v, v - min;
    var round: nat := max - min + 1;
    IncreaseClimbs(v, min, max, up);
    IncreasesCompose(v, min, max, up, 1);
    var wrapped := IncreasedTimes(v, min, max, up + 1);
    assert wrapped == min;
    IncreasesCompose(v, min, max, up + 1, down);
    assert IncreasedTimes(v, min, max, round) == IncreasedTimes(wrapped, min, max, down) by {
      assert up + 1 + down == round;
    }
    IncreaseClimbs(min, min, max, down);
  }

  /** Decreasing walks the same cycle the other way. */
  lemma {:induction false} DecreaseFullCycle(v: int32, min: int32, max: int32)
    requires InRange(v, min, max)
    ensures DecreasedTimes(v, min, max, max - min + 1) == v
  {
    var up: nat, down: nat := max - v, v - min;
    var round: nat := max - min + 1;
    DecreaseDescends(v, min, max, down);
    DecreasesCompose(v, min, max, down, 1);
    var bottom := DecreasedTimes(v, min, max, down);
    assert DecreasedTimes(bottom, min, max, 1) == Decreased(bottom, min, max) == max;
    var wrapped := DecreasedTimes(v, min, max, down + 1);
    DecreasesCompose(v, min, max, down + 1, up);
    assert DecreasedTimes(v, min, max, round) == DecreasedTimes(wrapped, min, max, up) by {
      assert down + 1 + up == round;
    }
    DecreaseDescends(max, min, max, up);
  }

  /** ParamIncreaseValue; -1 for a NULL parameter. */
  method IncreaseValue(p: Param?) returns (rc: int)
    modifies p
    ensures p == null ==> rc == -1
    ensures p != null ==> rc == 0 && p.value == Increased(old(p.value), p.min, p.max)
  {
    if p == null {
      return -1;
    }
    if p.value == p.max {
      p.value := p.min;
    } else {
      p.value := WrapInt32(p.value + 1);
    }
    rc := 0;
  }

  /** ParamDecreaseValue; -1 for a NULL parameter. */
  method DecreaseValue(p: Param?) returns (rc: int)
    modifies p
    ensures p == null ==> rc == -1
    ensures p != null ==> rc == 0 && p.value == Decreased(old(p.value), p.min, p.max)
  {
    if p == null {
      return -1;
    }
    if p.value == p.min {
      p.value := p.max;
    } else {
      p.value := WrapInt32(p.value - 1);
    }
    rc := 0;
  }

  /** ParamSetValue: accepted exactly for a non-NULL parameter and a value
      within the inclusive bounds; a rejected value leaves the parameter. */
  method SetValue(p: Param?, v: int32) returns (rc: int)
    modifies p
    ensures rc == 0 <==> p != null && InRange(v, p.min, p.max)
    ensures rc != 0 ==> rc == -1
    ensures p != null && rc == 0 ==> p.value == v
    ensures p != null && rc != 0 ==> p.value == old(p.value)
  {
    if p != null && v >= p.min && v <= p.max {
      p.value := v;
      rc := 0;
    } else {
      rc := -1;
    }
  }

  /** A parameter category: counts of the parameters visible at each access
      level, and the parameters in alphabetical order. */
  datatype Category = Category(id: int, name: string, nParams: seq<nat>, params: seq<Param>)

  /** The shape the generated tables have: one count per level, and the top
      level's count of parameters present. */
  predicate WellFormed(c: Category, levels: nat) {
    levels >= 1 && |c.nParams| == levels && c.nParams[levels - 1] <= |c.params|
  }

  /** The top level holds every parameter any level can see. */
  predicate Nested(c: Category, levels: nat)
    requires WellFormed(c, levels)
  {
    forall l :: 0 <= l < levels ==> c.nParams[l] <= c.nParams[levels - 1]
  }

  /** ParamCategoryGetNParams: the level is checked before the category. */
  function GetNParams(cat: Option<Category>, level: nat, levels: nat): (r: int)
    requires cat.Some? ==> WellFormed(cat.value, levels)
    ensures level >= levels ==> r == -EINVAL
    ensures level < levels && cat.None? ==> r == -ENOENT
    ensures r >= 0 <==> level < levels && cat.Some?
    ensures r >= 0 ==> r == cat.value.nParams[level]
  {
    if level >= levels then -EINVAL
    else if cat.None? then -ENOENT
    else cat.value.nParams[level]
  }

  /** ParamCategoryGetTotalNParams: the count at the highest level. */
  function GetTotalNParams(cat: Option<Category>, levels: nat): (r: int)
    requires cat.Some? ==> WellFormed(cat.value, levels)
    requires levels >= 1
    ensures cat.None? ==> r == -ENOENT
    ensures cat.Some? ==> r == cat.value.nParams[levels - 1]
  {
    if cat.None? then -ENOENT else cat.value.nParams[levels - 1]
  }

  /** The total is the count at the top level, and no level's count exceeds
      it when the levels nest. */
  lemma TotalIsTopLevel(cat: Option<Category>, levels: nat, level: nat)
    requires cat.Some? ==> WellFormed(cat.value, levels)
    requires levels >= 1
    ensures GetTotalNParams(cat, levels) == GetNParams(cat, levels - 1, levels)
    ensures cat.Some? && Nested(cat.value, levels) && level < levels ==>
      0 <= GetNParams(cat, level, levels) <= GetTotalNParams(cat, levels)
  {
  }

  /** ParamCategoryGetParam: the parameter at an alphabetical index below the
      top-level count; -EINVAL for a NULL category or an index past it. */
  function GetParam(cat: Option<Category>, index: nat, levels: nat): (r: Result<Param, int>)
    requires cat.Some? ==> WellFormed(cat.value, levels)
    ensures r.Ok? <==> cat.Some? && index < GetTotalNParams(cat, levels)
    ensures r.Ok? ==> r.value == cat.value.params[index]
    ensures r.Err? ==> r.error == -EINVAL
  {
    if cat.Some? && index < cat.value.nParams[levels - 1] then Ok(cat.value.params[index])
    else Err(-EINVAL)
  }

  /** A walk stops at the first negative callback result. */
  function StopsOnNegative<T>(cb: T -> int): T -> bool {
    x => cb(x) < 0
  }

  /** A category with visible parameters at `level`. */
  function HasParamsAt(level: nat): Category -> bool {
    (c: Category) => level < |c.nParams| && c.nParams[level] > 0
  }

  /** The categories the lookup yields for indices 0, 1, ... up to the first
      failed lookup. */
  function Reachable(table: seq<Option<Category>>): (n: nat)
    ensures n <= |table|
    ensures forall i :: 0 <= i < n ==> table[i].Some?
    ensures n < |table| ==> table[n].None?
  {
    if table == [] || table[0].None? then 0 else 1 + Reachable(table[1..])
  }

  function Found(table: seq<Option<Category>>): (cats: seq<Category>)
    ensures |cats| == Reachable(table)
    ensures forall i :: 0 <= i < |cats| ==> table[i] == Some(cats[i])
  {
    seq(Reachable(table), i requires 0 <= i < Reachable(table) => table[i].value)
  }

  predicate AllWellFormed(table: seq<Option<Category>>, levels: nat) {
    forall i :: 0 <= i < |table| && table[i].Some? ==> WellFormed(table[i].value, levels)
  }

  /** ParamCategoryWalk over the category lookup results `table` (one per
      category index): the categories with visible parameters at the level,
      in index order, until a callback result is negative; -ENOENT when a
      lookup fails before that. */
  function CategoryWalkSpec(table: seq<Option<Category>>, level: nat, levels: nat,
                            cb: Option<Category -> int>): (r: (int, seq<Category>))
    ensures r.0 == -EINVAL <==> level >= levels || cb.None?
    ensures r.0 == 0 || r.0 == -EINVAL || r.0 == -ENOENT
    ensures r.0 == -EINVAL ==> r.1 == []
    ensures forall c :: c in r.1 ==> c in Found(table) && HasParamsAt(level)(c)
    ensures r.0 == -ENOENT ==> Reachable(table) < |table|
    ensures cb.Some? ==> forall j :: 0 <= j < |r.1| - 1 ==> cb.value(r.1[j]) >= 0
    ensures level < levels && cb.Some? ==>
      var cands := Seqs.Filter(Found(table), HasParamsAt(level));
      var f := cb.value;
      && |r.1| <= |cands| && r.1 == cands[..|r.1|]
      && (|r.1| < |cands| ==> r.1 != [] && f(r.1[|r.1| - 1]) < 0 && r.0 == 0)
      && ((forall j :: 0 <= j < |r.1| ==> f(r.1[j]) >= 0) ==> r.1 == cands)
      && (r.0 == -ENOENT <==> (forall j :: 0 <= j < |r.1| ==> f(r.1[j]) >= 0) && Reachable(table) < |table|)
  {
    if level >= levels || cb.None? then (-EINVAL, [])
    else
      var cands := Seqs.Filter(Found(table), HasParamsAt(level));
      var stop := StopsOnNegative(cb.value);
      var v := Seqs.Visited(cands, stop);
      Seqs.FilterMembers(Found(table), HasParamsAt(level));
      Seqs.VisitedPrefix(cands, stop);
      assert forall j :: 0 <= j < |v| ==> v[j] == cands[j];
      assert forall j :: 0 <= j < |v| - 1 ==> !stop(v[j]);
      assert Seqs.Halts(cands, stop) <==> !(forall j :: 0 <= j < |v| ==> cb.value(v[j]) >= 0);
      (if !Seqs.Halts(cands, stop) && Reachable(table) < |table| then -ENOENT else 0, v)
  }

  /** The categories the walk offers to the callback: each one a lookup
      finds before the first failed lookup and that has parameters at the
      level, in increasing index order, and every such category. */
  lemma CategoryCandidates(table: seq<Option<Category>>, level: nat)
    ensures var cands, idx := Seqs.Filter(Found(table), HasParamsAt(level)), Seqs.FilterPositions(Found(table), HasParamsAt(level));
      && |idx| == |cands|
      && (forall i :: 0 <= i < |idx| ==>
            idx[i] < Reachable(table) && table[idx[i]] == Some(cands[i]) && level < |cands[i].nParams| && cands[i].nParams[level] > 0)
      && (forall i, j :: 0 <= i < j < |idx| ==> idx[i] < idx[j])
      && (forall k :: 0 <= k < Reachable(table) && level < |table[k].value.nParams| && table[k].value.nParams[level] > 0 ==> k in idx)
  {
    Seqs.FilterPositionsName(Found(table), HasParamsAt(level));
    Seqs.FilterPositionsIncrease(Found(table), HasParamsAt(level));
    Seqs.FilterPositionsComplete(Found(table), HasParamsAt(level));
  }

  method CategoryWalk(table: seq<Option<Category>>, level: nat, levels: nat, cb: Option<Category -> int>)
    returns (rc: int, visited: seq<Category>)
    requires AllWellFormed(table, levels)
    ensures (rc, visited) == CategoryWalkSpec(table, level, levels, cb)
  {
    if level >= levels || cb.None? {
      return -EINVAL, [];
    }
    var f := cb.value;
    ghost var stop := StopsOnNegative(f);
    ghost var keep := HasParamsAt(level);
    ghost var found := Found(table);
    visited := [];
    var i := 0;
    while i < |table|
      invariant 0 <= i <= |table| && i <= |found|
      invariant forall j :: 0 <= j < i ==> table[j].Some?
      invariant visited == Seqs.Filter(found[..i], keep) && !Seqs.Halts(visited, stop)
    {
      if table[i].None? {
        assert found[..i] == found;
        Seqs.VisitedPrefix(visited, stop);
        return -ENOENT, visited;
      }
      var c := table[i].value;
      assert i < |found| && found[i] == c;
      assert found[..i + 1] == found[..i] + [c];
      Seqs.VisitedFilterSnoc(found[..i], c, keep, stop);
      if GetNParams(table[i], level, levels) > 0 {
        visited := visited + [c];
        if f(c) < 0 {
          Seqs.VisitedFilterPrefix(found, i + 1, keep, stop);
          return 0, visited;
        }
      }
      i := i + 1;
    }
    assert found[..i] == found;
    Seqs.VisitedPrefix(visited, stop);
    rc := 0;
  }

  function Min(a: int, b: int): int {
    if a <= b then a else b
  }

  /** ParamWalk: the parameters at indices below the level's count, in
      order, until a callback result is negative; -ENOENT once an index
      reaches the top-level count first. */
  function ParamWalkSpec(cat: Option<Category>, level: nat, levels: nat, cb: Option<Param -> int>)
    : (r: (int, seq<Param>))
    requires cat.Some? ==> WellFormed(cat.value, levels)
    ensures r.0 == -EINVAL <==> level >= levels || cb.None? || cat.None?
    ensures r.0 == 0 || r.0 == -EINVAL || r.0 == -ENOENT
    ensures r.0 == -EINVAL ==> r.1 == []
    ensures r.0 != -EINVAL ==> |r.1| <= cat.value.nParams[level] && |r.1| <= cat.value.nParams[levels - 1]
    ensures r.0 != -EINVAL ==> r.1 == cat.value.params[..|r.1|]
    ensures r.0 == -ENOENT ==> cat.value.nParams[level] > cat.value.nParams[levels - 1]
    ensures cb.Some? ==> forall j :: 0 <= j < |r.1| - 1 ==> cb.value(r.1[j]) >= 0
    ensures r.0 != -EINVAL ==>
      var c, f := cat.value, cb.value;
      var m := Min(c.nParams[level], c.nParams[levels - 1]);
      && (|r.1| < m ==> r.1 != [] && f(r.1[|r.1| - 1]) < 0 && r.0 == 0)
      && ((forall j :: 0 <= j < |r.1| ==> f(r.1[j]) >= 0) ==> |r.1| == m)
      && (r.0 == -ENOENT <==> (forall j :: 0 <= j < |r.1| ==> f(r.1[j]) >= 0) && c.nParams[level] > c.nParams[levels - 1])
  {
    if level >= levels || cb.None? || cat.None? then (-EINVAL, [])
    else
      var c := cat.value;
      var n := c.nParams[level];
      var items := c.params[..Min(n, c.nParams[levels - 1])];
      var stop := StopsOnNegative(cb.value);
      var v := Seqs.Visited(items, stop);
      Seqs.VisitedPrefix(items, stop);
      assert forall j :: 0 <= j < |v| - 1 ==> !stop(v[j]);
      assert Seqs.Halts(items, stop) <==> !(forall j :: 0 <= j < |v| ==> cb.value(v[j]) >= 0);
      (if !Seqs.Halts(items, stop) && n > c.nParams[levels - 1] then -ENOENT else 0, v)
  }

  /** When the levels nest, ParamWalk never reports -ENOENT, and without a
      stopping callback it visits exactly the level's parameters. */
  lemma ParamWalkNested(cat: Option<Category>, level: nat, levels: nat, cb: Option<Param -> int>)
    requires cat.Some? && WellFormed(cat.value, levels) && Nested(cat.value, levels)
    requires level < levels && cb.Some?
    requires forall p :: cb.value(p) >= 0
    ensures ParamWalkSpec(cat, level, levels, cb) == (0, cat.value.params[..cat.value.nParams[level]])
  {
    var c := cat.value;
    var items := c.params[..c.nParams[level]];
    var stop := StopsOnNegative(cb.value);
    assert !Seqs.Halts(items, stop);
    Seqs.VisitedPrefix(items, stop);
  }

  method ParamWalk(cat: Option<Category>, level: nat, levels: nat, cb: Option<Param -> int>)
    returns (rc: int, visited: seq<Param>)
    requires cat.Some? ==> WellFormed(cat.value, levels)
    ensures (rc, visited) == ParamWalkSpec(cat, level, levels, cb)
  {
    if level >= levels || cb.None? || cat.None? {
      return -EINVAL, [];
    }
    var f := cb.value;
    ghost var stop := StopsOnNegative(f);
    ghost var c := cat.value;
    ghost var items := c.params[..Min(c.nParams[level], c.nParams[levels - 1])];
    visited := [];
    var i: nat := 0;
    while i < GetNParams(cat, level, levels)
      invariant i <= c.nParams[level] && i <= c.nParams[levels - 1]
      invariant visited == c.params[..i] && !Seqs.Halts(visited, stop)
    {
      var found := GetParam(cat, i, levels);
      if found.Err? {
        assert items == visited;
        Seqs.VisitedPrefix(visited, stop);
        return -ENOENT, visited;
      }
      var p := found.value;
      assert c.params[..i + 1] == visited + [p];
      Seqs.VisitedSnoc(visited, p, stop);
      visited := visited + [p];
      if f(p) < 0 {
        assert items[..i + 1] == visited;
        Seqs.VisitedStopsIn(items, i + 1, stop);
        return 0, visited;
      }
      i := i + 1;
    }
    assert items == visited;
    Seqs.VisitedPrefix(visited, stop);
    rc := 0;
  }
}
