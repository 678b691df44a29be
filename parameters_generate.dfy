/** The derivations SourceGenerator.generate makes in
    codegenerators/parameters.py before it fills the C templates: the
    category order with each category's parameters, and the length
    constants of the generated header. The template text is not modelled. */
module ParametersGenerate {
  import opened Wrappers
  import opened XmlTree
  import opened ParametersConfig
  import PyText
  import Seqs

  /** A name with the position it had before sorting. sorted() is stable,
      so sorting by name alone orders exactly as sorting these pairs. */
  type Tagged = (string, nat)

  predicate Before(a: Tagged, b: Tagged) {
    PyText.LexLess(a.0, b.0) || (a.0 == b.0 && a.1 < b.1)
  }

  /** Before is a strict total order. */
  lemma BeforeOrder(a: Tagged, b: Tagged, c: Tagged)
    ensures !Before(a, a)
    ensures a == b || Before(a, b) || Before(b, a)
    ensures Before(a, b) ==> !Before(b, a)
    ensures Before(a, b) && Before(b, c) ==> Before(a, c)
  {
    PyText.LexLessIrreflexive(a.0);
    PyText.LexLessIrreflexive(b.0);
    PyText.LexLessTotal(a.0, b.0);
    if PyText.LexLess(a.0, b.0) {
      PyText.LexLessAsymmetric(a.0, b.0);
    }
    if PyText.LexLess(a.0, b.0) && PyText.LexLess(b.0, c.0) {
      PyText.LexLessTransitive(a.0, b.0, c.0);
    }
  }

  predicate StrictlySorted(s: seq<Tagged>) {
    forall i, j :: 0 <= i < j < |s| ==> Before(s[i], s[j])
  }

  lemma HeadBeforeRest(s: seq<Tagged>)
    requires StrictlySorted(s) && s != []
    ensures forall y :: y in s[1..] ==> Before(s[0], y)
  {
    forall y | y in s[1..]
      ensures Before(s[0], y)
    {
      var k :| 0 <= k < |s[1..]| && s[1..][k] == y;
      assert s[k + 1] == y;
    }
  }

  lemma BeforeAll(x: Tagged, s: seq<Tagged>)
    requires StrictlySorted(s) && s != [] && Before(x, s[0])
    ensures forall y :: y in s ==> Before(x, y)
  {
    forall y | y in s
      ensures Before(x, y)
    {
      var k :| 0 <= k < |s| && s[k] == y;
      if k > 0 {
        BeforeOrder(x, s[0], y);
      }
    }
  }

  function Insert(x: Tagged, s: seq<Tagged>): (r: seq<Tagged>)
    requires StrictlySorted(s) && x !in s
    ensures |r| == |s| + 1
    ensures forall y :: y in r <==> y == x || y in s
    ensures StrictlySorted(r)
  {
    if s == [] then [x]
    else if Before(x, s[0]) then
      BeforeAll(x, s);
      [x] + s
    else
      BeforeOrder(x, s[0], x);
      HeadBeforeRest(s);
      var rest := Insert(x, s[1..]);
      assert forall y :: y in rest ==> Before(s[0], y);
      [s[0]] + rest
  }

  /** sorted(): the same items in strictly increasing order. */
  function Sort(s: seq<Tagged>): (r: seq<Tagged>)
    requires Seqs.Distinct(s)
    ensures |r| == |s|
    ensures forall y :: y in r <==> y in s
    ensures StrictlySorted(r)
  {
    if s == [] then []
    else
      var init := s[..|s| - 1];
      assert s == init + [s[|s| - 1]];
      Seqs.DistinctSnoc(init, s[|s| - 1]);
      Insert(s[|s| - 1], Sort(init))
  }

  /** The generator runs only on names that are present: Python raises a
      TypeError sorting a missing category name and a KeyError on a
      parameter without Name or Category. */
  predicate Named(c: Config) {
    && (forall i :: 0 <= i < |c.categories| ==> c.categories[i].0.Some?)
    && (forall i :: 0 <= i < |c.parameters| ==> "Name" in c.parameters[i].1 && "Category" in c.parameters[i].1)
  }

  function CategoryNames(c: Config): (r: seq<Tagged>)
    requires Named(c)
    ensures |r| == |c.categories|
    ensures forall i :: 0 <= i < |r| ==> r[i] == (c.categories[i].0.value, i)
    ensures Seqs.Distinct(r)
    ensures forall y :: y in r ==> y.1 < |c.categories| && r[y.1] == y
  {
    seq(|c.categories|, i requires 0 <= i < |c.categories| => (c.categories[i].0.value, i))
  }

  function ParamNames(c: Config): (r: seq<Tagged>)
    requires Named(c)
    ensures |r| == |c.parameters|
    ensures forall i :: 0 <= i < |r| ==> r[i] == (c.parameters[i].1["Name"], i)
    ensures Seqs.Distinct(r)
    ensures forall y :: y in r ==> y.1 < |c.parameters| && r[y.1] == y
  {
    seq(|c.parameters|, i requires 0 <= i < |c.parameters| => (c.parameters[i].1["Name"], i))
  }

  function InCategory(c: Config, name: string): Tagged -> bool {
    (p: Tagged) => p.1 < |c.parameters| && "Category" in c.parameters[p.1].1 && c.parameters[p.1].1["Category"] == name
  }

  /** The named parameters of one category, in table order. */
  function Members(c: Config, name: string): (r: seq<Tagged>)
    requires Named(c)
    ensures Seqs.Distinct(r)
    ensures forall y :: y in r <==> y in ParamNames(c) && InCategory(c, name)(y)
  {
    Seqs.FilterDistinct(ParamNames(c), InCategory(c, name));
    Seqs.FilterMembers(ParamNames(c), InCategory(c, name));
    Seqs.Filter(ParamNames(c), InCategory(c, name))
  }

  /** The parameter positions of one category, sorted by Name. */
  function CategoryParams(c: Config, name: string): seq<nat>
    requires Named(c)
  {
    Values(Sort(Members(c, name)))
  }

  /** One generated category: its name, its Id and its parameters' positions
      in the parameter table; n_params is the length of the last. */
  datatype CategoryEntry = CategoryEntry(name: string, id: Key, params: seq<nat>)

  /** The categories in sorted-name order, each with its parameters. */
  function CategoryLayout(c: Config): (layout: seq<CategoryEntry>)
    requires Named(c)
    ensures |layout| == |c.categories|
  {
    var order := Sort(CategoryNames(c));
    seq(|order|, i requires 0 <= i < |order| =>
      assert order[i] in CategoryNames(c);
      CategoryEntry(order[i].0, c.categories[order[i].1].1, CategoryParams(c, order[i].0)))
  }

  /** Categories come in strictly increasing name order, and every declared
      category appears once with its Id. */
  lemma {:induction false} LayoutOrder(c: Config)
    requires Named(c) && Seqs.Distinct(Keys(c.categories))
    ensures var layout := CategoryLayout(c);
      && (forall i, j :: 0 <= i < j < |layout| ==> PyText.LexLess(layout[i].name, layout[j].name))
      && (forall k :: 0 <= k < |c.categories| ==>
            exists i :: 0 <= i < |layout| && Some(layout[i].name) == c.categories[k].0 && layout[i].id == c.categories[k].1)
  {
    var layout := CategoryLayout(c);
    var names := CategoryNames(c);
    var order := Sort(names);
    forall i, j | 0 <= i < j < |layout|
      ensures PyText.LexLess(layout[i].name, layout[j].name)
    {
      assert Before(order[i], order[j]);
      assert order[i] in names && order[j] in names;
      var a, b := order[i].1, order[j].1;
      assert names[a] == order[i] && names[b] == order[j];
      BeforeOrder(order[i], order[j], order[i]);
      assert a != b;
      assert Keys(c.categories)[a] != Keys(c.categories)[b];
      assert order[i].0 != order[j].0;
    }
    forall k | 0 <= k < |c.categories|
      ensures exists i :: 0 <= i < |layout| && Some(layout[i].name) == c.categories[k].0 && layout[i].id == c.categories[k].1
    {
      assert names[k] in names;
      var i :| 0 <= i < |order| && order[i] == names[k];
      assert layout[i].name == names[k].0;
    }
  }

  /** A category's positions are exactly those of the parameters whose
      Category names it. */
  lemma CategoryParamsMembers(c: Config, name: string)
    requires Named(c)
    ensures forall j: nat :: j in CategoryParams(c, name) <==> j < |c.parameters| && c.parameters[j].1["Category"] == name
  {
    var named := ParamNames(c);
    var sorted := Sort(Members(c, name));
    var ps := CategoryParams(c, name);
    forall j: nat
      ensures j in ps <==> j < |c.parameters| && c.parameters[j].1["Category"] == name
    {
      if j in ps {
        var a :| 0 <= a < |ps| && ps[a] == j;
        assert sorted[a] in sorted;
      }
      if j < |c.parameters| && c.parameters[j].1["Category"] == name {
        assert named[j] in named && InCategory(c, name)(named[j]);
        var a :| 0 <= a < |sorted| && sorted[a] == named[j];
        assert ps[a] == j;
      }
    }
  }

  /** A category's positions are distinct and ordered by Name, ties in
      table order. */
  lemma CategoryParamsSorted(c: Config, name: string)
    requires Named(c)
    ensures var ps := CategoryParams(c, name);
      && Seqs.Distinct(ps)
      && (forall a, b :: 0 <= a < b < |ps| ==>
            ps[a] < |c.parameters| && ps[b] < |c.parameters| &&
            Before((c.parameters[ps[a]].1["Name"], ps[a]), (c.parameters[ps[b]].1["Name"], ps[b])))
  {
    var named := ParamNames(c);
    var sorted := Sort(Members(c, name));
    var ps := CategoryParams(c, name);
    forall a, b | 0 <= a < b < |ps|
      ensures ps[a] != ps[b]
    {
      assert sorted[a] in sorted && sorted[b] in sorted;
      BeforeOrder(sorted[a], sorted[b], sorted[a]);
    }
    forall a, b | 0 <= a < b < |ps|
      ensures ps[a] < |c.parameters| && ps[b] < |c.parameters|
      ensures Before((c.parameters[ps[a]].1["Name"], ps[a]), (c.parameters[ps[b]].1["Name"], ps[b]))
    {
      assert sorted[a] in sorted && sorted[b] in sorted;
    }
  }

  /** Each category lists exactly the parameters whose Category names it,
      once each, ordered by Name with ties in table order. */
  lemma LayoutGroupsParameters(c: Config, i: nat)
    requires Named(c) && i < |CategoryLayout(c)|
    ensures var e := CategoryLayout(c)[i];
      && (forall j: nat :: j in e.params <==> j < |c.parameters| && c.parameters[j].1["Category"] == e.name)
      && Seqs.Distinct(e.params)
      && (forall a, b :: 0 <= a < b < |e.params| ==>
            e.params[a] < |c.parameters| && e.params[b] < |c.parameters| &&
            Before((c.parameters[e.params[a]].1["Name"], e.params[a]), (c.parameters[e.params[b]].1["Name"], e.params[b])))
  {
    var e := CategoryLayout(c)[i];
    assert e.params == CategoryParams(c, e.name);
    CategoryParamsMembers(c, e.name);
    CategoryParamsSorted(c, e.name);
  }

  /** max() of a list; None where Python raises ValueError on an empty one. */
  function MaxOf(s: seq<int>): (r: Option<int>)
    ensures r.None? <==> s == []
    ensures r.Some? ==> forall i :: 0 <= i < |s| ==> s[i] <= r.value
    ensures r.Some? ==> exists i :: 0 <= i < |s| && s[i] == r.value
  {
    if s == [] then None
    else match MaxOf(s[..|s| - 1])
      case None => Some(s[0])
      case Some(m) => if s[|s| - 1] > m then Some(s[|s| - 1]) else Some(m)
  }

  function PlusOne(m: Option<int>): Option<int> {
    if m.None? then None else Some(m.value + 1)
  }

  function CategoryNameLengths(c: Config): (r: seq<int>)
    requires Named(c)
    ensures |r| == |c.categories|
    ensures forall i :: 0 <= i < |r| ==> r[i] == |c.categories[i].0.value|
  {
    seq(|c.categories|, i requires 0 <= i < |c.categories| => |c.categories[i].0.value|)
  }

  /** PARAM_CATEGORY_NAME_MAX_LEN: the longest category name plus the
      terminating NUL; None when there is no category. */
  function CategoryNameMaxLen(c: Config): (r: Option<int>)
    requires Named(c)
    ensures r.None? <==> c.categories == []
    ensures r.Some? ==> forall i :: 0 <= i < |c.categories| ==> |c.categories[i].0.value| < r.value
    ensures r.Some? ==> exists i :: 0 <= i < |c.categories| && |c.categories[i].0.value| + 1 == r.value
  {
    var m := MaxOf(CategoryNameLengths(c));
    PlusOne(m)
  }

  predicate Described(c: Config) {
    forall i :: 0 <= i < |c.parameters| ==> "Description" in c.parameters[i].1
  }

  function AttributeLengths(c: Config, attr: string): (r: seq<int>)
    requires forall i :: 0 <= i < |c.parameters| ==> attr in c.parameters[i].1
    ensures |r| == |c.parameters|
    ensures forall i :: 0 <= i < |r| ==> r[i] == |c.parameters[i].1[attr]|
  {
    seq(|c.parameters|, i requires 0 <= i < |c.parameters| => |c.parameters[i].1[attr]|)
  }

  /** PARAM_NAME_MAX_LEN: the longest parameter Name plus the NUL. */
  function ParamNameMaxLen(c: Config): (r: Option<int>)
    requires Named(c)
    ensures r.None? <==> c.parameters == []
    ensures r.Some? ==> forall i :: 0 <= i < |c.parameters| ==> |c.parameters[i].1["Name"]| < r.value
    ensures r.Some? ==> exists i :: 0 <= i < |c.parameters| && |c.parameters[i].1["Name"]| + 1 == r.value
  {
    PlusOne(MaxOf(AttributeLengths(c, "Name")))
  }

  /** PARAM_DESC_MAX_LEN: the longest Description plus the NUL. */
  function ParamDescMaxLen(c: Config): (r: Option<int>)
    requires Described(c)
    ensures r.None? <==> c.parameters == []
    ensures r.Some? ==> forall i :: 0 <= i < |c.parameters| ==> |c.parameters[i].1["Description"]| < r.value
    ensures r.Some? ==> exists i :: 0 <= i < |c.parameters| && |c.parameters[i].1["Description"]| + 1 == r.value
  {
    PlusOne(MaxOf(AttributeLengths(c, "Description")))
  }

  /** Enum member names are present (len(None) raises a TypeError). */
  predicate MembersNamed(c: Config) {
    forall i, j :: 0 <= i < |c.enums| && 0 <= j < |c.enums[i].1| ==> c.enums[i].1[j].0.Some?
  }

  /** Every enum member name, enum by enum. */
  function MemberNames(enums: seq<(Key, Dict)>): seq<string>
    requires forall i, j :: 0 <= i < |enums| && 0 <= j < |enums[i].1| ==> enums[i].1[j].0.Some?
  {
    if enums == [] then []
    else
      var d := enums[0].1;
      assert forall i, j :: 1 <= i < |enums| && 0 <= j < |enums[i].1| ==> enums[i].1[j] == enums[1..][i - 1].1[j];
      seq(|d|, j requires 0 <= j < |d| => d[j].0.value) + MemberNames(enums[1..])
  }

  /** MemberNames holds every member name. */
  lemma {:induction false} MemberNamesAll(enums: seq<(Key, Dict)>, i: nat, j: nat)
    requires forall i, j :: 0 <= i < |enums| && 0 <= j < |enums[i].1| ==> enums[i].1[j].0.Some?
    requires i < |enums| && j < |enums[i].1|
    ensures enums[i].1[j].0.value in MemberNames(enums)
    decreases i
  {
    var d := enums[0].1;
    var first := seq(|d|, j requires 0 <= j < |d| => d[j].0.value);
    assert MemberNames(enums) == first + MemberNames(enums[1..]);
    if i == 0 {
      assert first[j] == enums[i].1[j].0.value;
    } else {
      assert enums[i].1[j] == enums[1..][i - 1].1[j];
      MemberNamesAll(enums[1..], i - 1, j);
    }
  }

  /** MemberNames holds nothing but member names. */
  lemma {:induction false} MemberNamesOnly(enums: seq<(Key, Dict)>, n: string)
    requires forall i, j :: 0 <= i < |enums| && 0 <= j < |enums[i].1| ==> enums[i].1[j].0.Some?
    requires n in MemberNames(enums)
    ensures exists i, j :: 0 <= i < |enums| && 0 <= j < |enums[i].1| && enums[i].1[j].0 == Some(n)
    decreases |enums|
  {
    var d := enums[0].1;
    var first := seq(|d|, j requires 0 <= j < |d| => d[j].0.value);
    assert MemberNames(enums) == first + MemberNames(enums[1..]);
    if n in first {
      var j :| 0 <= j < |d| && first[j] == n;
      assert enums[0].1[j].0 == Some(n);
    } else {
      assert forall i, j :: 1 <= i < |enums| && 0 <= j < |enums[i].1| ==> enums[i].1[j] == enums[1..][i - 1].1[j];
      MemberNamesOnly(enums[1..], n);
      var i, j :| 0 <= i < |enums[1..]| && 0 <= j < |enums[1..][i].1| && enums[1..][i].1[j].0 == Some(n);
      assert enums[i + 1].1[j].0 == Some(n);
    }
  }

  function Lengths(names: seq<string>): (r: seq<int>)
    ensures |r| == |names|
    ensures forall k :: 0 <= k < |names| ==> r[k] == |names[k]|
  {
    seq(|names|, k requires 0 <= k < |names| => |names[k]|)
  }

  /** PARAM_VALUE_STRING_MAX_LEN: the longer of ten characters (a uint32)
      and every enum member name, plus a decimal point and the NUL. */
  function ValueStringMaxLen(c: Config): (r: int)
    requires MembersNamed(c)
    ensures r >= 12
    ensures forall k :: 0 <= k < |MemberNames(c.enums)| ==> |MemberNames(c.enums)[k]| + 2 <= r
  {
    var names := MemberNames(c.enums);
    var lengths := [10] + Lengths(names);
    var m := MaxOf(lengths);
    assert lengths[0] == 10;
    assert forall k :: 0 <= k < |names| ==> lengths[k + 1] == |names[k]|;
    m.value + 2
  }

  /** The value-string length is exactly what the longest member name (or a
      ten-digit number) needs. */
  lemma ValueStringMaxLenAttained(c: Config)
    requires MembersNamed(c)
    ensures forall i, j :: 0 <= i < |c.enums| && 0 <= j < |c.enums[i].1| ==>
      |c.enums[i].1[j].0.value| + 2 <= ValueStringMaxLen(c)
    ensures ValueStringMaxLen(c) == 12 || exists i, j :: (0 <= i < |c.enums| && 0 <= j < |c.enums[i].1| &&
      |c.enums[i].1[j].0.value| + 2 == ValueStringMaxLen(c))
  {
    ValueStringMaxLenBounds(c);
    var names := MemberNames(c.enums);
    var lengths := [10] + Lengths(names);
    var m := MaxOf(lengths).value;
    assert ValueStringMaxLen(c) == m + 2;
    var k :| 0 <= k < |lengths| && lengths[k] == m;
    if k > 0 {
      assert names[k - 1] in names;
      MemberNamesOnly(c.enums, names[k - 1]);
      var i, j :| 0 <= i < |c.enums| && 0 <= j < |c.enums[i].1| && c.enums[i].1[j].0 == Some(names[k - 1]);
      assert |c.enums[i].1[j].0.value| + 2 == ValueStringMaxLen(c);
    }
  }

  /** Every enum member name fits the value string. */
  lemma ValueStringMaxLenBounds(c: Config)
    requires MembersNamed(c)
    ensures forall i, j :: 0 <= i < |c.enums| && 0 <= j < |c.enums[i].1| ==>
      |c.enums[i].1[j].0.value| + 2 <= ValueStringMaxLen(c)
  {
    var names := MemberNames(c.enums);
    forall i, j | 0 <= i < |c.enums| && 0 <= j < |c.enums[i].1|
      ensures |c.enums[i].1[j].0.value| + 2 <= ValueStringMaxLen(c)
    {
      MemberNamesAll(c.enums, i, j);
      var k :| 0 <= k < |names| && names[k] == c.enums[i].1[j].0.value;
    }
  }

  function Counts(layout: seq<CategoryEntry>): (r: seq<int>)
    ensures |r| == |layout|
    ensures forall i :: 0 <= i < |layout| ==> r[i] == |layout[i].params|
  {
    seq(|layout|, i requires 0 <= i < |layout| => |layout[i].params|)
  }

  /** PARAM_MAX_NUM_PARAMS_IN_CATEGORY: the largest n_params. */
  function MaxParamsInCategory(layout: seq<CategoryEntry>): (r: Option<int>)
    ensures r.None? <==> layout == []
    ensures r.Some? ==> forall i :: 0 <= i < |layout| ==> |layout[i].params| <= r.value
    ensures r.Some? ==> exists i :: 0 <= i < |layout| && |layout[i].params| == r.value
  {
    MaxOf(Counts(layout))
  }
}
