/** The validation half of the parameters generator
    (codegenerators/parameters.py, Configuration): the declared access
    levels, categories, units and enums, the parameters, and the rules a
    configuration must satisfy before any code is generated. A raised
    RuntimeError or KeyError is a ConfigError. */
module ParametersConfig {
  import opened Wrappers
  import opened XmlTree
  import PyText
  import Seqs

  /** Keys and values both unique: the dict is a one-to-one map. */
  predicate DictOk(d: Dict) {
    Seqs.Distinct(Keys(d)) && Seqs.Distinct(Values(d))
  }

  /** The exceptions Configuration.read raises. */
  datatype ConfigError =
    | DuplicateAttribute(elementName: string, attribute: string, value: Key)
    | DuplicateEnum(name: Key)
    | DuplicateParameterId(id: Key)
    | MissingDefault(id: Key)
    | UnknownCategory(id: Key, category: string)
    | UnknownAccessLevel(id: Key, accessLevel: string)
    | UnknownUnit(id: Key, unit: string)
    | MissingForUnit(id: Key, attribute: string)
    | ExponentNotInteger(id: Key, exponent: string)
    | PartialUnitAttributes(id: Key)
    | MinNotInteger(id: Key, minimum: string)
    | MaxNotInteger(id: Key, maximum: string)
    | MaxNotAboveMin(id: Key, minimum: string, maximum: string)
    | UnknownType(id: Key, typeName: string)
    | KeyError(key: string)

  /** The five dicts of a Configuration. */
  datatype Config = Config(accessLevels: Dict, categories: Dict, units: Dict,
                           enums: seq<(Key, Dict)>, parameters: seq<(Key, map<string, string>)>)

  /** A fresh Configuration(). */
  const Empty := Config([], [], [], [], [])

  /** The (key, value) attribute pairs of the elements. */
  function Pairs(elems: seq<Element>, keyAttr: string, valueAttr: string): (ps: Dict)
    ensures |ps| == |elems|
    ensures forall i :: 0 <= i < |elems| ==> ps[i] == (Get(elems[i], keyAttr), Get(elems[i], valueAttr))
  {
    seq(|elems|, i requires 0 <= i < |elems| => (Get(elems[i], keyAttr), Get(elems[i], valueAttr)))
  }

  /** One iteration of _elements_to_unique_key_value_dict: the key is
      checked against the keys, then the value against the values. */
  function PairStep(elementName: string, keyAttr: string, valueAttr: string)
    : (Dict, (Key, Key)) -> (Dict, Option<ConfigError>)
  {
    (d: Dict, p: (Key, Key)) =>
      if p.0 in Keys(d) then (d, Some(DuplicateAttribute(elementName, keyAttr, p.0)))
      else if p.1 in Values(d) then (d, Some(DuplicateAttribute(elementName, valueAttr, p.1)))
      else (d + [p], None)
  }

  function UniqueKeyValueDict(tree: Element, elementName: string, keyAttr: string, valueAttr: string)
    : Result<Dict, ConfigError>
  {
    var r := Seqs.Run([], Pairs(Iter(tree, elementName), keyAttr, valueAttr), PairStep(elementName, keyAttr, valueAttr));
    if r.1.Some? then Err(r.1.value) else Ok(r.0)
  }

  lemma {:induction false} PairRun(ps: Dict, elementName: string, keyAttr: string, valueAttr: string)
    ensures var r := Seqs.Run([], ps, PairStep(elementName, keyAttr, valueAttr));
      && (r.1.None? <==> DictOk(ps))
      && (r.1.None? ==> r.0 == ps)
    decreases |ps|
  {
    if ps != [] {
      var init, p := ps[..|ps| - 1], ps[|ps| - 1];
      assert ps == init + [p];
      PairRun(init, elementName, keyAttr, valueAttr);
      Seqs.RunSnoc([], init, p, PairStep(elementName, keyAttr, valueAttr));
      assert Keys(ps) == Keys(init) + [p.0];
      assert Values(ps) == Values(init) + [p.1];
      Seqs.DistinctSnoc(Keys(init), p.0);
      Seqs.DistinctSnoc(Values(init), p.1);
    }
  }

  /** The dict is built exactly when no key and no value repeats, and it
      then holds every element's pair in document order. */
  lemma UniqueKeyValueDictInjective(tree: Element, elementName: string, keyAttr: string, valueAttr: string)
    ensures var ps := Pairs(Iter(tree, elementName), keyAttr, valueAttr);
      var r := UniqueKeyValueDict(tree, elementName, keyAttr, valueAttr);
      && (r.Ok? <==> DictOk(ps))
      && (r.Ok? ==> r.value == ps)
  {
    PairRun(Pairs(Iter(tree, elementName), keyAttr, valueAttr), elementName, keyAttr, valueAttr);
  }

  /** Configuration._elements_to_unique_key_value_dict. */
  method ElementsToUniqueKeyValueDict(tree: Element, elementName: string, keyAttr: string, valueAttr: string)
    returns (r: Result<Dict, ConfigError>)
    ensures r == UniqueKeyValueDict(tree, elementName, keyAttr, valueAttr)
  {
    var elems := Iter(tree, elementName);
    ghost var ps := Pairs(elems, keyAttr, valueAttr);
    ghost var step := PairStep(elementName, keyAttr, valueAttr);
    var d: Dict := [];
    var i := 0;
    while i < |elems|
      invariant 0 <= i <= |elems|
      invariant Seqs.Run([], ps[..i], step) == (d, None)
    {
      var key := Get(elems[i], keyAttr);
      var value := Get(elems[i], valueAttr);
      Seqs.RunNext([], ps, i, step);
      if key in Keys(d) {
        Seqs.RunStopped([], ps, i + 1, step);
        return Err(DuplicateAttribute(elementName, keyAttr, key));
      }
      if value in Values(d) {
        Seqs.RunStopped([], ps, i + 1, step);
        return Err(DuplicateAttribute(elementName, valueAttr, value));
      }
      d := d + [(key, value)];
      i := i + 1;
    }
    Seqs.RunAll([], ps, step);
    r := Ok(d);
  }

  /** One Enum element: its name must be new, and its EnumValue members
      form a one-to-one Name/Value dict. */
  function EnumStep(enums: seq<(Key, Dict)>, e: Element): (seq<(Key, Dict)>, Option<ConfigError>) {
    var name := Get(e, "Name");
    if name in Keys(enums) then (enums, Some(DuplicateEnum(name)))
    else match UniqueKeyValueDict(e, "EnumValue", "Name", "Value")
      case Err(x) => (enums, Some(x))
      case Ok(d) => (enums + [(name, d)], None)
  }

  /** One Parameter element: its Id must be new; all its attributes are kept. */
  function ParamStep(params: seq<(Key, map<string, string>)>, e: Element)
    : (seq<(Key, map<string, string>)>, Option<ConfigError>)
  {
    var id := Get(e, "Id");
    if id in Keys(params) then (params, Some(DuplicateParameterId(id))) else (params + [(id, e.attrib)], None)
  }

  const IntegerTypes: seq<string> := ["uint8_t", "uint16_t", "int8_t", "int16_t", "int32_t"]

  /** The validation of one parameter's attributes, in the order the checks
      are made; the first that fails decides the error. */
  function CheckParameter(c: Config, id: Key, a: map<string, string>): Option<ConfigError> {
    if "Default" !in a then Some(MissingDefault(id))
    else if "Category" !in a then Some(KeyError("Category"))
    else if Some(a["Category"]) !in Keys(c.categories) then Some(UnknownCategory(id, a["Category"]))
    else if "AccessLevel" !in a then Some(KeyError("AccessLevel"))
    else if Some(a["AccessLevel"]) !in Keys(c.accessLevels) then Some(UnknownAccessLevel(id, a["AccessLevel"]))
    else if "Unit" in a && Some(a["Unit"]) !in Keys(c.units) then Some(UnknownUnit(id, a["Unit"]))
    else if "Unit" in a && "Exponent" !in a then Some(MissingForUnit(id, "Exponent"))
    else if "Unit" in a && "Min" !in a then Some(MissingForUnit(id, "Min"))
    else if "Unit" in a && "Max" !in a then Some(MissingForUnit(id, "Max"))
    else if "Unit" in a && PyText.ParseInt(a["Exponent"]).None? then Some(ExponentNotInteger(id, a["Exponent"]))
    else if "Unit" !in a && ("Min" in a || "Max" in a || "Exponent" in a) then Some(PartialUnitAttributes(id))
    else if "Type" !in a then Some(KeyError("Type"))
    else if a["Type"] in IntegerTypes then
      if "Min" !in a then Some(KeyError("Min"))
      else if PyText.ParseInt(a["Min"]).None? then Some(MinNotInteger(id, a["Min"]))
      else if "Max" !in a then Some(KeyError("Max"))
      else if PyText.ParseInt(a["Max"]).None? then Some(MaxNotInteger(id, a["Max"]))
      else if PyText.ParseInt(a["Max"]).value <= PyText.ParseInt(a["Min"]).value then
        Some(MaxNotAboveMin(id, a["Min"], a["Max"]))
      else None
    else if Some(a["Type"]) !in Keys(c.enums) then Some(UnknownType(id, a["Type"]))
    else None
  }

  /** The rules a parameter must satisfy, stated independently of the order
      in which they are checked. */
  predicate ParamOk(c: Config, a: map<string, string>) {
    && "Default" in a
    && "Category" in a && Some(a["Category"]) in Keys(c.categories)
    && "AccessLevel" in a && Some(a["AccessLevel"]) in Keys(c.accessLevels)
    && ("Unit" in a ==>
          && Some(a["Unit"]) in Keys(c.units)
          && "Exponent" in a && "Min" in a && "Max" in a
          && PyText.ParseInt(a["Exponent"]).Some?)
    && ("Unit" !in a ==> "Min" !in a && "Max" !in a && "Exponent" !in a)
    && "Type" in a
    && (a["Type"] in IntegerTypes ==>
          && "Min" in a && "Max" in a
          && PyText.ParseInt(a["Min"]).Some? && PyText.ParseInt(a["Max"]).Some?
          && PyText.ParseInt(a["Min"]).value < PyText.ParseInt(a["Max"]).value)
    && (a["Type"] !in IntegerTypes ==> Some(a["Type"]) in Keys(c.enums))
  }

  /** The checks accept a parameter exactly when it satisfies the rules. */
  lemma CheckParameterAccepts(c: Config, id: Key, a: map<string, string>)
    ensures CheckParameter(c, id, a).None? <==> ParamOk(c, a)
  {
  }

  /** The rules force an integer parameter to carry a Unit, and its bounds
      to be integers with Min strictly below Max. */
  lemma IntegerParamsHaveUnits(c: Config, id: Key, a: map<string, string>)
    requires CheckParameter(c, id, a).None?
    requires "Type" in a && a["Type"] in IntegerTypes
    ensures "Unit" in a && Some(a["Unit"]) in Keys(c.units)
    ensures PyText.ParseInt(a["Min"]).Some? && PyText.ParseInt(a["Max"]).Some?
    ensures PyText.ParseInt(a["Min"]).value < PyText.ParseInt(a["Max"]).value
  {
    CheckParameterAccepts(c, id, a);
  }

  /** An integer parameter without Unit, Min, Max and Exponent passes every
      RuntimeError check and then fails on the missing Min with a KeyError. */
  lemma IntegerWithoutUnitIsKeyError(c: Config, id: Key, a: map<string, string>)
    requires "Default" in a
    requires "Category" in a && Some(a["Category"]) in Keys(c.categories)
    requires "AccessLevel" in a && Some(a["AccessLevel"]) in Keys(c.accessLevels)
    requires "Unit" !in a && "Min" !in a && "Max" !in a && "Exponent" !in a
    requires "Type" in a && a["Type"] in IntegerTypes
    ensures CheckParameter(c, id, a) == Some(KeyError("Min"))
  {
  }

  predicate Fails(c: Config, p: (Key, map<string, string>)) {
    CheckParameter(c, p.0, p.1).Some?
  }

  function FailsIn(c: Config): ((Key, map<string, string>)) -> bool {
    p => Fails(c, p)
  }

  /** The validation loop: the parameters in insertion order, the first
      failing check raising. */
  function Validate(c: Config): (r: Option<ConfigError>)
    ensures r.None? <==> forall i :: 0 <= i < |c.parameters| ==> !Fails(c, c.parameters[i])
  {
    match Seqs.First(c.parameters, FailsIn(c))
    case None => None
    case Some(k) => CheckParameter(c, c.parameters[k].0, c.parameters[k].1)
  }

  /** The validation raises the error of the first parameter that fails. */
  lemma ValidateRaisesFirst(c: Config, k: nat)
    requires k < |c.parameters| && Fails(c, c.parameters[k])
    requires forall j :: 0 <= j < k ==> !Fails(c, c.parameters[j])
    ensures Validate(c) == CheckParameter(c, c.parameters[k].0, c.parameters[k].1)
  {
    Seqs.FirstIs(c.parameters, FailsIn(c), k);
  }

  /** Configuration.read on a configuration in state c: the state it leaves
      and the exception it raises, if any. A stage that raises leaves the
      dicts of the earlier stages assigned. */
  function ReadSpec(c: Config, root: Element): (Config, Option<ConfigError>) {
    match UniqueKeyValueDict(root, "AccessLevel", "Name", "Id")
    case Err(e) => (c, Some(e))
    case Ok(levels) =>
      var c1 := c.(accessLevels := levels);
      match UniqueKeyValueDict(root, "Category", "Name", "Id")
      case Err(e) => (c1, Some(e))
      case Ok(cats) =>
        var c2 := c1.(categories := cats);
        match UniqueKeyValueDict(root, "Unit", "Name", "Id")
        case Err(e) => (c2, Some(e))
        case Ok(units) =>
          var c3 := c2.(units := units);
          var enums := Seqs.Run(c3.enums, Iter(root, "Enum"), EnumStep);
          var c4 := c3.(enums := enums.0);
          if enums.1.Some? then (c4, enums.1)
          else
            var params := Seqs.Run(c4.parameters, Iter(root, "Parameter"), ParamStep);
            var c5 := c4.(parameters := params.0);
            if params.1.Some? then (c5, params.1) else (c5, Validate(c5))
  }

  /** What a successful read from a fresh configuration holds: every
      attribute pair, enum and parameter of the document in order. */
  function EnumsOf(elems: seq<Element>): (r: seq<(Key, Dict)>)
    ensures |r| == |elems|
    ensures forall i :: 0 <= i < |elems| ==>
      r[i] == (Get(elems[i], "Name"), Pairs(Iter(elems[i], "EnumValue"), "Name", "Value"))
  {
    seq(|elems|, i requires 0 <= i < |elems| =>
      (Get(elems[i], "Name"), Pairs(Iter(elems[i], "EnumValue"), "Name", "Value")))
  }

  function ParamsOf(elems: seq<Element>): (r: seq<(Key, map<string, string>)>)
    ensures |r| == |elems|
    ensures forall i :: 0 <= i < |elems| ==> r[i] == (Get(elems[i], "Id"), elems[i].attrib)
  {
    seq(|elems|, i requires 0 <= i < |elems| => (Get(elems[i], "Id"), elems[i].attrib))
  }

  function Built(root: Element): Config {
    Config(Pairs(Iter(root, "AccessLevel"), "Name", "Id"),
           Pairs(Iter(root, "Category"), "Name", "Id"),
           Pairs(Iter(root, "Unit"), "Name", "Id"),
           EnumsOf(Iter(root, "Enum")),
           ParamsOf(Iter(root, "Parameter")))
  }

  /** The rules of a valid configuration. */
  predicate ValidConfig(c: Config) {
    && DictOk(c.accessLevels) && DictOk(c.categories) && DictOk(c.units)
    && Seqs.Distinct(Keys(c.enums))
    && EnumsOk(c.enums)
    && Seqs.Distinct(Keys(c.parameters))
    && (forall i :: 0 <= i < |c.parameters| ==> ParamOk(c, c.parameters[i].1))
  }

  /** Every enum's member dict is one-to-one. */
  predicate EnumsOk(enums: seq<(Key, Dict)>) {
    forall i :: 0 <= i < |enums| ==> DictOk(enums[i].1)
  }

  lemma EnumsOkSnoc(enums: seq<(Key, Dict)>, x: (Key, Dict))
    ensures EnumsOk(enums + [x]) <==> EnumsOk(enums) && DictOk(x.1)
  {
    assert forall i :: 0 <= i < |enums| ==> (enums + [x])[i] == enums[i];
    assert (enums + [x])[|enums|] == x;
  }

  lemma {:induction false} EnumRun(elems: seq<Element>)
    ensures var r := Seqs.Run([], elems, EnumStep);
      && (r.1.None? <==> Seqs.Distinct(Keys(EnumsOf(elems))) && EnumsOk(EnumsOf(elems)))
      && (r.1.None? ==> r.0 == EnumsOf(elems))
    decreases |elems|
  {
    if elems != [] {
      var init, e := elems[..|elems| - 1], elems[|elems| - 1];
      assert elems == init + [e];
      EnumRun(init);
      Seqs.RunSnoc([], init, e, EnumStep);
      EnumsOfSnoc(elems);
      Seqs.DistinctSnoc(Keys(EnumsOf(init)), Get(e, "Name"));
      UniqueKeyValueDictInjective(e, "EnumValue", "Name", "Value");
      EnumsOkSnoc(EnumsOf(init), (Get(e, "Name"), Pairs(Iter(e, "EnumValue"), "Name", "Value")));
    }
  }

  lemma EnumsOfSnoc(elems: seq<Element>)
    requires elems != []
    ensures var init, e := elems[..|elems| - 1], elems[|elems| - 1];
      && EnumsOf(elems) == EnumsOf(init) + [(Get(e, "Name"), Pairs(Iter(e, "EnumValue"), "Name", "Value"))]
      && Keys(EnumsOf(elems)) == Keys(EnumsOf(init)) + [Get(e, "Name")]
  {
    var init := elems[..|elems| - 1];
    assert forall i :: 0 <= i < |init| ==> init[i] == elems[i];
    assert EnumsOf(elems) == EnumsOf(init) + [EnumsOf(elems)[|init|]];
  }

  lemma {:induction false} ParamRun(elems: seq<Element>)
    ensures var r := Seqs.Run([], elems, ParamStep);
      && (r.1.None? <==> Seqs.Distinct(Keys(ParamsOf(elems))))
      && (r.1.None? ==> r.0 == ParamsOf(elems))
    decreases |elems|
  {
    if elems != [] {
      var init, e := elems[..|elems| - 1], elems[|elems| - 1];
      assert elems == init + [e];
      ParamRun(init);
      Seqs.RunSnoc([], init, e, ParamStep);
      var built := ParamsOf(elems);
      assert built == ParamsOf(init) + [built[|init|]];
      assert Keys(built) == Keys(ParamsOf(init)) + [Get(e, "Id")];
      Seqs.DistinctSnoc(Keys(ParamsOf(init)), Get(e, "Id"));
    }
  }

  /** The validation passes exactly when every parameter satisfies the
      rules. */
  lemma ValidateAccepts(c: Config)
    ensures Validate(c).None? <==> forall i :: 0 <= i < |c.parameters| ==> ParamOk(c, c.parameters[i].1)
  {
    forall i | 0 <= i < |c.parameters|
      ensures !Fails(c, c.parameters[i]) <==> ParamOk(c, c.parameters[i].1)
    {
      CheckParameterAccepts(c, c.parameters[i].0, c.parameters[i].1);
    }
  }

  /** Read into a fresh configuration as its stages: each stage that
      raises leaves the error, and when none does the configuration holds
      the whole document and the validation decides. */
  lemma ReadStages(root: Element)
    ensures var b := Built(root);
      var r := ReadSpec(Empty, root);
      && ((!DictOk(b.accessLevels) || !DictOk(b.categories) || !DictOk(b.units)
           || Seqs.Run([], Iter(root, "Enum"), EnumStep).1.Some?
           || Seqs.Run([], Iter(root, "Parameter"), ParamStep).1.Some?) ==> r.1.Some?)
      && ((DictOk(b.accessLevels) && DictOk(b.categories) && DictOk(b.units)
           && Seqs.Run([], Iter(root, "Enum"), EnumStep).1.None?
           && Seqs.Run([], Iter(root, "Parameter"), ParamStep).1.None?) ==> r == (b, Validate(b)))
  {
    UniqueKeyValueDictInjective(root, "AccessLevel", "Name", "Id");
    UniqueKeyValueDictInjective(root, "Category", "Name", "Id");
    UniqueKeyValueDictInjective(root, "Unit", "Name", "Id");
    EnumRun(Iter(root, "Enum"));
    ParamRun(Iter(root, "Parameter"));
  }

  /** Reading a document into a fresh configuration succeeds exactly when
      the document, taken as a whole, satisfies the rules, and the
      configuration then holds the whole document. */
  lemma ReadAcceptsValid(root: Element)
    ensures ReadSpec(Empty, root).1.None? <==> ValidConfig(Built(root))
    ensures ReadSpec(Empty, root).1.None? ==> ReadSpec(Empty, root).0 == Built(root)
  {
    ReadStages(root);
    EnumRun(Iter(root, "Enum"));
    ParamRun(Iter(root, "Parameter"));
    ValidateAccepts(Built(root));
  }

  /** The parser state of Configuration: the five dicts it fills. */
  class Configuration {
    var accessLevels: Dict
    var categories: Dict
    var units: Dict
    var enums: seq<(Key, Dict)>
    var parameters: seq<(Key, map<string, string>)>

    function State(): Config
      reads this
    {
      Config(accessLevels, categories, units, enums, parameters)
    }

    constructor ()
      ensures State() == Empty
    {
      accessLevels, categories, units, enums, parameters := [], [], [], [], [];
    }

    /** Configuration.read on an already parsed document. */
    method Read(root: Element) returns (err: Option<ConfigError>)
      modifies this
      ensures (State(), err) == ReadSpec(old(State()), root)
    {
      var r := ElementsToUniqueKeyValueDict(root, "AccessLevel", "Name", "Id");
      if r.Err? {
        return Some(r.error);
      }
      accessLevels := r.value;
      r := ElementsToUniqueKeyValueDict(root, "Category", "Name", "Id");
      if r.Err? {
        return Some(r.error);
      }
      categories := r.value;
      r := ElementsToUniqueKeyValueDict(root, "Unit", "Name", "Id");
      if r.Err? {
        return Some(r.error);
      }
      units := r.value;
      err := ReadEnums(root);
      if err.Some? {
        return;
      }
      err := ReadParameters(root);
      if err.Some? {
        return;
      }
      err := ValidateParameters();
    }

    /** The loop over the Enum elements. */
    method ReadEnums(root: Element) returns (err: Option<ConfigError>)
      modifies this
      ensures (enums, err) == Seqs.Run(old(enums), Iter(root, "Enum"), EnumStep)
      ensures accessLevels == old(accessLevels) && categories == old(categories)
      ensures units == old(units) && parameters == old(parameters)
    {
      var elems := Iter(root, "Enum");
      var i := 0;
      while i < |elems|
        invariant 0 <= i <= |elems|
        invariant Seqs.Run(old(enums), elems[..i], EnumStep) == (enums, None)
        invariant accessLevels == old(accessLevels) && categories == old(categories)
        invariant units == old(units) && parameters == old(parameters)
      {
        var e := elems[i];
        Seqs.RunNext(old(enums), elems, i, EnumStep);
        var name := Get(e, "Name");
        if name in Keys(enums) {
          Seqs.RunStopped(old(enums), elems, i + 1, EnumStep);
          return Some(DuplicateEnum(name));
        }
        var d := ElementsToUniqueKeyValueDict(e, "EnumValue", "Name", "Value");
        if d.Err? {
          Seqs.RunStopped(old(enums), elems, i + 1, EnumStep);
          return Some(d.error);
        }
        enums := enums + [(name, d.value)];
        i := i + 1;
      }
      Seqs.RunAll(old(enums), elems, EnumStep);
      err := None;
    }

    /** The loop over the Parameter elements. */
    method ReadParameters(root: Element) returns (err: Option<ConfigError>)
      modifies this
      ensures (parameters, err) == Seqs.Run(old(parameters), Iter(root, "Parameter"), ParamStep)
      ensures accessLevels == old(accessLevels) && categories == old(categories)
      ensures units == old(units) && enums == old(enums)
    {
      var elems := Iter(root, "Parameter");
      var i := 0;
      while i < |elems|
        invariant 0 <= i <= |elems|
        invariant Seqs.Run(old(parameters), elems[..i], ParamStep) == (parameters, None)
        invariant accessLevels == old(accessLevels) && categories == old(categories)
        invariant units == old(units) && enums == old(enums)
      {
        var e := elems[i];
        Seqs.RunNext(old(parameters), elems, i, ParamStep);
        var id := Get(e, "Id");
        if id in Keys(parameters) {
          Seqs.RunStopped(old(parameters), elems, i + 1, ParamStep);
          return Some(DuplicateParameterId(id));
        }
        parameters := parameters + [(id, e.attrib)];
        i := i + 1;
      }
      Seqs.RunAll(old(parameters), elems, ParamStep);
      err := None;
    }

    /** The parameter validation loop. */
    method ValidateParameters() returns (err: Option<ConfigError>)
      ensures err == Validate(State())
    {
      var i := 0;
      while i < |parameters|
        invariant 0 <= i <= |parameters|
        invariant forall j :: 0 <= j < i ==> !Fails(State(), parameters[j])
      {
        var check := CheckParameter(State(), parameters[i].0, parameters[i].1);
        if check.Some? {
          ValidateRaisesFirst(State(), i);
          return check;
        }
        i := i + 1;
      }
      err := None;
    }
  }
}
