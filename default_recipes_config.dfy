/** The default-recipe generator (codegenerators/default_recipes.py): the
    Configuration that reads the built-in recipes and their translated
    names from the parsed document, and the per-language name setters the
    SourceGenerator derives from it. Timer values stay the attribute text
    they are read as; a missing attribute is None. */
module DefaultRecipesConfig {
  import opened Wrappers
  import opened XmlTree
  import Seqs

  const ValidTypes: seq<string> := ["IR", "UV", "3StepIR", "UVIR", "UVLED"]

  /** The text every timer slot starts with. */
  const Zero: Key := Some("0")

  const English: Key := Some("EN")

  /** The Recipe dataclass; `names` is the dict from language to name. */
  datatype Recipe = Recipe(id: nat, defaultName: Key, names: Dict, kind: string,
                           pyroOffTime: seq<Key>, pyroOffPower: seq<Key>,
                           pyroOnTime: seq<Key>, pyroOnRise: seq<Key>, pyroOnTemp: seq<Key>,
                           uvTime: Key)

  /** The RuntimeErrors Configuration.read raises. */
  datatype RecipeError =
    | DuplicateRecipe(name: Key)
    | InvalidType(name: Key, kind: Key)
    | MissingElement(name: Key, element: TimerElement)
    | DuplicateLanguage(lang: Key)

  /** The child elements that carry timer values, and their tags. */
  datatype TimerElement = PyroOnTimer1 | PyroOnTimer2 | PyroOnTimer3 | PyroOffTimer1 | PyroOffTimer2 | UvTimer

  function Tag(t: TimerElement): string {
    match t
    case PyroOnTimer1 => "PyroOnTimer1"
    case PyroOnTimer2 => "PyroOnTimer2"
    case PyroOnTimer3 => "PyroOnTimer3"
    case PyroOffTimer1 => "PyroOffTimer1"
    case PyroOffTimer2 => "PyroOffTimer2"
    case UvTimer => "UV"
  }

  /** The timer lists of one recipe. */
  datatype Timers = Timers(offTime: seq<Key>, offPower: seq<Key>,
                           onTime: seq<Key>, onRise: seq<Key>, onTemp: seq<Key>, uvTime: Key)

  /** Which timers a type reads. The list of types that read a UV element
      names "IRUV", which is not a valid type, so UVIR reads no UV time. */
  predicate ReadsTwoOn(kind: string) { kind in ["IR", "3StepIR", "UVIR"] }
  predicate ReadsThirdOn(kind: string) { kind == "3StepIR" }
  predicate ReadsOff(kind: string) { kind in ["IR", "UVIR"] }
  predicate ReadsUv(kind: string) { kind in ["UV", "IRUV", "UVLED"] }

  /** How the timer groups overlap: 3StepIR, IR and UVIR read the first
      two pyro-on timers, the pyro-off readers read no third one, and no
      pyro-on reader reads a UV time. */
  lemma TypeClasses(kind: string)
    ensures ReadsThirdOn(kind) ==> ReadsTwoOn(kind) && !ReadsOff(kind)
    ensures ReadsOff(kind) ==> ReadsTwoOn(kind) && !ReadsThirdOn(kind)
    ensures ReadsTwoOn(kind) ==> !ReadsUv(kind)
  {
  }

  /** Whether a type that reads the first two pyro-on timers when `on`, the
      third when `third`, the pyro-off ones when `off` and the UV time when
      `uv` requires the element. */
  predicate RequiredFor(on: bool, third: bool, off: bool, uv: bool, t: TimerElement) {
    match t
    case PyroOnTimer1 => on
    case PyroOnTimer2 => on
    case PyroOnTimer3 => third
    case PyroOffTimer1 => off
    case PyroOffTimer2 => off
    case UvTimer => uv
  }

  /** The child elements a type requires. */
  predicate Required(kind: string, t: TimerElement) {
    RequiredFor(ReadsTwoOn(kind), ReadsThirdOn(kind), ReadsOff(kind), ReadsUv(kind), t)
  }

  /** The find() results for the six timer elements of a recipe element. */
  datatype Lookups = Lookups(on1: Option<Element>, on2: Option<Element>, on3: Option<Element>,
                             off1: Option<Element>, off2: Option<Element>, uv: Option<Element>)

  function LookupsOf(e: Element): Lookups {
    Lookups(Find(e, "PyroOnTimer1"), Find(e, "PyroOnTimer2"), Find(e, "PyroOnTimer3"),
            Find(e, "PyroOffTimer1"), Find(e, "PyroOffTimer2"), Find(e, "UV"))
  }

  function Lookup(l: Lookups, t: TimerElement): Option<Element> {
    match t
    case PyroOnTimer1 => l.on1
    case PyroOnTimer2 => l.on2
    case PyroOnTimer3 => l.on3
    case PyroOffTimer1 => l.off1
    case PyroOffTimer2 => l.off2
    case UvTimer => l.uv
  }

  /** Each lookup is find() of the element's tag. */
  lemma LookupIsFind(e: Element, t: TimerElement)
    ensures Lookup(LookupsOf(e), t) == Find(e, Tag(t))
  {
  }

  predicate Unfound(l: Lookups, t: TimerElement) {
    Lookup(l, t).None?
  }

  /** The order the timer elements are looked up in. */
  function Rank(t: TimerElement): nat {
    match t
    case PyroOnTimer1 => 0
    case PyroOnTimer2 => 1
    case PyroOnTimer3 => 2
    case PyroOffTimer1 => 3
    case PyroOffTimer2 => 4
    case UvTimer => 5
  }

  /** The element whose lookup fails first, if any, looking the required
      elements up in the order the code does. */
  function MissingFor(l: Lookups, on: bool, third: bool, off: bool, uv: bool): Option<TimerElement> {
    if on && l.on1.None? then Some(PyroOnTimer1)
    else if on && l.on2.None? then Some(PyroOnTimer2)
    else if third && l.on3.None? then Some(PyroOnTimer3)
    else if off && l.off1.None? then Some(PyroOffTimer1)
    else if off && l.off2.None? then Some(PyroOffTimer2)
    else if uv && l.uv.None? then Some(UvTimer)
    else None
  }

  /** The element MissingFor reports is required and absent, every required
      element looked up before it is present, and there is none exactly when
      every required element is present. */
  lemma MissingForIsFirst(l: Lookups, on: bool, third: bool, off: bool, uv: bool)
    ensures var r := MissingFor(l, on, third, off, uv);
      && (r.None? <==> forall c :: RequiredFor(on, third, off, uv, c) ==> !Unfound(l, c))
      && (r.Some? ==> RequiredFor(on, third, off, uv, r.value) && Unfound(l, r.value))
      && (r.Some? ==> forall c :: RequiredFor(on, third, off, uv, c) && Rank(c) < Rank(r.value) ==> !Unfound(l, c))
  {
    var r := MissingFor(l, on, third, off, uv);
    if r.Some? {
      assert RequiredFor(on, third, off, uv, r.value) && Unfound(l, r.value);
    }
    forall c | RequiredFor(on, third, off, uv, c) && (r.None? || Rank(c) < Rank(r.value))
      ensures !Unfound(l, c)
    {
      match c
      case PyroOnTimer1 =>
      case PyroOnTimer2 =>
      case PyroOnTimer3 =>
      case PyroOffTimer1 =>
      case PyroOffTimer2 =>
      case UvTimer =>
    }
  }

  /** A slot's text: the attribute of the timer element when the type reads
      it, and "0" otherwise. */
  function Slot(l: Lookups, used: bool, timer: TimerElement, attr: string): Key {
    if used && Lookup(l, timer).Some? then Get(Lookup(l, timer).value, attr) else Zero
  }

  /** The timers of a recipe of the given type: the first required element
      that is missing raises, otherwise every slot holds its timer's
      attribute or "0". */
  function TimersOf(e: Element, name: Key, kind: string): (r: Result<Timers, RecipeError>)
    ensures r.Err? <==> exists c :: Required(kind, c) && Unfound(LookupsOf(e), c)
    ensures r.Err? ==> (r.error.MissingElement? && r.error.name == name
      && Required(kind, r.error.element) && Unfound(LookupsOf(e), r.error.element))
  {
    MissingForIsFirst(LookupsOf(e), ReadsTwoOn(kind), ReadsThirdOn(kind), ReadsOff(kind), ReadsUv(kind));
    TimersFor(LookupsOf(e), name, ReadsTwoOn(kind), ReadsThirdOn(kind), ReadsOff(kind), ReadsUv(kind))
  }

  /** The timers for a type that reads the first two pyro-on timers when
      `on`, the third when `third`, the pyro-off ones when `off` and the UV
      time when `uv`. */
  function TimersFor(l: Lookups, name: Key, on: bool, third: bool, off: bool, uv: bool): (r: Result<Timers, RecipeError>)
  {
    match MissingFor(l, on, third, off, uv)
    case Some(c) => Err(MissingElement(name, c))
    case None =>
      Ok(Timers(
        [Slot(l, off, PyroOffTimer1, "Time"), Slot(l, off, PyroOffTimer2, "Time")],
        [Slot(l, off, PyroOffTimer1, "Power"), Slot(l, off, PyroOffTimer2, "Power")],
        [Slot(l, on, PyroOnTimer1, "Time"), Slot(l, on, PyroOnTimer2, "Time"), Slot(l, third, PyroOnTimer3, "Time")],
        [Slot(l, on, PyroOnTimer1, "Rise"), Slot(l, on, PyroOnTimer2, "Rise"), Slot(l, third, PyroOnTimer3, "Rise")],
        [Slot(l, on, PyroOnTimer1, "End"), Slot(l, on, PyroOnTimer2, "End"), Slot(l, third, PyroOnTimer3, "End")],
        Slot(l, uv, UvTimer, "Time")))
  }

  /** The (Time, Rise, End) of a pyro-on slot and of a timer element. */
  function OnSlot(t: Timers, k: nat): (Key, Key, Key)
    requires k < |t.onTime| && k < |t.onRise| && k < |t.onTemp|
  {
    (t.onTime[k], t.onRise[k], t.onTemp[k])
  }

  function OnAttrs(x: Element): (Key, Key, Key) {
    (Get(x, "Time"), Get(x, "Rise"), Get(x, "End"))
  }

  /** The (Time, Power) of a pyro-off slot and of a timer element. */
  function OffSlot(t: Timers, k: nat): (Key, Key)
    requires k < |t.offTime| && k < |t.offPower|
  {
    (t.offTime[k], t.offPower[k])
  }

  function OffAttrs(x: Element): (Key, Key) {
    (Get(x, "Time"), Get(x, "Power"))
  }

  /** Once the timers are read, every element the type requires is present. */
  lemma RequiredPresent(e: Element, name: Key, kind: string, child: TimerElement)
    requires TimersOf(e, name, kind).Ok? && Required(kind, child)
    ensures Find(e, Tag(child)).Some?
  {
    LookupIsFind(e, child);
  }

  /** The pyro-on slots: 0 and 1 come from PyroOnTimer1 and PyroOnTimer2 for
      IR, 3StepIR and UVIR, slot 2 from PyroOnTimer3 for 3StepIR only, and
      every other slot stays "0". */
  lemma OnTimersByType(e: Element, name: Key, kind: string)
    requires kind in ValidTypes && TimersOf(e, name, kind).Ok?
    ensures var t := TimersOf(e, name, kind).value;
      && |t.onTime| == |t.onRise| == |t.onTemp| == 3
      && (kind in ["IR", "3StepIR", "UVIR"] ==>
            Find(e, "PyroOnTimer1").Some? && Find(e, "PyroOnTimer2").Some?
            && OnSlot(t, 0) == OnAttrs(Find(e, "PyroOnTimer1").value)
            && OnSlot(t, 1) == OnAttrs(Find(e, "PyroOnTimer2").value))
      && (kind in ["UV", "UVLED"] ==> OnSlot(t, 0) == OnSlot(t, 1) == (Zero, Zero, Zero))
      && (kind == "3StepIR" ==>
            Find(e, "PyroOnTimer3").Some? && OnSlot(t, 2) == OnAttrs(Find(e, "PyroOnTimer3").value))
      && (kind != "3StepIR" ==> OnSlot(t, 2) == (Zero, Zero, Zero))
  {
    if ReadsTwoOn(kind) {
      RequiredPresent(e, name, kind, PyroOnTimer1);
      RequiredPresent(e, name, kind, PyroOnTimer2);
    }
    if ReadsThirdOn(kind) {
      RequiredPresent(e, name, kind, PyroOnTimer3);
    }
  }

  /** The pyro-off slots come from PyroOffTimer1 and PyroOffTimer2 for IR
      and UVIR, and stay "0" for the other types. */
  lemma OffTimersByType(e: Element, name: Key, kind: string)
    requires kind in ValidTypes && TimersOf(e, name, kind).Ok?
    ensures var t := TimersOf(e, name, kind).value;
      && |t.offTime| == |t.offPower| == 2
      && (kind in ["IR", "UVIR"] ==>
            Find(e, "PyroOffTimer1").Some? && Find(e, "PyroOffTimer2").Some?
            && OffSlot(t, 0) == OffAttrs(Find(e, "PyroOffTimer1").value)
            && OffSlot(t, 1) == OffAttrs(Find(e, "PyroOffTimer2").value))
      && (kind !in ["IR", "UVIR"] ==> t.offTime == t.offPower == [Zero, Zero])
  {
    if ReadsOff(kind) {
      RequiredPresent(e, name, kind, PyroOffTimer1);
      RequiredPresent(e, name, kind, PyroOffTimer2);
    }
  }

  /** The UV time comes from the UV element for UV and UVLED; every other
      valid type, UVIR included, keeps "0". */
  lemma UvTimeByType(e: Element, name: Key, kind: string)
    requires kind in ValidTypes && TimersOf(e, name, kind).Ok?
    ensures var t := TimersOf(e, name, kind).value;
      && (kind in ["UV", "UVLED"] ==> Find(e, "UV").Some? && t.uvTime == Get(Find(e, "UV").value, "Time"))
      && (kind !in ["UV", "UVLED"] ==> t.uvTime == Zero)
  {
    if ReadsUv(kind) {
      RequiredPresent(e, name, kind, UvTimer);
    }
  }

  /** The LanguageOverride loop body: a language already in the recipe's
      names raises; otherwise the language joins `langs` when it is new
      there, and the names dict gains the override's name. */
  function OverrideStep(st: (seq<Key>, Dict), o: Element): (r: ((seq<Key>, Dict), Option<RecipeError>)) {
    var lang := Get(o, "Lang");
    if lang in Keys(st.1) then (st, Some(DuplicateLanguage(lang)))
    else ((if lang in st.0 then st.0 else st.0 + [lang], st.1 + [(lang, Get(o, "Name"))]), None)
  }

  /** The Recipe loop body for the i-th Recipe element: a default name
      already read raises, so does a type outside ValidTypes and a missing
      timer element; then the language overrides are read (their new
      languages stay in `langs` even when a later override raises) and the
      recipe is appended. */
  function RecipeStep(st: (seq<Recipe>, seq<Key>), x: (nat, Element)): (r: ((seq<Recipe>, seq<Key>), Option<RecipeError>)) {
    var (i, e) := x;
    var name := Get(e, "Name");
    var kind := Get(e, "Type");
    if HasDefaultName(st.0, name) then (st, Some(DuplicateRecipe(name)))
    else if kind.None? || kind.value !in ValidTypes then (st, Some(InvalidType(name, kind)))
    else match TimersOf(e, name, kind.value)
      case Err(m) => (st, Some(m))
      case Ok(t) =>
        var over := Seqs.Run((st.1, [(English, name)]), Iter(e, "LanguageOverride"), OverrideStep);
        if over.1.Some? then ((st.0, over.0.0), over.1)
        else
          var r := Recipe(i, name, over.0.1, kind.value, t.offTime, t.offPower, t.onTime, t.onRise, t.onTemp, t.uvTime);
          ((st.0 + [r], over.0.0), None)
  }

  predicate HasDefaultName(rs: seq<Recipe>, name: Key) {
    exists k :: 0 <= k < |rs| && rs[k].defaultName == name
  }

  /** enumerate(): each element with its position. */
  function Numbered(s: seq<Element>): (r: seq<(nat, Element)>)
    ensures |r| == |s|
    ensures forall i :: 0 <= i < |s| ==> r[i] == (i, s[i])
  {
    if s == [] then [] else Numbered(s[..|s| - 1]) + [(|s| - 1, s[|s| - 1])]
  }

  /** Configuration.read: the state the Recipe loop reaches and the error
      it raised, if any. */
  function ReadSpec(st: (seq<Recipe>, seq<Key>), root: Element): ((seq<Recipe>, seq<Key>), Option<RecipeError>) {
    Seqs.Run(st, Numbered(Iter(root, "Recipe")), RecipeStep)
  }

  /** The LanguageOverride loop of one recipe, from `langs` and the names
      dict holding only the default name. */
  function OverrideRun(langs: seq<Key>, name: Key, os: seq<Element>): ((seq<Key>, Dict), Option<RecipeError>) {
    Seqs.Run((langs, [(English, name)]), os, OverrideStep)
  }

  /** The names dict the overrides build keeps the default name under "EN"
      first and never repeats a language; the loop raises exactly when a
      language repeats ("EN" included), and otherwise the dict's languages
      are "EN" followed by the override languages in document order. */
  lemma {:induction false} OverrideNames(langs: seq<Key>, name: Key, os: seq<Element>)
    ensures var r := OverrideRun(langs, name, os);
      && |r.0.1| > 0 && r.0.1[0] == (English, name)
      && Seqs.Distinct(Keys(r.0.1))
      && (r.1.None? <==> Seqs.Distinct([English] + Attributes(os, "Lang")))
      && (r.1.None? ==> Keys(r.0.1) == [English] + Attributes(os, "Lang"))
      && (r.1.Some? ==> r.1.value.DuplicateLanguage? && r.1.value.lang in Keys(r.0.1))
    decreases |os|
  {
    if os == [] {
      assert Keys([(English, name)]) == [English] + Attributes(os, "Lang");
    } else {
      var init, o := os[..|os| - 1], os[|os| - 1];
      assert os == init + [o];
      OverrideNames(langs, name, init);
      Seqs.RunSnoc((langs, [(English, name)]), init, o, OverrideStep);
      var prev := OverrideRun(langs, name, init);
      var lang := Get(o, "Lang");
      var ls := [English] + Attributes(init, "Lang");
      assert [English] + Attributes(os, "Lang") == ls + [lang];
      Seqs.DistinctSnoc(ls, lang);
      if prev.1.None? && lang !in Keys(prev.0.1) {
        var names := prev.0.1 + [(lang, Get(o, "Name"))];
        assert Keys(names) == Keys(prev.0.1) + [lang];
        Seqs.DistinctSnoc(Keys(prev.0.1), lang);
      }
    }
  }

  /** What the overrides do to `langs`: the old list stays a prefix, a list
      without repeats keeps none, everything added is an override language,
      and when "EN" is already listed every language of the names dict is
      listed too. */
  lemma {:induction false} OverrideLangsKept(langs: seq<Key>, name: Key, os: seq<Element>)
    ensures var r := OverrideRun(langs, name, os);
      && |langs| <= |r.0.0| && r.0.0[..|langs|] == langs
      && (Seqs.Distinct(langs) ==> Seqs.Distinct(r.0.0))
      && (forall l :: l in r.0.0 ==> l in langs || l in Attributes(os, "Lang"))
      && (English in langs ==> forall l :: l in Keys(r.0.1) ==> l in r.0.0)
    decreases |os|
  {
    if os == [] {
      assert Keys([(English, name)]) == [English];
    } else {
      var init, o := os[..|os| - 1], os[|os| - 1];
      assert os == init + [o];
      OverrideLangsKept(langs, name, init);
      Seqs.RunSnoc((langs, [(English, name)]), init, o, OverrideStep);
      var prev := OverrideRun(langs, name, init);
      var lang := Get(o, "Lang");
      assert Attributes(os, "Lang") == Attributes(init, "Lang") + [lang];
      if prev.1.None? && lang !in Keys(prev.0.1) {
        var names := prev.0.1 + [(lang, Get(o, "Name"))];
        assert Keys(names) == Keys(prev.0.1) + [lang];
        if lang !in prev.0.0 {
          Seqs.DistinctSnoc(prev.0.0, lang);
          assert (prev.0.0 + [lang])[..|langs|] == prev.0.0[..|langs|];
        }
      }
    }
  }

  /** `langs` as read so far: "EN" first and no language twice. */
  predicate LangsOk(langs: seq<Key>) {
    |langs| > 0 && langs[0] == English && Seqs.Distinct(langs)
  }

  /** A recipe as read: a valid type, timer lists of the sizes of the
      recipe struct's arrays, and a names dict that holds the default name
      under "EN" first, repeats no language and uses only listed ones. */
  predicate RecipeOk(r: Recipe, langs: seq<Key>) {
    && r.kind in ValidTypes
    && |r.pyroOffTime| == 2 && |r.pyroOffPower| == 2
    && |r.pyroOnTime| == 3 && |r.pyroOnRise| == 3 && |r.pyroOnTemp| == 3
    && |r.names| > 0 && r.names[0] == (English, r.defaultName)
    && Seqs.Distinct(Keys(r.names))
    && (forall l :: l in Keys(r.names) ==> l in langs)
  }

  /** The Configuration's state as read: `langs` is well formed, no two
      recipes share a default name, and each recipe is well formed. */
  predicate Consistent(st: (seq<Recipe>, seq<Key>)) {
    && LangsOk(st.1)
    && (forall i, j :: 0 <= i < j < |st.0| ==> st.0[i].defaultName != st.0[j].defaultName)
    && (forall i :: 0 <= i < |st.0| ==> RecipeOk(st.0[i], st.1))
  }

  /** One pass of the Recipe loop keeps the state consistent, whether it
      appends a recipe or raises. */
  lemma RecipeStepKeeps(st: (seq<Recipe>, seq<Key>), x: (nat, Element))
    requires Consistent(st)
    ensures Consistent(RecipeStep(st, x).0)
  {
    var (i, e) := x;
    var name, kind := Get(e, "Name"), Get(e, "Type");
    if !HasDefaultName(st.0, name) && kind.Some? && kind.value in ValidTypes && TimersOf(e, name, kind.value).Ok? {
      var os := Iter(e, "LanguageOverride");
      var over := OverrideRun(st.1, name, os);
      OverrideNames(st.1, name, os);
      OverrideLangsKept(st.1, name, os);
      var langs := over.0.0;
      assert langs[..|st.1|] == st.1;
      assert forall l :: l in st.1 ==> l in langs;
      assert LangsOk(langs) by {
        assert langs[0] == langs[..|st.1|][0];
      }
      forall k | 0 <= k < |st.0|
        ensures RecipeOk(st.0[k], langs)
      {
      }
      if over.1.None? {
        var t := TimersOf(e, name, kind.value).value;
        var r := Recipe(i, name, over.0.1, kind.value, t.offTime, t.offPower, t.onTime, t.onRise, t.onTemp, t.uvTime);
        assert RecipeOk(r, langs);
        var rs := st.0 + [r];
        forall a, b | 0 <= a < b < |rs|
          ensures rs[a].defaultName != rs[b].defaultName
        {
          if b == |st.0| {
            assert rs[a] == st.0[a];
          }
        }
      }
    }
  }

  /** However far it gets, the Recipe loop leaves a consistent state
      consistent. */
  lemma {:induction false} RunKeeps(st: (seq<Recipe>, seq<Key>), xs: seq<(nat, Element)>)
    requires Consistent(st)
    ensures Consistent(Seqs.Run(st, xs, RecipeStep).0)
    decreases |xs|
  {
    if xs != [] {
      RunKeeps(st, xs[..|xs| - 1]);
      var prev := Seqs.Run(st, xs[..|xs| - 1], RecipeStep);
      if prev.1.None? {
        RecipeStepKeeps(prev.0, xs[|xs| - 1]);
      }
    }
  }

  /** Configuration.read keeps the Configuration consistent, raising or
      not; a fresh Configuration is consistent. */
  lemma ReadKeeps(st: (seq<Recipe>, seq<Key>), root: Element)
    requires Consistent(st)
    ensures Consistent(ReadSpec(st, root).0)
    ensures Consistent(([], [English]))
  {
    RunKeeps(st, Numbered(Iter(root, "Recipe")));
  }

  /** A Recipe element the loop accepts on its own: a valid type, the timer
      elements that type requires, and no language ("EN" included)
      overridden twice. */
  predicate ElementOk(e: Element) {
    var kind := Get(e, "Type");
    && kind.Some? && kind.value in ValidTypes
    && TimersOf(e, Get(e, "Name"), kind.value).Ok?
    && Seqs.Distinct([English] + Attributes(Iter(e, "LanguageOverride"), "Lang"))
  }

  /** One pass of the Recipe loop appends exactly when the default name is
      new and the element is acceptable, and the recipe it appends carries
      the element's position, default name and type. */
  lemma StepAccepts(rs: seq<Recipe>, langs: seq<Key>, i: nat, e: Element)
    ensures var r := RecipeStep((rs, langs), (i, e));
      && (r.1.None? <==> !HasDefaultName(rs, Get(e, "Name")) && ElementOk(e))
      && (r.1.None? ==> (|r.0.0| == |rs| + 1 && r.0.0[..|rs|] == rs
            && r.0.0[|rs|].id == i && r.0.0[|rs|].defaultName == Get(e, "Name")
            && Some(r.0.0[|rs|].kind) == Get(e, "Type")))
  {
    OverrideNames(langs, Get(e, "Name"), Iter(e, "LanguageOverride"));
  }

  /** Recipes whose default names are those of the elements hold a name
      exactly when one of the elements has it. */
  lemma NamesMatch(rs: seq<Recipe>, es: seq<Element>, name: Key)
    requires |rs| == |es|
    requires forall i :: 0 <= i < |rs| ==> rs[i].defaultName == Get(es[i], "Name")
    ensures HasDefaultName(rs, name) <==> name in Attributes(es, "Name")
  {
    if name in Attributes(es, "Name") {
      var k :| 0 <= k < |es| && Attributes(es, "Name")[k] == name;
      assert rs[k].defaultName == name;
    }
  }

  /** The Recipe loop over all elements is the loop over all but the last,
      followed by one more pass unless it has already raised. */
  lemma FreshRunSnoc(langs: seq<Key>, es: seq<Element>)
    requires es != []
    ensures var prev := Seqs.Run(([], langs), Numbered(es[..|es| - 1]), RecipeStep);
      Seqs.Run(([], langs), Numbered(es), RecipeStep)
        == if prev.1.Some? then prev else RecipeStep(prev.0, (|es| - 1, es[|es| - 1]))
  {
    var init := es[..|es| - 1];
    var x: (nat, Element) := (|init|, es[|es| - 1]);
    assert Numbered(es) == Numbered(init) + [x];
    Seqs.RunSnoc(([], langs), Numbered(init), x, RecipeStep);
  }

  /** The last pass of the Recipe loop into a Configuration without
      recipes: nothing changes once a pass has raised; otherwise it succeeds
      exactly when the element is acceptable and its name is new, and then
      appends its recipe. */
  lemma FreshRunStep(langs: seq<Key>, es: seq<Element>)
    requires es != []
    ensures var prev := Seqs.Run(([], langs), Numbered(es[..|es| - 1]), RecipeStep);
      var r := Seqs.Run(([], langs), Numbered(es), RecipeStep);
      var e := es[|es| - 1];
      && (prev.1.Some? ==> r.1.Some?)
      && (prev.1.None? ==>
            && (r.1.None? <==> !HasDefaultName(prev.0.0, Get(e, "Name")) && ElementOk(e))
            && (r.1.None? ==> (|r.0.0| == |prev.0.0| + 1 && r.0.0[..|prev.0.0|] == prev.0.0
                  && r.0.0[|prev.0.0|].id == |es| - 1 && r.0.0[|prev.0.0|].defaultName == Get(e, "Name")
                  && Some(r.0.0[|prev.0.0|].kind) == Get(e, "Type"))))
  {
    FreshRunSnoc(langs, es);
    var prev: ((seq<Recipe>, seq<Key>), Option<RecipeError>) := Seqs.Run(([], langs), Numbered(es[..|es| - 1]), RecipeStep);
    StepAccepts(prev.0.0, prev.0.1, |es| - 1, es[|es| - 1]);
  }

  /** Into a Configuration without recipes, the Recipe loop appends one
      recipe per element, in document order, whose id is its position and
      whose default name and type are the element's. */
  lemma {:induction false} FreshRunShape(langs: seq<Key>, es: seq<Element>)
    ensures var r := Seqs.Run(([], langs), Numbered(es), RecipeStep);
      r.1.None? ==> (|r.0.0| == |es| && forall i :: 0 <= i < |es| ==>
        r.0.0[i].id == i && r.0.0[i].defaultName == Get(es[i], "Name") && Some(r.0.0[i].kind) == Get(es[i], "Type"))
    decreases |es|
  {
    if es != [] {
      var init, e := es[..|es| - 1], es[|es| - 1];
      FreshRunShape(langs, init);
      FreshRunStep(langs, es);
      var prev: ((seq<Recipe>, seq<Key>), Option<RecipeError>) := Seqs.Run(([], langs), Numbered(init), RecipeStep);
      var r: ((seq<Recipe>, seq<Key>), Option<RecipeError>) := Seqs.Run(([], langs), Numbered(es), RecipeStep);
      if r.1.None? {
        var rs := prev.0.0;
        forall i | 0 <= i < |es|
          ensures r.0.0[i].id == i && r.0.0[i].defaultName == Get(es[i], "Name") && Some(r.0.0[i].kind) == Get(es[i], "Type")
        {
          if i < |init| {
            assert r.0.0[i] == r.0.0[..|rs|][i];
            assert es[i] == init[i];
          }
        }
      }
    }
  }

  /** Reading into a Configuration without recipes succeeds exactly when
      the default names are distinct and every Recipe element is
      acceptable. */
  lemma {:induction false} FreshRunAccepts(langs: seq<Key>, es: seq<Element>)
    ensures var r := Seqs.Run(([], langs), Numbered(es), RecipeStep);
      r.1.None? <==> Seqs.Distinct(Attributes(es, "Name")) && forall i :: 0 <= i < |es| ==> ElementOk(es[i])
    decreases |es|
  {
    if es != [] {
      var init, e := es[..|es| - 1], es[|es| - 1];
      FreshRunAccepts(langs, init);
      FreshRunShape(langs, init);
      FreshRunStep(langs, es);
      var prev: ((seq<Recipe>, seq<Key>), Option<RecipeError>) := Seqs.Run(([], langs), Numbered(init), RecipeStep);
      var name := Get(e, "Name");
      AttributesSnoc(es, "Name");
      Seqs.DistinctSnoc(Attributes(init, "Name"), name);
      assert forall i :: 0 <= i < |init| ==> es[i] == init[i];
      if prev.1.None? {
        var rs := prev.0.0;
        NamesMatch(rs, init, name);
      }
    }
  }

  class Configuration {
    var recipes: seq<Recipe>
    var langs: seq<Key>

    constructor()
      ensures recipes == [] && langs == [English]
    {
      recipes := [];
      langs := [English];
    }

    /** The three pyro-on, two pyro-off and UV timer lists, filled in
        place for the types that read them. */
    static method ReadTimers(e: Element, name: Key, kind: string) returns (r: Result<Timers, RecipeError>)
      ensures r == TimersOf(e, name, kind)
    {
      var two, third, off, uv := ReadsTwoOn(kind), ReadsThirdOn(kind), ReadsOff(kind), ReadsUv(kind);
      r := FillTimers(LookupsOf(e), name, two, third, off, uv);
    }

    /** The timer lists filled in place from the elements `found`: the
        first two pyro-on slots when `two`, the third when `third`, the
        pyro-off slots when `off` and the UV time when `uv`, raising at the
        first of those elements that is missing. */
    static method FillTimers(found: Lookups, name: Key, two: bool, third: bool, off: bool, uv: bool)
      returns (r: Result<Timers, RecipeError>)
      ensures r == TimersFor(found, name, two, third, off, uv)
    {
      var onTime, onRise, onTemp := [Zero, Zero, Zero], [Zero, Zero, Zero], [Zero, Zero, Zero];
      if two {
        var t1 := found.on1;
        if t1.None? {
          return Err(MissingElement(name, PyroOnTimer1));
        }
        var t2 := found.on2;
        if t2.None? {
          return Err(MissingElement(name, PyroOnTimer2));
        }
        onTime := onTime[0 := Get(t1.value, "Time")][1 := Get(t2.value, "Time")];
        onRise := onRise[0 := Get(t1.value, "Rise")][1 := Get(t2.value, "Rise")];
        onTemp := onTemp[0 := Get(t1.value, "End")][1 := Get(t2.value, "End")];
      }
      if third {
        var t3 := found.on3;
        if t3.None? {
          return Err(MissingElement(name, PyroOnTimer3));
        }
        onTime := onTime[2 := Get(t3.value, "Time")];
        onRise := onRise[2 := Get(t3.value, "Rise")];
        onTemp := onTemp[2 := Get(t3.value, "End")];
      }
      var offTime, offPower := [Zero, Zero], [Zero, Zero];
      if off {
        var t1 := found.off1;
        if t1.None? {
          return Err(MissingElement(name, PyroOffTimer1));
        }
        var t2 := found.off2;
        if t2.None? {
          return Err(MissingElement(name, PyroOffTimer2));
        }
        offTime := offTime[0 := Get(t1.value, "Time")][1 := Get(t2.value, "Time")];
        offPower := offPower[0 := Get(t1.value, "Power")][1 := Get(t2.value, "Power")];
      }
      var uvTime := Zero;
      if uv {
        var timer := found.uv;
        if timer.None? {
          return Err(MissingElement(name, UvTimer));
        }
        uvTime := Get(timer.value, "Time");
      }
      var t := TimersFor(found, name, two, third, off, uv).value;
      assert onTime == t.onTime && onRise == t.onRise && onTemp == t.onTemp;
      assert offTime == t.offTime && offPower == t.offPower;
      r := Ok(Timers(offTime, offPower, onTime, onRise, onTemp, uvTime));
    }

    /** The LanguageOverride loop of one recipe: `langs` gains the new
        languages, and the names dict starts from the default name under
        "EN". */
    method ReadOverrides(e: Element, name: Key) returns (names: Dict, err: Option<RecipeError>)
      modifies this
      ensures recipes == old(recipes)
      ensures ((langs, names), err) == Seqs.Run((old(langs), [(English, name)]), Iter(e, "LanguageOverride"), OverrideStep)
    {
      names := [(English, name)];
      var overrides := Iter(e, "LanguageOverride");
      var k := 0;
      while k < |overrides|
        invariant 0 <= k <= |overrides|
        invariant recipes == old(recipes)
        invariant ((langs, names), None) == Seqs.Run((old(langs), [(English, name)]), overrides[..k], OverrideStep)
      {
        Seqs.RunNext((old(langs), [(English, name)]), overrides, k, OverrideStep);
        var lang := Get(overrides[k], "Lang");
        if lang in Keys(names) {
          Seqs.RunStopped((old(langs), [(English, name)]), overrides, k + 1, OverrideStep);
          return names, Some(DuplicateLanguage(lang));
        }
        if lang !in langs {
          langs := langs + [lang];
        }
        names := names + [(lang, Get(overrides[k], "Name"))];
        k := k + 1;
      }
      Seqs.RunAll((old(langs), [(English, name)]), overrides, OverrideStep);
      err := None;
    }

    /** One pass of the Recipe loop, for the i-th Recipe element. */
    method ReadRecipe(i: nat, element: Element) returns (err: Option<RecipeError>)
      modifies this
      ensures ((recipes, langs), err) == RecipeStep(old((recipes, langs)), (i, element))
    {
      var name := Get(element, "Name");
      if HasDefaultName(recipes, name) {
        return Some(DuplicateRecipe(name));
      }
      var kind := Get(element, "Type");
      if kind.None? || kind.value !in ValidTypes {
        return Some(InvalidType(name, kind));
      }
      var timers := ReadTimers(element, name, kind.value);
      if timers.Err? {
        return Some(timers.error);
      }
      var names, failed := ReadOverrides(element, name);
      if failed.Some? {
        return failed;
      }
      var t := timers.value;
      recipes := recipes + [Recipe(i, name, names, kind.value, t.offTime, t.offPower, t.onTime, t.onRise, t.onTemp, t.uvTime)];
      err := None;
    }

    /** Configuration.read over the Recipe elements of the document. */
    method Read(root: Element) returns (err: Option<RecipeError>)
      modifies this
      ensures ((recipes, langs), err) == ReadSpec(old((recipes, langs)), root)
    {
      var elements := Numbered(Iter(root, "Recipe"));
      ghost var start := (recipes, langs);
      var k := 0;
      while k < |elements|
        invariant 0 <= k <= |elements|
        invariant ((recipes, langs), None) == Seqs.Run(start, elements[..k], RecipeStep)
      {
        Seqs.RunNext(start, elements, k, RecipeStep);
        var failed := ReadRecipe(elements[k].0, elements[k].1);
        if failed.Some? {
          Seqs.RunStopped(start, elements, k + 1, RecipeStep);
          return failed;
        }
        k := k + 1;
      }
      Seqs.RunAll(start, elements, RecipeStep);
      err := None;
    }
  }
}
