/** The recipe table: a fixed array of MaxRecipes recipe records, of which
    the first nRecipes are live, with creation, deletion with compaction,
    bounds-checked setters, total getters and per-type derived values. */
module Recipes {
  import opened CTypes
  import opened Wrappers

  const NameMaxSize := 127
  const MaxRecipes := 32
  const MaxPyroOnTimers := 3
  const MaxPyroOffTimers := 2

  // Values of the recipe_type_t enumeration.
  const TypeNone: int32 := 0
  const TypeIR: int32 := 1
  const TypeUVIR: int32 := 2
  const Type3StepIR: int32 := 3
  const TypeUV: int32 := 4
  const TypeUVLED: int32 := 5
  const NTypes: int32 := 6

  /** One recipe record. `name` holds the characters of the C string before
      its terminator, one char per byte. */
  datatype RawRecipe = RawRecipe(
    id: uint8,
    name: string,
    kind: int32,
    pyroOffTime: seq<uint16>,
    pyroOffPower: seq<uint8>,
    pyroOnTime: seq<uint16>,
    pyroOnRise: seq<uint8>,
    pyroOnTemp: seq<uint16>,
    uvTime: uint16)

  predicate WellFormed(r: RawRecipe) {
    && |r.name| <= NameMaxSize
    && |r.pyroOffTime| == MaxPyroOffTimers && |r.pyroOffPower| == MaxPyroOffTimers
    && |r.pyroOnTime| == MaxPyroOnTimers && |r.pyroOnRise| == MaxPyroOnTimers
    && |r.pyroOnTemp| == MaxPyroOnTimers
  }

  /** A record whose timer arrays have their declared sizes. */
  type Recipe = r: RawRecipe | WellFormed(r)
    witness RawRecipe(0, [], 0, [0, 0], [0, 0], [0, 0, 0], [0, 0, 0], [0, 0, 0], 0)

  /** The record memset to zero. */
  const Zero: Recipe := RawRecipe(0, [], TypeNone, [0, 0], [0, 0], [0, 0, 0], [0, 0, 0], [0, 0, 0], 0)

  /** The two built-in recipes installed when nothing was loaded. */
  const Default0: Recipe :=
    RawRecipe(0, "IR recipe", TypeIR, [240, 300], [20, 70], [240, 300, 0], [15, 25, 0], [80, 180, 0], 0)
  const Default1: Recipe :=
    RawRecipe(1, "3 step IR", Type3StepIR, [0, 0], [0, 0], [240, 300, 120], [15, 25, 20], [80, 180, 220], 0)

  /** The record RecipeNew creates in slot `n`. */
  function Fresh(n: uint8): Recipe {
    Zero.(kind := TypeIR, id := n)
  }

  /** A pointer to a record: NULL, or a cell of the table's array. */
  datatype RecipeRef = Null | Cell(index: nat)

  predicate IdsMatch(s: seq<Recipe>) {
    forall i :: 0 <= i < |s| ==> s[i].id == i
  }

  /** Payload of a record: everything but its id. */
  function Payload(r: Recipe): Recipe {
    r.(id := 0)
  }

  function Payloads(s: seq<Recipe>): (p: seq<Recipe>)
    ensures |p| == |s|
    ensures forall i :: 0 <= i < |s| ==> p[i] == Payload(s[i])
  {
    seq(|s|, i requires 0 <= i < |s| => Payload(s[i]))
  }

  /** The live records after deleting the one at index k: the later ones move
      down one place and take their new index as id. */
  function Removed(s: seq<Recipe>, k: nat): (r: seq<Recipe>)
    requires k < |s| <= MaxRecipes
    ensures |r| == |s| - 1
  {
    seq(|s| - 1, j requires 0 <= j < |s| - 1 => if j < k then s[j] else s[j + 1].(id := j))
  }

  /** Deletion keeps every other record, in the same order. */
  lemma RemovedDropsOne(s: seq<Recipe>, k: nat)
    requires k < |s| <= MaxRecipes
    ensures Payloads(Removed(s, k)) == Payloads(s[..k]) + Payloads(s[k + 1..])
  {
    var l, r := Payloads(Removed(s, k)), Payloads(s[..k]) + Payloads(s[k + 1..]);
    assert |l| == |r|;
    forall j | 0 <= j < |l| ensures l[j] == r[j] {
      if j < k {
        assert r[j] == Payload(s[..k][j]);
      } else {
        assert r[j] == Payloads(s[k + 1..])[j - k] == Payload(s[k + 1..][j - k]);
      }
    }
  }

  /** Deletion re-establishes "id equals index" for every live record. */
  lemma RemovedKeepsIds(s: seq<Recipe>, k: nat)
    requires k < |s| <= MaxRecipes
    requires IdsMatch(s[..k])
    ensures IdsMatch(Removed(s, k))
  {
    forall j | 0 <= j < |s| - 1 ensures Removed(s, k)[j].id == j {
      if j < k {
        assert s[..k][j] == s[j];
      }
    }
  }

  // ----- Getters: total, with fixed results for NULL and bad indices. -----

  /** RecipeGetName: strncpy of at most min(bufsz, 127) characters of the
      stored name; None for NULL. */
  function NameOf(r: Option<Recipe>, bufsz: nat): (name: Option<string>)
    ensures name.Some? <==> r.Some?
    ensures r.Some? ==> |name.value| <= bufsz && |name.value| <= NameMaxSize
    ensures r.Some? ==> |name.value| <= |r.value.name| && name.value == r.value.name[..|name.value|]
    ensures r.Some? && |r.value.name| <= bufsz ==> name.value == r.value.name
  {
    if r.None? then None
    else
      var n := if bufsz < NameMaxSize then bufsz else NameMaxSize;
      Some(if |r.value.name| <= n then r.value.name else r.value.name[..n])
  }

  function TypeOf(r: Option<Recipe>): (t: int32)
    ensures r.Some? ==> t == r.value.kind
    ensures r.None? ==> t == NTypes
  {
    if r.None? then NTypes else r.value.kind
  }

  function PyroOffTimeOf(r: Option<Recipe>, timer: uint8): (v: uint16)
    ensures r.Some? && timer < MaxPyroOffTimers ==> v == r.value.pyroOffTime[timer]
    ensures r.None? || timer >= MaxPyroOffTimers ==> v == 0
  {
    if r.Some? && timer < MaxPyroOffTimers then r.value.pyroOffTime[timer] else 0
  }

  function PyroOffPowerOf(r: Option<Recipe>, timer: uint8): (v: uint8)
    ensures r.Some? && timer < MaxPyroOffTimers ==> v == r.value.pyroOffPower[timer]
    ensures r.None? || timer >= MaxPyroOffTimers ==> v == 0
  {
    if r.Some? && timer < MaxPyroOffTimers then r.value.pyroOffPower[timer] else 0
  }

  function PyroOnTimeOf(r: Option<Recipe>, timer: uint8): (v: uint16)
    ensures r.Some? && timer < MaxPyroOnTimers ==> v == r.value.pyroOnTime[timer]
    ensures r.None? || timer >= MaxPyroOnTimers ==> v == 0
  {
    if r.Some? && timer < MaxPyroOnTimers then r.value.pyroOnTime[timer] else 0
  }

  function PyroOnRiseOf(r: Option<Recipe>, timer: uint8): (v: uint8)
    ensures r.Some? && timer < MaxPyroOnTimers ==> v == r.value.pyroOnRise[timer]
    ensures r.None? || timer >= MaxPyroOnTimers ==> v == 0
  {
    if r.Some? && timer < MaxPyroOnTimers then r.value.pyroOnRise[timer] else 0
  }

  function PyroOnTempOf(r: Option<Recipe>, timer: uint8): (v: uint16)
    ensures r.Some? && timer < MaxPyroOnTimers ==> v == r.value.pyroOnTemp[timer]
    ensures r.None? || timer >= MaxPyroOnTimers ==> v == 0
  {
    if r.Some? && timer < MaxPyroOnTimers then r.value.pyroOnTemp[timer] else 0
  }

  function UVTimeOf(r: Option<Recipe>): (v: uint16)
    ensures r.Some? ==> v == r.value.uvTime
    ensures r.None? ==> v == 0
  {
    if r.None? then 0 else r.value.uvTime
  }

  /** Every getter has a fixed answer for a NULL record and for a timer
      index past its array. */
  lemma GettersTotal(r: Option<Recipe>, bufsz: nat, timer: uint8)
    ensures r.None? ==> NameOf(r, bufsz).None? && TypeOf(r) == NTypes && UVTimeOf(r) == 0
    ensures r.None? || timer >= MaxPyroOffTimers ==> PyroOffTimeOf(r, timer) == 0 && PyroOffPowerOf(r, timer) == 0
    ensures r.None? || timer >= MaxPyroOnTimers ==>
      PyroOnTimeOf(r, timer) == 0 && PyroOnRiseOf(r, timer) == 0 && PyroOnTempOf(r, timer) == 0
    ensures r.Some? ==> NameOf(r, bufsz).Some? && |NameOf(r, bufsz).value| <= bufsz
  {
  }

  // ----- Setters on one record: the updated record, or None for -1. -----

  function WithName(r: Recipe, name: string): (r': Recipe)
    ensures NameOf(Some(r'), NameMaxSize) == Some(if |name| <= NameMaxSize then name else name[..NameMaxSize])
    ensures r'.(name := r.name) == r
  {
    r.(name := if |name| <= NameMaxSize then name else name[..NameMaxSize])
  }

  function WithType(r: Recipe, kind: int32): (r': Option<Recipe>)
    ensures r'.Some? <==> 0 <= kind < NTypes
    ensures r'.Some? ==> TypeOf(r') == kind && r'.value.(kind := r.kind) == r
  {
    if 0 <= kind < NTypes then Some(r.(kind := kind)) else None
  }

  function WithPyroOffTime(r: Recipe, timer: uint8, seconds: uint16): (r': Option<Recipe>)
    ensures r'.Some? <==> timer < MaxPyroOffTimers
    ensures r'.Some? ==> PyroOffTimeOf(r', timer) == seconds
    ensures r'.Some? ==> forall t: uint8 :: t != timer ==> PyroOffTimeOf(r', t) == PyroOffTimeOf(Some(r), t)
    ensures r'.Some? ==> r'.value.(pyroOffTime := r.pyroOffTime) == r
  {
    if timer < MaxPyroOffTimers then Some(r.(pyroOffTime := r.pyroOffTime[timer := seconds])) else None
  }

  function WithPyroOffPower(r: Recipe, timer: uint8, pct: uint8): (r': Option<Recipe>)
    ensures r'.Some? <==> timer < MaxPyroOffTimers && pct <= 100
    ensures r'.Some? ==> PyroOffPowerOf(r', timer) == pct
    ensures r'.Some? ==> forall t: uint8 :: t != timer ==> PyroOffPowerOf(r', t) == PyroOffPowerOf(Some(r), t)
    ensures r'.Some? ==> r'.value.(pyroOffPower := r.pyroOffPower) == r
  {
    if timer < MaxPyroOffTimers && pct <= 100 then Some(r.(pyroOffPower := r.pyroOffPower[timer := pct])) else None
  }

  function WithPyroOnTime(r: Recipe, timer: uint8, seconds: uint16): (r': Option<Recipe>)
    ensures r'.Some? <==> timer < MaxPyroOnTimers
    ensures r'.Some? ==> PyroOnTimeOf(r', timer) == seconds
    ensures r'.Some? ==> forall t: uint8 :: t != timer ==> PyroOnTimeOf(r', t) == PyroOnTimeOf(Some(r), t)
    ensures r'.Some? ==> r'.value.(pyroOnTime := r.pyroOnTime) == r
  {
    if timer < MaxPyroOnTimers then Some(r.(pyroOnTime := r.pyroOnTime[timer := seconds])) else None
  }

  function WithPyroOnRise(r: Recipe, timer: uint8, cPerMin: uint8): (r': Option<Recipe>)
    ensures r'.Some? <==> timer < MaxPyroOnTimers
    ensures r'.Some? ==> PyroOnRiseOf(r', timer) == cPerMin
    ensures r'.Some? ==> forall t: uint8 :: t != timer ==> PyroOnRiseOf(r', t) == PyroOnRiseOf(Some(r), t)
    ensures r'.Some? ==> r'.value.(pyroOnRise := r.pyroOnRise) == r
  {
    if timer < MaxPyroOnTimers then Some(r.(pyroOnRise := r.pyroOnRise[timer := cPerMin])) else None
  }

  function WithPyroOnTemp(r: Recipe, timer: uint8, celsius: uint16): (r': Option<Recipe>)
    ensures r'.Some? <==> timer < MaxPyroOnTimers
    ensures r'.Some? ==> PyroOnTempOf(r', timer) == celsius
    ensures r'.Some? ==> forall t: uint8 :: t != timer ==> PyroOnTempOf(r', t) == PyroOnTempOf(Some(r), t)
    ensures r'.Some? ==> r'.value.(pyroOnTemp := r.pyroOnTemp) == r
  {
    if timer < MaxPyroOnTimers then Some(r.(pyroOnTemp := r.pyroOnTemp[timer := celsius])) else None
  }

  function WithUVTime(r: Recipe, seconds: uint16): (r': Recipe)
    ensures UVTimeOf(Some(r')) == seconds && r'.(uvTime := r.uvTime) == r
  {
    r.(uvTime := seconds)
  }

  // ----- Derived values. -----

  /** Total run time in seconds; -1 for NULL and for types without a program. */
  function TotalTime(r: Option<Recipe>, pyroOn: bool): (t: int)
    ensures -1 <= t <= 3 * 0xFFFF
    ensures t == -1 <==> r.None? || r.value.kind !in {TypeIR, TypeUVIR, Type3StepIR, TypeUV}
  {
    if r.None? then -1
    else
      var x := r.value;
      var ir: int := if pyroOn then x.pyroOnTime[0] as int + x.pyroOnTime[1] else x.pyroOffTime[0] as int + x.pyroOffTime[1];
      if x.kind == TypeIR then ir
      else if x.kind == TypeUVIR then ir + x.uvTime
      else if x.kind == Type3StepIR then x.pyroOnTime[0] + x.pyroOnTime[1] + x.pyroOnTime[2]
      else if x.kind == TypeUV then x.uvTime
      else -1
  }

  /** A UVIR recipe runs the IR program of the same timers, then the UV time. */
  lemma UvirIsIrPlusUv(r: Recipe, pyroOn: bool)
    requires r.kind == TypeUVIR
    ensures TotalTime(Some(r), pyroOn) == TotalTime(Some(r.(kind := TypeIR)), pyroOn) + r.uvTime
  {
  }

  /** The 3-step IR and UV totals do not depend on the pyro-on switch, and
      an IR total does not depend on the UV time or the third timer. */
  lemma TotalTimeIgnores(r: Recipe, pyroOn: bool, uv: uint16, third: uint16)
    ensures r.kind in {Type3StepIR, TypeUV} ==> TotalTime(Some(r), pyroOn) == TotalTime(Some(r), !pyroOn)
    ensures r.kind == TypeIR ==>
      TotalTime(Some(r.(uvTime := uv, pyroOnTime := r.pyroOnTime[2 := third])), pyroOn) == TotalTime(Some(r), pyroOn)
  {
  }

  /** Indices of the pyro-on end temperatures that MaxTemperature compares. */
  function TempIndices(r: Recipe, pyroOn: bool): set<nat> {
    if (r.kind == TypeIR || r.kind == TypeUVIR) && pyroOn then {0, 1}
    else if r.kind == Type3StepIR then {0, 1, 2}
    else {}
  }

  /** The highest end temperature of the timers the recipe runs, or -1. */
  function MaxTemperature(r: Option<Recipe>, pyroOn: bool): (t: int)
    ensures t == -1 <==> r.None? || TempIndices(r.value, pyroOn) == {}
    ensures t != -1 ==> exists i :: i in TempIndices(r.value, pyroOn) && t == r.value.pyroOnTemp[i]
    ensures t != -1 ==> forall i :: i in TempIndices(r.value, pyroOn) ==> r.value.pyroOnTemp[i] <= t
  {
    if r.None? then -1
    else
      var x := r.value;
      var m01 := if x.pyroOnTemp[0] >= x.pyroOnTemp[1] then x.pyroOnTemp[0] else x.pyroOnTemp[1];
      if x.kind == TypeIR || x.kind == TypeUVIR then
        (if pyroOn then m01 else -1)
      else if x.kind == Type3StepIR then
        (if m01 >= x.pyroOnTemp[2] then m01 else x.pyroOnTemp[2])
      else -1
  }

  /** A stored table as the settings storage hands it back. handle_set
      checks only the blob's size, so the count it copies in can be any
      byte value. */
  datatype Snapshot = Snapshot(nRecipes: uint8, records: seq<Recipe>)

  /** A blob of the size handle_set accepts: a whole `recipes_t`. */
  predicate Sized(s: Snapshot) {
    |s.records| == MaxRecipes
  }

  /** The table contents after the load step: the snapshot, or a blank table. */
  function LoadedCount(loaded: Option<Snapshot>): nat {
    if loaded.Some? then loaded.value.nRecipes else 0
  }

  function LoadedRecords(loaded: Option<Snapshot>): (s: seq<Recipe>)
    requires loaded.Some? ==> Sized(loaded.value)
    ensures |s| == MaxRecipes
  {
    if loaded.Some? then loaded.value.records else Blank()
  }

  function Blank(): (s: seq<Recipe>)
    ensures |s| == MaxRecipes && forall i :: 0 <= i < |s| ==> s[i] == Zero
  {
    seq(MaxRecipes, _ => Zero)
  }

  /** The process-wide recipe table. */
  class RecipeTable {
    const recipes: array<Recipe>
    var nRecipes: uint8

    /** The array has its declared size. */
    ghost predicate Allocated()
      reads this
    {
      recipes.Length == MaxRecipes
    }

    /** The count fits the array, as every table the firmware writes does.
        A loaded count past MaxRecipes breaks it. */
    ghost predicate Valid()
      reads this
    {
      Allocated() && nRecipes <= MaxRecipes
    }

    /** A pointer handed out by Get or New names a cell of the array. */
    predicate Points(ref: RecipeRef) {
      ref.Cell? ==> ref.index < MaxRecipes
    }

    /** The live records. */
    function Live(): (s: seq<Recipe>)
      reads this, recipes
      requires Valid()
      ensures |s| == nRecipes
    {
      recipes[..nRecipes]
    }

    ghost predicate IdsAreIndices()
      reads this, recipes
      requires Valid()
    {
      IdsMatch(Live())
    }

    function Deref(ref: RecipeRef): (r: Option<Recipe>)
      reads this, recipes
      requires Allocated() && Points(ref)
      ensures r.Some? <==> ref.Cell?
    {
      if ref.Null? then None else Some(recipes[ref.index])
    }

    /** The static table before RecipeInit: all zero. */
    constructor ()
      ensures Valid() && nRecipes == 0 && recipes[..] == Blank()
    {
      recipes := new Recipe[MaxRecipes](_ => Zero);
      nRecipes := 0;
    }

    /** RecipeInit after its I/O: clear the table, register the settings
        handler (result `registerRc`), load (the snapshot the handler copied
        in, if any, and the load result `loadRc`), then install the two
        built-in recipes if nothing was loaded. */
    method Init(registerRc: int, loaded: Option<Snapshot>, loadRc: int) returns (rc: int)
      requires Allocated()
      requires loaded.Some? ==> Sized(loaded.value)
      modifies this, recipes
      ensures Allocated()
      ensures Valid() <==> registerRc != 0 || LoadedCount(loaded) <= MaxRecipes
      ensures rc == if registerRc != 0 || loadRc != 0 then -1 else 0
      ensures registerRc != 0 ==> nRecipes == 0 && recipes[..] == Blank()
      ensures registerRc == 0 && loadRc != 0 ==>
        nRecipes == LoadedCount(loaded) && recipes[..] == LoadedRecords(loaded)
      ensures registerRc == 0 && loadRc == 0 && LoadedCount(loaded) == 0 ==>
        nRecipes == 2 && recipes[..] == [Default0, Default1] + LoadedRecords(loaded)[2..]
      ensures registerRc == 0 && loadRc == 0 && LoadedCount(loaded) != 0 ==>
        nRecipes == LoadedCount(loaded) && recipes[..] == LoadedRecords(loaded)
    {
      nRecipes := 0;
      for i := 0 to MaxRecipes
        invariant nRecipes == 0
        invariant forall j :: 0 <= j < i ==> recipes[j] == Zero
      {
        recipes[i] := Zero;
      }
      assert recipes[..] == Blank();
      if registerRc != 0 {
        return -1;
      }
      if loaded.Some? {
        var records := loaded.value.records;
        for i := 0 to MaxRecipes
          invariant nRecipes == 0
          invariant forall j :: 0 <= j < i ==> recipes[j] == records[j]
        {
          recipes[i] := records[i];
        }
        nRecipes := loaded.value.nRecipes;
      }
      assert recipes[..] == LoadedRecords(loaded);
      if loadRc != 0 {
        return -1;
      }
      if nRecipes == 0 {
        nRecipes := 2;
        recipes[0] := Default0;
        recipes[1] := Default1;
        assert recipes[..] == [Default0, Default1] + LoadedRecords(loaded)[2..];
      }
      rc := 0;
    }

    /** RecipeGet: a pointer to live record `id`, or rc -1 and no pointer. */
    method Get(id: uint8) returns (rc: int, ref: RecipeRef)
      requires Allocated()
      ensures rc == 0 <==> id < nRecipes
      ensures rc != 0 ==> rc == -1 && ref == Null
      ensures rc == 0 ==> ref == Cell(id)
      ensures rc == 0 ==> (Points(ref) <==> id < MaxRecipes)
      ensures Valid() ==> Points(ref)
      ensures Valid() && rc == 0 ==> Deref(ref) == Some(Live()[id])
      ensures Valid() && rc == 0 && IdsAreIndices() ==> Deref(ref).value.id == id
    {
      if id < nRecipes {
        rc, ref := 0, Cell(id);
      } else {
        rc, ref := -1, Null;
      }
    }

    method GetNumRecipes() returns (n: uint8)
      requires Allocated()
      ensures n == nRecipes
      ensures Valid() ==> n == |Live()|
    {
      n := nRecipes;
    }

    /** RecipeNew: append a fresh record whose id is its index. */
    method New() returns (rc: int, ref: RecipeRef)
      requires Allocated()
      modifies this, recipes
      ensures Allocated() && Points(ref)
      ensures rc == 0 <==> old(nRecipes) < MaxRecipes
      ensures rc == 0 ==> old(Valid()) && Valid()
      ensures rc == 0 ==> nRecipes == old(nRecipes) + 1 && ref == Cell(old(nRecipes))
      ensures rc == 0 ==> recipes[..] == old(recipes[..])[old(nRecipes) := Fresh(old(nRecipes))]
      ensures rc == 0 ==> Live() == old(Live()) + [Fresh(old(nRecipes))]
      ensures rc != 0 ==> rc == -1 && ref == Null && nRecipes == old(nRecipes) && recipes[..] == old(recipes[..])
      ensures old(Valid()) ==> Valid() && (old(IdsAreIndices()) ==> IdsAreIndices())
    {
      if nRecipes < MaxRecipes {
        recipes[nRecipes] := Fresh(nRecipes);
        ref := Cell(nRecipes);
        nRecipes := nRecipes + 1;
        assert Live() == old(Live()) + [Fresh(old(nRecipes))];
        rc := 0;
      } else {
        rc, ref := -1, Null;
      }
    }

    /** What the freed slot at index j holds after the shift: the C loop
        copies the record after it, and the array ends after MaxRecipes
        cells, where the model reads a zero record. */
    static ghost function ShiftedIn(before: seq<Recipe>, j: nat): Recipe
      requires j < MaxRecipes
    {
      (if j + 1 < |before| then before[j + 1] else Zero).(id := j)
    }

    /** RecipeDelete: zero the slot named by the id the pointer's record
        carries, shift the later live records down over it, renumber them,
        and decrement the uint8 count, which wraps from 0 to 255. An id at
        or past the count zeroes its slot and shifts nothing, so the last
        live record drops out of the count. */
    method Delete(ref: RecipeRef) returns (rc: int)
      requires Valid() && Points(ref)
      requires ref.Cell? ==> recipes[ref.index].id < MaxRecipes
      modifies this, recipes
      ensures Allocated()
      ensures ref.Null? ==> rc == -1 && nRecipes == old(nRecipes) && recipes[..] == old(recipes[..])
      ensures ref.Cell? ==> rc == 0 && nRecipes == (old(nRecipes) as int - 1) % 0x100
      ensures ref.Null? || old(nRecipes) > 0 <==> Valid()
      ensures ref.Cell? && old(recipes[ref.index].id) < old(nRecipes) ==>
        Live() == Removed(old(Live()), old(recipes[ref.index].id))
      ensures ref.Cell? && old(recipes[ref.index].id) < old(nRecipes) ==>
        recipes[nRecipes] == ShiftedIn(old(recipes[..]), nRecipes)
      ensures ref.Cell? && old(nRecipes) <= old(recipes[ref.index].id) ==>
        recipes[..] == old(recipes[..])[old(recipes[ref.index].id) := Zero]
      ensures ref.Cell? && 0 < old(nRecipes) <= old(recipes[ref.index].id) ==>
        Live() == old(Live())[..old(nRecipes) - 1]
      ensures ref.Cell? ==> forall j :: old(nRecipes) <= j < MaxRecipes && j != old(recipes[ref.index].id) ==>
        recipes[j] == old(recipes[j])
      ensures Valid() && old(IdsAreIndices()) ==> IdsAreIndices()
    {
      if ref.Null? {
        return -1;
      }
      var k := recipes[ref.index].id;
      ghost var before := recipes[..];
      ShiftDown(k);
      ghost var after := recipes[..];
      if k < nRecipes {
        ShiftMatchesRemoved(before, after, nRecipes, k);
      }
      nRecipes := if nRecipes == 0 then 0xFF else nRecipes - 1;
      rc := 0;
      if old(nRecipes) > 0 {
        assert Live() == after[..nRecipes];
        if k < old(nRecipes) {
          if old(IdsAreIndices()) {
            assert old(Live())[..k] == old(recipes[..k]);
            RemovedKeepsIds(old(Live()), k);
          }
        } else {
          assert Live() == old(Live())[..nRecipes];
        }
      }
    }

    /** The shifted array holds, before the last live slot, the live
        records with the k-th removed. */
    static lemma ShiftMatchesRemoved(before: seq<Recipe>, after: seq<Recipe>, n: nat, k: nat)
      requires |before| == MaxRecipes && |after| == MaxRecipes && k < n <= MaxRecipes
      requires forall j :: 0 <= j < k ==> after[j] == before[j]
      requires forall j :: k <= j < n ==> after[j] == ShiftedIn(before, j)
      ensures after[..n - 1] == Removed(before[..n], k)
    {
      var r := Removed(before[..n], k);
      forall j | 0 <= j < n - 1 ensures after[j] == r[j] {
        if j >= k {
          assert before[..n][j + 1] == before[j + 1];
        }
      }
    }

    /** The memset of slot k and the move loop of RecipeDelete: every slot
        from k to the last live one receives its successor, renumbered.
        When k is at or past the count the loop does not run and only slot
        k is zeroed. */
    method ShiftDown(k: uint8)
      requires Valid() && k < MaxRecipes
      modifies recipes
      ensures forall j :: 0 <= j < k ==> recipes[j] == old(recipes[j])
      ensures forall j :: k <= j < nRecipes ==> recipes[j] == ShiftedIn(old(recipes[..]), j)
      ensures nRecipes <= k ==> recipes[k] == Zero
      ensures forall j :: nRecipes <= j < MaxRecipes && j != k ==> recipes[j] == old(recipes[j])
    {
      recipes[k] := Zero;
      var i: nat := k;
      while i < nRecipes
        invariant k <= i && (k < nRecipes ==> i <= nRecipes)
        invariant forall j :: 0 <= j < k ==> recipes[j] == old(recipes[j])
        invariant forall j :: k <= j < i && j < nRecipes ==> recipes[j] == ShiftedIn(old(recipes[..]), j)
        invariant forall j :: i < j < MaxRecipes ==> recipes[j] == old(recipes[j])
        invariant nRecipes <= k ==> recipes[k] == Zero
        invariant forall j :: nRecipes <= j < MaxRecipes && j != k ==> recipes[j] == old(recipes[j])
      {
        var next := if i + 1 < MaxRecipes then recipes[i + 1] else Zero;
        recipes[i] := next.(id := i);
        i := i + 1;
      }
    }

    /** The outcome every setter shares: the updated record is stored at the
        pointer and 0 returned, or nothing changes and -1 is returned. */
    ghost predicate Stored(ref: RecipeRef, before: seq<Recipe>, update: Option<Recipe>, rc: int)
      reads this, recipes
      requires Allocated() && Points(ref) && |before| == MaxRecipes
    {
      if ref.Cell? && update.Some? then rc == 0 && recipes[..] == before[ref.index := update.value]
      else rc == -1 && recipes[..] == before
    }

    method Store(ref: RecipeRef, update: Option<Recipe>) returns (rc: int)
      requires Allocated() && Points(ref)
      requires ref.Cell? && update.Some? ==> update.value.id == recipes[ref.index].id
      modifies recipes
      ensures Allocated() && Stored(ref, old(recipes[..]), update, rc)
      ensures old(Valid()) ==> Valid() && (old(IdsAreIndices()) ==> IdsAreIndices())
    {
      if ref.Cell? && update.Some? {
        recipes[ref.index] := update.value;
        assert forall i :: 0 <= i < nRecipes && i < MaxRecipes ==> recipes[i].id == old(recipes[i].id);
        rc := 0;
      } else {
        rc := -1;
      }
    }

    method SetName(ref: RecipeRef, name: string) returns (rc: int)
      requires Allocated() && Points(ref)
      modifies recipes
      ensures Allocated() && Stored(ref, old(recipes[..]), if ref.Cell? then Some(WithName(old(recipes[ref.index]), name)) else None, rc)
      ensures old(Valid()) ==> Valid() && (old(IdsAreIndices()) ==> IdsAreIndices())
    {
      rc := Store(ref, if ref.Cell? then Some(WithName(recipes[ref.index], name)) else None);
    }

    method SetType(ref: RecipeRef, kind: int32) returns (rc: int)
      requires Allocated() && Points(ref)
      modifies recipes
      ensures Allocated() && Stored(ref, old(recipes[..]), if ref.Cell? then WithType(old(recipes[ref.index]), kind) else None, rc)
      ensures old(Valid()) ==> Valid() && (old(IdsAreIndices()) ==> IdsAreIndices())
    {
      rc := Store(ref, if ref.Cell? then WithType(recipes[ref.index], kind) else None);
    }

    method SetPyroOffTime(ref: RecipeRef, timer: uint8, seconds: uint16) returns (rc: int)
      requires Allocated() && Points(ref)
      modifies recipes
      ensures Allocated() && Stored(ref, old(recipes[..]), if ref.Cell? then WithPyroOffTime(old(recipes[ref.index]), timer, seconds) else None, rc)
      ensures old(Valid()) ==> Valid() && (old(IdsAreIndices()) ==> IdsAreIndices())
    {
      rc := Store(ref, if ref.Cell? then WithPyroOffTime(recipes[ref.index], timer, seconds) else None);
    }

    method SetPyroOffPower(ref: RecipeRef, timer: uint8, pct: uint8) returns (rc: int)
      requires Allocated() && Points(ref)
      modifies recipes
      ensures Allocated() && Stored(ref, old(recipes[..]), if ref.Cell? then WithPyroOffPower(old(recipes[ref.index]), timer, pct) else None, rc)
      ensures old(Valid()) ==> Valid() && (old(IdsAreIndices()) ==> IdsAreIndices())
    {
      rc := Store(ref, if ref.Cell? then WithPyroOffPower(recipes[ref.index], timer, pct) else None);
    }

    method SetPyroOnTime(ref: RecipeRef, timer: uint8, seconds: uint16) returns (rc: int)
      requires Allocated() && Points(ref)
      modifies recipes
      ensures Allocated() && Stored(ref, old(recipes[..]), if ref.Cell? then WithPyroOnTime(old(recipes[ref.index]), timer, seconds) else None, rc)
      ensures old(Valid()) ==> Valid() && (old(IdsAreIndices()) ==> IdsAreIndices())
    {
      rc := Store(ref, if ref.Cell? then WithPyroOnTime(recipes[ref.index], timer, seconds) else None);
    }

    method SetPyroOnRise(ref: RecipeRef, timer: uint8, cPerMin: uint8) returns (rc: int)
      requires Allocated() && Points(ref)
      modifies recipes
      ensures Allocated() && Stored(ref, old(recipes[..]), if ref.Cell? then WithPyroOnRise(old(recipes[ref.index]), timer, cPerMin) else None, rc)
      ensures old(Valid()) ==> Valid() && (old(IdsAreIndices()) ==> IdsAreIndices())
    {
      rc := Store(ref, if ref.Cell? then WithPyroOnRise(recipes[ref.index], timer, cPerMin) else None);
    }

    method SetPyroOnTemp(ref: RecipeRef, timer: uint8, celsius: uint16) returns (rc: int)
      requires Allocated() && Points(ref)
      modifies recipes
      ensures Allocated() && Stored(ref, old(recipes[..]), if ref.Cell? then WithPyroOnTemp(old(recipes[ref.index]), timer, celsius) else None, rc)
      ensures old(Valid()) ==> Valid() && (old(IdsAreIndices()) ==> IdsAreIndices())
    {
      rc := Store(ref, if ref.Cell? then WithPyroOnTemp(recipes[ref.index], timer, celsius) else None);
    }

    method SetUVTime(ref: RecipeRef, seconds: uint16) returns (rc: int)
      requires Allocated() && Points(ref)
      modifies recipes
      ensures Allocated() && Stored(ref, old(recipes[..]), if ref.Cell? then Some(WithUVTime(old(recipes[ref.index]), seconds)) else None, rc)
      ensures old(Valid()) ==> Valid() && (old(IdsAreIndices()) ==> IdsAreIndices())
    {
      rc := Store(ref, if ref.Cell? then Some(WithUVTime(recipes[ref.index], seconds)) else None);
    }
  }
}
