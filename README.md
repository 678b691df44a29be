# Koster firmware bookkeeping, modelled in Dafny

This project models and verifies four pieces of bookkeeping logic from the
Koster controller firmware and its build-time code generators:

- **The recipe table** (`src/recipe.c`). This is a fixed array of 32 recipe
  records, of which the first `n_recipes` are live.
  - `RecipeNew` appends a record whose id is its index.
  - `RecipeDelete` shifts the later records down and renumbers them.
  - The setters are bounds-checked and the getters are total.
  - The total time and maximum temperature are computed per recipe type.
  - The table is the class `Recipes.RecipeTable`. Its `array` is changed
    in place, and each method is proved against pure functions on the
    live records.
- **The alarm table** (`src/alarm.c`). This is 20 parallel slots of alarm
  id and activation epoch, where id 0 marks a free slot.
  - `AlarmSet` fills the first free slot or clears the first matching one.
  - `AlarmIsActive`, `AlarmWalk` and `AlarmActiveTypeAAlarms` scan the
    table.
  - `AlarmGetType` classifies an alarm id.
  - The class `Alarms.AlarmTable` is proved against `SetSpec`,
    `IsActiveSpec`, `WalkSpec` and `HasTypeA`.
- **Bounded parameter values and category walks** (`src/parameters_base.c`).
  - Increase and decrease wrap around within `[min, max]`.
  - Set is range-checked.
  - The per-access-level counts are looked up, and the category and
    parameter walks stop early on a negative callback result.
- **The two generators' configuration readers** (`codegenerators/parameters.py`
  and `codegenerators/default_recipes.py`).
  - `Configuration.read` validates the parsed XML document and fills the
    generator's tables.
  - `SourceGenerator.generate` derives what the emitted C depends on:
    - the category order and each category's parameters;
    - the length constants;
    - the recipe count;
    - the per-language name setters.

The XML document is a tree of `(tag, attributes, children)` values
(`XmlTree`). `element.get` returns `None` for an absent attribute, and that
`None` is stored and compared like any other value. Python dicts keep
insertion order, so each one is a sequence of pairs. A `raise` is an error
value. The state a loop leaves when it raises part-way is kept, as
`Seqs.Run` shows.

Nothing here parses XML, writes files or formats C text. The clock reading
is the parameter `epoch`, and the bus publish is the `notify` flag.
`settings_load` is the snapshot passed to `Init`.

## Model

| member | source | states |
|---|---|---|
| CTypes.WrapInt32 | src/parameters_base.c:87 | one step past either end of the int32 range re-enters at the other end; in range the value is unchanged |
| XmlTree.Get | codegenerators/parameters.py:205-206 | `element.get` yields the attribute's value exactly when the attribute is present, and None otherwise |
| XmlTree.Attributes | codegenerators/default_recipes.py:149-157 | one `element.get(key)` per element, in element order, None where the attribute is absent |
| XmlTree.Iter | codegenerators/parameters.py:204 | `iter(tag)` yields only elements with the tag, and the element itself first when it carries the tag |
| XmlTree.FindMeans | codegenerators/default_recipes.py:99 | `find` returns the earliest direct child with the tag, and finds nothing exactly when no child has it |
| XmlTree.FindInIter | codegenerators/default_recipes.py:99 | what `find` returns is also among what `iter` yields |
| Alarms.AlarmId | src/alarm.c:70 | the alarm id carries the error id in its low byte and the origin's high byte in its high byte |
| Alarms.GetType | src/alarm.c:27-58 | 'A' exactly for the thirteen listed ids, 'B' exactly for the ten listed ids, 'U' for every other id; only Koster-origin ids 0x1001-0x1017 are classified |
| Alarms.TestOriginsUnclassified | src/alarm.c:27-58 | alarms from either test origin, and the free id 0, are classified 'U' |
| Alarms.HasTypeA | src/alarm.c:113-125 | some slot of the table holds an id classified 'A' |
| Alarms.TypeAOnlyFromKoster | src/alarm.c:113-125 | a table without Koster-origin alarms has no type-A alarm |
| Alarms.SetSpec | src/alarm.c:69-111 | activation takes the lowest free slot and succeeds exactly when one exists; clearing zeroes id and time of the lowest slot holding exactly that id and succeeds exactly when one does; on -1 the table is unchanged; notify exactly on success |
| Alarms.ActivateDuplicates | src/alarm.c:78-101 | activating an id already present, with a free slot left, stores it a second time |
| Alarms.NotifyIffChanged | src/alarm.c:106-108 | for a non-zero id the notification is published exactly when the id array changed |
| Alarms.ClearZeroMatchesFreeSlot | src/alarm.c:83-92 | clearing id 0 matches a free slot: it succeeds and notifies, and the ids stay the same |
| Alarms.IsActiveSpec | src/alarm.c:145-160 | active exactly when some slot's low byte equals the error id; the origin is the high byte of the first such slot |
| Alarms.ActiveAfterActivate | src/alarm.c:95-101 | after a successful activation the error id is reported active |
| Alarms.IsActiveZeroOnFreeSlot | src/alarm.c:148-150 | as written, error id 0 is active whenever a slot is free |
| Alarms.WalkSpec | src/alarm.c:127-143 | the walk visits the occupied slots in index order, skips free ones, and stops after the first non-zero callback result, which it returns; it returns 0 after visiting all of them when no callback answers non-zero |
| Alarms.AlarmTable.constructor | src/alarm.c:16-17 | the static arrays start zeroed |
| Alarms.AlarmTable.Init | src/alarm.c:21-25 | every id and every time is zero |
| Alarms.AlarmTable.Set | src/alarm.c:69-111 | the return code, the notify flag and the new table are those of SetSpec for the composed alarm id |
| Alarms.AlarmTable.ActiveTypeA | src/alarm.c:113-125 | true exactly when some slot's id is classified 'A' |
| Alarms.AlarmTable.Walk | src/alarm.c:127-143 | the return code and the visited slots are those of WalkSpec over the table |
| Alarms.AlarmTable.IsActive | src/alarm.c:145-160 | the result and the origin written are those of IsActiveSpec |
| Recipes.Payloads | src/recipe.c:184-187 | the records with their ids set aside |
| Recipes.Removed | src/recipe.c:172-194 | deleting one of the live records leaves one fewer |
| Recipes.RemovedDropsOne | src/recipe.c:183-189 | deletion keeps every other record's contents, in the same order |
| Recipes.RemovedKeepsIds | src/recipe.c:186 | if the records before the deleted one carry their index as id, every live record does afterwards |
| Recipes.NameOf | src/recipe.c:313-324 | None (rc -1) for NULL; otherwise a prefix of the stored name of at most min(bufsz, 127) characters, and the whole name when it is no longer than bufsz |
| Recipes.TypeOf | src/recipe.c:326-335 | the stored type, or NTypes for NULL |
| Recipes.PyroOffTimeOf | src/recipe.c:337-346 | the stored time of pyro-off timer `timer` for a record and a timer index below 2, and 0 otherwise |
| Recipes.PyroOffPowerOf | src/recipe.c:348-357 | the stored power of pyro-off timer `timer` for a record and a timer index below 2, and 0 otherwise |
| Recipes.PyroOnTimeOf | src/recipe.c:359-368 | the stored time of pyro-on timer `timer` for a record and a timer index below 3, and 0 otherwise |
| Recipes.PyroOnRiseOf | src/recipe.c:370-379 | the stored rise of pyro-on timer `timer` for a record and a timer index below 3, and 0 otherwise |
| Recipes.PyroOnTempOf | src/recipe.c:381-390 | the stored end temperature of pyro-on timer `timer` for a record and a timer index below 3, and 0 otherwise |
| Recipes.UVTimeOf | src/recipe.c:392-401 | the stored UV time, or 0 for NULL |
| Recipes.GettersTotal | src/recipe.c:313-401 | every getter has a fixed answer for NULL (no name, NTypes for the type, 0 for the numbers) and 0 for a timer index past its array; the copied name has at most bufsz characters, with no room promised for a terminator |
| Recipes.WithName | src/recipe.c:217-227 | the name becomes the given one cut at 127 characters, nothing else changes |
| Recipes.WithType | src/recipe.c:229-239 | accepted exactly for a type in [0, NTypes); then only the type changes |
| Recipes.WithPyroOffTime | src/recipe.c:241-251 | accepted exactly for a timer index below 2; then only that timer's time changes |
| Recipes.WithPyroOffPower | src/recipe.c:253-263 | accepted exactly for a timer index below 2 and a percentage up to 100; then only that timer's power changes |
| Recipes.WithPyroOnTime | src/recipe.c:265-275 | accepted exactly for a timer index below 3; then only that timer's time changes |
| Recipes.WithPyroOnRise | src/recipe.c:277-287 | accepted exactly for a timer index below 3; then only that timer's rise changes |
| Recipes.WithPyroOnTemp | src/recipe.c:289-299 | accepted exactly for a timer index below 3; then only that timer's end temperature changes |
| Recipes.WithUVTime | src/recipe.c:301-311 | only the UV time changes |
| Recipes.TotalTime | src/recipe.c:403-435 | -1 exactly for NULL and for the types other than IR, UVIR, 3StepIR and UV; otherwise at most three 16-bit times |
| Recipes.UvirIsIrPlusUv | src/recipe.c:412-418 | a UVIR recipe runs the IR total of the same timers plus its UV time |
| Recipes.TotalTimeIgnores | src/recipe.c:403-435 | 3StepIR and UV totals do not depend on pyro_on; an IR total ignores the UV time and the third on-timer |
| Recipes.MaxTemperature | src/recipe.c:437-460 | -1 exactly when the type compares no end temperature (UV, other types, or IR and UVIR with pyro off); otherwise the largest end temperature of the timers the type runs |
| Recipes.RecipeTable.constructor | src/recipe.c:62 | the static table starts all zero with no live records |
| Recipes.RecipeTable.Init | src/recipe.c:101-141 | the cleared table; -1 and a blank table if registering fails; -1 and the loaded table if loading fails; otherwise the loaded table, or the two built-in recipes with count 2 when nothing was loaded; a loaded count above 32 is kept as it is, and the table is then no longer Valid |
| Recipes.RecipeTable.Get | src/recipe.c:143-153 | succeeds exactly when id < n_recipes, with a pointer to cell id, which lies past the array exactly when id >= 32 (possible only after an oversized loaded count); in a Valid table it points at live record id, and when every live record's id equals its index that record's id is id; otherwise -1 and no pointer |
| Recipes.RecipeTable.GetNumRecipes | src/recipe.c:196-203 | the stored count, which in a Valid table is the number of live records |
| Recipes.RecipeTable.New | src/recipe.c:155-170 | succeeds exactly when the count is below 32, so an oversized loaded count always fails; then the live records gain the fresh IR record whose id is the old count, and nothing else changes; on failure nothing changes; a Valid table stays Valid with ids equal to indices |
| Recipes.RecipeTable.Delete | src/recipe.c:172-194 | NULL gives -1 and no change; otherwise 0, and the uint8 count is decremented, wrapping from 0 to 255, after which the table is no longer Valid; for a record id k below the old count the live records become the old ones with the k-th removed and the later ones renumbered; for k at or past the old count slot k is zeroed and every other slot is unchanged, so nothing shifts and the live records are the old ones without the last; otherwise the slots past the old count are unchanged; a Valid result keeps ids equal to indices |
| Recipes.RecipeTable.ShiftMatchesRemoved | src/recipe.c:183-187 | after the shift loop, the slots before the last live one hold the live records with the k-th removed |
| Recipes.RecipeTable.ShiftDown | src/recipe.c:178-187 | slots before k are kept, each slot from k to the last live one receives its successor renumbered, slot k is zero when k is at or past the count, and the other slots past the count are kept |
| Recipes.RecipeTable.Store | src/recipe.c:217-311 | the shared setter outcome: the updated record is stored at the pointer and 0 returned, or nothing changes and -1 is returned |
| Recipes.RecipeTable.SetName | src/recipe.c:217-227 | NULL gives -1 and no change; otherwise the record gets the truncated name |
| Recipes.RecipeTable.SetType | src/recipe.c:229-239 | the record changes as WithType says, or -1 and no change |
| Recipes.RecipeTable.SetPyroOffTime | src/recipe.c:241-251 | the record changes as WithPyroOffTime says, or -1 and no change |
| Recipes.RecipeTable.SetPyroOffPower | src/recipe.c:253-263 | the record changes as WithPyroOffPower says, or -1 and no change |
| Recipes.RecipeTable.SetPyroOnTime | src/recipe.c:265-275 | the record changes as WithPyroOnTime says, or -1 and no change |
| Recipes.RecipeTable.SetPyroOnRise | src/recipe.c:277-287 | the record changes as WithPyroOnRise says, or -1 and no change |
| Recipes.RecipeTable.SetPyroOnTemp | src/recipe.c:289-299 | the record changes as WithPyroOnTemp says, or -1 and no change |
| Recipes.RecipeTable.SetUVTime | src/recipe.c:301-311 | NULL gives -1 and no change; otherwise only the UV time changes |
| ParametersBase.Increased | src/parameters_base.c:80-94 | max goes to min, any other value up by one; a value in [min, max] stays there |
| ParametersBase.Decreased | src/parameters_base.c:96-110 | min goes to max, any other value down by one; a value in [min, max] stays there |
| ParametersBase.IncreaseDecreaseInverse | src/parameters_base.c:80-110 | on in-range values decrease undoes increase and increase undoes decrease |
| ParametersBase.IncreaseClimbs | src/parameters_base.c:84-88 | below the maximum, k increases add k |
| ParametersBase.DecreaseDescends | src/parameters_base.c:100-104 | above the minimum, k decreases subtract k |
| ParametersBase.IncreasesCompose | src/parameters_base.c:80-94 | j increases then k increases are j + k increases |
| ParametersBase.DecreasesCompose | src/parameters_base.c:96-110 | j decreases then k decreases are j + k decreases |
| ParametersBase.IncreaseFullCycle | src/parameters_base.c:80-94 | max - min + 1 increases return an in-range value to itself |
| ParametersBase.DecreaseFullCycle | src/parameters_base.c:96-110 | max - min + 1 decreases return an in-range value to itself |
| ParametersBase.IncreaseValue | src/parameters_base.c:80-94 | NULL gives -1; otherwise 0 and the value becomes Increased of the old one |
| ParametersBase.DecreaseValue | src/parameters_base.c:96-110 | NULL gives -1; otherwise 0 and the value becomes Decreased of the old one |
| ParametersBase.SetValue | src/parameters_base.c:112-122 | succeeds exactly for a non-NULL parameter and min <= value <= max, storing the value; a rejected value leaves the parameter unchanged |
| ParametersBase.GetNParams | src/parameters_base.c:135-147 | -EINVAL for a level past the access levels (checked first), -ENOENT for NULL, otherwise that level's count |
| ParametersBase.GetTotalNParams | src/parameters_base.c:149-159 | -ENOENT for NULL, otherwise the highest level's count |
| ParametersBase.TotalIsTopLevel | src/parameters_base.c:153-154 | the total is the top level's count, and bounds every level's count when the levels nest |
| ParametersBase.GetParam | src/parameters_base.c:161-176 | succeeds exactly for a non-NULL category and an index below the top-level count, giving the parameter at that index; -EINVAL otherwise |
| ParametersBase.Reachable | src/parameters_base.c:215-218 | how many category lookups succeed before the first failed one |
| ParametersBase.Found | src/parameters_base.c:215-218 | the categories those lookups yield, in index order |
| ParametersBase.CategoryCandidates | src/parameters_base.c:215-221 | the candidates sit at strictly increasing category indices before the first failed lookup, each has parameters at the level, and every found category with parameters at the level is among them |
| ParametersBase.CategoryWalkSpec | src/parameters_base.c:209-229 | -EINVAL exactly for a bad level or no callback; otherwise the visited categories are a prefix of the candidates (the categories found before the first failed lookup with parameters at the level, in index order); the walk ends before the last candidate only right after a negative callback result, returning 0; without a negative result it visits every candidate; -ENOENT exactly when no callback was negative and a lookup failed |
| ParametersBase.CategoryWalk | src/parameters_base.c:209-229 | the return code and the visited categories are those of CategoryWalkSpec |
| ParametersBase.ParamWalkSpec | src/parameters_base.c:231-249 | -EINVAL exactly for a bad level, no callback or NULL; otherwise the walk visits parameters 0, 1, ... in order, at most min(level count, top-level count) of them; it ends before that bound only right after a negative callback result, returning 0; without a negative result it visits all of them; -ENOENT exactly when no callback was negative and the level's count exceeds the top level's |
| ParametersBase.ParamWalkNested | src/parameters_base.c:237-246 | with nested levels and a callback that never stops the walk, ParamWalk returns 0 after visiting exactly the level's parameters |
| ParametersBase.ParamWalk | src/parameters_base.c:231-249 | the return code and the visited parameters are those of ParamWalkSpec |
| ParametersConfig.Pairs | codegenerators/parameters.py:204-206 | each element's (key, value) attribute pair, in document order |
| ParametersConfig.UniqueKeyValueDict | codegenerators/parameters.py:202-218 | the dict loop: the pairs in order, or the error for the first key or value already present |
| ParametersConfig.PairRun | codegenerators/parameters.py:202-218 | the dict loop raises exactly when a key or a value repeats, and otherwise keeps every pair |
| ParametersConfig.UniqueKeyValueDictInjective | codegenerators/parameters.py:202-218 | the dict is built exactly when no key and no value repeats, and it then holds every element's pair in order |
| ParametersConfig.ElementsToUniqueKeyValueDict | codegenerators/parameters.py:202-218 | the loop's result is UniqueKeyValueDict |
| ParametersConfig.CheckParameter | codegenerators/parameters.py:249-312 | the checks of one parameter in the order the loop makes them, with the first failing check's error |
| ParametersConfig.CheckParameterAccepts | codegenerators/parameters.py:249-312 | the ordered checks accept a parameter exactly when it meets every rule (Default; declared Category and AccessLevel; with Unit a declared Unit, Exponent, Min and Max and an integer Exponent; without Unit none of them; integer types with integer Max > Min; other types declared enums) |
| ParametersConfig.IntegerParamsHaveUnits | codegenerators/parameters.py:285-308 | an accepted integer parameter has a declared Unit and integer bounds with Min < Max |
| ParametersConfig.IntegerWithoutUnitIsKeyError | codegenerators/parameters.py:290-292 | an integer parameter without Unit and bounds gets past the RuntimeError checks and fails with a KeyError on Min |
| ParametersConfig.Validate | codegenerators/parameters.py:247-312 | the validation passes exactly when no parameter fails its checks |
| ParametersConfig.ValidateRaisesFirst | codegenerators/parameters.py:247-312 | it raises the error of the first parameter in insertion order whose check fails |
| ParametersConfig.ValidateAccepts | codegenerators/parameters.py:247-312 | the validation passes exactly when every parameter meets the rules |
| ParametersConfig.EnumsOf | codegenerators/parameters.py:229-235 | the Enum elements' names, each with its member pairs |
| ParametersConfig.ParamsOf | codegenerators/parameters.py:238-244 | the Parameter elements' ids, each with all its attributes |
| ParametersConfig.EnumRun | codegenerators/parameters.py:229-235 | the Enum loop raises exactly when an enum name repeats or a member dict is not one-to-one, and otherwise holds every enum |
| ParametersConfig.ParamRun | codegenerators/parameters.py:238-244 | the Parameter loop raises exactly when an Id repeats, and otherwise holds every parameter |
| ParametersConfig.ReadSpec | codegenerators/parameters.py:221-312 | the stages of read in order: the three dicts, the enums, the parameters, then validation, keeping what was stored before a raise |
| ParametersConfig.ReadStages | codegenerators/parameters.py:221-312 | a failing stage makes read raise; when every stage succeeds, read leaves the whole document and raises what the validation raises |
| ParametersConfig.ReadAcceptsValid | codegenerators/parameters.py:221-312 | read into a fresh Configuration succeeds exactly when the document satisfies every uniqueness and cross-reference rule, and then holds the whole document |
| ParametersConfig.Configuration.constructor | codegenerators/parameters.py:194-199 | the five dicts start empty |
| ParametersConfig.Configuration.Read | codegenerators/parameters.py:221-312 | the new dicts and the raised error are those of ReadSpec from the old dicts |
| ParametersConfig.Configuration.ReadEnums | codegenerators/parameters.py:229-235 | the enums dict and the error follow the Enum loop; the other dicts are unchanged |
| ParametersConfig.Configuration.ReadParameters | codegenerators/parameters.py:238-244 | the parameters dict and the error follow the Parameter loop; the other dicts are unchanged |
| ParametersConfig.Configuration.ValidateParameters | codegenerators/parameters.py:247-312 | the error raised is that of Validate on the current dicts |
| PyText.Split | codegenerators/parameters.py:317 | `str.split()` yields only non-empty words without whitespace |
| PyText.SplitKeepsLetters | codegenerators/parameters.py:317 | splitting loses exactly the whitespace; the words joined are the other characters in order |
| PyText.SplitJoinSpaces | codegenerators/parameters.py:317 | splitting space-joined words gives the words back |
| PyText.ToCamelCase | codegenerators/parameters.py:316-317 | the whitespace-separated words, each capitalized, concatenated |
| PyText.Capitalize | codegenerators/parameters.py:317 | `str.capitalize` keeps the length, upper-cases the first character and lower-cases the rest |
| PyText.CapitalizeCase | codegenerators/parameters.py:317 | capitalizing keeps whitespace where it was, changes only letter case, and is idempotent |
| PyText.CamelCaseLetters | codegenerators/parameters.py:316-317 | `to_camelcase` output has no whitespace and agrees, up to case, with the input's other characters in order |
| PyText.CamelCaseOfWords | codegenerators/parameters.py:316-317 | a name written as space-separated words becomes those words capitalized and concatenated |
| PyText.ParseInt | codegenerators/parameters.py:280 | int() of a string: optional surrounding whitespace, an optional sign and at least one decimal digit, otherwise a ValueError (None) |
| PyText.DecimalRoundTrip | codegenerators/parameters.py:280 | `int()` reads back the decimal text of every integer |
| PyText.ParseIntIgnoresPadding | codegenerators/parameters.py:294 | surrounding whitespace does not change what `int()` reads |
| PyText.LexLessTotal | codegenerators/parameters.py:406 | any two distinct strings are ordered one way or the other |
| PyText.LexLessTransitive | codegenerators/parameters.py:406 | the string order is transitive |
| PyText.LexLessAsymmetric | codegenerators/parameters.py:406 | the string order is asymmetric |
| PyText.LexLessIrreflexive | codegenerators/parameters.py:406 | no string precedes itself |
| ParametersGenerate.BeforeOrder | codegenerators/parameters.py:409 | ordering by name with ties broken by position (what a stable sort does) is a strict total order |
| ParametersGenerate.Sort | codegenerators/parameters.py:406 | `sorted` returns a strictly increasing permutation of its input |
| ParametersGenerate.CategoryNames | codegenerators/parameters.py:406 | each category name with its declaration position |
| ParametersGenerate.ParamNames | codegenerators/parameters.py:409 | each parameter Name with its table position |
| ParametersGenerate.Members | codegenerators/parameters.py:407-408 | the named parameters whose Category is the given name |
| ParametersGenerate.CategoryLayout | codegenerators/parameters.py:406-419 | one entry per declared category |
| ParametersGenerate.LayoutOrder | codegenerators/parameters.py:406-418 | categories are emitted in strictly increasing name order, each declared category once with its Id |
| ParametersGenerate.CategoryParamsMembers | codegenerators/parameters.py:407-410 | a category's parameter indices are exactly those of the parameters whose Category names it |
| ParametersGenerate.CategoryParamsSorted | codegenerators/parameters.py:409-410 | a category's parameter indices are distinct and ordered by Name, ties in table order |
| ParametersGenerate.LayoutGroupsParameters | codegenerators/parameters.py:406-419 | each emitted category lists exactly its parameters, once each, ordered by Name; n_params is their number |
| ParametersGenerate.MaxOf | codegenerators/parameters.py:428 | `max` is an element bounding all elements; None where Python raises on an empty list |
| ParametersGenerate.CategoryNameMaxLen | codegenerators/parameters.py:428 | one more than the longest category name, so every name and its NUL fit |
| ParametersGenerate.ParamNameMaxLen | codegenerators/parameters.py:430 | one more than the longest parameter Name |
| ParametersGenerate.ParamDescMaxLen | codegenerators/parameters.py:431 | one more than the longest Description |
| ParametersGenerate.MemberNamesAll | codegenerators/parameters.py:331-341 | every enum member name is among the lengths collected |
| ParametersGenerate.MemberNamesOnly | codegenerators/parameters.py:331-341 | nothing but enum member names is collected |
| ParametersGenerate.ValueStringMaxLen | codegenerators/parameters.py:432 | at least 12 (ten digits, a decimal point and the NUL), and every member name plus two fits |
| ParametersGenerate.ValueStringMaxLenBounds | codegenerators/parameters.py:341 | every enum member name plus two fits the value string |
| ParametersGenerate.ValueStringMaxLenAttained | codegenerators/parameters.py:330-341 | the value-string length is exactly 12 or exactly what the longest member name needs |
| ParametersGenerate.MaxParamsInCategory | codegenerators/parameters.py:429 | the largest category count: it bounds every n_params and is attained |
| DefaultRecipesConfig.TypeClasses | codegenerators/default_recipes.py:98-140 | 3StepIR reads both pyro-on groups and no pyro-off timers; the pyro-off readers read the first two pyro-on timers and no third; no pyro-on reader reads a UV element |
| DefaultRecipesConfig.LookupIsFind | codegenerators/default_recipes.py:99 | each timer lookup is `find` of that element's tag |
| DefaultRecipesConfig.MissingForIsFirst | codegenerators/default_recipes.py:98-145 | the element reported missing is required and absent, every required element looked up before it is present, and none is reported exactly when all required ones are present |
| DefaultRecipesConfig.TimersOf | codegenerators/default_recipes.py:95-145 | reading the timers raises exactly when some element the type requires is missing, and names a required missing element |
| DefaultRecipesConfig.RequiredPresent | codegenerators/default_recipes.py:98-145 | once the timers are read, every element the type requires was found |
| DefaultRecipesConfig.OnTimersByType | codegenerators/default_recipes.py:95-121 | pyro-on slots 0 and 1 come from PyroOnTimer1 and PyroOnTimer2 for IR, 3StepIR and UVIR; slot 2 from PyroOnTimer3 only for 3StepIR; every other slot stays "0" |
| DefaultRecipesConfig.OffTimersByType | codegenerators/default_recipes.py:123-137 | pyro-off slots come from PyroOffTimer1 and PyroOffTimer2 for IR and UVIR, and stay "0" otherwise |
| DefaultRecipesConfig.UvTimeByType | codegenerators/default_recipes.py:139-145 | the UV time comes from the UV element for UV and UVLED; UVIR and the others keep "0" |
| DefaultRecipesConfig.OverrideStep | codegenerators/default_recipes.py:149-158 | one LanguageOverride: raises when the language is already in the names dict; otherwise adds the language to `langs` if new and stores the name under it |
| DefaultRecipesConfig.RecipeStep | codegenerators/default_recipes.py:85-172 | one Recipe element: the duplicate-name, type, timer and override checks in order, appending the recipe when all pass |
| DefaultRecipesConfig.ReadSpec | codegenerators/default_recipes.py:80-172 | the Recipe loop over the enumerated Recipe elements from the current state, stopping at the first raise |
| DefaultRecipesConfig.OverrideNames | codegenerators/default_recipes.py:147-158 | the names dict starts with "EN" and the default name and never repeats a language; the loop raises exactly when a language repeats, "EN" included; otherwise its languages are "EN" then the overrides in order |
| DefaultRecipesConfig.OverrideLangsKept | codegenerators/default_recipes.py:154-155 | `langs` only grows, keeps no repeats, gains only override languages, and lists every language of the names dict |
| DefaultRecipesConfig.RecipeStepKeeps | codegenerators/default_recipes.py:84-172 | one pass of the Recipe loop keeps the state consistent (langs start with "EN" without repeats, distinct default names, well-formed recipes), whether it appends or raises |
| DefaultRecipesConfig.RunKeeps | codegenerators/default_recipes.py:84-172 | however far the Recipe loop gets, the state stays consistent |
| DefaultRecipesConfig.ReadKeeps | codegenerators/default_recipes.py:80-172 | read keeps a consistent Configuration consistent, and a fresh one is consistent |
| DefaultRecipesConfig.Numbered | codegenerators/default_recipes.py:84 | `enumerate` pairs each element with its position |
| DefaultRecipesConfig.StepAccepts | codegenerators/default_recipes.py:85-172 | one pass appends exactly when the name is new and the element acceptable; the appended recipe carries the element's position, name and type |
| DefaultRecipesConfig.NamesMatch | codegenerators/default_recipes.py:86 | recipes whose default names are the elements' hold a name exactly when an element does |
| DefaultRecipesConfig.FreshRunStep | codegenerators/default_recipes.py:84-172 | the last pass into a table without recipes: no change after a raise; otherwise it succeeds exactly for an acceptable element with a new name and appends its recipe |
| DefaultRecipesConfig.FreshRunShape | codegenerators/default_recipes.py:162 | after a successful read into an empty table there is one recipe per element whose id is its position and whose name and type are the element's |
| DefaultRecipesConfig.FreshRunAccepts | codegenerators/default_recipes.py:84-172 | read into an empty table succeeds exactly when the default names are distinct and every Recipe element is acceptable |
| DefaultRecipesConfig.Configuration.constructor | codegenerators/default_recipes.py:76-78 | no recipes and `langs == ["EN"]` |
| DefaultRecipesConfig.Configuration.ReadTimers | codegenerators/default_recipes.py:95-145 | the timer lists are those of TimersOf |
| DefaultRecipesConfig.Configuration.FillTimers | codegenerators/default_recipes.py:95-145 | the timer lists filled in place are those of TimersFor |
| DefaultRecipesConfig.Configuration.ReadOverrides | codegenerators/default_recipes.py:147-158 | `langs`, the names dict and the error follow the LanguageOverride loop; recipes are unchanged |
| DefaultRecipesConfig.Configuration.ReadRecipe | codegenerators/default_recipes.py:85-172 | one pass changes recipes, langs and the error as RecipeStep says |
| DefaultRecipesConfig.Configuration.Read | codegenerators/default_recipes.py:80-172 | recipes, langs and the error are those of the Recipe loop from the old state |
| DefaultRecipesGenerate.Setters | codegenerators/default_recipes.py:205-207 | a recipe contributes at most one setter per names entry |
| DefaultRecipesGenerate.SettersMembers | codegenerators/default_recipes.py:205-207 | a recipe's setters for a language are exactly its (language, name) entries |
| DefaultRecipesGenerate.LangSetters | codegenerators/default_recipes.py:202-209 | the setters of one language's function: each recipe's, in recipe order |
| DefaultRecipesGenerate.LangSettersMembers | codegenerators/default_recipes.py:202-209 | a language's function copies a name into a row exactly when a recipe with that id holds the name under the language |
| DefaultRecipesGenerate.NoSetters | codegenerators/default_recipes.py:206 | a recipe without the language contributes no setter |
| DefaultRecipesGenerate.AtMostOneSetter | codegenerators/default_recipes.py:205-207 | a names dict without repeats gives at most one setter per language |
| DefaultRecipesGenerate.SettersPerRecipe | codegenerators/default_recipes.py:202-209 | then a language's function has at most one setter per recipe |
| DefaultRecipesGenerate.EnglishSetter | codegenerators/default_recipes.py:147 | a recipe as read contributes exactly one English setter, its default name |
| DefaultRecipesGenerate.EnglishSetters | codegenerators/default_recipes.py:202-209 | the English function copies every recipe's default name into its row, in recipe order |
| DefaultRecipesGenerate.SettersSplit | codegenerators/default_recipes.py:205-207 | the setters of a concatenated dict are those of its parts |
| DefaultRecipesGenerate.SettersInTable | codegenerators/default_recipes.py:207 | when ids are positions every setter writes a row of the table |
| DefaultRecipesGenerate.FreshGenerate | codegenerators/default_recipes.py:202-218 | after a successful fresh read, n_recipes is the number of Recipe elements, every setter writes a row that exists, and the English function writes each element's Name into the row at its position |
| DefaultRecipesGenerate.SourceGenerator.constructor | codegenerators/default_recipes.py:178-179 | keeps the configuration |
| DefaultRecipesGenerate.SourceGenerator.CollectSetters | codegenerators/default_recipes.py:203-207 | the nested loops collect exactly LangSetters |
| DefaultRecipesGenerate.SourceGenerator.Generate | codegenerators/default_recipes.py:181-221 | one declaration per language in order, one row per recipe, n_recipes the recipe count, and one definition per language holding that language's setters |

## Left out

- Locking: every `k_mutex` lock and unlock is left out. Each call is modelled as atomic, and the lock never fails. So the -1 a failed lock would give, and the lock `ParamGetCurrentValueString` keeps held when it returns, are not modelled.
- Settings persistence in the recipe table is not modelled: `handle_set`, `handle_export`, `settings_register`, `settings_load` and `RecipePersistAll`. The registration result, the load result and the loaded snapshot are inputs of `Init`.
- Logging is not modelled. `RecipePrintAll` and the log calls are output only.
- The zbus publish of `notify_alarm` is not modelled beyond the `notify` flag. `RtcGetEpoch` is the `epoch` parameter.
- The getters that only read one field behind a NULL check are not modelled: `ParamGetName`, `ParamGetValue`, `ParamGetId`, `ParamGetMinValue`, `ParamGetMaxValue`, `ParamGetExponent`, `ParamIsEnum`, `ParamGetCategoryName` and `ParamGetAccess`. The `Param` class exposes those fields directly.
- `ParamGetCurrentValueString` and value-string formatting are not modelled. They use `snprintf` and floating-point `pow`.
- The callbacks' `arg` pointers are left out. Callbacks are pure functions, and each walk returns the list of items it handed to the callback.
- `ParamGetCategory` is generated code and is not part of this model. `CategoryWalk` takes its results as a sequence of lookups, one per category index, up to `PARAM_NUM_CATEGORIES`.
- `PARAM_ACCESS_LEVELS` is generated. It is the parameter `levels`.
- `ParamSetValue` follows the `.c` file, which compares an `int32_t`. Its declaration in the header takes a `uint32_t`.
- The per-level `n_params` array follows `src/parameters_base.c`. The header declares a scalar count and is not modelled.
- XML parsing, file writes and all C template text in both generators are not modelled. The document is given as an element tree, and the outputs are structured values, not text.
- `parameters.py` `generate`: the enum declarations, getters, setters, initializers and value-string cases it formats are template text. Only the category layout and the length constants are modelled.
- Python strings are ASCII here. `str.isspace`, `str.capitalize`, `str.split` and `int()` are modelled on ASCII characters only, so Unicode whitespace, Unicode case mapping and non-ASCII digits are not covered.
- `int()` is modelled for base 10 only, which is how the generators call it.
- Recipes.WithName: the name is a sequence of characters cut at 127. The bytes `strncpy` leaves behind in the buffer are not modelled.
- Recipes.NameOf: the result is the characters copied, at most `min(bufsz, 127)` of them. `strncpy` writes a terminator only when the stored name is shorter than `min(bufsz, 127)`. When it is not, the caller's buffer holds an unterminated string, and the model does not flag that. The padding bytes `strncpy` writes after a terminator are not modelled.
- Recipes.RecipeTable.Delete: it requires a Valid table and a record id below 32. The C code checks neither. A record id of 32 or more makes the `memset` write past the array, and a loaded count above 32 makes the shift loop do so.
- Recipes.RecipeTable.Store and the eight setters (SetName to SetUVTime): they require a pointer into the array. After a loaded count above 32, `RecipeGet` can return a pointer past the array, and writing through it is undefined behaviour in C, so it is not modelled.
- Recipes.RecipeTable.Init: the loaded snapshot has the size `handle_set` checks, and its count is kept unchecked. Its records are taken to have names of at most 127 characters ending in a terminator, as records the firmware wrote do. A stored name filling the whole buffer without a terminator is not modelled.
- Recipes.RecipeTable.ShiftDown: when the table is full, the C shift loop reads the record one past the array. The model reads a zero record there.
- ParametersBase.Increased: incrementing `INT32_MAX` is undefined behaviour in C. It can happen only for a value above its maximum, and it is modelled as two's-complement wrap-around. Decreased models `INT32_MIN` the same way.
- CTypes.WrapInt32: it covers only the ±1 steps of increase and decrease, not general int32 arithmetic.
- ParametersGenerate.CategoryLayout: it requires every category and parameter to have a name and every parameter a Category. Python raises a TypeError or a KeyError without them. It also uses a parameter's table position where Python looks up `id_to_index[p["Id"]]`.
- ParametersGenerate.CategoryNameMaxLen: it requires named categories, where Python raises a TypeError. An empty list gives None, where `max([])` raises a ValueError.
- ParametersGenerate.ParamNameMaxLen: it requires every parameter to have a Name, where Python raises a KeyError.
- ParametersGenerate.ParamDescMaxLen: it requires every parameter to have a Description, where Python raises a KeyError.
- ParametersGenerate.ValueStringMaxLen: it requires every enum member to have a Name, where `len(None)` raises a TypeError.
- DefaultRecipesGenerate.SourceGenerator.Generate: the row text and the C string escaping of names are not modelled. A setter is the pair of row id and name it writes. Because the row text is left out, so is the `TypeError` that `", ".join` raises while formatting a row whose timer list holds None. `read` stores such a None when a required timer element lacks its Time, Power, Rise or End attribute. The model yields one row per recipe even then.
- The defaults asserted in the recipe unit tests come from a test fake. The model holds the two built-in recipes coded in `src/recipe.c`.
- The alarm unit tests expect type 'A' for a test-origin id. The model follows the code, which returns 'U' for every id outside its switch.
- The recipe ids restart at 0 when `default_recipes.py` `read` is called on a Configuration that already holds recipes, as the code does. `FreshRunShape` and `FreshRunAccepts` are stated for a Configuration without recipes.
