# Palette and condition resolution core of dc-general

This project models, in Dafny, three components of the dc-general data
definition layer and proves properties of the model:

- **DefaultContainer**, the definition registry: one definition object per
  name, with typed accessors for the basic, properties, palettes and
  data-provider definitions. Its PHP array is modelled as a map plus the
  sequence of its keys in insertion order (module `DefinitionRegistry`).
- **PropertyValueCondition**, the condition that makes a property visible
  when one property's value equals an expected value. A pending input value
  wins over the record's value, with neither the condition is false, and the
  comparison is PHP's `===` or `==` (module `PropertyConditions`, with
  the values and the comparison table in `PhpValues`).
- **Palette**, an ordered set of legends held by object identity, with an
  optional palette condition (module `Palettes`).

Shared modules: `Wrappers` (Option, Result, Outcome for thrown exceptions),
`Errors`, `Seqs` (the key order of a PHP array under assignment and
`unset`), `Data` (the record and the input bag as maps).

State the source updates in place is held in classes. `DefaultContainer`,
`Palette`, `Legend` and `PropertyValueCondition` keep their fields, and
each mutating method states its new state through a pure function of the old
one (`Put`, `Remove`, `AddAll`, `AppendIfAbsent`, `Without`,
`AppendAll`). The lemmas about those functions carry the properties.
`match` is a function, and the loops of `addDefinitions`, `getProperties`,
`hasLegend`, `getLegend`, `addLegends` and the intended `__clone` are
`while` loops with invariants.

Loose equality (`==`) is one documented relation over
`Null | Bool | Int | Str`. It follows PHP 5's comparison rules for these
values, with numeric strings limited to decimal integers (see "Left out"):

- a boolean or null operand compares by truth value;
- null against a string compares as `''`;
- an integer against a string compares with the string's leading integer;
- two strings compare numerically when both are decimal-integer strings, and
  character by character otherwise.

It contains strict equality (`StrictImpliesLoose`), is symmetric, and is
not transitive.

Where the code and its documented intent differ, the model follows the code:

- `addDefinitions` is not all-or-nothing. It stores entries until the first
  one that is not a definition and leaves those stored (`AddAllFailure`,
  `AddAllNotAtomic`).
- `match` with no usable input and no record returns false. This follows
  the implementation, not the interface's doc comment, which says all
  properties are shown then.

## Model

| member | source | states |
|---|---|---|
| PhpValues.LooseEquals | src/ContaoCommunityAlliance/DcGeneral/DataDefinition/Palette/Condition/Property/PropertyValueCondition.php:150 | `==` on the modelled values: strictly equal values are loosely equal, a boolean operand compares truth values, and two strings that are not both numeric compare as strings |
| PhpValues.StrictImpliesLoose | src/ContaoCommunityAlliance/DcGeneral/DataDefinition/Palette/Condition/Property/PropertyValueCondition.php:150 | every strictly equal pair of values is loosely equal |
| PhpValues.LooseSymmetric | src/ContaoCommunityAlliance/DcGeneral/DataDefinition/Palette/Condition/Property/PropertyValueCondition.php:150 | loose equality does not depend on operand order |
| PhpValues.LooseNotTransitive | src/ContaoCommunityAlliance/DcGeneral/DataDefinition/Palette/Condition/Property/PropertyValueCondition.php:150 | null == 0 and 0 == 'a' but null != 'a' |
| PhpValues.LooseCoercions | src/ContaoCommunityAlliance/DcGeneral/DataDefinition/Palette/Condition/Property/PropertyValueCondition.php:150 | '1' == 1 and null == false hold loosely and fail strictly |
| PhpValues.IntToStringRoundTrip | src/ContaoCommunityAlliance/DcGeneral/DataDefinition/Palette/Condition/Property/PropertyValueCondition.php:55-60 | the string cast of an integer is a numeric string that reads back as the same integer |
| PhpValues.IntStringLooseEquality | src/ContaoCommunityAlliance/DcGeneral/DataDefinition/Palette/Condition/Property/PropertyValueCondition.php:150 | an integer is loosely but not strictly equal to its string cast; two integer strings are loosely equal iff the integers are |
| DefinitionRegistry.DefaultContainer.constructor | system/modules/generalDriver/DcGeneral/DataDefinition/DefaultContainer.php:40-51 | getName returns the constructor argument cast to string; the registry starts empty |
| DefinitionRegistry.GetSpec | system/modules/generalDriver/DcGeneral/DataDefinition/DefaultContainer.php:114-122 | getDefinition raises an invalid argument exactly when hasDefinition is false, and otherwise returns the stored definition |
| DefinitionRegistry.DefaultContainer.HasDefinition | system/modules/generalDriver/DcGeneral/DataDefinition/DefaultContainer.php:56-59 | true exactly when the name is a key of the definitions array, that is, one of the definition names |
| DefinitionRegistry.DefaultContainer.GetDefinition | system/modules/generalDriver/DcGeneral/DataDefinition/DefaultContainer.php:114-122 | succeeds exactly when hasDefinition is true, with the stored definition; otherwise the invalid argument naming the unregistered name |
| DefinitionRegistry.EmptySpec | system/modules/generalDriver/DcGeneral/DataDefinition/DefaultContainer.php:64-67 | after clearing, there are no names and hasDefinition is false for every name |
| DefinitionRegistry.DefaultContainer.ClearDefinitions | system/modules/generalDriver/DcGeneral/DataDefinition/DefaultContainer.php:64-67 | the registry becomes empty |
| DefinitionRegistry.PutSpec | system/modules/generalDriver/DcGeneral/DataDefinition/DefaultContainer.php:98-101 | after setDefinition(n, d), n is registered with d and every other name keeps its entry; an existing name keeps its place in the names and a new one is appended |
| DefinitionRegistry.DefaultContainer.SetDefinition | system/modules/generalDriver/DcGeneral/DataDefinition/DefaultContainer.php:98-101 | the new state is the old one with n set to d |
| DefinitionRegistry.RemoveSpec | system/modules/generalDriver/DcGeneral/DataDefinition/DefaultContainer.php:106-109 | after removeDefinition(n), n is absent, other entries are unchanged, the rest of the names keep their relative order, and removing an absent name is a no-op |
| DefinitionRegistry.DefaultContainer.RemoveDefinition | system/modules/generalDriver/DcGeneral/DataDefinition/DefaultContainer.php:106-109 | the new state is the old one with n unset |
| DefinitionRegistry.DefaultContainer.GetDefinitionNames | system/modules/generalDriver/DcGeneral/DataDefinition/DefaultContainer.php:127-130 | every registered name appears exactly once |
| DefinitionRegistry.FirstInvalid | system/modules/generalDriver/DcGeneral/DataDefinition/DefaultContainer.php:84-90 | finds the first batch entry that does not implement DefinitionInterface; it is absent iff all entries do |
| DefinitionRegistry.FirstInvalidAt | system/modules/generalDriver/DcGeneral/DataDefinition/DefaultContainer.php:84-90 | a non-definition preceded only by definitions is the first invalid entry, and the batch then stores exactly the entries before it |
| DefinitionRegistry.PutAllSpec | system/modules/generalDriver/DcGeneral/DataDefinition/DefaultContainer.php:84-92 | storing a batch appends the new names in iteration order, registers every name of the batch, and leaves other names' entries unchanged |
| DefinitionRegistry.PutAllValues | system/modules/generalDriver/DcGeneral/DataDefinition/DefaultContainer.php:84-92 | with distinct names, getDefinition of each batch name returns that entry's definition |
| DefinitionRegistry.PrefixStored | system/modules/generalDriver/DcGeneral/DataDefinition/DefaultContainer.php:84-92 | storing the first k entries registers each of their names |
| DefinitionRegistry.PrefixValues | system/modules/generalDriver/DcGeneral/DataDefinition/DefaultContainer.php:84-92 | with distinct names, each of the first k names holds its own entry's definition |
| DefinitionRegistry.AddAllSuccess | system/modules/generalDriver/DcGeneral/DataDefinition/DefaultContainer.php:82-93 | a batch of definitions only succeeds and registers every name; with distinct names, each name holds its own entry's definition |
| DefinitionRegistry.AddAllFailure | system/modules/generalDriver/DcGeneral/DataDefinition/DefaultContainer.php:82-93 | a batch whose first non-definition is at k raises an invalid argument naming it; the k earlier entries are already stored (with distinct names, each with its own definition) and every other name keeps its old entry |
| DefinitionRegistry.AddAllNotAtomic | system/modules/generalDriver/DcGeneral/DataDefinition/DefaultContainer.php:82-93 | a concrete failing batch still changes the registry |
| DefinitionRegistry.DefaultContainer.AddDefinitions | system/modules/generalDriver/DcGeneral/DataDefinition/DefaultContainer.php:82-93 | the foreach loop yields exactly AddAll of the old state and the batch |
| DefinitionRegistry.DefaultContainer.SetDefinitions | system/modules/generalDriver/DcGeneral/DataDefinition/DefaultContainer.php:72-77 | clear, then add: the result is AddAll of the empty registry |
| DefinitionRegistry.DefaultContainer.SetDefinitionsAsWritten | system/modules/generalDriver/DcGeneral/DataDefinition/DefaultContainer.php:72-77 | as written: the registry is cleared and the call ends in a fatal error |
| DefinitionRegistry.DefaultContainer.SetBasicDefinition | system/modules/generalDriver/DcGeneral/DataDefinition/DefaultContainer.php:143-146 | setDefinition under the basic name |
| DefinitionRegistry.DefaultContainer.SetPropertiesDefinition | system/modules/generalDriver/DcGeneral/DataDefinition/DefaultContainer.php:167-170 | setDefinition under the properties name |
| DefinitionRegistry.DefaultContainer.SetPalettesDefinition | system/modules/generalDriver/DcGeneral/DataDefinition/DefaultContainer.php:191-194 | setDefinition under the palettes name |
| DefinitionRegistry.DefaultContainer.SetDataProviderDefinition | system/modules/generalDriver/DcGeneral/DataDefinition/DefaultContainer.php:215-218 | setDefinition under the data-provider name |
| DefinitionRegistry.TypedAccessorsDelegate | system/modules/generalDriver/DcGeneral/DataDefinition/DefaultContainer.php:135-226 | each typed has/get accessor equals the generic one on its constant name |
| DefinitionRegistry.TypedGetterUnchecked | system/modules/generalDriver/DcGeneral/DataDefinition/DefaultContainer.php:151-154 | a typed getter returns whatever is stored under its name, even a definition lacking the typed interface |
| Seqs.AppendIfAbsentSpec | system/modules/generalDriver/DcGeneral/DataDefinition/Palette/Palette.php:135-141 | assigning by key makes the key present and keeps keys unique; an existing key does not move and a new one is appended |
| Seqs.WithoutMembers | system/modules/generalDriver/DcGeneral/DataDefinition/Palette/Palette.php:146-151 | unset removes exactly the given key |
| Seqs.WithoutNoDup | system/modules/generalDriver/DcGeneral/DataDefinition/Palette/Palette.php:146-151 | unset keeps keys unique |
| Seqs.WithoutAbsent | system/modules/generalDriver/DcGeneral/DataDefinition/Palette/Palette.php:146-151 | unsetting an absent key changes nothing |
| Seqs.WithoutSplice | system/modules/generalDriver/DcGeneral/DataDefinition/Palette/Palette.php:146-151 | unsetting a present key cuts it out and keeps the others in relative order |
| Seqs.AppendAllSpec | system/modules/generalDriver/DcGeneral/DataDefinition/Palette/Palette.php:101-107 | adding a list keeps the old legends first, contains exactly the old and new ones, and has no duplicates |
| Seqs.AppendAllDistinct | system/modules/generalDriver/DcGeneral/DataDefinition/Palette/Palette.php:101-107 | adding distinct new legends appends them in order |
| Seqs.AppendAllPrefix | system/modules/generalDriver/DcGeneral/DataDefinition/Palette/Palette.php:101-107 | each step of the loop only extends the order built so far |
| Seqs.DedupSpec | system/modules/generalDriver/DcGeneral/DataDefinition/Palette/Palette.php:91-96 | setLegends yields the given list with later duplicate references dropped: each reference once, the result of every prefix of the list is a prefix of the result, and a reference is appended exactly when no earlier position held it |
| Seqs.DedupStep | system/modules/generalDriver/DcGeneral/DataDefinition/Palette/Palette.php:91-96 | one more reference is skipped when an earlier position held it and otherwise goes last |
| Palettes.PropertiesOfAppend | system/modules/generalDriver/DcGeneral/DataDefinition/Palette/Palette.php:68-77 | one more legend appends its properties at the end (array_merge) |
| Palettes.PropertiesOfContents | system/modules/generalDriver/DcGeneral/DataDefinition/Palette/Palette.php:68-77 | no deduplication: the aggregate is as long as the legends' lists together and its bag is exactly the union of theirs, so it holds every legend's properties with their multiplicities, and only those |
| Palettes.PropertiesOfCounts | system/modules/generalDriver/DcGeneral/DataDefinition/Palette/Palette.php:68-77 | the aggregate's length is the sum of the legends' list lengths and its bag is the union of their bags |
| Palettes.PropertiesOfIncludes | system/modules/generalDriver/DcGeneral/DataDefinition/Palette/Palette.php:68-77 | each legend's properties, with multiplicities, are in the aggregate |
| Palettes.PropertiesOfMember | system/modules/generalDriver/DcGeneral/DataDefinition/Palette/Palette.php:68-77 | a property is in the aggregate iff some legend shows it |
| Palettes.PropertiesOfTwoLegends | system/modules/generalDriver/DcGeneral/DataDefinition/Palette/Palette.php:68-77 | legends [P1] and [P2] give [P1, P2] |
| Palettes.Palette.constructor | system/modules/generalDriver/DcGeneral/DataDefinition/Palette/Palette.php:32-46 | a new palette has a null name, no legends and a null condition |
| Palettes.Palette.SetName | system/modules/generalDriver/DcGeneral/DataDefinition/Palette/Palette.php:51-55 | getName returns the argument cast to string |
| Palettes.Palette.GetProperties | system/modules/generalDriver/DcGeneral/DataDefinition/Palette/Palette.php:68-77 | the result is the concatenation of the legends' properties in insertion order |
| Palettes.Palette.ClearLegends | system/modules/generalDriver/DcGeneral/DataDefinition/Palette/Palette.php:82-86 | no legends remain |
| Palettes.Palette.SetLegends | system/modules/generalDriver/DcGeneral/DataDefinition/Palette/Palette.php:91-96 | empties the palette, then adds the list in order, setting each legend's back-reference |
| Palettes.Palette.AddLegends | system/modules/generalDriver/DcGeneral/DataDefinition/Palette/Palette.php:101-107 | adds each legend in order and sets its back-reference |
| Palettes.Palette.HasLegend | system/modules/generalDriver/DcGeneral/DataDefinition/Palette/Palette.php:112-121 | true iff some contained legend's name equals the name under PHP's == |
| Palettes.Palette.ContainsLegend | system/modules/generalDriver/DcGeneral/DataDefinition/Palette/Palette.php:126-130 | a legend is contained by identity: an absent legend is at no position, and in a valid palette a contained one is at exactly one position |
| Palettes.Palette.AddLegend | system/modules/generalDriver/DcGeneral/DataDefinition/Palette/Palette.php:135-141 | the legend is contained, once, its back-reference is this palette, and re-adding does not move it |
| Palettes.Legend.SetPalette | system/modules/generalDriver/DcGeneral/DataDefinition/Palette/Palette.php:139 | the legend's back-reference is the given palette |
| Palettes.Palette.RemoveLegend | system/modules/generalDriver/DcGeneral/DataDefinition/Palette/Palette.php:146-151 | the legend is no longer contained and the others keep their order; absent legends are a no-op |
| Palettes.Palette.GetLegend | system/modules/generalDriver/DcGeneral/DataDefinition/Palette/Palette.php:156-165 | returns the first legend in insertion order whose name matches, and raises a runtime error iff there is none |
| Palettes.Palette.GetLegends | system/modules/generalDriver/DcGeneral/DataDefinition/Palette/Palette.php:170-173 | the legends in insertion order, each contained reference exactly once and every contained legend present |
| Palettes.Palette.SetCondition | system/modules/generalDriver/DcGeneral/DataDefinition/Palette/Palette.php:178-189 | getCondition returns the given condition, null included, and the legends are untouched |
| Palettes.Palette.CloneAsWritten | system/modules/generalDriver/DcGeneral/DataDefinition/Palette/Palette.php:194-203 | as written: the copy has no legends, and a null condition is a fatal error |
| Palettes.CloneDropsLegendsWitness | system/modules/generalDriver/DcGeneral/DataDefinition/Palette/Palette.php:196-200 | a palette with one legend whose copy has none |
| Palettes.CloneNullConditionWitness | system/modules/generalDriver/DcGeneral/DataDefinition/Palette/Palette.php:202 | a palette without a condition cannot be copied as written |
| Palettes.Palette.Clone | system/modules/generalDriver/DcGeneral/DataDefinition/Palette/Palette.php:194-203 | corrected: a fresh copy of every legend, in order, and of the condition when there is one |
| Palettes.Legend.Clone | system/modules/generalDriver/DcGeneral/DataDefinition/Palette/Palette.php:198 | a fresh legend with the same fields |
| Palettes.PaletteCondition.Clone | system/modules/generalDriver/DcGeneral/DataDefinition/Palette/Palette.php:202 | a fresh condition with the same rule |
| PropertyConditions.PropertyValueCondition.constructor | src/ContaoCommunityAlliance/DcGeneral/DataDefinition/Palette/Condition/Property/PropertyValueCondition.php:55-60 | the name is cast to string and strict to bool; with no arguments the name is '', the value null and strict false |
| PropertyConditions.PropertyValueCondition.SetPropertyName | src/ContaoCommunityAlliance/DcGeneral/DataDefinition/Palette/Condition/Property/PropertyValueCondition.php:69-73 | getPropertyName returns the argument cast to string; value and strict unchanged |
| PropertyConditions.PropertyValueCondition.SetPropertyValue | src/ContaoCommunityAlliance/DcGeneral/DataDefinition/Palette/Condition/Property/PropertyValueCondition.php:92-96 | getPropertyValue returns the argument; name and strict unchanged |
| PropertyConditions.PropertyValueCondition.SetStrict | src/ContaoCommunityAlliance/DcGeneral/DataDefinition/Palette/Condition/Property/PropertyValueCondition.php:115-119 | getStrict returns the argument cast to bool; name and value unchanged |
| PropertyConditions.PropertyValueCondition.Clone | src/ContaoCommunityAlliance/DcGeneral/DataDefinition/Palette/Condition/Property/PropertyValueCondition.php:156-158 | the clone has the same name, value and strict flag |
| PropertyConditions.PropertyValueCondition.Match | src/ContaoCommunityAlliance/DcGeneral/DataDefinition/Palette/Condition/Property/PropertyValueCondition.php:136-151 | a match needs an input holding the property or a record; an input holding the property decides with === or == against the expected value; otherwise the record's getProperty value does |
| PropertyConditions.MatchPrefersInput | src/ContaoCommunityAlliance/DcGeneral/DataDefinition/Palette/Condition/Property/PropertyValueCondition.php:142-143 | an input holding the property decides, whatever the record holds |
| PropertyConditions.MatchFallsBackToModel | src/ContaoCommunityAlliance/DcGeneral/DataDefinition/Palette/Condition/Property/PropertyValueCondition.php:144-145 | without an input value, the record's getProperty value is compared |
| PropertyConditions.MatchWithoutSourcesIsFalse | src/ContaoCommunityAlliance/DcGeneral/DataDefinition/Palette/Condition/Property/PropertyValueCondition.php:146-147 | with no usable input and no record, match is false |
| PropertyConditions.StrictMatchImpliesLooseMatch | src/ContaoCommunityAlliance/DcGeneral/DataDefinition/Palette/Condition/Property/PropertyValueCondition.php:150 | a strict match implies the loose match on the same inputs |
| PropertyConditions.MatchIgnoresContext | src/ContaoCommunityAlliance/DcGeneral/DataDefinition/Palette/Condition/Property/PropertyValueCondition.php:136-151 | the property and legend arguments do not affect the result |
| PropertyConditions.MatchExamples | src/ContaoCommunityAlliance/DcGeneral/DataDefinition/Palette/Condition/Property/PropertyValueCondition.php:142-150 | expected 1 against input '1': strict false, loose true; input 'B' wins over record 'A'; record 'A' alone matches 'A' |

## Left out

- PropertyConditionInterface.php has no logic. Its `match` signature is mirrored by `PropertyValueCondition.Match`.
- CreatePropertyEvent.php is not part of this model. It is event plumbing with a trivial getter and setter.
- Legend internals are not shown, so a legend's visible properties are an abstract function field (`filter`). `Legend.Clone` copies the fields, as PHP's default clone does. `Legend.SetPalette` is a plain assignment.
- The palette condition's internals are not shown. It is a class holding an abstract rule, and its clone copies the rule.
- ModelInterface and PropertyValueBag are maps from property name to value. A property the record lacks reads as null.
- The definition interfaces are not shown. A definition is an opaque value with an "implements DefinitionInterface" flag and a set of typed interfaces.
- The NAME constants of the typed definition interfaces are defined outside this model. The names used here stand for them.
- PHP type hints on parameters (DefinitionInterface, the typed interfaces) become a subset type and `requires` clauses. The fatal error PHP raises for a wrong argument type is not modelled.
- spl_object_hash is object-reference identity.
- PHP's full `==` table is not modelled: floats, NaN, arrays, objects, fractional, exponent and hexadecimal numeric strings (PHP 5 reads `'0x1A' == '26'` as true; here they are compared as strings), and integer overflow to float. Integers are unbounded.
- PHP turns integer-like string array keys into integers. Registry names here are plain strings.
- The `$definitions` array is uninitialised in the source. The model starts it empty. PHP's initial null gives the same results for every operation except getDefinitionNames, where `array_keys(null)` warns and returns null and the model returns no names.
- Adding a legend to a second palette does not remove it from the first, and removing a legend does not clear its back-reference. The model keeps both behaviours and so has no invariant across palettes.
- Palettes.Palette.Clone: the clone's legends keep the original's back-reference, because Legend's __clone is not shown.
- Fluent setters return the object itself (`self == this`). The fluent chaining itself is not modelled.
- A sealed, read-only evaluation phase and concurrency are outside the source and are not modelled.

## Findings

| source | as written | input that shows it | evidently intended | confidence | as-written member | corrected member |
|---|---|---|---|---|---|---|
| system/modules/generalDriver/DcGeneral/DataDefinition/Palette/Palette.php:196-200 | the foreach runs over the local `$legends` just set to an empty array, so the clone gets no legends | a palette with one legend and a condition | clone each legend of `$this->legends`; the model keeps the copies in the original order, each held by its own identity (the usual fix would key them under the originals' hashes, which only the key strings distinguish) | high, not executed | Palettes.Palette.CloneAsWritten, Palettes.CloneDropsLegendsWitness | Palettes.Palette.Clone |
| system/modules/generalDriver/DcGeneral/DataDefinition/Palette/Palette.php:202 | `clone $this->condition` runs even when the condition is null, which is a fatal error | a new palette, whose condition is null | keep null when there is no condition | high, not executed | Palettes.Palette.CloneAsWritten, Palettes.CloneNullConditionWitness | Palettes.Palette.Clone |
| system/modules/generalDriver/DcGeneral/DataDefinition/DefaultContainer.php:74-76 | `->addDefinitions` is called on the null that clearDefinitions returns | setDefinitions with any array, even an empty one | clear the registry, then add the definitions | high, not executed | DefinitionRegistry.DefaultContainer.SetDefinitionsAsWritten | DefinitionRegistry.DefaultContainer.SetDefinitions |
