# any_facade in Dafny

A model of `any_facade`, a C++ type-erasure box `any<Interface, Comparable>`.
An `any` is empty or owns one holder. The holder owns one value of some concrete
type. The model has three parts.

- **Type tags.** Each `any` family has one registry: a counter (`s_type`) and
  the tags the family has handed out so far. The first request for a
  normalised type gets the incremented counter, and later requests get the
  cached tag. Tags are handed out lazily, during comparisons, so every
  comparison takes the registry before it and returns the registry after it.
- **Comparison policies and hooks.** The four policy structs say which of
  `equals` and `less` a family has. `compare2` compares tags first: equal
  tags compare by value, and different tags are unequal and ordered by tag.
  Before `compare2`, a per-type hook (`value_type_operations`) may
  special-case named other types.
- **The container.** `any` is a class with a nullable `content` field. It has
  constructors, `swap`, copy-and-swap assignment, `empty`, `call` and the six
  comparison operators.

The spreadsheet cell types show the hook mechanism on real data.

- **Keys.** Two key types order against each other by integer index.
- **Contents.** Three content types are equal across types when the decimal
  renderings of their values match.
- **Scenario.** The test scenario runs on a map held in key order.

Module layout:

- `type_info.dfy`: the registry (`TypeInfo`).
- `comparability.dfy`: policies and tag-first comparison (`Comparability`).
- `any_facade.dfy`: hooks, holder comparisons and the `any` class (`AnyFacade`).
- `decimal_text.dfy`: integer printing and reading, and truncating division (`DecimalText`).
- `spreadsheet.dfy`: the cell types and their families (`Spreadsheet`).
- `sheet.dfy`: the map (`Sheet`).
- `spreadsheet_scenario.dfy`: the spreadsheet scenario (`SpreadsheetScenario`).
- `comparison_tests.dfy`: the comparison-policy cases (`ComparisonTests`).
- `any_scenarios.dfy`: the basic and `call` cases (`AnyScenarios`).
- `wrappers.dfy`: `Option`.

How the model reads the source:

- **Which normalisation.** `include/any_facade.hpp:19-21` is the C++11
  branch. It writes `typedef std::remove_reference remove_reference;`, a
  typedef of a class template, which is ill-formed. The model therefore follows
  the fallback at `include/any_facade.hpp:23-30`. That fallback also sends
  `const T*` to `T*`, which `tests/TypeInfoUnitTests.cpp:22` relies on.
- **One level only.** The fallback strips one level: `const A* const` becomes
  `const A*`, which does not share a key with `A*`
  (`TypeInfo.OnlyOneConstIsStripped`).
- **Evaluation order.** In `other.type() == type_info::type_id<U>()`, and in
  `compare2`'s `this->type() == other.type()`, C++ leaves the evaluation
  order of the two operands unspecified. The model asks for the left one
  first. For the hook's test it decides only which tags the two types get, and those tags can decide later cross-type `<`. For
  `compare2` it also affects results: when neither type has a tag yet, the
  type requested first gets the smaller tag, so from one such registry both
  `a < b` and `b < a` hold (`AnyFacade.FirstRequestOrdersFirst`). The results
  that do not depend on the order are those stated over the registry a
  comparison leaves behind (`Expected`, `AnyFacade.HolderCompareMeaning`).

## Model

| member | source | states |
|---|---|---|
| TypeInfo.RemoveReference | include/any_facade.hpp:23-24 | `remove_reference` strips one outer `&` and leaves every other type as it is; together with `RemoveConst` its effect is stated by `QualifiersAreStripped` |
| TypeInfo.RemoveConst | include/any_facade.hpp:28-30 | `remove_const` strips one top-level `const` and also turns `const T*` into `T*`, and nothing deeper (`PointerToConstSharesKey`, `OnlyOneConstIsStripped`) |
| TypeInfo.Normalise | include/any_facade.hpp:98-102 | the key `type_id<T>` looks up: `remove_const` applied after `remove_reference` |
| TypeInfo.QualifiersAreStripped | include/any_facade.hpp:23-30 | `T`, `const T`, `T&` and `const T&` all normalise to the plain type `T` |
| TypeInfo.PointerToConstSharesKey | include/any_facade.hpp:30 | `const A*` and `A*` normalise to the same key `A*` |
| TypeInfo.OnlyOneConstIsStripped | include/any_facade.hpp:28-30 | `const A* const` keeps its inner const, so it does not share a key with `A*` |
| TypeInfo.TypeTag.Equals | include/any_facade.hpp:103-106 | `operator==` compares the tags' `m_value`; `TagEquivalenceIsEquality` proves it is identity of tags |
| TypeInfo.TypeTag.NotEquals | include/any_facade.hpp:107-110 | `operator!=` is the negation of `operator==` |
| TypeInfo.TypeTag.Less | include/any_facade.hpp:111-114 | `operator<` compares `m_value`; `TagEquivalenceIsEquality` proves it orders any two distinct tags exactly one way |
| TypeInfo.TypeTag.HashCode | include/any_facade.hpp:115 | `hash_code()` is the tag's `m_value` |
| TypeInfo.TagEquivalenceIsEquality | include/any_facade.hpp:103-115 | tags are equivalent under `<` exactly when `==` holds, `==` is identity, and two distinct tags are ordered exactly one way |
| TypeInfo.LookupBase | include/any_facade.hpp:85-96 | after a request, the key is tagged, the returned tag is its entry, and no earlier tag changed |
| TypeInfo.LookupType | include/any_facade.hpp:98-102 | as `LookupBase`, on the key with reference and top-level const removed |
| TypeInfo.BaseTypeIdKeepsValid | include/any_facade.hpp:85-96 | a first request returns `counter + 1` and adds exactly that tag; a repeated one returns the cached tag and changes nothing; tags stay injective, stay within `1..counter`, and their number stays equal to the counter |
| TypeInfo.TypeIdKeepsValid | include/any_facade.hpp:98-102 | `type_id` keeps the registry invariant |
| TypeInfo.ExtendsTransitive | include/any_facade.hpp:85-96 | `Extends` is transitive: a registry reached by a chain of requests keeps every tag of the first one |
| TypeInfo.RepeatedRequestIsStable | include/any_facade.hpp:88-95 | asking again for a type with the same key returns the same tag and leaves the registry unchanged |
| TypeInfo.SuccessiveRequests | tests/TypeInfoUnitTests.cpp:10-69 | two successive requests give equal tags if and only if the normalised types are equal, and both tags stay as the final registry holds them |
| TypeInfo.Registry.constructor | include/any_facade.hpp:118-120 | `s_type` starts at 0 with no type tagged, which satisfies the invariant |
| TypeInfo.Registry.BaseTypeId | include/any_facade.hpp:85-96 | the in-place update agrees with `LookupBase`: a first request increments the counter and records `tag == counter`, and a repeated one changes nothing |
| TypeInfo.Registry.TypeId | include/any_facade.hpp:98-102 | the in-place `type_id` agrees with `LookupType` and keeps the invariant |
| Comparability.PolicyFor | include/any_facade.hpp:127-242 | the four policy structs are exactly the four combinations of providing `equals` and `less` |
| Comparability.DefaultEquals | include/any_facade.hpp:166-170 | the default `equals<T>` is the value type's `operator==` |
| Comparability.DefaultLess | include/any_facade.hpp:200-204 | the default `less<T>` is the value type's `operator<`; the model's is the integer instance, given the one `int` member that `operator<` compares (`m_index` of `CoordinateCellId`, `.value` of `DefaultComparableType`) |
| Comparability.TagEquals | include/any_facade.hpp:155-164 | `compare2::equals`: equal tags compare the values with `equals`, different tags are unequal (`TagEqualsNeedsSameTag`) |
| Comparability.TagLess | include/any_facade.hpp:187-198 | `compare2::less`: equal tags compare the values with `less`, different tags are ordered by tag (`DistinctTagsAreOrdered`, `TagOrderIsStrictWeakOrder`) |
| Comparability.TagEqualsNeedsSameTag | include/any_facade.hpp:155-164 | `equals` holds only for equal tags, and for equal tags it is the value-level `equals` |
| Comparability.DistinctTagsAreOrdered | include/any_facade.hpp:187-198 | for different tags, exactly one of `x.less(y)` and `y.less(x)` holds |
| Comparability.TagOrderIsStrictWeakOrder | include/any_facade.hpp:229-240 | if value `<` is a strict weak order, so is the order that compares tags first |
| Comparability.TagEqualityIsEquivalence | include/any_facade.hpp:219-228 | if value `equals` is an equivalence, so is the equality that compares tags first |
| AnyFacade.BaseCompare | include/any_facade.hpp:216-240 | `compare2` on two holders: this operand's tag is requested, then the other's, and the tags-first comparison is applied; its meaning is `BaseCompareMeaning` |
| AnyFacade.TryOverrides | tests/AnyMultipleInterfacesUnitTests.cpp:204-214 | the hook's chain `if (other.type() == type_id<U>()) ... else Base`, each test requesting the other operand's tag and then `U`'s; its meaning is `TryOverridesMeaning` |
| AnyFacade.HolderCompare | include/any_facade.hpp:285-318 | `holder<T>::equals`/`less`: the hook of the left operand's type, with `compare2` as its base; its meaning is `HolderCompareMeaning` |
| AnyFacade.HolderEquals | include/any_facade.hpp:155-164 | `holder::equals`, available only when the policy provides `equals` |
| AnyFacade.HolderLess | include/any_facade.hpp:187-198 | `holder::less`, available only when the policy provides `less` |
| AnyFacade.FirstOverride | tests/AnyMultipleInterfacesUnitTests.cpp:252-273 | the special case that the hook's chain reaches first for a given other type: the first one, in source order, whose type normalises to it |
| AnyFacade.Expected | include/any_facade.hpp:216-240 | the reference definition, stated on types: the first matching special case decides; otherwise one type compares by value, and two types are unequal and ordered by their final tags (`HolderCompareMeaning` connects it to the registry-threading code) |
| AnyFacade.BaseCompareMeaning | include/any_facade.hpp:155-164 | `compare2` without overrides: the same type compares by value; different types are unequal and ordered by the tags the registry then holds; the registry stays valid and only grows |
| AnyFacade.TryOverridesMeaning | tests/AnyMultipleInterfacesUnitTests.cpp:252-273 | the hook's `if (other.type() == type_id<U>()) ... else Base` chain equals the first special case that names the other operand's type, or `compare2` when there is none |
| AnyFacade.HolderCompareMeaning | include/any_facade.hpp:285-318 | for every valid registry, `holder::equals` and `holder::less` compute the type-level reference definition `Expected` over the registry they leave behind, keeping it valid |
| AnyFacade.EqualsIgnoresRegistry | include/any_facade.hpp:219-228 | the outcome of `equals` is the same for every valid registry, and values of different types are equal only when an override names the other type |
| AnyFacade.CopyEqualsOriginal | include/any_facade.hpp:166-170 | a value whose `equals` is reflexive, with no override of its own type, is `equals` to itself, and so to a copy of itself |
| AnyFacade.UnoverriddenLessIsTagOrder | include/any_facade.hpp:229-240 | without overrides, `less` is `compare2::less` on the final tags of the two types |
| AnyFacade.MismatchedTypesAreNotEquivalent | tests/TypeInfoUnitTests.cpp:35-53 | two values of different types that no hook special-cases are never equivalent: comparing them both ways gives one `true` and one `false` |
| AnyFacade.FirstRequestOrdersFirst | include/any_facade.hpp:229-238 | from one registry in which neither of two distinct, un-special-cased types is tagged yet, `a < b` holds and so does `b < a`: the cross-type order is decided by which type is requested first |
| AnyFacade.Holder.constructor | include/any_facade.hpp:294-297 | the holder holds the value it was given |
| AnyFacade.Holder.Clone | include/any_facade.hpp:307-310 | `clone()` returns a new holder with the same value |
| AnyFacade.Any.constructor | include/any_facade.hpp:322-325 | a default `any` is empty |
| AnyFacade.Any.FromValue | include/any_facade.hpp:327-331 | an `any` built from a value owns a new holder of that value |
| AnyFacade.Any.Copy | include/any_facade.hpp:333-336 | a copy of an empty `any` is empty; a copy of a full one owns a new holder with the same value |
| AnyFacade.Any.Empty | include/any_facade.hpp:491-494 | `empty()` holds exactly when there is no holder |
| AnyFacade.Any.Swap | include/any_facade.hpp:345-349 | the two holders are exchanged and nothing else changes |
| AnyFacade.Any.Assign | include/any_facade.hpp:351-355 | after copy-and-swap, the target holds a new copy of the source's value (or is empty if the source is), and the source is unchanged, also on self-assignment |
| AnyFacade.Any.Call | include/any_facade.hpp:357-370 | on a non-empty `any`, `call` returns the operation applied to the held value |
| AnyFacade.Any.CallUpdating | tests/AnyMultipleInterfacesUnitTests.cpp:282-285 | a non-const forwarded operation replaces the held value with its result and keeps the holder |
| AnyFacade.BaseCompareHolders | include/any_facade.hpp:187-198 | the imperative `compare2`, including the repeated lookups of `this->type() < other.type()`, agrees with `BaseCompare` and leaves the same registry |
| AnyFacade.TryOverridesOnHolders | tests/AnyMultipleInterfacesUnitTests.cpp:204-214 | the imperative hook chain agrees with `TryOverrides` and leaves the same registry |
| AnyFacade.Equals | include/any_facade.hpp:498-501 | `lhs == rhs` on two non-empty `any`s of a family with `equals` is `lhs.holder.equals(rhs.holder)`, which equals `Expected` over the final registry |
| AnyFacade.NotEquals | include/any_facade.hpp:502 | `!=` is the negation of `==`, with the same registry effect, so it is the negated reference comparison |
| AnyFacade.Less | include/any_facade.hpp:505-508 | `lhs < rhs` on two non-empty `any`s of a family with `less` is `lhs.holder.less(rhs.holder)`, which equals `Expected` over the final registry |
| AnyFacade.Greater | include/any_facade.hpp:509 | `a > b` is `b < a`, so it is the reference order with the operands swapped |
| AnyFacade.LessOrEqual | include/any_facade.hpp:510 | `a <= b` is `!(b < a)`, so it is the negated reference order with the operands swapped |
| AnyFacade.GreaterOrEqual | include/any_facade.hpp:511 | `a >= b` is `!(a < b)`, so it is the negated reference order |
| DecimalText.NatToString | tests/AnyMultipleInterfacesUnitTests.cpp:115-119 | the digits printed for a natural number are all digits, with no leading zero |
| DecimalText.IntToString | tests/AnyMultipleInterfacesUnitTests.cpp:115-119 | `os << i` prints an optional minus sign, present exactly for negative numbers, followed by digits |
| DecimalText.ParseNat | tests/AnyMultipleInterfacesUnitTests.cpp:106-110 | the value of a string of digits, read most significant first; `NatRoundTrip` proves it inverts `NatToString` |
| DecimalText.ParseDecimal | tests/AnyMultipleInterfacesUnitTests.cpp:106-110 | `iss >> m_value` on a well-formed decimal: an optional minus sign and digits; `IntRoundTrip` proves it inverts `IntToString` |
| DecimalText.NatRoundTrip | tests/AnyMultipleInterfacesUnitTests.cpp:106-110 | reading a printed natural number gives it back |
| DecimalText.IntRoundTrip | tests/AnyMultipleInterfacesUnitTests.cpp:106-119 | reading a printed integer gives it back |
| DecimalText.IntToStringInjective | tests/AnyMultipleInterfacesUnitTests.cpp:259-270 | two integers print alike if and only if they are equal |
| DecimalText.TruncDiv | tests/AnyMultipleInterfacesUnitTests.cpp:52 | C++ `/` truncates toward zero: the quotient has the sign of the dividend, and `q*b <= a < q*b + b` for `a >= 0`, `q*b - b < a <= q*b` for `a < 0` |
| DecimalText.TruncMod | tests/AnyMultipleInterfacesUnitTests.cpp:52 | C++ `%` pairs with the truncating quotient, and its remainder has the sign of the dividend |
| Spreadsheet.MakeCoordinate | tests/AnyMultipleInterfacesUnitTests.cpp:42-44 | `CoordinateCellId(x, y)` stores the index `y * 16 + x` (`CoordinateDisplayRoundTrip`) |
| Spreadsheet.Index | tests/AnyMultipleInterfacesUnitTests.cpp:42-61 | the integer both key types are ordered by: `m_index` or `key()` (`KeyLessIsIndexOrder`) |
| Spreadsheet.DisplayCellLocation | tests/AnyMultipleInterfacesUnitTests.cpp:50-65 | a coordinate displays column `,` row with C++'s truncating `%` and `/`, a legacy key displays in brackets |
| Spreadsheet.KeyType | tests/AnyMultipleInterfacesUnitTests.cpp:39-69 | the concrete type of a key's holder: `CoordinateCellId` or `LegacyCellId` |
| Spreadsheet.KeyFamily | tests/AnyMultipleInterfacesUnitTests.cpp:391 | `CellId = any<interfaces<Cell>, less_than_comparable>`: ordering only, no `==`; same-kind comparison `SameKindLess`, hook list `KeyOverrides` |
| Spreadsheet.SameKindLess | tests/AnyMultipleInterfacesUnitTests.cpp:46-49 | same-type `less`: the default `less<T>` through `operator<` on `m_index`, and the `less<LegacyCellId>` specialisation on `key()` |
| Spreadsheet.KeyOverrides | tests/AnyMultipleInterfacesUnitTests.cpp:204-237 | each key holder's `less` hook special-cases the other key type and compares index with key (`KeyLessIsIndexOrder`) |
| Spreadsheet.Calculate | tests/AnyMultipleInterfacesUnitTests.cpp:78-135 | `calculate()`: 0 for text, the value for a value cell, 42 for `50-8`, 27 for `3*9` and 0 for any other formula |
| Spreadsheet.Show | tests/AnyMultipleInterfacesUnitTests.cpp:286-382 | `show`: the text, the value printed in decimal, or `f():` and the formula's result (`ShowIsCanon`) |
| Spreadsheet.Accepts | tests/AnyMultipleInterfacesUnitTests.cpp:106-110 | the input on which `update` is modelled: any text, and for a value cell a well-formed decimal that fits an `int` |
| Spreadsheet.MakeValueCell | tests/AnyMultipleInterfacesUnitTests.cpp:99 | `ValueCell(s)` starts at 0 and then is `update`d with `s` |
| Spreadsheet.ContentType | tests/AnyMultipleInterfacesUnitTests.cpp:73-140 | the concrete type of a content's holder: `StringCell`, `ValueCell` or `FormulaCell` |
| Spreadsheet.ContentFamily | tests/AnyMultipleInterfacesUnitTests.cpp:392 | `Any = any<interfaces<Calculation, Content>, equality_comparable>`: equality only, no `<`; same-kind comparison `SameKindEquals`, hook list `ContentOverrides` |
| Spreadsheet.SameKindEquals | tests/AnyMultipleInterfacesUnitTests.cpp:86-161 | same-type `equals`: `operator==` on text or value, and the `equals<FormulaCell>` specialisation on the calculated result (`FormulaEqualIffSameResult`) |
| Spreadsheet.ContentOverrides | tests/AnyMultipleInterfacesUnitTests.cpp:252-365 | the `equals` hooks of the three content holders, in source order: text against the rendered result, and value against formula as integers (`ContentEqualsIsCanonical`) |
| Spreadsheet.Canon | tests/AnyMultipleInterfacesUnitTests.cpp:259-270 | the text a content compares by: its own text, or the decimal rendering of its result; `ContentEqualsIsCanonical` proves the erased `==` is equality of this text |
| Spreadsheet.CoordinateDisplayRoundTrip | tests/AnyMultipleInterfacesUnitTests.cpp:35-53 | `CoordinateCellId(x, y)` has index `y*16 + x` and displays as `"x,y"` when `0 <= x < 16` and `y >= 0` |
| Spreadsheet.KeyLessIsIndexOrder | tests/AnyMultipleInterfacesUnitTests.cpp:204-237 | for every valid registry, the erased `<` on keys is `<` on indices, for coordinate and legacy keys in all four pairings |
| Spreadsheet.KeyLessIsAsymmetric | tests/AnyMultipleInterfacesUnitTests.cpp:150-154 | `A < B` implies `!(B < A)`, whatever the registry |
| Spreadsheet.KeyLessIsTransitive | tests/AnyMultipleInterfacesUnitTests.cpp:46-49 | the erased key order is transitive across both key types |
| Spreadsheet.KeysEquivalentIffSameIndex | tests/AnyMultipleInterfacesUnitTests.cpp:430-442 | two keys are equivalent exactly when their indices are equal, whatever their types |
| Spreadsheet.IndexOrderIsStrictWeakOrder | tests/AnyMultipleInterfacesUnitTests.cpp:46-49 | the index order, which the erased key order equals, is a strict weak order |
| Spreadsheet.Updated | tests/AnyMultipleInterfacesUnitTests.cpp:82-127 | `update` keeps the kind of cell: it replaces a text's content or a formula, and re-reads a value cell from its decimal |
| Spreadsheet.UpdateWithShownText | tests/AnyMultipleInterfacesUnitTests.cpp:276-336 | updating a text or value cell with what it shows gives the same cell back |
| Spreadsheet.ShowIsCanon | tests/AnyMultipleInterfacesUnitTests.cpp:374-382 | text and value cells show exactly the text they are compared by; a formula cell shows it after `f():` |
| Spreadsheet.ContentEqualsIsCanonical | tests/AnyMultipleInterfacesUnitTests.cpp:252-364 | for every valid registry, two contents are erased-equal exactly when their texts or the decimal renderings of their results agree, across all nine pairings of types |
| Spreadsheet.FormulaEqualIffSameResult | tests/AnyMultipleInterfacesUnitTests.cpp:157-161 | two formula cells are equal if and only if their calculated results are equal |
| Spreadsheet.ContentEqualsIsSymmetric | tests/AnyMultipleInterfacesUnitTests.cpp:300-364 | each cross-type pairing is defined consistently both ways |
| Spreadsheet.ContentEqualsIsTransitive | tests/AnyMultipleInterfacesUnitTests.cpp:252-364 | content equality is transitive across types |
| Spreadsheet.ContentEqualsIsReflexive | tests/AnyMultipleInterfacesUnitTests.cpp:252-273 | every content equals itself |
| Sheet.FindKey | tests/AnyMultipleInterfacesUnitTests.cpp:430 | `find` returns the position of an entry whose key has the requested index, or no position when none has |
| Sheet.Inserted | tests/AnyMultipleInterfacesUnitTests.cpp:418-421 | `insert` does nothing if an equivalent key is present, and otherwise adds exactly the new entry: the contents are the old ones plus one |
| Sheet.InsertedKeepsOrder | tests/AnyMultipleInterfacesUnitTests.cpp:418-421 | `insert` keeps the map in strictly increasing key order |
| Sheet.Locations | tests/AnyMultipleInterfacesUnitTests.cpp:423-428 | the keys' displayed locations in map order, each followed by `#`; `CellMap.DisplayLocations` computes it |
| Sheet.Shows | tests/AnyMultipleInterfacesUnitTests.cpp:444-449 | the contents' `show` in map order, each followed by `#`; `CellMap.ShowContents` computes it |
| Sheet.Sum | tests/AnyMultipleInterfacesUnitTests.cpp:452 | the sum of `calculate()` over the entries in map order; `CellMap.SumValues` computes it |
| Sheet.FirstMatch | tests/AnyMultipleInterfacesUnitTests.cpp:402-412 | `find_if` with `CompareContent`: the position of the first entry whose content equals the probe; `FirstMatchMeaning` characterises it |
| Sheet.FirstMatchMeaning | tests/AnyMultipleInterfacesUnitTests.cpp:402-412 | `find_if` with `CompareContent` returns the first entry whose content equals the probe, and returns none exactly when no entry does |
| Sheet.CellMap.constructor | tests/AnyMultipleInterfacesUnitTests.cpp:416 | the map starts empty, in key order |
| Sheet.CellMap.Insert | tests/AnyMultipleInterfacesUnitTests.cpp:418-421 | the in-place insert agrees with `Inserted` and keeps key order |
| Sheet.CellMap.Find | tests/AnyMultipleInterfacesUnitTests.cpp:430 | the look-up agrees with `FindKey` |
| Sheet.CellMap.Update | tests/AnyMultipleInterfacesUnitTests.cpp:436 | updating through an iterator changes only that entry's content, and its key stays |
| Sheet.CellMap.DisplayLocations | tests/AnyMultipleInterfacesUnitTests.cpp:423-428 | the loop that streams each location and `#` produces `Locations` of the entries |
| Sheet.CellMap.ShowContents | tests/AnyMultipleInterfacesUnitTests.cpp:444-449 | the loop that streams each `show` and `#` produces `Shows` of the entries |
| Sheet.CellMap.SumValues | tests/AnyMultipleInterfacesUnitTests.cpp:394-400 | `accumulate` with `SumValues` adds up `calculate()` over the entries |
| Sheet.CellMap.FindIf | tests/AnyMultipleInterfacesUnitTests.cpp:455 | the `find_if` loop stops at the first match, as `FirstMatch` says |
| SpreadsheetScenario.Rendered | tests/AnyMultipleInterfacesUnitTests.cpp:420-470 | the numbers the scenario writes print as `10`, `27`, `42`, `80` and `3412` |
| SpreadsheetScenario.Parsed | tests/AnyMultipleInterfacesUnitTests.cpp:420-470 | `"80"`, `"42"` and `"3412"` read back as those numbers and make those value cells |
| SpreadsheetScenario.FirstInserts | tests/AnyMultipleInterfacesUnitTests.cpp:418-419 | the first two inserts give `[1]`, `[2]` in order |
| SpreadsheetScenario.ThirdInsert | tests/AnyMultipleInterfacesUnitTests.cpp:420 | `[3]` goes third |
| SpreadsheetScenario.FourthInsert | tests/AnyMultipleInterfacesUnitTests.cpp:421 | `CoordinateCellId(10,2)` (index 42) goes last |
| SpreadsheetScenario.InsertedKeysDisplay | tests/AnyMultipleInterfacesUnitTests.cpp:424-429 | the four keys display as `[1]`, `[2]`, `[3]` and `10,2` |
| SpreadsheetScenario.InsertedLocations | tests/AnyMultipleInterfacesUnitTests.cpp:429 | iterating the map shows `"[1]#[2]#[3]#10,2#"` |
| SpreadsheetScenario.LookupsAcrossKeyTypes | tests/AnyMultipleInterfacesUnitTests.cpp:430-442 | `CoordinateCellId(2,0)` finds `LegacyCellId(2)`, `CoordinateCellId(1,0)` finds `LegacyCellId(1)`, and `LegacyCellId(42)` finds `CoordinateCellId(10,2)` |
| SpreadsheetScenario.UpdatedContentsShow | tests/AnyMultipleInterfacesUnitTests.cpp:445-450 | after the updates the four contents show as `3412`, `f():42`, `80` and `f():27` |
| SpreadsheetScenario.UpdatedListing | tests/AnyMultipleInterfacesUnitTests.cpp:445-450 | after the updates, show gives `"3412#f():42#80#f():27#"` |
| SpreadsheetScenario.UpdatedSum | tests/AnyMultipleInterfacesUnitTests.cpp:452 | after the updates the sum is 149 |
| SpreadsheetScenario.UpdatedMatches | tests/AnyMultipleInterfacesUnitTests.cpp:454-470 | `"27"` matches the `3*9` formula, `ValueCell(42)` the `50-8` formula, and `ValueCell(3412)` the updated text |
| SpreadsheetScenario.NoMatchForZero | tests/AnyMultipleInterfacesUnitTests.cpp:470-473 | `"0"` matches nothing |
| SpreadsheetScenario.Run | tests/AnyMultipleInterfacesUnitTests.cpp:414-474 | the whole scenario on one map gives every value the test requires |
| ComparisonTests.TestEquals | tests/AnyComparisonUnitTests.cpp:37-77 | `equals<T>` of the test types: the `EqualsComparableType` and `FullyComparableType` specialisations compare `.value`, and `DefaultComparableType` reaches the default `lhs == rhs`, whose `operator==` compares `.value`; no other type instantiates it (`SameTypeExpected`, `SameTypeComparesValues`) |
| ComparisonTests.TestLess | tests/AnyComparisonUnitTests.cpp:37-77 | `less<T>` of the test types: the `LessThanComparableType` and `FullyComparableType` specialisations compare `.value`, and `DefaultComparableType` reaches the default `lhs < rhs`, whose `operator<` compares `.value`; no other type instantiates it (`SameTypeExpected`, `SameTypeComparesValues`) |
| ComparisonTests.NoOverrides | tests/AnyComparisonUnitTests.cpp:108-113 | the test's `value_type_operations` adds nothing to its base, so no holder special-cases any other type and every comparison is `compare2` |
| ComparisonTests.PoliciesProvideTheirOperators | tests/AnyComparisonUnitTests.cpp:118-177 | the four families of the test, over the value types `TestType` names, each provide exactly their policy's operators: `NotComparableFamily` (`not_comparable`) neither, `LessThanFamily` (`less_than_comparable`) only `<`, `EqualityFamily` (`equality_comparable`) only `==`, and `FullFamily` (`less_than_equals_comparable`) both |
| ComparisonTests.SameTypeExpected | tests/AnyComparisonUnitTests.cpp:56-77 | in every comparable family, the reference comparison of two values of one type is the `less`/`equals` specialisation or native operator on them |
| ComparisonTests.SameTypeComparesValues | tests/AnyComparisonUnitTests.cpp:56-77 | for every valid registry, two values of one type compare by their `.value`, through the specialisations or the native operators |
| ComparisonTests.NotComparableCase | tests/AnyComparisonUnitTests.cpp:118-129 | both `any`s hold a value, and neither `==` nor `<` is available |
| ComparisonTests.LessThanComparableCase | tests/AnyComparisonUnitTests.cpp:131-143 | `a(4) < b(7)` |
| ComparisonTests.EqualityComparableCase | tests/AnyComparisonUnitTests.cpp:145-159 | `a(4) != b(7)` and `c(7) == b(7)` |
| ComparisonTests.FullyComparableCase | tests/AnyComparisonUnitTests.cpp:161-197 | under the full policy, `4 < 7`, `7 < 11`, `4 != 7` and `7 == 7` hold for either value type |
| ComparisonTests.FullPolicyCases | tests/AnyComparisonUnitTests.cpp:161-197 | the specialised and native cases both pass, one after the other, on the family's one registry |
| AnyScenarios.EmptinessCases | tests/AnyBasicUnitTests.cpp:63-80 | a default `any` is empty; one built from 42 is not, and yields 42 |
| AnyScenarios.CallCases | tests/AnyCallUnitTests.cpp:29-50 | on an `any` holding 1, `call(f0)` gives 1 and `call(f1, 2)` gives 3 |
| AnyScenarios.CopyCases | include/any_facade.hpp:333-355 | copies of empty and full `any`s, assignment and swap move exactly the contents they should, and the source is kept |

## Left out

- The RTTI `type_info` (`include/any_facade.hpp:33-69`) and its test are not modelled. That variant wraps `std::type_info`, and its order depends on `hash_code`, which is unspecified.
- The C++11 branch of `remove_reference`/`remove_const` (`include/any_facade.hpp:19-21`) is not modelled, because it is ill-formed.
- `member_function_traits.hpp` is not part of this model. The eleven overloads of `call`, for 0 to 10 arguments, become one `Call` that applies a function with its arguments already bound.
- Compile-time machinery is not modelled: `interfaces<>`, `null_base`, `placeholder`, the CRTP `forwarder` and template specialisation. The policies become preconditions on the operators, a specialisation becomes the family's same-type comparison, and a hook becomes a list of special cases.
- Manual memory is not modelled: `new`, `delete`, the destructor, and the exception safety of copy-and-swap. A holder is owned by value, and the old holder of an assignment goes with the temporary.
- `std::ostream` is not modelled. Displays and shows are functions that return strings.
- TypeInfo.LookupBase: `s_type` is a `size_t`, and the model's counter is unbounded, so the wrap-around after 2^64 distinct types is not modelled.
- Spreadsheet.Updated: it is only defined when a value cell gets a well-formed decimal (an optional `-` and digits) that fits an `int`. Other input is not covered: trailing text (`"42abc"` reads 42), leading whitespace, a `+` sign, text that is not a number, and out-of-range numbers.
- Spreadsheet.MakeValueCell: it carries the same restriction as `Updated`.
- Sheet.Sum: `std::accumulate` over `int` can overflow, and the model's total is unbounded. The scenario's total, 149, is far from the limit.
- Spreadsheet.MakeCoordinate: `y * 16 + x` is not reduced to a 32-bit `int`. The display lemma covers only on-sheet coordinates, which do not overflow.
- Sheet.CellMap.Insert: the map is a sequence kept in index order, not a balanced tree. Its key comparisons use the index order, proved equal to the erased `<` for every valid registry (`Spreadsheet.KeyLessIsIndexOrder`), but they do not update a registry.
- Sheet.CellMap.FindIf: content equality is the rendered comparison, proved equal to the erased `==` for every valid registry (`Spreadsheet.ContentEqualsIsCanonical`). The loop does not update a registry.
- Sheet.CellMap.Update: the map holds contents rather than erased `any` objects, so an update through an iterator replaces that entry's content. The forwarding through `any` is `AnyFacade.Any.CallUpdating`.
- `examples/*` and `boost_any_example/*` are not modelled. They are illustrative drafts, with floating-point pay arithmetic and console output.
