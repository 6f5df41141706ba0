# Vehicle listing filter engine

A model of the query core of a small vehicle-listing service. The service holds a
fixed list of vehicle records in memory and answers lookups by make, model or trim.
Each lookup can be narrowed by a filter object such as `{ co2Greater: 114, fuel: "diesel" }`.
The model covers four parts:

- `VehicleTypes` (`vehicle_types.dfy`) holds the record type. A `Vehicle` has eleven fields.
  `WellTyped` states the two string-literal unions, for `transmission` and `fuel_type`.
- `VehicleTypes` also holds the `Filters` enum with its twelve string values.
  A filter object is the sequence of its properties, in `Object.keys` order.
  `ParseKey` classifies a property name. It gives an enum member, the `trim` key that
  the engine also handles, or `Other(name)` for any other name.
- `VehicleRepository` (`vehicle_repository.dfy`) holds the filter engine `_applyFilters`.
  It is a conjunction, built on `every`, over the properties. A falsy value is skipped.
  Every other property goes through the `switch` to a comparison helper, or yields
  `undefined`, which `every` reads as false.
- `VehicleRepository` also holds the lookups `getAll`, `getAllFiltered`, `getByMake`,
  `getByModel` and `getByTrim`. They are functions of the injected data set.
- `Debug` (`debug.dfy`) holds the debugging loop. It collects the distinct transmissions
  and fuel types. It is a method with a loop, proved against the function `Distinct`.

Two modules model the JavaScript built-ins the code relies on:

- `JsStrings` covers truthiness, `toLowerCase`, `${n}` and `parseInt`.
- `JsArrays` covers `filter`, `every`, `indexOf`, and the list that the
  `indexOf`/`push` idiom builds.

In `parseInt`, `None` plays the part of `NaN`, and every comparison with it is false.
The model follows the code where the code differs from the tests; see the last section.

## Model

| member | source | states |
|---|---|---|
| `VehicleRepository.GetAll` | repositories/vehicle-repository/vehicle-repository.ts:93-95 | `getAll` gives every record of the data set, at its own position |
| `VehicleRepository.WiredHelpers` | repositories/vehicle-repository/vehicle-repository.ts:12-33 | `_isCo2GreaterThan` and `_isEngineSizeGreater` keep values strictly above the bound, `_isCo2LowerThan` values strictly below it, all three are false on `NaN`; `_filterByTrim` and `_isFuelType` are the same symmetric case-insensitive equality |
| `VehicleRepository.SwitchOnKey` | repositories/vehicle-repository/vehicle-repository.ts:58-89 | the `switch` returns a boolean exactly for the five keys that call a helper (`trim`, `co2Greater`, `co2Lower`, `fuel`, `engineSizeGreater`) and `undefined` for every other key |
| `VehicleRepository.KeyCallback` | repositories/vehicle-repository/vehicle-repository.ts:51-90 | the `every` callback returns `true` for a falsy value, and `undefined` exactly when the value is truthy and the key is not one of the five wired keys |
| `VehicleRepository.ApplyFilters` | repositories/vehicle-repository/vehicle-repository.ts:50-91 | a record passes exactly when the callback of every property of the filter object returns `true` (`undefined` counts as false) |
| `VehicleRepository.GetAllFiltered` | repositories/vehicle-repository/vehicle-repository.ts:97-103 | the result is an order-preserving subsequence of `getAll()`; each record occurs in it as often as in the data set if it passes the filters, and not at all otherwise |
| `VehicleRepository.GetByMake` | repositories/vehicle-repository/vehicle-repository.ts:105-113 | order-preserving subsequence of `getAll()`; a record is in it iff its make equals the argument ignoring case and it passes the filters, and then as often as in the data set |
| `VehicleRepository.GetByModel` | repositories/vehicle-repository/vehicle-repository.ts:115-123 | the same for the model field, multiplicities included |
| `VehicleRepository.GetByTrim` | repositories/vehicle-repository/vehicle-repository.ts:125-133 | the same for the trim field, multiplicities included |
| `VehicleRepository.GetByMakeThenFilters` | repositories/vehicle-repository/vehicle-repository.ts:105-113 | with no filters `getByMake` is the case-insensitive make filter alone; with filters it equals that lookup followed by `getAllFiltered` |
| `VehicleRepository.GetByModelThenFilters` | repositories/vehicle-repository/vehicle-repository.ts:115-123 | the same decomposition for `getByModel` |
| `VehicleRepository.GetByTrimThenFilters` | repositories/vehicle-repository/vehicle-repository.ts:125-133 | the same decomposition for `getByTrim` |
| `VehicleRepository.EmptyQueryKeepsAll` | repositories/vehicle-repository/vehicle-repository.ts:93-103 | `getAllFiltered({})` is `getAll()`: the whole data set in its order |
| `VehicleRepository.FalsyValueIsNoConstraint` | repositories/vehicle-repository/vehicle-repository.ts:52-56 | inserting a property whose value is falsy (`""` or `0`) at any position leaves the result unchanged |
| `VehicleRepository.ZeroNumberKeepsAll` | repositories/vehicle-repository/vehicle-repository.ts:53-56 | a single property with the number `0`, under any name, keeps every record |
| `VehicleRepository.ZeroTextConstrains` | repositories/vehicle-repository/vehicle-repository.ts:61-62 | the string `"0"` is truthy: `co2Greater: "0"` keeps exactly the records with CO2 level above 0 |
| `VehicleRepository.KeyOrderIrrelevant` | repositories/vehicle-repository/vehicle-repository.ts:51 | two filter objects with the same properties in any order select the same records |
| `VehicleRepository.FiltersConjoin` | repositories/vehicle-repository/vehicle-repository.ts:51-90 | filtering by the properties of two objects together equals filtering by the first and then by the second |
| `VehicleRepository.Co2GreaterVerdict` | repositories/vehicle-repository/vehicle-repository.ts:61-62 | for a property named `co2Greater` with a truthy value that `parseInt` reads as `n`, the callback lets a record through iff `co2_level > n` (helper at lines 16-18) |
| `VehicleRepository.Co2LowerVerdict` | repositories/vehicle-repository/vehicle-repository.ts:64-65 | the same for `co2Lower` and `co2_level < n` (helper at lines 20-22) |
| `VehicleRepository.EngineSizeGreaterVerdict` | repositories/vehicle-repository/vehicle-repository.ts:70-71 | the same for `engineSizeGreater` and `engine_size > n` (helper at lines 28-33) |
| `VehicleRepository.Co2GreaterKeepsExactly` | repositories/vehicle-repository/vehicle-repository.ts:61-62 | with a truthy value that `parseInt` reads as `n`, a filter object whose one property is named `co2Greater` keeps exactly the records with `co2_level > n`, in order (strict bound, helper at lines 16-18) |
| `VehicleRepository.Co2GreaterNumber` | repositories/vehicle-repository/vehicle-repository.ts:61-62 | a non-zero number `n` as the value of `co2Greater` keeps exactly the records with `co2_level > n` |
| `VehicleRepository.Co2LowerKeepsExactly` | repositories/vehicle-repository/vehicle-repository.ts:64-65 | `co2Lower` keeps exactly the records with `co2_level < n` (strict bound, helper at lines 20-22) |
| `VehicleRepository.EngineSizeGreaterKeepsExactly` | repositories/vehicle-repository/vehicle-repository.ts:70-71 | `engineSizeGreater` keeps exactly the records with `engine_size > n`: a record at the bound is dropped (helper at lines 28-33) |
| `VehicleRepository.FractionalTextTruncates` | repositories/vehicle-repository/vehicle-repository.ts:70-71 | `engineSizeGreater: "1.6"` keeps exactly the records with `engine_size > 1`: `parseInt` drops the fraction |
| `VehicleRepository.NotANumberRejectsAll` | repositories/vehicle-repository/vehicle-repository.ts:61-71 | a truthy value that `parseInt` cannot read (`NaN`) under `co2Greater`, `co2Lower` or `engineSizeGreater` rejects every record |
| `VehicleRepository.FuelKeepsExactly` | repositories/vehicle-repository/vehicle-repository.ts:67-68 | `fuel` keeps exactly the records whose `fuel_type` equals the value ignoring case (helper at lines 24-26) |
| `VehicleRepository.UnleadedOnWellTypedRecords` | repositories/vehicle-repository/vehicle-repository.test.ts:131-142 | over well-typed records, `fuel: "unleaded"` keeps exactly the records whose fuel type is `"Unleaded"` |
| `VehicleRepository.TrimKeepsExactly` | repositories/vehicle-repository/vehicle-repository.ts:59-60 | `trim` keeps exactly the records whose `trim` equals the value ignoring case (helper at lines 12-14) |
| `VehicleRepository.UnwiredKeyIsUndefined` | repositories/vehicle-repository/vehicle-repository.ts:73-89 | every key other than the five wired ones yields `undefined` from the `switch` |
| `VehicleRepository.UnwiredKeyRejectsAll` | repositories/vehicle-repository/vehicle-repository.ts:73-90 | one truthy property under such a key empties the result, whatever the other properties are |
| `VehicleRepository.ColourRejectsAll` | repositories/vehicle-repository/vehicle-repository.ts:58-90 | a truthy `colour` value rejects every record: there is no colour filter and no type error |
| `VehicleRepository.UnusedHelpers` | repositories/vehicle-repository/vehicle-repository.ts:35-48 | the three uncalled helpers all keep values below the bound, so `_isMileageGreater` keeps mileages below it; with `NaN` they are false |
| `JsStrings.Truthy` | repositories/vehicle-repository/vehicle-repository.ts:53 | a filter value is truthy iff it is neither the empty string nor the number `0` |
| `JsStrings.EqualsIgnoreCase` | repositories/vehicle-repository/vehicle-repository.ts:13 | `a.toLowerCase() === b.toLowerCase()` holds iff the strings have the same length and agree at every position once each letter is lowered |
| `JsStrings.ParseInt` | repositories/vehicle-repository/vehicle-repository.ts:62 | a string with no digit at all reads as `NaN`; a string that starts with a digit reads as a non-negative number, whose value `ParseIntOfDecimalPrefix` gives |
| `JsStrings.ParseIntOfDecimalPrefix` | repositories/vehicle-repository/vehicle-repository.ts:62 | `parseInt` reads the decimal prefix: the decimal form of `n` followed by anything that does not start with a digit (such as `".6"` or `"g"`) reads as `n` |
| `JsStrings.ParseIntOfDecimal` | repositories/vehicle-repository/vehicle-repository.ts:62 | `parseInt(`${n}`)` gives back the integer `n`, so a numeric filter value reaches its comparison unchanged |
| `JsArrays.Filter` | repositories/vehicle-repository/vehicle-repository.ts:98-100 | `filter` returns an order-preserving subsequence that holds exactly the accepted elements, with their multiplicities |
| `JsArrays.Every` | repositories/vehicle-repository/vehicle-repository.ts:51 | `every` is true iff the predicate accepts every element |
| `JsArrays.IndexOf` | debug.ts:14 | `indexOf` is -1 iff the value is absent, and otherwise the position of its first occurrence |
| `VehicleTypes.ParseKey` | repositories/vehicle-repository/vehicle-repository.ts:58-89 | classifying a property name loses nothing (its name is given back), and the name is `Other` iff it is neither `trim` nor an enum value |
| `VehicleTypes.ParseKeyOfFilterName` | repositories/vehicle-respository/vehicle-repository.types.ts:15-28 | reading back an enum member's value gives that member |
| `VehicleTypes.AllFiltersComplete` | repositories/vehicle-respository/vehicle-repository.types.ts:15-28 | the enum has exactly twelve members |
| `VehicleTypes.FilterNamesDistinct` | repositories/vehicle-respository/vehicle-repository.types.ts:15-28 | the members' string values are pairwise distinct and include neither `trim` nor `colour` |
| `JsArrays.Distinct` | debug.ts:13-21 | the distinct-values list is never longer than its input |
| `Debug.CollectDistinct` | debug.ts:10-21 | after the loop each list is the distinct values of its own field over all records, in order of first occurrence; the invariant says the same of every prefix |
| `Debug.DistinctListsExact` | debug.ts:13-21 | each list holds every value of its field that occurs in the data and nothing else, without duplicates, in order of first occurrence, and is no longer than the data |
| `Debug.DistinctListsAtMostTwo` | debug.ts:13-21 | over records that respect their declared literal unions, each list has at most two entries |
| `JsArrays.DistinctMembers` | debug.ts:14-16 | a value is in the distinct-values list iff it is in the input |
| `JsArrays.DistinctNoDuplicates` | debug.ts:14-16 | the distinct-values list has no duplicates |
| `JsArrays.DistinctFirstSeenOrder` | debug.ts:14-16 | the distinct values come in the order of their first occurrence in the input |

## Left out

- The constructor's and the debugging script's file reads are not modelled; the data set is a parameter.
  So is the `JSON.parse` of that file.
  The repository never changes the data set after loading it.
- The final `console.log` of the debugging script is left out.
- The HTTP layer in `index.ts` is left out: routing, status codes, the mapping from exceptions to 500, and the 404 handler.
- `getListOfModelsFromMake` and `getListOfTrimsFromModel` are called by the HTTP layer and by the tests.
  Their definitions are not part of this model. The debugging loop is the closest code that is modelled.
- `getAll` returns the repository's internal array itself. The model returns the sequence, so aliasing is not modelled.
- `toLowerCase` is modelled on ASCII letters only. Unicode case mapping is left out.
- `parseInt` is modelled for decimal input: leading white space, an optional sign, then the longest run of digits.
  Some cases are left out:
  - the `0x` hexadecimal prefix;
  - space separators (Unicode category Zs) other than U+00A0. The zero-width no-break space U+FEFF, which is not in Zs, is skipped as JavaScript does;
  - the loss of precision above 2^53.
- `${n}` is modelled as the plain decimal form of the integer. JavaScript prints numbers from 10^21 upwards in exponent form; that case is left out.
- Numbers are integers in the model, both filter values and record fields. Fractional numbers and `NaN` as a record value are left out.
- A filter value is a string or a number. Arrays and nested objects, which an HTTP query string can also produce, are not modelled, nor is their truthiness.
  This leaves out `colour: ["red", "black"]`.
- The record fields `colour` and `date_first_reg` are carried but never compared, because the code compares neither.

## Code, declared types and tests

- The `Filters` enum in `repositories/vehicle-respository/vehicle-repository.types.ts` has no `TRIM` member.
  The engine nevertheless has a `case Filters.TRIM`. It imports its types through a path alias, from a file that is not part of this model.
  The model assumes that file defines `TRIM = "trim"`, and treats `trim` as a handled key beside the twelve enum values.
- A numeric filter value goes through `parseInt`, which stops at the first non-digit. A fractional bound such as `engineSizeGreater: "1.6"` is therefore truncated to 1.
- `engineSizeGreater` is strict (`engine_size > n`), as the code has it. The test at `repositories/vehicle-repository/vehicle-repository.test.ts:116` expects `>=`.
- Eight enum keys yield `undefined`, so a truthy value under any of them rejects every record: `engineSizeLower`, `mileageGreater`, `mileageLower`, `priceGreater`, `priceLower`, `transmission`, `yearGreater` and `yearLower`.
  The same holds for any key the `switch` does not list, such as `colour`.
  The tests expect real filtering for all of these, and a `TypeError` for a scalar `colour`; the code does neither.
  No year is extracted from `date_first_reg`.
- `_isEngineSizeLower`, `_isMileageGreater` and `_isMileageLower` are never called.
  `_isMileageGreater` keeps mileages below its bound, not above.
