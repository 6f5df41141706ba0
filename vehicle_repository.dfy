/** The vehicle repository: the filter engine that decides whether one record passes
    a filter object, and the lookups built on it. The data set, which the repository
    reads from a JSON file once at construction and never changes, is passed to each
    lookup as `vehicles`. */
module VehicleRepository {
  import opened Wrappers
  import opened JsStrings
  import opened JsArrays
  import opened VehicleTypes

  // ---------------------------------------------------------------------------
  // Comparison helpers. A numeric filter value is the result of `parseInt`, where
  // `None` is `NaN`, and every comparison with `NaN` is false.

  function FilterByTrim(filterValue: string, trim: string): bool
  {
    EqualsIgnoreCase(filterValue, trim)
  }

  function IsCo2GreaterThan(filterValue: Option<int>, co2Level: int): bool
  {
    filterValue.Some? && filterValue.value < co2Level
  }

  function IsCo2LowerThan(filterValue: Option<int>, co2Level: int): bool
  {
    filterValue.Some? && filterValue.value > co2Level
  }

  function IsFuelType(filterValue: string, fuelType: string): bool
  {
    EqualsIgnoreCase(filterValue, fuelType)
  }

  function IsEngineSizeGreater(filterValue: Option<int>, engineSize: int): bool
  {
    filterValue.Some? && filterValue.value < engineSize
  }

  /** What the five helpers the `switch` calls compare: the two "greater" helpers keep
      values strictly above the bound, the "lower" one values strictly below it, all
      three are false on `NaN`, and the two string helpers are the same symmetric
      case-insensitive equality. */
  lemma WiredHelpers(bound: int, value: int, a: string, b: string)
    ensures IsCo2GreaterThan(Some(bound), value) <==> value > bound
    ensures IsCo2LowerThan(Some(bound), value) <==> value < bound
    ensures IsEngineSizeGreater(Some(bound), value) <==> value > bound
    ensures !IsCo2GreaterThan(None, value) && !IsCo2LowerThan(None, value) && !IsEngineSizeGreater(None, value)
    ensures FilterByTrim(a, b) == IsFuelType(a, b) == IsFuelType(b, a)
    ensures FilterByTrim(a, b) <==> |a| == |b| && forall i :: 0 <= i < |a| ==> LowerChar(a[i]) == LowerChar(b[i])
  {
  }

  // The next three helpers are not called by the filter engine.

  function IsEngineSizeLower(filterValue: Option<int>, engineSize: int): bool
  {
    filterValue.Some? && filterValue.value > engineSize
  }

  function IsMileageGreater(filterValue: Option<int>, mileage: int): bool
  {
    filterValue.Some? && filterValue.value > mileage
  }

  function IsMileageLower(filterValue: Option<int>, mileage: int): bool
  {
    filterValue.Some? && filterValue.value > mileage
  }

  /** What the unused helpers compare: the one named "mileage greater" keeps the
      records whose mileage is below the bound, like the one named "mileage lower". */
  lemma UnusedHelpers(bound: int, value: int)
    ensures IsEngineSizeLower(Some(bound), value) <==> value < bound
    ensures IsMileageGreater(Some(bound), value) <==> value < bound
    ensures IsMileageLower(Some(bound), value) <==> value < bound
    ensures !IsEngineSizeLower(None, value) && !IsMileageGreater(None, value) && !IsMileageLower(None, value)
  {
  }

  // ---------------------------------------------------------------------------
  // The filter engine

  /** The `switch` on one property name: `Some(b)` when a comparison helper decides,
      `None` for `undefined`, which the eight bare `return;` cases and every name the
      `switch` does not list produce. `text` is the template string `${filterValue}`. */
  function SwitchOnKey(key: FilterKey, text: string, vehicle: Vehicle): (r: Option<bool>)
    ensures r.Some? <==> Wired(key)
  {
    match key
    case Trim => Some(FilterByTrim(text, vehicle.trim))
    case Enum(Co2Greater) => Some(IsCo2GreaterThan(ParseInt(text), vehicle.co2_level))
    case Enum(Co2Lower) => Some(IsCo2LowerThan(ParseInt(text), vehicle.co2_level))
    case Enum(Fuel) => Some(IsFuelType(text, vehicle.fuel_type))
    case Enum(EngineSizeGreater) => Some(IsEngineSizeGreater(ParseInt(text), vehicle.engine_size))
    case Enum(EngineSizeLower) => None
    case Enum(MileageGreater) => None
    case Enum(MileageLower) => None
    case Enum(PriceGreater) => None
    case Enum(PriceLower) => None
    case Enum(Transmission) => None
    case Enum(YearGreater) => None
    case Enum(YearLower) => None
    case Other(_) => None
  }

  /** The keys whose `switch` case calls a comparison helper. */
  predicate Wired(key: FilterKey)
  {
    key == Trim || key == Enum(Co2Greater) || key == Enum(Co2Lower)
    || key == Enum(Fuel) || key == Enum(EngineSizeGreater)
  }

  /** The callback `every` runs for one property: a falsy value is no constraint. */
  function KeyCallback(entry: (string, FilterValue), vehicle: Vehicle): (r: Option<bool>)
    ensures !Truthy(entry.1) ==> r == Some(true)
    ensures r == None <==> Truthy(entry.1) && !Wired(ParseKey(entry.0))
  {
    if !Truthy(entry.1) then Some(true) else SwitchOnKey(ParseKey(entry.0), ToText(entry.1), vehicle)
  }

  /** `every` takes the callback's result as a boolean: `undefined` is false. */
  predicate Passes(entry: (string, FilterValue), vehicle: Vehicle)
  {
    KeyCallback(entry, vehicle) == Some(true)
  }

  /** `_applyFilters`: `Object.keys(filters).every(...)`. A record passes exactly when
      every property of the filter object lets it through. */
  function ApplyFilters(filters: FilterQuery, vehicle: Vehicle): (r: bool)
    ensures r <==> forall i :: 0 <= i < |filters| ==> Passes(filters[i], vehicle)
  {
    Every(filters, entry => Passes(entry, vehicle))
  }

  // ---------------------------------------------------------------------------
  // The lookups

  /** `getAll`: every record of the data set, in order. */
  function GetAll(vehicles: seq<Vehicle>): (r: seq<Vehicle>)
    ensures |r| == |vehicles| && forall i :: 0 <= i < |r| ==> r[i] == vehicles[i]
  {
    vehicles
  }

  /** `getAllFiltered`: the records that pass the filters, in data-set order. */
  function GetAllFiltered(vehicles: seq<Vehicle>, filters: FilterQuery): (r: seq<Vehicle>)
    ensures IsSubsequence(r, GetAll(vehicles))
    ensures forall x :: x in r <==> x in vehicles && ApplyFilters(filters, x)
    ensures forall x :: multiset(r)[x] == if ApplyFilters(filters, x) then multiset(vehicles)[x] else 0
  {
    Filter(vehicles, (x: Vehicle) => ApplyFilters(filters, x))
  }

  /** `getByMake`: the records of the given make, compared case-insensitively, that pass the filters. */
  function GetByMake(vehicles: seq<Vehicle>, filterMake: string, filters: FilterQuery): (r: seq<Vehicle>)
    ensures IsSubsequence(r, GetAll(vehicles))
    ensures forall x :: x in r <==> x in vehicles && EqualsIgnoreCase(x.make, filterMake) && ApplyFilters(filters, x)
    ensures forall x :: multiset(r)[x]
                     == if EqualsIgnoreCase(x.make, filterMake) && ApplyFilters(filters, x) then multiset(vehicles)[x] else 0
  {
    Filter(vehicles, (x: Vehicle) => EqualsIgnoreCase(x.make, filterMake) && ApplyFilters(filters, x))
  }

  /** `getByModel`: the records of the given model, compared case-insensitively, that pass the filters. */
  function GetByModel(vehicles: seq<Vehicle>, filterModel: string, filters: FilterQuery): (r: seq<Vehicle>)
    ensures IsSubsequence(r, GetAll(vehicles))
    ensures forall x :: x in r <==> x in vehicles && EqualsIgnoreCase(x.model, filterModel) && ApplyFilters(filters, x)
    ensures forall x :: multiset(r)[x]
                     == if EqualsIgnoreCase(x.model, filterModel) && ApplyFilters(filters, x) then multiset(vehicles)[x] else 0
  {
    Filter(vehicles, (x: Vehicle) => EqualsIgnoreCase(x.model, filterModel) && ApplyFilters(filters, x))
  }

  /** `getByTrim`: the records of the given trim, compared case-insensitively, that pass the filters. */
  function GetByTrim(vehicles: seq<Vehicle>, filterTrim: string, filters: FilterQuery): (r: seq<Vehicle>)
    ensures IsSubsequence(r, GetAll(vehicles))
    ensures forall x :: x in r <==> x in vehicles && EqualsIgnoreCase(x.trim, filterTrim) && ApplyFilters(filters, x)
    ensures forall x :: multiset(r)[x]
                     == if EqualsIgnoreCase(x.trim, filterTrim) && ApplyFilters(filters, x) then multiset(vehicles)[x] else 0
  {
    Filter(vehicles, (x: Vehicle) => EqualsIgnoreCase(x.trim, filterTrim) && ApplyFilters(filters, x))
  }

  // ---------------------------------------------------------------------------
  // Properties of the filter engine

  /** An empty filter object keeps the whole data set in its order, which is why the
      HTTP layer may answer a query without parameters with `getAll`. */
  lemma EmptyQueryKeepsAll(vehicles: seq<Vehicle>)
    ensures GetAllFiltered(vehicles, []) == GetAll(vehicles)
  {
    FilterKeepsAll(vehicles, (x: Vehicle) => ApplyFilters([], x));
  }

  /** A property with a falsy value (`""` or `0`) changes nothing: the result is the
      one without that property, wherever it stands among the keys. */
  lemma FalsyValueIsNoConstraint(vehicles: seq<Vehicle>, filters: FilterQuery, i: nat, name: string, value: FilterValue)
    requires i <= |filters|
    requires !Truthy(value)
    ensures GetAllFiltered(vehicles, filters[..i] + [(name, value)] + filters[i..]) == GetAllFiltered(vehicles, filters)
  {
    var extended := filters[..i] + [(name, value)] + filters[i..];
    assert filters == filters[..i] + filters[i..];
    forall x | x in vehicles
      ensures ApplyFilters(extended, x) == ApplyFilters(filters, x)
    {
      var passes := entry => Passes(entry, x);
      EveryAppend(filters[..i] + [(name, value)], filters[i..], passes);
      EveryAppend(filters[..i], [(name, value)], passes);
      EveryAppend(filters[..i], filters[i..], passes);
    }
    FilterCongruent(vehicles, (x: Vehicle) => ApplyFilters(extended, x), (x: Vehicle) => ApplyFilters(filters, x));
  }

  /** The order of the keys does not matter: two filter objects with the same
      properties select the same records. */
  lemma KeyOrderIrrelevant(vehicles: seq<Vehicle>, filters: FilterQuery, reordered: FilterQuery)
    requires multiset(filters) == multiset(reordered)
    ensures GetAllFiltered(vehicles, filters) == GetAllFiltered(vehicles, reordered)
  {
    forall e ensures e in filters <==> e in reordered {
      assert e in filters <==> e in multiset(filters);
      assert e in reordered <==> e in multiset(reordered);
    }
    forall x | x in vehicles
      ensures ApplyFilters(filters, x) == ApplyFilters(reordered, x)
    {
      EverySameElements(filters, reordered, entry => Passes(entry, x));
    }
    FilterCongruent(vehicles, (x: Vehicle) => ApplyFilters(filters, x), (x: Vehicle) => ApplyFilters(reordered, x));
  }

  /** Filters conjoin: filtering by two sets of properties at once is filtering by
      the first and then by the second. */
  lemma FiltersConjoin(vehicles: seq<Vehicle>, first: FilterQuery, second: FilterQuery)
    ensures GetAllFiltered(vehicles, first + second)
         == GetAllFiltered(GetAllFiltered(vehicles, first), second)
  {
    var both := first + second;
    forall x | x in vehicles
      ensures ApplyFilters(both, x) == (ApplyFilters(first, x) && ApplyFilters(second, x))
    {
      EveryAppend(first, second, entry => Passes(entry, x));
    }
    FilterFilter(vehicles, (x: Vehicle) => ApplyFilters(first, x), (x: Vehicle) => ApplyFilters(second, x),
                 (x: Vehicle) => ApplyFilters(both, x));
  }

  /** A filter object with one property keeps the records that property lets through. */
  lemma SinglePropertyFilter(vehicles: seq<Vehicle>, entry: (string, FilterValue), keep: Vehicle -> bool)
    requires forall x :: x in vehicles ==> Passes(entry, x) == keep(x)
    ensures GetAllFiltered(vehicles, [entry]) == Filter(vehicles, keep)
  {
    FilterCongruent(vehicles, (x: Vehicle) => ApplyFilters([entry], x), keep);
  }

  // The `switch` cases of the numeric keys hand the helper `parseInt` of the value.

  lemma Co2GreaterCase(text: string, vehicle: Vehicle)
    ensures SwitchOnKey(Enum(Co2Greater), text, vehicle) == Some(IsCo2GreaterThan(ParseInt(text), vehicle.co2_level))
  {
  }

  lemma Co2LowerCase(text: string, vehicle: Vehicle)
    ensures SwitchOnKey(Enum(Co2Lower), text, vehicle) == Some(IsCo2LowerThan(ParseInt(text), vehicle.co2_level))
  {
  }

  lemma EngineSizeGreaterCase(text: string, vehicle: Vehicle)
    ensures SwitchOnKey(Enum(EngineSizeGreater), text, vehicle) == Some(IsEngineSizeGreater(ParseInt(text), vehicle.engine_size))
  {
  }

  // What each numeric key decides once `parseInt` of its value is a number.

  lemma Co2GreaterVerdict(name: string, value: FilterValue, bound: int, vehicle: Vehicle)
    requires ParseKey(name) == Enum(Co2Greater)
    requires Truthy(value) && ParseInt(ToText(value)) == Some(bound)
    ensures Passes((name, value), vehicle) == (vehicle.co2_level > bound)
  {
    Co2GreaterCase(ToText(value), vehicle);
  }

  lemma Co2LowerVerdict(name: string, value: FilterValue, bound: int, vehicle: Vehicle)
    requires ParseKey(name) == Enum(Co2Lower)
    requires Truthy(value) && ParseInt(ToText(value)) == Some(bound)
    ensures Passes((name, value), vehicle) == (vehicle.co2_level < bound)
  {
    Co2LowerCase(ToText(value), vehicle);
  }

  lemma EngineSizeGreaterVerdict(name: string, value: FilterValue, bound: int, vehicle: Vehicle)
    requires ParseKey(name) == Enum(EngineSizeGreater)
    requires Truthy(value) && ParseInt(ToText(value)) == Some(bound)
    ensures Passes((name, value), vehicle) == (vehicle.engine_size > bound)
  {
    EngineSizeGreaterCase(ToText(value), vehicle);
  }

  /** `co2Greater` keeps exactly the records whose CO2 level is strictly above the
      parsed bound. */
  lemma Co2GreaterKeepsExactly(vehicles: seq<Vehicle>, name: string, value: FilterValue, bound: int)
    requires ParseKey(name) == Enum(Co2Greater)
    requires Truthy(value) && ParseInt(ToText(value)) == Some(bound)
    ensures GetAllFiltered(vehicles, [(name, value)]) == Filter(vehicles, (x: Vehicle) => x.co2_level > bound)
  {
    var filters := [(name, value)];
    forall x | x in vehicles
      ensures Passes(filters[0], x) == (x.co2_level > bound)
    {
      Co2GreaterVerdict(name, value, bound, x);
    }
    SinglePropertyFilter(vehicles, filters[0], (x: Vehicle) => x.co2_level > bound);
  }

  /** `co2Lower` keeps exactly the records whose CO2 level is strictly below the parsed bound. */
  lemma Co2LowerKeepsExactly(vehicles: seq<Vehicle>, name: string, value: FilterValue, bound: int)
    requires ParseKey(name) == Enum(Co2Lower)
    requires Truthy(value) && ParseInt(ToText(value)) == Some(bound)
    ensures GetAllFiltered(vehicles, [(name, value)]) == Filter(vehicles, (x: Vehicle) => x.co2_level < bound)
  {
    var filters := [(name, value)];
    forall x | x in vehicles
      ensures Passes(filters[0], x) == (x.co2_level < bound)
    {
      Co2LowerVerdict(name, value, bound, x);
    }
    SinglePropertyFilter(vehicles, filters[0], (x: Vehicle) => x.co2_level < bound);
  }

  /** `engineSizeGreater` keeps exactly the records whose engine size is strictly
      above the parsed bound: a record at the bound is dropped. */
  lemma EngineSizeGreaterKeepsExactly(vehicles: seq<Vehicle>, name: string, value: FilterValue, bound: int)
    requires ParseKey(name) == Enum(EngineSizeGreater)
    requires Truthy(value) && ParseInt(ToText(value)) == Some(bound)
    ensures GetAllFiltered(vehicles, [(name, value)]) == Filter(vehicles, (x: Vehicle) => x.engine_size > bound)
  {
    var filters := [(name, value)];
    forall x | x in vehicles
      ensures Passes(filters[0], x) == (x.engine_size > bound)
    {
      EngineSizeGreaterVerdict(name, value, bound, x);
    }
    SinglePropertyFilter(vehicles, filters[0], (x: Vehicle) => x.engine_size > bound);
  }

  /** A non-zero number as the value of `co2Greater` is the bound itself. */
  lemma Co2GreaterNumber(vehicles: seq<Vehicle>, n: int)
    requires n != 0
    ensures GetAllFiltered(vehicles, [("co2Greater", Num(n))]) == Filter(vehicles, (x: Vehicle) => x.co2_level > n)
  {
    ParseIntOfDecimal(n);
    ParseKeyOfLiterals();
    Co2GreaterKeepsExactly(vehicles, "co2Greater", Num(n), n);
  }

  /** The number `0` is falsy: alone as the value of any key, it keeps every record. */
  lemma ZeroNumberKeepsAll(vehicles: seq<Vehicle>, name: string)
    ensures GetAllFiltered(vehicles, [(name, Num(0))]) == vehicles
  {
    FilterKeepsAll(vehicles, (x: Vehicle) => ApplyFilters([(name, Num(0))], x));
  }

  /** The string `"0"` is truthy, so `co2Greater: "0"` does constrain, unlike the number `0`. */
  lemma ZeroTextConstrains(vehicles: seq<Vehicle>)
    ensures GetAllFiltered(vehicles, [("co2Greater", Str("0"))]) == Filter(vehicles, (x: Vehicle) => x.co2_level > 0)
  {
    ParseIntOfZeroText();
    ParseKeyOfLiterals();
    Co2GreaterKeepsExactly(vehicles, "co2Greater", Str("0"), 0);
  }

  /** `parseInt` stops at the first character that is not a digit, so a fractional
      bound is truncated: `engineSizeGreater: "1.6"` keeps every engine above 1. */
  lemma FractionalTextTruncates(vehicles: seq<Vehicle>)
    ensures GetAllFiltered(vehicles, [("engineSizeGreater", Str("1.6"))])
         == Filter(vehicles, (x: Vehicle) => x.engine_size > 1)
  {
    ParseIntOfFractionText();
    ParseKeyOfLiterals();
    EngineSizeGreaterKeepsExactly(vehicles, "engineSizeGreater", Str("1.6"), 1);
  }

  /** A numeric key whose value `parseInt` cannot read (`NaN`) rejects every record. */
  lemma NotANumberRejectsAll(vehicles: seq<Vehicle>, name: string, value: FilterValue)
    requires ParseKey(name) in {Enum(Co2Greater), Enum(Co2Lower), Enum(EngineSizeGreater)}
    requires Truthy(value) && ParseInt(ToText(value)) == None
    ensures GetAllFiltered(vehicles, [(name, value)]) == []
  {
    var key := ParseKey(name);
    forall x | x in vehicles
      ensures !ApplyFilters([(name, value)], x)
    {
      Co2GreaterCase(ToText(value), x);
      Co2LowerCase(ToText(value), x);
      EngineSizeGreaterCase(ToText(value), x);
      assert SwitchOnKey(key, ToText(value), x) == Some(false);
    }
    FilterRejectsAll(vehicles, (x: Vehicle) => ApplyFilters([(name, value)], x));
  }

  /** `fuel` keeps exactly the records whose fuel type equals the value, ignoring case. */
  lemma FuelKeepsExactly(vehicles: seq<Vehicle>, value: FilterValue)
    requires Truthy(value)
    ensures GetAllFiltered(vehicles, [("fuel", value)])
         == Filter(vehicles, (x: Vehicle) => EqualsIgnoreCase(ToText(value), x.fuel_type))
  {
    var filters := [("fuel", value)];
    ParseKeyOfLiterals();
    forall x | x in vehicles
      ensures Passes(filters[0], x) == EqualsIgnoreCase(ToText(value), x.fuel_type)
    {
    }
    SinglePropertyFilter(vehicles, filters[0], (x: Vehicle) => EqualsIgnoreCase(ToText(value), x.fuel_type));
  }

  /** On records that respect their declared types, `fuel: "unleaded"` keeps exactly
      the records whose fuel type is `"Unleaded"`. */
  lemma UnleadedOnWellTypedRecords(vehicles: seq<Vehicle>)
    requires forall x :: x in vehicles ==> WellTyped(x)
    ensures GetAllFiltered(vehicles, [("fuel", Str("unleaded"))]) == Filter(vehicles, (x: Vehicle) => x.fuel_type == "Unleaded")
  {
    assert ToLower("unleaded") == "unleaded";
    assert ToLower("Unleaded") == "unleaded";
    assert ToLower("Diesel")[0] == 'd';
    FuelKeepsExactly(vehicles, Str("unleaded"));
    FilterCongruent(vehicles, (x: Vehicle) => EqualsIgnoreCase("unleaded", x.fuel_type), (x: Vehicle) => x.fuel_type == "Unleaded");
  }

  /** `trim` keeps exactly the records whose trim equals the value, ignoring case. */
  lemma TrimKeepsExactly(vehicles: seq<Vehicle>, value: FilterValue)
    requires Truthy(value)
    ensures GetAllFiltered(vehicles, [("trim", value)])
         == Filter(vehicles, (x: Vehicle) => EqualsIgnoreCase(ToText(value), x.trim))
  {
    var filters := [("trim", value)];
    ParseKeyOfLiterals();
    forall x | x in vehicles
      ensures Passes(filters[0], x) == EqualsIgnoreCase(ToText(value), x.trim)
    {
    }
    SinglePropertyFilter(vehicles, filters[0], (x: Vehicle) => EqualsIgnoreCase(ToText(value), x.trim));
  }

  lemma UnwiredKeyIsUndefined(key: FilterKey, text: string, vehicle: Vehicle)
    requires !Wired(key)
    ensures SwitchOnKey(key, text, vehicle) == None
  {
  }

  /** A property with a truthy value whose key has no comparison behind it (the eight
      bare `return;` cases, and any name outside the `switch` such as `colour`)
      rejects every record, whatever the other properties say. */
  lemma UnwiredKeyRejectsAll(vehicles: seq<Vehicle>, filters: FilterQuery, i: nat)
    requires i < |filters|
    requires Truthy(filters[i].1) && !Wired(ParseKey(filters[i].0))
    ensures GetAllFiltered(vehicles, filters) == []
  {
    var key := ParseKey(filters[i].0);
    forall x | x in vehicles
      ensures !ApplyFilters(filters, x)
    {
      UnwiredKeyIsUndefined(key, ToText(filters[i].1), x);
      assert !Passes(filters[i], x);
    }
    FilterRejectsAll(vehicles, (x: Vehicle) => ApplyFilters(filters, x));
  }

  /** A `colour` property with a truthy value, of any shape the model covers, rejects
      every record: the engine has no colour filter. */
  lemma ColourRejectsAll(vehicles: seq<Vehicle>, value: FilterValue)
    requires Truthy(value)
    ensures GetAllFiltered(vehicles, [("colour", value)]) == []
  {
    ParseKeyOfLiterals();
    UnwiredKeyRejectsAll(vehicles, [("colour", value)], 0);
  }

  // ---------------------------------------------------------------------------
  // Properties of the lookups by field

  /** `getByMake` is the case-insensitive make lookup followed by `getAllFiltered`;
      with no filters it is the make lookup alone. */
  lemma GetByMakeThenFilters(vehicles: seq<Vehicle>, filterMake: string, filters: FilterQuery)
    ensures GetByMake(vehicles, filterMake, []) == Filter(vehicles, (x: Vehicle) => EqualsIgnoreCase(x.make, filterMake))
    ensures GetByMake(vehicles, filterMake, filters) == GetAllFiltered(GetByMake(vehicles, filterMake, []), filters)
  {
    var byField := (x: Vehicle) => EqualsIgnoreCase(x.make, filterMake);
    FilterCongruent(vehicles, (x: Vehicle) => EqualsIgnoreCase(x.make, filterMake) && ApplyFilters([], x), byField);
    FilterFilter(vehicles, byField, (x: Vehicle) => ApplyFilters(filters, x),
                 (x: Vehicle) => EqualsIgnoreCase(x.make, filterMake) && ApplyFilters(filters, x));
  }

  /** `getByModel` is the case-insensitive model lookup followed by `getAllFiltered`. */
  lemma GetByModelThenFilters(vehicles: seq<Vehicle>, filterModel: string, filters: FilterQuery)
    ensures GetByModel(vehicles, filterModel, []) == Filter(vehicles, (x: Vehicle) => EqualsIgnoreCase(x.model, filterModel))
    ensures GetByModel(vehicles, filterModel, filters) == GetAllFiltered(GetByModel(vehicles, filterModel, []), filters)
  {
    var byField := (x: Vehicle) => EqualsIgnoreCase(x.model, filterModel);
    FilterCongruent(vehicles, (x: Vehicle) => EqualsIgnoreCase(x.model, filterModel) && ApplyFilters([], x), byField);
    FilterFilter(vehicles, byField, (x: Vehicle) => ApplyFilters(filters, x),
                 (x: Vehicle) => EqualsIgnoreCase(x.model, filterModel) && ApplyFilters(filters, x));
  }

  /** `getByTrim` is the case-insensitive trim lookup followed by `getAllFiltered`. */
  lemma GetByTrimThenFilters(vehicles: seq<Vehicle>, filterTrim: string, filters: FilterQuery)
    ensures GetByTrim(vehicles, filterTrim, []) == Filter(vehicles, (x: Vehicle) => EqualsIgnoreCase(x.trim, filterTrim))
    ensures GetByTrim(vehicles, filterTrim, filters) == GetAllFiltered(GetByTrim(vehicles, filterTrim, []), filters)
  {
    var byField := (x: Vehicle) => EqualsIgnoreCase(x.trim, filterTrim);
    FilterCongruent(vehicles, (x: Vehicle) => EqualsIgnoreCase(x.trim, filterTrim) && ApplyFilters([], x), byField);
    FilterFilter(vehicles, byField, (x: Vehicle) => ApplyFilters(filters, x),
                 (x: Vehicle) => EqualsIgnoreCase(x.trim, filterTrim) && ApplyFilters(filters, x));
  }
}
