/** The record and filter types of the vehicle repository. */
module VehicleTypes {
  import opened JsStrings
  import opened JsArrays

  /** One vehicle listing. `co2_level`, `engine_size`, `mileage` and `price` hold
      whole numbers in the data set. `transmission` and `fuel_type` are declared as
      string-literal unions; the data is cast to this type without checking it, so
      the model keeps them as strings and states the union with `WellTyped`. */
  datatype Vehicle = Vehicle(
    make: string,
    model: string,
    trim: string,
    colour: string,
    co2_level: int,
    transmission: string,
    fuel_type: string,
    engine_size: int,
    date_first_reg: string,
    mileage: int,
    price: int)

  predicate IsTransmissionValue(s: string)
  {
    s == "Manual" || s == "Automatic"
  }

  predicate IsFuelTypeValue(s: string)
  {
    s == "Diesel" || s == "Unleaded"
  }

  /** The record satisfies the literal unions its declared type promises. */
  predicate WellTyped(v: Vehicle)
  {
    IsTransmissionValue(v.transmission) && IsFuelTypeValue(v.fuel_type)
  }

  /** The `Filters` enum. */
  datatype Filters =
    | PriceGreater | PriceLower | Fuel | Transmission
    | MileageLower | MileageGreater | EngineSizeGreater | EngineSizeLower
    | YearGreater | YearLower | Co2Lower | Co2Greater

  /** The string value of each enum member. */
  function FilterName(f: Filters): string
  {
    match f
    case PriceGreater => "priceGreater"
    case PriceLower => "priceLower"
    case Fuel => "fuel"
    case Transmission => "transmission"
    case MileageLower => "mileageLower"
    case MileageGreater => "mileageGreater"
    case EngineSizeGreater => "engineSizeGreater"
    case EngineSizeLower => "engineSizeLower"
    case YearGreater => "yearGreater"
    case YearLower => "yearLower"
    case Co2Lower => "co2Lower"
    case Co2Greater => "co2Greater"
  }

  /** The members in declaration order. */
  function AllFilters(): seq<Filters>
  {
    [PriceGreater, PriceLower, Fuel, Transmission, MileageLower, MileageGreater,
     EngineSizeGreater, EngineSizeLower, YearGreater, YearLower, Co2Lower, Co2Greater]
  }

  /** A key of a filter object as the engine's `switch` sees it: the value of an enum
      member, the `trim` key the engine also handles, or any other property name. */
  datatype FilterKey = Enum(filter: Filters) | Trim | Other(name: string)

  function KeyName(k: FilterKey): string
  {
    match k
    case Enum(f) => FilterName(f)
    case Trim => "trim"
    case Other(name) => name
  }

  /** Classifies a property name of a filter object. */
  function ParseKey(name: string): (k: FilterKey)
    ensures KeyName(k) == name
    ensures k.Other? <==> name != "trim" && forall f :: FilterName(f) != name
  {
    if name == "priceGreater" then Enum(PriceGreater)
    else if name == "priceLower" then Enum(PriceLower)
    else if name == "fuel" then Enum(Fuel)
    else if name == "transmission" then Enum(Transmission)
    else if name == "mileageLower" then Enum(MileageLower)
    else if name == "mileageGreater" then Enum(MileageGreater)
    else if name == "engineSizeGreater" then Enum(EngineSizeGreater)
    else if name == "engineSizeLower" then Enum(EngineSizeLower)
    else if name == "yearGreater" then Enum(YearGreater)
    else if name == "yearLower" then Enum(YearLower)
    else if name == "co2Lower" then Enum(Co2Lower)
    else if name == "co2Greater" then Enum(Co2Greater)
    else if name == "trim" then Trim
    else Other(name)
  }

  /** A filter object (`FilterQuery`): its properties in `Object.keys` order, each with
      its string or number value. */
  type FilterQuery = seq<(string, FilterValue)>

  /** Reading back the value of an enum member gives that member. */
  lemma ParseKeyOfFilterName(f: Filters)
    ensures ParseKey(FilterName(f)) == Enum(f)
  {
    match f
    case PriceGreater =>
    case PriceLower =>
    case Fuel =>
    case Transmission =>
    case MileageLower =>
    case MileageGreater =>
    case EngineSizeGreater =>
    case EngineSizeLower =>
    case YearGreater =>
    case YearLower =>
    case Co2Lower =>
    case Co2Greater =>
  }

  /** The property names the engine's lemmas use, classified. */
  lemma ParseKeyOfLiterals()
    ensures ParseKey("trim") == Trim
    ensures ParseKey("co2Greater") == Enum(Co2Greater)
    ensures ParseKey("co2Lower") == Enum(Co2Lower)
    ensures ParseKey("fuel") == Enum(Fuel)
    ensures ParseKey("engineSizeGreater") == Enum(EngineSizeGreater)
    ensures ParseKey("colour") == Other("colour")
  {
  }

  /** The enum has twelve members, listed once each. */
  lemma AllFiltersComplete()
    ensures |AllFilters()| == 12 && NoDuplicates(AllFilters())
    ensures forall f :: f in AllFilters()
  {
    forall f
      ensures f in AllFilters()
    {
      match f
      case PriceGreater => assert AllFilters()[0] == f;
      case PriceLower => assert AllFilters()[1] == f;
      case Fuel => assert AllFilters()[2] == f;
      case Transmission => assert AllFilters()[3] == f;
      case MileageLower => assert AllFilters()[4] == f;
      case MileageGreater => assert AllFilters()[5] == f;
      case EngineSizeGreater => assert AllFilters()[6] == f;
      case EngineSizeLower => assert AllFilters()[7] == f;
      case YearGreater => assert AllFilters()[8] == f;
      case YearLower => assert AllFilters()[9] == f;
      case Co2Lower => assert AllFilters()[10] == f;
      case Co2Greater => assert AllFilters()[11] == f;
    }
  }

  /** The members' values are pairwise distinct, and neither `trim` nor `colour` is
      among them. */
  lemma FilterNamesDistinct()
    ensures forall f, g :: FilterName(f) == FilterName(g) ==> f == g
    ensures forall f :: FilterName(f) != "trim" && FilterName(f) != "colour"
  {
    forall f, g | FilterName(f) == FilterName(g)
      ensures f == g
    {
      ParseKeyOfFilterName(f);
      ParseKeyOfFilterName(g);
    }
  }
}
