/** The debugging script that lists the distinct transmissions and fuel types of the
    data set. The data set, which the script reads from the JSON file, is a parameter;
    the two lists it prints are returned. */
module Debug {
  import opened JsArrays
  import opened VehicleTypes

  function Transmissions(vehicles: seq<Vehicle>): (r: seq<string>)
    ensures |r| == |vehicles| && forall i :: 0 <= i < |vehicles| ==> r[i] == vehicles[i].transmission
  {
    seq(|vehicles|, i requires 0 <= i < |vehicles| => vehicles[i].transmission)
  }

  function FuelTypes(vehicles: seq<Vehicle>): (r: seq<string>)
    ensures |r| == |vehicles| && forall i :: 0 <= i < |vehicles| ==> r[i] == vehicles[i].fuel_type
  {
    seq(|vehicles|, i requires 0 <= i < |vehicles| => vehicles[i].fuel_type)
  }

  lemma ColumnsExtend(vehicles: seq<Vehicle>, k: nat)
    requires k < |vehicles|
    ensures Transmissions(vehicles[..k + 1]) == Transmissions(vehicles[..k]) + [vehicles[k].transmission]
    ensures FuelTypes(vehicles[..k + 1]) == FuelTypes(vehicles[..k]) + [vehicles[k].fuel_type]
  {
  }

  /** The `forEach` loop: each list gets a value pushed when `indexOf` does not find it,
      so each ends as the distinct values of its field in order of first occurrence. */
  method CollectDistinct(vehicles: seq<Vehicle>) returns (listOfTransmissions: seq<string>, listOfFuelType: seq<string>)
    ensures listOfTransmissions == Distinct(Transmissions(vehicles))
    ensures listOfFuelType == Distinct(FuelTypes(vehicles))
  {
    listOfTransmissions := [];
    listOfFuelType := [];
    var k := 0;
    while k < |vehicles|
      invariant 0 <= k <= |vehicles|
      invariant listOfTransmissions == Distinct(Transmissions(vehicles[..k]))
      invariant listOfFuelType == Distinct(FuelTypes(vehicles[..k]))
    {
      var vehicle := vehicles[k];
      ColumnsExtend(vehicles, k);
      if IndexOf(listOfTransmissions, vehicle.transmission) == -1 {
        listOfTransmissions := listOfTransmissions + [vehicle.transmission];
      }
      if IndexOf(listOfFuelType, vehicle.fuel_type) == -1 {
        listOfFuelType := listOfFuelType + [vehicle.fuel_type];
      }
      k := k + 1;
    }
    assert vehicles[..k] == vehicles;
  }

  /** Each list holds every value of its field that occurs in the data, nothing else,
      each once, in order of first occurrence. */
  lemma DistinctListsExact(vehicles: seq<Vehicle>)
    ensures forall t :: t in Distinct(Transmissions(vehicles)) <==> exists v :: v in vehicles && v.transmission == t
    ensures forall f :: f in Distinct(FuelTypes(vehicles)) <==> exists v :: v in vehicles && v.fuel_type == f
    ensures NoDuplicates(Distinct(Transmissions(vehicles))) && NoDuplicates(Distinct(FuelTypes(vehicles)))
    ensures |Distinct(Transmissions(vehicles))| <= |vehicles| && |Distinct(FuelTypes(vehicles))| <= |vehicles|
    ensures forall i, j :: 0 <= i < j < |Distinct(Transmissions(vehicles))| ==>
              IndexOf(Transmissions(vehicles), Distinct(Transmissions(vehicles))[i])
              < IndexOf(Transmissions(vehicles), Distinct(Transmissions(vehicles))[j])
    ensures forall i, j :: 0 <= i < j < |Distinct(FuelTypes(vehicles))| ==>
              IndexOf(FuelTypes(vehicles), Distinct(FuelTypes(vehicles))[i])
              < IndexOf(FuelTypes(vehicles), Distinct(FuelTypes(vehicles))[j])
  {
    var ts, fs := Transmissions(vehicles), FuelTypes(vehicles);
    DistinctMembers(ts);
    DistinctMembers(fs);
    forall t ensures t in ts <==> exists v :: v in vehicles && v.transmission == t {
      if t in ts {
        var i :| 0 <= i < |ts| && ts[i] == t;
        assert vehicles[i] in vehicles;
      }
    }
    forall f ensures f in fs <==> exists v :: v in vehicles && v.fuel_type == f {
      if f in fs {
        var i :| 0 <= i < |fs| && fs[i] == f;
        assert vehicles[i] in vehicles;
      }
    }
    DistinctNoDuplicates(ts);
    DistinctNoDuplicates(fs);
    DistinctFirstSeenOrder(ts);
    DistinctFirstSeenOrder(fs);
  }

  /** Over records that respect their declared literal unions, each list has at most two entries. */
  lemma DistinctListsAtMostTwo(vehicles: seq<Vehicle>)
    requires forall v :: v in vehicles ==> WellTyped(v)
    ensures |Distinct(Transmissions(vehicles))| <= 2 && |Distinct(FuelTypes(vehicles))| <= 2
  {
    var ts, fs := Transmissions(vehicles), FuelTypes(vehicles);
    DistinctListsExact(vehicles);
    var dt, df := Distinct(ts), Distinct(fs);
    forall i | 0 <= i < |dt|
      ensures dt[i] == "Manual" || dt[i] == "Automatic"
    {
      assert dt[i] in dt;
    }
    forall i | 0 <= i < |df|
      ensures df[i] == "Diesel" || df[i] == "Unleaded"
    {
      assert df[i] in df;
    }
    AtMostTwoOfTwoValues(dt, "Manual", "Automatic");
    AtMostTwoOfTwoValues(df, "Diesel", "Unleaded");
  }
}
