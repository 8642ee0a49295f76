/**
 The session state of api.py: `AssistantFnc`, which holds the car the
 conversation is about in its `_car_details` field and offers the lookup,
 create and details tools over an injected record store.
 */
module Api {
  import opened Outcomes
  import opened PyStr
  import opened DbDriver

  /** The members of the `CarDetails` enum, in declaration order. */
  datatype Key = VIN | Make | Model | Year

  /** `key.name` of an enum member. */
  function Name(k: Key): string {
    match k
    case VIN => "VIN"
    case Make => "Make"
    case Model => "Model"
    case Year => "Year"
  }

  /** A value stored in `_car_details`: text, or the int year of a stored car. */
  datatype Value = Text(text: string) | Number(number: int)

  /** `f"{value}"`. */
  function Str(v: Value): string {
    match v
    case Text(s) => s
    case Number(n) => IntToString(n)
  }

  /** The `_car_details` dictionary: one value per `CarDetails` key. */
  datatype CarDetails = CarDetails(vin: string, make: string, model: string, year: Value)

  /** The dictionary `__init__` builds: every field the empty text. */
  const BLANK := CarDetails("", "", "", Text(""))

  /** The dictionary a lookup or create builds from a store record. */
  function FromCar(c: Car): CarDetails {
    CarDetails(c.vin, c.make, c.model, Number(c.year))
  }

  /** `_car_details.items()`, in the order the keys were inserted. */
  function Items(d: CarDetails): seq<(Key, Value)> {
    [(VIN, Text(d.vin)), (Make, Text(d.make)), (Model, Text(d.model)), (Year, d.year)]
  }

  /** One `"Name: value\n"` line of the summary. */
  function Line(item: (Key, Value)): string {
    Name(item.0) + ": " + Str(item.1) + "\n"
  }

  /** The lines of `items`, concatenated in order. */
  function Lines(items: seq<(Key, Value)>): string {
    if |items| == 0 then "" else Lines(items[..|items| - 1]) + Line(items[|items| - 1])
  }

  /** What `get_car_str` returns for the dictionary `d`. */
  function CarStr(d: CarDetails): string {
    Lines(Items(d))
  }

  /** The summary is one line per field, in the order VIN, Make, Model, Year. */
  lemma CarStrFormat(d: CarDetails)
    ensures CarStr(d) == ("VIN: " + d.vin + "\n") + ("Make: " + d.make + "\n")
                       + ("Model: " + d.model + "\n") + ("Year: " + Str(d.year) + "\n")
  {
    var items := Items(d);
    assert items[..1][..0] == [];
    assert items[..2][..1] == items[..1];
    assert items[..3][..2] == items[..2];
    assert items[..4] == items;
    assert Lines(items[..1]) == Line(items[0]);
    assert Lines(items[..2]) == Line(items[0]) + Line(items[1]);
    assert Lines(items[..3]) == Line(items[0]) + Line(items[1]) + Line(items[2]);
    assert Line(items[0]) == "VIN: " + d.vin + "\n";
    assert Line(items[1]) == "Make: " + d.make + "\n";
    assert Line(items[2]) == "Model: " + d.model + "\n";
    assert Line(items[3]) == "Year: " + Str(d.year) + "\n";
  }

  /** `has_car`: the VIN field is not the empty text. */
  predicate Identified(d: CarDetails) {
    d.vin != ""
  }

  const DETAILS_PREFIX := "The car details are: "
  const CAR_NOT_FOUND := "Car not found"
  const CAR_CREATED := "car created!"
  const CREATE_FAILED := "Failed to create car"

  /** `get_car_details`: the current fields after a fixed prefix. */
  function Details(d: CarDetails): string {
    DETAILS_PREFIX + CarStr(d)
  }

  /** `lookup_car` as a step: the new dictionary and the returned text. */
  function Lookup(d: CarDetails, t: Table, vin: string): (CarDetails, string)
    requires KeyedByVin(t)
  {
    match Find(t, vin)
    case None => (d, CAR_NOT_FOUND)
    case Some(c) => (FromCar(c), Details(FromCar(c)))
  }

  /**
   `create_car` as a step: the new dictionary, the new table and how the call
   ends. The driver never returns None, so the "Failed to create car" branch is
   never taken; a year outside the INTEGER range makes the driver raise
   OverflowError and a duplicate vin IntegrityError, which `create_car` does
   not catch.
   */
  function Create(d: CarDetails, t: Table, vin: string, make: string, model: string, year: int)
    : (CarDetails, Table, Outcome<string>)
  {
    match Insert(t, Car(vin, make, model, year))
    case Raised(e) => (d, t, Raised(e))
    case Returned(t') => (FromCar(Car(vin, make, model, year)), t', Returned(CAR_CREATED))
  }

  /** The details text names every field of the held car. */
  lemma DetailsNameEveryField(d: CarDetails)
    ensures Contains(Details(d), d.vin) && Contains(Details(d), d.make)
    ensures Contains(Details(d), d.model) && Contains(Details(d), Str(d.year))
  {
    CarStrFormat(d);
    var l1, l2 := "VIN: " + d.vin + "\n", "Make: " + d.make + "\n";
    var l3, l4 := "Model: " + d.model + "\n", "Year: " + Str(d.year) + "\n";
    ContainsMiddle("VIN: ", d.vin, "\n");
    ContainsLeft(l1, l2, d.vin);
    ContainsLeft(l1 + l2, l3, d.vin);
    ContainsLeft(l1 + l2 + l3, l4, d.vin);
    ContainsRight(DETAILS_PREFIX, CarStr(d), d.vin);
    ContainsMiddle("Make: ", d.make, "\n");
    ContainsRight(l1, l2, d.make);
    ContainsLeft(l1 + l2, l3, d.make);
    ContainsLeft(l1 + l2 + l3, l4, d.make);
    ContainsRight(DETAILS_PREFIX, CarStr(d), d.make);
    ContainsMiddle("Model: ", d.model, "\n");
    ContainsRight(l1 + l2, l3, d.model);
    ContainsLeft(l1 + l2 + l3, l4, d.model);
    ContainsRight(DETAILS_PREFIX, CarStr(d), d.model);
    ContainsMiddle("Year: ", Str(d.year), "\n");
    ContainsRight(l1 + l2 + l3, l4, Str(d.year));
    ContainsRight(DETAILS_PREFIX, CarStr(d), Str(d.year));
  }

  /** The held dictionary is blank or is a record of the store. */
  ghost predicate Holds(d: CarDetails, t: Table) {
    d == BLANK || (d.vin in t && d == FromCar(t[d.vin]))
  }

  /** A fresh session has no car, and its summary shows four empty fields. */
  lemma FreshSessionHasNoCar()
    ensures !Identified(BLANK)
    ensures Details(BLANK) == "The car details are: VIN: \nMake: \nModel: \nYear: \n"
  {
    CarStrFormat(BLANK);
  }

  /** A lookup of an absent vin answers "Car not found" and keeps the held car. */
  lemma LookupMissKeepsState(d: CarDetails, t: Table, vin: string)
    requires KeyedByVin(t)
    requires vin !in t
    ensures Lookup(d, t, vin) == (d, CAR_NOT_FOUND)
  {
  }

  /**
   A lookup of a stored vin adopts all four fields of the record and answers
   with the details of the new car; the session is then identified exactly when
   that vin is not the empty text.
   */
  lemma LookupHitAdoptsRecord(d: CarDetails, t: Table, vin: string)
    requires KeyedByVin(t)
    requires vin in t
    ensures var (d', response) := Lookup(d, t, vin);
      && d'.vin == vin && d'.make == t[vin].make && d'.model == t[vin].model
      && d'.year == Number(t[vin].year)
      && response == Details(d')
      && (Identified(d') <==> vin != "")
  {
  }

  /**
   `create_car` on a new vin whose year fits an INTEGER adopts exactly its
   arguments and answers "car created!". On a vin already stored it raises
   IntegrityError, and on a year outside the INTEGER range OverflowError; both
   leave the session and the store as they were. It never answers
   "Failed to create car".
   */
  lemma CreateOutcomes(d: CarDetails, t: Table, vin: string, make: string, model: string, year: int)
    requires KeyedByVin(t)
    ensures var (d', t', r) := Create(d, t, vin, make, model, year);
      && (FitsInteger(year) && vin !in t ==>
            && d' == CarDetails(vin, make, model, Number(year)) && r == Returned(CAR_CREATED)
            && (Identified(d') <==> vin != "") && Find(t', vin) == Some(Car(vin, make, model, year)))
      && (FitsInteger(year) && vin in t ==> d' == d && t' == t && r == Raised(IntegrityError))
      && (!FitsInteger(year) ==> d' == d && t' == t && r == Raised(OverflowError))
      && r != Returned(CREATE_FAILED)
  {
  }

  /**
   Only a successful lookup or create changes whether the session holds a car,
   and then it holds one exactly when the new vin is not empty: a failure never
   clears a held car.
   */
  lemma IdentifiedAfterSteps(d: CarDetails, t: Table, vin: string, make: string, model: string, year: int)
    requires KeyedByVin(t)
    ensures Identified(Lookup(d, t, vin).0) == if vin in t then vin != "" else Identified(d)
    ensures Identified(Create(d, t, vin, make, model, year).0)
         == if FitsInteger(year) && vin !in t then vin != "" else Identified(d)
  {
  }

  /** A store insert keeps every held record a record of the store. */
  lemma HoldsAfterInsert(d: CarDetails, t: Table, car: Car)
    requires KeyedByVin(t) && Holds(d, t)
    ensures Insert(t, car).Returned? ==> Holds(d, Insert(t, car).value)
  {
  }

  /** Lookup and create keep the held dictionary a record of the store. */
  lemma HoldsPreserved(d: CarDetails, t: Table, vin: string, make: string, model: string, year: int)
    requires KeyedByVin(t) && Holds(d, t)
    ensures Holds(Lookup(d, t, vin).0, t)
    ensures var (d', t', _) := Create(d, t, vin, make, model, year); KeyedByVin(t') && Holds(d', t')
  {
    HoldsAfterInsert(d, t, Car(vin, make, model, year));
  }

  /** `AssistantFnc`: the conversation's current car over the injected store `db`. */
  class AssistantFnc {
    const db: DatabaseDriver
    var carDetails: CarDetails

    ghost predicate Valid()
      reads this, db
    {
      db.Valid() && Holds(carDetails, db.cars)
    }

    /** `__init__`: every field empty, so there is no car yet. */
    constructor (db: DatabaseDriver)
      requires db.Valid()
      ensures Valid() && this.db == db
      ensures carDetails == BLANK && !HasCar()
    {
      this.db := db;
      carDetails := BLANK;
    }

    /** `has_car`. */
    function HasCar(): (r: bool)
      reads this
      ensures r <==> Identified(carDetails)
    {
      carDetails.vin != ""
    }

    /** `get_car_str`: one line per dictionary entry, appended in iteration order. */
    method GetCarStr() returns (s: string)
      ensures s == CarStr(carDetails)
    {
      var items := Items(carDetails);
      s := "";
      for i := 0 to |items|
        invariant s == Lines(items[..i])
      {
        assert items[..i + 1][..i] == items[..i];
        s := s + Name(items[i].0) + ": " + Str(items[i].1) + "\n";
      }
      assert items[..|items|] == items;
    }

    /** `lookup_car`: adopts the stored record, or leaves the fields as they were. */
    method LookupCar(vin: string) returns (response: string)
      requires Valid()
      modifies this
      ensures Valid()
      ensures (carDetails, response) == Lookup(old(carDetails), db.cars, vin)
    {
      var result := db.GetCarByVin(vin);
      if result.None? {
        return CAR_NOT_FOUND;
      }
      carDetails := FromCar(result.value);
      var carStr := GetCarStr();
      response := DETAILS_PREFIX + carStr;
    }

    /** `get_car_details`: read-only. */
    method GetCarDetails() returns (r: string)
      ensures r == Details(carDetails)
    {
      var carStr := GetCarStr();
      r := DETAILS_PREFIX + carStr;
    }

    /** `create_car`: inserts through the store and adopts the record it returns. */
    method CreateCar(vin: string, make: string, model: string, year: int) returns (r: Outcome<string>)
      requires Valid()
      modifies this, db
      ensures Valid()
      ensures (carDetails, db.cars, r) == Create(old(carDetails), old(db.cars), vin, make, model, year)
    {
      var result := db.CreateCar(vin, make, model, year);
      if result.Raised? {
        return Raised(result.error);
      }
      HoldsAfterInsert(carDetails, old(db.cars), result.value);
      carDetails := FromCar(result.value);
      r := Returned(CAR_CREATED);
    }
  }
}
