/**
 The tool wrappers of main/api.py over the record store: they format store
 results as text for the language model.
 */
module MainApi {
  import opened Outcomes
  import opened PyStr
  import opened DbDriver

  /** `f"{car.make} {car.model}, {car.year}"`. */
  function Summary(c: Car): string {
    c.make + " " + c.model + ", " + IntToString(c.year)
  }

  const FOUND_PREFIX := "Car found: "
  const CREATED_PREFIX := "Car created: "
  const NOT_FOUND_REPLY := "Car not found."

  /** `lookup_car`: a pure read of the store. */
  function LookupCar(t: Table, vin: string): (r: string)
    requires KeyedByVin(t)
  {
    match Find(t, vin)
    case Some(car) => FOUND_PREFIX + Summary(car)
    case None => NOT_FOUND_REPLY
  }

  /** The lookup answers "Car not found." exactly when the store lacks the vin. */
  lemma LookupNotFoundIff(t: Table, vin: string)
    requires KeyedByVin(t)
    ensures LookupCar(t, vin) == NOT_FOUND_REPLY <==> vin !in t
    ensures vin in t ==> LookupCar(t, vin) == FOUND_PREFIX + Summary(t[vin])
  {
    if vin in t {
      assert LookupCar(t, vin)[4] == 'f' != NOT_FOUND_REPLY[4];
    }
  }

  /**
   `create_car`: its parameters come as make, model, year, vin and are handed
   to the store as vin, make, model, year; the store's OverflowError for a year
   outside the INTEGER range and its IntegrityError for a duplicate vin pass
   through.
   */
  method CreateCar(db: DatabaseDriver, make: string, model: string, year: int, vin: string)
    returns (r: Outcome<string>)
    requires db.Valid()
    modifies db
    ensures db.Valid()
    ensures !FitsInteger(year) ==> r == Raised(OverflowError) && db.cars == old(db.cars)
    ensures FitsInteger(year) && vin in old(db.cars) ==> r == Raised(IntegrityError) && db.cars == old(db.cars)
    ensures FitsInteger(year) && vin !in old(db.cars) ==>
      && db.cars == old(db.cars)[vin := Car(vin, make, model, year)]
      && r == Returned(CREATED_PREFIX + Summary(Car(vin, make, model, year)))
  {
    var car := db.CreateCar(vin, make, model, year);
    if car.Raised? {
      return Raised(car.error);
    }
    r := Returned(CREATED_PREFIX + Summary(car.value));
  }

  /**
   After a create, a lookup of the same vin describes the same car in the same
   words as the create's reply.
   */
  lemma CreateThenLookupAgree(t: Table, vin: string, make: string, model: string, year: int)
    requires KeyedByVin(t) && vin !in t
    ensures var car := Car(vin, make, model, year);
      Insert(t, car).Returned? ==>
        KeyedByVin(Insert(t, car).value) && LookupCar(Insert(t, car).value, vin) == FOUND_PREFIX + Summary(car)
  {
  }

  /** `get_car_details`: its body is `pass`, so it returns None and reads nothing. */
  function GetCarDetails(): (r: Option<string>)
    ensures r.None?
  {
    None
  }
}
