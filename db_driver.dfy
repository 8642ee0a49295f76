/**
 The vehicle record store of main/db_driver.py: a `cars` table whose primary
 key is the VIN, with insert and exact-match lookup as its only operations.
 The SQLite file is modelled by the contents of that table, in memory.
 */
module DbDriver {
  import opened Outcomes

  /** One row of the `cars` table. */
  datatype Car = Car(vin: string, make: string, model: string, year: int)

  /** The rows of the `cars` table, indexed by their primary key. */
  type Table = map<string, Car>

  /** Every row is stored under its own `vin`: the primary key is the `vin` column. */
  ghost predicate KeyedByVin(t: Table) {
    forall v :: v in t ==> t[v].vin == v
  }

  /**
   `CREATE TABLE IF NOT EXISTS cars`: the table the driver works on, given the
   table the database file already holds, if any.
   */
  function InitTable(existing: Option<Table>): (t: Table)
    ensures existing.Some? ==> t == existing.value
    ensures existing.None? ==> t == map[]
  {
    if existing.Some? then existing.value else map[]
  }

  /** Running the table creation on a file that already has the table changes nothing. */
  lemma InitTableIdempotent(existing: Option<Table>)
    ensures InitTable(Some(InitTable(existing))) == InitTable(existing)
  {
  }

  /** The range of an SQLite INTEGER, the signed 64-bit integers. */
  const INTEGER_MIN := -0x8000_0000_0000_0000
  const INTEGER_MAX := 0x7fff_ffff_ffff_ffff

  /** sqlite3 can bind the Python int `n` as an SQLite INTEGER parameter. */
  predicate FitsInteger(n: int) {
    INTEGER_MIN <= n <= INTEGER_MAX
  }

  /**
   `INSERT INTO cars`: a new row, or an exception. Binding a year outside the
   64-bit range raises OverflowError before the statement runs; otherwise a
   `vin` that is already a key raises IntegrityError. There is no upsert.
   */
  function Insert(t: Table, car: Car): (r: Outcome<Table>)
    ensures r == Raised(OverflowError) <==> !FitsInteger(car.year)
    ensures r == Raised(IntegrityError) <==> FitsInteger(car.year) && car.vin in t
    ensures r.Returned? <==> FitsInteger(car.year) && car.vin !in t
    ensures r.Returned? ==> r.value.Keys == t.Keys + {car.vin} && r.value[car.vin] == car
    ensures r.Returned? ==> forall v :: v in t ==> r.value[v] == t[v]
  {
    if !FitsInteger(car.year) then Raised(OverflowError)
    else if car.vin in t then Raised(IntegrityError)
    else Returned(t[car.vin := car])
  }

  /**
   A run of `create_car` calls from table `t`: the inserts in order, stopping
   at the first one that raises.
   */
  function InsertAll(t: Table, cars: seq<Car>): (r: Outcome<Table>)
    ensures r.Returned? ==> r.value.Keys == t.Keys + (set c | c in cars :: c.vin)
    ensures r.Returned? ==> forall v :: v in t ==> r.value[v] == t[v]
    ensures KeyedByVin(t) && r.Returned? ==> KeyedByVin(r.value)
    decreases |cars|
  {
    if cars == [] then Returned(t)
    else
      match Insert(t, cars[0])
      case Raised(e) => Raised(e)
      case Returned(t1) =>
        var r := InsertAll(t1, cars[1..]);
        assert forall c :: c in cars <==> c == cars[0] || c in cars[1..];
        r
  }

  /**
   A run of inserts completes exactly when every year fits an INTEGER, no
   inserted vin was already stored, and no vin is inserted twice.
   */
  lemma {:induction false} InsertAllSucceedsIff(t: Table, cars: seq<Car>)
    ensures InsertAll(t, cars).Returned? <==>
      && (forall i :: 0 <= i < |cars| ==> FitsInteger(cars[i].year) && cars[i].vin !in t)
      && (forall i, j :: 0 <= i < j < |cars| ==> cars[i].vin != cars[j].vin)
    decreases |cars|
  {
    if cars != [] && Insert(t, cars[0]).Returned? {
      var t1, rest := Insert(t, cars[0]).value, cars[1..];
      InsertAllSucceedsIff(t1, rest);
      assert forall i :: 0 <= i < |rest| ==> rest[i] == cars[i + 1];
      if InsertAll(t1, rest).Returned? {
        forall i, j | 0 <= i < j < |cars| ensures cars[i].vin != cars[j].vin {
          if i > 0 {
            assert cars[i] == rest[i - 1] && cars[j] == rest[j - 1];
          } else {
            assert cars[j] == rest[j - 1];
          }
        }
        forall i | 0 <= i < |cars| ensures FitsInteger(cars[i].year) && cars[i].vin !in t {
          if i > 0 {
            assert cars[i] == rest[i - 1];
          }
        }
      } else if forall i :: 0 <= i < |rest| ==> FitsInteger(rest[i].year) && rest[i].vin !in t1 {
        var i, j :| 0 <= i < j < |rest| && rest[i].vin == rest[j].vin;
        assert cars[i + 1].vin == cars[j + 1].vin;
      } else {
        var i :| 0 <= i < |rest| && !(FitsInteger(rest[i].year) && rest[i].vin !in t1);
        assert cars[i + 1] == rest[i];
        if rest[i].vin == cars[0].vin {
          assert cars[0].vin == cars[i + 1].vin;
        }
      }
    }
  }

  /** After a run of inserts completes, every inserted car is stored under its vin. */
  lemma {:induction false} InsertAllStoresEach(t: Table, cars: seq<Car>)
    ensures InsertAll(t, cars).Returned? ==>
      forall c :: c in cars ==> c.vin in InsertAll(t, cars).value && InsertAll(t, cars).value[c.vin] == c
    decreases |cars|
  {
    if cars != [] && InsertAll(t, cars).Returned? {
      var t1, rest := Insert(t, cars[0]).value, cars[1..];
      InsertAllStoresEach(t1, rest);
      InsertAllSucceedsIff(t, cars);
      var r := InsertAll(t, cars).value;
      assert r == InsertAll(t1, rest).value;
      forall c | c in cars ensures c.vin in r && r[c.vin] == c {
        if c == cars[0] {
          assert cars[0].vin in t1;
        } else {
          assert c in rest;
        }
      }
    }
  }

  /** `SELECT * FROM cars WHERE vin = ?`: exact match on the stored text, no case folding. */
  function Find(t: Table, vin: string): (r: Option<Car>)
    requires KeyedByVin(t)
    ensures r.Some? <==> vin in t
    ensures r.Some? ==> r.value == t[vin] && r.value.vin == vin
  {
    if vin in t then Some(t[vin]) else None
  }

  /** An insert keeps the table keyed by `vin`. */
  lemma InsertKeepsKeys(t: Table, car: Car)
    requires KeyedByVin(t)
    ensures Insert(t, car).Returned? ==> KeyedByVin(Insert(t, car).value)
  {
  }

  /**
   Inserting a new vin succeeds exactly when its year fits an INTEGER, and
   then a lookup of that vin yields a Car equal in all four fields.
   */
  lemma InsertThenFind(t: Table, vin: string, make: string, model: string, year: int)
    requires KeyedByVin(t)
    requires vin !in t
    ensures Insert(t, Car(vin, make, model, year)).Returned? <==> FitsInteger(year)
    ensures FitsInteger(year) ==>
      Find(Insert(t, Car(vin, make, model, year)).value, vin) == Some(Car(vin, make, model, year))
  {
  }

  /**
   Once a record is stored, a second insert of the same vin fails: with
   IntegrityError, or with OverflowError when its year does not fit an
   INTEGER. The first record stays in place.
   */
  lemma DuplicateInsertFails(t: Table, first: Car, second: Car)
    requires KeyedByVin(t)
    requires first.vin !in t && FitsInteger(first.year)
    requires second.vin == first.vin
    ensures var t1 := Insert(t, first).value;
      && Insert(t1, second) == Raised(if FitsInteger(second.year) then IntegrityError else OverflowError)
      && Find(t1, first.vin) == Some(first)
  {
  }

  /**
   A vin that was never inserted is not found: after any run of successful
   inserts into the table the driver opened, a vin that neither the file held
   nor any inserted car carried is still absent.
   */
  lemma FindNeverInserted(existing: Option<Table>, cars: seq<Car>, vin: string)
    requires existing.Some? ==> KeyedByVin(existing.value) && vin !in existing.value
    requires forall c :: c in cars ==> c.vin != vin
    requires InsertAll(InitTable(existing), cars).Returned?
    ensures var t := InsertAll(InitTable(existing), cars).value;
      KeyedByVin(t) && Find(t, vin) == None
  {
    var t := InsertAll(InitTable(existing), cars).value;
    assert vin !in (set c | c in cars :: c.vin);
  }

  /** Stored rows are immutable: every insert leaves every row already present as it was. */
  lemma InsertPreservesRows(t: Table, car: Car, vin: string)
    requires KeyedByVin(t)
    requires vin in t
    ensures Insert(t, car).Returned? ==> Find(Insert(t, car).value, vin) == Find(t, vin)
  {
  }

  /** The driver object: the `cars` table it writes to and reads from. */
  class DatabaseDriver {
    var tableCreated: bool
    var cars: Table

    ghost predicate Valid()
      reads this
    {
      tableCreated && KeyedByVin(cars)
    }

    /**
     `DatabaseDriver(db_path)`: opens the database file, whose `cars` table is
     `existing` (None when the file has no such table), and creates the table
     if it is missing.
     */
    constructor (existing: Option<Table>)
      requires existing.Some? ==> KeyedByVin(existing.value)
      ensures Valid()
      ensures cars == InitTable(existing)
    {
      tableCreated := existing.Some?;
      cars := if existing.Some? then existing.value else map[];
      new;
      InitDb();
    }

    /** `_init_db`: CREATE TABLE IF NOT EXISTS keeps whatever rows are already there. */
    method InitDb()
      requires KeyedByVin(cars)
      requires !tableCreated ==> cars == map[]
      modifies this
      ensures Valid()
      ensures cars == old(cars)
    {
      if !tableCreated {
        tableCreated := true;
      }
    }

    /**
     `create_car`: inserts the row and returns a Car built from the arguments.
     A year outside the INTEGER range raises OverflowError, and a vin that is
     already a key raises IntegrityError; neither changes the table.
     */
    method CreateCar(vin: string, make: string, model: string, year: int) returns (r: Outcome<Car>)
      requires Valid()
      modifies this
      ensures Valid()
      ensures !FitsInteger(year) ==> r == Raised(OverflowError) && cars == old(cars)
      ensures FitsInteger(year) && vin in old(cars) ==> r == Raised(IntegrityError) && cars == old(cars)
      ensures FitsInteger(year) && vin !in old(cars) ==>
        r == Returned(Car(vin, make, model, year)) && cars == Insert(old(cars), r.value).value
    {
      var car := Car(vin, make, model, year);
      var inserted := Insert(cars, car);
      if inserted.Raised? {
        return Raised(inserted.error);
      }
      cars := inserted.value;
      r := Returned(car);
    }

    /** `get_car_by_vin`: the stored row for `vin`, or None. Reads the table only. */
    function GetCarByVin(vin: string): (r: Option<Car>)
      requires Valid()
      reads this
      ensures r == Find(cars, vin)
    {
      Find(cars, vin)
    }
  }
}
