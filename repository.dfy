/**
  The in-memory vehicle store: a map from identifier to attribute bundle, six
  queries that scan the whole map, and four mutations. Every list query fails
  with RepositoryVehicleNotFound rather than return an empty list.
 */
module Repository {
  import opened Errors
  import opened Domain
  import Text

  type Db = map<int, VehicleAttributes>

  /** The filters of the six list queries. */
  datatype Query =
    | All
    | Dimensions(minHeight: real, maxHeight: real, minWidth: real, maxWidth: real)
    | Weight(min: real, max: real)
    | ColorAndYear(color: string, year: int)
    | Brand(brand: string)
    | Transmission(transmission: string)

  /** Whether a stored bundle passes a query's filter: strict bounds, lowered strings. */
  predicate Satisfies(a: VehicleAttributes, q: Query) {
    match q
    case All => true
    case Dimensions(minHeight, maxHeight, minWidth, maxWidth) =>
      minWidth < a.width && a.width < maxWidth && minHeight < a.height && a.height < maxHeight
    case Weight(min, max) => min < a.weight && a.weight < max
    case ColorAndYear(color, year) => a.year == year && Text.ToLower(a.color) == Text.ToLower(color)
    case Brand(brand) => Text.ToLower(a.brand) == Text.ToLower(brand)
    case Transmission(transmission) => Text.ToLower(transmission) == Text.ToLower(a.transmission)
  }

  /** The identifiers whose records pass the filter. */
  function Matches(db: Db, q: Query): set<int> {
    set k | k in db && Satisfies(db[k], q)
  }

  /** The identifiers a list of vehicles carries. */
  function Ids(vs: seq<Vehicle>): set<int> {
    set i | 0 <= i < |vs| :: vs[i].id
  }

  ghost predicate DistinctIds(vs: seq<Vehicle>) {
    forall i, j :: 0 <= i < j < |vs| ==> vs[i].id != vs[j].id
  }

  /** Every listed vehicle is a stored record, with the attributes stored for its id. */
  ghost predicate Stored(vs: seq<Vehicle>, db: Db) {
    forall i :: 0 <= i < |vs| ==> vs[i].id in db && db[vs[i].id] == vs[i].attributes
  }

  /**
    `vs` lists the records of `db` that pass `q`, each exactly once, in some
    order (Go map iteration order is unspecified).
   */
  ghost predicate Lists(vs: seq<Vehicle>, db: Db, q: Query) {
    Stored(vs, db) && DistinctIds(vs) && Ids(vs) == Matches(db, q)
  }

  lemma IdsAppend(vs: seq<Vehicle>, v: Vehicle)
    ensures Ids(vs + [v]) == Ids(vs) + {v.id}
  {
    var ws := vs + [v];
    forall k | k in Ids(vs) + {v.id} ensures k in Ids(ws) {
      if k == v.id {
        assert ws[|vs|] == v;
      } else {
        var i :| 0 <= i < |vs| && vs[i].id == k;
        assert ws[i] == vs[i];
      }
    }
  }

  /** A list with distinct identifiers has as many vehicles as identifiers. */
  lemma {:induction false} DistinctIdsCount(vs: seq<Vehicle>)
    requires DistinctIds(vs)
    ensures |Ids(vs)| == |vs|
  {
    if vs != [] {
      var init := vs[..|vs| - 1];
      var last := vs[|vs| - 1];
      assert vs == init + [last];
      DistinctIdsCount(init);
      IdsAppend(init, last);
      assert last.id !in Ids(init);
    }
  }

  /** A listing holds exactly as many vehicles as there are matching records. */
  lemma ListsCount(vs: seq<Vehicle>, db: Db, q: Query)
    requires Lists(vs, db, q)
    ensures |vs| == |Matches(db, q)|
  {
    DistinctIdsCount(vs);
  }

  /** Every listed vehicle passes the filter, and every passing record is listed. */
  lemma ListsExactly(vs: seq<Vehicle>, db: Db, q: Query)
    requires Lists(vs, db, q)
    ensures forall i :: 0 <= i < |vs| ==> Satisfies(vs[i].attributes, q)
    ensures forall k :: k in db && Satisfies(db[k], q) ==> Vehicle(k, db[k]) in vs
  {
    forall i | 0 <= i < |vs| ensures Satisfies(vs[i].attributes, q) {
      assert vs[i].id in Ids(vs);
    }
    forall k | k in db && Satisfies(db[k], q) ensures Vehicle(k, db[k]) in vs {
      assert k in Matches(db, q);
      var i :| 0 <= i < |vs| && vs[i].id == k;
      assert vs[i] == Vehicle(k, db[k]);
    }
  }

  /** Two listings of the same query differ at most in order. */
  lemma ListingsAgree(vs: seq<Vehicle>, ws: seq<Vehicle>, db: Db, q: Query)
    requires Lists(vs, db, q) && Lists(ws, db, q)
    ensures |vs| == |ws|
    ensures forall i :: 0 <= i < |vs| ==> vs[i] in ws
  {
    ListsCount(vs, db, q);
    ListsCount(ws, db, q);
    ListsExactly(ws, db, q);
    forall i | 0 <= i < |vs| ensures vs[i] in ws {
      assert vs[i].id in Ids(vs);
    }
  }

  /** A listing is empty exactly when no record matches. */
  lemma ListsEmpty(vs: seq<Vehicle>, db: Db, q: Query)
    requires Lists(vs, db, q)
    ensures |vs| == 0 <==> Matches(db, q) == {}
  {
    if |vs| > 0 {
      assert vs[0].id in Ids(vs);
    }
  }

  /** A non-empty set has an element: the `:|` choices in NextKey and PassengerSum rely on it. */
  lemma HasElement(s: set<int>)
    requires s != {}
    ensures exists k :: k in s
  {
    if forall k :: k !in s {
      assert false;
    }
  }

  /** The next key a range over a map yields: any key not yet visited. */
  method NextKey(rest: set<int>) returns (k: int)
    requires rest != {}
    ensures k in rest
  {
    HasElement(rest);
    k :| k in rest;
  }

  class RepositoryVehicleInMemory {
    /** The database of vehicles, keyed by identifier. */
    var db: Db

    /** The store starts with the seed the loader produced. */
    constructor (seed: Db)
      ensures db == seed
    {
      db := seed;
    }

    /**
      The loop shared by every list query: a range over the map that appends a
      copy of each record passing the filter, in unspecified order.
     */
    method Scan(q: Query) returns (vs: seq<Vehicle>)
      ensures Lists(vs, db, q)
    {
      vs := [];
      var rest := db.Keys;
      while rest != {}
        invariant rest <= db.Keys
        invariant Stored(vs, db) && DistinctIds(vs)
        invariant Ids(vs) == Matches(db, q) - rest
        decreases rest
      {
        var k := NextKey(rest);
        if Satisfies(db[k], q) {
          IdsAppend(vs, Vehicle(k, db[k]));
          vs := vs + [Vehicle(k, db[k])];
        }
        rest := rest - {k};
      }
    }

    method GetAll() returns (r: Result<seq<Vehicle>>)
      ensures r.Err? <==> |db| == 0
      ensures r.Err? ==> r.error == RepositoryVehicleNotFound
      ensures r.Ok? ==> Lists(r.value, db, All) && |r.value| == |db|
    {
      if |db| == 0 {
        return Err(RepositoryVehicleNotFound);
      }
      var vs := Scan(All);
      ListsCount(vs, db, All);
      assert Matches(db, All) == db.Keys by {
        forall k | k in db ensures k in Matches(db, All) {
          assert Satisfies(db[k], All);
        }
      }
      return Ok(vs);
    }

    method GetByDimensions(minHeight: real, maxHeight: real, minWidth: real, maxWidth: real)
      returns (r: Result<seq<Vehicle>>)
      ensures r.Err? <==> Matches(db, Dimensions(minHeight, maxHeight, minWidth, maxWidth)) == {}
      ensures r.Err? ==> r.error == RepositoryVehicleNotFound
      ensures r.Ok? ==> Lists(r.value, db, Dimensions(minHeight, maxHeight, minWidth, maxWidth))
    {
      if |db| == 0 {
        return Err(RepositoryVehicleNotFound);
      }
      var q := Dimensions(minHeight, maxHeight, minWidth, maxWidth);
      var vs := Scan(q);
      ListsEmpty(vs, db, q);
      if |vs| == 0 {
        return Err(RepositoryVehicleNotFound);
      }
      return Ok(vs);
    }

    method GetByWeight(min: real, max: real) returns (r: Result<seq<Vehicle>>)
      ensures r.Err? <==> Matches(db, Weight(min, max)) == {}
      ensures r.Err? ==> r.error == RepositoryVehicleNotFound
      ensures r.Ok? ==> Lists(r.value, db, Weight(min, max))
    {
      if |db| == 0 {
        return Err(RepositoryVehicleNotFound);
      }
      var vs := Scan(Weight(min, max));
      ListsEmpty(vs, db, Weight(min, max));
      if |vs| == 0 {
        return Err(RepositoryVehicleNotFound);
      }
      return Ok(vs);
    }

    method GetByColorAndYear(color: string, year: int) returns (r: Result<seq<Vehicle>>)
      ensures r.Err? <==> Matches(db, ColorAndYear(color, year)) == {}
      ensures r.Err? ==> r.error == RepositoryVehicleNotFound
      ensures r.Ok? ==> Lists(r.value, db, ColorAndYear(color, year))
    {
      if |db| == 0 {
        return Err(RepositoryVehicleNotFound);
      }
      var vs := Scan(ColorAndYear(color, year));
      ListsEmpty(vs, db, ColorAndYear(color, year));
      if |vs| != 0 {
        return Ok(vs);
      }
      return Err(RepositoryVehicleNotFound);
    }

    method GetByBrand(brand: string) returns (r: Result<seq<Vehicle>>)
      ensures r.Err? <==> Matches(db, Brand(brand)) == {}
      ensures r.Err? ==> r.error == RepositoryVehicleNotFound
      ensures r.Ok? ==> Lists(r.value, db, Brand(brand))
    {
      if |db| == 0 {
        return Err(RepositoryVehicleNotFound);
      }
      var vs := Scan(Brand(brand));
      ListsEmpty(vs, db, Brand(brand));
      if |vs| != 0 {
        return Ok(vs);
      }
      return Err(RepositoryVehicleNotFound);
    }

    method GetByTransmission(transmission: string) returns (r: Result<seq<Vehicle>>)
      ensures r.Err? <==> Matches(db, Transmission(transmission)) == {}
      ensures r.Err? ==> r.error == RepositoryVehicleNotFound
      ensures r.Ok? ==> Lists(r.value, db, Transmission(transmission))
    {
      if |db| == 0 {
        return Err(RepositoryVehicleNotFound);
      }
      var vs := Scan(Transmission(transmission));
      ListsEmpty(vs, db, Transmission(transmission));
      if |vs| != 0 {
        return Ok(vs);
      }
      return Err(RepositoryVehicleNotFound);
    }

    /** Changes the fuel type of an existing record and nothing else. */
    method PatchFuel(id: int, fuelType: string) returns (e: Outcome)
      modifies this
      ensures id !in old(db) ==> e == Fail(RepositoryVehicleNotFound) && db == old(db)
      ensures id in old(db) ==> e == Pass && db == old(db)[id := old(db)[id].(fuelType := fuelType)]
    {
      if id !in db {
        return Fail(RepositoryVehicleNotFound);
      }
      db := db[id := db[id].(fuelType := fuelType)];
      return Pass;
    }

    /** Replaces the bundle of an existing identifier; never inserts. */
    method Put(vehicle: Vehicle) returns (e: Outcome)
      modifies this
      ensures vehicle.id !in old(db) ==> e == Fail(RepositoryVehicleNotFound) && db == old(db)
      ensures vehicle.id in old(db) ==> e == Pass && db == old(db)[vehicle.id := vehicle.attributes]
      ensures db.Keys == old(db).Keys
    {
      if vehicle.id !in db {
        return Fail(RepositoryVehicleNotFound);
      }
      db := db[vehicle.id := vehicle.attributes];
      return Pass;
    }

    /** Removes an existing identifier and its record. */
    method Delete(id: int) returns (e: Outcome)
      modifies this
      ensures id !in old(db) ==> e == Fail(RepositoryVehicleNotFound) && db == old(db)
      ensures id in old(db) ==> e == Pass && db == old(db) - {id} && |db| == |old(db)| - 1
    {
      if id !in db {
        return Fail(RepositoryVehicleNotFound);
      }
      db := db - {id};
      return Pass;
    }

    /** Inserts a vehicle under a fresh identifier; an identifier in use is refused. */
    method Post(vehicle: Vehicle) returns (e: Outcome)
      modifies this
      ensures vehicle.id in old(db) ==> e == Fail(RepositoryIdInUse) && db == old(db)
      ensures vehicle.id !in old(db) ==>
        e == Pass && db == old(db)[vehicle.id := vehicle.attributes] && |db| == |old(db)| + 1
    {
      if vehicle.id in db {
        return Fail(RepositoryIdInUse);
      }
      db := db[vehicle.id := vehicle.attributes];
      return Pass;
    }
  }
}
