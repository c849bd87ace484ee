/**
  The vehicle service: it forwards each call to the repository and adapts the
  repository's errors with ServiceError.ErrorAdapter (the adapter the program
  wires in), computes the average passenger capacity of a brand, and posts a
  batch of vehicles one by one, stopping at the first failure.
 */
module Service {
  import opened Errors
  import opened Domain
  import opened Repository
  import ServiceError

  // ---------------------------------------------------------------------------
  // Average capacity

  /** The total passenger capacity of the records with identifiers `ks`. */
  ghost function PassengerSum(db: Db, ks: set<int>): int
    requires ks <= db.Keys
    decreases ks
  {
    if ks == {} then 0
    else
      HasElement(ks);
      var k :| k in ks;
      db[k].passengers + PassengerSum(db, ks - {k})
  }

  /** The sum does not depend on which identifier is taken out first. */
  lemma {:induction false} PassengerSumRemove(db: Db, ks: set<int>, k: int)
    requires ks <= db.Keys && k in ks
    ensures PassengerSum(db, ks) == db[k].passengers + PassengerSum(db, ks - {k})
    decreases ks
  {
    HasElement(ks);
    var j :| j in ks && PassengerSum(db, ks) == db[j].passengers + PassengerSum(db, ks - {j});
    if j != k {
      PassengerSumRemove(db, ks - {j}, k);
      PassengerSumRemove(db, ks - {k}, j);
      assert ks - {j} - {k} == ks - {k} - {j};
    }
  }

  /** The mean passenger capacity of the records of a brand, as a real division. */
  ghost function AverageCapacity(db: Db, brand: string): real
    requires Matches(db, Brand(brand)) != {}
  {
    var ks := Matches(db, Brand(brand));
    PassengerSum(db, ks) as real / |ks| as real
  }

  /** The sum the service's loop accumulates, in list order. */
  function ListSum(vs: seq<Vehicle>): int {
    if vs == [] then 0 else ListSum(vs[..|vs| - 1]) + vs[|vs| - 1].attributes.passengers
  }

  /** Summing a listing in its order gives the sum over the records it lists. */
  lemma {:induction false} ListSumIsPassengerSum(vs: seq<Vehicle>, db: Db)
    requires Stored(vs, db) && DistinctIds(vs)
    ensures Ids(vs) <= db.Keys
    ensures ListSum(vs) == PassengerSum(db, Ids(vs))
  {
    if vs != [] {
      var init := vs[..|vs| - 1];
      var last := vs[|vs| - 1];
      assert vs == init + [last];
      IdsAppend(init, last);
      ListSumIsPassengerSum(init, db);
      assert last.id !in Ids(init);
      PassengerSumRemove(db, Ids(vs), last.id);
      assert Ids(vs) - {last.id} == Ids(init);
    }
  }

  /** A sum over `ks` lies between |ks| times the smallest and |ks| times the largest capacity. */
  lemma {:induction false} PassengerSumBounds(db: Db, ks: set<int>, lo: int, hi: int)
    requires ks <= db.Keys
    requires forall k :: k in ks ==> lo <= db[k].passengers <= hi
    ensures |ks| * lo <= PassengerSum(db, ks) <= |ks| * hi
    decreases ks
  {
    if ks != {} {
      HasElement(ks);
      var k :| k in ks;
      PassengerSumRemove(db, ks, k);
      PassengerSumBounds(db, ks - {k}, lo, hi);
      StepBounds(|ks - {k}|, PassengerSum(db, ks - {k}), db[k].passengers, lo, hi);
    }
  }

  /** Adding one value within [lo, hi] to a sum of n such values. */
  lemma StepBounds(n: nat, sum: int, x: int, lo: int, hi: int)
    requires n * lo <= sum <= n * hi && lo <= x <= hi
    ensures (n + 1) * lo <= sum + x <= (n + 1) * hi
  {
    assert (n + 1) * lo == n * lo + lo && (n + 1) * hi == n * hi + hi;
  }

  /** The average capacity lies between the smallest and the largest capacity of the brand. */
  lemma AverageWithinBounds(db: Db, brand: string, lo: int, hi: int)
    requires Matches(db, Brand(brand)) != {}
    requires forall k :: k in Matches(db, Brand(brand)) ==> lo <= db[k].passengers <= hi
    ensures lo as real <= AverageCapacity(db, brand) <= hi as real
  {
    var ks := Matches(db, Brand(brand));
    PassengerSumBounds(db, ks, lo, hi);
    MeanBounds(PassengerSum(db, ks) as real, |ks| as real, lo as real, hi as real);
  }

  lemma MeanBounds(sum: real, n: real, lo: real, hi: real)
    requires n > 0.0 && n * lo <= sum <= n * hi
    ensures lo <= sum / n <= hi
  {
    assert sum / n * n == sum;
  }

  // ---------------------------------------------------------------------------
  // Batch

  /**
    The effect of posting `vs` in order on a store `db`: each vehicle is
    inserted in turn; the first one whose identifier is in use stops the batch
    with the adapted IdInUse error, keeping the insertions before it.
   */
  function PostInOrder(db: Db, vs: seq<Vehicle>): (Db, Outcome)
    decreases |vs|
  {
    if vs == [] then (db, Pass)
    else if vs[0].id in db then (db, Fail(ServiceError.ErrorAdapter(RepositoryIdInUse)))
    else PostInOrder(db[vs[0].id := vs[0].attributes], vs[1..])
  }

  /** No vehicle of `vs` uses an identifier of `db`, and no identifier repeats in `vs`. */
  ghost predicate FreshAndDistinct(db: Db, vs: seq<Vehicle>) {
    (forall i :: 0 <= i < |vs| ==> vs[i].id !in db) && DistinctIds(vs)
  }

  /** `after` is `db` with the vehicles of `vs` added and nothing else changed. */
  ghost predicate Extends(after: Db, db: Db, vs: seq<Vehicle>) {
    && after.Keys == db.Keys + Ids(vs)
    && (forall k :: k in db ==> after[k] == db[k])
    && (forall i :: 0 <= i < |vs| ==> after[vs[i].id] == vs[i].attributes)
  }

  lemma IdsCons(vs: seq<Vehicle>)
    requires vs != []
    ensures Ids(vs) == {vs[0].id} + Ids(vs[1..])
  {
    assert vs == [vs[0]] + vs[1..];
    forall k | k in Ids(vs) ensures k in {vs[0].id} + Ids(vs[1..]) {
      var i :| 0 <= i < |vs| && vs[i].id == k;
      if i > 0 {
        assert vs[1..][i - 1] == vs[i];
      }
    }
  }

  /** Extending after a first insertion is extending by the whole list. */
  lemma ExtendsCons(after: Db, db: Db, vs: seq<Vehicle>)
    requires vs != [] && vs[0].id !in db
    requires Extends(after, db[vs[0].id := vs[0].attributes], vs[1..])
    ensures Extends(after, db, vs)
  {
    IdsCons(vs);
    forall i | 0 <= i < |vs| ensures after[vs[i].id] == vs[i].attributes {
      if i > 0 {
        assert vs[1..][i - 1] == vs[i];
      }
    }
  }

  /** A batch of new, distinct identifiers is inserted entirely and succeeds. */
  lemma {:induction false} BatchInsertsAll(db: Db, vs: seq<Vehicle>)
    requires FreshAndDistinct(db, vs)
    ensures PostInOrder(db, vs).1 == Pass
    ensures Extends(PostInOrder(db, vs).0, db, vs)
    ensures |PostInOrder(db, vs).0| == |db| + |vs|
    decreases |vs|
  {
    if vs != [] {
      var db1 := db[vs[0].id := vs[0].attributes];
      forall i | 0 <= i < |vs[1..]| ensures vs[1..][i].id !in db1 {
        assert vs[1..][i] == vs[i + 1];
      }
      BatchInsertsAll(db1, vs[1..]);
      ExtendsCons(PostInOrder(db1, vs[1..]).0, db, vs);
    }
  }

  /**
    A batch whose vehicle `j` is the first to reuse an identifier, of the store
    or of an earlier vehicle, fails with ServiceVIdInUse; the vehicles before
    `j` stay inserted and those after it are never attempted.
   */
  lemma {:induction false} BatchStopsAtFirstClash(db: Db, vs: seq<Vehicle>, j: nat)
    requires j < |vs|
    requires FreshAndDistinct(db, vs[..j])
    requires vs[j].id in db || vs[j].id in Ids(vs[..j])
    ensures PostInOrder(db, vs).1 == Fail(ServiceVIdInUse)
    ensures Extends(PostInOrder(db, vs).0, db, vs[..j])
    decreases j
  {
    if j > 0 {
      var db1 := db[vs[0].id := vs[0].attributes];
      var tail := vs[1..];
      var done := vs[..j];
      assert done[0] == vs[0];
      assert tail[..j - 1] == done[1..];
      IdsCons(done);
      forall i | 0 <= i < j - 1 ensures done[1..][i].id !in db1 {
        assert done[1..][i] == done[i + 1];
      }
      BatchStopsAtFirstClash(db1, tail, j - 1);
      ExtendsCons(PostInOrder(db1, tail).0, db, vs[..j]);
    }
  }

  /**
    Whatever the batch, it fails only with ServiceVIdInUse, never rolls back
    nor overwrites a record that was there before, and adds only identifiers
    of the batch.
   */
  lemma {:induction false} BatchKeepsPrior(db: Db, vs: seq<Vehicle>)
    ensures PostInOrder(db, vs).1 == Pass || PostInOrder(db, vs).1 == Fail(ServiceVIdInUse)
    ensures forall k :: k in db ==> k in PostInOrder(db, vs).0 && PostInOrder(db, vs).0[k] == db[k]
    ensures PostInOrder(db, vs).0.Keys <= db.Keys + Ids(vs)
    decreases |vs|
  {
    if vs != [] && vs[0].id !in db {
      BatchKeepsPrior(db[vs[0].id := vs[0].attributes], vs[1..]);
      IdsCons(vs);
    }
  }

  /** A valid vehicle, one reusing its identifier, and a third: only the first is inserted. */
  lemma BatchWithDuplicate(db: Db, a: Vehicle, b: Vehicle, c: Vehicle)
    requires a.id !in db && b.id == a.id
    ensures PostInOrder(db, [a, b, c]) == (db[a.id := a.attributes], Fail(ServiceVIdInUse))
  {
    assert [a, b, c][1..] == [b, c];
  }

  // ---------------------------------------------------------------------------
  // The service

  class ServiceVehicleDefault {
    const rp: RepositoryVehicleInMemory

    constructor (rp: RepositoryVehicleInMemory)
      ensures this.rp == rp
    {
      this.rp := rp;
    }

    method GetAll() returns (r: Result<seq<Vehicle>>)
      ensures r.Err? <==> |rp.db| == 0
      ensures r.Err? ==> r.error == ServiceVehicleNotFound
      ensures r.Ok? ==> Lists(r.value, rp.db, All) && |r.value| == |rp.db|
    {
      var v := rp.GetAll();
      if v.Err? {
        return Err(ServiceError.ErrorAdapter(v.error));
      }
      return v;
    }

    method GetByDimensions(minHeight: real, maxHeight: real, minWidth: real, maxWidth: real)
      returns (r: Result<seq<Vehicle>>)
      ensures r.Err? <==> Matches(rp.db, Dimensions(minHeight, maxHeight, minWidth, maxWidth)) == {}
      ensures r.Err? ==> r.error == ServiceVehicleNotFound
      ensures r.Ok? ==> Lists(r.value, rp.db, Dimensions(minHeight, maxHeight, minWidth, maxWidth))
    {
      var v := rp.GetByDimensions(minHeight, maxHeight, minWidth, maxWidth);
      if v.Err? {
        return Err(ServiceError.ErrorAdapter(v.error));
      }
      return v;
    }

    method SearchByColorAndYear(color: string, year: int) returns (r: Result<seq<Vehicle>>)
      ensures r.Err? <==> Matches(rp.db, ColorAndYear(color, year)) == {}
      ensures r.Err? ==> r.error == ServiceVehicleNotFound
      ensures r.Ok? ==> Lists(r.value, rp.db, ColorAndYear(color, year))
    {
      var v := rp.GetByColorAndYear(color, year);
      if v.Err? {
        return Err(ServiceError.ErrorAdapter(v.error));
      }
      return v;
    }

    method GetByWeight(min: real, max: real) returns (r: Result<seq<Vehicle>>)
      ensures r.Err? <==> Matches(rp.db, Weight(min, max)) == {}
      ensures r.Err? ==> r.error == ServiceVehicleNotFound
      ensures r.Ok? ==> Lists(r.value, rp.db, Weight(min, max))
    {
      var v := rp.GetByWeight(min, max);
      if v.Err? {
        return Err(ServiceError.ErrorAdapter(v.error));
      }
      return v;
    }

    /**
      The mean passenger capacity of the brand's vehicles; with no vehicle of
      the brand the repository's NotFound comes back as ServiceVehicleNotFound.
     */
    method GetAverageCapacityByBrand(brand: string) returns (r: Result<real>)
      ensures r.Err? <==> Matches(rp.db, Brand(brand)) == {}
      ensures r.Err? ==> r.error == ServiceVehicleNotFound
      ensures r.Ok? ==> r.value == AverageCapacity(rp.db, brand)
    {
      var vehicles := rp.GetByBrand(brand);
      if vehicles.Err? {
        return Err(ServiceError.ErrorAdapter(vehicles.error));
      }
      var vs := vehicles.value;
      ListsCount(vs, rp.db, Brand(brand));
      if |vs| == 0 {
        // Unreachable: the repository never returns an empty list without an error.
        return Err(ServiceVehicleNotFound);
      }
      var count := 0;
      for i := 0 to |vs|
        invariant count == ListSum(vs[..i])
      {
        assert vs[..i + 1][..i] == vs[..i];
        count := count + vs[i].attributes.passengers;
      }
      assert vs[..|vs|] == vs;
      ListSumIsPassengerSum(vs, rp.db);
      return Ok(count as real / |vs| as real);
    }

    method PatchFuel(id: int, fuelType: string) returns (e: Outcome)
      modifies rp
      ensures id !in old(rp.db) ==> e == Fail(ServiceVehicleNotFound) && rp.db == old(rp.db)
      ensures id in old(rp.db) ==>
        e == Pass && rp.db == old(rp.db)[id := old(rp.db)[id].(fuelType := fuelType)]
    {
      var err := rp.PatchFuel(id, fuelType);
      if err.Fail? {
        return Fail(ServiceError.ErrorAdapter(err.error));
      }
      return Pass;
    }

    method Put(vehicle: Vehicle) returns (e: Outcome)
      modifies rp
      ensures vehicle.id !in old(rp.db) ==> e == Fail(ServiceVehicleNotFound) && rp.db == old(rp.db)
      ensures vehicle.id in old(rp.db) ==>
        e == Pass && rp.db == old(rp.db)[vehicle.id := vehicle.attributes]
    {
      var err := rp.Put(vehicle);
      if err.Fail? {
        return Fail(ServiceError.ErrorAdapter(err.error));
      }
      return Pass;
    }

    method GetByTransmission(transmission: string) returns (r: Result<seq<Vehicle>>)
      ensures r.Err? <==> Matches(rp.db, Transmission(transmission)) == {}
      ensures r.Err? ==> r.error == ServiceVehicleNotFound
      ensures r.Ok? ==> Lists(r.value, rp.db, Transmission(transmission))
    {
      var v := rp.GetByTransmission(transmission);
      if v.Err? {
        return Err(ServiceError.ErrorAdapter(v.error));
      }
      return v;
    }

    method Delete(id: int) returns (e: Outcome)
      modifies rp
      ensures id !in old(rp.db) ==> e == Fail(ServiceVehicleNotFound) && rp.db == old(rp.db)
      ensures id in old(rp.db) ==> e == Pass && rp.db == old(rp.db) - {id}
    {
      var err := rp.Delete(id);
      if err.Fail? {
        return Fail(ServiceError.ErrorAdapter(err.error));
      }
      return Pass;
    }

    /** Posts the vehicles in order and stops at the first failure, without rollback. */
    method Batch(vehicles: seq<Vehicle>) returns (e: Outcome)
      modifies rp
      ensures (rp.db, e) == PostInOrder(old(rp.db), vehicles)
    {
      for i := 0 to |vehicles|
        invariant PostInOrder(old(rp.db), vehicles) == PostInOrder(rp.db, vehicles[i..])
      {
        assert vehicles[i..][1..] == vehicles[i + 1..];
        var err := Post(vehicles[i]);
        if err.Fail? {
          return Fail(ServiceError.ErrorAdapter(err.error));
        }
      }
      return Pass;
    }

    /** Posts one vehicle; the repository's error is returned as it is, not adapted. */
    method Post(vehicle: Vehicle) returns (e: Outcome)
      modifies rp
      ensures vehicle.id in old(rp.db) ==> e == Fail(RepositoryIdInUse) && rp.db == old(rp.db)
      ensures vehicle.id !in old(rp.db) ==>
        e == Pass && rp.db == old(rp.db)[vehicle.id := vehicle.attributes]
    {
      e := rp.Post(vehicle);
    }
  }
}
