/**
  The struct mapper between the web documents and the domain type. Every
  mapper copies the identifier and the twelve attributes field for field.
  The web package declares one struct per endpoint, all with the same fields;
  here they share one datatype under their own names.
 */
module Mapper {
  import opened Domain

  /** The flat document: an identifier followed by the twelve attributes. */
  datatype VehicleDoc = VehicleDoc(
    id: int,
    brand: string,
    model: string,
    registration: string,
    year: int,
    color: string,
    maxSpeed: int,
    fuelType: string,
    transmission: string,
    passengers: int,
    height: real,
    width: real,
    weight: real
  )

  type VehicleHandlerGetAll = VehicleDoc
  type VehicleHandlerGetByColorAndDate = VehicleDoc
  type VehicleHandlerGetByDimension = VehicleDoc
  type VehicleHandlerGetByWeight = VehicleDoc
  type VehicleHandlerGetByTransmission = VehicleDoc
  type VehicleHandlerPost = VehicleDoc

  /** The body of a full replacement: the twelve attributes, without identifier. */
  datatype VehicleHandlerPutFuel = VehicleHandlerPutFuel(
    brand: string,
    model: string,
    registration: string,
    year: int,
    color: string,
    maxSpeed: int,
    fuelType: string,
    transmission: string,
    passengers: int,
    height: real,
    width: real,
    weight: real
  )

  /** The document and the bundle agree on each of the twelve attributes. */
  predicate SameAttributes(d: VehicleDoc, a: VehicleAttributes) {
    && d.brand == a.brand && d.model == a.model && d.registration == a.registration
    && d.year == a.year && d.color == a.color && d.maxSpeed == a.maxSpeed
    && d.fuelType == a.fuelType && d.transmission == a.transmission
    && d.passengers == a.passengers && d.height == a.height && d.width == a.width
    && d.weight == a.weight
  }

  /** The document carries the vehicle's identifier and every one of its attributes. */
  predicate Mirrors(d: VehicleDoc, v: Vehicle) {
    d.id == v.id && SameAttributes(d, v.attributes)
  }

  /** A document mirrors exactly one vehicle, and a vehicle exactly one document. */
  lemma MirrorsIsOneToOne(d: VehicleDoc, e: VehicleDoc, v: Vehicle, w: Vehicle)
    requires Mirrors(d, v)
    ensures Mirrors(d, w) ==> v == w
    ensures Mirrors(e, v) ==> d == e
  {
  }

  function View(v: Vehicle): (d: VehicleDoc)
    ensures Mirrors(d, v)
  {
    var a := v.attributes;
    VehicleDoc(v.id, a.brand, a.model, a.registration, a.year, a.color, a.maxSpeed,
      a.fuelType, a.transmission, a.passengers, a.height, a.width, a.weight)
  }

  function MapToVehicleHandlerGetByDimension(vehicle: Vehicle): (d: VehicleHandlerGetByDimension)
    ensures Mirrors(d, vehicle)
  {
    View(vehicle)
  }

  function MapFromModelVehicleHandlerGetByColorAndDate(vehicle: Vehicle): (d: VehicleHandlerGetByColorAndDate)
    ensures Mirrors(d, vehicle)
  {
    View(vehicle)
  }

  function MapToVehicleHandlerGetByWeight(vehicle: Vehicle): (d: VehicleHandlerGetByWeight)
    ensures Mirrors(d, vehicle)
  {
    View(vehicle)
  }

  function MapToVehicleHandlerGetByTransmission(vehicle: Vehicle): (d: VehicleHandlerGetByTransmission)
    ensures Mirrors(d, vehicle)
  {
    View(vehicle)
  }

  /** The identifier comes from the path, the attributes from the body. */
  function MapFromVehicleHandlerPutFuel(id: int, vehicle: VehicleHandlerPutFuel): (v: Vehicle)
    ensures v.id == id
    ensures var b := vehicle; var a := v.attributes;
      && a.brand == b.brand && a.model == b.model && a.registration == b.registration
      && a.year == b.year && a.color == b.color && a.maxSpeed == b.maxSpeed
      && a.fuelType == b.fuelType && a.transmission == b.transmission
      && a.passengers == b.passengers && a.height == b.height && a.width == b.width
      && a.weight == b.weight
  {
    Vehicle(id, VehicleAttributes(vehicle.brand, vehicle.model, vehicle.registration, vehicle.year,
      vehicle.color, vehicle.maxSpeed, vehicle.fuelType, vehicle.transmission, vehicle.passengers,
      vehicle.height, vehicle.width, vehicle.weight))
  }

  function MapToVehicleHandlerPost(vehicle: VehicleHandlerPost): (v: Vehicle)
    ensures Mirrors(vehicle, v)
  {
    Vehicle(vehicle.id, VehicleAttributes(vehicle.brand, vehicle.model, vehicle.registration,
      vehicle.year, vehicle.color, vehicle.maxSpeed, vehicle.fuelType, vehicle.transmission,
      vehicle.passengers, vehicle.height, vehicle.width, vehicle.weight))
  }

  /** Maps a list of posted documents, one vehicle per document, in order. */
  method MapToVehicleHandlerBatch(vehicles: seq<VehicleHandlerPost>) returns (vs: seq<Vehicle>)
    ensures |vs| == |vehicles|
    ensures forall i :: 0 <= i < |vs| ==> vs[i] == MapToVehicleHandlerPost(vehicles[i])
  {
    vs := [];
    for i := 0 to |vehicles|
      invariant |vs| == i
      invariant forall j :: 0 <= j < i ==> vs[j] == MapToVehicleHandlerPost(vehicles[j])
    {
      vs := vs + [MapToVehicleHandlerPost(vehicles[i])];
    }
  }

  /**
    A posted document stored as a vehicle and read back through any of the
    query mappers is the same document.
   */
  lemma PostThenReadBack(d: VehicleHandlerPost)
    ensures MapToVehicleHandlerGetByDimension(MapToVehicleHandlerPost(d)) == d
    ensures MapFromModelVehicleHandlerGetByColorAndDate(MapToVehicleHandlerPost(d)) == d
    ensures MapToVehicleHandlerGetByWeight(MapToVehicleHandlerPost(d)) == d
    ensures MapToVehicleHandlerGetByTransmission(MapToVehicleHandlerPost(d)) == d
  {
  }

  /** A vehicle rendered as a document and posted back is the same vehicle. */
  lemma ReadThenPostBack(v: Vehicle)
    ensures MapToVehicleHandlerPost(View(v)) == v
  {
  }
}
