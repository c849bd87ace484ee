/**
  The domain types of the vehicle catalogue: the attribute bundle the store
  keeps per identifier, and a vehicle, which is an identifier with its bundle.
  Heights, widths, weights are `real`: float64 rounding is not modelled.
 */
module Domain {

  datatype VehicleAttributes = VehicleAttributes(
    brand: string,
    model: string,
    registration: string,
    year: int,          // fabrication year
    color: string,
    maxSpeed: int,
    fuelType: string,
    transmission: string,
    passengers: int,    // passenger capacity
    height: real,
    width: real,
    weight: real
  )

  datatype Vehicle = Vehicle(id: int, attributes: VehicleAttributes)
}
