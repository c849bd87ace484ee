# Vehicle catalogue API, modelled in Dafny

The system is a small REST API over an in-memory catalogue of vehicles. Each
vehicle is an integer identifier plus twelve attributes (brand, model,
registration, year, colour, top speed, fuel, transmission, passengers,
height, width and weight). It has three layers:

- `RepositoryVehicleInMemory` holds the catalogue as a map from identifier
  to attributes. It answers six list queries: all, by dimensions, by weight,
  by colour and year, by brand and by transmission. It also applies four
  mutations: fuel patch, full replacement, delete and insert.
- `ServiceVehicleDefault` forwards each call to the repository and adapts its
  errors. It also computes the average passenger capacity of a brand, and it
  posts a batch of vehicles one at a time, stopping at the first failure.
- `ControllerVehicle`, the HTTP handlers. They check the parameters and turn
  the service's errors into status codes through an HTTP error adapter. The
  struct mapper converts between the web documents and the domain type.

The model has one module per source file of the three layers, the mapper
and the two error adapters, each in the form of that file. Two modules have
no file of their own: `Errors` gathers the sentinel errors of repository.go
and service.go together with Go's `errors.Is`, and `Text` models the two
functions of Go's `strings` package the code calls (`ToLower` and `Split`).


- The store and the service are classes that change state. The store is a
  `map` field that the mutating methods reassign.
- The loops are methods with invariants: the repository scans, the capacity
  sum, the batch loop, the batch mapper, fuel validation and the response
  loops.
- The error adapters, the mappers and the parameter checks are functions.

Go errors are a datatype: the six sentinel errors, `Wrapped` for an error
wrapped with context, and `Other` for any other error. `errors.Is` follows
the chain of wrapped errors.

Go leaves the iteration order of a map unspecified, so the model does not
fix an order for a listing either. `Repository.Lists` says what any order
must satisfy:

- every listed vehicle is a stored record;
- no identifier appears twice;
- the listed identifiers are exactly the records that pass the filter.

The handlers' contracts speak of the response documents through
`Handlers.Decoded`, which reads each document back as the vehicle it
describes; `Handlers.DecodedMirrors` shows that documents rendered from a
listing read back as exactly that listing.

### Identifier conflicts

Reusing an identifier is a conflict, which is usually answered 409; the code
never answers 409:

- In a batch, the service adapts the repository's IdInUse to the service's
  IdInUse. The HTTP adapter turns that into 404 ("Id already in use").
- `Post` in the service returns the repository error unadapted. The HTTP
  adapter recognises only service errors, so a single post with an
  identifier already in use answers 500.

The fuel allow-list spells one entry "biodisel". The correct spelling
"biodiesel" is therefore refused.

## Model

| member | source | states |
|---|---|---|
| Errors.IsMeansRoot | internal/vehicle/service/service_error.go:9-16 | errors.Is on a sentinel holds exactly when the innermost wrapped error is that sentinel |
| Errors.WrapKeepsRoot | internal/vehicle/service/service_error.go:10 | wrapping an error any number of times keeps its innermost error, and errors.Is still finds it |
| Text.ToLowerIdempotent | internal/vehicle/repository/repository_inmemory.go:88 | lower-casing twice is lower-casing once |
| Text.SplitCount | cmd/handlers/vehicle.go:89-92 | splitting on a separator gives one more piece than the separator occurs |
| Text.SplitJoin | cmd/handlers/vehicle.go:89-90 | joining the pieces of a split with the separator gives back the original string |
| Text.SplitPiecesFree | cmd/handlers/vehicle.go:89-90 | no piece of a split contains the separator |
| Repository.RepositoryVehicleInMemory.constructor | internal/vehicle/repository/repository_inmemory.go:8-10 | the store starts out holding exactly the seed map |
| Repository.RepositoryVehicleInMemory.Scan | internal/vehicle/repository/repository_inmemory.go:45-53 | a range over the whole map lists each record passing the filter exactly once, and no other record |
| Repository.NextKey | internal/vehicle/repository/repository_inmemory.go:45 | each iteration of the range yields a key not visited yet |
| Repository.RepositoryVehicleInMemory.GetAll | internal/vehicle/repository/repository_inmemory.go:19-36 | an empty store fails with NotFound; otherwise every record is listed once, and the list is as long as the store |
| Repository.RepositoryVehicleInMemory.GetByDimensions | internal/vehicle/repository/repository_inmemory.go:38-58 | fails with NotFound exactly when no record is strictly inside both the width and the height bounds; otherwise lists exactly those records |
| Repository.RepositoryVehicleInMemory.GetByWeight | internal/vehicle/repository/repository_inmemory.go:60-79 | fails with NotFound exactly when no weight lies strictly between the bounds; otherwise lists exactly those records |
| Repository.RepositoryVehicleInMemory.GetByColorAndYear | internal/vehicle/repository/repository_inmemory.go:81-99 | fails with NotFound exactly when no record has that year and that colour, ignoring case; otherwise lists exactly those records |
| Repository.RepositoryVehicleInMemory.GetByBrand | internal/vehicle/repository/repository_inmemory.go:101-119 | fails with NotFound exactly when no brand matches, ignoring case; otherwise lists exactly those records |
| Repository.RepositoryVehicleInMemory.GetByTransmission | internal/vehicle/repository/repository_inmemory.go:138-156 | fails with NotFound exactly when no transmission matches, ignoring case; otherwise lists exactly those records |
| Repository.RepositoryVehicleInMemory.PatchFuel | internal/vehicle/repository/repository_inmemory.go:121-128 | an absent identifier fails with NotFound and changes nothing; otherwise only that record's fuel changes |
| Repository.RepositoryVehicleInMemory.Put | internal/vehicle/repository/repository_inmemory.go:129-136 | an absent identifier fails with NotFound and changes nothing; otherwise that record's attributes are replaced, and the set of identifiers stays the same |
| Repository.RepositoryVehicleInMemory.Delete | internal/vehicle/repository/repository_inmemory.go:157-163 | an absent identifier fails with NotFound and changes nothing; otherwise exactly that record is removed |
| Repository.RepositoryVehicleInMemory.Post | internal/vehicle/repository/repository_inmemory.go:165-171 | an identifier in use fails with IdInUse and leaves the store, including the first record, untouched; otherwise the vehicle is added and the store grows by one |
| Repository.DistinctIdsCount | internal/vehicle/repository/repository_inmemory.go:45-51 | a list without repeated identifiers is as long as its set of identifiers |
| Repository.ListsCount | internal/vehicle/repository/repository_inmemory.go:38-58 | a listing has exactly as many vehicles as there are matching records |
| Repository.ListsExactly | internal/vehicle/repository/repository_inmemory.go:45-53 | every listed vehicle passes the filter, and every passing record is listed |
| Repository.ListingsAgree | internal/vehicle/repository/repository_inmemory.go:28-34 | two listings of the same query differ at most in order |
| Repository.ListsEmpty | internal/vehicle/repository/repository_inmemory.go:54-57 | the "no result" check fires exactly when no record matches |
| ServiceError.ErrorAdapter | internal/vehicle/service/service_error.go:8-17 | always gives a service sentinel: NotFound exactly for a repository NotFound, however wrapped; IdInUse exactly for a repository IdInUse; Internal otherwise |
| ServiceError.AdaptsRepositorySentinels | internal/vehicle/service/service_error.go:10-15 | each repository sentinel maps to its service counterpart |
| ServiceError.OthersAreInternal | internal/vehicle/service/service_error.go:14-15 | any other error becomes the service's internal error |
| ServiceError.WrappedNotFound | internal/vehicle/service/service_error.go:10-11 | a repository NotFound wrapped any number of times is still recognised |
| ServiceError.NotIdempotent | internal/vehicle/service/service_error.go:9-16 | a service error fed back into the adapter becomes Internal, so the adapter must be applied only once |
| HttpError.ErrorAdapter | cmd/http-error/http_error.go:10-30 | the code is always 404 or 500, and it is 404 exactly when the innermost error is the service's NotFound or IdInUse |
| HttpError.ServiceSentinelResponses | cmd/http-error/http_error.go:12-27 | the code and message for each service sentinel; IdInUse gives 404 |
| HttpError.RawRepositoryErrorIs500 | cmd/http-error/http_error.go:23-27 | a repository error that skipped the service adapter, wrapped or not, gives 500 |
| HttpError.AdaptedRepositoryError | cmd/http-error/http_error.go:10-30 | a repository error adapted by both adapters gives 404 for NotFound and IdInUse and 500 for anything else |
| Service.PassengerSumRemove | internal/vehicle/service/service_default.go:68-71 | the total capacity of a set of records does not depend on the order of summation |
| Service.ListSumIsPassengerSum | internal/vehicle/service/service_default.go:68-71 | summing a listing in its order gives the total capacity of the records it lists |
| Service.PassengerSumBounds | internal/vehicle/service/service_default.go:68-71 | the total capacity of n records lies between n times the smallest and n times the largest capacity |
| Service.AverageWithinBounds | internal/vehicle/service/service_default.go:72 | a brand's average capacity lies between its smallest and its largest capacity |
| Service.BatchInsertsAll | internal/vehicle/service/service_default.go:109-117 | a batch of new, distinct identifiers succeeds and adds every vehicle, growing the store by the batch's length |
| Service.BatchStopsAtFirstClash | internal/vehicle/service/service_default.go:110-114 | the first vehicle that reuses an identifier stops the batch with IdInUse; the vehicles before it stay inserted, and later ones are never attempted |
| Service.BatchKeepsPrior | internal/vehicle/service/service_default.go:109-117 | a batch fails only with IdInUse, never removes or overwrites an existing record, and adds only identifiers from the batch |
| Service.BatchWithDuplicate | internal/vehicle/service/service_default.go:109-117 | a valid vehicle, one reusing its identifier, and a third: only the first is stored, and the batch fails with IdInUse |
| Service.ServiceVehicleDefault.constructor | internal/vehicle/service/service_default.go:17-21 | the service holds the given repository |
| Service.ServiceVehicleDefault.GetAll | internal/vehicle/service/service_default.go:24-32 | an empty store fails with the service's NotFound; otherwise every record is listed once |
| Service.ServiceVehicleDefault.GetByDimensions | internal/vehicle/service/service_default.go:34-41 | fails with the service's NotFound exactly when nothing matches; otherwise lists exactly the matches |
| Service.ServiceVehicleDefault.SearchByColorAndYear | internal/vehicle/service/service_default.go:43-50 | fails with the service's NotFound exactly when nothing matches; otherwise lists exactly the matches |
| Service.ServiceVehicleDefault.GetByWeight | internal/vehicle/service/service_default.go:51-58 | fails with the service's NotFound exactly when nothing matches; otherwise lists exactly the matches |
| Service.ServiceVehicleDefault.GetAverageCapacityByBrand | internal/vehicle/service/service_default.go:60-74 | fails with NotFound exactly when no record has the brand; otherwise returns the brand's total capacity divided by its number of records |
| Service.ServiceVehicleDefault.PatchFuel | internal/vehicle/service/service_default.go:76-82 | an absent identifier gives the service's NotFound and changes nothing; otherwise only that record's fuel changes |
| Service.ServiceVehicleDefault.Put | internal/vehicle/service/service_default.go:84-90 | an absent identifier gives the service's NotFound and changes nothing; otherwise that record's attributes are replaced |
| Service.ServiceVehicleDefault.GetByTransmission | internal/vehicle/service/service_default.go:92-99 | fails with the service's NotFound exactly when nothing matches; otherwise lists exactly the matches |
| Service.ServiceVehicleDefault.Delete | internal/vehicle/service/service_default.go:101-107 | an absent identifier gives the service's NotFound and changes nothing; otherwise the record is removed |
| Service.ServiceVehicleDefault.Batch | internal/vehicle/service/service_default.go:109-117 | the outcome and the new store are those of posting the vehicles in order and stopping at the first failure |
| Service.ServiceVehicleDefault.Post | internal/vehicle/service/service_default.go:118-120 | the repository's insert, with its IdInUse error passed through unadapted |
| Mapper.MirrorsIsOneToOne | internal/mapper/struct_mapper.go:25-41 | a document mirrors exactly one vehicle, and a vehicle is mirrored by exactly one document |
| Mapper.View | cmd/handlers/vehicle.go:62-78 | the GetAll response document carries the vehicle's identifier and all twelve attributes |
| Mapper.MapToVehicleHandlerGetByDimension | internal/mapper/struct_mapper.go:25-41 | the document carries the vehicle's identifier and all twelve attributes |
| Mapper.MapFromModelVehicleHandlerGetByColorAndDate | internal/mapper/struct_mapper.go:43-59 | the document carries the vehicle's identifier and all twelve attributes |
| Mapper.MapToVehicleHandlerGetByWeight | internal/mapper/struct_mapper.go:60-76 | the document carries the vehicle's identifier and all twelve attributes |
| Mapper.MapToVehicleHandlerGetByTransmission | internal/mapper/struct_mapper.go:98-114 | the document carries the vehicle's identifier and all twelve attributes |
| Mapper.MapFromVehicleHandlerPutFuel | internal/mapper/struct_mapper.go:78-96 | the vehicle takes its identifier from the path and each of its twelve attributes from the body |
| Mapper.MapToVehicleHandlerPost | internal/mapper/struct_mapper.go:123-141 | the posted document mirrors the vehicle built from it |
| Mapper.MapToVehicleHandlerBatch | internal/mapper/struct_mapper.go:116-122 | one vehicle per document, in order, each mapped as a single post |
| Mapper.PostThenReadBack | internal/mapper/struct_mapper.go:25-141 | a posted document, stored and read back through any query mapper, is the same document |
| Mapper.ReadThenPostBack | internal/mapper/struct_mapper.go:123-141 | a vehicle rendered as a document and posted back is the same vehicle |
| Handlers.ValidateFuel | cmd/handlers/vehicle.go:410-418 | accepts a fuel exactly when its lower-cased spelling is on the allow-list |
| Handlers.FuelIgnoresCase | cmd/handlers/vehicle.go:413 | a fuel and its lower-cased spelling are accepted or refused together |
| Handlers.FuelAcceptsUpperCase | cmd/handlers/vehicle.go:411-413 | "DIESEL" is accepted |
| Handlers.FuelRefusesBiodiesel | cmd/handlers/vehicle.go:411 | the correct spelling "biodiesel" is refused, because the list spells it "biodisel" |
| Handlers.DimensionsQuery | cmd/handlers/vehicle.go:86-141 | a parameter that does not split on "-" into exactly two pieces gives 400; otherwise each bound is the parse of its piece, with the length bounds as the height bounds |
| Handlers.RangeParamShape | cmd/handlers/vehicle.go:89-92 | a parameter splits into two pieces exactly when it holds one "-"; then it is the two pieces joined by that "-" |
| Handlers.WeightQuery | cmd/handlers/vehicle.go:161-189 | an empty parameter, or one that does not parse, gives 400; otherwise the two parsed bounds form the weight filter |
| Handlers.GetAllErrorStatus | cmd/handlers/vehicle.go:43-56 | 404 exactly when the error is, or wraps, the service's NotFound; 500 otherwise |
| Handlers.Render | cmd/handlers/vehicle.go:149-152 | the response loop gives one document per vehicle, in the service's order |
| Handlers.DecodedMirrors | cmd/handlers/vehicle.go:149-153 | documents that mirror a listing decode back to exactly that listing |
| Handlers.ControllerVehicle.constructor | cmd/handlers/vehicle.go:18-23 | the controller holds the given service |
| Handlers.ControllerVehicle.GetAll | cmd/handlers/vehicle.go:36-82 | 404 on an empty store; otherwise 200 with documents that list every record once |
| Handlers.ControllerVehicle.GetByDimensions | cmd/handlers/vehicle.go:84-157 | 400 for a malformed parameter; otherwise 404 when nothing matches, else 200 with documents listing exactly the matches |
| Handlers.ControllerVehicle.GetByWeight | cmd/handlers/vehicle.go:159-208 | 400 for an empty or malformed parameter; otherwise 404 when nothing matches, else 200 with documents listing exactly the matches |
| Handlers.ControllerVehicle.GetByColorAndYear | cmd/handlers/vehicle.go:210-238 | 400 for a year that does not parse; otherwise 404 when nothing matches, else 200 with documents listing exactly the matches |
| Handlers.ControllerVehicle.GetAverageCapacityByBrand | cmd/handlers/vehicle.go:240-254 | 404 when no record has the brand; otherwise 200 with the brand's average capacity |
| Handlers.ControllerVehicle.PatchFuel | cmd/handlers/vehicle.go:255-288 | a bad id, bad body or refused fuel gives 400 and leaves the store untouched; otherwise 404 for an absent id, else 200 with only that fuel changed |
| Handlers.ControllerVehicle.PutFuel | cmd/handlers/vehicle.go:334-367 | a bad id, bad body or refused fuel gives 400 and leaves the store untouched; otherwise 404 for an absent id, else 200 with the record replaced |
| Handlers.ControllerVehicle.Batch | cmd/handlers/vehicle.go:290-310 | a bad body gives 400; otherwise the store is the result of posting the decoded vehicles in order, answering 201 on success and 404 when an identifier is reused |
| Handlers.ControllerVehicle.Post | cmd/handlers/vehicle.go:312-332 | a bad body gives 400; otherwise 201 with the vehicle added, or 500 with the store untouched when the identifier is in use |
| Handlers.ControllerVehicle.GetByTransmission | cmd/handlers/vehicle.go:369-384 | 404 when nothing matches; otherwise 200 with documents listing exactly the matches |
| Handlers.ControllerVehicle.Delete | cmd/handlers/vehicle.go:386-409 | a bad id gives 400; otherwise 404 for an absent id, else 204 with exactly that record removed |

## Left out

- The seed loader (internal/vehicle/loader/loader_json.go) reads a JSON file. The store's constructor takes the loaded map as its argument instead.
- cmd/main.go and the gin router are not modelled; neither are the response bodies and messages that handlers write with `ctx.JSON`. Each handler returns its status code, plus the documents where the source sends some.
- Parsing is done by foreign code: `strconv.ParseFloat`, `strconv.Atoi`, `time.Parse` and `ShouldBindJSON`. Each enters as an `Option` that is None when the parse fails, or as a parse-function parameter.
- The service's and the controller's error adapters and the struct mapper are injected in the source. They are fixed here to the implementations that cmd/main.go:27-29 wires in.
- Text.ToLower lowers ASCII letters only, not the whole of Unicode as `strings.ToLower` does.
- `float64` values are modelled as `real`, without rounding.
- The source stores a pointer to the posted or replaced attributes, so later changes to the caller's value would show through. The model stores values and has no aliasing.
- Nothing is modelled about concurrent requests; the source has no locking.
- Service.ServiceVehicleDefault.GetAverageCapacityByBrand: the passenger total is an unbounded integer, and the wrap-around of Go's `int` on overflow is not modelled.
- Service.ServiceVehicleDefault.GetAverageCapacityByBrand: the source's check for an empty successful listing (internal/vehicle/service/service_default.go:64-66) cannot fire, because the repository already fails on an empty result. The model keeps the branch, and the contract rules it out.
