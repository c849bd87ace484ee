/**
  The HTTP handlers of the vehicle API, reduced to what they decide: the
  status code, and the data or store change that comes with it. Parsing done by
  foreign code (strconv, time.Parse, JSON binding) arrives as an Option, None
  meaning that the parse failed; the float parser of the range queries is a
  parameter. Response bodies and messages written by gin are not modelled.
 */
module Handlers {
  import opened Errors
  import opened Domain
  import opened Repository
  import Text
  import Service
  import HttpError
  import Mapper

  datatype Option<T> = None | Some(value: T)

  const StatusOK: int := 200
  const StatusCreated: int := 201
  const StatusNoContent: int := 204
  const StatusBadRequest: int := 400

  // ---------------------------------------------------------------------------
  // Fuel validation

  /** The allow-list as the handler spells it: "biodisel", not "biodiesel". */
  const AllowedFuels: seq<string> := ["diesel", "biodisel", "gas", "gasoline"]

  /** A fuel is allowed when its lower-cased spelling is on the allow-list. */
  predicate AllowedFuel(fuel: string) {
    Text.ToLower(fuel) in AllowedFuels
  }

  /** validateFuel: a scan of the allow-list for the lowered fuel. */
  method ValidateFuel(fuel: string) returns (isAllowed: bool)
    ensures isAllowed <==> AllowedFuel(fuel)
  {
    for i := 0 to |AllowedFuels|
      invariant forall j :: 0 <= j < i ==> Text.ToLower(fuel) != AllowedFuels[j]
    {
      if Text.ToLower(fuel) == AllowedFuels[i] {
        return true;
      }
    }
    return false;
  }

  /** Validation looks only at the lowered spelling, so case never matters. */
  lemma FuelIgnoresCase(fuel: string)
    ensures AllowedFuel(fuel) <==> AllowedFuel(Text.ToLower(fuel))
  {
    Text.ToLowerIdempotent(fuel);
  }

  /** Upper case is accepted. */
  lemma FuelAcceptsUpperCase()
    ensures AllowedFuel("DIESEL")
  {
    assert Text.ToLower("DIESEL") == "diesel";
  }

  /** The correct spelling "biodiesel" is refused. */
  lemma FuelRefusesBiodiesel()
    ensures !AllowedFuel("biodiesel")
  {
    assert Text.ToLower("biodiesel") == "biodiesel";
  }

  // ---------------------------------------------------------------------------
  // Query parameters

  /**
    The filter GetByDimensions builds from its `length` and `width`
    parameters, or None when it answers 400: either parameter does not split
    on "-" into exactly two pieces, or a piece is not a float. The length
    bounds become the height bounds.
   */
  function DimensionsQuery(lengthParam: string, widthParam: string, parseFloat: string -> Option<real>)
    : (q: Option<Query>)
    ensures |Text.Split(lengthParam, '-')| != 2 || |Text.Split(widthParam, '-')| != 2 ==> q.None?
    ensures |Text.Split(lengthParam, '-')| == 2 && |Text.Split(widthParam, '-')| == 2 ==>
      var length := Text.Split(lengthParam, '-');
      var width := Text.Split(widthParam, '-');
      (q.Some? <==> parseFloat(length[0]).Some? && parseFloat(length[1]).Some?
                    && parseFloat(width[0]).Some? && parseFloat(width[1]).Some?)
    ensures q.Some? ==>
      var length := Text.Split(lengthParam, '-');
      var width := Text.Split(widthParam, '-');
      && q.value.Dimensions?
      && parseFloat(length[0]) == Some(q.value.minHeight)
      && parseFloat(length[1]) == Some(q.value.maxHeight)
      && parseFloat(width[0]) == Some(q.value.minWidth)
      && parseFloat(width[1]) == Some(q.value.maxWidth)
  {
    var length := Text.Split(lengthParam, '-');
    var width := Text.Split(widthParam, '-');
    if |length| != 2 || |width| != 2 then None
    else
      var minLength := parseFloat(length[0]);
      var maxLength := parseFloat(length[1]);
      var minWidth := parseFloat(width[0]);
      var maxWidth := parseFloat(width[1]);
      if minLength.None? || maxLength.None? || minWidth.None? || maxWidth.None? then None
      else Some(Dimensions(minLength.value, maxLength.value, minWidth.value, maxWidth.value))
  }

  /**
    A range parameter has the right shape exactly when it holds one "-", and
    then it is its two pieces joined by that "-".
   */
  lemma RangeParamShape(param: string)
    ensures |Text.Split(param, '-')| == 2 <==> Text.Count(param, '-') == 1
    ensures |Text.Split(param, '-')| == 2 ==>
      var pieces := Text.Split(param, '-');
      param == pieces[0] + "-" + pieces[1] && '-' !in pieces[0] && '-' !in pieces[1]
  {
    Text.SplitCount(param, '-');
    var pieces := Text.Split(param, '-');
    if |pieces| == 2 {
      Text.SplitJoin(param, '-');
      assert Text.Join(pieces[1..], '-') == pieces[1];
      Text.SplitPiecesFree(param, '-', 0);
      Text.SplitPiecesFree(param, '-', 1);
    }
  }

  /**
    The filter GetByWeight builds from its `min` and `max` parameters, or None
    when it answers 400: a parameter is empty or is not a float.
   */
  function WeightQuery(minParam: string, maxParam: string, parseFloat: string -> Option<real>)
    : (q: Option<Query>)
    ensures minParam == "" || maxParam == "" ==> q.None?
    ensures q.Some? <==> minParam != "" && maxParam != "" && parseFloat(minParam).Some? && parseFloat(maxParam).Some?
    ensures q.Some? ==> q.value == Weight(parseFloat(minParam).value, parseFloat(maxParam).value)
  {
    if minParam == "" || maxParam == "" then None
    else
      var minWeight := parseFloat(minParam);
      var maxWeight := parseFloat(maxParam);
      if minWeight.None? || maxWeight.None? then None
      else Some(Weight(minWeight.value, maxWeight.value))
  }

  /** GetAll's own error switch: NotFound gives 404, anything else 500. */
  function GetAllErrorStatus(err: Error): (code: int)
    ensures code == HttpError.StatusNotFound || code == HttpError.StatusInternalServerError
    ensures code == HttpError.StatusNotFound <==> Root(err) == ServiceVehicleNotFound
  {
    IsMeansRoot(err, ServiceVehicleNotFound);
    if Is(err, ServiceVehicleNotFound) then HttpError.StatusNotFound
    else HttpError.StatusInternalServerError
  }

  // ---------------------------------------------------------------------------
  // Responses

  /** The vehicles a list of response documents describes. */
  function Decoded(docs: seq<Mapper.VehicleDoc>): (vs: seq<Vehicle>)
    ensures |vs| == |docs|
  {
    seq(|docs|, i requires 0 <= i < |docs| => Mapper.MapToVehicleHandlerPost(docs[i]))
  }

  /** The response loop: one document per vehicle, in the service's order. */
  method Render(vs: seq<Vehicle>, view: Vehicle -> Mapper.VehicleDoc) returns (docs: seq<Mapper.VehicleDoc>)
    ensures |docs| == |vs|
    ensures forall i :: 0 <= i < |vs| ==> docs[i] == view(vs[i])
  {
    docs := [];
    for i := 0 to |vs|
      invariant |docs| == i
      invariant forall j :: 0 <= j < i ==> docs[j] == view(vs[j])
    {
      docs := docs + [view(vs[i])];
    }
  }

  /** Documents that mirror a listing decode back to that listing. */
  lemma DecodedMirrors(docs: seq<Mapper.VehicleDoc>, vs: seq<Vehicle>)
    requires |docs| == |vs|
    requires forall i :: 0 <= i < |vs| ==> Mapper.Mirrors(docs[i], vs[i])
    ensures Decoded(docs) == vs
  {
    forall i | 0 <= i < |vs| ensures Decoded(docs)[i] == vs[i] {
      Mapper.MirrorsIsOneToOne(docs[i], docs[i], vs[i], Decoded(docs)[i]);
    }
  }

  // ---------------------------------------------------------------------------
  // The controller

  class ControllerVehicle {
    const st: Service.ServiceVehicleDefault

    constructor (st: Service.ServiceVehicleDefault)
      ensures this.st == st
    {
      this.st := st;
    }

    method GetAll() returns (code: int, data: seq<Mapper.VehicleHandlerGetAll>)
      ensures |st.rp.db| == 0 ==> code == HttpError.StatusNotFound && data == []
      ensures |st.rp.db| > 0 ==> code == StatusOK && Lists(Decoded(data), st.rp.db, All)
    {
      var vehicles := st.GetAll();
      if vehicles.Err? {
        return GetAllErrorStatus(vehicles.error), [];
      }
      data := Render(vehicles.value, Mapper.View);
      DecodedMirrors(data, vehicles.value);
      return StatusOK, data;
    }

    method GetByDimensions(lengthParam: string, widthParam: string, parseFloat: string -> Option<real>)
      returns (code: int, data: seq<Mapper.VehicleHandlerGetByDimension>)
      ensures DimensionsQuery(lengthParam, widthParam, parseFloat).None? ==>
        code == StatusBadRequest && data == []
      ensures DimensionsQuery(lengthParam, widthParam, parseFloat).Some? ==>
        var q := DimensionsQuery(lengthParam, widthParam, parseFloat).value;
        && (Matches(st.rp.db, q) == {} ==> code == HttpError.StatusNotFound && data == [])
        && (Matches(st.rp.db, q) != {} ==> code == StatusOK && Lists(Decoded(data), st.rp.db, q))
    {
      var q := DimensionsQuery(lengthParam, widthParam, parseFloat);
      if q.None? {
        return StatusBadRequest, [];
      }
      var vehicles := st.GetByDimensions(q.value.minHeight, q.value.maxHeight, q.value.minWidth, q.value.maxWidth);
      if vehicles.Err? {
        return HttpError.ErrorAdapter(vehicles.error).code, [];
      }
      data := Render(vehicles.value, Mapper.MapToVehicleHandlerGetByDimension);
      DecodedMirrors(data, vehicles.value);
      return StatusOK, data;
    }

    method GetByWeight(minParam: string, maxParam: string, parseFloat: string -> Option<real>)
      returns (code: int, data: seq<Mapper.VehicleHandlerGetByWeight>)
      ensures WeightQuery(minParam, maxParam, parseFloat).None? ==> code == StatusBadRequest && data == []
      ensures WeightQuery(minParam, maxParam, parseFloat).Some? ==>
        var q := WeightQuery(minParam, maxParam, parseFloat).value;
        && (Matches(st.rp.db, q) == {} ==> code == HttpError.StatusNotFound && data == [])
        && (Matches(st.rp.db, q) != {} ==> code == StatusOK && Lists(Decoded(data), st.rp.db, q))
    {
      var q := WeightQuery(minParam, maxParam, parseFloat);
      if q.None? {
        return StatusBadRequest, [];
      }
      var vehicles := st.GetByWeight(q.value.min, q.value.max);
      if vehicles.Err? {
        return HttpError.ErrorAdapter(vehicles.error).code, [];
      }
      data := Render(vehicles.value, Mapper.MapToVehicleHandlerGetByWeight);
      DecodedMirrors(data, vehicles.value);
      return StatusOK, data;
    }

    /** `year` is None when the path parameter is not a four-digit year. */
    method GetByColorAndYear(color: string, year: Option<int>)
      returns (code: int, data: seq<Mapper.VehicleHandlerGetByColorAndDate>)
      ensures year.None? ==> code == StatusBadRequest && data == []
      ensures year.Some? && Matches(st.rp.db, ColorAndYear(color, year.value)) == {} ==>
        code == HttpError.StatusNotFound && data == []
      ensures year.Some? && Matches(st.rp.db, ColorAndYear(color, year.value)) != {} ==>
        code == StatusOK && Lists(Decoded(data), st.rp.db, ColorAndYear(color, year.value))
    {
      if year.None? {
        return StatusBadRequest, [];
      }
      var vehicles := st.SearchByColorAndYear(color, year.value);
      if vehicles.Err? {
        return HttpError.ErrorAdapter(vehicles.error).code, [];
      }
      data := Render(vehicles.value, Mapper.MapFromModelVehicleHandlerGetByColorAndDate);
      DecodedMirrors(data, vehicles.value);
      return StatusOK, data;
    }

    method GetAverageCapacityByBrand(brand: string) returns (code: int, average: real)
      ensures Matches(st.rp.db, Brand(brand)) == {} ==> code == HttpError.StatusNotFound
      ensures Matches(st.rp.db, Brand(brand)) != {} ==>
        code == StatusOK && average == Service.AverageCapacity(st.rp.db, brand)
    {
      var r := st.GetAverageCapacityByBrand(brand);
      if r.Err? {
        return HttpError.ErrorAdapter(r.error).code, 0.0;
      }
      return StatusOK, r.value;
    }

    /** `id` and `body` are None when the path id or the JSON body does not parse. */
    method PatchFuel(id: Option<int>, body: Option<string>) returns (code: int)
      modifies st.rp
      ensures id.None? || body.None? || !AllowedFuel(body.value) ==>
        code == StatusBadRequest && st.rp.db == old(st.rp.db)
      ensures id.Some? && body.Some? && AllowedFuel(body.value) && id.value !in old(st.rp.db) ==>
        code == HttpError.StatusNotFound && st.rp.db == old(st.rp.db)
      ensures id.Some? && body.Some? && AllowedFuel(body.value) && id.value in old(st.rp.db) ==>
        code == StatusOK &&
        st.rp.db == old(st.rp.db)[id.value := old(st.rp.db)[id.value].(fuelType := body.value)]
    {
      if id.None? || body.None? {
        return StatusBadRequest;
      }
      var isAllowed := ValidateFuel(body.value);
      if !isAllowed {
        return StatusBadRequest;
      }
      var err := st.PatchFuel(id.value, body.value);
      if err.Fail? {
        return HttpError.ErrorAdapter(err.error).code;
      }
      return StatusOK;
    }

    /** The full replacement behind the PUT route; only the fuel is validated. */
    method PutFuel(id: Option<int>, body: Option<Mapper.VehicleHandlerPutFuel>) returns (code: int)
      modifies st.rp
      ensures id.None? || body.None? || !AllowedFuel(body.value.fuelType) ==>
        code == StatusBadRequest && st.rp.db == old(st.rp.db)
      ensures id.Some? && body.Some? && AllowedFuel(body.value.fuelType) && id.value !in old(st.rp.db) ==>
        code == HttpError.StatusNotFound && st.rp.db == old(st.rp.db)
      ensures id.Some? && body.Some? && AllowedFuel(body.value.fuelType) && id.value in old(st.rp.db) ==>
        code == StatusOK &&
        st.rp.db == old(st.rp.db)[id.value := Mapper.MapFromVehicleHandlerPutFuel(id.value, body.value).attributes]
    {
      if id.None? || body.None? {
        return StatusBadRequest;
      }
      var isAllowed := ValidateFuel(body.value.fuelType);
      if !isAllowed {
        return StatusBadRequest;
      }
      var err := st.Put(Mapper.MapFromVehicleHandlerPutFuel(id.value, body.value));
      if err.Fail? {
        return HttpError.ErrorAdapter(err.error).code;
      }
      return StatusOK;
    }

    /**
      Posts a batch; a reused identifier stops it with 404, the code the
      adapter gives ServiceVIdInUse.
     */
    method Batch(body: Option<seq<Mapper.VehicleHandlerPost>>) returns (code: int)
      modifies st.rp
      ensures body.None? ==> code == StatusBadRequest && st.rp.db == old(st.rp.db)
      ensures body.Some? ==>
        var (after, outcome) := Service.PostInOrder(old(st.rp.db), Decoded(body.value));
        && st.rp.db == after
        && (outcome == Pass ==> code == StatusCreated)
        && (outcome != Pass ==> code == HttpError.StatusNotFound)
    {
      if body.None? {
        return StatusBadRequest;
      }
      var vehicles := Mapper.MapToVehicleHandlerBatch(body.value);
      assert vehicles == Decoded(body.value);
      Service.BatchKeepsPrior(old(st.rp.db), vehicles);
      var err := st.Batch(vehicles);
      if err.Fail? {
        return HttpError.ErrorAdapter(err.error).code;
      }
      return StatusCreated;
    }

    /**
      Posts one vehicle. The service hands back the repository's IdInUse
      unadapted, which the HTTP adapter does not recognise: a reused
      identifier gives 500.
     */
    method Post(body: Option<Mapper.VehicleHandlerPost>) returns (code: int)
      modifies st.rp
      ensures body.None? ==> code == StatusBadRequest && st.rp.db == old(st.rp.db)
      ensures body.Some? && body.value.id in old(st.rp.db) ==>
        code == HttpError.StatusInternalServerError && st.rp.db == old(st.rp.db)
      ensures body.Some? && body.value.id !in old(st.rp.db) ==>
        code == StatusCreated &&
        st.rp.db == old(st.rp.db)[body.value.id := Mapper.MapToVehicleHandlerPost(body.value).attributes]
    {
      if body.None? {
        return StatusBadRequest;
      }
      var err := st.Post(Mapper.MapToVehicleHandlerPost(body.value));
      if err.Fail? {
        HttpError.RawRepositoryErrorIs500(err.error);
        return HttpError.ErrorAdapter(err.error).code;
      }
      return StatusCreated;
    }

    method GetByTransmission(transmission: string)
      returns (code: int, data: seq<Mapper.VehicleHandlerGetByTransmission>)
      ensures Matches(st.rp.db, Transmission(transmission)) == {} ==>
        code == HttpError.StatusNotFound && data == []
      ensures Matches(st.rp.db, Transmission(transmission)) != {} ==>
        code == StatusOK && Lists(Decoded(data), st.rp.db, Transmission(transmission))
    {
      var vehicles := st.GetByTransmission(transmission);
      if vehicles.Err? {
        return HttpError.ErrorAdapter(vehicles.error).code, [];
      }
      data := Render(vehicles.value, Mapper.MapToVehicleHandlerGetByTransmission);
      DecodedMirrors(data, vehicles.value);
      return StatusOK, data;
    }

    method Delete(id: Option<int>) returns (code: int)
      modifies st.rp
      ensures id.None? ==> code == StatusBadRequest && st.rp.db == old(st.rp.db)
      ensures id.Some? && id.value !in old(st.rp.db) ==>
        code == HttpError.StatusNotFound && st.rp.db == old(st.rp.db)
      ensures id.Some? && id.value in old(st.rp.db) ==>
        code == StatusNoContent && st.rp.db == old(st.rp.db) - {id.value}
    {
      if id.None? {
        return StatusBadRequest;
      }
      var err := st.Delete(id.value);
      if err.Fail? {
        return HttpError.ErrorAdapter(err.error).code;
      }
      return StatusNoContent;
    }
  }
}
