/**
  The HTTP error adapter: a service error becomes a status code and a message.
  Only the two service sentinels NotFound and IdInUse are recognised; both
  give 404, and everything else gives 500.
 */
module HttpError {
  import opened Errors
  import ServiceError

  const StatusNotFound: int := 404
  const StatusInternalServerError: int := 500

  datatype ResponseError = ResponseError(code: int, message: string)

  function ErrorAdapter(err: Error): (r: ResponseError)
    ensures r.code == StatusNotFound || r.code == StatusInternalServerError
    ensures r.code == StatusNotFound <==>
      Root(err) == ServiceVehicleNotFound || Root(err) == ServiceVIdInUse
  {
    IsMeansRoot(err, ServiceVehicleNotFound);
    IsMeansRoot(err, ServiceVIdInUse);
    if Is(err, ServiceVehicleNotFound) then
      ResponseError(StatusNotFound, "Not Found: Vehicle not found")
    else if Is(err, ServiceVIdInUse) then
      ResponseError(StatusNotFound, "Id already in use")
    else
      ResponseError(StatusInternalServerError, "internal server error")
  }

  /** The responses for the three service sentinels; IdInUse gives 404, not 409. */
  lemma ServiceSentinelResponses()
    ensures ErrorAdapter(ServiceVehicleNotFound) == ResponseError(404, "Not Found: Vehicle not found")
    ensures ErrorAdapter(ServiceVIdInUse) == ResponseError(404, "Id already in use")
    ensures ErrorAdapter(ServiceVehicleInternal) == ResponseError(500, "internal server error")
  {
  }

  /**
    A repository error that did not pass through the service adapter, however
    it is wrapped, is matched by neither case and gives 500.
   */
  lemma RawRepositoryErrorIs500(err: Error)
    requires IsRepositoryError(Root(err))
    ensures ErrorAdapter(err) == ResponseError(500, "internal server error")
  {
    IsMeansRoot(err, ServiceVehicleNotFound);
    IsMeansRoot(err, ServiceVIdInUse);
  }

  /**
    The whole error path of a handler: a repository error adapted by the
    service layer and then by this adapter gives 404 for NotFound and IdInUse
    and 500 otherwise.
   */
  lemma AdaptedRepositoryError(err: Error)
    ensures ErrorAdapter(ServiceError.ErrorAdapter(err)).code ==
      if Root(err) == RepositoryVehicleNotFound || Root(err) == RepositoryIdInUse
      then StatusNotFound else StatusInternalServerError
  {
  }
}
