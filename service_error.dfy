/**
  The service layer's error adapter: it turns a repository error into one of
  the three service sentinels, matching with errors.Is.
 */
module ServiceError {
  import opened Errors

  function ErrorAdapter(err: Error): (r: Error)
    ensures IsServiceError(r)
    ensures r == ServiceVehicleNotFound <==> Root(err) == RepositoryVehicleNotFound
    ensures r == ServiceVIdInUse <==> Root(err) == RepositoryIdInUse
  {
    IsMeansRoot(err, RepositoryVehicleNotFound);
    IsMeansRoot(err, RepositoryIdInUse);
    if Is(err, RepositoryVehicleNotFound) then ServiceVehicleNotFound
    else if Is(err, RepositoryIdInUse) then ServiceVIdInUse
    else ServiceVehicleInternal
  }

  /** Each repository sentinel has its service counterpart. */
  lemma AdaptsRepositorySentinels()
    ensures ErrorAdapter(RepositoryVehicleNotFound) == ServiceVehicleNotFound
    ensures ErrorAdapter(RepositoryIdInUse) == ServiceVIdInUse
    ensures ErrorAdapter(RepositoryVehicleInternal) == ServiceVehicleInternal
  {
  }

  /** Any error not rooted in NotFound or IdInUse becomes the internal error. */
  lemma OthersAreInternal(err: Error)
    requires Root(err) != RepositoryVehicleNotFound && Root(err) != RepositoryIdInUse
    ensures ErrorAdapter(err) == ServiceVehicleInternal
  {
  }

  /** A repository NotFound wrapped any number of times is still recognised. */
  lemma WrappedNotFound(n: nat)
    ensures ErrorAdapter(WrapN(RepositoryVehicleNotFound, n)) == ServiceVehicleNotFound
  {
    WrapKeepsRoot(RepositoryVehicleNotFound, n);
  }

  /**
    The adapter is not idempotent: a service sentinel fed back into it is not
    a repository error, so it comes out as the internal error.
   */
  lemma NotIdempotent(err: Error)
    requires IsServiceError(err)
    ensures ErrorAdapter(err) == ServiceVehicleInternal
    ensures ErrorAdapter(ErrorAdapter(RepositoryVehicleNotFound)) != ErrorAdapter(RepositoryVehicleNotFound)
  {
  }
}
