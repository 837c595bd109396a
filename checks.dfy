/** Health-check operations (checks.go): one round trip each. */
module Checks {
  import opened Wrappers
  import opened Types
  import opened Request
  import Strings

  const ChecksPath: string := "/2012-12-12/healthcheck"
  const CheckPrefix: string := "/healthcheck/"

  /** The id returned alongside a failed creation. */
  const InvalidId: string := "invalid"

  function CreateHealthCheckCall(config: HealthCheckConfig, reference: string): (r: Request)
    ensures r.httpMethod == "POST" && r.path == ChecksPath && r.params.None?
    ensures r.body == Some(CreateHealthCheckRequest(Xmlns, reference, config))
  {
    Request("POST", ChecksPath, None, Some(CreateHealthCheckRequest(Xmlns, reference, config)))
  }

  /** The new check's id, or "invalid" with run's error. */
  function CreateHealthCheck(config: HealthCheckConfig, reference: string,
                             x: Exchange<CreateHealthCheckResponse>): (r: Ret<string>)
    ensures var out := RunOutcome(CreateHealthCheckCall(config, reference), x);
      && (r.err.Some? <==> out.Failure?)
      && (out.Failure? ==> r == Ret(InvalidId, Some(out.error)))
      && (out.Success? ==> r.value == out.value.healthCheck.id)
  {
    match RunOutcome(CreateHealthCheckCall(config, reference), x)
    case Failure(err) => Ret(InvalidId, Some(err))
    case Success(res) => Ret(res.healthCheck.id, None)
  }

  /** `/2012-12-12/healthcheck/<id>` with every "/healthcheck/" removed from the id. */
  function CheckPath(id: string): string {
    ChecksPath + "/" + Strings.RemoveAll(id, CheckPrefix)
  }

  function GetHealthCheckCall(id: string): (r: Request)
    ensures r.httpMethod == "GET" && r.path == CheckPath(id) && r.params.None? && r.body.None?
  {
    Request("GET", CheckPath(id), None, None)
  }

  /** The check as decoded, or a zero check with run's error. */
  function GetHealthCheck(id: string, x: Exchange<GetHealthCheckResponse>): (r: Ret<HealthCheck>)
    ensures var out := RunOutcome(GetHealthCheckCall(id), x);
      && (r.err.Some? <==> out.Failure?)
      && (out.Failure? ==> r == Ret(ZeroHealthCheck, Some(out.error)))
      && (out.Success? ==> r.value == out.value.healthCheck)
  {
    match RunOutcome(GetHealthCheckCall(id), x)
    case Failure(err) => Ret(ZeroHealthCheck, Some(err))
    case Success(res) => Ret(res.healthCheck, None)
  }

  function ListHealthChecksCall(): (r: Request)
    ensures r.httpMethod == "GET" && r.path == ChecksPath && r.params.None? && r.body.None?
  {
    Request("GET", ChecksPath, None, None)
  }

  const TruncatedChecks: Error := Error("cannot handle truncated response")

  /** One page of checks: run's error, the truncation error, or the page's checks. */
  function ListHealthChecks(x: Exchange<ListHealthChecksResponse>): (r: Ret<seq<HealthCheck>>)
    ensures var out := RunOutcome(ListHealthChecksCall(), x);
      && (r.err.None? <==> out.Success? && !out.value.isTruncated)
      && (out.Failure? ==> r == Ret([], Some(out.error)))
      && (out.Success? && out.value.isTruncated ==> r == Ret([], Some(TruncatedChecks)))
      && (r.err.None? ==> r.value == out.value.healthChecks)
  {
    match RunOutcome(ListHealthChecksCall(), x)
    case Failure(err) => Ret([], Some(err))
    case Success(res) =>
      if res.isTruncated then Ret([], Some(TruncatedChecks)) else Ret(res.healthChecks, None)
  }

  function DeleteHealthCheckCall(id: string): (r: Request)
    ensures r.httpMethod == "DELETE" && r.path == CheckPath(id) && r.params.None? && r.body.None?
  {
    Request("DELETE", CheckPath(id), None, None)
  }

  /** Only an error: nil exactly when run succeeds. */
  function DeleteHealthCheck(id: string, x: Exchange<DeleteHealthCheckResponse>): (r: Option<Error>)
    ensures var out := RunOutcome(DeleteHealthCheckCall(id), x);
      && (r.None? <==> out.Success?)
      && (out.Failure? ==> r == Some(out.error))
  {
    match RunOutcome(DeleteHealthCheckCall(id), x)
    case Failure(err) => Some(err)
    case Success(_) => None
  }

  /**
   * A bare check id is used verbatim, and the prefixed form "/healthcheck/<id>" addresses
   * the same check, for both get and delete.
   */
  lemma {:induction false} CheckIdForms(id: string)
    requires !Strings.Occurs(id, CheckPrefix)
    ensures CheckPath(id) == ChecksPath + "/" + id
    ensures GetHealthCheckCall(CheckPrefix + id) == GetHealthCheckCall(id)
    ensures DeleteHealthCheckCall(CheckPrefix + id) == DeleteHealthCheckCall(id)
  {
    Strings.RemoveAllAbsent(id, CheckPrefix);
    Strings.StripLeadingPattern(CheckPrefix, id);
  }

  /**
   * The id a successful creation returns, if free of the prefix, addresses the new check:
   * get and delete go to `/2012-12-12/healthcheck/<id>`.
   */
  lemma {:induction false} CreatedIdAddressesCheck(config: HealthCheckConfig, reference: string,
                                                    x: Exchange<CreateHealthCheckResponse>)
    requires CreateHealthCheck(config, reference, x).err.None?
    requires !Strings.Occurs(CreateHealthCheck(config, reference, x).value, CheckPrefix)
    ensures var id := CreateHealthCheck(config, reference, x).value;
      && id == RunOutcome(CreateHealthCheckCall(config, reference), x).value.healthCheck.id
      && GetHealthCheckCall(id).path == ChecksPath + "/" + id
      && DeleteHealthCheckCall(id).path == ChecksPath + "/" + id
  {
    CheckIdForms(CreateHealthCheck(config, reference, x).value);
  }
}
