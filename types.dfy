/**
 * The XML RPC types of the route53 package, the client itself (the `Route53` struct)
 * and the credential it signs with.
 *
 * Fields tagged `xml:"-"` (the back-references `r53` and `zone`) are never written by the
 * XML decoder. Response structs therefore hold the subset types `DecodedZone`,
 * `DecodedChangeInfo` and `DecodedRRSet`, whose back-references are nil.
 */
module Types {
  import opened Wrappers

  newtype uint8 = x: int | 0 <= x < 0x100
  newtype uint16 = x: int | 0 <= x < 0x1_0000
  type byte = uint8

  /** A Go `error`: what matters to callers is its text. */
  datatype Error = Error(text: string)

  /** Go's two-result convention `(T, error)`; `err == None` is a nil error. */
  datatype Ret<T> = Ret(value: T, err: Option<Error>)

  /** The credential (aws.Auth): `token` is what `Token()` returns, possibly empty. */
  datatype Credential = Credential(accessKey: string, secretKey: string, token: string)

  /** The client (`Route53`); its lock and the refresh goroutine are not part of this model. */
  datatype Client = Client(auth: Credential, includeWeight: bool)

  /** The version namespace sent in create-request bodies. */
  const Xmlns: string := "https://route53.amazonaws.com/doc/2012-12-12/"

  // Hosted zones (zones.go)

  datatype HostedZone = HostedZone(
    r53: Option<Client>,
    id: string,
    name: string,
    callerReference: string,
    comment: string,
    resourceRecordSetCount: int)

  const ZeroHostedZone: HostedZone := HostedZone(None, "", "", "", "", 0)

  type DecodedZone = z: HostedZone | z.r53.None? witness HostedZone(None, "", "", "", "", 0)

  // Changes (route53.go)

  datatype ChangeInfo = ChangeInfo(r53: Option<Client>, id: string, status: string, submittedAt: string)

  const ZeroChangeInfo: ChangeInfo := ChangeInfo(None, "", "", "")

  type DecodedChangeInfo = c: ChangeInfo | c.r53.None? witness ChangeInfo(None, "", "", "")

  // Resource record sets (records.go)

  datatype AliasTarget = AliasTarget(hostedZoneId: string, dnsName: string, evaluateTargetHealth: bool)

  datatype RRSet = RRSet(
    zone: Option<HostedZone>,
    name: string,
    rrType: string,
    ttl: nat,
    values: seq<string>,
    healthCheckId: string,
    weight: uint8,
    setIdentifier: string,
    aliasTarget: AliasTarget,
    failOver: string,
    region: string)

  type DecodedRRSet = r: RRSet | r.zone.None?
    witness RRSet(None, "", "", 0, [], "", 0, "", AliasTarget("", "", false), "", "")

  datatype RRSetChange = RRSetChange(action: string, rrset: RRSet)

  // Health checks (checks.go)

  datatype HealthCheckConfig = HealthCheckConfig(
    ipAddress: string,
    port: uint16,
    checkType: string,
    resourcePath: string,
    fullyQualifiedDomainName: string)

  datatype HealthCheck = HealthCheck(id: string, callerReference: string, config: HealthCheckConfig)

  const ZeroHealthCheck: HealthCheck := HealthCheck("", "", HealthCheckConfig("", 0, "", "", ""))

  /** The request bodies (`body interface{}` of a request), one constructor per XML request type. */
  datatype Body =
    | CreateHostedZoneRequest(xmlns: string, name: string, callerReference: string, comment: string)
    | ChangeRRSetRequest(comment: string, changes: seq<RRSetChange>)
    | CreateHealthCheckRequest(xmlns: string, callerReference: string, config: HealthCheckConfig)

  // Response bodies, as the XML decoder fills them.

  datatype CreateHostedZoneResponse =
    CreateHostedZoneResponse(hostedZone: DecodedZone, changeInfo: DecodedChangeInfo, nameServers: seq<string>)

  datatype GetHostedZoneResponse = GetHostedZoneResponse(hostedZone: DecodedZone, nameServers: seq<string>)

  datatype ListHostedZonesResponse = ListHostedZonesResponse(
    hostedZones: seq<DecodedZone>,
    isTruncated: bool,
    marker: string,
    nextMarker: string,
    maxItems: nat)

  datatype DeleteHostedZoneResponse = DeleteHostedZoneResponse(changeInfo: DecodedChangeInfo)

  datatype ChangeRRSetResponse = ChangeRRSetResponse(changeInfo: DecodedChangeInfo)

  datatype ListRRSetResponse = ListRRSetResponse(
    rrsets: seq<DecodedRRSet>,
    isTruncated: bool,
    nextRecordName: string,
    nextRecordIdentifier: string,
    maxItems: nat)

  datatype CreateHealthCheckResponse = CreateHealthCheckResponse(healthCheck: HealthCheck)

  datatype GetHealthCheckResponse = GetHealthCheckResponse(healthCheck: HealthCheck)

  datatype ListHealthChecksResponse = ListHealthChecksResponse(
    healthChecks: seq<HealthCheck>,
    isTruncated: bool,
    marker: string,
    nextMarker: string,
    maxItems: nat)

  datatype DeleteHealthCheckResponse = DeleteHealthCheckResponse

  datatype GetChangeResponse = GetChangeResponse(changeInfo: DecodedChangeInfo)
}
