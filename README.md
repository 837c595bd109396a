# route53 client: a Dafny model

This project models the request/response logic of the `route53` Go package, a small client
for the Amazon Route 53 DNS API. It covers:

- request descriptors for every hosted-zone, record-set, health-check and change operation;
- the URL builder;
- `run`, which signs the request, marshals the body, sends it and picks the result from the
  status code and the decoders' outcomes;
- the header writes of request signing;
- the marker-driven pagination loop of `ListHostedZones`;
- the "refuse truncated page" guards;
- `PollForSync`, recast as a sequential state machine over a given order of poll ticks and a
  timeout.

The foreign parts are oracles:

- One `Request.Exchange` per `run` call says what marshalling, the transport, the error-body
  decoder and the result decoder give for that call. The transport also gives the length of
  the body, since it decides what the second decoder can still read after a non-200 status.
- HMAC-SHA256 (RFC 2104 over FIPS 180-4), Base64 (section 4 of RFC 4648) and
  `url.Values.Encode` are function-typed parameters.
- The formatted clock reading is an input string.

Go's `(T, error)` pair is `Types.Ret<T>`, and a nil error is `None`. A nil-pointer
dereference the source would panic on is a `requires`:

- a zone without a client, for the record-set operations;
- a record set without a zone, for `Delete`;
- a change without a client, for `PollForSync` when a poll tick arrives before the timeout.

The XML decoder never writes fields tagged `xml:"-"` (the `r53` and `zone` back-references).
So response structs hold the subset types `DecodedZone`, `DecodedChangeInfo` and
`DecodedRRSet`, whose back-references are `None`.

Files:

- `wrappers.dfy`: Option and Result.
- `types.dfy`: the XML RPC structs, the client and the credential.
- `strings.dfy`: `strings.Replace(s, pat, "", -1)` as `RemoveAll`.
- `http.dfy`: the parts of `url.URL` and `http.Request` that the client sets.
- `sign.dfy`: request signing.
- `request.dfy`: the URL builder and `run`.
- `zones.dfy`, `records.dfy`, `checks.dfy`, `route53.dfy`: one module per source file of the
  same name.

`run` is modelled as written, including its inverted error branch (src/route53/request.go:92-95).
When the status is not 200 and the error body parses, no rejection is returned. The result is
then the decode of the response struct. In the source that second decoder reads from the same
reader the first one has drained, so the `decoded` oracle of such an exchange stands for
whatever that decode gives.

## Model

| member | source | states |
|---|---|---|
| Strings.RemoveAll | src/route53/zones.go:84 | Removing a prefix never lengthens an id. |
| Strings.RemoveAllShortensOnlyOnOccurrence | src/route53/zones.go:84 | An id gets shorter only when the pattern is non-empty and occurs in it. |
| Strings.RemoveAllAbsent | src/route53/zones.go:84 | An id in which the pattern does not occur is left verbatim. |
| Strings.RemoveAllAtFirstMatch | src/route53/zones.go:84 | With a match of a non-empty pattern, removal keeps the text before the first match that `strings.Index` finds and goes on after that match. |
| Strings.RemoveAllMatchesIndexLoop | src/route53/zones.go:84 | On every id and pattern, the left-to-right removal equals the reference `RemoveAllByIndex`, the `strings.Index` loop of Go's `strings.Replace` with an empty replacement. This includes the empty pattern, which leaves the id unchanged. |
| Strings.StripLeadingPattern | src/route53/zones.go:84 | A prefixed id loses exactly its prefix when no further occurrence follows. |
| Http.HttpRequest.constructor | src/route53/request.go:40-47 | A fresh request has the given method and URL, an empty header map and no body. |
| Sign.Sign | src/route53/sign.go:13-27 | The header map afterwards is the old one overridden at exactly three keys: `X-Amz-Date`, `X-Amzn-Authorization` and `X-Amz-Security-Token`. Each write replaces that key's previous value. Nothing else changes. |
| Sign.SignedTimestampIsDated | src/route53/sign.go:14-26 | Exactly the three keys are written. For an access key without a comma, the authorization header parses back to the credential's access key and to the signature of the very timestamp held in the date header. The token header is always written, holding the token even when it is empty. |
| Sign.AuthorizationRoundTrip | src/route53/sign.go:21-22 | The value is `AWS3-HTTPS AWSAccessKeyId=` + key + `,Algorithm=HmacSHA256,Signature=` + signature. For a key without a comma it parses back to that key and signature. |
| Sign.FirstCommaAfterKey | src/route53/sign.go:21 | In the authorization layout, the first comma is the one written right after a comma-free access key. |
| Sign.CommaInAccessKeyIsAmbiguous | src/route53/sign.go:21-22 | The access key is written unescaped, so a key containing `,Algorithm=HmacSHA256,Signature=` produces the same header as a different key and signature. |
| Request.BuildUrl | src/route53/request.go:20-30 | The scheme is https, the host is route53.amazonaws.com and the path is exactly the descriptor's path. The query is empty without params, and otherwise is the encoding of the params. |
| Request.RunOutcome | src/route53/request.go:39-99 | A marshal failure of a present body is returned as is. So is a transport error from `Do` or from reading the body. Status 200 gives exactly the decode of the result. Any other status gives the rejection `Code: Message` exactly when the error body does not parse. A parsed error body falls through to a second decoder on the same reader. That decoder gives `EOF` when the body fits in the first decoder's 4096-byte buffer, and otherwise the decode of what is left. Success can only come from the decode. |
| Request.Run | src/route53/request.go:39-99 | The result is `RunOutcome`. Nothing is sent exactly when marshalling fails. What is sent has the descriptor's method, the built URL, exactly the three signing headers (signed once, before the body is attached) and the marshalled body when there is one. |
| Request.ParsedErrorBodyFallsThrough | src/route53/request.go:89-98 | With a status other than 200, a parsable error body and a body longer than the decoder's buffer, `run` returns the result decode, never a rejection. |
| Request.RejectionTextIsNotEndOfInput | src/route53/request.go:94 | No `Code: Message` rejection text equals `EOF`. |
| Request.ShortRejectionReadsEndOfInput | src/route53/request.go:87-98 | With a status other than 200 and a parsable error body of at most 4096 bytes, `run` fails with `EOF`, and not with the envelope's `Code: Message`. |
| Request.RunOutcomeIntended | src/route53/request.go:89-98 | Corrected status rule. Any status other than 200 fails with the envelope's `Code: Message`; marshal failures, transport failures and status 200 are as in `RunOutcome`. |
| Request.IntendedRejectionKeepsCodeAndMessage | src/route53/request.go:89-98 | Under the corrected rule, success needs status 200. A parsed rejection's error text begins with its code and ends with its message after `: `. |
| Request.TransportFailureSkipsDecoding | src/route53/request.go:68-81 | Once the transport fails, neither decoder influences the outcome. |
| Zones.CreateHostedZoneCall | src/route53/zones.go:58-69 | POST `/2012-12-12/hostedzone` without params. The body carries the fixed namespace, the name, the reference and the comment. |
| Zones.CreateHostedZone | src/route53/zones.go:57-79 | Fails exactly when `run` fails, and then returns a zero change with that error. On success it returns the decoded change bound to the client. |
| Zones.GetHostedZoneCall | src/route53/zones.go:82-85 | GET `/2012-12-12/hostedzone/` + the id with every `/hostedzone/` removed, without params or body. |
| Zones.GetHostedZone | src/route53/zones.go:81-95 | Returns a zero zone with `run`'s error, or the decoded zone bound to the client. |
| Zones.DeleteHostedZoneCall | src/route53/zones.go:131-134 | DELETE without params or body, on the same path as get. |
| Zones.DeleteHostedZone | src/route53/zones.go:130-144 | Returns a zero change with `run`'s error, or the decoded change bound to the client. |
| Zones.ZoneIdForms | src/route53/zones.go:81-144 | A bare id is used verbatim in the path `/2012-12-12/hostedzone/<id>`. `/hostedzone/<id>` addresses the same zone for both get and delete. |
| Zones.ListHostedZonesCall | src/route53/zones.go:98-115 | GET `/2012-12-12/hostedzone` without a body. There are no params without a marker, and exactly `marker` with one. |
| Zones.DecodeInto | src/route53/zones.go:117 | Decoding into the reused struct appends the page's zones to those it already holds. It takes the page's truncation flag and next marker. |
| Zones.FetchIgnoresMarker | src/route53/zones.go:113-117 | Every listing call has the same outcome for a given exchange, whatever its marker. |
| Zones.OutcomeOfCall | src/route53/zones.go:107-117 | The listing's call number n has the n-th scripted outcome, whatever marker it carries. |
| Zones.StopIndex | src/route53/zones.go:107-121 | The listing ends at a call that fails or returns an untruncated page, and every call before it decoded a page. |
| Zones.StopIndexIsFirst | src/route53/zones.go:107-121 | No call before that one ends the listing. |
| Zones.Calls | src/route53/zones.go:98-115 | The requests of the first n calls number exactly n. |
| Zones.CallsCarryMarkers | src/route53/zones.go:98-115 | The first call has no params; every later call carries the previous page's `NextMarker`. |
| Zones.FirstCall | src/route53/zones.go:107-112 | A failed first call ends the listing there; a decoded first page continues it exactly when that page is truncated. |
| Zones.NextCall | src/route53/zones.go:112-120 | Each further call carries the marker of the page before it. A failure ends the listing at that call. A decoded page is appended to the reused struct and the struct's whole slice to the result, and the listing continues exactly when that page is truncated. |
| Zones.ListHostedZones | src/route53/zones.go:97-128 | It makes 1 + (number of truncated pages) calls. The first call has no params; each later one has `marker` = the previous page's `NextMarker`. A failing call discards everything and returns the error. Otherwise the result is the accumulated zones, as the reused struct holds them after each call, in order. None of them is bound to the client. |
| Zones.ReusedHoldsEveryPageSoFar | src/route53/zones.go:103-120 | After n calls the reused struct holds the zones of all n pages, in fetch order. |
| Zones.GatheredRepeatsEarlierPages | src/route53/zones.go:117-120 | So each call appends every page fetched so far again. |
| Zones.SinglePageListing | src/route53/zones.go:107-112 | A single untruncated page of K zones yields exactly those K zones after exactly one call. |
| Zones.StopsAfterSecondCall | src/route53/zones.go:112-120 | A truncated first page followed by a call that ends the listing makes exactly two calls. |
| Zones.FirstPageGathered | src/route53/zones.go:107-112 | After one call the result holds the first page's zones once. |
| Zones.TwoPagesRepeatFirst | src/route53/zones.go:103-120 | Pages A (truncated) then B give A, A, B, where each page once is A, B. |
| Zones.Bound | src/route53/zones.go:123-125 | Binding keeps the length and sets the client of every zone, leaving the rest of each zone unchanged. |
| Zones.BindAll | src/route53/zones.go:123-125 | Corrected binding loop. Updating each zone in place in the result yields exactly `Bound` of the zones it started with. |
| Zones.ListHostedZonesFresh | src/route53/zones.go:97-128 | Corrected listing. It makes the same calls with the same markers and has the same error behaviour. On success it returns each page's zones exactly once, in fetch order, bound to the client. |
| Records.ChangeRRSetCall | src/route53/records.go:64-73 | POST `/2012-12-12/hostedzone/` + the zone id as stored (not stripped) + `/rrset`. The body carries the comment and the changes unchanged, in order. |
| Records.ChangeRRSetRequest | src/route53/records.go:63-82 | Returns a zero change with `run`'s error. On success it returns the decoded change. Either way the change has no client. |
| Records.ChangeRRSetRequestBound | src/route53/records.go:63-82 | Corrected change batch. It has the same error behaviour, and on success the change is bound to the zone's client. |
| Records.BindingOnlySetsClient | src/route53/records.go:77-81 | The corrected and as-written batches differ only in the client of the returned change. |
| Records.ListRRSetCall | src/route53/records.go:85-88 | GET on the zone's rrset path, without params or body. |
| Records.ListRRSet | src/route53/records.go:84-104 | A failed run gives an empty list and its error. A truncated page gives an empty list and "cannot handle truncated responses". Otherwise the result is the decoded record sets unchanged, none of them bound to a zone. |
| Records.WithZone | src/route53/records.go:99-101 | Binding keeps the length and sets the zone of every record set, leaving the rest of each record set unchanged. |
| Records.ListRRSetBound | src/route53/records.go:84-104 | Corrected listing. It has the same error cases; otherwise it returns the decoded record sets, each bound to the zone. |
| Records.CreateRRSet | src/route53/records.go:108-115 | The batch holds exactly one change, CREATE of the given record set. It fails exactly when `run` fails, with a zero change. On success it returns the decoded change. Either way the change has no client. |
| Records.CreateRRSetBound | src/route53/records.go:108-115 | Corrected CREATE. It has the same error behaviour, and on success the change is bound to the zone's client. |
| Records.Delete | src/route53/records.go:117-124 | The batch holds exactly one change, DELETE of the record set itself. It goes to the rrset path of the record set's own zone. It fails exactly when `run` fails, with a zero change. On success it returns the decoded change. Either way the change has no client. |
| Records.DeleteBound | src/route53/records.go:117-124 | Corrected DELETE. It has the same error behaviour, and on success the change is bound to the record set's zone's client. |
| Records.DeleteUndoesCreate | src/route53/records.go:108-124 | Deleting a record set bound to zone z goes to the path that creating it there used. It carries the same serialised record set with the opposite action. |
| Records.ListedWithZoneAreDeletable | src/route53/records.go:99-123 | A record set from the bound listing can be deleted, through the zone it was listed in. |
| Checks.CreateHealthCheckCall | src/route53/checks.go:59-69 | POST `/2012-12-12/healthcheck` without params. The body carries the namespace, the reference and the config unchanged. |
| Checks.CreateHealthCheck | src/route53/checks.go:58-78 | Fails exactly when `run` fails, and then returns id "invalid". On success it returns the decoded id. |
| Checks.GetHealthCheckCall | src/route53/checks.go:81-84 | GET `/2012-12-12/healthcheck/` + the id with every `/healthcheck/` removed. |
| Checks.GetHealthCheck | src/route53/checks.go:80-93 | Returns a zero check with `run`'s error, or the decoded check. |
| Checks.ListHealthChecksCall | src/route53/checks.go:96-99 | GET `/2012-12-12/healthcheck` without params or body. |
| Checks.ListHealthChecks | src/route53/checks.go:95-111 | It has no error exactly when the call succeeds with an untruncated page, and then returns that page's checks. A failure gives an empty list and the error. A truncated page gives an empty list and "cannot handle truncated response", even though it decoded. |
| Checks.DeleteHealthCheckCall | src/route53/checks.go:114-117 | DELETE on the same path as get. |
| Checks.DeleteHealthCheck | src/route53/checks.go:113-126 | Returns nil exactly when `run` succeeds, and `run`'s error otherwise. |
| Checks.CheckIdForms | src/route53/checks.go:83-116 | A bare id is used verbatim. `/healthcheck/<id>` addresses the same check for get and delete. |
| Checks.CreatedIdAddressesCheck | src/route53/checks.go:58-116 | The id a successful creation returns (when free of the prefix) addresses the new check for both get and delete. |
| Route53.GetChangeCall | src/route53/route53.go:100-103 | GET `/2012-12-12/change/` + the id with every `/change/` removed, without params or body. |
| Route53.GetChangeIdForms | src/route53/route53.go:102 | A bare id is used verbatim, and `/change/<id>` gives the same call. |
| Route53.GetChange | src/route53/route53.go:99-112 | Fails exactly when `run` fails, and then returns a zero change with the error. On success it returns the decoded change. |
| Route53.FirstTerminal | src/route53/route53.go:119-135 | Finds the first event whose handling signals something, with every earlier event signalling nothing. |
| Route53.FirstTerminalAt | src/route53/route53.go:119-135 | An event that signals after only silent ones is the first event that ends polling. |
| Route53.PollForSync | src/route53/route53.go:114-139 | Each tick issues exactly one `GetChange` for `c.id`. A failed poll signals its error, "INSYNC" signals nil, and a timeout signals "timed out"; each of these ends the loop. Any other status continues. At most one value is signalled, and no poll follows it. |
| Route53.TickCountMonotone | src/route53/route53.go:119-122 | Polls issued over a prefix of the events never exceed those over a longer prefix. |
| Route53.TimeoutEndsPolling | src/route53/route53.go:131-133 | A timeout always ends polling, at the latest when it arrives, and no poll is issued for a later tick. |
| Route53.InSyncOnThirdPoll | src/route53/route53.go:121-130 | Two pending polls and then "INSYNC" signal nil after exactly three polls. |

## Left out

- The HTTP exchange (`http.DefaultClient.Do`, reading the body), `xml.Marshal` and the XML decoders, and `url.Values.Encode`. These are foreign. They enter as the `Exchange` oracle and as the `encodeQuery` parameter.
- HMAC-SHA256, Base64, `[]byte` conversion and `time.Now().UTC().Format(time.RFC1123)`. These are foreign. They enter as the `Sign.Crypto` functions and the `now` input.
- The `Proto` fields set on the outgoing request and the deferred body close. They do not affect any result.
- Credential refresh (`updateAuth`, `updateAuthLoop`), its lock, and the unlocked read of `r53.auth` in `run`. These are concurrency; the client's credential is a fixed value here.
- The `New` and `NewWithAuth` constructors. They wrap a foreign credential lookup and start a goroutine.
- Debug logging and the `debug` flag. They have no effect on results.
- The goroutine, channel and timer mechanics of `PollForSync`: the blocking unbuffered send, the `time.Tick` leak, and `select`'s random choice when both cases are ready. Only the decision rule over a given order of events is modelled, and the returned channel is the single `Signal`.
- The test programs under test/ (CLI flag handling and printing).
- Zones.ListHostedZones: it requires the scripted server to end the listing at some call. With every page truncated the source loops forever.
- Zones.ListHostedZonesFresh: it requires the same, for the same reason.
- Nil-pointer panics are preconditions, not modelled outcomes: a zone without a client for `Records.ChangeRRSetRequest`, `ListRRSet` and `CreateRRSet`; a record set without a zone for `Records.Delete`; a change without a client for `Route53.PollForSync` whose first event is a poll tick (with no client, a timeout that comes first still signals "timed out").
- Integer widths: `TTL` and `MaxItems` (`uint`) are `nat`, and `ResourceRecordSetCount` is `int`. No arithmetic is done on them, so no wrap-around can arise. `Weight` and `Port` keep their 8- and 16-bit ranges.

## Findings

| source | as written | input that shows it | evidently intended | confidence | as-written member | corrected member |
|---|---|---|---|---|---|---|
| src/route53/zones.go:103-120 | One response struct is decoded into on every page. encoding/xml appends to a slice that already has elements, and the whole slice is appended to the result after each call. | A listing of page A (truncated) then page B returns A, A, B. | Each page's zones once, in fetch order: A, B. | not executed; rests on encoding/xml appending to non-empty slices | Zones.TwoPagesRepeatFirst | Zones.ListHostedZonesFresh |
| src/route53/records.go:99-101 | The range loop assigns the zone to a copy, so every listed record set keeps a nil zone, and `Delete` on one dereferences nil. | Any successful untruncated `ListRRSet` with at least one record set, followed by `Delete` on it. | The returned record sets are bound to the zone and can be deleted. | not executed | Records.ListRRSet | Records.ListRRSetBound |
| src/route53/zones.go:123-125 | The same copy-only loop leaves every listed zone without a client, so `ChangeRRSetRequest` on it dereferences nil. | Any successful listing with at least one zone. | The returned zones are bound to the client. | not executed | Zones.ListHostedZones | Zones.ListHostedZonesFresh |
| src/route53/records.go:77-81 | The returned change is not bound to the client, unlike those of `CreateHostedZone` and `DeleteHostedZone`, so `PollForSync` on it dereferences nil. | Any successful `CreateRRSet` or `Delete` whose change is then polled. | The change is bound to the zone's client and can be polled. | not executed | Records.ChangeRRSetRequest, Records.CreateRRSet, Records.Delete | Records.ChangeRRSetRequestBound, Records.CreateRRSetBound, Records.DeleteBound |
| src/route53/request.go:87-98 | After a non-200 status, the error envelope is decoded through a 4096-byte buffered reader over the body. A parsed envelope then falls through to a second decoder on the same, already drained, reader, which reports `EOF`. The rejection's code and message never reach the caller. | Status 400 with a well-formed error envelope shorter than 4096 bytes. `run` returns `EOF`. | The call fails with the envelope's `Code: Message`. | not executed; rests on encoding/xml wrapping a reader without `ReadByte` in a default-size bufio.Reader | Request.ShortRejectionReadsEndOfInput | Request.RunOutcomeIntended |
