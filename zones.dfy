/**
 * Hosted-zone operations (zones.go): create, get and delete as one round trip each, and the
 * marker-driven listing loop run against a finite script of exchanges.
 */
module Zones {
  import opened Wrappers
  import opened Types
  import opened Request
  import Strings

  const ZonesPath: string := "/2012-12-12/hostedzone"
  const ZonePrefix: string := "/hostedzone/"

  function CreateHostedZoneCall(name: string, reference: string, comment: string): (r: Request)
    ensures r.httpMethod == "POST" && r.path == ZonesPath && r.params.None?
    ensures r.body == Some(CreateHostedZoneRequest(Xmlns, name, reference, comment))
  {
    Request("POST", ZonesPath, None, Some(CreateHostedZoneRequest(Xmlns, name, reference, comment)))
  }

  /** The submitted change, bound to the client so that it can be polled; a zero change with run's error. */
  function CreateHostedZone(r53: Client, name: string, reference: string, comment: string,
                            x: Exchange<CreateHostedZoneResponse>): (r: Ret<ChangeInfo>)
    ensures var out := RunOutcome(CreateHostedZoneCall(name, reference, comment), x);
      && (r.err.Some? <==> out.Failure?)
      && (out.Failure? ==> r == Ret(ZeroChangeInfo, Some(out.error)))
      && (out.Success? ==> r.value == out.value.changeInfo.(r53 := Some(r53)))
  {
    match RunOutcome(CreateHostedZoneCall(name, reference, comment), x)
    case Failure(err) => Ret(ZeroChangeInfo, Some(err))
    case Success(res) => Ret(res.changeInfo.(r53 := Some(r53)), None)
  }

  /** `GET /2012-12-12/hostedzone/<id>` with every "/hostedzone/" removed from the id. */
  function GetHostedZoneCall(id: string): (r: Request)
    ensures r.httpMethod == "GET" && r.params.None? && r.body.None?
    ensures r.path == ZonesPath + "/" + Strings.RemoveAll(id, ZonePrefix)
  {
    Request("GET", ZonesPath + "/" + Strings.RemoveAll(id, ZonePrefix), None, None)
  }

  /** The zone, bound to the client; a zero zone with run's error. */
  function GetHostedZone(r53: Client, id: string, x: Exchange<GetHostedZoneResponse>): (r: Ret<HostedZone>)
    ensures var out := RunOutcome(GetHostedZoneCall(id), x);
      && (r.err.Some? <==> out.Failure?)
      && (out.Failure? ==> r == Ret(ZeroHostedZone, Some(out.error)))
      && (out.Success? ==> r.value == out.value.hostedZone.(r53 := Some(r53)))
  {
    match RunOutcome(GetHostedZoneCall(id), x)
    case Failure(err) => Ret(ZeroHostedZone, Some(err))
    case Success(res) => Ret(res.hostedZone.(r53 := Some(r53)), None)
  }

  /** `DELETE` on the same path as `GetHostedZoneCall`. */
  function DeleteHostedZoneCall(id: string): (r: Request)
    ensures r.httpMethod == "DELETE" && r.params.None? && r.body.None?
    ensures r.path == GetHostedZoneCall(id).path
  {
    Request("DELETE", ZonesPath + "/" + Strings.RemoveAll(id, ZonePrefix), None, None)
  }

  /** The deletion's change, bound to the client; a zero change with run's error. */
  function DeleteHostedZone(r53: Client, id: string, x: Exchange<DeleteHostedZoneResponse>): (r: Ret<ChangeInfo>)
    ensures var out := RunOutcome(DeleteHostedZoneCall(id), x);
      && (r.err.Some? <==> out.Failure?)
      && (out.Failure? ==> r == Ret(ZeroChangeInfo, Some(out.error)))
      && (out.Success? ==> r.value == out.value.changeInfo.(r53 := Some(r53)))
  {
    match RunOutcome(DeleteHostedZoneCall(id), x)
    case Failure(err) => Ret(ZeroChangeInfo, Some(err))
    case Success(res) => Ret(res.changeInfo.(r53 := Some(r53)), None)
  }

  /**
   * A bare zone id is used verbatim, and the prefixed form "/hostedzone/<id>" the service
   * returns addresses the same zone, for both get and delete.
   */
  lemma {:induction false} ZoneIdForms(id: string)
    requires !Strings.Occurs(id, ZonePrefix)
    ensures GetHostedZoneCall(id).path == ZonesPath + "/" + id
    ensures GetHostedZoneCall(ZonePrefix + id) == GetHostedZoneCall(id)
    ensures DeleteHostedZoneCall(ZonePrefix + id) == DeleteHostedZoneCall(id)
  {
    Strings.RemoveAllAbsent(id, ZonePrefix);
    Strings.StripLeadingPattern(ZonePrefix, id);
  }

  // Listing

  /** A listing request: no params on the first call, exactly `marker` on each later one. */
  function ListHostedZonesCall(marker: Option<string>): (r: Request)
    ensures r.httpMethod == "GET" && r.path == ZonesPath && r.body.None?
    ensures marker.None? <==> r.params.None?
    ensures marker.Some? ==> r.params == Some(map["marker" := [marker.value]])
  {
    Request("GET", ZonesPath, if marker.None? then None else Some(map["marker" := [marker.value]]), None)
  }

  const EmptyListing: ListHostedZonesResponse := ListHostedZonesResponse([], false, "", "", 0)

  /**
   * Decoding a page into the struct that is reused across calls: encoding/xml appends the
   * page's elements to the slice the struct already holds and overwrites the scalar fields.
   */
  function DecodeInto(into: ListHostedZonesResponse, page: ListHostedZonesResponse): (r: ListHostedZonesResponse)
    ensures r.hostedZones == into.hostedZones + page.hostedZones
    ensures r.isTruncated == page.isTruncated && r.nextMarker == page.nextMarker
  {
    page.(hostedZones := into.hostedZones + page.hostedZones)
  }

  /** What run gives for one listing call; no listing call has a body, so the marker does not matter. */
  function Fetch(x: Exchange<ListHostedZonesResponse>): Result<ListHostedZonesResponse, Error> {
    RunOutcome(ListHostedZonesCall(None), x)
  }

  /** Every listing call, whatever its marker, has the outcome `Fetch` gives. */
  lemma FetchIgnoresMarker(marker: Option<string>, x: Exchange<ListHostedZonesResponse>)
    ensures RunOutcome(ListHostedZonesCall(marker), x) == Fetch(x)
  {
  }

  /** The outcome of one listing call: the decoded page or run's error. */
  type Outcome = Result<ListHostedZonesResponse, Error>

  /** The outcomes the scripted exchanges give, call by call. */
  function Outcomes(script: seq<Exchange<ListHostedZonesResponse>>): (outs: seq<Outcome>)
    ensures |outs| == |script|
  {
    if script == [] then [] else [Fetch(script[0])] + Outcomes(script[1..])
  }

  /** The listing's call number `n`, whatever its marker, has the `n`th scripted outcome. */
  lemma {:induction false} OutcomeOfCall(script: seq<Exchange<ListHostedZonesResponse>>, n: nat, marker: Option<string>)
    requires n < |script|
    ensures RunOutcome(ListHostedZonesCall(marker), script[n]) == Outcomes(script)[n]
  {
    if n == 0 {
      FetchIgnoresMarker(marker, script[0]);
    } else {
      assert script[1..][n - 1] == script[n];
      OutcomeOfCall(script[1..], n - 1, marker);
    }
  }

  /** This call ends the listing: it failed, or its page is not truncated. */
  predicate Ends(o: Outcome) {
    o.Failure? || !o.value.isTruncated
  }

  /** The scripted server ends the listing at some call (otherwise the loop would never stop). */
  predicate EndsListing(outs: seq<Outcome>) {
    exists k | 0 <= k < |outs| :: Ends(outs[k])
  }

  /** The last call the listing makes: the first that fails or returns an untruncated page. */
  function StopIndex(outs: seq<Outcome>): (k: nat)
    requires EndsListing(outs)
    ensures k < |outs| && Ends(outs[k]) && Decoded(outs, k)
  {
    if Ends(outs[0]) then 0
    else
      assert EndsListing(outs[1..]) by {
        var k :| 0 <= k < |outs| && Ends(outs[k]);
        assert outs[1..][k - 1] == outs[k];
      }
      1 + StopIndex(outs[1..])
  }

  /** No call before the last one ends the listing. */
  lemma {:induction false} StopIndexIsFirst(outs: seq<Outcome>, j: nat)
    requires EndsListing(outs) && j < StopIndex(outs)
    ensures !Ends(outs[j])
  {
    if j > 0 {
      assert outs[1..][j - 1] == outs[j];
      StopIndexIsFirst(outs[1..], j - 1);
    }
  }

  /** The first `n` calls all decoded a page. */
  predicate Decoded(outs: seq<Outcome>, n: nat) {
    n <= |outs| && forall j | 0 <= j < n :: outs[j].Success?
  }

  /** The requests of the first `n` calls: the first without params, each later one with the previous page's marker. */
  function Calls(outs: seq<Outcome>, n: nat): (r: seq<Request>)
    requires 1 <= n && Decoded(outs, n - 1)
    ensures |r| == n
  {
    if n == 1 then [ListHostedZonesCall(None)]
    else Calls(outs, n - 1) + [ListHostedZonesCall(Some(outs[n - 2].value.nextMarker))]
  }

  /** The first call carries no params; every later call carries the previous page's marker. */
  lemma {:induction false} CallsCarryMarkers(outs: seq<Outcome>, n: nat)
    requires 1 <= n && Decoded(outs, n - 1)
    ensures Calls(outs, n)[0] == ListHostedZonesCall(None)
    ensures forall j | 0 < j < n :: Calls(outs, n)[j] == ListHostedZonesCall(Some(outs[j - 1].value.nextMarker))
  {
    if n > 1 {
      CallsCarryMarkers(outs, n - 1);
    }
  }

  /** The reused response struct after the first `n` calls, all of which decoded. */
  function Reused(outs: seq<Outcome>, n: nat): ListHostedZonesResponse
    requires Decoded(outs, n)
  {
    if n == 0 then EmptyListing else DecodeInto(Reused(outs, n - 1), outs[n - 1].value)
  }

  /** The accumulated zones after `n` calls: after each call the struct's whole slice is appended. */
  function Gathered(outs: seq<Outcome>, n: nat): seq<DecodedZone>
    requires Decoded(outs, n)
  {
    if n == 0 then [] else Gathered(outs, n - 1) + Reused(outs, n).hostedZones
  }

  /** The zones of the first `n` pages, each page once, in fetch order. */
  function Flatten(outs: seq<Outcome>, n: nat): seq<DecodedZone>
    requires Decoded(outs, n)
  {
    if n == 0 then [] else Flatten(outs, n - 1) + outs[n - 1].value.hostedZones
  }

  /** The call after `n` truncated pages: what it sends, and where the listing then stands. */
  lemma {:induction false} NextCall(outs: seq<Outcome>, n: nat)
    requires EndsListing(outs) && 1 <= n <= StopIndex(outs) && Decoded(outs, n)
    ensures n < |outs| && Reused(outs, n).nextMarker == outs[n - 1].value.nextMarker
    ensures Calls(outs, n + 1) == Calls(outs, n) + [ListHostedZonesCall(Some(outs[n - 1].value.nextMarker))]
    ensures outs[n].Failure? ==> StopIndex(outs) == n
    ensures outs[n].Success? ==>
      && Decoded(outs, n + 1)
      && Reused(outs, n + 1) == DecodeInto(Reused(outs, n), outs[n].value)
      && Gathered(outs, n + 1) == Gathered(outs, n) + Reused(outs, n + 1).hostedZones
      && Flatten(outs, n + 1) == Flatten(outs, n) + outs[n].value.hostedZones
      && (outs[n].value.isTruncated <==> n + 1 <= StopIndex(outs))
  {
    if n < StopIndex(outs) {
      StopIndexIsFirst(outs, n);
    }
  }

  /** The first call: its outcome ends the listing exactly when the listing stops there. */
  lemma {:induction false} FirstCall(outs: seq<Outcome>)
    requires EndsListing(outs)
    ensures outs[0].Failure? ==> StopIndex(outs) == 0
    ensures outs[0].Success? ==> Decoded(outs, 1) && (outs[0].value.isTruncated <==> 1 <= StopIndex(outs))
  {
    if 0 < StopIndex(outs) {
      StopIndexIsFirst(outs, 0);
    }
  }

  /**
   * The listing loop. The first request has no params, each later one carries the previous
   * page's `NextMarker`; one call per truncated page plus the last; any failing call
   * discards everything gathered. The response struct is reused across calls.
   */
  method ListHostedZones(r53: Client, script: seq<Exchange<ListHostedZonesResponse>>)
    returns (zones: seq<HostedZone>, err: Option<Error>, calls: seq<Request>)
    requires EndsListing(Outcomes(script))
    ensures var outs := Outcomes(script); var last := StopIndex(outs);
      && calls == Calls(outs, last + 1)
      && (outs[last].Failure? ==> zones == [] && err == Some(outs[last].error))
      && (outs[last].Success? ==> zones == Gathered(outs, last + 1) && err == None)
    ensures forall i | 0 <= i < |zones| :: zones[i].r53.None?
  {
    ghost var outs := Outcomes(script);
    var req := ListHostedZonesCall(None);
    var xmlRes := EmptyListing;
    zones := [];
    calls := [req];
    FirstCall(outs);
    OutcomeOfCall(script, 0, None);
    var outcome := RunOutcome(req, script[0]);
    if outcome.Failure? {
      assert StopIndex(outs) == 0;
      return [], Some(outcome.error), calls;
    }
    xmlRes := DecodeInto(xmlRes, outcome.value);
    zones := zones + xmlRes.hostedZones;
    err := None;
    var n := 1;
    while xmlRes.isTruncated
      invariant 1 <= n <= StopIndex(outs) + 1 && Decoded(outs, n)
      invariant calls == Calls(outs, n)
      invariant xmlRes == Reused(outs, n) && zones == Gathered(outs, n)
      invariant xmlRes.isTruncated <==> n <= StopIndex(outs)
      invariant req.httpMethod == "GET" && req.path == ZonesPath && req.body.None?
      decreases StopIndex(outs) + 1 - n
    {
      NextCall(outs, n);
      var marker := xmlRes.nextMarker;
      req := req.(params := Some(map["marker" := [marker]]));
      assert req == ListHostedZonesCall(Some(marker));
      calls := calls + [req];
      assert calls == Calls(outs, n + 1);
      OutcomeOfCall(script, n, Some(marker));
      outcome := RunOutcome(req, script[n]);
      if outcome.Failure? {
        assert StopIndex(outs) == n;
        return [], Some(outcome.error), calls;
      }
      xmlRes := DecodeInto(xmlRes, outcome.value);
      assert xmlRes == Reused(outs, n + 1);
      zones := zones + xmlRes.hostedZones;
      assert zones == Gathered(outs, n + 1);
      n := n + 1;
    }
    // The back-reference loop assigns to a copy of each zone; the returned slice is untouched.
    for i := 0 to |zones| {
      var zone := zones[i];
      zone := zone.(r53 := Some(r53));
    }
  }

  /** The reused struct holds every page decoded so far, not just the latest. */
  lemma {:induction false} ReusedHoldsEveryPageSoFar(outs: seq<Outcome>, n: nat)
    requires Decoded(outs, n)
    ensures Reused(outs, n).hostedZones == Flatten(outs, n)
  {
    if n > 0 {
      ReusedHoldsEveryPageSoFar(outs, n - 1);
    }
  }

  /** So each call appends all pages so far again: the gathered list repeats earlier pages. */
  lemma {:induction false} GatheredRepeatsEarlierPages(outs: seq<Outcome>, n: nat)
    requires 0 < n && Decoded(outs, n)
    ensures Gathered(outs, n) == Gathered(outs, n - 1) + Flatten(outs, n)
  {
    ReusedHoldsEveryPageSoFar(outs, n);
  }

  /** A single untruncated page of K zones yields exactly those K zones after one call. */
  lemma {:induction false} SinglePageListing(outs: seq<Outcome>)
    requires |outs| > 0 && outs[0].Success? && !outs[0].value.isTruncated
    ensures EndsListing(outs) && StopIndex(outs) == 0
    ensures Gathered(outs, 1) == outs[0].value.hostedZones
  {
    assert Ends(outs[0]);
    assert Decoded(outs, 1);
    var a := outs[0].value.hostedZones;
    assert Reused(outs, 1).hostedZones == [] + a == a;
    assert Gathered(outs, 1) == [] + a;
  }

  /** After one truncated page the listing stops at the second call when that one ends it. */
  lemma {:induction false} StopsAfterSecondCall(outs: seq<Outcome>)
    requires |outs| == 2 && !Ends(outs[0]) && Ends(outs[1])
    ensures EndsListing(outs) && StopIndex(outs) == 1
  {
    assert outs[1..][0] == outs[1];
  }

  /** The zones of the first page, gathered after one call, listed once. */
  lemma {:induction false} FirstPageGathered(outs: seq<Outcome>)
    requires Decoded(outs, 1)
    ensures Flatten(outs, 1) == outs[0].value.hostedZones
    ensures Gathered(outs, 1) == outs[0].value.hostedZones
  {
    var a := outs[0].value.hostedZones;
    assert Flatten(outs, 1) == [] + a == a;
    ReusedHoldsEveryPageSoFar(outs, 1);
    assert Gathered(outs, 1) == [] + Reused(outs, 1).hostedZones;
  }

  /**
   * Two pages A (truncated) then B: the loop as written returns A, A, B, where each page
   * once would be A, B.
   */
  lemma {:induction false} TwoPagesRepeatFirst(outs: seq<Outcome>)
    requires |outs| == 2 && outs[0].Success? && outs[1].Success?
    requires outs[0].value.isTruncated && !outs[1].value.isTruncated
    ensures EndsListing(outs) && StopIndex(outs) == 1
    ensures var a, b := outs[0].value.hostedZones, outs[1].value.hostedZones;
      Gathered(outs, 2) == a + a + b && Flatten(outs, 2) == a + b
  {
    StopsAfterSecondCall(outs);
    assert Decoded(outs, 2);
    FirstPageGathered(outs);
    ReusedHoldsEveryPageSoFar(outs, 2);
  }

  /** Every zone of `zones`, bound to the client. */
  function Bound(zones: seq<HostedZone>, r53: Client): (r: seq<HostedZone>)
    ensures |r| == |zones|
    ensures forall i | 0 <= i < |r| :: r[i] == zones[i].(r53 := Some(r53))
  {
    seq(|zones|, i requires 0 <= i < |zones| => zones[i].(r53 := Some(r53)))
  }

  /**
   * The listing as evidently intended: a fresh response struct for every call, and the
   * back-reference set on the returned zones themselves. The result is each page's zones
   * once, in fetch order, bound to the client.
   */
  method ListHostedZonesFresh(r53: Client, script: seq<Exchange<ListHostedZonesResponse>>)
    returns (zones: seq<HostedZone>, err: Option<Error>, calls: seq<Request>)
    requires EndsListing(Outcomes(script))
    ensures var outs := Outcomes(script); var last := StopIndex(outs);
      && calls == Calls(outs, last + 1)
      && (outs[last].Failure? ==> zones == [] && err == Some(outs[last].error))
      && (outs[last].Success? ==> zones == Bound(Flatten(outs, last + 1), r53) && err == None)
  {
    ghost var outs := Outcomes(script);
    var req := ListHostedZonesCall(None);
    var xmlRes := EmptyListing;
    zones := [];
    calls := [req];
    FirstCall(outs);
    OutcomeOfCall(script, 0, None);
    var outcome := RunOutcome(req, script[0]);
    if outcome.Failure? {
      assert StopIndex(outs) == 0;
      return [], Some(outcome.error), calls;
    }
    xmlRes := outcome.value;
    zones := zones + xmlRes.hostedZones;
    err := None;
    var n := 1;
    while xmlRes.isTruncated
      invariant 1 <= n <= StopIndex(outs) + 1 && Decoded(outs, n)
      invariant calls == Calls(outs, n)
      invariant xmlRes == outs[n - 1].value && zones == Flatten(outs, n)
      invariant xmlRes.isTruncated <==> n <= StopIndex(outs)
      invariant req.httpMethod == "GET" && req.path == ZonesPath && req.body.None?
      decreases StopIndex(outs) + 1 - n
    {
      NextCall(outs, n);
      var marker := xmlRes.nextMarker;
      req := req.(params := Some(map["marker" := [marker]]));
      assert req == ListHostedZonesCall(Some(marker));
      calls := calls + [req];
      assert calls == Calls(outs, n + 1);
      OutcomeOfCall(script, n, Some(marker));
      outcome := RunOutcome(req, script[n]);
      if outcome.Failure? {
        assert StopIndex(outs) == n;
        return [], Some(outcome.error), calls;
      }
      xmlRes := outcome.value;
      zones := zones + xmlRes.hostedZones;
      assert zones == Flatten(outs, n + 1);
      n := n + 1;
    }
    assert n == StopIndex(outs) + 1;
    zones := BindAll(zones, r53);
  }

  /** The corrected form of the loop at the end of the listing: each zone itself gets the client. */
  method BindAll(unbound: seq<HostedZone>, r53: Client) returns (zones: seq<HostedZone>)
    ensures zones == Bound(unbound, r53)
  {
    zones := unbound;
    for i := 0 to |zones|
      invariant |zones| == |unbound|
      invariant forall k | 0 <= k < i :: zones[k] == unbound[k].(r53 := Some(r53))
      invariant forall k | i <= k < |zones| :: zones[k] == unbound[k]
    {
      zones := zones[i := zones[i].(r53 := Some(r53))];
    }
  }
}
