/**
 * Resource-record-set operations (records.go): the change batch, the one-page listing and
 * the create/delete conveniences built on the change batch.
 */
module Records {
  import opened Wrappers
  import opened Types
  import opened Request
  import Zones

  /** `/2012-12-12/hostedzone/<id>/rrset`, with the zone's id used as stored. */
  function RRSetPath(z: HostedZone): string {
    Zones.ZonesPath + "/" + z.id + "/rrset"
  }

  function ChangeRRSetCall(z: HostedZone, changes: seq<RRSetChange>, comment: string): (r: Request)
    ensures r.httpMethod == "POST" && r.path == RRSetPath(z) && r.params.None?
    ensures r.body == Some(Types.ChangeRRSetRequest(comment, changes))
  {
    Request("POST", RRSetPath(z), None, Some(Types.ChangeRRSetRequest(comment, changes)))
  }

  /**
   * Submits a change batch for zone `z` (whose client must be set: a nil one panics). The
   * change comes back as decoded, so its client is never set.
   */
  function ChangeRRSetRequest(z: HostedZone, changes: seq<RRSetChange>, comment: string,
                              x: Exchange<ChangeRRSetResponse>): (r: Ret<ChangeInfo>)
    requires z.r53.Some?
    ensures var out := RunOutcome(ChangeRRSetCall(z, changes, comment), x);
      && (r.err.Some? <==> out.Failure?)
      && (out.Failure? ==> r == Ret(ZeroChangeInfo, Some(out.error)))
      && (out.Success? ==> r.value == out.value.changeInfo)
    ensures r.value.r53.None?
  {
    match RunOutcome(ChangeRRSetCall(z, changes, comment), x)
    case Failure(err) => Ret(ZeroChangeInfo, Some(err))
    case Success(res) => Ret(res.changeInfo, None)
  }

  /**
   * The change batch as evidently intended, with the returned change bound to the zone's
   * client like the changes of `Zones.CreateHostedZone` and `Zones.DeleteHostedZone`.
   */
  function ChangeRRSetRequestBound(z: HostedZone, changes: seq<RRSetChange>, comment: string,
                                   x: Exchange<ChangeRRSetResponse>): (r: Ret<ChangeInfo>)
    requires z.r53.Some?
    ensures var out := RunOutcome(ChangeRRSetCall(z, changes, comment), x);
      && (r.err.Some? <==> out.Failure?)
      && (out.Failure? ==> r == Ret(ZeroChangeInfo, Some(out.error)))
      && (out.Success? ==> r.value == out.value.changeInfo.(r53 := z.r53))
    ensures r.err.None? ==> r.value.r53.Some?
  {
    match RunOutcome(ChangeRRSetCall(z, changes, comment), x)
    case Failure(err) => Ret(ZeroChangeInfo, Some(err))
    case Success(res) => Ret(res.changeInfo.(r53 := z.r53), None)
  }

  /** The two differ only in the client of a successful change. */
  lemma BindingOnlySetsClient(z: HostedZone, changes: seq<RRSetChange>, comment: string,
                              x: Exchange<ChangeRRSetResponse>)
    requires z.r53.Some?
    ensures ChangeRRSetRequestBound(z, changes, comment, x).err == ChangeRRSetRequest(z, changes, comment, x).err
    ensures ChangeRRSetRequestBound(z, changes, comment, x).value.(r53 := None)
         == ChangeRRSetRequest(z, changes, comment, x).value
  {
  }

  function ListRRSetCall(z: HostedZone): (r: Request)
    ensures r.httpMethod == "GET" && r.path == RRSetPath(z) && r.params.None? && r.body.None?
  {
    Request("GET", RRSetPath(z), None, None)
  }

  const TruncatedRRSets: Error := Error("cannot handle truncated responses")

  /**
   * One page of record sets: run's error, or the truncation error, or the page's record
   * sets. The loop that should bind each record set to `z` assigns to a copy, so every
   * returned record set still has no zone.
   */
  method ListRRSet(z: HostedZone, x: Exchange<ListRRSetResponse>) returns (r: Ret<seq<RRSet>>)
    requires z.r53.Some?
    ensures var out := RunOutcome(ListRRSetCall(z), x);
      && (out.Failure? ==> r == Ret([], Some(out.error)))
      && (out.Success? && out.value.isTruncated ==> r == Ret([], Some(TruncatedRRSets)))
      && (out.Success? && !out.value.isTruncated ==> r == Ret(out.value.rrsets, None))
    ensures forall i | 0 <= i < |r.value| :: r.value[i].zone.None?
  {
    match RunOutcome(ListRRSetCall(z), x) {
      case Failure(err) =>
        return Ret([], Some(err));
      case Success(xmlRes) =>
        if xmlRes.isTruncated {
          return Ret([], Some(TruncatedRRSets));
        }
        for i := 0 to |xmlRes.rrsets| {
          var rrset: RRSet := xmlRes.rrsets[i];
          rrset := rrset.(zone := Some(z));
        }
        r := Ret(xmlRes.rrsets, None);
    }
  }

  /** Every record set of `rrsets`, bound to zone `z`. */
  function WithZone(rrsets: seq<RRSet>, z: HostedZone): (r: seq<RRSet>)
    ensures |r| == |rrsets|
    ensures forall i | 0 <= i < |r| :: r[i] == rrsets[i].(zone := Some(z))
  {
    seq(|rrsets|, i requires 0 <= i < |rrsets| => rrsets[i].(zone := Some(z)))
  }

  /** The listing as evidently intended: the loop binds the returned record sets themselves. */
  method ListRRSetBound(z: HostedZone, x: Exchange<ListRRSetResponse>) returns (r: Ret<seq<RRSet>>)
    requires z.r53.Some?
    ensures var out := RunOutcome(ListRRSetCall(z), x);
      && (out.Failure? ==> r == Ret([], Some(out.error)))
      && (out.Success? && out.value.isTruncated ==> r == Ret([], Some(TruncatedRRSets)))
      && (out.Success? && !out.value.isTruncated ==> r == Ret(WithZone(out.value.rrsets, z), None))
  {
    match RunOutcome(ListRRSetCall(z), x) {
      case Failure(err) =>
        return Ret([], Some(err));
      case Success(xmlRes) =>
        if xmlRes.isTruncated {
          return Ret([], Some(TruncatedRRSets));
        }
        var rrsets: seq<RRSet> := xmlRes.rrsets;
        for i := 0 to |rrsets|
          invariant |rrsets| == |xmlRes.rrsets|
          invariant forall k | 0 <= k < i :: rrsets[k] == xmlRes.rrsets[k].(zone := Some(z))
          invariant forall k | i <= k < |rrsets| :: rrsets[k] == xmlRes.rrsets[k]
        {
          rrsets := rrsets[i := rrsets[i].(zone := Some(z))];
        }
        assert rrsets == WithZone(xmlRes.rrsets, z);
        r := Ret(rrsets, None);
    }
  }

  function CreateRRSetCall(z: HostedZone, rrset: RRSet, comment: string): Request {
    ChangeRRSetCall(z, [RRSetChange("CREATE", rrset)], comment)
  }

  /**
   * A batch of exactly one CREATE of `rrset` for zone `z`. It returns what `ChangeRRSetRequest`
   * returns, so a successful change comes back without a client and cannot be polled.
   */
  function CreateRRSet(z: HostedZone, rrset: RRSet, comment: string, x: Exchange<ChangeRRSetResponse>): (r: Ret<ChangeInfo>)
    requires z.r53.Some?
    ensures var out := RunOutcome(CreateRRSetCall(z, rrset, comment), x);
      && (r.err.Some? <==> out.Failure?)
      && (out.Failure? ==> r == Ret(ZeroChangeInfo, Some(out.error)))
      && (out.Success? ==> r.value == out.value.changeInfo)
    ensures r.value.r53.None?
    ensures CreateRRSetCall(z, rrset, comment).body.value.changes == [RRSetChange("CREATE", rrset)]
  {
    ChangeRRSetRequest(z, [RRSetChange("CREATE", rrset)], comment, x)
  }

  /** `CreateRRSet` as evidently intended: the successful change is bound to the zone's client. */
  function CreateRRSetBound(z: HostedZone, rrset: RRSet, comment: string, x: Exchange<ChangeRRSetResponse>): (r: Ret<ChangeInfo>)
    requires z.r53.Some?
    ensures var out := RunOutcome(CreateRRSetCall(z, rrset, comment), x);
      && (r.err.Some? <==> out.Failure?)
      && (out.Failure? ==> r == Ret(ZeroChangeInfo, Some(out.error)))
      && (out.Success? ==> r.value == out.value.changeInfo.(r53 := z.r53))
    ensures r.err.None? ==> r.value.r53 == z.r53
  {
    ChangeRRSetRequestBound(z, [RRSetChange("CREATE", rrset)], comment, x)
  }

  /** A record set can be deleted only through its zone, whose client must be set. */
  predicate Deletable(rrset: RRSet) {
    rrset.zone.Some? && rrset.zone.value.r53.Some?
  }

  function DeleteCall(rrset: RRSet, comment: string): Request
    requires rrset.zone.Some?
  {
    ChangeRRSetCall(rrset.zone.value, [RRSetChange("DELETE", rrset)], comment)
  }

  /**
   * A batch of exactly one DELETE of `rrset`, sent for the zone the record set belongs to. Like
   * `CreateRRSet`, a successful change comes back without a client.
   */
  function Delete(rrset: RRSet, comment: string, x: Exchange<ChangeRRSetResponse>): (r: Ret<ChangeInfo>)
    requires Deletable(rrset)
    ensures var out := RunOutcome(DeleteCall(rrset, comment), x);
      && (r.err.Some? <==> out.Failure?)
      && (out.Failure? ==> r == Ret(ZeroChangeInfo, Some(out.error)))
      && (out.Success? ==> r.value == out.value.changeInfo)
    ensures r.value.r53.None?
    ensures DeleteCall(rrset, comment).path == RRSetPath(rrset.zone.value)
    ensures DeleteCall(rrset, comment).body.value.changes == [RRSetChange("DELETE", rrset)]
  {
    ChangeRRSetRequest(rrset.zone.value, [RRSetChange("DELETE", rrset)], comment, x)
  }

  /** `Delete` as evidently intended: the successful change is bound to the zone's client. */
  function DeleteBound(rrset: RRSet, comment: string, x: Exchange<ChangeRRSetResponse>): (r: Ret<ChangeInfo>)
    requires Deletable(rrset)
    ensures var out := RunOutcome(DeleteCall(rrset, comment), x);
      && (r.err.Some? <==> out.Failure?)
      && (out.Failure? ==> r == Ret(ZeroChangeInfo, Some(out.error)))
      && (out.Success? ==> r.value == out.value.changeInfo.(r53 := rrset.zone.value.r53))
    ensures r.err.None? ==> r.value.r53 == rrset.zone.value.r53
  {
    ChangeRRSetRequestBound(rrset.zone.value, [RRSetChange("DELETE", rrset)], comment, x)
  }

  /**
   * Deleting a record set bound to zone `z` goes to the same path as creating it there, and
   * carries the same record set (the zone back-reference is not serialised) with the opposite action.
   */
  lemma DeleteUndoesCreate(z: HostedZone, rrset: RRSet, comment: string)
    requires z.r53.Some?
    ensures var bound := rrset.(zone := Some(z));
      && Deletable(bound)
      && DeleteCall(bound, comment).path == CreateRRSetCall(z, rrset, comment).path
      && DeleteCall(bound, comment).body.value.changes[0].action == "DELETE"
      && CreateRRSetCall(z, rrset, comment).body.value.changes[0].action == "CREATE"
      && DeleteCall(bound, comment).body.value.changes[0].rrset.(zone := None)
         == CreateRRSetCall(z, rrset, comment).body.value.changes[0].rrset.(zone := None)
  {
  }

  /** What the bound listing returns can be deleted, each in the listed zone. */
  lemma {:induction false} ListedWithZoneAreDeletable(z: HostedZone, rrsets: seq<RRSet>, i: nat)
    requires z.r53.Some? && i < |rrsets|
    ensures Deletable(WithZone(rrsets, z)[i])
    ensures DeleteCall(WithZone(rrsets, z)[i], "").path == RRSetPath(z)
  {
    assert WithZone(rrsets, z)[i].zone == Some(z);
  }
}
