/**
 * Change tracking (route53.go): `GetChange` and the decision rule of `PollForSync`.
 * The goroutine, ticker and timer are replaced by the sequence of events its `select`
 * delivers: a poll tick (with what that poll's round trip gives) or the timeout.
 */
module Route53 {
  import opened Wrappers
  import opened Types
  import opened Request
  import Strings

  const ChangePath: string := "/2012-12-12/change/"

  /** `GET /2012-12-12/change/<id>` with every "/change/" removed from the id. */
  function GetChangeCall(id: string): (r: Request)
    ensures r.httpMethod == "GET" && r.params.None? && r.body.None?
    ensures r.path == ChangePath + Strings.RemoveAll(id, "/change/")
  {
    Request("GET", ChangePath + Strings.RemoveAll(id, "/change/"), None, None)
  }

  /**
   * A bare change id is used verbatim, and the prefixed form "/change/<id>" the service
   * returns addresses the same change.
   */
  lemma {:induction false} GetChangeIdForms(id: string)
    requires !Strings.Occurs(id, "/change/")
    ensures GetChangeCall(id).path == ChangePath + id
    ensures GetChangeCall("/change/" + id) == GetChangeCall(id)
  {
    Strings.RemoveAllAbsent(id, "/change/");
    Strings.StripLeadingPattern("/change/", id);
  }

  /** The change record, or a zero `ChangeInfo` with run's error. */
  function GetChange(id: string, x: Exchange<GetChangeResponse>): (r: Ret<ChangeInfo>)
    ensures r.err.Some? <==> RunOutcome(GetChangeCall(id), x).Failure?
    ensures r.err.Some? ==> r.value == ZeroChangeInfo && r.err.value == RunOutcome(GetChangeCall(id), x).error
    ensures r.err.None? ==> r.value == RunOutcome(GetChangeCall(id), x).value.changeInfo
  {
    match RunOutcome(GetChangeCall(id), x)
    case Failure(err) => Ret(ZeroChangeInfo, Some(err))
    case Success(res) => Ret(res.changeInfo, None)
  }

  /** What the polling goroutine's `select` receives next. */
  datatype Event = Tick(reply: Exchange<GetChangeResponse>) | Timeout

  /** What has been sent on the result channel: nothing yet, or one error value (nil is `None`). */
  datatype Signal = Pending | Signalled(err: Option<Error>)

  const TimedOut: Error := Error("timed out")

  /** What handling one event sends: a failed poll's error, nil for "INSYNC", "timed out"; otherwise nothing. */
  function Verdict(c: ChangeInfo, e: Event): Signal {
    match e
    case Timeout => Signalled(Some(TimedOut))
    case Tick(x) =>
      var change := GetChange(c.id, x);
      if change.err.Some? then Signalled(change.err)
      else if change.value.status == "INSYNC" then Signalled(None)
      else Pending
  }

  /** The number of poll ticks among `events`. */
  function TickCount(events: seq<Event>): nat {
    if events == [] then 0
    else TickCount(events[..|events| - 1]) + (if events[|events| - 1].Tick? then 1 else 0)
  }

  /** The position of the first event that ends polling, if any. */
  function FirstTerminal(c: ChangeInfo, events: seq<Event>): (k: Option<nat>)
    ensures k.Some? ==> k.value < |events| && Verdict(c, events[k.value]).Signalled?
    ensures k.Some? ==> forall j | 0 <= j < k.value :: Verdict(c, events[j]) == Pending
    ensures k.None? ==> forall j | 0 <= j < |events| :: Verdict(c, events[j]) == Pending
  {
    if events == [] then None
    else if Verdict(c, events[0]).Signalled? then Some(0)
    else match FirstTerminal(c, events[1..])
      case None => None
      case Some(k) => Some(k + 1)
  }

  /** An event that signals after only pending ones is the first terminal event. */
  lemma {:induction false} FirstTerminalAt(c: ChangeInfo, events: seq<Event>, i: nat)
    requires i < |events| && Verdict(c, events[i]).Signalled?
    requires forall j | 0 <= j < i :: Verdict(c, events[j]) == Pending
    ensures FirstTerminal(c, events) == Some(i)
  {
  }

  /**
   * The polling loop over a given order of events. Each tick issues one `GetChange` for
   * `c.id`; the first failed poll, "INSYNC" status or timeout is signalled and ends the loop,
   * so at most one value is ever signalled and no poll follows it.
   * The source dereferences `c.r53` on every tick it handles, so a change without a client
   * panics on its first tick; it can still time out before any tick arrives.
   */
  method PollForSync(c: ChangeInfo, events: seq<Event>) returns (signal: Signal, polls: seq<Request>)
    requires c.r53.None? ==> events == [] || events[0].Timeout?
    ensures FirstTerminal(c, events).None? ==> signal == Pending && |polls| == TickCount(events)
    ensures FirstTerminal(c, events).Some? ==>
      var k := FirstTerminal(c, events).value;
      signal == Verdict(c, events[k]) && |polls| == TickCount(events[..k + 1])
    ensures forall i | 0 <= i < |polls| :: polls[i] == GetChangeCall(c.id)
  {
    signal, polls := Pending, [];
    var i := 0;
    while i < |events|
      invariant 0 <= i <= |events|
      invariant forall j | 0 <= j < i :: Verdict(c, events[j]) == Pending
      invariant |polls| == TickCount(events[..i])
      invariant forall p | 0 <= p < |polls| :: polls[p] == GetChangeCall(c.id)
    {
      assert events[..i + 1][..i] == events[..i];
      match events[i] {
        case Tick(x) =>
          polls := polls + [GetChangeCall(c.id)];
          var change := GetChange(c.id, x);
          if change.err.Some? {
            signal := Signalled(change.err);
            FirstTerminalAt(c, events, i);
            return;
          }
          if change.value.status == "INSYNC" {
            signal := Signalled(None);
            FirstTerminalAt(c, events, i);
            return;
          }
        case Timeout =>
          signal := Signalled(Some(TimedOut));
          FirstTerminalAt(c, events, i);
          return;
      }
      i := i + 1;
    }
    assert events[..i] == events;
  }

  /** Ticks in a prefix never exceed ticks in a longer prefix. */
  lemma {:induction false} TickCountMonotone(events: seq<Event>, i: nat, j: nat)
    requires i <= j <= |events|
    ensures TickCount(events[..i]) <= TickCount(events[..j])
    decreases j - i
  {
    if i < j {
      assert events[..j][..j - 1] == events[..j - 1];
      TickCountMonotone(events, i, j - 1);
    }
  }

  /**
   * A timeout always ends polling, at the latest when it arrives: a signal is sent and no
   * poll is issued for a tick after the timeout.
   */
  lemma TimeoutEndsPolling(c: ChangeInfo, events: seq<Event>, t: nat)
    requires t < |events| && events[t] == Timeout
    ensures FirstTerminal(c, events).Some? && FirstTerminal(c, events).value <= t
    ensures TickCount(events[..FirstTerminal(c, events).value + 1]) <= TickCount(events[..t])
  {
    assert Verdict(c, events[t]).Signalled?;
    var k := FirstTerminal(c, events).value;
    if k < t {
      TickCountMonotone(events, k + 1, t);
    } else {
      assert events[..t + 1][..t] == events[..t];
    }
  }

  /** Two pending polls then "INSYNC": success is signalled after exactly three polls. */
  lemma InSyncOnThirdPoll(c: ChangeInfo, x1: Exchange<GetChangeResponse>, x2: Exchange<GetChangeResponse>,
                          x3: Exchange<GetChangeResponse>, later: seq<Event>)
    requires GetChange(c.id, x1).err.None? && GetChange(c.id, x1).value.status == "PENDING"
    requires GetChange(c.id, x2).err.None? && GetChange(c.id, x2).value.status == "PENDING"
    requires GetChange(c.id, x3).err.None? && GetChange(c.id, x3).value.status == "INSYNC"
    ensures var events := [Tick(x1), Tick(x2), Tick(x3)] + later;
      && FirstTerminal(c, events) == Some(2)
      && Verdict(c, events[2]) == Signalled(None)
      && TickCount(events[..3]) == 3
  {
    var events := [Tick(x1), Tick(x2), Tick(x3)] + later;
    assert Verdict(c, events[0]) == Pending && Verdict(c, events[1]) == Pending;
    assert Verdict(c, events[2]) == Signalled(None);
    assert events[1..][1..] == events[2..];
    assert FirstTerminal(c, events[2..]) == Some(0);
    assert FirstTerminal(c, events[1..]) == Some(1);
    var one, two, three := [Tick(x1)], [Tick(x1), Tick(x2)], events[..3];
    assert one[..0] == [] && TickCount(one) == 1;
    assert two[..1] == one && TickCount(two) == 2;
    assert three[..2] == two && three[2].Tick?;
  }
}
