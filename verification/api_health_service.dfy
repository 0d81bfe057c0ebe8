/** `ApiHealthService`: the last known health of the backend. Every health
    check publishes a new status record, replacing the previous one; the
    service never surfaces an error. */
module ApiHealthService {
  import opened Outcomes

  /** The decoded body of a `GET /health` reply. `NullBody` is a JSON
      `null`; absent fields are `None`. */
  datatype HealthBody =
    | NullBody
    | Body(status: Option<string>, device: Option<string>, damageClasses: Option<seq<string>>)

  /** What the HTTP layer delivers: a body, or a failure of any kind
      (unreachable host, non-2xx status, undecodable body). */
  datatype HealthReply = Reply(body: HealthBody) | Unreachable

  datatype HealthStatus = HealthStatus(
    isOnline: bool,
    status: string,
    device: Option<string>,
    damageClasses: Option<seq<string>>,
    lastChecked: int)

  /** The service as a value: the status its subject currently holds. */
  datatype HealthMonitor = HealthMonitor(current: HealthStatus)

  /** The status held before any check has answered. */
  function InitialStatus(now: int): (r: HealthStatus)
    ensures !r.isOnline && r.status == "unknown"
    ensures r.device.None? && r.damageClasses.None? && r.lastChecked == now
  {
    HealthStatus(false, "unknown", None, None, now)
  }

  /** A freshly constructed service. The constructor's own check is an
      ordinary `CheckHealth` applied when its reply arrives. */
  function NewMonitor(now: int): (m: HealthMonitor)
    ensures m.current == InitialStatus(now)
    ensures !IsApiOnline(m)
  {
    HealthMonitor(InitialStatus(now))
  }

  /** The status a reply maps to. A body reports online, with its status
      text when that is non-empty and "healthy" otherwise, and copies device
      and classes. A failed request, and a `null` body (reading a field of
      it throws inside the mapping, which the same handler catches), report
      offline with no details. */
  function StatusFor(reply: HealthReply, now: int): (r: HealthStatus)
    ensures r.isOnline <==> reply.Reply? && reply.body.Body?
    ensures r.lastChecked == now
    ensures r.isOnline ==>
              && (reply.body.status.Some? && reply.body.status.value != "" ==> r.status == reply.body.status.value)
              && (reply.body.status.None? || reply.body.status.value == "" ==> r.status == "healthy")
              && r.device == reply.body.device
              && r.damageClasses == reply.body.damageClasses
    ensures !r.isOnline ==> r.status == "offline" && r.device.None? && r.damageClasses.None?
    ensures r.status != ""
  {
    match reply
    case Reply(Body(status, device, classes)) =>
      var text := if status.Some? && status.value != "" then status.value else "healthy";
      HealthStatus(true, text, device, classes, now)
    case _ =>
      HealthStatus(false, "offline", None, None, now)
  }

  /** `checkHealth`: the status for the reply, returned to the caller and
      published as the monitor's current status. */
  function CheckHealth(m: HealthMonitor, reply: HealthReply, now: int): (r: (HealthStatus, HealthMonitor))
    ensures r.1.current == r.0
    ensures r.0.isOnline <==> reply.Reply? && reply.body.Body?
    ensures IsApiOnline(r.1) <==> reply.Reply? && reply.body.Body?
  {
    var status := StatusFor(reply, now);
    (status, HealthMonitor(status))
  }

  /** `isApiOnline`: read the current status. */
  function IsApiOnline(m: HealthMonitor): (r: bool)
    ensures r <==> m.current.isOnline
    ensures r ==> m.current != InitialStatus(m.current.lastChecked)
  {
    m.current.isOnline
  }

  /** A series of checks, each answered by the matching reply at the
      matching time. */
  function CheckAll(m: HealthMonitor, replies: seq<HealthReply>, times: seq<int>): HealthMonitor
    requires |replies| == |times|
    decreases |replies|
  {
    if |replies| == 0 then m
    else CheckAll(CheckHealth(m, replies[0], times[0]).1, replies[1..], times[1..])
  }

  // ----- Properties -----

  /** After any series of checks the monitor holds exactly the status of the
      last reply: earlier replies, online or not, leave no trace. */
  lemma {:induction false} LastCheckWins(m: HealthMonitor, replies: seq<HealthReply>, times: seq<int>)
    requires |replies| == |times| > 0
    ensures CheckAll(m, replies, times).current == StatusFor(replies[|replies| - 1], times[|times| - 1])
    ensures IsApiOnline(CheckAll(m, replies, times))
            <==> replies[|replies| - 1].Reply? && replies[|replies| - 1].body.Body?
    decreases |replies|
  {
    if |replies| > 1 {
      LastCheckWins(CheckHealth(m, replies[0], times[0]).1, replies[1..], times[1..]);
    }
  }

  /** The status text defaults only when the body gives none or an empty
      one. */
  lemma StatusTextExamples(now: int)
    ensures StatusFor(Reply(Body(Some("ok"), None, None)), now).status == "ok"
    ensures StatusFor(Reply(Body(Some(""), None, None)), now).status == "healthy"
    ensures StatusFor(Reply(Body(None, Some("cpu"), None)), now).device == Some("cpu")
    ensures !StatusFor(Reply(NullBody), now).isOnline
    ensures StatusFor(Unreachable, now).status == "offline"
  {
  }
}
