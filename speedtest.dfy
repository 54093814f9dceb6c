/**
 * The speed test's progress accumulator: each JSON line the command-line tool
 * prints is one event, and the handler folds it into a single mutable result,
 * notifying the progress callback or the final-result callback on the way.
 *
 * Spawning the tool and parsing its output are not modelled; an event arrives
 * already parsed. Bandwidths and latencies are whole numbers here.
 */
module SpeedTest {
  import opened Wrappers

  /** A snapshot of the `Result` record. */
  datatype ResultValue = ResultValue(
    isp: Option<string>,
    location: Option<string>,
    serverName: Option<string>,
    download: Option<int>,
    upload: Option<int>,
    ping: Option<int>)

  const Initial: ResultValue := ResultValue(None, None, None, None, None, None)

  /**
   * One parsed output line: its `type` and the fields the handler reads
   * (`download` and `upload` are the `bandwidth` of the object of that name,
   * `serverName` is `server.name`, `latency` is `ping.latency`).
   */
  datatype Event = Event(
    kind: Option<string>,
    download: Option<int>,
    upload: Option<int>,
    isp: Option<string>,
    serverName: Option<string>,
    latency: Option<int>)

  /** Which callback fired, with the result as it stood at that moment. */
  datatype Notification = Progress(result: ResultValue) | Final(result: ResultValue)

  /** `bandwidth as number || undefined`: a zero or missing bandwidth becomes undefined. */
  function Bandwidth(b: Option<int>): (r: Option<int>)
    ensures r.Some? <==> b.Some? && b.value != 0
    ensures r.Some? ==> r == b
  {
    if b.Some? && b.value != 0 then b else None
  }

  /** The handler's effect on the result, and the callback it fires, if any. */
  function Apply(r: ResultValue, e: Event): (out: (ResultValue, Option<Notification>))
    ensures out.0.location == r.location
    ensures (e.kind.None? || e.kind == Some("")) ==> out == (r, None)
    ensures e.kind == Some("download") ==>
      out.0 == r.(download := Bandwidth(e.download)) && out.1 == Some(Progress(out.0))
    ensures e.kind == Some("upload") ==>
      out.0 == r.(upload := Bandwidth(e.upload)) && out.1 == Some(Progress(out.0))
    ensures e.kind == Some("testStart") ==>
      out.0 == r.(isp := e.isp, serverName := e.serverName) && out.1.None?
    ensures e.kind == Some("ping") ==>
      out.0 == r.(ping := e.latency) && out.1.None?
    ensures e.kind == Some("result") ==>
      out.0 == r.(download := Bandwidth(e.download), upload := Bandwidth(e.upload), ping := e.latency) &&
      out.1 == Some(Final(out.0))
    ensures e.kind.Some? && e.kind.value !in {"download", "upload", "testStart", "ping", "result"} ==>
      out == (r, None)
  {
    if e.kind.None? || e.kind.value == "" then (r, None)
    else
      var t := e.kind.value;
      if t == "download" then
        var r' := r.(download := Bandwidth(e.download));
        (r', Some(Progress(r')))
      else if t == "upload" then
        var r' := r.(upload := Bandwidth(e.upload));
        (r', Some(Progress(r')))
      else if t == "testStart" then
        (r.(isp := e.isp, serverName := e.serverName), None)
      else if t == "ping" then
        (r.(ping := e.latency), None)
      else if t == "result" then
        var r' := r.(download := Bandwidth(e.download), upload := Bandwidth(e.upload), ping := e.latency);
        (r', Some(Final(r')))
      else
        (r, None)
  }

  /** The result after a sequence of events, and the callbacks fired, in order. */
  function Fold(r: ResultValue, events: seq<Event>): (ResultValue, seq<Notification>)
    decreases |events|
  {
    if |events| == 0 then (r, [])
    else
      var (r1, n) := Apply(r, events[0]);
      var (r2, ns) := Fold(r1, events[1..]);
      (r2, (if n.Some? then [n.value] else []) + ns)
  }

  /** Whether an event fires a callback. */
  predicate Notifies(e: Event)
  {
    e.kind.Some? && e.kind.value in {"download", "upload", "result"}
  }

  function NotifyingCount(events: seq<Event>): nat
  {
    if |events| == 0 then 0 else (if Notifies(events[0]) then 1 else 0) + NotifyingCount(events[1..])
  }

  /** No event ever writes `location`. */
  lemma {:induction false} LocationNeverWritten(r: ResultValue, events: seq<Event>)
    ensures Fold(r, events).0.location == r.location
    decreases |events|
  {
    if |events| > 0 {
      LocationNeverWritten(Apply(r, events[0]).0, events[1..]);
    }
  }

  /** One callback fires per download, upload and result event, and none for any other. */
  lemma {:induction false} OneCallbackPerNotifyingEvent(r: ResultValue, events: seq<Event>)
    ensures |Fold(r, events).1| == NotifyingCount(events)
    decreases |events|
  {
    if |events| > 0 {
      OneCallbackPerNotifyingEvent(Apply(r, events[0]).0, events[1..]);
    }
  }

  /** The ISP and server name change only on a testStart event. */
  lemma {:induction false} IspOnlyFromTestStart(r: ResultValue, events: seq<Event>)
    requires forall i :: 0 <= i < |events| ==> events[i].kind != Some("testStart")
    ensures Fold(r, events).0.isp == r.isp && Fold(r, events).0.serverName == r.serverName
    decreases |events|
  {
    if |events| > 0 {
      IspOnlyFromTestStart(Apply(r, events[0]).0, events[1..]);
    }
  }

  /** The mutable `result` record of one run, with the callbacks fired so far. */
  class Run {
    var isp: Option<string>
    var location: Option<string>
    var serverName: Option<string>
    var download: Option<int>
    var upload: Option<int>
    var ping: Option<int>
    var notifications: seq<Notification>

    function Snapshot(): ResultValue
      reads this
    {
      ResultValue(isp, location, serverName, download, upload, ping)
    }

    /** The result starts with every field undefined. */
    constructor ()
      ensures Snapshot() == Initial
      ensures notifications == []
    {
      isp, location, serverName := None, None, None;
      download, upload, ping := None, None, None;
      notifications := [];
    }

    /** The stdout handler for one event. */
    method Step(e: Event)
      modifies this
      ensures Snapshot() == Apply(old(Snapshot()), e).0
      ensures notifications == old(notifications) +
        (if Apply(old(Snapshot()), e).1.Some? then [Apply(old(Snapshot()), e).1.value] else [])
    {
      var t := if e.kind.Some? && e.kind.value != "" then e.kind else None;
      if t.Some? {
        if t.value == "download" || t.value == "upload" {
          var bandwidth := Bandwidth(if t.value == "download" then e.download else e.upload);
          if t.value == "download" {
            download := bandwidth;
          } else {
            upload := bandwidth;
          }
          notifications := notifications + [Progress(Snapshot())];
        } else if t.value == "testStart" {
          isp := e.isp;
          serverName := e.serverName;
        } else if t.value == "ping" {
          ping := e.latency;
        } else if t.value == "result" {
          download := Bandwidth(e.download);
          upload := Bandwidth(e.upload);
          ping := e.latency;
          notifications := notifications + [Final(Snapshot())];
        }
      }
    }
  }
}
