/**
 The desktop application's Redis worker: the connection decision and the
 rule that turns the newest history entry and each channel message into a
 status for the light controller.  The HTTP password fetch and the Redis
 handshake are reduced to whether they succeeded.
 */
module Worker {
  import opened Common

  datatype Connection = Connected | Disconnected

  /** A bearer token is usable when it is present and not empty. */
  predicate HasToken(token: Option<string>) {
    token.Some? && token.value != ""
  }

  /**
   `connect_to_redis`: without a token the worker reports itself
   disconnected without trying; with one, it is connected exactly when the
   password fetch and the ping both succeed.
   */
  function ConnectToRedis(token: Option<string>, handshakeOk: bool): (r: Connection)
    ensures r == Connected <==> HasToken(token) && handshakeOk
  {
    if !HasToken(token) then Disconnected
    else if handshakeOk then Connected
    else Disconnected
  }

  /**
   The status announced at start-up from the newest history entry: an empty
   history announces `'normal'`; an entry's `status` is announced as is; an
   entry that does not decode, is not an object, or lacks `status` raises
   inside the guarded block, which only logs, so nothing is announced; a
   failed read announces nothing either.
   */
  function StartupStatus(h: History): (r: Option<Status>)
    ensures h.Latest? && !HasEntry(h.head) ==> r == Some("normal")
    ensures h.Unreachable? ==> r.None?
    ensures r.Some? && r.value != "normal" ==>
      h.Latest? && HasEntry(h.head) && h.head.value.body == Object(r)
    ensures h.Latest? && HasEntry(h.head) ==> (r.Some? <==> h.head.value.body.Object? && h.head.value.body.status.Some?)
    ensures h.Latest? && HasEntry(h.head) && h.head.value.body.Object? ==> r == h.head.value.body.status
  {
    match h
    case Unreachable => None
    case Latest(head) =>
      if !HasEntry(head) then Some("normal")
      else
        match head.value.body
        case Object(Some(s)) => Some(s)
        case _ => None
  }

  /**
   The status announced for one poll of the channel: data messages always
   announce one, their `status` when present and `'error'` when it is
   missing or the message cannot be read; other polls announce nothing.
   */
  function LiveStatus(e: Event): (r: Option<Status>)
    ensures r.Some? <==> e.Data?
    ensures e.Data? && e.body.Object? && e.body.status.Some? ==> r == e.body.status
    ensures e.Data? && !(e.body.Object? && e.body.status.Some?) ==> r == Some("error")
  {
    match e
    case Data(Object(Some(s))) => Some(s)
    case Data(_) => Some("error")
    case _ => None
  }

  /** The statuses announced for a sequence of polls, in order. */
  function LiveStatuses(events: seq<Event>): seq<Status>
  {
    if events == [] then []
    else
      var rest := LiveStatuses(events[..|events| - 1]);
      match LiveStatus(events[|events| - 1])
      case Some(s) => rest + [s]
      case None => rest
  }

  /** The number of data messages among the polls. */
  function DataCount(events: seq<Event>): nat
  {
    if events == [] then 0
    else DataCount(events[..|events| - 1]) + (if events[|events| - 1].Data? then 1 else 0)
  }

  /** Every data message announces exactly one status. */
  lemma {:induction false} LiveStatusesCount(events: seq<Event>)
    ensures |LiveStatuses(events)| == DataCount(events)
    decreases |events|
  {
    if events != [] {
      LiveStatusesCount(events[..|events| - 1]);
    }
  }

  /**
   `run`: connect, announce the start-up status, then announce a status for
   each data message until stopped.  Without a connection nothing is
   announced and the channel is never listened to.
   */
  method Run(token: Option<string>, handshakeOk: bool, history: History, events: seq<Event>)
    returns (connection: Connection, announced: seq<Status>)
    ensures connection == ConnectToRedis(token, handshakeOk)
    ensures !HasToken(token) ==> connection == Disconnected && announced == []
    ensures connection == Disconnected ==> announced == []
    ensures connection == Connected ==>
      announced == (if StartupStatus(history).Some? then [StartupStatus(history).value] else []) + LiveStatuses(events)
  {
    connection := ConnectToRedis(token, handshakeOk);
    announced := [];
    if connection == Disconnected {
      return;
    }
    var startup := StartupStatus(history);
    if startup.Some? {
      announced := [startup.value];
    }
    var start := announced;
    var i := 0;
    while i < |events|
      invariant 0 <= i <= |events|
      invariant announced == start + LiveStatuses(events[..i])
    {
      assert events[..i + 1][..i] == events[..i];
      var e := events[i];
      if e.Data? {
        var status := if e.body.Object? && e.body.status.Some? then e.body.status.value else "error";
        announced := announced + [status];
      }
      i := i + 1;
    }
    assert events[..|events|] == events;
  }
}
