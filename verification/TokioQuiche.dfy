/** The connection loop of the tokio-quiche backend, over every interleaving of its events. */
module TokioQuiche {
  import opened Lists
  import opened Bytes
  import opened Varint
  import opened Negotiation

  const WT_UNI_STREAM_TYPE: u64 := 0x54
  const FIRST_SERVER_WT_UNI_STREAM_ID: nat := 15

  datatype Direction = Bidi | Uni

  datatype Event =
    | Headers(streamId: nat, headers: seq<Header>, headersSent: bool, bodySent: bool)
    | StreamData(sessionId: u64, streamId: nat, direction: Direction, data: seq<byte>, fin: bool)
    | ResetStream(streamId: nat)
    | StreamClosed(streamId: nat)
    | ConnectionError
    | ConnectionShutdown
    | Other

  datatype Command = StreamSend(streamId: nat, data: seq<byte>, fin: bool)

  datatype End = ChannelClosed | Shutdown | Failed

  // ---------------------------------------------------- what a history determines

  predicate IsUniFin(e: Event) {
    e.StreamData? && e.direction.Uni? && e.fin
  }

  /** The events that touch the payload of one unidirectional stream. */
  predicate Concerns(e: Event, id: nat) {
    match e
    case StreamData(_, s, Uni, _, _) => s == id
    case ResetStream(s) => s == id
    case StreamClosed(s) => s == id
    case _ => false
  }

  /** The history of one stream, with every other stream's events left out. */
  function History(es: seq<Event>, id: nat): seq<Event> {
    Filter(es, (e: Event) => Concerns(e, id))
  }

  /** A stream's data events since it was opened or last cleared by a fin, a reset or a close. */
  function Since(h: seq<Event>): (s: seq<Event>)
    ensures forall e :: e in s ==> e.StreamData?
  {
    if h == [] then []
    else
      var e := h[|h| - 1];
      if e.StreamData? && !e.fin then Since(h[..|h| - 1]) + [e] else []
  }

  function DataOf(e: Event): seq<byte> {
    if e.StreamData? then e.data else []
  }

  /** The session id of the first event and all bytes in order. */
  function Joined(s: seq<Event>): (u64, seq<byte>)
    requires s != [] && forall e :: e in s ==> e.StreamData?
  {
    assert s[0] in s;
    (s[0].sessionId, Flatten(Map(s, DataOf)))
  }

  /** The bytes a stream has delivered and not yet had echoed. */
  function Waiting(es: seq<Event>, id: nat): Option<(u64, seq<byte>)> {
    var s := Since(History(es, id));
    if s == [] then None else Some(Joined(s))
  }

  /** What the fin event e echoes after the events es. */
  function Echo(es: seq<Event>, e: Event): (u64, seq<byte>)
    requires IsUniFin(e)
  {
    Joined(Since(History(es, e.streamId)) + [e])
  }

  function Frame(echo: (u64, seq<byte>)): seq<byte> {
    Encode(WT_UNI_STREAM_TYPE) + Encode(echo.0) + echo.1
  }

  function UniFins(es: seq<Event>): nat {
    Count(es, IsUniFin)
  }

  function ServerId(k: nat): nat {
    FIRST_SERVER_WT_UNI_STREAM_ID + 4 * k
  }

  /** The commands queued for a whole event sequence. */
  function Commands(es: seq<Event>): seq<Command> {
    if es == [] then []
    else
      var (before, e) := (es[..|es| - 1], es[|es| - 1]);
      Commands(before) +
      if e.StreamData? && e.direction.Bidi? then [StreamSend(e.streamId, e.data, e.fin)]
      else if IsUniFin(e) then [StreamSend(ServerId(UniFins(before)), Frame(Echo(before, e)), true)]
      else []
  }

  function HeadersDecision(e: Event): Decision
    requires e.Headers?
  {
    RustDecision(Request(e.headers))
  }

  /** The headers every request is answered with. */
  ghost function ResponseTo(r: RequestHeaders): seq<Header> {
    match RustDecision(r)
    case Health => [(":status", "200")]
    case Reject => [(":status", "404")]
    case Accept => Reference(r.path.value, RustYggdrasil(r.path.value, r), r.origin)
  }

  /** What goes out on a request stream. */
  datatype OutboundFrame = HeadersFrame(headers: seq<Header>) | BodyFrame(text: string, fin: bool)

  /** The frames a request is answered with: headers first, then a body that ends the stream unless
      the request opened a session. Each is there only if it could be sent. */
  ghost function FramesFor(e: Event): seq<OutboundFrame>
    requires e.Headers?
  {
    if !e.headersSent then []
    else
      [HeadersFrame(ResponseTo(Request(e.headers)))] +
      (if !e.bodySent || HeadersDecision(e) == Accept then []
       else [BodyFrame(if HeadersDecision(e) == Health then "ok\n" else "", true)])
  }

  /** A session is open from its accepted CONNECT until its stream is reset or closed. */
  function SessionOpen(es: seq<Event>, id: nat): bool {
    if es == [] then false
    else
      var (before, e) := (es[..|es| - 1], es[|es| - 1]);
      SessionAfter(e, id, SessionOpen(before, id))
  }

  function SessionAfter(e: Event, id: nat, open: bool): bool {
    if e.Headers? && e.streamId == id && HeadersDecision(e) == Accept then true
    else if (e.ResetStream? || e.StreamClosed?) && e.streamId == id then false
    else open
  }

  /** Events after which the loop does not go on. */
  predicate Stops(e: Event) {
    e.ConnectionError? || e.ConnectionShutdown? ||
    (e.Headers? && (!e.headersSent || (HeadersDecision(e) == Health && !e.bodySent)))
  }

  predicate IsHealthCheck(headers: seq<Header>) {
    Last(headers, ":method") == Some("GET") && Last(headers, ":path") == Some("/healthz")
  }

  predicate IsSessionRequest(headers: seq<Header>) {
    && Last(headers, ":method") == Some("CONNECT")
    && Last(headers, ":protocol") in {Some("webtransport"), Some("webtransport-h3")}
    && Last(headers, ":path").Some? && StartsWith(Last(headers, ":path").value, "/wt")
  }

  /** An error or a shutdown of the connection stops the loop, and so do headers that could not be sent
      and the body of a health response that could not. Nothing else does, in particular not a 404
      whose body was lost. */
  lemma StopsExactly(e: Event)
    ensures Stops(e) <==> e.ConnectionError? || e.ConnectionShutdown? || (e.Headers? && !e.headersSent)
                          || (e.Headers? && IsHealthCheck(e.headers) && !e.bodySent)
    ensures e.Headers? ==>
              && (HeadersDecision(e) == Health <==> IsHealthCheck(e.headers))
              && (HeadersDecision(e) == Accept <==> IsSessionRequest(e.headers))
  {
    assert |"GET"| != |"CONNECT"|;
  }

  /** The three kinds of response, when they could be sent. */
  lemma FramesExactly(e: Event)
    requires e.Headers? && e.headersSent
    ensures IsHealthCheck(e.headers) && e.bodySent ==>
              FramesFor(e) == [HeadersFrame([(":status", "200")]), BodyFrame("ok\n", true)]
    ensures IsSessionRequest(e.headers) ==>
              var path := Last(e.headers, ":path").value;
              FramesFor(e) ==
              [HeadersFrame(Reference(path, RustYggdrasil(path, Request(e.headers)), Last(e.headers, "origin")))]
    ensures !IsHealthCheck(e.headers) && !IsSessionRequest(e.headers) && e.bodySent ==>
              FramesFor(e) == [HeadersFrame([(":status", "404")]), BodyFrame("", true)]
  {
    hide Stops, IsHealthCheck, Last, Reference, RustYggdrasil, RustDecision;
    StopsExactly(e);
  }

  lemma HistorySnoc(es: seq<Event>, e: Event, id: nat)
    ensures History(es + [e], id) == if Concerns(e, id) then History(es, id) + [e] else History(es, id)
  {
    FilterSnoc(es, e, (x: Event) => Concerns(x, id));
  }

  lemma MapSnoc(s: seq<Event>, e: Event)
    ensures Map(s + [e], DataOf) == Map(s, DataOf) + [DataOf(e)]
  {
  }

  lemma JoinedSnoc(s: seq<Event>, e: Event)
    requires e.StreamData? && forall x :: x in s ==> x.StreamData?
    ensures Joined(s + [e]) ==
            if s == [] then (e.sessionId, e.data) else (Joined(s).0, Joined(s).1 + e.data)
  {
    var t := s + [e];
    assert t[0] == if s == [] then e else s[0];
    MapSnoc(s, e);
    FlattenSnoc(Map(s, DataOf), e.data);
    if s == [] {
      assert Map(s, DataOf) == [] && [] + e.data == e.data;
    }
  }

  /** One more event changes the waiting bytes of its own stream only. */
  lemma WaitingSnoc(es: seq<Event>, e: Event, id: nat)
    ensures Waiting(es + [e], id) ==
            if !Concerns(e, id) then Waiting(es, id)
            else if !e.StreamData? || e.fin then None
            else if Waiting(es, id).None? then Some((e.sessionId, e.data))
            else Some((Waiting(es, id).value.0, Waiting(es, id).value.1 + e.data))
    ensures Concerns(e, id) && IsUniFin(e) ==>
            Echo(es, e) == if Waiting(es, id).None? then (e.sessionId, e.data)
                           else (Waiting(es, id).value.0, Waiting(es, id).value.1 + e.data)
  {
    HistorySnoc(es, e, id);
    if Concerns(e, id) {
      var h := History(es, id);
      assert (h + [e])[..|h|] == h;
      if e.StreamData? { JoinedSnoc(Since(h), e); }
    }
  }

  lemma CommandsSnoc(es: seq<Event>, e: Event)
    ensures Commands(es + [e]) == Commands(es) +
            if e.StreamData? && e.direction.Bidi? then [StreamSend(e.streamId, e.data, e.fin)]
            else if IsUniFin(e) then [StreamSend(ServerId(UniFins(es)), Frame(Echo(es, e)), true)]
            else []
    ensures UniFins(es + [e]) == UniFins(es) + if IsUniFin(e) then 1 else 0
  {
    assert (es + [e])[..|es|] == es;
    CountSnoc(es, e, IsUniFin);
  }

  /** The table of unfinished payloads is what each stream's own history says. */
  ghost predicate Tracks(m: map<nat, (u64, seq<byte>)>, es: seq<Event>) {
    forall id: nat :: Waiting(es, id) == if id in m then Some(m[id]) else None
  }

  ghost predicate TracksSessions(open: set<nat>, es: seq<Event>) {
    forall id: nat :: SessionOpen(es, id) <==> id in open
  }

  lemma SessionsSnoc(open: set<nat>, es: seq<Event>, e: Event, after: set<nat>)
    requires TracksSessions(open, es)
    requires forall id: nat :: id in after <==> SessionAfter(e, id, id in open)
    ensures TracksSessions(after, es + [e])
  {
    assert (es + [e])[..|es|] == es;
  }

  function Gathered(m: map<nat, (u64, seq<byte>)>, e: Event): (u64, seq<byte>)
    requires e.StreamData?
  {
    if e.streamId in m then (m[e.streamId].0, m[e.streamId].1 + e.data) else (e.sessionId, e.data)
  }

  lemma EchoIsGathered(m: map<nat, (u64, seq<byte>)>, es: seq<Event>, e: Event)
    requires Tracks(m, es) && IsUniFin(e)
    ensures Echo(es, e) == Gathered(m, e)
  {
    var id := e.streamId;
    assert Waiting(es, id) == if id in m then Some(m[id]) else None;
    WaitingSnoc(es, e, id);
  }

  lemma TracksSnoc(m: map<nat, (u64, seq<byte>)>, es: seq<Event>, e: Event, n: map<nat, (u64, seq<byte>)>)
    requires Tracks(m, es)
    requires forall id: nat :: !Concerns(e, id) ==> (id in n <==> id in m) && (id in n ==> n[id] == m[id])
    requires forall id: nat :: Concerns(e, id) && (!e.StreamData? || e.fin) ==> id !in n
    requires forall id: nat :: Concerns(e, id) && e.StreamData? && !e.fin ==> id in n && n[id] == Gathered(m, e)
    ensures Tracks(n, es + [e])
  {
    forall id: nat ensures Waiting(es + [e], id) == if id in n then Some(n[id]) else None {
      WaitingSnoc(es, e, id);
      assert Waiting(es, id) == if id in m then Some(m[id]) else None;
    }
  }

  /** The table after an event that is not unidirectional data. */
  function Dropped<T>(m: map<nat, T>, e: Event): map<nat, T> {
    if e.ResetStream? || e.StreamClosed? then m - {e.streamId} else m
  }

  lemma TracksOther(m: map<nat, (u64, seq<byte>)>, es: seq<Event>, e: Event)
    requires Tracks(m, es) && !(e.StreamData? && e.direction.Uni?)
    ensures Tracks(Dropped(m, e), es + [e])
  {
    TracksSnoc(m, es, e, Dropped(m, e));
  }

  // ------------------------------------------------------------------ the loop

  class EchoLoop {
    var sessions: map<nat, string>
    var uniPayloads: map<nat, (u64, seq<byte>)>
    var nextServerUniStreamId: nat
    /** `queue_stream_send` as a FIFO of commands. */
    var queue: seq<Command>
    ghost var seen: seq<Event>

    ghost predicate Valid()
      reads this
    {
      && Tracks(uniPayloads, seen)
      && TracksSessions(sessions.Keys, seen)
      && nextServerUniStreamId == ServerId(UniFins(seen))
      && queue == Commands(seen)
    }

    constructor ()
      ensures Valid() && seen == []
    {
      sessions, uniPayloads, queue, seen := map[], map[], [], [];
      nextServerUniStreamId := FIRST_SERVER_WT_UNI_STREAM_ID;
    }

    method QueueStreamSend(streamId: nat, data: seq<byte>, fin: bool)
      modifies this`queue
      ensures queue == old(queue) + [StreamSend(streamId, data, fin)]
    {
      queue := queue + [StreamSend(streamId, data, fin)];
    }

    /** The accept/reject decision. Returns false when the response could not be sent. */
    method HandleHeaders(e: Event) returns (ok: bool, frames: seq<OutboundFrame>)
      requires e.Headers?
      modifies this`sessions
      ensures ok == !Stops(e)
      ensures !ok || HeadersDecision(e) != Accept ==> sessions == old(sessions)
      ensures ok && HeadersDecision(e) == Accept ==>
        sessions == old(sessions)[e.streamId := Request(e.headers).path.value]
      ensures frames == FramesFor(e)
    {
      var request := FromHeaders(e.headers);
      var isHealth := request.verb == Some("GET") && request.path == Some("/healthz");
      var isWebTransport := request.verb == Some("CONNECT")
        && (request.protocol == Some("webtransport") || request.protocol == Some("webtransport-h3"))
        && request.path.Some? && StartsWith(request.path.value, "/wt");
      var status := if isHealth || isWebTransport then 200 else 404;
      var path := OrElse(request.path, "/");
      var response := RustResponseHeaders(path, request, status);
      assert response == ResponseTo(Request(e.headers));
      frames := [];
      if !e.headersSent { return false, frames; }
      frames := frames + [HeadersFrame(response)];
      assert frames == [HeadersFrame(response)] == [HeadersFrame(response)] + [];
      if isHealth {
        if !e.bodySent { return false, frames; }
        frames := frames + [BodyFrame("ok\n", true)];
        return true, frames;
      }
      if status != 200 {
        // a body that cannot be sent is not an error here
        if e.bodySent { frames := frames + [BodyFrame("", true)]; }
        return true, frames;
      }
      sessions := sessions[e.streamId := path];
      return true, frames;
    }

    /** Frames a payload and queues it on the next server-initiated stream. */
    method SendOnFreshStream(sessionId: u64, payload: seq<byte>)
      modifies this`nextServerUniStreamId, this`queue
      ensures nextServerUniStreamId == old(nextServerUniStreamId) + 4
      ensures queue ==
        old(queue) + [StreamSend(old(nextServerUniStreamId), Frame((sessionId, payload)), true)]
    {
      var serverStreamId := nextServerUniStreamId;
      nextServerUniStreamId := nextServerUniStreamId + 4;
      var out := new ByteVec();
      WriteVarint(WT_UNI_STREAM_TYPE, out);
      WriteVarint(sessionId, out);
      out.Extend(payload);
      assert out.data == Frame((sessionId, payload));
      QueueStreamSend(serverStreamId, out.data, true);
    }

    /** Appends a unidirectional chunk to its stream's entry, opening the entry when there is none. */
    method Gather(e: Event)
      requires e.StreamData?
      modifies this`uniPayloads
      ensures uniPayloads == old(uniPayloads)[e.streamId := Gathered(old(uniPayloads), e)]
    {
      var entry := if e.streamId in uniPayloads then uniPayloads[e.streamId] else (e.sessionId, []);
      uniPayloads := uniPayloads[e.streamId := (entry.0, entry.1 + e.data)];
      assert [] + e.data == e.data;
    }

    /** A unidirectional chunk: gathered, and on fin framed and queued on a fresh server stream. */
    method HandleUniData(e: Event)
      requires Valid() && e.StreamData? && e.direction.Uni?
      modifies this
      ensures Valid() && seen == old(seen) + [e]
    {
      hide Waiting, Echo, Frame, SessionOpen, Commands;
      ghost var es, m := seen, uniPayloads;
      CommandsSnoc(es, e);
      Gather(e);
      if e.fin {
        // the entry just written is there: the loop's `else { continue }` is unreachable
        assert e.streamId in uniPayloads;
        var (sessionId, payload) := uniPayloads[e.streamId];
        uniPayloads := uniPayloads - {e.streamId};
        SendOnFreshStream(sessionId, payload);
        EchoIsGathered(m, es, e);
      }
      TracksSnoc(m, es, e, uniPayloads);
      SessionsSnoc(sessions.Keys, es, e, sessions.Keys);
      seen := seen + [e];
    }

    /** A request; the loop gives up when its response cannot be sent. */
    method HandleHeadersEvent(e: Event) returns (ok: bool)
      requires Valid() && e.Headers?
      modifies this
      ensures ok == !Stops(e) && Valid() && seen == if ok then old(seen) + [e] else old(seen)
    {
      hide Waiting, Echo, Frame, SessionOpen, Commands, Tracks, TracksSessions, Request, HeadersDecision, Stops,
        FramesFor;
      ghost var es, m, open := seen, uniPayloads, sessions.Keys;
      var frames;
      ok, frames := HandleHeaders(e);
      if !ok { return; }
      seen := seen + [e];
      CommandsSnoc(es, e);
      TracksOther(m, es, e);
      SessionsSnoc(open, es, e, sessions.Keys);
    }

    /** A bidirectional chunk goes straight back on its own stream. */
    method HandleBidiData(e: Event)
      requires Valid() && e.StreamData? && e.direction.Bidi?
      modifies this
      ensures Valid() && seen == old(seen) + [e]
    {
      hide Waiting, Echo, Frame, SessionOpen, Commands, Tracks, TracksSessions, Request, RustDecision,
        Reference, RustYggdrasil;
      ghost var es, m, open := seen, uniPayloads, sessions.Keys;
      QueueStreamSend(e.streamId, e.data, e.fin);
      seen := seen + [e];
      CommandsSnoc(es, e);
      TracksOther(m, es, e);
      SessionsSnoc(open, es, e, sessions.Keys);
    }

    /** A reset or closed stream is forgotten. */
    method HandleGone(e: Event)
      requires Valid() && (e.ResetStream? || e.StreamClosed?)
      modifies this
      ensures Valid() && seen == old(seen) + [e]
    {
      hide Waiting, Echo, Frame, SessionOpen, Commands, Tracks, TracksSessions, Request, RustDecision,
        Reference, RustYggdrasil;
      ghost var es, m, open := seen, uniPayloads, sessions.Keys;
      sessions := sessions - {e.streamId};
      uniPayloads := uniPayloads - {e.streamId};
      seen := seen + [e];
      CommandsSnoc(es, e);
      TracksOther(m, es, e);
      SessionsSnoc(open, es, e, sessions.Keys);
    }

    /** Events that are only logged. */
    method HandleLogged(e: Event)
      requires Valid() && e.Other?
      modifies this
      ensures Valid() && seen == old(seen) + [e]
    {
      hide Waiting, Echo, Frame, SessionOpen, Commands, Tracks, TracksSessions, Request, RustDecision,
        Reference, RustYggdrasil;
      ghost var es, m, open := seen, uniPayloads, sessions.Keys;
      seen := seen + [e];
      CommandsSnoc(es, e);
      TracksOther(m, es, e);
      SessionsSnoc(open, es, e, sessions.Keys);
    }

    /** Serves the events up to the first one that stops the loop; all of them when the connection
        stays up and every response could be sent. */
    method ServeConnection(events: seq<Event>) returns (end: End, n: nat)
      requires Valid() && seen == []
      modifies this
      ensures (forall e :: e in events ==>
                 !e.ConnectionError? && !e.ConnectionShutdown? && (e.Headers? ==> e.headersSent && e.bodySent)) ==>
                n == |events| && end == ChannelClosed && queue == Commands(events)
      ensures n <= |events| && (forall i :: 0 <= i < n ==> !Stops(events[i]))
      ensures if n == |events| then end == ChannelClosed
              else Stops(events[n]) && end == if events[n].ConnectionShutdown? then Shutdown else Failed
      ensures Valid() && seen == events[..n] && queue == Commands(events[..n])
    {
      hide Waiting, Commands, SessionOpen, Request, RustDecision, Stops, IsHealthCheck, Last;
      forall e ensures Stops(e) <==> e.ConnectionError? || e.ConnectionShutdown? || (e.Headers? && !e.headersSent)
                                     || (e.Headers? && IsHealthCheck(e.headers) && !e.bodySent) {
        StopsExactly(e);
      }
      n := 0;
      while n < |events|
        invariant n <= |events| && Valid() && seen == events[..n]
        invariant forall i :: 0 <= i < n ==> !Stops(events[i])
      {
        var e := events[n];
        assert events[..n + 1] == events[..n] + [e];
        if e.ConnectionError? { return Failed, n; }
        if e.ConnectionShutdown? { return Shutdown, n; }
        match e {
          case StreamData(_, _, Uni, _, _) => HandleUniData(e);
          case StreamData(_, _, Bidi, _, _) => HandleBidiData(e);
          case Headers(_, _, _, _) =>
            var ok := HandleHeadersEvent(e);
            if !ok { return Failed, n; }
          case ResetStream(_) => HandleGone(e);
          case StreamClosed(_) => HandleGone(e);
          case Other => HandleLogged(e);
        }
        n := n + 1;
      }
      assert events[..n] == events;
      return ChannelClosed, n;
    }
  }
}

/** What holds of every event sequence the tokio-quiche loop serves. */
module TokioRuns {
  import opened Lists
  import opened Bytes
  import opened Varint
  import opened Negotiation
  import opened Preface
  import opened TokioQuiche

  predicate IsBidiData(e: Event) {
    e.StreamData? && e.direction.Bidi?
  }

  lemma {:induction false} CommandsGrow(es: seq<Event>, i: nat)
    requires i <= |es|
    ensures Commands(es[..i]) <= Commands(es)
    ensures UniFins(es[..i]) <= UniFins(es)
  {
    var n := |es| - 1;
    if i <= n {
      CommandsGrow(es[..n], i);
      assert es[..n][..i] == es[..i];
      CommandsSnoc(es[..n], es[n]);
      assert es == es[..n] + [es[n]];
    } else {
      assert es[..i] == es;
    }
  }

  /** One command per bidi chunk and one per uni fin, nothing else. */
  lemma {:induction false} OneCommandEach(es: seq<Event>)
    ensures |Commands(es)| == Count(es, IsUniFin) + Count(es, IsBidiData)
  {
    if es != [] {
      var n := |es| - 1;
      OneCommandEach(es[..n]);
      CommandsSnoc(es[..n], es[n]);
      assert es == es[..n] + [es[n]];
    }
  }

  /** The fin at position i has its own place in the queue: it carries the stream type, the first
      session id and the stream's bytes in order, on the server stream numbered by the fins before. */
  lemma EchoOfFin(es: seq<Event>, i: nat)
    requires i < |es| && IsUniFin(es[i])
    ensures var at := |Commands(es[..i])|;
            at < |Commands(es)| &&
            Commands(es)[at] == StreamSend(15 + 4 * UniFins(es[..i]), Frame(Echo(es[..i], es[i])), true)
  {
    assert es[..i + 1] == es[..i] + [es[i]];
    CommandsSnoc(es[..i], es[i]);
    CommandsGrow(es, i + 1);
  }

  lemma FinsOrdered(es: seq<Event>, i: nat, j: nat)
    requires i < j <= |es| && IsUniFin(es[i])
    ensures UniFins(es[..i]) < UniFins(es[..j]) && |Commands(es[..i])| < |Commands(es[..j])|
  {
    assert es[..i + 1] == es[..i] + [es[i]];
    CommandsSnoc(es[..i], es[i]);
    assert es[..j][..i + 1] == es[..i + 1];
    CommandsGrow(es[..j], i + 1);
  }

  /** Server stream ids are server-initiated unidirectional ids, strictly increasing, never reused. */
  lemma ServerIdsIncrease(es: seq<Event>, i: nat, j: nat)
    requires i < j < |es| && IsUniFin(es[i]) && IsUniFin(es[j])
    ensures var (a, b) := (|Commands(es[..i])|, |Commands(es[..j])|);
            a < b < |Commands(es)| &&
            Commands(es)[a].streamId < Commands(es)[b].streamId &&
            Commands(es)[a].streamId % 4 == Commands(es)[b].streamId % 4 == 3
  {
    hide Commands, UniFins, Echo, Frame;
    var (a, b) := (|Commands(es[..i])|, |Commands(es[..j])|);
    FinsOrdered(es, i, j);
    assert a < |Commands(es)| && Commands(es)[a].streamId == 15 + 4 * UniFins(es[..i]) by { EchoOfFin(es, i); }
    assert b < |Commands(es)| && Commands(es)[b].streamId == 15 + 4 * UniFins(es[..j]) by { EchoOfFin(es, j); }
  }

  // ------------------------------------------------------------- the bidirectional echo

  /** A bidirectional chunk has its own place in the queue, on its own stream, unchanged. */
  lemma EchoOfChunk(es: seq<Event>, i: nat)
    requires i < |es| && IsBidiData(es[i])
    ensures var at := |Commands(es[..i])|;
            at < |Commands(es)| && Commands(es)[at] == StreamSend(es[i].streamId, es[i].data, es[i].fin)
  {
    assert es[..i + 1] == es[..i] + [es[i]];
    CommandsSnoc(es[..i], es[i]);
    CommandsGrow(es, i + 1);
  }

  function OnBidi(id: nat): Event -> bool {
    (e: Event) => IsBidiData(e) && e.streamId == id
  }

  function ToStream(id: nat): Command -> bool {
    (c: Command) => c.streamId == id
  }

  function ChunkSend(e: Event): Command {
    if e.StreamData? then StreamSend(e.streamId, e.data, e.fin) else StreamSend(0, [], false)
  }

  lemma ChunksSnoc(es: seq<Event>, e: Event, id: nat)
    ensures Map(Filter(es + [e], OnBidi(id)), ChunkSend) ==
            Map(Filter(es, OnBidi(id)), ChunkSend) +
            if IsBidiData(e) && e.streamId == id then [ChunkSend(e)] else []
  {
    hide Filter;
    FilterSnoc(es, e, OnBidi(id));
    var a := Filter(es, OnBidi(id));
    if IsBidiData(e) && e.streamId == id {
      assert Map(a + [e], ChunkSend) == Map(a, ChunkSend) + [ChunkSend(e)];
    } else {
      assert Map(a, ChunkSend) + [] == Map(a, ChunkSend);
    }
  }

  lemma SendsSnoc(es: seq<Event>, e: Event, id: nat)
    requires id % 4 != 3
    ensures Filter(Commands(es + [e]), ToStream(id)) ==
            Filter(Commands(es), ToStream(id)) +
            if IsBidiData(e) && e.streamId == id then [ChunkSend(e)] else []
  {
    hide Commands, Frame, Echo, UniFins, Filter;
    CommandsSnoc(es, e);
    var before := Commands(es);
    assert before + [] == before;
    if IsBidiData(e) {
      FilterSnoc(before, ChunkSend(e), ToStream(id));
    } else if IsUniFin(e) {
      FilterSnoc(before, StreamSend(ServerId(UniFins(es)), Frame(Echo(es, e)), true), ToStream(id));
    }
  }

  /** What is queued on a stream that is not one of the server's unidirectional ones is exactly its
      own bidirectional chunks, in order, each with its fin. */
  lemma {:induction false} StreamEcho(es: seq<Event>, id: nat)
    requires id % 4 != 3
    ensures Filter(Commands(es), ToStream(id)) == Map(Filter(es, OnBidi(id)), ChunkSend)
  {
    if es == [] {
      assert Commands(es) == [];
    } else {
      hide Commands, Filter;
      var n := |es| - 1;
      assert es == es[..n] + [es[n]];
      StreamEcho(es[..n], id);
      ChunksSnoc(es[..n], es[n], id);
      SendsSnoc(es[..n], es[n], id);
    }
  }

  function Payload(c: Command): seq<byte> {
    c.data
  }

  /** The bytes a client's bidirectional stream delivered, and whether it ended. */
  function BidiInput(es: seq<Event>, id: nat): seq<byte> {
    Flatten(Map(Filter(es, OnBidi(id)), DataOf))
  }

  predicate BidiEnded(es: seq<Event>, id: nat) {
    exists e :: e in es && IsBidiData(e) && e.streamId == id && e.fin
  }

  /** The bytes queued on a stream, and whether an end is queued with them. */
  function Reply(es: seq<Event>, id: nat): seq<byte> {
    Flatten(Map(Filter(Commands(es), ToStream(id)), Payload))
  }

  predicate ReplyEnded(es: seq<Event>, id: nat) {
    exists c :: c in Commands(es) && c.streamId == id && c.fin
  }

  /** The echo of a bidirectional stream is its input, ended exactly when the client ended it. */
  lemma ReplyIsInput(es: seq<Event>, id: nat)
    requires id % 4 != 3
    ensures Reply(es, id) == BidiInput(es, id)
    ensures ReplyEnded(es, id) <==> BidiEnded(es, id)
  {
    hide Commands, Filter, Flatten;
    StreamEcho(es, id);
    var chunks := Filter(es, OnBidi(id));
    var sends := Filter(Commands(es), ToStream(id));
    FilterMembers(es, OnBidi(id));
    FilterMembers(Commands(es), ToStream(id));
    forall i | 0 <= i < |chunks| ensures Map(sends, Payload)[i] == Map(chunks, DataOf)[i] {
      assert chunks[i] in chunks;
    }
    assert Map(sends, Payload) == Map(chunks, DataOf);
    if BidiEnded(es, id) {
      var e :| e in es && IsBidiData(e) && e.streamId == id && e.fin;
      assert e in chunks;
      var i :| 0 <= i < |chunks| && chunks[i] == e;
      assert sends[i] in sends;
    }
    if ReplyEnded(es, id) {
      var c :| c in Commands(es) && c.streamId == id && c.fin;
      assert c in sends;
      var i :| 0 <= i < |sends| && sends[i] == c;
      assert chunks[i] in chunks;
    }
  }

  lemma {:induction false} FilterTwice(s: seq<Event>, p: Event -> bool)
    ensures Filter(Filter(s, p), p) == Filter(s, p)
  {
    FilterMembers(s, p);
    FilterConstant(Filter(s, p), p, true);
  }

  /** Other streams cannot be seen: what waits on a stream, and what its fin echoes, is what the
      stream's own events give when they arrive alone. */
  lemma Isolation(es: seq<Event>, id: nat)
    ensures Waiting(es, id) == Waiting(History(es, id), id)
    ensures forall e :: IsUniFin(e) && e.streamId == id ==> Echo(es, e) == Echo(History(es, id), e)
  {
    FilterTwice(es, (e: Event) => Concerns(e, id));
  }

  // ------------------------------------------------------------- sessions and payloads, spelled out

  predicate Forgets(e: Event, id: nat) {
    (e.ResetStream? || e.StreamClosed?) && e.streamId == id
  }

  ghost predicate OpensAt(es: seq<Event>, id: nat, i: nat) {
    && i < |es| && es[i].Headers? && es[i].streamId == id && IsSessionRequest(es[i].headers)
    && forall e :: e in es[i + 1..] ==> !Forgets(e, id)
  }

  /** A session is open exactly when a CONNECT for it was accepted and its stream was neither reset nor
      closed since. */
  lemma {:induction false} SessionOpenExactly(es: seq<Event>, id: nat)
    ensures SessionOpen(es, id) <==> exists i: nat :: OpensAt(es, id, i)
  {
    hide IsSessionRequest, HeadersDecision, Stops;
    if es != [] {
      var n := |es| - 1;
      var before, e := es[..n], es[n];
      SessionOpenExactly(before, id);
      StopsExactly(e);
      if i: nat :| OpensAt(before, id, i) {
        assert es[i + 1..] == before[i + 1..] + [e];
        if !Forgets(e, id) { assert OpensAt(es, id, i); }
      }
      if i: nat :| OpensAt(es, id, i) {
        if i < n {
          assert es[i + 1..] == before[i + 1..] + [e];
          assert OpensAt(before, id, i);
        }
      }
      if e.Headers? && e.streamId == id && IsSessionRequest(e.headers) { assert OpensAt(es, id, n); }
    }
  }

  function OnUni(id: nat): Event -> bool {
    (e: Event) => e.StreamData? && e.direction.Uni? && e.streamId == id
  }

  /** The unidirectional chunks of a stream. */
  function UniChunks(es: seq<Event>, id: nat): (r: seq<Event>)
    ensures forall e :: e in r ==> e.StreamData?
  {
    FilterMembers(es, OnUni(id));
    Filter(es, OnUni(id))
  }

  /** The stream has no payload of before: nothing came, or the last event ended or dropped it. */
  predicate Fresh(es: seq<Event>, id: nat) {
    es == [] || Forgets(es[|es| - 1], id) || (OnUni(id)(es[|es| - 1]) && es[|es| - 1].fin)
  }

  predicate Unended(es: seq<Event>, id: nat) {
    forall e :: e in es ==> !Forgets(e, id) && (OnUni(id)(e) ==> !e.fin)
  }

  lemma NothingWaits(es: seq<Event>, id: nat)
    requires Fresh(es, id)
    ensures Waiting(es, id) == None
  {
    if es != [] {
      var n := |es| - 1;
      assert es == es[..n] + [es[n]];
      WaitingSnoc(es[..n], es[n], id);
    }
  }

  /** What waits on a stream is what came on it since it was last fresh: the first session id and all
      bytes, in order. */
  lemma {:induction false} WaitingExactly(before: seq<Event>, es: seq<Event>, id: nat)
    requires Fresh(before, id) && Unended(es, id)
    ensures var chunks := UniChunks(es, id);
            Waiting(before + es, id) ==
            if chunks == [] then None else Some((chunks[0].sessionId, Flatten(Map(chunks, DataOf))))
  {
    hide Waiting;
    if es == [] {
      assert before + es == before;
      NothingWaits(before, id);
    } else {
      hide Filter, Fresh;
      var n := |es| - 1;
      var e := es[n];
      assert es == es[..n] + [e] && before + es == before + es[..n] + [e];
      WaitingExactly(before, es[..n], id);
      WaitingSnoc(before + es[..n], e, id);
      ChunkSnoc(es[..n], e, id);
    }
  }

  lemma ChunkSnoc(es: seq<Event>, e: Event, id: nat)
    ensures UniChunks(es + [e], id) == UniChunks(es, id) + if OnUni(id)(e) then [e] else []
    ensures OnUni(id)(e) ==>
              var chunks := UniChunks(es, id);
              && Flatten(Map(chunks + [e], DataOf)) == Flatten(Map(chunks, DataOf)) + e.data
              && (chunks == [] ==> Flatten(Map(chunks + [e], DataOf)) == e.data)
  {
    FilterSnoc(es, e, OnUni(id));
    var chunks := UniChunks(es, id);
    MapSnoc(chunks, e);
    FlattenSnoc(Map(chunks, DataOf), DataOf(e));
    assert [] + DataOf(e) == DataOf(e);
  }

  /** A fin echoes everything since the stream was last fresh, its own bytes included, for the session
      the stream began with. */
  lemma EchoExactly(before: seq<Event>, es: seq<Event>, e: Event)
    requires IsUniFin(e) && Fresh(before, e.streamId) && Unended(es, e.streamId)
    ensures var chunks := UniChunks(es + [e], e.streamId);
            && chunks != []
            && Echo(before + es, e) == (chunks[0].sessionId, Flatten(Map(chunks, DataOf)))
  {
    hide Waiting, Fresh, Unended, Echo, UniChunks;
    var id := e.streamId;
    WaitingExactly(before, es, id);
    WaitingSnoc(before + es, e, id);
    ChunkSnoc(es, e, id);
  }

  // ------------------------------------------------------------- byte accounting

  function Size(o: Option<(u64, seq<byte>)>): nat {
    if o.None? then 0 else |o.value.1|
  }

  /** Payload bytes received on unidirectional streams, echoed by their fins, and discarded by
      resets and closes. */
  function Received(es: seq<Event>): nat {
    if es == [] then 0
    else
      var (before, e) := (es[..|es| - 1], es[|es| - 1]);
      Received(before) + if e.StreamData? && e.direction.Uni? then |e.data| else 0
  }

  function Echoed(es: seq<Event>): nat {
    if es == [] then 0
    else
      var (before, e) := (es[..|es| - 1], es[|es| - 1]);
      Echoed(before) + if IsUniFin(e) then |Echo(before, e).1| else 0
  }

  function Discarded(es: seq<Event>): nat {
    if es == [] then 0
    else
      var (before, e) := (es[..|es| - 1], es[|es| - 1]);
      Discarded(before) + if e.ResetStream? || e.StreamClosed? then Size(Waiting(before, e.streamId)) else 0
  }

  function SumBelow(f: nat -> nat, n: nat): nat {
    if n == 0 then 0 else SumBelow(f, n - 1) + f(n - 1)
  }

  /** Sums of functions that agree everywhere but at id. */
  lemma {:induction false} SumChanged(f: nat -> nat, g: nat -> nat, id: nat, n: nat)
    requires forall i: nat :: i != id ==> f(i) == g(i)
    ensures SumBelow(g, n) + (if id < n then f(id) else 0) == SumBelow(f, n) + (if id < n then g(id) else 0)
  {
    if n > 0 { SumChanged(f, g, id, n - 1); }
  }

  function WaitingSizes(es: seq<Event>): nat -> nat {
    (id: nat) => Size(Waiting(es, id))
  }

  /** Bytes waiting on the streams numbered below n. */
  function PendingBelow(es: seq<Event>, n: nat): nat {
    SumBelow(WaitingSizes(es), n)
  }

  /** An event moves the total only by what it does to the one stream it concerns, if any. */
  lemma PendingSnoc(es: seq<Event>, e: Event, id: nat, n: nat)
    requires id < n && forall i: nat :: Concerns(e, i) ==> i == id
    ensures PendingBelow(es + [e], n) + Size(Waiting(es, id)) == PendingBelow(es, n) + Size(Waiting(es + [e], id))
  {
    var f, g := WaitingSizes(es), WaitingSizes(es + [e]);
    forall i: nat | i != id ensures f(i) == g(i) {
      WaitingSnoc(es, e, i);
    }
    SumChanged(f, g, id, n);
  }

  /** At every step: bytes received = bytes echoed + bytes waiting + bytes discarded. */
  lemma {:induction false} BytesConserved(es: seq<Event>, n: nat)
    requires n > 0 && forall e, id: nat :: e in es && Concerns(e, id) ==> id < n
    ensures Received(es) == Echoed(es) + PendingBelow(es, n) + Discarded(es)
  {
    if es == [] {
      NothingPending(n);
    } else {
      var (before, e) := (es[..|es| - 1], es[|es| - 1]);
      assert es == before + [e];
      BytesConserved(before, n);
      assert e in es;
      BytesStep(before, e, n);
    }
  }

  /** What one event adds on either side. */
  lemma BytesStep(es: seq<Event>, e: Event, n: nat)
    requires n > 0 && forall id: nat :: Concerns(e, id) ==> id < n
    requires Received(es) == Echoed(es) + PendingBelow(es, n) + Discarded(es)
    ensures Received(es + [e]) == Echoed(es + [e]) + PendingBelow(es + [e], n) + Discarded(es + [e])
  {
    hide Waiting, Echo, PendingBelow;
    assert (es + [e])[..|es|] == es;
    var id := if e.ResetStream? || e.StreamClosed? || e.StreamData? then e.streamId else 0;
    PendingSnoc(es, e, if Concerns(e, id) then id else 0, n);
    WaitingSnoc(es, e, id);
    WaitingSnoc(es, e, 0);
  }

  lemma {:induction false} NothingPending(n: nat)
    ensures PendingBelow([], n) == 0
  {
    if n > 0 { NothingPending(n - 1); }
  }

  // -------------------------------------------------- one backend's writer, the other's reader

  /** A queued echo reads back as stream type, session id and payload exactly for session ids that
      RFC 9000 can encode. */
  lemma FrameReadsBackExactly(sessionId: u64, payload: seq<byte>)
    ensures Parse(Frame((sessionId, payload))) == Reading([WT_UNI_STREAM_TYPE, sessionId], [], payload)
            <==> sessionId < TWO62
  {
    hide Encode, Decode;
    var s := Frame((sessionId, payload));
    var rest := Encode(sessionId) + payload;
    assert s == Encode(WT_UNI_STREAM_TYPE) + rest;
    DecodeEncode(WT_UNI_STREAM_TYPE, rest);
    assert s[|Encode(WT_UNI_STREAM_TYPE)|..] == rest;
    DecodeEncode(sessionId, payload);
    assert s[|Encode(WT_UNI_STREAM_TYPE)| + |Encode(sessionId)|..] == payload;
  }

  /** The command that the fin at position i queues. */
  ghost function QueuedBy(es: seq<Event>, i: nat): Command
    requires i < |es| && IsUniFin(es[i])
  {
    EchoOfFin(es, i);
    Commands(es)[|Commands(es[..i])|]
  }

  /** Delivers the echo of a fin to the quinn backend's reader in chunks of any sizes. */
  method DeliverEcho(es: seq<Event>, i: nat, chunks: seq<seq<byte>>)
    returns (values: seq<nat>, payload: ByteVec, pending: seq<byte>)
    requires i < |es| && IsUniFin(es[i])
    requires Flatten(chunks) == QueuedBy(es, i).data
    requires Echo(es[..i], es[i]).0 < TWO62
    ensures values == [WT_UNI_STREAM_TYPE, Echo(es[..i], es[i]).0]
    ensures pending == [] && payload.data == Echo(es[..i], es[i]).1
  {
    hide Parse, Frame, Echo, Commands;
    EchoOfFin(es, i);
    ghost var echo := Echo(es[..i], es[i]);
    FrameReadsBackExactly(echo.0, echo.1);
    var reader := new PrefixReader();
    payload := new ByteVec();
    for k := 0 to |chunks|
      invariant reader.Valid() && reader.fed == Flatten(chunks[..k])
      invariant payload.data == reader.emitted
    {
      reader.Push(chunks[k], payload);
      assert chunks[..k + 1] == chunks[..k] + [chunks[k]];
      FlattenSnoc(chunks[..k], chunks[k]);
    }
    assert chunks[..|chunks|] == chunks;
    values, pending := reader.values, reader.pending;
  }
}
