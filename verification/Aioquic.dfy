/** The aioquic backend: handlers for headers, datagrams and WebTransport stream data. */
module Aioquic {
  import opened Lists
  import opened Bytes
  import opened Negotiation

  datatype Event =
    | Headers(streamId: nat, headers: seq<Header>)
    | Datagram(sessionId: nat, data: seq<byte>)
    | StreamData(sessionId: nat, streamId: nat, data: seq<byte>, ended: bool)
    | Other

  /** What the handler sends. A server unidirectional stream is named by its creation rank, and
      `client` is the client stream whose event it answers. */
  datatype Sent =
    | Respond(streamId: nat, headers: seq<Header>, ended: bool)
    | HealthBody(streamId: nat, body: string, ended: bool)
    | DatagramOut(sessionId: nat, data: seq<byte>)
    | BidiOut(sessionId: nat, client: nat, data: seq<byte>, ended: bool)
    | UniOut(sessionId: nat, client: nat, rank: nat, data: seq<byte>, ended: bool)

  /** `stream_is_unidirectional`: bit 1 of the stream id (section 2.1 of RFC 9000). */
  predicate IsUni(id: nat) {
    id / 2 % 2 == 1
  }

  predicate Accepts(e: Event) {
    e.Headers? && PythonDecision(e.headers) == Accept
  }

  /** A session has been accepted when some CONNECT on its stream was. */
  predicate Accepted(es: seq<Event>, sessionId: nat) {
    exists i :: 0 <= i < |es| && Accepts(es[i]) && es[i].streamId == sessionId
  }

  const NO_STORE: Header := ("cache-control", "no-store")
  const HEALTH_HEADERS: seq<Header> :=
    [(":status", "200"), ("content-type", "text/plain; charset=utf-8"), ("content-length", "3"), NO_STORE]

  /** One event after the events es: at most one stream or datagram is answered, and only inside a
      session accepted by then. */
  ghost function Reaction(es: seq<Event>, uniStreams: nat, e: Event): seq<Sent> {
    match e
    case Headers(id, headers) =>
      (match PythonDecision(headers)
       case Health => [Respond(id, HEALTH_HEADERS, false), HealthBody(id, "ok\n", true)]
       case Accept =>
         var path := PythonPath(headers);
         [Respond(id, Reference(path, PythonYggdrasil(path, headers), Last(HeaderMap(headers), "origin")), false)]
       case Reject => [Respond(id, [(":status", "404"), NO_STORE], true)])
    case Datagram(sid, data) =>
      if Accepted(es, sid) then [DatagramOut(sid, data)] else []
    case StreamData(sid, id, data, ended) =>
      if Accepted(es, sid) then [AnswerTo(e, uniStreams)] else []
    case Other => []
  }

  /** A client unidirectional chunk is answered on a fresh server stream, a bidirectional one on its own. */
  function AnswerTo(e: Event, uniStreams: nat): (o: Sent)
    requires e.StreamData?
  {
    if IsUni(e.streamId) then UniOut(e.sessionId, e.streamId, uniStreams, e.data, e.ended)
    else BidiOut(e.sessionId, e.streamId, e.data, e.ended)
  }

  function UniCount(out: seq<Sent>): nat {
    Count(out, (o: Sent) => o.UniOut?)
  }

  ghost function Outputs(es: seq<Event>): seq<Sent> {
    if es == [] then []
    else
      var before := Outputs(es[..|es| - 1]);
      before + Reaction(es[..|es| - 1], UniCount(before), es[|es| - 1])
  }

  lemma OutputsSnoc(es: seq<Event>, e: Event)
    ensures Outputs(es + [e]) == Outputs(es) + Reaction(es, UniCount(Outputs(es)), e)
  {
    assert (es + [e])[..|es|] == es;
  }

  lemma AcceptedSnoc(es: seq<Event>, e: Event, sid: nat)
    ensures Accepted(es + [e], sid) <==> Accepted(es, sid) || (Accepts(e) && e.streamId == sid)
  {
    if Accepted(es, sid) {
      var i :| 0 <= i < |es| && Accepts(es[i]) && es[i].streamId == sid;
      assert (es + [e])[i] == es[i];
    }
    if Accepts(e) && e.streamId == sid { assert (es + [e])[|es|] == e; }
  }

  class EchoProtocol {
    var sessions: map<nat, string>
    var sent: seq<Sent>
    /** Server unidirectional streams created so far. */
    var created: nat
    ghost var seen: seq<Event>

    ghost predicate Valid()
      reads this
    {
      && (forall sid: nat :: sid in sessions <==> Accepted(seen, sid))
      && sent == Outputs(seen) && created == UniCount(sent)
    }

    constructor ()
      ensures Valid() && seen == []
    {
      sessions, sent, created, seen := map[], [], 0, [];
    }

    method HandleHeaders(streamId: nat, headers: seq<Header>)
      modifies this`sessions, this`sent
      ensures sent == old(sent) + Reaction([], 0, Headers(streamId, headers))
      ensures sessions == if PythonDecision(headers) == Accept
                          then old(sessions)[streamId := PythonPath(headers)] else old(sessions)
    {
      var m := HeaderMap(headers);
      var verb, protocol := OrElse(Last(m, ":method"), ""), OrElse(Last(m, ":protocol"), "");
      var path := PythonPath(headers);
      if verb == "GET" && path == "/healthz" {
        sent := sent + [Respond(streamId, HEALTH_HEADERS, false)];
        sent := sent + [HealthBody(streamId, "ok\n", true)];
        return;
      }
      if verb == "CONNECT" && (protocol == "webtransport" || protocol == "webtransport-h3") && StartsWith(path, "/wt") {
        var response := PythonResponseHeaders(path, headers);
        sessions := sessions[streamId := path];
        sent := sent + [Respond(streamId, response, false)];
        return;
      }
      sent := sent + [Respond(streamId, [(":status", "404"), NO_STORE], true)];
    }

    method HandleDatagram(sessionId: nat, data: seq<byte>)
      modifies this`sent
      ensures sent == old(sent) + if sessionId in sessions then [DatagramOut(sessionId, data)] else []
    {
      if sessionId !in sessions { return; }
      sent := sent + [DatagramOut(sessionId, data)];
    }

    method HandleWebTransportStream(sessionId: nat, streamId: nat, data: seq<byte>, ended: bool)
      modifies this`sent, this`created
      ensures sent == old(sent) +
        if sessionId !in sessions then []
        else if IsUni(streamId) then [UniOut(sessionId, streamId, old(created), data, ended)]
        else [BidiOut(sessionId, streamId, data, ended)]
      ensures created == old(created) + if sessionId in sessions && IsUni(streamId) then 1 else 0
    {
      if sessionId !in sessions { return; }
      if IsUni(streamId) {
        var rank := created;
        created := created + 1;
        sent := sent + [UniOut(sessionId, streamId, rank, data, ended)];
      } else {
        sent := sent + [BidiOut(sessionId, streamId, data, ended)];
      }
    }

    method HandleEvent(e: Event)
      requires Valid()
      modifies this
      ensures Valid() && seen == old(seen) + [e]
    {
      hide PythonDecision, PythonPath, HeaderMap, Reference, PythonYggdrasil, Accepted, UniCount, Outputs;
      ghost var es, before := seen, sessions.Keys;
      assert forall sid: nat :: sid in before <==> Accepted(es, sid);
      match e {
        case Headers(id, headers) => HandleHeaders(id, headers);
        case Datagram(sid, data) => HandleDatagram(sid, data);
        case StreamData(sid, id, data, ended) => HandleWebTransportStream(sid, id, data, ended);
        case Other =>
      }
      seen := seen + [e];
      OutputsSnoc(es, e);
      assert sent == Outputs(seen);
      UniCountSnoc(es, e);
      SessionsSnoc(es, e, before, sessions.Keys);
    }
  }

  lemma SessionsSnoc(es: seq<Event>, e: Event, before: set<nat>, after: set<nat>)
    requires forall sid: nat :: sid in before <==> Accepted(es, sid)
    requires after == if Accepts(e) then before + {e.streamId} else before
    ensures forall sid: nat :: sid in after <==> Accepted(es + [e], sid)
  {
    forall sid: nat ensures sid in after <==> Accepted(es + [e], sid) {
      AcceptedSnoc(es, e, sid);
    }
  }

  lemma UniCountSnoc(es: seq<Event>, e: Event)
    ensures UniCount(Outputs(es + [e])) == UniCount(Outputs(es)) +
            if e.StreamData? && Accepted(es, e.sessionId) && IsUni(e.streamId) then 1 else 0
  {
    hide PythonDecision, PythonPath, HeaderMap, Reference, PythonYggdrasil, Accepted, Outputs;
    var k := UniCount(Outputs(es));
    var p := (o: Sent) => o.UniOut?;
    OutputsSnoc(es, e);
    CountAppend(Outputs(es), Reaction(es, k, e), p);
    UniReaction(es, k, e);
  }

  lemma UniReaction(es: seq<Event>, k: nat, e: Event)
    ensures UniCount(Reaction(es, k, e)) ==
            if e.StreamData? && Accepted(es, e.sessionId) && IsUni(e.streamId) then 1 else 0
  {
    hide PythonDecision, PythonPath, HeaderMap, Reference, PythonYggdrasil, Accepted, UniCount;
    UniCountFew(Reaction(es, k, e));
  }

  lemma UniCountFew(r: seq<Sent>)
    requires |r| <= 2
    ensures UniCount(r) == (if |r| > 0 && r[0].UniOut? then 1 else 0) + (if |r| > 1 && r[1].UniOut? then 1 else 0)
  {
    hide Count;
    var p := (o: Sent) => o.UniOut?;
    CountZero([], p);
    if |r| > 0 {
      CountSnoc([], r[0], p);
      assert [] + [r[0]] == [r[0]];
      if |r| == 2 {
        CountSnoc([r[0]], r[1], p);
        assert r == [r[0]] + [r[1]];
      } else {
        assert r == [r[0]];
      }
    } else {
      assert r == [];
    }
  }

  // ------------------------------------------------------------ every run

  /** The session an output speaks for. */
  predicate Speaks(o: Sent) {
    o.DatagramOut? || o.BidiOut? || o.UniOut?
  }

  /** Output number j is part of the reaction to event number k. */
  ghost predicate CausedBy(es: seq<Event>, j: nat, k: nat) {
    k < |es| && |Outputs(es[..k])| <= j < |Outputs(es[..k + 1])|
  }

  lemma CausedBySnoc(es: seq<Event>, e: Event, j: nat, k: nat)
    requires CausedBy(es, j, k)
    ensures CausedBy(es + [e], j, k) && (es + [e])[..k] == es[..k]
  {
    assert (es + [e])[..k] == es[..k] && (es + [e])[..k + 1] == es[..k + 1];
  }

  /** A reaction speaks only for sessions accepted by then. */
  lemma ReactionSpeaks(es: seq<Event>, k: nat, e: Event)
    ensures forall o :: o in Reaction(es, k, e) && Speaks(o) ==> Accepted(es, o.sessionId)
  {
    hide PythonDecision, PythonPath, HeaderMap, Reference, PythonYggdrasil, Accepted;
  }

  /** Whatever is echoed in a run belongs to a session whose CONNECT was accepted before the event
      that is echoed. */
  lemma {:induction false} EchoOnlyInAcceptedSessions(es: seq<Event>, j: nat) returns (k: nat)
    requires j < |Outputs(es)|
    ensures CausedBy(es, j, k)
    ensures Speaks(Outputs(es)[j]) ==> Accepted(es[..k], Outputs(es)[j].sessionId)
  {
    hide PythonDecision, PythonPath, HeaderMap, Reference, PythonYggdrasil, Accepted, UniCount, Reaction, Outputs;
    var n := |es| - 1;
    if es == [] { NoOutputs(es); }
    var before, e := es[..n], es[n];
    assert es == before + [e];
    OutputsSnoc(before, e);
    var u := UniCount(Outputs(before));
    if j < |Outputs(before)| {
      k := EchoOnlyInAcceptedSessions(before, j);
      CausedBySnoc(before, e, j, k);
    } else {
      k := n;
      assert es[..n + 1] == es;
      ReactionSpeaks(before, u, e);
      assert Outputs(es)[j] in Reaction(before, u, e);
    }
  }

  lemma NoOutputs(es: seq<Event>)
    requires es == []
    ensures Outputs(es) == []
  {
  }

  /** The value of a header, whatever the case of its name; names are sought in lower case. */
  function Value(headers: seq<Header>, name: string, default: string): string {
    OrElse(Last(HeaderMap(headers), name), default)
  }

  predicate IsHealthCheck(headers: seq<Header>) {
    Value(headers, ":method", "") == "GET" && BeforeFirst(Value(headers, ":path", "/"), '?') == "/healthz"
  }

  predicate IsSessionRequest(headers: seq<Header>) {
    && Value(headers, ":method", "") == "CONNECT"
    && Value(headers, ":protocol", "") in {"webtransport", "webtransport-h3"}
    && StartsWith(BeforeFirst(Value(headers, ":path", "/"), '?'), "/wt")
  }

  /** A session was accepted exactly when one of its requests asked for one in due form. */
  lemma AcceptedExactly(es: seq<Event>, sid: nat)
    ensures Accepted(es, sid) <==>
            exists i :: 0 <= i < |es| && es[i].Headers? && es[i].streamId == sid && IsSessionRequest(es[i].headers)
  {
    hide Last, HeaderMap, BeforeFirst;
    assert |"GET"| != |"CONNECT"|;
    forall e: Event ensures Accepts(e) <==> e.Headers? && IsSessionRequest(e.headers) {}
  }

  /** A health check gets its body and the end of its stream, a session request the headers of its path,
      anything else a 404 that ends its stream. */
  lemma RequestAnswer(es: seq<Event>, n: nat, id: nat, headers: seq<Header>)
    ensures Reaction(es, n, Headers(id, headers)) ==
            if IsHealthCheck(headers) then
              [Respond(id, [(":status", "200"), ("content-type", "text/plain; charset=utf-8"),
                            ("content-length", "3"), ("cache-control", "no-store")], false),
               HealthBody(id, "ok\n", true)]
            else if IsSessionRequest(headers) then [Respond(id, PythonConnectResponse(headers), false)]
            else [Respond(id, [(":status", "404"), ("cache-control", "no-store")], true)]
  {
    hide Last, HeaderMap, BeforeFirst, Reference, PythonYggdrasil;
    DecisionSpelled(headers);
    hide PythonDecision;
  }

  lemma DecisionSpelled(headers: seq<Header>)
    ensures PythonDecision(headers) == (if IsHealthCheck(headers) then Health
                                        else if IsSessionRequest(headers) then Accept
                                        else Reject)
  {
    hide Last, HeaderMap, BeforeFirst;
  }

  /** Datagrams and stream data come back unchanged exactly if their session was accepted before,
      unidirectional data on a new stream. */
  lemma DataAnswer(es: seq<Event>, n: nat, sid: nat, id: nat, data: seq<byte>, ended: bool)
    ensures Reaction(es, n, Datagram(sid, data)) == if Accepted(es, sid) then [DatagramOut(sid, data)] else []
    ensures Reaction(es, n, StreamData(sid, id, data, ended)) ==
            if !Accepted(es, sid) then []
            else if id % 4 == 2 || id % 4 == 3 then [UniOut(sid, id, n, data, ended)]
            else [BidiOut(sid, id, data, ended)]
    ensures Reaction(es, n, Other) == []
  {
    hide Accepted;
  }

  /** Event number i has its answer at its own place among all outputs. */
  lemma AnswerOfEvent(es: seq<Event>, i: nat)
    requires i < |es|
    ensures Outputs(es[..i]) + Reaction(es[..i], UniCount(Outputs(es[..i])), es[i]) <= Outputs(es)
  {
    hide Outputs, UniCount, Reaction;
    assert es[..i + 1] == es[..i] + [es[i]];
    OutputsSnoc(es[..i], es[i]);
    OutputsGrow(es, i + 1);
  }

  lemma {:induction false} OutputsGrow(es: seq<Event>, i: nat)
    requires i <= |es|
    ensures Outputs(es[..i]) <= Outputs(es)
    decreases |es|
  {
    hide Outputs, Reaction, UniCount;
    if i == |es| {
      assert es[..i] == es;
    } else {
      var n := |es| - 1;
      OutputsGrow(es[..n], i);
      assert es[..n][..i] == es[..i] && es == es[..n] + [es[n]];
      OutputsSnoc(es[..n], es[n]);
    }
  }

  /** The answers to one client stream, in the order they are sent. */
  ghost function Answers(es: seq<Event>, id: nat): seq<Sent> {
    Filter(Outputs(es), AnswersStream(id))
  }

  function AnswersStream(id: nat): Sent -> bool {
    (o: Sent) => (o.BidiOut? || o.UniOut?) && o.client == id
  }

  function DataOf(o: Sent): seq<byte> {
    if o.BidiOut? || o.UniOut? then o.data else []
  }

  predicate OnStream(e: Event, id: nat) {
    e.StreamData? && e.streamId == id
  }

  /** The bytes a client stream delivered, and how many of them came before its session was accepted. */
  function Input(es: seq<Event>, id: nat): seq<byte> {
    if es == [] then []
    else
      var (before, e) := (es[..|es| - 1], es[|es| - 1]);
      Input(before, id) + if OnStream(e, id) then e.data else []
  }

  function Early(es: seq<Event>, id: nat): (n: nat)
    ensures n <= |Input(es, id)|
  {
    if es == [] then 0
    else
      var (before, e) := (es[..|es| - 1], es[|es| - 1]);
      Early(before, id) + if OnStream(e, id) && !Accepted(before, e.sessionId) then |e.data| else 0
  }

  ghost predicate UsesSession(es: seq<Event>, id: nat, sid: nat) {
    forall i :: 0 <= i < |es| && OnStream(es[i], id) ==> es[i].sessionId == sid
  }

  lemma AnswersSnoc(es: seq<Event>, e: Event, id: nat)
    ensures Answers(es + [e], id) == Answers(es, id) +
            if OnStream(e, id) && Accepted(es, e.sessionId) then [AnswerTo(e, UniCount(Outputs(es)))] else []
  {
    hide PythonDecision, PythonPath, HeaderMap, Reference, PythonYggdrasil, Accepted, UniCount, Outputs, Filter;
    var r := Reaction(es, UniCount(Outputs(es)), e);
    OutputsSnoc(es, e);
    FilterAppend(Outputs(es), r, AnswersStream(id));
    FilterConstant(r, AnswersStream(id), OnStream(e, id) && Accepted(es, e.sessionId));
  }

  /** All bytes answered to a client stream, in order. */
  ghost function Output(es: seq<Event>, id: nat): seq<byte> {
    Flatten(Map(Answers(es, id), DataOf))
  }

  lemma OutputSnoc(es: seq<Event>, e: Event, id: nat)
    ensures Output(es + [e], id) == Output(es, id) +
            if OnStream(e, id) && Accepted(es, e.sessionId) then e.data else []
  {
    hide Accepted, UniCount, Outputs, Answers, Flatten;
    AnswersSnoc(es, e, id);
    var a := Answers(es, id);
    if OnStream(e, id) && Accepted(es, e.sessionId) {
      var o := AnswerTo(e, UniCount(Outputs(es)));
      assert Map(a + [o], DataOf) == Map(a, DataOf) + [e.data];
      FlattenSnoc(Map(a, DataOf), e.data);
    } else {
      assert a + [] == a;
    }
  }

  lemma InputSnoc(es: seq<Event>, e: Event, id: nat)
    ensures Input(es + [e], id) == Input(es, id) + if OnStream(e, id) then e.data else []
    ensures Early(es + [e], id) == Early(es, id) +
            if OnStream(e, id) && !Accepted(es, e.sessionId) then |e.data| else 0
  {
    assert (es + [e])[..|es|] == es;
  }

  /** A client stream is answered with its own bytes in order, except for those that came before
      its session was accepted; so all bytes are answered exactly when none came early. */
  lemma {:induction false} EchoIsInput(es: seq<Event>, id: nat, sid: nat)
    requires UsesSession(es, id, sid)
    ensures Output(es, id) == Input(es, id)[Early(es, id)..]
    ensures Early(es, id) == |Input(es, id)| || Accepted(es, sid)
    ensures Output(es, id) == Input(es, id) <==> Early(es, id) == 0
  {
    if es == [] {
      assert Answers(es, id) == [];
    } else {
      var n := |es| - 1;
      assert es == es[..n] + [es[n]];
      EchoIsInput(es[..n], id, sid);
      EchoStep(es[..n], es[n], id, sid);
    }
    hide *;
    WholeSlice(Input(es, id), Early(es, id));
  }

  lemma EchoStep(es: seq<Event>, e: Event, id: nat, sid: nat)
    requires OnStream(e, id) ==> e.sessionId == sid
    requires Output(es, id) == Input(es, id)[Early(es, id)..]
    requires Early(es, id) == |Input(es, id)| || Accepted(es, sid)
    ensures Output(es + [e], id) == Input(es + [e], id)[Early(es + [e], id)..]
    ensures Early(es + [e], id) == |Input(es + [e], id)| || Accepted(es + [e], sid)
  {
    hide Accepted, Output, Input, Early;
    OutputSnoc(es, e, id);
    InputSnoc(es, e, id);
    AcceptedSnoc(es, e, sid);
    SliceAppend(Input(es, id), Early(es, id), if OnStream(e, id) then e.data else []);
  }

  lemma SliceAppend(s: seq<byte>, k: nat, d: seq<byte>)
    requires k <= |s|
    ensures (s + d)[k..] == s[k..] + d && (s + d)[|s| + |d|..] == [] && s[|s|..] == []
  {
  }

  lemma WholeSlice(s: seq<byte>, k: nat)
    requires k <= |s|
    ensures s[k..] == s <==> k == 0
  {
    assert |s[k..]| == |s| - k;
  }

  /** The client closes a stream at most once, with its last event. */
  predicate WellEnded(es: seq<Event>, id: nat) {
    forall i, j :: 0 <= i < j < |es| && OnStream(es[i], id) && OnStream(es[j], id) ==> !es[i].ended
  }

  predicate Ended(es: seq<Event>, id: nat) {
    exists i :: 0 <= i < |es| && OnStream(es[i], id) && es[i].ended
  }

  predicate EndsIt(o: Sent) {
    (o.BidiOut? || o.UniOut?) && o.ended
  }

  lemma EndedSnoc(es: seq<Event>, e: Event, id: nat)
    ensures Ended(es + [e], id) <==> Ended(es, id) || (OnStream(e, id) && e.ended)
    ensures WellEnded(es + [e], id) ==> WellEnded(es, id) && (OnStream(e, id) ==> !Ended(es, id))
  {
    var t := es + [e];
    assert t[|es|] == e && forall i :: 0 <= i < |es| ==> t[i] == es[i];
    if Ended(es, id) {
      var i :| 0 <= i < |es| && OnStream(es[i], id) && es[i].ended;
      assert OnStream(t[i], id) && t[i].ended;
    }
  }

  lemma {:induction false} NoEarlierEnd(es: seq<Event>, id: nat)
    requires WellEnded(es, id)
    ensures var a := Answers(es, id);
            && (forall i :: 0 <= i < |a| ==> (if IsUni(id) then a[i].UniOut? else a[i].BidiOut?))
            && (forall i :: 0 <= i < |a| - 1 ==> !EndsIt(a[i]))
            && (forall i :: 0 <= i < |a| && EndsIt(a[i]) ==> Ended(es, id))
  {
    if es == [] {
      assert Answers(es, id) == [];
    } else {
      hide Accepted, UniCount, Outputs, Answers, WellEnded, Ended, IsUni;
      var n := |es| - 1;
      var before, e := es[..n], es[n];
      assert es == before + [e];
      EndedSnoc(before, e, id);
      NoEarlierEnd(before, id);
      AnswersSnoc(before, e, id);
      if OnStream(e, id) && Accepted(before, e.sessionId) {
        var a, o := Answers(before, id), AnswerTo(e, UniCount(Outputs(before)));
        LastEnded(a, o);
      } else {
        assert Answers(es, id) == Answers(before, id);
      }
    }
  }

  lemma LastEnded(a: seq<Sent>, o: Sent)
    requires (forall i :: 0 <= i < |a| ==> !EndsIt(a[i]))
    ensures forall i :: 0 <= i < |a + [o]| - 1 ==> !EndsIt((a + [o])[i])
  {
  }

  /** The client's end of the stream came inside a session accepted by then. */
  ghost predicate FinAccepted(es: seq<Event>, id: nat) {
    exists i :: FinAt(es, id, i)
  }

  predicate FinAt(es: seq<Event>, id: nat, i: int) {
    0 <= i < |es| && OnStream(es[i], id) && es[i].ended && Accepted(es[..i], es[i].sessionId)
  }

  lemma FinSnoc(es: seq<Event>, e: Event, id: nat)
    ensures FinAccepted(es + [e], id) <==>
      FinAccepted(es, id) || (OnStream(e, id) && e.ended && Accepted(es, e.sessionId))
    ensures FinAccepted(es, id) ==> Ended(es, id)
  {
    hide Accepted;
    var t := es + [e];
    assert t[..|es|] == es && t[|es|] == e;
    if i :| FinAt(es, id, i) {
      assert t[..i] == es[..i];
      assert FinAt(t, id, i);
    }
    if i :| FinAt(t, id, i) {
      if i < |es| {
        assert t[..i] == es[..i];
        assert FinAt(es, id, i);
      }
    }
    if OnStream(e, id) && e.ended && Accepted(es, e.sessionId) {
      assert FinAt(t, id, |es|);
    }
  }

  /** The reply to a stream is ended: its last answer is. */
  ghost predicate ReplyEnded(es: seq<Event>, id: nat) {
    var a := Answers(es, id);
    a != [] && EndsIt(a[|a| - 1])
  }

  lemma ReplyEndedSnoc(es: seq<Event>, e: Event, id: nat)
    ensures ReplyEnded(es + [e], id) <==>
            if OnStream(e, id) && Accepted(es, e.sessionId) then e.ended else ReplyEnded(es, id)
  {
    hide Accepted, UniCount, Outputs, Answers;
    AnswersSnoc(es, e, id);
    if OnStream(e, id) && Accepted(es, e.sessionId) {
      LastIs(Answers(es, id), AnswerTo(e, UniCount(Outputs(es))));
    } else {
      assert Answers(es + [e], id) == Answers(es, id);
    }
  }

  /** The reply is ended exactly when the client ended the stream inside an accepted session. */
  lemma {:induction false} ReplyEndedExactly(es: seq<Event>, id: nat)
    requires WellEnded(es, id)
    ensures ReplyEnded(es, id) <==> FinAccepted(es, id)
  {
    if es == [] {
      assert Answers(es, id) == [];
    } else {
      hide Accepted, ReplyEnded, WellEnded, Ended, FinAccepted;
      var n := |es| - 1;
      var before, e := es[..n], es[n];
      assert es == before + [e];
      EndedSnoc(before, e, id);
      FinSnoc(before, e, id);
      ReplyEndedExactly(before, id);
      ReplyEndedSnoc(before, e, id);
    }
  }

  /** All answers to a stream are of its own direction, none but the last is ended, and the last one is
      exactly when the client ended the stream inside an accepted session. */
  lemma OnlyLastEnded(es: seq<Event>, id: nat)
    requires WellEnded(es, id)
    ensures var a := Answers(es, id);
            && (forall i :: 0 <= i < |a| ==> (if IsUni(id) then a[i].UniOut? else a[i].BidiOut?))
            && (forall i :: 0 <= i < |a| - 1 ==> !EndsIt(a[i]))
            && (a != [] && EndsIt(a[|a| - 1]) <==> FinAccepted(es, id))
  {
    hide Answers, WellEnded, FinAccepted, IsUni, Ended;
    NoEarlierEnd(es, id);
    ReplyEndedExactly(es, id);
  }

  lemma LastIs(a: seq<Sent>, o: Sent)
    ensures a + [o] != [] && (a + [o])[|a + [o]| - 1] == o
  {
  }

  /** The echo of a stream is complete, bytes and end, exactly when no byte came before its session
      was accepted and the end did not either. */
  lemma EchoCompleteExactly(es: seq<Event>, id: nat, sid: nat)
    requires UsesSession(es, id, sid) && WellEnded(es, id)
    ensures Output(es, id) == Input(es, id) && ReplyEnded(es, id) <==> Early(es, id) == 0 && FinAccepted(es, id)
  {
    hide Output, Input, Early, ReplyEnded, FinAccepted, UsesSession, WellEnded;
    EchoIsInput(es, id, sid);
    ReplyEndedExactly(es, id);
  }

  const CONNECT_BASIC: seq<Header> := [(":method", "CONNECT"), (":protocol", "webtransport"), (":path", "/wt")]

  /** A stream without payload whose end overtakes the CONNECT: every byte is echoed, there being
      none, and the end is lost. */
  lemma LostEnd()
    ensures var es := [StreamData(0, 4, [], true), Headers(0, CONNECT_BASIC)];
            && WellEnded(es, 4) && Ended(es, 4) && Accepted(es, 0)
            && Output(es, 4) == Input(es, 4) && Early(es, 4) == 0
            && Answers(es, 4) == [] && !ReplyEnded(es, 4)
  {
    hide Accepts, Answers, Input, Early, Outputs, UniCount, Filter;
    var es := [StreamData(0, 4, [], true), Headers(0, CONNECT_BASIC)];
    ConnectAccepts();
    assert Accepts(es[1]);
    assert OnStream(es[0], 4) && es[0].ended;
    NothingAnswered(es);
  }

  lemma ConnectAccepts()
    ensures Accepts(Headers(0, CONNECT_BASIC))
  {
    hide PythonDecision;
    ConnectIsAccepted();
  }

  lemma NothingAnswered(es: seq<Event>)
    requires es == [StreamData(0, 4, [], true), Headers(0, CONNECT_BASIC)]
    ensures Answers(es, 4) == [] && Output(es, 4) == [] && Input(es, 4) == [] && Early(es, 4) == 0
  {
    hide Accepted, Answers, Input, Early, Outputs, UniCount;
    var e, h := es[0], es[1];
    NothingYet();
    assert es == [e] + [h] && [e] == [] + [e];
    AnswersSnoc([], e, 4);
    AnswersSnoc([e], h, 4);
    InputSnoc([], e, 4);
    InputSnoc([e], h, 4);
    assert Map([], DataOf) == [];
  }

  lemma NothingYet()
    ensures !Accepted([], 0) && Answers([], 4) == [] && Input([], 4) == [] && Early([], 4) == 0
  {
  }

  lemma ConnectIsAccepted()
    ensures PythonDecision(CONNECT_BASIC) == Accept
  {
    assert LowerCaseNames(CONNECT_BASIC) by {
      assert Lower(":method") == ":method" && Lower(":protocol") == ":protocol" && Lower(":path") == ":path";
    }
    LowerCaseMap(CONNECT_BASIC);
    hide HeaderMap, Lower;
    assert Index("/wt", '?') == 3;
    assert BeforeFirst("/wt", '?') == "/wt";
    assert Last(CONNECT_BASIC, ":path") == Some("/wt");
    var front := CONNECT_BASIC[..2];
    assert front == [(":method", "CONNECT"), (":protocol", "webtransport")];
    assert ":path"[1] == 'p' && ":protocol"[2] == 'r' && ":method"[1] == 'm' && ":path"[2] == 'a'
      && ":protocol"[1] == 'p';
    assert Last(front, ":protocol") == Some("webtransport");
    assert Last(CONNECT_BASIC, ":protocol") == Some("webtransport");
    assert front[..1] == [(":method", "CONNECT")];
    assert Last(front[..1], ":method") == Some("CONNECT");
    assert Last(front, ":method") == Some("CONNECT");
    assert Last(CONNECT_BASIC, ":method") == Some("CONNECT");
  }

  ghost function UniOutputs(es: seq<Event>): seq<Sent> {
    Filter(Outputs(es), (o: Sent) => o.UniOut?)
  }

  lemma UniOutputsSnoc(es: seq<Event>, e: Event)
    ensures UniOutputs(es + [e]) == UniOutputs(es) +
            if e.StreamData? && Accepted(es, e.sessionId) && IsUni(e.streamId)
            then [AnswerTo(e, UniCount(Outputs(es)))] else []
  {
    hide PythonDecision, PythonPath, HeaderMap, Reference, PythonYggdrasil, Accepted, UniCount, Outputs, Filter;
    var p := (o: Sent) => o.UniOut?;
    var r := Reaction(es, UniCount(Outputs(es)), e);
    OutputsSnoc(es, e);
    FilterAppend(Outputs(es), r, p);
    FilterConstant(r, p, e.StreamData? && Accepted(es, e.sessionId) && IsUni(e.streamId));
  }

  /** Every server unidirectional stream carries one answer: ranks are the creation order. */
  lemma {:induction false} RanksAreCreationOrder(es: seq<Event>)
    ensures var u := UniOutputs(es);
            |u| == UniCount(Outputs(es)) && forall i :: 0 <= i < |u| ==> u[i].UniOut? && u[i].rank == i
  {
    if es != [] {
      hide Accepted, Outputs, UniOutputs, UniCount;
      var n := |es| - 1;
      var before, e := es[..n], es[n];
      assert es == before + [e];
      RanksAreCreationOrder(before);
      UniOutputsSnoc(before, e);
      UniCountSnoc(before, e);
    }
  }
}
