/** The HTTP/3 health client: waiters settled as events arrive. */
module HealthClient {
  import opened Lists
  import opened Bytes

  /** What a future is settled with. */
  datatype Settled =
    | Echoed(data: seq<byte>)
    | SessionId(id: nat)
    | Response(status: Option<nat>, body: seq<byte>)
    | Error

  datatype HttpEvent =
    | DatagramReceived(streamId: nat, data: seq<byte>)
    | HeadersReceived(streamId: nat, status: Option<nat>, ended: bool)
    | WebTransportData(streamId: nat, data: seq<byte>, ended: bool)
    | DataReceived(streamId: nat, data: seq<byte>, ended: bool)

  /** A QUIC event with the HTTP/3 events the library derives from it when it is asked to. */
  datatype Event =
    | StreamData(streamId: nat, data: seq<byte>, ended: bool, http: seq<HttpEvent>)
    | ConnectionTerminated
    | Other(http: seq<HttpEvent>)

  /** What one step shows to the waiters. */
  datatype Observation =
    | EchoData(streamId: nat, data: seq<byte>, ended: bool)
    | Closed
    | Elsewhere

  datatype Request = Request(body: seq<byte>, status: Option<nat>, waiter: nat)
  datatype StreamEcho = StreamEcho(body: seq<byte>, waiter: nat)

  /** Which call created a waiter. */
  datatype Owner = GetCall(id: nat) | OpenCall(id: nat) | BidiCall(id: nat) | DatagramCall(id: nat)

  predicate OnStream(o: Observation, id: nat) {
    o.EchoData? && o.streamId == id
  }

  /** The bytes observed on a stream. */
  function Collected(os: seq<Observation>, id: nat): seq<byte> {
    if os == [] then []
    else
      var o := os[|os| - 1];
      Collected(os[..|os| - 1], id) + if OnStream(o, id) then o.data else []
  }

  predicate Finished(os: seq<Observation>, id: nat) {
    exists i :: 0 <= i < |os| && OnStream(os[i], id) && os[i].ended
  }

  /** How an echo waiter is settled by what was observed since it was registered: by the first end
      of its stream with all bytes up to it, or by the connection's end if that comes first. */
  function EchoOutcome(os: seq<Observation>, id: nat): Option<Settled> {
    if os == [] then None
    else
      var (before, o) := (os[..|os| - 1], os[|os| - 1]);
      if EchoOutcome(before, id).Some? then EchoOutcome(before, id)
      else if OnStream(o, id) && o.ended then Some(Echoed(Collected(os, id)))
      else if o.Closed? then Some(Error)
      else None
  }

  lemma ObserveSnoc(os: seq<Observation>, o: Observation, id: nat)
    ensures Collected(os + [o], id) == Collected(os, id) + if OnStream(o, id) then o.data else []
    ensures Finished(os + [o], id) <==> Finished(os, id) || (OnStream(o, id) && o.ended)
    ensures EchoOutcome(os + [o], id) ==
            if EchoOutcome(os, id).Some? then EchoOutcome(os, id)
            else if OnStream(o, id) && o.ended then Some(Echoed(Collected(os, id) + o.data))
            else if o.Closed? then Some(Error)
            else None
  {
    var t := os + [o];
    assert t[..|os|] == os && t[|os|] == o;
    if Finished(os, id) {
      var i :| 0 <= i < |os| && OnStream(os[i], id) && os[i].ended;
      assert OnStream(t[i], id) && t[i].ended;
    }
  }

  /** An echo call: its waiter and how much of the log precedes it. */
  datatype Call = Call(waiter: nat, start: nat)

  /** Every registered waiter belongs to the call that registered it. */
  ghost predicate Registered(owners: seq<Owner>, requests: map<nat, Request>, sessions: map<nat, nat>,
                             echoes: map<nat, StreamEcho>, datagrams: map<nat, nat>)
  {
    && (forall s :: s in requests ==> requests[s].waiter < |owners| && owners[requests[s].waiter] == GetCall(s))
    && (forall s :: s in sessions ==> sessions[s] < |owners| && owners[sessions[s]] == OpenCall(s))
    && (forall s :: s in echoes ==> echoes[s].waiter < |owners| && owners[echoes[s].waiter] == BidiCall(s))
    && (forall s :: s in datagrams ==> datagrams[s] < |owners| && owners[datagrams[s]] == DatagramCall(s))
  }

  /** An echo call is where its stream's observations put it. */
  ghost predicate Follows(c: Call, s: nat, log: seq<Observation>, waiters: seq<Option<Settled>>,
                          owners: seq<Owner>, entry: Option<StreamEcho>)
  {
    && c.start <= |log| && c.waiter < |waiters| == |owners| && owners[c.waiter] == BidiCall(s)
    && waiters[c.waiter] == EchoOutcome(log[c.start..], s)
    && entry == if Finished(log[c.start..], s) then None else Some(StreamEcho(Collected(log[c.start..], s), c.waiter))
  }

  function Lookup<T>(m: map<nat, T>, s: nat): Option<T> {
    if s in m then Some(m[s]) else None
  }

  ghost predicate AllFollow(calls: map<nat, Call>, log: seq<Observation>, waiters: seq<Option<Settled>>,
                            owners: seq<Owner>, echoes: map<nat, StreamEcho>)
  {
    && echoes.Keys <= calls.Keys
    && forall s :: s in calls ==> Follows(calls[s], s, log, waiters, owners, Lookup(echoes, s))
  }

  lemma FollowsSnoc(c: Call, s: nat, log: seq<Observation>, o: Observation, waiters: seq<Option<Settled>>,
                    owners: seq<Owner>, entry: Option<StreamEcho>, waiters': seq<Option<Settled>>,
                    entry': Option<StreamEcho>)
    requires Follows(c, s, log, waiters, owners, entry)
    requires |waiters'| == |waiters|
    requires entry' == if OnStream(o, s) && entry.Some?
                       then (if o.ended then None else Some(entry.value.(body := entry.value.body + o.data)))
                       else entry
    requires OnStream(o, s) ==> entry.Some?
    requires waiters'[c.waiter] == if waiters[c.waiter].Some? then waiters[c.waiter]
                                   else if OnStream(o, s) && o.ended then Some(Echoed(entry.value.body + o.data))
                                   else if o.Closed? && entry.Some? then Some(Error)
                                   else None
    ensures Follows(c, s, log + [o], waiters', owners, entry')
  {
    hide EchoOutcome, Finished, Collected;
    assert (log + [o])[c.start..] == log[c.start..] + [o];
    ObserveSnoc(log[c.start..], o, s);
    FinishedIsSettled(log[c.start..], s);
    assert Collected(log[c.start..], s) + [] == Collected(log[c.start..], s);
  }

  /** `if not waiter.done(): waiter.set_result(v)` */
  function SettledAt(waiters: seq<Option<Settled>>, w: nat, v: Settled): (r: seq<Option<Settled>>)
    ensures |r| == |waiters|
  {
    if w < |waiters| && waiters[w].None? then waiters[w := Some(v)] else waiters
  }

  /** Data on a registered stream moves its own entry and waiter, and nobody else's. */
  lemma AllFollowData(calls: map<nat, Call>, log: seq<Observation>, waiters: seq<Option<Settled>>,
                      owners: seq<Owner>, echoes: map<nat, StreamEcho>, s: nat, data: seq<byte>, ended: bool)
    requires AllFollow(calls, log, waiters, owners, echoes) && s in echoes
    ensures var e := echoes[s].(body := echoes[s].body + data);
            && e.waiter < |waiters|
            && AllFollow(calls, log + [EchoData(s, data, ended)],
                         if ended then SettledAt(waiters, e.waiter, Echoed(e.body)) else waiters, owners,
                         if ended then echoes - {s} else echoes[s := e])
  {
    hide Follows;
    assert Follows(calls[s], s, log, waiters, owners, Lookup(echoes, s));
    OwnedBy(calls[s], s, log, waiters, owners, Lookup(echoes, s));
    var o := EchoData(s, data, ended);
    var e := echoes[s].(body := echoes[s].body + data);
    var waiters' := if ended then SettledAt(waiters, e.waiter, Echoed(e.body)) else waiters;
    var echoes' := if ended then echoes - {s} else echoes[s := e];
    forall t | t in calls ensures Follows(calls[t], t, log + [o], waiters', owners, Lookup(echoes', t)) {
      assert Follows(calls[t], t, log, waiters, owners, Lookup(echoes, t));
      OwnedBy(calls[t], t, log, waiters, owners, Lookup(echoes, t));
      FollowsSnoc(calls[t], t, log, o, waiters, owners, Lookup(echoes, t), waiters', Lookup(echoes', t));
    }
  }

  lemma EchoStaysRegistered(owners: seq<Owner>, requests: map<nat, Request>, sessions: map<nat, nat>,
                            echoes: map<nat, StreamEcho>, datagrams: map<nat, nat>, s: nat, data: seq<byte>,
                            waiters: seq<Option<Settled>>)
    requires Registered(owners, requests, sessions, echoes, datagrams) && s in echoes && |waiters| == |owners|
    ensures var e := echoes[s].(body := echoes[s].body + data);
            && Registered(owners, requests, sessions, echoes[s := e], datagrams)
            && Registered(owners, requests, sessions, echoes[s := e] - {s}, datagrams)
            && e.waiter < |waiters| && forall t :: t in sessions ==> sessions[t] != e.waiter && sessions[t] < |waiters|
  {
  }

  /** What happens elsewhere leaves every echo call where it was. */
  lemma AllFollowElsewhere(calls: map<nat, Call>, log: seq<Observation>, waiters: seq<Option<Settled>>,
                           owners: seq<Owner>, echoes: map<nat, StreamEcho>, waiters': seq<Option<Settled>>)
    requires AllFollow(calls, log, waiters, owners, echoes)
    requires |waiters'| == |waiters| == |owners|
    requires forall i :: 0 <= i < |owners| && owners[i].BidiCall? ==> waiters'[i] == waiters[i]
    ensures AllFollow(calls, log + [Elsewhere], waiters', owners, echoes)
  {
    hide Follows;
    forall t | t in calls ensures Follows(calls[t], t, log + [Elsewhere], waiters', owners, Lookup(echoes, t)) {
      assert Follows(calls[t], t, log, waiters, owners, Lookup(echoes, t));
      OwnedBy(calls[t], t, log, waiters, owners, Lookup(echoes, t));
      FollowsSnoc(calls[t], t, log, Elsewhere, waiters, owners, Lookup(echoes, t), waiters', Lookup(echoes, t));
    }
  }

  /** The end of the connection fails every echo still waiting. */
  lemma AllFollowClosed(calls: map<nat, Call>, log: seq<Observation>, waiters: seq<Option<Settled>>,
                        owners: seq<Owner>, echoes: map<nat, StreamEcho>, pending: set<nat>,
                        waiters': seq<Option<Settled>>)
    requires AllFollow(calls, log, waiters, owners, echoes)
    requires |waiters'| == |waiters| && forall s :: s in echoes ==> echoes[s].waiter in pending
    requires forall i :: 0 <= i < |waiters| ==>
      waiters'[i] == if i in pending && waiters[i].None? then Some(Error) else waiters[i]
    ensures AllFollow(calls, log + [Closed], waiters', owners, echoes)
  {
    hide Follows;
    forall t | t in calls ensures Follows(calls[t], t, log + [Closed], waiters', owners, Lookup(echoes, t)) {
      assert Follows(calls[t], t, log, waiters, owners, Lookup(echoes, t));
      OwnedBy(calls[t], t, log, waiters, owners, Lookup(echoes, t));
      SettledUnlessRegistered(calls[t], t, log, waiters, owners, Lookup(echoes, t));
      FollowsSnoc(calls[t], t, log, Closed, waiters, owners, Lookup(echoes, t), waiters', Lookup(echoes, t));
    }
  }

  lemma SettledUnlessRegistered(c: Call, s: nat, log: seq<Observation>, waiters: seq<Option<Settled>>,
                                owners: seq<Owner>, entry: Option<StreamEcho>)
    requires Follows(c, s, log, waiters, owners, entry)
    ensures entry.Some? || waiters[c.waiter].Some?
  {
    FinishedIsSettled(log[c.start..], s);
  }

  /** The waiters `connection_terminated` goes through. */
  function Pending(requests: map<nat, Request>, sessions: map<nat, nat>, echoes: map<nat, StreamEcho>,
                   datagrams: map<nat, nat>): set<nat>
  {
    (set s | s in requests :: requests[s].waiter) + (set s | s in sessions :: sessions[s]) +
    (set s | s in echoes :: echoes[s].waiter) + (set s | s in datagrams :: datagrams[s])
  }

  lemma PendingIsRegistered(owners: seq<Owner>, requests: map<nat, Request>, sessions: map<nat, nat>,
                            echoes: map<nat, StreamEcho>, datagrams: map<nat, nat>)
    requires Registered(owners, requests, sessions, echoes, datagrams)
    ensures var pending := Pending(requests, sessions, echoes, datagrams);
            && (forall w :: w in pending ==> w < |owners|)
            && (forall s :: s in sessions ==> sessions[s] in pending)
            && (forall s :: s in echoes ==> echoes[s].waiter in pending)
  {
  }

  lemma RequestStaysRegistered(owners: seq<Owner>, requests: map<nat, Request>, sessions: map<nat, nat>,
                               echoes: map<nat, StreamEcho>, datagrams: map<nat, nat>, s: nat, r: Request)
    requires Registered(owners, requests, sessions, echoes, datagrams)
    requires s in requests && r.waiter == requests[s].waiter
    ensures Registered(owners, requests[s := r], sessions, echoes, datagrams)
    ensures Registered(owners, requests - {s}, sessions, echoes, datagrams)
    ensures requests[s := r] - {s} == requests - {s}
    ensures r.waiter < |owners| && owners[r.waiter] == GetCall(s)
  {
  }

  /** Sessions wait on futures of their own calls, so settling another call's future leaves them be. */
  lemma SessionsApart(owners: seq<Owner>, requests: map<nat, Request>, sessions: map<nat, nat>,
                      echoes: map<nat, StreamEcho>, datagrams: map<nat, nat>)
    requires Registered(owners, requests, sessions, echoes, datagrams)
    ensures forall t :: t in sessions ==> sessions[t] < |owners| && owners[sessions[t]] == OpenCall(t)
  {
  }

  lemma SettledAtFacts(waiters: seq<Option<Settled>>, w: nat, v: Settled)
    ensures SettledStay(waiters, SettledAt(waiters, w, v))
    ensures forall i :: 0 <= i < |waiters| && i != w ==> SettledAt(waiters, w, v)[i] == waiters[i]
  {
  }

  lemma NothingSettled(waiters: seq<Option<Settled>>)
    ensures SettledStay(waiters, waiters)
  {
  }

  /** The client's dictionaries and futures at one moment. */
  datatype Client = Client(
    requests: map<nat, Request>, sessions: map<nat, nat>, echoes: map<nat, StreamEcho>, datagrams: map<nat, nat>,
    waiters: seq<Option<Settled>>)

  function AfterEcho(c: Client, s: nat, data: seq<byte>, ended: bool): Client
    requires s in c.echoes
  {
    var echo := c.echoes[s].(body := c.echoes[s].body + data);
    if ended then c.(echoes := c.echoes - {s}, waiters := SettledAt(c.waiters, echo.waiter, Echoed(echo.body)))
    else c.(echoes := c.echoes[s := echo])
  }

  function AfterDatagram(c: Client, s: nat, data: seq<byte>): Client {
    if s in c.datagrams
    then c.(datagrams := c.datagrams - {s}, waiters := SettledAt(c.waiters, c.datagrams[s], Echoed(data)))
    else c
  }

  function AfterSession(c: Client, s: nat, status: Option<nat>): Client
    requires s in c.sessions
  {
    c.(sessions := c.sessions - {s},
       waiters := SettledAt(c.waiters, c.sessions[s], if status == Some(200) then SessionId(s) else Error))
  }

  function AfterRequest(c: Client, e: HttpEvent): Client
    requires e.streamId in c.requests && (e.HeadersReceived? || e.DataReceived?)
  {
    var before := c.requests[e.streamId];
    var request := if e.HeadersReceived? then before.(status := e.status) else before.(body := before.body + e.data);
    if e.ended
    then c.(requests := c.requests - {e.streamId},
            waiters := SettledAt(c.waiters, request.waiter, Response(request.status, request.body)))
    else c.(requests := c.requests[e.streamId := request])
  }

  function AfterHttp(c: Client, e: HttpEvent): Client {
    if e.DatagramReceived? then AfterDatagram(c, e.streamId, e.data)
    else if e.HeadersReceived? && e.streamId in c.sessions then AfterSession(c, e.streamId, e.status)
    else if e.WebTransportData? then (if e.streamId in c.echoes then AfterEcho(c, e.streamId, e.data, e.ended) else c)
    else if e.streamId in c.requests then AfterRequest(c, e)
    else c
  }

  /** Settling a CONNECT waiter that is done raises. */
  predicate Raises(c: Client, e: HttpEvent) {
    && e.HeadersReceived? && e.streamId in c.sessions
    && c.sessions[e.streamId] < |c.waiters| && c.waiters[c.sessions[e.streamId]].Some?
  }

  /** What an HTTP/3 event shows to the echo waiters. */
  function ObservedHttp(c: Client, e: HttpEvent): Observation {
    if e.WebTransportData? && e.streamId in c.echoes then EchoData(e.streamId, e.data, e.ended) else Elsewhere
  }

  /** What one event does: the new state, what the echo waiters observe, and whether it raises. */
  datatype Step = Step(client: Client, seen: seq<Observation>, raised: bool)

  function HttpStep(c: Client, e: HttpEvent): Step {
    Step(AfterHttp(c, e), [ObservedHttp(c, e)], Raises(c, e))
  }

  function Following(seen: seq<Observation>, s: Step): Step {
    s.(seen := seen + s.seen)
  }

  /** The HTTP/3 events in turn, up to the first that raises. */
  function HttpSteps(c: Client, es: seq<HttpEvent>): Step
    decreases |es|
  {
    if es == [] then Step(c, [], false)
    else
      var first := HttpStep(c, es[0]);
      if first.raised then first else Following(first.seen, HttpSteps(first.client, es[1..]))
  }

  function Failed(waiters: seq<Option<Settled>>, pending: set<nat>): seq<Option<Settled>> {
    seq(|waiters|, i requires 0 <= i < |waiters| =>
        if i in pending && waiters[i].None? then Some(Error) else waiters[i])
  }

  function EventStep(c: Client, e: Event): Step {
    match e
    case StreamData(s, data, ended, http) =>
      if s in c.echoes then Step(AfterEcho(c, s, data, ended), [EchoData(s, data, ended)], false)
      else HttpSteps(c, http)
    case ConnectionTerminated =>
      Step(c.(waiters := Failed(c.waiters, Pending(c.requests, c.sessions, c.echoes, c.datagrams))), [Closed], false)
    case Other(http) => HttpSteps(c, http)
  }

  /** What the program around the client does: a call, on the stream or session it is for, or the
      delivery of an event. */
  datatype Action = Called(call: Owner) | Received(event: Event)

  function AfterCall(c: Client, call: Owner): Client {
    var more := c.(waiters := c.waiters + [None]);
    var w := |c.waiters|;
    match call
    case GetCall(s) => more.(requests := c.requests[s := Request([], None, w)])
    case OpenCall(s) => more.(sessions := c.sessions[s := w])
    case BidiCall(s) => more.(echoes := c.echoes[s := StreamEcho([], w)])
    case DatagramCall(s) => more.(datagrams := c.datagrams[s := w])
  }

  function ActionStep(c: Client, a: Action): Step {
    match a
    case Called(call) => Step(AfterCall(c, call), [], false)
    case Received(e) => EventStep(c, e)
  }

  /** The state after a run of actions, and everything the echo waiters observed on the way. */
  function After(c: Client, actions: seq<Action>): Client {
    if actions == [] then c
    else
      var n := |actions| - 1;
      ActionStep(After(c, actions[..n]), actions[n]).client
  }

  function Seen(c: Client, actions: seq<Action>): seq<Observation> {
    if actions == [] then []
    else
      var n := |actions| - 1;
      Seen(c, actions[..n]) + ActionStep(After(c, actions[..n]), actions[n]).seen
  }

  lemma RunSnoc(c: Client, actions: seq<Action>, a: Action)
    ensures After(c, actions + [a]) == ActionStep(After(c, actions), a).client
    ensures Seen(c, actions + [a]) == Seen(c, actions) + ActionStep(After(c, actions), a).seen
  {
    hide ActionStep;
    assert (actions + [a])[..|actions|] == actions;
  }

  /** Echo calls use streams no echo call has used: the library hands out each stream id once. */
  ghost predicate FreshStreams(actions: seq<Action>, used: set<nat>) {
    forall i :: 0 <= i < |actions| && IsEchoCall(actions[i]) ==>
      actions[i].call.id !in used && forall j :: 0 <= j < i ==> actions[j] != actions[i]
  }

  predicate IsEchoCall(a: Action) {
    a.Called? && a.call.BidiCall?
  }

  /** The streams of the first n actions' echo calls. */
  function EchoStreams(actions: seq<Action>): set<nat> {
    set a | a in actions && IsEchoCall(a) :: a.call.id
  }

  class HealthProtocol {
    var requests: map<nat, Request>
    var sessions: map<nat, nat>
    var streamEchoes: map<nat, StreamEcho>
    var datagramEchoes: map<nat, nat>
    /** The futures, in creation order. */
    var waiters: seq<Option<Settled>>
    ghost var owners: seq<Owner>
    ghost var log: seq<Observation>
    ghost var calls: map<nat, Call>
    ghost var closed: bool

    ghost predicate Valid()
      reads this
    {
      && |owners| == |waiters|
      && Registered(owners, requests, sessions, streamEchoes, datagramEchoes)
      // before the connection ends, a session still registered has an unsettled waiter
      && (!closed ==> forall s :: s in sessions ==> waiters[sessions[s]].None?)
      && AllFollow(calls, log, waiters, owners, streamEchoes)
    }

    ghost function AsClient(): Client
      reads this
    {
      Client(requests, sessions, streamEchoes, datagramEchoes, waiters)
    }

    constructor ()
      ensures Valid() && !closed && waiters == [] && calls == map[]
    {
      requests, sessions, streamEchoes, datagramEchoes := map[], map[], map[], map[];
      waiters, owners, log, calls, closed := [], [], [], map[], false;
    }

    /** `create_future`. */
    method NewWaiter(ghost owner: Owner) returns (w: nat)
      requires Valid()
      modifies this`waiters, this`owners
      ensures w == old(|waiters|) && waiters == old(waiters) + [None] && owners == old(owners) + [owner]
      ensures Valid()
    {
      hide Follows;
      w := |waiters|;
      waiters := waiters + [None];
      owners := owners + [owner];
      forall s | s in calls ensures Follows(calls[s], s, log, waiters, owners, Lookup(streamEchoes, s)) {
        FollowsGrown(calls[s], s, log, old(waiters), old(owners), Lookup(streamEchoes, s), owner);
      }
    }

    /** `get`, on the next free stream. */
    method Get(streamId: nat) returns (w: nat)
      requires Valid()
      modifies this
      ensures Valid() && w == old(|waiters|) && log == old(log) && calls == old(calls)
      ensures AsClient() == old(AsClient()).(
        requests := old(requests)[streamId := Request([], None, w)], waiters := old(waiters) + [None])
    {
      hide AllFollow;
      w := NewWaiter(GetCall(streamId));
      requests := requests[streamId := Request([], None, w)];
    }

    /** `open_webtransport`, on the next free stream. */
    method OpenWebTransport(streamId: nat) returns (w: nat)
      requires Valid()
      modifies this
      ensures Valid() && w == old(|waiters|) && log == old(log) && calls == old(calls) && closed == old(closed)
      ensures AsClient() == old(AsClient()).(
        sessions := old(sessions)[streamId := w], waiters := old(waiters) + [None])
    {
      hide AllFollow;
      w := NewWaiter(OpenCall(streamId));
      sessions := sessions[streamId := w];
    }

    /** `datagram_echo`: a second call for the same session displaces the first. */
    method DatagramEcho(sessionId: nat) returns (w: nat)
      requires Valid()
      modifies this
      ensures Valid() && w == old(|waiters|) && log == old(log) && calls == old(calls)
      ensures AsClient() == old(AsClient()).(
        datagrams := old(datagramEchoes)[sessionId := w], waiters := old(waiters) + [None])
    {
      hide AllFollow;
      w := NewWaiter(DatagramCall(sessionId));
      datagramEchoes := datagramEchoes[sessionId := w];
    }

    /** `bidi_echo`, on a stream not used before. */
    method BidiEcho(streamId: nat) returns (w: nat)
      requires Valid() && streamId !in calls
      modifies this
      ensures Valid() && w == old(|waiters|) && log == old(log)
      ensures AsClient() == old(AsClient()).(
        echoes := old(streamEchoes)[streamId := StreamEcho([], w)], waiters := old(waiters) + [None])
      ensures calls == old(calls)[streamId := Call(w, |log|)]
    {
      w := NewWaiter(BidiCall(streamId));
      streamEchoes := streamEchoes[streamId := StreamEcho([], w)];
      calls := calls[streamId := Call(w, |log|)];
      assert log[|log|..] == [];
    }

    /** `if not waiter.done(): waiter.set_result(...)` */
    method SettleOnce(w: nat, v: Settled)
      requires w < |waiters|
      modifies this`waiters
      ensures waiters == SettledAt(old(waiters), w, v)
    {
      if waiters[w].None? {
        waiters := waiters[w := Some(v)];
      }
    }

    /** Data on a stream with a registered echo. */
    method OnEchoData(s: nat, data: seq<byte>, ended: bool)
      requires Valid() && s in streamEchoes
      modifies this`streamEchoes, this`waiters, this`log
      ensures Valid() && log == old(log) + [EchoData(s, data, ended)]
      ensures AsClient() == AfterEcho(old(AsClient()), s, data, ended)
      ensures SettledStay(old(waiters), waiters)
    {
      hide AllFollow, Registered;
      AllFollowData(calls, log, waiters, owners, streamEchoes, s, data, ended);
      EchoStaysRegistered(owners, requests, sessions, streamEchoes, datagramEchoes, s, data, waiters);
      var echo := streamEchoes[s];
      echo := echo.(body := echo.body + data);
      streamEchoes := streamEchoes[s := echo];
      if ended {
        SettleOnce(echo.waiter, Echoed(echo.body));
        streamEchoes := streamEchoes - {s};
        assert streamEchoes == old(streamEchoes) - {s};
      }
      log := log + [EchoData(s, data, ended)];
    }

    /** The connection ends: every registered waiter not yet settled fails. */
    method OnTerminated()
      requires Valid()
      modifies this`waiters, this`log, this`closed
      ensures Valid() && log == old(log) + [Closed] && closed
      ensures AsClient() == EventStep(old(AsClient()), ConnectionTerminated).client
      ensures SettledStay(old(waiters), waiters)
      ensures forall s :: s in sessions ==> waiters[sessions[s]].Some?
    {
      hide AllFollow, Pending, Registered;
      var pending := Pending(requests, sessions, streamEchoes, datagramEchoes);
      PendingIsRegistered(owners, requests, sessions, streamEchoes, datagramEchoes);
      FailAll(pending);
      AllFollowClosed(calls, log, old(waiters), owners, streamEchoes, pending, waiters);
      log := log + [Closed];
      closed := true;
    }

    method FailAll(pending: set<nat>)
      requires forall w :: w in pending ==> w < |waiters|
      modifies this`waiters
      ensures |waiters| == old(|waiters|)
      ensures forall i :: 0 <= i < |waiters| ==>
        waiters[i] == if i in pending && old(waiters)[i].None? then Some(Error) else old(waiters)[i]
    {
      var todo := pending;
      while todo != {}
        invariant todo <= pending && |waiters| == old(|waiters|)
        invariant forall i :: 0 <= i < |waiters| ==>
          waiters[i] == if i in pending - todo && old(waiters)[i].None? then Some(Error) else old(waiters)[i]
      {
        var w :| w in todo;
        SettleOnce(w, Error);
        todo := todo - {w};
      }
    }

    /** An HTTP/3 event for anything but a registered echo. */
    method OnHttpElsewhere(e: HttpEvent) returns (raised: bool)
      requires Valid() && !(e.WebTransportData? && e.streamId in streamEchoes)
      modifies this`requests, this`sessions, this`datagramEchoes, this`waiters, this`log
      ensures raised == Raises(old(AsClient()), e)
      ensures AsClient() == AfterHttp(old(AsClient()), e)
      ensures Valid() && log == old(log) + [Elsewhere]
      ensures SettledStay(old(waiters), waiters)
    {
      hide AllFollow, Registered, SettledStay, AfterDatagram, AfterSession, AfterRequest;
      raised := false;
      SessionsApart(owners, requests, sessions, streamEchoes, datagramEchoes);
      NothingSettled(waiters);
      if e.DatagramReceived? {
        OnDatagram(e.streamId, e.data);
      } else if e.HeadersReceived? && e.streamId in sessions {
        raised := OnSessionHeaders(e.streamId, e.status);
      } else if !e.WebTransportData? && e.streamId in requests {
        OnRequest(e);
      }
      SessionsApart(owners, requests, sessions, streamEchoes, datagramEchoes);
      AllFollowElsewhere(calls, log, old(waiters), owners, streamEchoes, waiters);
      log := log + [Elsewhere];
    }

    method OnDatagram(s: nat, data: seq<byte>)
      requires |owners| == |waiters| && Registered(owners, requests, sessions, streamEchoes, datagramEchoes)
      modifies this`datagramEchoes, this`waiters
      ensures AsClient() == AfterDatagram(old(AsClient()), s, data)
      ensures Registered(owners, requests, sessions, streamEchoes, datagramEchoes)
      ensures |waiters| == old(|waiters|) && SettledStay(old(waiters), waiters)
      ensures forall i :: 0 <= i < |owners| && !owners[i].DatagramCall? ==> waiters[i] == old(waiters)[i]
      ensures sessions == old(sessions)
    {
      if s in datagramEchoes {
        var w := datagramEchoes[s];
        datagramEchoes := datagramEchoes - {s};
        SettleOnce(w, Echoed(data));
      }
    }

    /** The CONNECT response. Settling is not guarded here: it raises when the waiter is done. */
    method OnSessionHeaders(s: nat, status: Option<nat>) returns (raised: bool)
      requires |owners| == |waiters| && Registered(owners, requests, sessions, streamEchoes, datagramEchoes)
      requires s in sessions
      modifies this`sessions, this`waiters
      ensures raised == old(waiters)[old(sessions)[s]].Some?
      ensures AsClient() == AfterSession(old(AsClient()), s, status) && sessions == old(sessions) - {s}
      ensures Registered(owners, requests, sessions, streamEchoes, datagramEchoes)
      ensures |waiters| == old(|waiters|) && SettledStay(old(waiters), waiters)
      ensures forall i :: 0 <= i < |owners| && owners[i] != OpenCall(s) ==> waiters[i] == old(waiters)[i]
    {
      var w := sessions[s];
      sessions := sessions - {s};
      raised := waiters[w].Some?;
      if !raised {
        waiters := waiters[w := Some(if status == Some(200) then SessionId(s) else Error)];
      }
    }

    /** Headers and body of a plain request. */
    method OnRequest(e: HttpEvent)
      requires |owners| == |waiters| && Registered(owners, requests, sessions, streamEchoes, datagramEchoes)
      requires e.streamId in requests && (e.HeadersReceived? || e.DataReceived?)
      modifies this`requests, this`waiters
      ensures AsClient() == AfterRequest(old(AsClient()), e)
      ensures Registered(owners, requests, sessions, streamEchoes, datagramEchoes)
      ensures |waiters| == old(|waiters|) && SettledStay(old(waiters), waiters)
      ensures forall i :: 0 <= i < |owners| && !owners[i].GetCall? ==> waiters[i] == old(waiters)[i]
      ensures sessions == old(sessions)
    {
      hide Registered, SettledAt, SettledStay;
      var s := e.streamId;
      var request := requests[s];
      if e.HeadersReceived? {
        request := request.(status := e.status);
      } else {
        request := request.(body := request.body + e.data);
      }
      RequestStaysRegistered(owners, requests, sessions, streamEchoes, datagramEchoes, s, request);
      SettledAtFacts(waiters, request.waiter, Response(request.status, request.body));
      NothingSettled(waiters);
      requests := requests[s := request];
      if e.ended {
        SettleOnce(request.waiter, Response(request.status, request.body));
        requests := requests - {s};
      }
    }

    method OnHttp(e: HttpEvent) returns (raised: bool)
      requires Valid()
      modifies this`requests, this`sessions, this`streamEchoes, this`datagramEchoes, this`waiters, this`log
      ensures raised == Raises(old(AsClient()), e)
      ensures AsClient() == AfterHttp(old(AsClient()), e)
      ensures Valid() && log == old(log) + [ObservedHttp(old(AsClient()), e)]
      ensures SettledStay(old(waiters), waiters)
    {
      hide AllFollow;
      raised := false;
      if e.WebTransportData? && e.streamId in streamEchoes {
        OnEchoData(e.streamId, e.data, e.ended);
      } else {
        raised := OnHttpElsewhere(e);
      }
    }

    /** The HTTP/3 events derived from one QUIC event, in turn. */
    method OnHttps(es: seq<HttpEvent>) returns (raised: bool)
      requires Valid()
      modifies this`requests, this`sessions, this`streamEchoes, this`datagramEchoes, this`waiters, this`log
      ensures var step := HttpSteps(old(AsClient()), es);
              AsClient() == step.client && log == old(log) + step.seen && raised == step.raised
      ensures Valid()
      ensures SettledStay(old(waiters), waiters)
      ensures !closed ==> !raised
    {
      hide AllFollow, Registered, AfterHttp, Raises, ObservedHttp, HttpSteps;
      raised := false;
      ghost var seen := [];
      var i := 0;
      FollowingNothing(HttpSteps(AsClient(), es));
      while i < |es| && !raised
        invariant i <= |es| && Valid() && log == old(log) + seen
        invariant SettledStay(old(waiters), waiters)
        invariant !closed ==> !raised
        invariant HttpSteps(old(AsClient()), es) ==
          if raised then Step(AsClient(), seen, true) else Following(seen, HttpSteps(AsClient(), es[i..]))
      {
        HttpStepsFrom(AsClient(), es, i, seen);
        SessionWaits();
        seen := seen + [ObservedHttp(AsClient(), es[i])];
        raised := OnHttp(es[i]);
        i := i + 1;
      }
      NoHttpSteps(AsClient(), es[|es|..], seen);
    }

    /** Before the connection ends no session waiter that is still registered is settled. */
    lemma SessionWaits()
      requires Valid()
      ensures !closed ==> forall e :: !Raises(AsClient(), e)
    {
    }

    /** One QUIC event: the new dictionaries and futures, what the echo waiters observe and whether
        it raises are functions of the old state and the event; a settled future keeps its value,
        and before the connection ends nothing raises. */
    method QuicEventReceived(e: Event) returns (raised: bool)
      requires Valid()
      modifies this`requests, this`sessions, this`streamEchoes, this`datagramEchoes, this`waiters, this`log,
        this`closed
      ensures var step := EventStep(old(AsClient()), e);
              AsClient() == step.client && log == old(log) + step.seen && raised == step.raised
      ensures Valid()
      ensures SettledStay(old(waiters), waiters)
      ensures !old(closed) ==> !raised
      ensures closed == (old(closed) || e.ConnectionTerminated?)
    {
      hide AllFollow, Registered, HttpSteps, AfterEcho, Failed, Pending, SettledStay;
      raised := false;
      if e.StreamData? && e.streamId in streamEchoes {
        OnEchoData(e.streamId, e.data, e.ended);
        return;
      }
      if e.ConnectionTerminated? {
        OnTerminated();
        return;
      }
      raised := OnHttps(e.http);
    }

    /** One action of the program around the client. */
    method Perform(a: Action)
      requires Valid() && (IsEchoCall(a) ==> a.call.id !in calls)
      modifies this
      ensures var step := ActionStep(old(AsClient()), a);
              AsClient() == step.client && log == old(log) + step.seen
      ensures Valid() && SettledStay(old(waiters), waiters)
      ensures calls.Keys == old(calls).Keys + if IsEchoCall(a) then {a.call.id} else {}
      ensures forall s :: s in old(calls) ==> calls[s] == old(calls)[s]
    {
      hide AllFollow, Registered, EventStep;
      var w: nat;
      match a
      case Called(GetCall(s)) => w := Get(s);
      case Called(OpenCall(s)) => w := OpenWebTransport(s);
      case Called(BidiCall(s)) => w := BidiEcho(s);
      case Called(DatagramCall(s)) => w := DatagramEcho(s);
      case Received(e) => var raised := QuicEventReceived(e);
    }

    lemma OpenIsSound()
      requires Valid() && !closed
      ensures Sound(owners, AsClient()) && SessionsWait(AsClient())
    {
    }

    /** An echo call is where its stream's observations since the call put it. */
    lemma EchoCallOutcome(s: nat)
      requires Valid() && s in calls
      ensures var c := calls[s];
              c.start <= |log| && c.waiter < |waiters| && waiters[c.waiter] == EchoOutcome(log[c.start..], s)
    {
      assert Follows(calls[s], s, log, waiters, owners, Lookup(streamEchoes, s));
    }
  }

  /** Any run of calls and events, through the class. */
  method RunActions(client: HealthProtocol, actions: seq<Action>)
    requires client.Valid() && FreshStreams(actions, client.calls.Keys)
    modifies client
    ensures client.Valid() && client.AsClient() == After(old(client.AsClient()), actions)
    ensures client.log == old(client.log) + Seen(old(client.AsClient()), actions)
    ensures forall s :: s in old(client.calls) ==> s in client.calls && client.calls[s] == old(client.calls)[s]
  {
    hide AllFollow, Registered, ActionStep, SettledStay, HealthProtocol.Valid, After, Seen, EchoStreams, FreshStreams,
      IsEchoCall;
    ghost var before, c := client.log, client.AsClient();
    RunNothing(c, actions[..0]);
    var i := 0;
    while i < |actions|
      invariant i <= |actions| && client.Valid()
      invariant client.calls.Keys == old(client.calls).Keys + EchoStreams(actions[..i])
      invariant forall s :: s in old(client.calls) ==> s in client.calls && client.calls[s] == old(client.calls)[s]
      invariant client.AsClient() == After(c, actions[..i]) && client.log == before + Seen(c, actions[..i])
    {
      assert actions[..i + 1] == actions[..i] + [actions[i]];
      RunSnoc(c, actions[..i], actions[i]);
      NextIsFresh(actions, old(client.calls).Keys, i);
      client.Perform(actions[i]);
      i := i + 1;
    }
    assert actions[..i] == actions;
  }

  /** `bidi_echo` on a fresh stream and then any run of calls and events: the future it returned is
      settled by what was observed on its stream during that run, and by nothing else; on an open
      connection, by the events of that run alone: all bytes of its stream up to the first end. */
  method RunBidiEcho(client: HealthProtocol, s: nat, actions: seq<Action>) returns (w: nat)
    requires client.Valid() && s !in client.calls
    requires FreshStreams(actions, client.calls.Keys + {s})
    modifies client
    ensures client.Valid() && w == old(|client.waiters|) < |client.waiters|
    ensures var c := AfterCall(old(client.AsClient()), BidiCall(s));
            && client.AsClient() == After(c, actions)
            && client.waiters[w] == EchoOutcome(Seen(c, actions), s)
            && (!old(client.closed) && OwnEvents(c, BidiCall(s), actions) ==>
                client.waiters[w] == Outcome(BidiCall(s), Arrivals(BidiCall(s), actions)))
  {
    hide AllFollow, Registered, SettledStay, HealthProtocol.Valid, After, Seen, EchoOutcome, FreshStreams, OwnEvents,
      Outcome, Arrivals, Sound, SessionsWait;
    ghost var before := client.log;
    ghost var start := client.AsClient();
    if !client.closed && OwnEvents(AfterCall(start, BidiCall(s)), BidiCall(s), actions) {
      client.OpenIsSound();
      CallOutcome(client.owners, start, BidiCall(s), actions);
    }
    w := client.BidiEcho(s);
    ghost var c := client.AsClient();
    assert client.calls.Keys == old(client.calls).Keys + {s};
    RunActions(client, actions);
    client.EchoCallOutcome(s);
    assert client.log[|before|..] == Seen(c, actions);
  }

  lemma NextIsFresh(actions: seq<Action>, used: set<nat>, i: nat)
    requires FreshStreams(actions, used) && i < |actions|
    ensures IsEchoCall(actions[i]) ==> actions[i].call.id !in used + EchoStreams(actions[..i])
    ensures EchoStreams(actions[..i + 1]) ==
            EchoStreams(actions[..i]) + if IsEchoCall(actions[i]) then {actions[i].call.id} else {}
  {
    assert actions[..i + 1] == actions[..i] + [actions[i]];
    if IsEchoCall(actions[i]) {
      forall a | a in actions[..i] && IsEchoCall(a) ensures a.call.id != actions[i].call.id {
        var j :| 0 <= j < i && actions[j] == a;
      }
    }
  }

  lemma RunNothing(c: Client, actions: seq<Action>)
    requires actions == []
    ensures After(c, actions) == c && Seen(c, actions) == [] && EchoStreams(actions) == {}
  {
  }

  lemma FollowingNothing(s: Step)
    ensures Following([], s) == s
  {
    assert [] + s.seen == s.seen;
  }

  lemma HttpStepsFrom(c: Client, es: seq<HttpEvent>, i: nat, seen: seq<Observation>)
    requires i < |es|
    ensures var more := seen + [ObservedHttp(c, es[i])];
            Following(seen, HttpSteps(c, es[i..])) ==
            if Raises(c, es[i]) then Step(AfterHttp(c, es[i]), more, true)
            else Following(more, HttpSteps(AfterHttp(c, es[i]), es[i + 1..]))
  {
    hide AfterHttp, Raises, ObservedHttp;
    assert es[i..][1..] == es[i + 1..];
    var rest := HttpSteps(AfterHttp(c, es[i]), es[i + 1..]).seen;
    assert seen + ([ObservedHttp(c, es[i])] + rest) == (seen + [ObservedHttp(c, es[i])]) + rest;
  }

  lemma NoHttpSteps(c: Client, es: seq<HttpEvent>, seen: seq<Observation>)
    requires es == []
    ensures Following(seen, HttpSteps(c, es)) == Step(c, seen, false)
  {
    assert seen + [] == seen;
  }

  lemma FollowsGrown(c: Call, s: nat, log: seq<Observation>, waiters: seq<Option<Settled>>, owners: seq<Owner>,
                     entry: Option<StreamEcho>, owner: Owner)
    requires Follows(c, s, log, waiters, owners, entry)
    ensures Follows(c, s, log, waiters + [None], owners + [owner], entry)
  {
  }

  lemma OwnedBy(c: Call, s: nat, log: seq<Observation>, waiters: seq<Option<Settled>>, owners: seq<Owner>,
                entry: Option<StreamEcho>)
    requires Follows(c, s, log, waiters, owners, entry)
    ensures c.waiter < |waiters| == |owners| && owners[c.waiter] == BidiCall(s)
    ensures entry.Some? ==> entry.value.waiter == c.waiter
  {
  }

  /** A settled future keeps its value: no waiter is settled twice. */
  ghost predicate SettledStay(before: seq<Option<Settled>>, after: seq<Option<Settled>>) {
    |before| <= |after| && forall i :: 0 <= i < |before| && before[i].Some? ==> after[i] == before[i]
  }

  lemma {:induction false} FinishedIsSettled(os: seq<Observation>, id: nat)
    ensures Finished(os, id) ==> EchoOutcome(os, id).Some?
  {
    if os != [] {
      var n := |os| - 1;
      assert os == os[..n] + [os[n]];
      FinishedIsSettled(os[..n], id);
      ObserveSnoc(os[..n], os[n], id);
    }
  }

  // ------------------------------------------------------------------ datagram echoes

  /** What becomes of a datagram waiter: it holds its session's place, a second call has taken that
      place, or it is decided. */
  datatype Fate = Holding | Displaced | Decided(value: Settled)

  function FateValue(f: Fate): Option<Settled> {
    if f.Decided? then Some(f.value) else None
  }

  /** A waiter that holds its place is decided by the first datagram of its session. */
  function HttpFate(f: Fate, s: nat, e: HttpEvent): Fate {
    if f.Holding? && e.DatagramReceived? && e.streamId == s then Decided(Echoed(e.data)) else f
  }

  function HttpsFate(c: Client, f: Fate, s: nat, es: seq<HttpEvent>): Fate
    decreases |es|
  {
    if es == [] then f
    else if Raises(c, es[0]) then HttpFate(f, s, es[0])
    else HttpsFate(AfterHttp(c, es[0]), HttpFate(f, s, es[0]), s, es[1..])
  }

  /** It fails with the connection; a displaced one is no longer registered and does not. */
  function EventFate(c: Client, f: Fate, s: nat, e: Event): Fate {
    match e
    case StreamData(id, _, _, http) => if id in c.echoes then f else HttpsFate(c, f, s, http)
    case ConnectionTerminated => if f.Holding? then Decided(Error) else f
    case Other(http) => HttpsFate(c, f, s, http)
  }

  function ActionFate(c: Client, f: Fate, s: nat, a: Action): Fate {
    match a
    case Called(call) => if call == DatagramCall(s) && f.Holding? then Displaced else f
    case Received(e) => EventFate(c, f, s, e)
  }

  /** The fate after a run of a waiter that holds session s's place at the start. */
  function RunFate(c: Client, s: nat, actions: seq<Action>): Fate {
    if actions == [] then Holding
    else
      var n := |actions| - 1;
      ActionFate(After(c, actions[..n]), RunFate(c, s, actions[..n]), s, actions[n])
  }

  /** No dictionary refers to waiter w, except possibly the datagram entry of session s. */
  ghost predicate ReferredAtMostBy(c: Client, w: nat, s: Option<nat>) {
    && (forall t :: t in c.requests ==> c.requests[t].waiter != w)
    && (forall t :: t in c.sessions ==> c.sessions[t] != w)
    && (forall t :: t in c.echoes ==> c.echoes[t].waiter != w)
    && (forall t :: t in c.datagrams && s != Some(t) ==> c.datagrams[t] != w)
  }

  ghost predicate FateHolds(c: Client, s: nat, w: nat, f: Fate) {
    && w < |c.waiters| && c.waiters[w] == FateValue(f)
    && (f.Holding? ==> s in c.datagrams && c.datagrams[s] == w && ReferredAtMostBy(c, w, Some(s)))
    && (f.Displaced? ==> ReferredAtMostBy(c, w, None))
  }

  lemma DatagramFateHolds(c: Client, s: nat, w: nat, f: Fate, id: nat, data: seq<byte>)
    requires FateHolds(c, s, w, f)
    ensures FateHolds(AfterDatagram(c, id, data), s, w, HttpFate(f, s, DatagramReceived(id, data)))
  {
  }

  lemma SessionFateHolds(c: Client, s: nat, w: nat, f: Fate, id: nat, status: Option<nat>)
    requires FateHolds(c, s, w, f) && id in c.sessions
    ensures FateHolds(AfterSession(c, id, status), s, w, f)
  {
  }

  lemma RequestFateHolds(c: Client, s: nat, w: nat, f: Fate, e: HttpEvent)
    requires FateHolds(c, s, w, f) && e.streamId in c.requests && (e.HeadersReceived? || e.DataReceived?)
    ensures FateHolds(AfterRequest(c, e), s, w, f)
  {
  }

  lemma HttpFateHolds(c: Client, s: nat, w: nat, f: Fate, e: HttpEvent)
    requires FateHolds(c, s, w, f)
    ensures FateHolds(AfterHttp(c, e), s, w, HttpFate(f, s, e))
  {
    hide FateHolds, AfterDatagram, AfterSession, AfterEcho, AfterRequest;
    if e.DatagramReceived? {
      DatagramFateHolds(c, s, w, f, e.streamId, e.data);
    } else if e.HeadersReceived? && e.streamId in c.sessions {
      SessionFateHolds(c, s, w, f, e.streamId, e.status);
    } else if e.WebTransportData? && e.streamId in c.echoes {
      EchoFateHolds(c, s, w, f, e.streamId, e.data, e.ended);
    } else if !e.WebTransportData? && e.streamId in c.requests {
      RequestFateHolds(c, s, w, f, e);
    }
  }

  lemma EchoFateHolds(c: Client, s: nat, w: nat, f: Fate, id: nat, data: seq<byte>, ended: bool)
    requires FateHolds(c, s, w, f) && id in c.echoes
    ensures FateHolds(AfterEcho(c, id, data, ended), s, w, f)
  {
  }

  lemma {:induction false} HttpsFateHolds(c: Client, s: nat, w: nat, f: Fate, es: seq<HttpEvent>)
    requires FateHolds(c, s, w, f)
    ensures FateHolds(HttpSteps(c, es).client, s, w, HttpsFate(c, f, s, es))
    decreases |es|
  {
    hide FateHolds, AfterHttp, HttpFate, Raises, ObservedHttp;
    if es != [] {
      HttpFateHolds(c, s, w, f, es[0]);
      if !Raises(c, es[0]) {
        HttpsFateHolds(AfterHttp(c, es[0]), s, w, HttpFate(f, s, es[0]), es[1..]);
      }
    }
  }

  lemma ClosedFateHolds(c: Client, s: nat, w: nat, f: Fate)
    requires FateHolds(c, s, w, f)
    ensures var failed := c.(waiters := Failed(c.waiters, Pending(c.requests, c.sessions, c.echoes, c.datagrams)));
            FateHolds(failed, s, w, if f.Holding? then Decided(Error) else f)
  {
    hide Pending;
    PendingHas(c, w);
  }

  lemma PendingHas(c: Client, w: nat)
    ensures var pending := Pending(c.requests, c.sessions, c.echoes, c.datagrams);
            && (forall s :: s in c.datagrams && c.datagrams[s] == w ==> w in pending)
            && (ReferredAtMostBy(c, w, None) ==> w !in pending)
  {
  }

  lemma CallFateHolds(c: Client, s: nat, w: nat, f: Fate, call: Owner)
    requires FateHolds(c, s, w, f)
    ensures FateHolds(AfterCall(c, call), s, w, ActionFate(c, f, s, Called(call)))
  {
  }

  lemma ActionFateHolds(c: Client, s: nat, w: nat, f: Fate, a: Action)
    requires FateHolds(c, s, w, f)
    ensures FateHolds(ActionStep(c, a).client, s, w, ActionFate(c, f, s, a))
  {
    hide FateHolds, HttpSteps, HttpsFate, AfterEcho, Failed, Pending, AfterCall;
    match a
    case Called(call) => CallFateHolds(c, s, w, f, call);
    case Received(StreamData(id, data, ended, http)) =>
      if id in c.echoes {
        EchoFateHolds(c, s, w, f, id, data, ended);
      } else {
        HttpsFateHolds(c, s, w, f, http);
      }
    case Received(ConnectionTerminated) => ClosedFateHolds(c, s, w, f);
    case Received(Other(http)) => HttpsFateHolds(c, s, w, f, http);
  }

  /** Dictionaries refer to futures that exist. */
  ghost predicate WellFormed(c: Client) {
    forall w :: w in Pending(c.requests, c.sessions, c.echoes, c.datagrams) ==> w < |c.waiters|
  }

  lemma NewDatagramHolds(c: Client, s: nat)
    requires WellFormed(c)
    ensures FateHolds(AfterCall(c, DatagramCall(s)), s, |c.waiters|, Holding)
  {
    var w := |c.waiters|;
    hide Pending;
    PendingHas(c, w);
    assert w !in Pending(c.requests, c.sessions, c.echoes, c.datagrams);
    NotReferred(c, w);
  }

  lemma NotReferred(c: Client, w: nat)
    requires w !in Pending(c.requests, c.sessions, c.echoes, c.datagrams)
    ensures ReferredAtMostBy(c, w, None)
  {
    var pending := Pending(c.requests, c.sessions, c.echoes, c.datagrams);
    assert forall t :: t in c.requests ==> c.requests[t].waiter in pending;
    assert forall t :: t in c.sessions ==> c.sessions[t] in pending;
    assert forall t :: t in c.echoes ==> c.echoes[t].waiter in pending;
    assert forall t :: t in c.datagrams ==> c.datagrams[t] in pending;
  }

  /** A datagram waiter has, after any run, exactly the value its fate says. */
  lemma {:induction false} DatagramOutcome(c: Client, s: nat, w: nat, actions: seq<Action>)
    requires FateHolds(c, s, w, Holding)
    ensures FateHolds(After(c, actions), s, w, RunFate(c, s, actions))
  {
    hide FateHolds, ActionFate, ActionStep;
    if actions != [] {
      var n := |actions| - 1;
      DatagramOutcome(c, s, w, actions[..n]);
      ActionFateHolds(After(c, actions[..n]), s, w, RunFate(c, s, actions[..n]), actions[n]);
    }
  }

  lemma {:induction false} HttpsFateDisplaced(c: Client, s: nat, es: seq<HttpEvent>)
    ensures HttpsFate(c, Displaced, s, es) == Displaced
    decreases |es|
  {
    if es != [] { HttpsFateDisplaced(AfterHttp(c, es[0]), s, es[1..]); }
  }

  /** A second call for the session, before any datagram answered the first, leaves the first future
      pending for good: no later datagram reaches it, nor does the end of the connection. */
  lemma {:induction false} DisplacedForever(c: Client, s: nat, actions: seq<Action>, n: nat)
    requires n < |actions| && actions[n] == Called(DatagramCall(s)) && RunFate(c, s, actions[..n]) == Holding
    ensures RunFate(c, s, actions) == Displaced
    decreases |actions|
  {
    hide HttpsFate, After;
    var m := |actions| - 1;
    if n < m {
      assert actions[..m][..n] == actions[..n];
      DisplacedForever(c, s, actions[..m], n);
      forall d: Client, es ensures HttpsFate(d, Displaced, s, es) == Displaced {
        HttpsFateDisplaced(d, s, es);
      }
    }
  }

  /** `datagram_echo` and then any run of calls and events, through the class. */
  method RunDatagramEcho(client: HealthProtocol, s: nat, actions: seq<Action>) returns (w: nat)
    requires client.Valid() && FreshStreams(actions, client.calls.Keys)
    modifies client
    ensures client.Valid() && w == old(|client.waiters|) < |client.waiters|
    ensures var c := AfterCall(old(client.AsClient()), DatagramCall(s));
            client.AsClient() == After(c, actions) && client.waiters[w] == FateValue(RunFate(c, s, actions))
  {
    hide AllFollow, After, RunFate, FreshStreams, Pending, ReferredAtMostBy;
    PendingIsRegistered(client.owners, client.requests, client.sessions, client.streamEchoes, client.datagramEchoes);
    NewDatagramHolds(client.AsClient(), s);
    w := client.DatagramEcho(s);
    DatagramOutcome(client.AsClient(), s, w, actions);
    RunActions(client, actions);
  }

  // ------------------------------------------------------------------ what arrives for a call

  /** What arrives for a call: a part of its answer, the end of the connection, or another call that
      takes its place. */
  datatype Arrival = Part(event: HttpEvent) | Lost | Again

  /** The events that answer a call. */
  predicate Concerns(call: Owner, e: HttpEvent) {
    && e.streamId == call.id
    && match call {
         case GetCall(_) => e.HeadersReceived? || e.DataReceived?
         case OpenCall(_) => e.HeadersReceived?
         case BidiCall(_) => e.WebTransportData?
         case DatagramCall(_) => e.DatagramReceived?
       }
  }

  function Parts(call: Owner, es: seq<HttpEvent>): seq<Arrival> {
    if es == [] then [] else (if Concerns(call, es[0]) then [Part(es[0])] else []) + Parts(call, es[1..])
  }

  function ActionArrivals(call: Owner, a: Action): seq<Arrival> {
    match a
    case Called(other) => if other == call then [Again] else []
    case Received(StreamData(s, data, ended, http)) =>
      if call == BidiCall(s) then [Part(WebTransportData(s, data, ended))] else Parts(call, http)
    case Received(ConnectionTerminated) => [Lost]
    case Received(Other(http)) => Parts(call, http)
  }

  /** All that arrives for a call in a run: a matter of the calls and events alone. */
  function Arrivals(call: Owner, actions: seq<Action>): seq<Arrival> {
    if actions == [] then []
    else
      var n := |actions| - 1;
      Arrivals(call, actions[..n]) + ActionArrivals(call, actions[n])
  }

  /** An answer is complete with its first event for a CONNECT or a datagram, with the end of its
      stream otherwise. */
  predicate Completes(call: Owner, e: HttpEvent) {
    call.OpenCall? || call.DatagramCall? || (!e.DatagramReceived? && e.ended)
  }

  predicate Decides(call: Owner, a: Arrival) {
    !a.Part? || Completes(call, a.event)
  }

  /** The place of the arrival that decides a call; the length when there is none. */
  function Decision(call: Owner, arrived: seq<Arrival>): (k: nat)
    ensures k <= |arrived| && (k < |arrived| ==> Decides(call, arrived[k]))
    ensures forall i :: 0 <= i < k ==> !Decides(call, arrived[i])
  {
    if arrived == [] then 0
    else
      var n := |arrived| - 1;
      var k := Decision(call, arrived[..n]);
      if k < n || Decides(call, arrived[n]) then k else n + 1
  }

  function Payload(a: Arrival): seq<byte> {
    if a.Part? && !a.event.HeadersReceived? then a.event.data else []
  }

  /** All bytes that arrived, in order. */
  function Body(arrived: seq<Arrival>): seq<byte> {
    Flatten(Map(arrived, Payload))
  }

  predicate IsHeaders(a: Arrival) {
    a.Part? && a.event.HeadersReceived?
  }

  /** The status of the last headers. */
  function Status(arrived: seq<Arrival>): Option<nat> {
    if arrived == [] then None
    else
      var (before, a) := (arrived[..|arrived| - 1], arrived[|arrived| - 1]);
      if IsHeaders(a) then a.event.status else Status(before)
  }

  lemma {:induction false} StatusIsLast(before: seq<Arrival>, a: Arrival, after: seq<Arrival>)
    requires IsHeaders(a) && forall b :: b in after ==> !IsHeaders(b)
    ensures Status(before + [a] + after) == a.event.status
  {
    var all := before + [a] + after;
    if after == [] {
      assert all == before + [a];
    } else {
      var n := |after| - 1;
      StatusIsLast(before, a, after[..n]);
      assert all[..|all| - 1] == before + [a] + after[..n] && all[|all| - 1] == after[n];
    }
  }

  /** What a complete answer amounts to. */
  function Answer(call: Owner, arrived: seq<Arrival>): Settled {
    match call
    case GetCall(_) => Response(Status(arrived), Body(arrived))
    case OpenCall(s) => if Status(arrived) == Some(200) then SessionId(s) else Error
    case BidiCall(_) => Echoed(Body(arrived))
    case DatagramCall(_) => Echoed(Body(arrived))
  }

  /** What the arrivals make of a call's future: a complete answer settles it with everything up to
      its completion, the end of the connection fails it, a call that takes its place leaves it
      pending for good. */
  function Outcome(call: Owner, arrived: seq<Arrival>): Option<Settled> {
    var k := Decision(call, arrived);
    if k == |arrived| || arrived[k].Again? then None
    else if arrived[k].Lost? then Some(Error)
    else Some(Answer(call, arrived[..k + 1]))
  }

  lemma BodySnoc(arrived: seq<Arrival>, a: Arrival)
    ensures Body(arrived + [a]) == Body(arrived) + Payload(a)
    ensures Status(arrived + [a]) == if IsHeaders(a) then a.event.status else Status(arrived)
  {
    assert Map(arrived + [a], Payload) == Map(arrived, Payload) + [Payload(a)];
    FlattenSnoc(Map(arrived, Payload), Payload(a));
    assert (arrived + [a])[..|arrived|] == arrived;
  }

  predicate IsDecided(call: Owner, arrived: seq<Arrival>) {
    Decision(call, arrived) < |arrived|
  }

  predicate IsReplaced(call: Owner, arrived: seq<Arrival>) {
    IsDecided(call, arrived) && arrived[Decision(call, arrived)].Again?
  }

  lemma DecisionSnoc(call: Owner, arrived: seq<Arrival>, a: Arrival)
    ensures Decision(call, arrived + [a]) ==
            if IsDecided(call, arrived) || Decides(call, a) then Decision(call, arrived) else |arrived| + 1
  {
    hide Decides;
    var t := arrived + [a];
    assert t[..|arrived|] == arrived && t[|arrived|] == a;
  }

  lemma OutcomeSnoc(call: Owner, arrived: seq<Arrival>, a: Arrival)
    ensures IsDecided(call, arrived + [a]) <==> IsDecided(call, arrived) || Decides(call, a)
    ensures IsReplaced(call, arrived + [a]) <==> IsReplaced(call, arrived) || (!IsDecided(call, arrived) && a.Again?)
    ensures Outcome(call, arrived + [a]) ==
            if IsDecided(call, arrived) then Outcome(call, arrived)
            else if a.Lost? then Some(Error)
            else if a.Part? && Decides(call, a) then Some(Answer(call, arrived + [a]))
            else None
    ensures !IsDecided(call, arrived) || IsReplaced(call, arrived) ==> Outcome(call, arrived).None?
    ensures IsDecided(call, arrived) && !IsReplaced(call, arrived) ==> Outcome(call, arrived).Some?
  {
    hide Answer, Decision;
    var t := arrived + [a];
    var k := Decision(call, arrived);
    DecisionSnoc(call, arrived, a);
    assert t[..|t|] == t;
    if k < |arrived| { assert t[..k + 1] == arrived[..k + 1]; }
  }

  /** Once decided, nothing that arrives matters. */
  lemma {:induction false} OutcomeStays(call: Owner, arrived: seq<Arrival>, more: seq<Arrival>)
    requires IsDecided(call, arrived)
    ensures IsDecided(call, arrived + more) && Outcome(call, arrived + more) == Outcome(call, arrived)
    ensures IsReplaced(call, arrived + more) == IsReplaced(call, arrived)
  {
    hide Outcome, IsDecided, IsReplaced, Decides, Answer;
    if more == [] {
      assert arrived + more == arrived;
    } else {
      var n := |more| - 1;
      OutcomeStays(call, arrived, more[..n]);
      OutcomeSnoc(call, arrived + more[..n], more[n]);
      assert arrived + more == arrived + more[..n] + [more[n]];
    }
  }

  ghost predicate Sound(owners: seq<Owner>, c: Client) {
    |owners| == |c.waiters| && Registered(owners, c.requests, c.sessions, c.echoes, c.datagrams)
  }

  ghost predicate SessionsWait(c: Client) {
    forall s :: s in c.sessions ==> c.sessions[s] < |c.waiters| && c.waiters[c.sessions[s]].None?
  }

  /** The waiter in a call's place. */
  function Place(c: Client, call: Owner): Option<nat> {
    match call
    case GetCall(s) => if s in c.requests then Some(c.requests[s].waiter) else None
    case OpenCall(s) => if s in c.sessions then Some(c.sessions[s]) else None
    case BidiCall(s) => if s in c.echoes then Some(c.echoes[s].waiter) else None
    case DatagramCall(s) => if s in c.datagrams then Some(c.datagrams[s]) else None
  }

  /** The waiter is in its call's place, with what has arrived so far. */
  predicate Entered(c: Client, call: Owner, w: nat, arrived: seq<Arrival>) {
    && Place(c, call) == Some(w)
    && (call.GetCall? ==>
          && c.requests[call.id].body == Body(arrived) && c.requests[call.id].status == Status(arrived)
          && call.id !in c.sessions)
    && (call.BidiCall? ==> c.echoes[call.id].body == Body(arrived))
  }

  /** The waiter of a call is where the arrivals put it. */
  ghost predicate Tracks(owners: seq<Owner>, c: Client, call: Owner, w: nat, arrived: seq<Arrival>) {
    && Sound(owners, c) && w < |owners| && owners[w] == call && c.waiters[w] == Outcome(call, arrived)
    && (!IsDecided(call, arrived) ==> Entered(c, call, w, arrived) && SessionsWait(c))
    && (IsReplaced(call, arrived) ==> Place(c, call) != Some(w))
  }

  /** A waiter in a place belongs to the call of that place. */
  lemma PlaceIsOwned(owners: seq<Owner>, c: Client, call: Owner)
    requires Sound(owners, c)
    ensures Place(c, call).Some? ==> Place(c, call).value < |owners| && owners[Place(c, call).value] == call
    ensures forall t :: t in c.sessions ==> c.sessions[t] < |owners| && owners[c.sessions[t]] == OpenCall(t)
  {
  }

  function IfConcerned(call: Owner, e: HttpEvent): seq<Arrival> {
    if Concerns(call, e) then [Part(e)] else []
  }

  lemma EchoSound(owners: seq<Owner>, c: Client, s: nat, data: seq<byte>, ended: bool)
    requires Sound(owners, c) && s in c.echoes
    ensures Sound(owners, AfterEcho(c, s, data, ended))
  {
    hide Registered, SettledAt;
    EchoStaysRegistered(owners, c.requests, c.sessions, c.echoes, c.datagrams, s, data, c.waiters);
    var e := c.echoes[s].(body := c.echoes[s].body + data);
    assert c.echoes[s := e] - {s} == c.echoes - {s};
  }

  lemma EchoTracks(owners: seq<Owner>, c: Client, call: Owner, w: nat, arrived: seq<Arrival>, e: HttpEvent)
    requires Tracks(owners, c, call, w, arrived) && e.WebTransportData? && e.streamId in c.echoes
    ensures Tracks(owners, AfterEcho(c, e.streamId, e.data, e.ended), call, w, arrived + IfConcerned(call, e))
  {
    hide Outcome, IsDecided, IsReplaced, Status, Body, Registered;
    assert arrived + [] == arrived;
    OutcomeSnoc(call, arrived, Part(e));
    BodySnoc(arrived, Part(e));
    PlaceIsOwned(owners, c, BidiCall(e.streamId));
    EchoSound(owners, c, e.streamId, e.data, e.ended);
  }

  lemma DatagramTracks(owners: seq<Owner>, c: Client, call: Owner, w: nat, arrived: seq<Arrival>, e: HttpEvent)
    requires Tracks(owners, c, call, w, arrived) && e.DatagramReceived?
    ensures Tracks(owners, AfterDatagram(c, e.streamId, e.data), call, w, arrived + IfConcerned(call, e))
  {
    hide Outcome, IsDecided, IsReplaced, Status;
    assert arrived + [] == arrived;
    OutcomeSnoc(call, arrived, Part(e));
    BodySnoc(arrived, Part(e));
    if call.DatagramCall? && !IsDecided(call, arrived) {
      NothingBefore(call, arrived);
      assert [] + e.data == e.data;
    }
  }

  /** A CONNECT or a datagram is answered by the first event, so nothing precedes it. */
  lemma NothingBefore(call: Owner, arrived: seq<Arrival>)
    requires (call.OpenCall? || call.DatagramCall?) && !IsDecided(call, arrived)
    ensures arrived == [] && Body(arrived) == []
  {
    assert Map([], Payload) == [];
    assert arrived != [] ==> Decides(call, arrived[0]);
  }

  lemma SessionTracks(owners: seq<Owner>, c: Client, call: Owner, w: nat, arrived: seq<Arrival>, e: HttpEvent)
    requires Tracks(owners, c, call, w, arrived) && e.HeadersReceived? && e.streamId in c.sessions
    ensures Tracks(owners, AfterSession(c, e.streamId, e.status), call, w, arrived + IfConcerned(call, e))
  {
    hide Outcome, IsDecided, IsReplaced, Status, Body;
    assert arrived + [] == arrived;
    OutcomeSnoc(call, arrived, Part(e));
    BodySnoc(arrived, Part(e));
  }

  lemma RequestSound(owners: seq<Owner>, c: Client, e: HttpEvent)
    requires Sound(owners, c) && e.streamId in c.requests && (e.DataReceived? || e.HeadersReceived?)
    ensures Sound(owners, AfterRequest(c, e))
  {
    hide Registered, SettledAt;
    var before := c.requests[e.streamId];
    var request := if e.HeadersReceived? then before.(status := e.status) else before.(body := before.body + e.data);
    RequestStaysRegistered(owners, c.requests, c.sessions, c.echoes, c.datagrams, e.streamId, request);
  }

  lemma RequestTracks(owners: seq<Owner>, c: Client, call: Owner, w: nat, arrived: seq<Arrival>, e: HttpEvent)
    requires Tracks(owners, c, call, w, arrived) && e.streamId in c.requests
    requires e.DataReceived? || (e.HeadersReceived? && e.streamId !in c.sessions)
    ensures Tracks(owners, AfterRequest(c, e), call, w, arrived + IfConcerned(call, e))
  {
    hide Outcome, IsDecided, IsReplaced, Status, Body, Registered;
    assert arrived + [] == arrived && Body(arrived) + [] == Body(arrived);
    OutcomeSnoc(call, arrived, Part(e));
    BodySnoc(arrived, Part(e));
    PlaceIsOwned(owners, c, GetCall(e.streamId));
    RequestSound(owners, c, e);
  }

  /** An event that finds nobody waiting for it. */
  lemma IdleTracks(owners: seq<Owner>, c: Client, call: Owner, w: nat, arrived: seq<Arrival>, e: HttpEvent)
    requires Tracks(owners, c, call, w, arrived)
    requires IsDecided(call, arrived) || !Concerns(call, e)
    ensures Tracks(owners, c, call, w, arrived + IfConcerned(call, e))
  {
    hide Outcome, IsDecided, IsReplaced, Status, Body;
    assert arrived + [] == arrived;
    OutcomeSnoc(call, arrived, Part(e));
  }

  lemma HttpTracks(owners: seq<Owner>, c: Client, call: Owner, w: nat, arrived: seq<Arrival>, e: HttpEvent)
    requires Tracks(owners, c, call, w, arrived)
    ensures Tracks(owners, AfterHttp(c, e), call, w, arrived + IfConcerned(call, e))
    ensures Raises(c, e) ==> IsDecided(call, arrived)
  {
    hide Outcome, IsDecided, IsReplaced, Status, Body, AfterEcho, AfterSession, AfterRequest, AfterDatagram,
      IfConcerned;
    if e.DatagramReceived? {
      DatagramTracks(owners, c, call, w, arrived, e);
    } else if e.HeadersReceived? && e.streamId in c.sessions {
      SessionTracks(owners, c, call, w, arrived, e);
    } else if e.WebTransportData? && e.streamId in c.echoes {
      EchoTracks(owners, c, call, w, arrived, e);
    } else if !e.WebTransportData? && e.streamId in c.requests {
      RequestTracks(owners, c, call, w, arrived, e);
    } else {
      IdleTracks(owners, c, call, w, arrived, e);
    }
  }

  lemma {:induction false} HttpsTrack(owners: seq<Owner>, c: Client, call: Owner, w: nat, arrived: seq<Arrival>,
                                      es: seq<HttpEvent>)
    requires Tracks(owners, c, call, w, arrived)
    ensures Tracks(owners, HttpSteps(c, es).client, call, w, arrived + Parts(call, es))
    decreases |es|
  {
    hide Tracks, AfterHttp, Raises, ObservedHttp, Concerns;
    if es == [] {
      assert arrived + [] == arrived;
    } else {
      HttpTracks(owners, c, call, w, arrived, es[0]);
      var more := arrived + IfConcerned(call, es[0]);
      assert arrived + Parts(call, es) == more + Parts(call, es[1..]);
      if Raises(c, es[0]) {
        DecidedTracks(owners, AfterHttp(c, es[0]), call, w, arrived, IfConcerned(call, es[0]), Parts(call, es));
      } else {
        HttpsTrack(owners, AfterHttp(c, es[0]), call, w, more, es[1..]);
      }
    }
  }

  /** For a decided call it does not matter what arrives. */
  lemma DecidedTracks(owners: seq<Owner>, c: Client, call: Owner, w: nat, arrived: seq<Arrival>, more: seq<Arrival>,
                      other: seq<Arrival>)
    requires IsDecided(call, arrived) && Tracks(owners, c, call, w, arrived + more)
    ensures Tracks(owners, c, call, w, arrived + other)
  {
    hide Outcome, IsDecided, IsReplaced, Entered, Sound, Place;
    OutcomeStays(call, arrived, more);
    OutcomeStays(call, arrived, other);
  }

  lemma ClosedTracks(owners: seq<Owner>, c: Client, call: Owner, w: nat, arrived: seq<Arrival>)
    requires Tracks(owners, c, call, w, arrived)
    ensures var failed := c.(waiters := Failed(c.waiters, Pending(c.requests, c.sessions, c.echoes, c.datagrams)));
            Tracks(owners, failed, call, w, arrived + [Lost])
  {
    hide Outcome, IsDecided, IsReplaced, Status, Body, Pending;
    OutcomeSnoc(call, arrived, Lost);
    PendingIsPlaced(owners, c, w);
  }

  /** The end of the connection reaches exactly the waiters still in their places. */
  lemma PendingIsPlaced(owners: seq<Owner>, c: Client, w: nat)
    requires Sound(owners, c) && w < |owners|
    ensures w in Pending(c.requests, c.sessions, c.echoes, c.datagrams) <==> Place(c, owners[w]) == Some(w)
  {
    var call := owners[w];
    if Place(c, call) == Some(w) {
      match call
      case GetCall(s) => assert c.requests[s].waiter == w;
      case OpenCall(s) => assert c.sessions[s] == w;
      case BidiCall(s) => assert c.echoes[s].waiter == w;
      case DatagramCall(s) => assert c.datagrams[s] == w;
    }
  }

  lemma CallSound(owners: seq<Owner>, c: Client, call: Owner)
    requires Sound(owners, c)
    ensures Sound(owners + [call], AfterCall(c, call))
  {
  }

  lemma CallTracks(owners: seq<Owner>, c: Client, call: Owner, w: nat, arrived: seq<Arrival>, other: Owner)
    requires Tracks(owners, c, call, w, arrived)
    requires call.GetCall? ==> other != OpenCall(call.id)
    ensures Tracks(owners + [other], AfterCall(c, other), call, w, arrived + if other == call then [Again] else [])
  {
    hide Outcome, IsDecided, IsReplaced, Status, Body, Registered;
    assert arrived + [] == arrived;
    OutcomeSnoc(call, arrived, Again);
    CallSound(owners, c, other);
    PlaceIsOwned(owners, c, call);
  }

  lemma NewCallTracks(owners: seq<Owner>, c: Client, call: Owner)
    requires Sound(owners, c) && SessionsWait(c) && (call.GetCall? ==> call.id !in c.sessions)
    ensures Tracks(owners + [call], AfterCall(c, call), call, |owners|, [])
  {
    hide Registered;
    assert Map([], Payload) == [];
    CallSound(owners, c, call);
    PlaceIsOwned(owners, c, call);
  }

  /** What one action is taken to be about: streams are given out once, so a request's stream is not a
      session; and the events of a stream with an echo on it are about that stream. */
  predicate Keeps(call: Owner, streams: set<nat>, a: Action) {
    match a
    case Called(other) => call.GetCall? ==> other != OpenCall(call.id)
    case Received(StreamData(s, _, _, http)) =>
      s in streams && call != BidiCall(s) ==> forall e :: e in http ==> !Concerns(call, e)
    case Received(_) => true
  }

  lemma {:induction false} NoParts(call: Owner, es: seq<HttpEvent>)
    requires forall e :: e in es ==> !Concerns(call, e)
    ensures Parts(call, es) == []
  {
    hide Concerns;
    if es != [] {
      assert es == [es[0]] + es[1..];
      NoParts(call, es[1..]);
    }
  }

  lemma {:induction false} HttpKeepsEchoes(c: Client, es: seq<HttpEvent>)
    ensures HttpSteps(c, es).client.echoes.Keys <= c.echoes.Keys
    decreases |es|
  {
    hide Raises, ObservedHttp;
    if es != [] && !Raises(c, es[0]) {
      HttpKeepsEchoes(AfterHttp(c, es[0]), es[1..]);
    }
  }

  /** Data on a stream with an echo waiting goes to that echo alone. */
  lemma ClaimedTracks(owners: seq<Owner>, c: Client, call: Owner, w: nat, arrived: seq<Arrival>, s: nat,
                      data: seq<byte>, ended: bool, http: seq<HttpEvent>)
    requires Tracks(owners, c, call, w, arrived) && s in c.echoes
    requires call != BidiCall(s) ==> forall e :: e in http ==> !Concerns(call, e)
    ensures Tracks(owners, AfterEcho(c, s, data, ended), call, w,
                   arrived + ActionArrivals(call, Received(StreamData(s, data, ended, http))))
    ensures AfterEcho(c, s, data, ended).echoes.Keys <= c.echoes.Keys
  {
    hide Tracks, Parts;
    EchoTracks(owners, c, call, w, arrived, WebTransportData(s, data, ended));
    if call != BidiCall(s) { NoParts(call, http); }
  }

  /** Data on any other stream is what the library makes of it. */
  lemma UnclaimedTracks(owners: seq<Owner>, c: Client, call: Owner, w: nat, arrived: seq<Arrival>, s: nat,
                        data: seq<byte>, ended: bool, http: seq<HttpEvent>)
    requires Tracks(owners, c, call, w, arrived) && s !in c.echoes
    ensures Tracks(owners, HttpSteps(c, http).client, call, w,
                   arrived + ActionArrivals(call, Received(StreamData(s, data, ended, http))))
  {
    hide HttpSteps, Parts, Outcome, IsDecided, IsReplaced, Sound, SessionsWait;
    HttpsTrack(owners, c, call, w, arrived, http);
    if call == BidiCall(s) {
      DecidedTracks(owners, HttpSteps(c, http).client, call, w, arrived, Parts(call, http),
                    [Part(WebTransportData(s, data, ended))]);
    }
  }

  lemma ActionTracks(owners: seq<Owner>, c: Client, call: Owner, w: nat, arrived: seq<Arrival>, a: Action,
                     streams: set<nat>)
    returns (more: seq<Owner>)
    requires Tracks(owners, c, call, w, arrived) && Keeps(call, streams, a) && c.echoes.Keys <= streams
    requires IsEchoCall(a) ==> a.call.id in streams
    ensures Tracks(more, ActionStep(c, a).client, call, w, arrived + ActionArrivals(call, a))
    ensures ActionStep(c, a).client.echoes.Keys <= streams
  {
    hide Tracks, HttpSteps, AfterEcho, Failed, Pending, Parts, Concerns;
    more := owners;
    match a
    case Called(other) =>
      CallTracks(owners, c, call, w, arrived, other);
      more := owners + [other];
    case Received(ConnectionTerminated) => ClosedTracks(owners, c, call, w, arrived);
    case Received(Other(http)) =>
      HttpsTrack(owners, c, call, w, arrived, http);
      HttpKeepsEchoes(c, http);
    case Received(StreamData(s, data, ended, http)) =>
      if s in c.echoes {
        ClaimedTracks(owners, c, call, w, arrived, s, data, ended, http);
      } else {
        HttpKeepsEchoes(c, http);
        UnclaimedTracks(owners, c, call, w, arrived, s, data, ended, http);
      }
  }

  lemma {:induction false} RunTracks(owners: seq<Owner>, c: Client, call: Owner, w: nat, actions: seq<Action>,
                                     streams: set<nat>)
    returns (more: seq<Owner>)
    requires Tracks(owners, c, call, w, []) && c.echoes.Keys + EchoStreams(actions) <= streams
    requires forall a :: a in actions ==> Keeps(call, streams, a)
    ensures Tracks(more, After(c, actions), call, w, Arrivals(call, actions))
    ensures After(c, actions).echoes.Keys <= streams
  {
    hide Tracks, Keeps, ActionStep, ActionArrivals;
    more := owners;
    if actions != [] {
      var n := |actions| - 1;
      assert actions == actions[..n] + [actions[n]];
      assert IsEchoCall(actions[n]) ==> actions[n].call.id in EchoStreams(actions);
      var before := RunTracks(owners, c, call, w, actions[..n], streams);
      more := ActionTracks(before, After(c, actions[..n]), call, w, Arrivals(call, actions[..n]), actions[n], streams);
    }
  }

  /** What a run takes from the library: see `Keeps`. */
  predicate OwnEvents(c: Client, call: Owner, actions: seq<Action>) {
    && (call.GetCall? ==> call.id !in c.sessions)
    && forall a :: a in actions ==> Keeps(call, c.echoes.Keys + EchoStreams(actions), a)
  }

  /** A call on an open connection and then any run: its future is what the arrivals make of it. */
  lemma CallOutcome(owners: seq<Owner>, c: Client, call: Owner, actions: seq<Action>)
    requires Sound(owners, c) && SessionsWait(c) && OwnEvents(AfterCall(c, call), call, actions)
    ensures var waiters := After(AfterCall(c, call), actions).waiters;
            |c.waiters| < |waiters| && waiters[|c.waiters|] == Outcome(call, Arrivals(call, actions))
  {
    hide Registered, SessionsWait, Outcome, IsDecided, IsReplaced, Entered, Place, After, Arrivals, EchoStreams, Keeps;
    assert call.GetCall? ==> call.id !in c.sessions;
    NewCallTracks(owners, c, call);
    var after := AfterCall(c, call);
    var more := RunTracks(owners + [call], after, call, |owners|, actions, after.echoes.Keys + EchoStreams(actions));
  }

  /** Any of the four calls on an open connection, and then any run of calls and events, through the
      class: what the future holds is a matter of the events alone. */
  method RunCall(client: HealthProtocol, call: Owner, actions: seq<Action>) returns (w: nat)
    requires client.Valid() && !client.closed && (call.BidiCall? ==> call.id !in client.calls)
    requires FreshStreams(actions, client.calls.Keys + if call.BidiCall? then {call.id} else {})
    requires OwnEvents(AfterCall(client.AsClient(), call), call, actions)
    modifies client
    ensures client.Valid() && w == old(|client.waiters|) < |client.waiters|
    ensures client.waiters[w] == Outcome(call, Arrivals(call, actions))
  {
    hide HealthProtocol.Valid, Registered, After, Outcome, Arrivals, FreshStreams, OwnEvents, Sound, SessionsWait;
    client.OpenIsSound();
    CallOutcome(client.owners, client.AsClient(), call, actions);
    w := |client.waiters|;
    client.Perform(Called(call));
    RunActions(client, actions);
  }

  /** The unguarded settling does raise once the connection is gone: a response that arrives for a
      session still waiting then finds its waiter done. */
  method LateResponseRaises(client: HealthProtocol, s: nat, status: Option<nat>) returns (raised: bool)
    requires client.Valid()
    modifies client
    ensures raised
  {
    var w := client.OpenWebTransport(s);
    client.OnTerminated();
    raised := client.OnHttp(HeadersReceived(s, status, false));
  }
}

/** The whole bidirectional echo: client, a backend, and the ordered reliable streams between them. */
module EchoChain {
  import opened Lists
  import opened Bytes
  import opened Varint
  import H = HealthClient
  import A = Aioquic
  import P = Preface
  import Q = QuinnEcho
  import T = TokioQuiche
  import R = TokioRuns

  /** What a reliable ordered stream may show of a reply: after every chunk some prefix of it, and an
      end only once all of it is there and the sender has ended it. */
  ghost predicate Delivers(os: seq<H.Observation>, s: nat, reply: seq<byte>, replyEnded: bool) {
    forall i :: 0 <= i < |os| && H.OnStream(os[i], s) ==>
      && H.Collected(os[..i + 1], s) <= reply
      && (os[i].ended ==> replyEnded && H.Collected(os[..i + 1], s) == reply)
  }

  /** The stream ended before the connection did. */
  ghost predicate EndedFirst(os: seq<H.Observation>, s: nat) {
    exists i :: EndsAt(os, s, i)
  }

  ghost predicate EndsAt(os: seq<H.Observation>, s: nat, i: int) {
    0 <= i < |os| && H.OnStream(os[i], s) && os[i].ended && H.Closed !in os[..i]
  }

  lemma EndedFirstSnoc(os: seq<H.Observation>, o: H.Observation, s: nat)
    ensures EndedFirst(os + [o], s) <==> EndedFirst(os, s) || (H.OnStream(o, s) && o.ended && H.Closed !in os)
  {
    var t := os + [o];
    assert t[..|os|] == os;
    if i :| EndsAt(os, s, i) {
      assert t[..i] == os[..i];
      assert EndsAt(t, s, i);
    }
    if i :| EndsAt(t, s, i) {
      if i < |os| {
        assert t[..i] == os[..i];
        assert EndsAt(os, s, i);
      }
    }
    if H.OnStream(o, s) && o.ended && H.Closed !in os {
      assert EndsAt(t, s, |os|);
    }
  }

  /** What becomes of a waiter when the given payload is what its stream brings. */
  ghost function Expected(os: seq<H.Observation>, s: nat, payload: seq<byte>): Option<H.Settled> {
    if EndedFirst(os, s) then Some(H.Echoed(payload))
    else if H.Closed in os then Some(H.Error)
    else None
  }

  lemma DeliversPrefix(os: seq<H.Observation>, o: H.Observation, s: nat, reply: seq<byte>, replyEnded: bool)
    requires Delivers(os + [o], s, reply, replyEnded)
    ensures Delivers(os, s, reply, replyEnded)
    ensures H.OnStream(o, s) && o.ended ==> replyEnded && H.Collected(os, s) + o.data == reply
  {
    hide H.Collected;
    var t := os + [o];
    H.ObserveSnoc(os, o, s);
    assert t[|os|] == o && t[..|os| + 1] == t;
    forall i | 0 <= i < |os| && H.OnStream(os[i], s)
      ensures H.Collected(os[..i + 1], s) <= reply
        && (os[i].ended ==> replyEnded && H.Collected(os[..i + 1], s) == reply)
    {
      assert t[i] == os[i] && t[..i + 1] == os[..i + 1];
    }
  }

  /** Over an ordered reliable stream an echo waiter holds the whole reply exactly when the reply's end
      came before the connection's, has failed exactly when the connection ended first, and is
      pending otherwise; and an end shows only when the sender ended the reply. */
  lemma {:induction false} ResultIsReply(os: seq<H.Observation>, s: nat, reply: seq<byte>, replyEnded: bool)
    requires Delivers(os, s, reply, replyEnded)
    ensures H.EchoOutcome(os, s) == Expected(os, s, reply)
    ensures EndedFirst(os, s) ==> replyEnded
  {
    if os != [] {
      hide H.EchoOutcome, EndedFirst, Delivers, H.Collected;
      var n := |os| - 1;
      var before, o := os[..n], os[n];
      assert os == before + [o];
      DeliversPrefix(before, o, s, reply, replyEnded);
      ResultIsReply(before, s, reply, replyEnded);
      H.ObserveSnoc(before, o, s);
      EndedFirstSnoc(before, o, s);
    }
  }

  /** The same in terms of the events that reach the client: what a reliable ordered stream may bring of
      a reply, however cut, mixed with anything else, up to a normal or an abrupt end. */
  ghost predicate Brings(arrived: seq<H.Arrival>, reply: seq<byte>, replyEnded: bool) {
    forall i :: 0 <= i < |arrived| && arrived[i].Part? ==>
      && H.Body(arrived[..i + 1]) <= reply
      && (IsEnd(arrived[i]) ==> replyEnded && H.Body(arrived[..i + 1]) == reply)
  }

  predicate IsEnd(a: H.Arrival) {
    a.Part? && a.event.WebTransportData? && a.event.ended
  }

  ghost predicate EndsFirst(arrived: seq<H.Arrival>) {
    exists i :: 0 <= i < |arrived| && IsEnd(arrived[i]) && H.Lost !in arrived[..i]
  }

  /** The future of an echo whose stream brings the given payload. */
  ghost function Promised(arrived: seq<H.Arrival>, payload: seq<byte>): Option<H.Settled> {
    if EndsFirst(arrived) then Some(H.Echoed(payload))
    else if H.Lost in arrived then Some(H.Error)
    else None
  }

  /** What arrives for an echo call is stream data, or the end of the connection: its stream is not
      given out again. */
  lemma {:induction false} EchoArrivals(s: nat, actions: seq<H.Action>)
    requires H.Called(H.BidiCall(s)) !in actions
    ensures forall a :: a in H.Arrivals(H.BidiCall(s), actions) ==> a.Lost? || (a.Part? && a.event.WebTransportData?)
  {
    if actions != [] {
      var n := |actions| - 1;
      assert actions == actions[..n] + [actions[n]];
      EchoArrivals(s, actions[..n]);
      if actions[n].Received? && !actions[n].event.ConnectionTerminated? { PartsAreData(s, actions[n].event.http); }
    }
  }

  lemma {:induction false} PartsAreData(s: nat, es: seq<H.HttpEvent>)
    ensures forall a :: a in H.Parts(H.BidiCall(s), es) ==> a.Part? && a.event.WebTransportData?
  {
    if es != [] { PartsAreData(s, es[1..]); }
  }

  lemma ArrivedIsReply(s: nat, arrived: seq<H.Arrival>, reply: seq<byte>, replyEnded: bool)
    requires forall a :: a in arrived ==> a.Lost? || (a.Part? && a.event.WebTransportData?)
    requires Brings(arrived, reply, replyEnded)
    ensures H.Outcome(H.BidiCall(s), arrived) == Promised(arrived, reply)
    ensures EndsFirst(arrived) ==> replyEnded
  {
    hide H.Body;
    var k := H.Decision(H.BidiCall(s), arrived);
    if i :| 0 <= i < |arrived| && IsEnd(arrived[i]) && H.Lost !in arrived[..i] {
      assert H.Decides(H.BidiCall(s), arrived[i]);
      assert k <= i;
      if k < i { assert arrived[k] in arrived[..i]; }
    } else if H.Lost in arrived {
      var i :| 0 <= i < |arrived| && arrived[i] == H.Lost;
      assert H.Decides(H.BidiCall(s), arrived[i]);
    }
  }

  lemma FreshMeansOnce(s: nat, actions: seq<H.Action>, used: set<nat>)
    requires H.FreshStreams(actions, used) && s in used
    ensures H.Called(H.BidiCall(s)) !in actions
  {
    forall i | 0 <= i < |actions| ensures actions[i] != H.Called(H.BidiCall(s)) {
      assert H.IsEchoCall(actions[i]) ==> actions[i].call.id !in used;
    }
  }

  lemma ReplyIsPromised(s: nat, actions: seq<H.Action>, used: set<nat>, reply: seq<byte>, replyEnded: bool,
                        payload: seq<byte>)
    requires H.FreshStreams(actions, used) && s in used && (replyEnded ==> reply == payload)
    requires Brings(H.Arrivals(H.BidiCall(s), actions), reply, replyEnded)
    ensures H.Outcome(H.BidiCall(s), H.Arrivals(H.BidiCall(s), actions)) ==
            Promised(H.Arrivals(H.BidiCall(s), actions), payload)
    ensures EndsFirst(H.Arrivals(H.BidiCall(s), actions)) ==> replyEnded
  {
    hide H.Outcome, H.Arrivals, H.FreshStreams, Brings, EndsFirst;
    FreshMeansOnce(s, actions, used);
    EchoArrivals(s, actions);
    ArrivedIsReply(s, H.Arrivals(H.BidiCall(s), actions), reply, replyEnded);
  }

  /** The client's connection is open when it calls `bidi_echo` on stream s, and what then arrives on
      that stream is what a reliable stream brings of the reply. */
  ghost predicate OverStream(c: H.Client, closed: bool, s: nat, actions: seq<H.Action>, reply: seq<byte>,
                             replyEnded: bool)
  {
    && !closed && H.OwnEvents(H.AfterCall(c, H.BidiCall(s)), H.BidiCall(s), actions)
    && Brings(H.Arrivals(H.BidiCall(s), actions), reply, replyEnded)
  }

  /** Through the aioquic backend: the client's stream s carries the payload in any segmentation
      inside an accepted session, and the reply comes back in any re-segmentation. */
  lemma AioquicBidiEcho(server: seq<A.Event>, os: seq<H.Observation>, s: nat, sid: nat, payload: seq<byte>)
    requires A.UsesSession(server, s, sid) && A.WellEnded(server, s) && A.Early(server, s) == 0
    requires A.Ended(server, s) ==> A.Input(server, s) == payload
    requires Delivers(os, s, A.Output(server, s), A.ReplyEnded(server, s))
    ensures H.EchoOutcome(os, s) == Expected(os, s, payload)
    ensures EndedFirst(os, s) ==> A.FinAccepted(server, s)
  {
    hide A.Output, A.Input, A.Ended, A.WellEnded, A.UsesSession, A.ReplyEnded, A.FinAccepted, EndedFirst, Delivers,
      H.EchoOutcome;
    AioquicReply(server, s, sid, payload);
    A.ReplyEndedExactly(server, s);
    ResultIsReply(os, s, A.Output(server, s), A.ReplyEnded(server, s));
  }

  lemma AioquicReply(server: seq<A.Event>, s: nat, sid: nat, payload: seq<byte>)
    requires A.UsesSession(server, s, sid) && A.WellEnded(server, s) && A.Early(server, s) == 0
    requires A.Ended(server, s) ==> A.Input(server, s) == payload
    ensures A.ReplyEnded(server, s) ==> A.Output(server, s) == payload
  {
    hide A.Output, A.Input, A.Ended, A.WellEnded, A.UsesSession, A.ReplyEnded, A.FinAccepted;
    A.EchoIsInput(server, s, sid);
    A.ReplyEndedExactly(server, s);
    FinEnds(server, s);
  }

  lemma FinEnds(server: seq<A.Event>, s: nat)
    ensures A.FinAccepted(server, s) ==> A.Ended(server, s)
  {
    A.FinSnoc(server, A.Other, s);
  }

  /** The client's event handler and the aioquic backend together: `bidi_echo` on an open connection,
      then any calls and events that bring what a reliable stream brings of the backend's reply. The
      future holds exactly the payload if the reply ended before the connection, has failed if the
      connection ended first, and is pending otherwise. The same holds of what the handler observed. */
  method AioquicEchoRun(client: H.HealthProtocol, s: nat, actions: seq<H.Action>, ghost server: seq<A.Event>,
                        ghost sid: nat, ghost payload: seq<byte>)
    returns (w: nat)
    requires client.Valid() && s !in client.calls && H.FreshStreams(actions, client.calls.Keys + {s})
    requires A.UsesSession(server, s, sid) && A.WellEnded(server, s) && A.Early(server, s) == 0
    requires A.Ended(server, s) ==> A.Input(server, s) == payload
    modifies client
    ensures client.Valid() && w == old(|client.waiters|) < |client.waiters|
    ensures OverStream(old(client.AsClient()), old(client.closed), s, actions, A.Output(server, s),
                       A.ReplyEnded(server, s)) ==>
              client.waiters[w] == Promised(H.Arrivals(H.BidiCall(s), actions), payload)
    ensures var os := H.Seen(H.AfterCall(old(client.AsClient()), H.BidiCall(s)), actions);
            Delivers(os, s, A.Output(server, s), A.ReplyEnded(server, s)) ==>
              client.waiters[w] == Expected(os, s, payload)
  {
    hide H.HealthProtocol.Valid, H.Seen, Delivers, Expected, A.UsesSession, A.WellEnded, A.Ended, H.FreshStreams,
      H.EchoOutcome, H.OwnEvents, H.Outcome, H.Arrivals, Brings, Promised, EndsFirst, A.Output, A.ReplyEnded;
    ghost var os := H.Seen(H.AfterCall(client.AsClient(), H.BidiCall(s)), actions);
    ghost var used := client.calls.Keys + {s};
    w := H.RunBidiEcho(client, s, actions);
    if Delivers(os, s, A.Output(server, s), A.ReplyEnded(server, s)) {
      AioquicBidiEcho(server, os, s, sid, payload);
    }
    AioquicReply(server, s, sid, payload);
    if Brings(H.Arrivals(H.BidiCall(s), actions), A.Output(server, s), A.ReplyEnded(server, s)) {
      ReplyIsPromised(s, actions, used, A.Output(server, s), A.ReplyEnded(server, s), payload);
    }
  }

  /** Through the tokio-quiche backend, once everything queued on the stream is sent: the client's
      stream s carries the payload in any segmentation. */
  lemma TokioBidiEcho(server: seq<T.Event>, os: seq<H.Observation>, s: nat, payload: seq<byte>)
    requires s % 4 != 3 && (R.BidiEnded(server, s) ==> R.BidiInput(server, s) == payload)
    requires Delivers(os, s, R.Reply(server, s), R.ReplyEnded(server, s))
    ensures H.EchoOutcome(os, s) == Expected(os, s, payload)
    ensures EndedFirst(os, s) ==> R.BidiEnded(server, s)
  {
    hide R.Reply, R.ReplyEnded, R.BidiInput, R.BidiEnded, EndedFirst, Delivers, H.EchoOutcome;
    R.ReplyIsInput(server, s);
    ResultIsReply(os, s, R.Reply(server, s), R.ReplyEnded(server, s));
  }

  /** The client's event handler and the tokio-quiche backend together, in the same sense. */
  method TokioEchoRun(client: H.HealthProtocol, s: nat, actions: seq<H.Action>, ghost server: seq<T.Event>,
                      ghost payload: seq<byte>)
    returns (w: nat)
    requires client.Valid() && s !in client.calls && H.FreshStreams(actions, client.calls.Keys + {s})
    requires s % 4 != 3 && (R.BidiEnded(server, s) ==> R.BidiInput(server, s) == payload)
    modifies client
    ensures client.Valid() && w == old(|client.waiters|) < |client.waiters|
    ensures OverStream(old(client.AsClient()), old(client.closed), s, actions, R.Reply(server, s),
                       R.ReplyEnded(server, s)) ==>
              client.waiters[w] == Promised(H.Arrivals(H.BidiCall(s), actions), payload)
    ensures var os := H.Seen(H.AfterCall(old(client.AsClient()), H.BidiCall(s)), actions);
            Delivers(os, s, R.Reply(server, s), R.ReplyEnded(server, s)) ==>
              client.waiters[w] == Expected(os, s, payload)
  {
    hide H.HealthProtocol.Valid, H.Seen, Delivers, Expected, H.FreshStreams, H.EchoOutcome, R.Reply, R.ReplyEnded,
      H.OwnEvents, H.Outcome, H.Arrivals, Brings, Promised, EndsFirst, R.BidiInput, R.BidiEnded;
    ghost var os := H.Seen(H.AfterCall(client.AsClient(), H.BidiCall(s)), actions);
    ghost var used := client.calls.Keys + {s};
    w := H.RunBidiEcho(client, s, actions);
    if Delivers(os, s, R.Reply(server, s), R.ReplyEnded(server, s)) {
      TokioBidiEcho(server, os, s, payload);
    }
    R.ReplyIsInput(server, s);
    if Brings(H.Arrivals(H.BidiCall(s), actions), R.Reply(server, s), R.ReplyEnded(server, s)) {
      ReplyIsPromised(s, actions, used, R.Reply(server, s), R.ReplyEnded(server, s), payload);
    }
  }

  /** What the client's library puts before the payload of a bidirectional stream. */
  function WirePreface(sid: u64): seq<byte> {
    Encode(Q.WT_BIDI_STREAM_TYPE) + Encode(sid)
  }

  /** The payload bytes among the first bytes of such a stream. */
  function PayloadIn(arrived: seq<byte>, sid: u64): seq<byte> {
    var n := |WirePreface(sid)|;
    if |arrived| < n then [] else arrived[n..]
  }

  /** Through the quinn backend: the stream's bytes arrive in any chunks, all of them or up to a failed
      read, and the send side may fail too. The payload that arrived is echoed as far as the send side
      takes it, and the reply is ended unless a write failed. */
  method QuinnBidiEcho(chunks: seq<seq<byte>>, ending: Q.Ending, room: Q.Room, sid: u64, ghost payload: seq<byte>)
    returns (send: Q.SendStream, r: Q.Outcome)
    requires sid < TWO62 && Flatten(chunks) <= WirePreface(sid) + payload
    ensures fresh(send) && send.finished == Q.Fits(|PayloadIn(Flatten(chunks), sid)|, room)
    ensures send.bytes == Q.Taken(PayloadIn(Flatten(chunks), sid), room)
    ensures r.Echoed? <==>
            ending.Finished? && send.finished && |WirePreface(sid)| <= |Flatten(chunks)|
  {
    hide Encode, P.Parse, Flatten;
    send := new Q.SendStream(room);
    r := Q.EchoBidiStream(chunks, ending, send);
    P.ParsePart(Q.WT_BIDI_STREAM_TYPE, sid, payload, Flatten(chunks));
  }

  /** The client's event handler and the quinn backend together. The future holds what was echoed,
      and that is the payload exactly when all of it had arrived before the backend's read ended; a
      read that ends normally is such a case, a failed one need not be. */
  method QuinnEchoRun(chunks: seq<seq<byte>>, ending: Q.Ending, room: Q.Room, sid: u64, ghost payload: seq<byte>,
                      client: H.HealthProtocol, s: nat, actions: seq<H.Action>)
    returns (send: Q.SendStream, w: nat)
    requires sid < TWO62 && Flatten(chunks) <= WirePreface(sid) + payload
    requires ending.Finished? ==> Flatten(chunks) == WirePreface(sid) + payload
    requires client.Valid() && s !in client.calls && H.FreshStreams(actions, client.calls.Keys + {s})
    modifies client
    ensures client.Valid() && w == old(|client.waiters|) < |client.waiters|
    ensures var os := H.Seen(H.AfterCall(old(client.AsClient()), H.BidiCall(s)), actions);
            Delivers(os, s, send.bytes, send.finished) ==>
              && client.waiters[w] == Expected(os, s, PayloadIn(Flatten(chunks), sid))
              && (EndedFirst(os, s) ==> (client.waiters[w] == Some(H.Echoed(payload)) <==>
                                         PayloadIn(Flatten(chunks), sid) == payload))
              && (ending.Finished? ==> client.waiters[w] == Expected(os, s, payload))
    ensures var arrived := H.Arrivals(H.BidiCall(s), actions);
            OverStream(old(client.AsClient()), old(client.closed), s, actions, send.bytes, send.finished) ==>
              && client.waiters[w] == Promised(arrived, PayloadIn(Flatten(chunks), sid))
              && (EndsFirst(arrived) ==> (client.waiters[w] == Some(H.Echoed(payload)) <==>
                                          PayloadIn(Flatten(chunks), sid) == payload))
              && (ending.Finished? ==> client.waiters[w] == Promised(arrived, payload))
  {
    hide H.HealthProtocol.Valid, H.Seen, Delivers, EndedFirst, H.FreshStreams, H.EchoOutcome, WirePreface, Flatten,
      H.OwnEvents, H.Outcome, H.Arrivals, Brings, EndsFirst;
    ghost var used := client.calls.Keys + {s};
    ghost var os := H.Seen(H.AfterCall(client.AsClient(), H.BidiCall(s)), actions);
    var r;
    send, r := QuinnBidiEcho(chunks, ending, room, sid, payload);
    w := H.RunBidiEcho(client, s, actions);
    assert (WirePreface(sid) + payload)[|WirePreface(sid)|..] == payload;
    if Delivers(os, s, send.bytes, send.finished) {
      ResultIsReply(os, s, send.bytes, send.finished);
    }
    if Brings(H.Arrivals(H.BidiCall(s), actions), send.bytes, send.finished) {
      ReplyIsPromised(s, actions, used, send.bytes, send.finished, PayloadIn(Flatten(chunks), sid));
    }
  }

  /** A read that fails after the preface: nothing of the payload is echoed, and the reply is ended all
      the same, so a client that is shown it takes the empty echo for the answer. */
  method TruncatedReply(sid: u64) returns (send: Q.SendStream)
    requires sid < TWO62
    ensures send.bytes == [] && send.finished
  {
    hide Encode;
    var preface := WirePreface(sid);
    assert Flatten([preface]) == preface by {
      FlattenSnoc<byte>([], preface);
      assert [] + [preface] == [preface] && Flatten<byte>([]) == [] && [] + preface == preface;
    }
    var r;
    send, r := QuinnBidiEcho([preface], Q.ReadFailed, None, sid, [1]);
  }
}
