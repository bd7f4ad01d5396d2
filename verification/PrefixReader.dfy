/** The incremental preface reader of the quinn backend (src/main.rs), and the echo loops built on it. */
module Preface {
  import opened Lists
  import opened Bytes
  import opened Varint

  /** Reference reading of a whole byte string: at most two integers off the front (stream type and
      session id), the bytes of an integer not yet complete, and the payload after the second one. */
  datatype Reading = Reading(values: seq<nat>, pending: seq<byte>, payload: seq<byte>)

  function Parse(s: seq<byte>): (r: Reading)
    ensures |r.values| <= 2 && (|r.values| == 2 ==> r.pending == [])
  {
    match Decode(s)
    case None => Reading([], s, [])
    case Some((a, m)) =>
      match Decode(s[m..])
      case None => Reading([a], s[m..], [])
      case Some((b, n)) => Reading([a, b], [], s[m + n..])
  }

  /** How many input bytes the integers took. */
  function Consumed(s: seq<byte>): (n: nat)
    ensures n <= |s|
  {
    match Decode(s)
    case None => 0
    case Some((_, m)) =>
      match Decode(s[m..])
      case None => m
      case Some((_, n)) => m + n
  }

  class PrefixReader {
    var pending: seq<byte>
    var values: seq<nat>
    /** Everything pushed so far, and everything handed to the payload vector. */
    ghost var fed: seq<byte>
    ghost var emitted: seq<byte>

    ghost predicate Valid()
      reads this
    {
      Reading(values, pending, emitted) == Parse(fed)
    }

    constructor ()
      ensures Valid() && fed == [] && emitted == [] && values == []
    {
      pending, values, fed, emitted := [], [], [], [];
    }

    /** Whatever the chunk boundaries, the reader's fields and the payload handed out are those of
        reading all bytes pushed so far at once. */
    method Push(chunk: seq<byte>, payload: ByteVec)
      requires Valid()
      modifies this, payload
      ensures Valid() && fed == old(fed) + chunk
      ensures old(emitted) <= emitted && payload.data == old(payload.data) + emitted[|old(emitted)|..]
    {
      ghost var before := values;
      Resume(fed, chunk);
      fed := fed + chunk;
      pending := pending + chunk;
      ghost var todo := pending;
      while true
        invariant |values| <= 2 && emitted == old(emitted) && payload.data == old(payload.data)
        invariant Continue(values, pending, emitted) == Parse(fed)
        invariant fed == old(fed) + chunk
        decreases |pending|
      {
        if |values| >= 2 {
          payload.Extend(pending);
          emitted := emitted + pending;
          pending := [];
          return;
        }
        var decoded := ReadVarint(pending);
        match decoded {
          case Some((value, len)) =>
            values := values + [value];
            pending := pending[len..];
          case None =>
            return;
        }
      }
    }
  }

  /** The reading reached from integers and payload already handed out, with p still to be scanned. */
  function Continue(values: seq<nat>, p: seq<byte>, payload: seq<byte>): Reading
    requires |values| <= 2
    decreases 2 - |values|
  {
    if |values| == 2 then Reading(values, [], payload + p)
    else
      match Decode(p)
      case None => Reading(values, p, payload)
      case Some((v, n)) => Continue(values + [v], p[n..], payload)
  }

  /** Scanning from nothing is reading. */
  lemma ScanAll(p: seq<byte>)
    ensures Continue([], p, []) == Parse(p)
  {
    if Decode(p).Some? {
      var (v, n) := Decode(p).value;
      assert [] + [v] == [v];
      ScanSecond(v, p[n..]);
      if Decode(p[n..]).Some? {
        var k := Decode(p[n..]).value.1;
        assert p[n..][k..] == p[n + k..];
      }
    }
  }

  lemma ScanSecond(v: nat, p: seq<byte>)
    ensures Continue([v], p, []) ==
            if Decode(p).None? then Reading([v], p, [])
            else Reading([v, Decode(p).value.0], [], p[Decode(p).value.1..])
  {
    if Decode(p).Some? {
      assert [] + p[Decode(p).value.1..] == p[Decode(p).value.1..];
    }
  }

  /** Reading s and then scanning on with the next chunk is reading s ++ chunk. */
  lemma Resume(s: seq<byte>, chunk: seq<byte>)
    ensures var r := Parse(s); Continue(r.values, r.pending + chunk, r.payload) == Parse(s + chunk)
  {
    hide Decode;
    if Decode(s).None? {
      ScanAll(s + chunk);
    } else {
      var (v, m) := Decode(s).value;
      DecodeExtended(s, chunk);
      assert (s + chunk)[m..] == s[m..] + chunk;
      ResumeSecond(s, chunk, v, m);
    }
  }

  lemma ResumeSecond(s: seq<byte>, chunk: seq<byte>, v: nat, m: nat)
    requires Decode(s) == Some((v, m)) && Decode(s + chunk) == Some((v, m))
    requires (s + chunk)[m..] == s[m..] + chunk
    ensures var r := Parse(s); Continue(r.values, r.pending + chunk, r.payload) == Parse(s + chunk)
  {
    hide Decode, Continue;
    var t := s[m..];
    ParseSecond(s, v, m);
    ParseSecond(s + chunk, v, m);
    if Decode(t).None? {
      ScanSecond(v, t + chunk);
    } else {
      DecodeExtended(t, chunk);
      var n := Decode(t).value.1;
      assert (t + chunk)[n..] == t[n..] + chunk;
      Exhausted([v, Decode(t).value.0], chunk, t[n..]);
    }
  }

  lemma ParseSecond(s: seq<byte>, v: nat, m: nat)
    requires Decode(s) == Some((v, m))
    ensures var t := s[m..];
            Parse(s) == if Decode(t).None? then Reading([v], t, [])
                        else Reading([v, Decode(t).value.0], [], t[Decode(t).value.1..])
  {
    hide Decode;
    var t := s[m..];
    if Decode(t).Some? {
      var n := Decode(t).value.1;
      assert t[n..] == s[m + n..];
    }
  }

  lemma Exhausted(values: seq<nat>, chunk: seq<byte>, payload: seq<byte>)
    requires |values| == 2
    ensures Continue(values, [] + chunk, payload) == Reading(values, [], payload + chunk)
  {
    assert [] + chunk == chunk;
  }

  /** No byte is lost or duplicated: the encodings consumed, the pending bytes and the payload make
      up the input, and the consumed bytes are exactly the encodings of the values delivered. */
  lemma Conservation(s: seq<byte>)
    ensures var r := Parse(s);
            && s == s[..Consumed(s)] + r.pending + r.payload
            && Parse(s[..Consumed(s)]) == Reading(r.values, [], [])
            && (r.pending != [] ==> Decode(r.pending) == None && r.payload == [])
  {
    if Decode(s).Some? {
      var m := Decode(s).value.1;
      DecodeFront(s);
      if Decode(s[m..]).Some? {
        var n := Decode(s[m..]).value.1;
        DecodeFront(s[m..]);
        var t := s[..m + n];
        Slices(s, m, n);
        DecodeExtended(s[..m], t[m..]);
        assert t[m + n..] == [];
      } else {
        assert s[..m][m..] == [] && s == s[..m] + s[m..];
      }
    }
  }

  lemma Slices(s: seq<byte>, m: nat, n: nat)
    requires m + n <= |s|
    ensures s[..m + n][..m] == s[..m] && s[..m + n][m..] == s[m..][..n]
    ensures s[..m + n] == s[..m] + s[m..][..n] && s == s[..m + n] + s[m + n..]
  {
  }

  lemma DecodeFront(s: seq<byte>)
    requires Decode(s).Some?
    ensures Decode(s[..Decode(s).value.1]) == Decode(s)
  {
    var n := Decode(s).value.1;
    assert s[..n][1..n] == s[1..n];
  }

  /** What a writer frames with two minimal varints, a reader recovers. */
  lemma ParseFrame(a: u64, b: u64, payload: seq<byte>)
    requires a < TWO62 && b < TWO62
    ensures Parse(Encode(a) + Encode(b) + payload) == Reading([a, b], [], payload)
  {
    hide Encode, Decode;
    var s := Encode(a) + Encode(b) + payload;
    var rest := Encode(b) + payload;
    assert s == Encode(a) + rest;
    DecodeEncode(a, rest);
    assert s[|Encode(a)|..] == rest;
    DecodeEncode(b, payload);
    assert s[|Encode(a)| + |Encode(b)|..] == payload;
  }

  /** Part of such a frame: no second integer before the preface is whole, and after that the part of
      the payload that is there. */
  lemma ParsePart(a: u64, b: u64, payload: seq<byte>, part: seq<byte>)
    requires a < TWO62 && b < TWO62 && part <= Encode(a) + Encode(b) + payload
    ensures var n := |Encode(a) + Encode(b)|;
            if |part| < n then |Parse(part).values| < 2
            else Parse(part) == Reading([a, b], [], part[n..]) && part[n..] <= payload
  {
    hide Encode, Decode;
    var k, m, n := |part|, |Encode(a)|, |Encode(b)|;
    var whole := Encode(a) + Encode(b) + payload;
    assert part == whole[..k];
    if k < m {
      StrictPrefixUndecoded(a, k);
      assert part == Encode(a)[..k];
    } else if k < m + n {
      var rest := Encode(b)[..k - m];
      StrictPrefixUndecoded(b, k - m);
      assert part == Encode(a) + rest;
      DecodeEncode(a, rest);
      assert part[m..] == rest;
    } else {
      var taken := payload[..k - m - n];
      assert part == Encode(a) + Encode(b) + taken;
      ParseFrame(a, b, taken);
      assert part[m + n..] == taken;
    }
  }
}

/** The echo loops of the quinn backend, over whatever chunks the transport delivers. */
module QuinnEcho {
  import opened Lists
  import opened Bytes
  import opened Varint
  import opened Preface

  const WT_BIDI_STREAM_TYPE: u64 := 0x41
  const WT_UNI_STREAM_TYPE: u64 := 0x54

  /** How the receive side of a stream ends. */
  datatype Ending = Finished | ReadFailed

  datatype Outcome =
    | Echoed
    | EndedBeforePreface
    | UnexpectedType(streamType: nat)
    | ReadError
    | WriteError
    | OpenError

  /** What the backend wrote on one send side. */
  datatype Written = Written(bytes: seq<byte>, finished: bool)

  /** How many bytes the peer takes on a stream before it stops it; none when it takes all. */
  type Room = Option<nat>

  predicate Fits(n: nat, room: Room) {
    room.None? || n <= room.value
  }

  /** The part of the data that is written before a failure, if any. */
  function Taken(data: seq<byte>, room: Room): seq<byte> {
    if Fits(|data|, room) then data else data[..room.value]
  }

  class SendStream {
    const room: Room
    var bytes: seq<byte>
    /** Whether the peer is shown an end. */
    var finished: bool
    /** Whether the peer has stopped the stream. */
    var stopped: bool

    ghost predicate Valid()
      reads this
    {
      Fits(|bytes|, room)
    }

    constructor (room: Room)
      ensures Valid() && bytes == [] && !finished && !stopped && this.room == room
    {
      this.room := room;
      bytes, finished, stopped := [], false, false;
    }

    method WriteAll(data: seq<byte>) returns (ok: bool)
      requires Valid()
      modifies this
      ensures Valid() && ok == Fits(|old(bytes) + data|, room)
      ensures bytes == Taken(old(bytes) + data, room) && finished == old(finished)
      ensures stopped == (old(stopped) || !ok)
    {
      ok := Fits(|bytes + data|, room);
      bytes := if ok then bytes + data else (bytes + data)[..room.value];
      stopped := stopped || !ok;
    }

    method Finish()
      modifies this
      ensures finished && bytes == old(bytes) && stopped == old(stopped)
    {
      finished := true;
    }

    /** The handle goes out of scope: quinn then finishes a stream that was not stopped, as it
        documents for `SendStream`. */
    method Drop()
      modifies this
      ensures bytes == old(bytes) && stopped == old(stopped) && finished == (old(finished) || !stopped)
    {
      finished := finished || !stopped;
    }
  }

  /** The verdict on a stream that delivered s: it depends on the bytes, on the ending and on what the
      send side takes, not on the chunks. */
  function Verdict(s: seq<byte>, streamType: nat, ending: Ending): Outcome {
    var r := Parse(s);
    if |r.values| < 2 then (if ending.Finished? then EndedBeforePreface else ReadError)
    else if r.values[0] != streamType then UnexpectedType(r.values[0])
    else if ending.Finished? then Echoed
    else ReadError
  }

  /** A bidirectional stream is echoed while it is read, so a full send side ends the loop first. */
  function BidiVerdict(s: seq<byte>, ending: Ending, room: Room): Outcome {
    if Accepted(s, WT_BIDI_STREAM_TYPE) && !Fits(|Parse(s).payload|, room) then WriteError
    else Verdict(s, WT_BIDI_STREAM_TYPE, ending)
  }

  function BidiEcho(s: seq<byte>, room: Room): seq<byte> {
    if Accepted(s, WT_BIDI_STREAM_TYPE) then Taken(Parse(s).payload, room) else []
  }

  predicate Accepted(s: seq<byte>, streamType: nat) {
    |Parse(s).values| == 2 && Parse(s).values[0] == streamType
  }

  /** Once the preface is known, every further chunk is payload. */
  lemma PayloadGrows(s: seq<byte>, more: seq<byte>)
    requires |Parse(s).values| == 2
    ensures Parse(s + more) == Parse(s).(payload := Parse(s).payload + more)
  {
    Resume(s, more);
  }

  /** Reads chunks until the two preface integers are known; `used` chunks were needed. */
  method ReadPreface(chunks: seq<seq<byte>>) returns (values: seq<nat>, payload: ByteVec, used: nat)
    ensures fresh(payload) && used <= |chunks|
    ensures |values| < 2 ==> Parse(Flatten(chunks)).values == values
    ensures |values| >= 2 ==>
      Parse(Flatten(chunks)) == Reading(values, [], payload.data + Flatten(chunks[used..]))
  {
    hide Parse;
    var prefix := new PrefixReader();
    payload := new ByteVec();
    used := 0;
    while |prefix.values| < 2 && used < |chunks|
      invariant used <= |chunks| && prefix.Valid() && prefix.fed == Flatten(chunks[..used])
      invariant payload.data == prefix.emitted
      decreases |chunks| - used
    {
      prefix.Push(chunks[used], payload);
      assert chunks[..used + 1] == chunks[..used] + [chunks[used]];
      FlattenSnoc(chunks[..used], chunks[used]);
      used := used + 1;
    }
    values := prefix.values;
    assert chunks == chunks[..used] + chunks[used..];
    FlattenAppend(chunks[..used], chunks[used..]);
    if |values| < 2 {
      assert chunks[..used] == chunks;
    } else {
      PayloadGrows(prefix.fed, Flatten(chunks[used..]));
    }
  }

  lemma Associate(a: seq<byte>, b: seq<byte>, c: seq<byte>)
    ensures a + b + c == a + (b + c)
  {
  }

  /** Dropping the send side ends the reply however the loop returned, unless the peer stopped it. */
  method EchoBidiStream(chunks: seq<seq<byte>>, ending: Ending, send: SendStream) returns (r: Outcome)
    requires send.Valid() && send.bytes == [] && !send.finished && !send.stopped
    modifies send
    ensures r == BidiVerdict(Flatten(chunks), ending, send.room)
    ensures send.bytes == BidiEcho(Flatten(chunks), send.room)
    ensures send.finished <==> !r.WriteError?
  {
    hide BidiVerdict, BidiEcho, Flatten;
    r := EchoUntilEnd(chunks, ending, send);
    send.Drop();
  }

  /** The loop itself. */
  method EchoUntilEnd(chunks: seq<seq<byte>>, ending: Ending, send: SendStream) returns (r: Outcome)
    requires send.Valid() && send.bytes == [] && !send.finished && !send.stopped
    modifies send
    ensures r == BidiVerdict(Flatten(chunks), ending, send.room)
    ensures send.bytes == BidiEcho(Flatten(chunks), send.room)
    ensures send.finished == r.Echoed? && send.stopped == r.WriteError?
  {
    hide Parse;
    var values, firstPayload, i := ReadPreface(chunks);
    if |values| < 2 {
      return if ending.Finished? then EndedBeforePreface else ReadError;
    }
    if values[0] != WT_BIDI_STREAM_TYPE {
      return UnexpectedType(values[0]);
    }
    ghost var first, rest := firstPayload.data, Flatten(chunks[i..]);
    assert [] + first == first;
    if firstPayload.data != [] {
      var ok := send.WriteAll(firstPayload.data);
      if !ok {
        TakenPrefix(first, rest, send.room);
        return WriteError;
      }
    }
    assert send.bytes == first;
    var copied := CopyPayload(chunks[i..], send);
    if !copied { return WriteError; }
    if ending.ReadFailed? { return ReadError; }
    send.Finish();
    return Echoed;
  }

  /** A send side that is full stays full. */
  lemma TakenPrefix(a: seq<byte>, b: seq<byte>, room: Room)
    ensures !Fits(|a|, room) ==> !Fits(|a + b|, room) && Taken(a + b, room) == Taken(a, room)
    ensures Fits(|a + b|, room) ==> Fits(|a|, room)
  {
  }

  /** The bytes echoed up to a chunk, and with it. */
  lemma EchoSnoc(before: seq<byte>, chunks: seq<seq<byte>>, i: nat, room: Room)
    requires i < |chunks|
    ensures var now := before + Flatten(chunks[..i]) + chunks[i];
            && now == before + Flatten(chunks[..i + 1])
            && (chunks[i] == [] ==> now == before + Flatten(chunks[..i]))
            && (!Fits(|now|, room) ==> var all := before + Flatten(chunks);
                                       !Fits(|all|, room) && Taken(all, room) == Taken(now, room))
  {
    hide Flatten, Fits, Taken;
    assert chunks[..i + 1] == chunks[..i] + [chunks[i]];
    FlattenSnoc(chunks[..i], chunks[i]);
    Associate(before, Flatten(chunks[..i]), chunks[i]);
    assert chunks == chunks[..i + 1] + chunks[i + 1..];
    FlattenAppend(chunks[..i + 1], chunks[i + 1..]);
    Associate(before, Flatten(chunks[..i + 1]), Flatten(chunks[i + 1..]));
    TakenPrefix(before + Flatten(chunks[..i + 1]), Flatten(chunks[i + 1..]), room);
  }

  lemma NoChunks(before: seq<byte>, chunks: seq<seq<byte>>)
    requires chunks == []
    ensures before + Flatten(chunks) == before
  {
  }

  /** Echoes each further chunk as it arrives, until the send side fails. */
  method CopyPayload(chunks: seq<seq<byte>>, send: SendStream) returns (ok: bool)
    requires send.Valid()
    modifies send
    ensures send.Valid() && ok == Fits(|old(send.bytes) + Flatten(chunks)|, send.room)
    ensures send.bytes == Taken(old(send.bytes) + Flatten(chunks), send.room) && send.finished == old(send.finished)
    ensures send.stopped == (old(send.stopped) || !ok)
  {
    hide Flatten;
    ghost var before := send.bytes;
    var i := 0;
    NoChunks(before, chunks[..0]);
    while i < |chunks|
      invariant i <= |chunks| && send.Valid()
      invariant send.finished == old(send.finished) && send.stopped == old(send.stopped)
      invariant send.bytes == before + Flatten(chunks[..i])
    {
      EchoSnoc(before, chunks, i, send.room);
      if chunks[i] != [] {
        var written := send.WriteAll(chunks[i]);
        if !written { return false; }
      }
      i := i + 1;
    }
    assert chunks[..i] == chunks;
    return true;
  }

  class Connection {
    /** The server-initiated unidirectional streams opened so far. */
    var streams: seq<Written>

    constructor ()
      ensures streams == []
    {
      streams := [];
    }

    /** `opening` is what opening the server stream gives: nothing, or a stream with some room. */
    method EchoUniStream(chunks: seq<seq<byte>>, ending: Ending, opening: Option<Room>) returns (r: Outcome)
      modifies this
      ensures r == UniVerdict(Flatten(chunks), ending, opening)
      ensures streams == old(streams) + UniStreams(Flatten(chunks), ending, opening)
    {
      hide Parse;
      var values, payload, i := ReadPreface(chunks);
      if |values| < 2 {
        return if ending.Finished? then EndedBeforePreface else ReadError;
      }
      SessionIdFits(Flatten(chunks));
      var sessionId := values[1];
      if values[0] != WT_UNI_STREAM_TYPE {
        return UnexpectedType(values[0]);
      }
      ReadPayload(chunks[i..], payload);
      if ending.ReadFailed? { return ReadError; }
      if opening.None? { return OpenError; }
      var ok := Send(sessionId, payload.data, opening.value);
      return if ok then Echoed else WriteError;
    }

    /** Collects the rest of the stream behind the payload bytes that came with the preface. */
    method ReadPayload(chunks: seq<seq<byte>>, payload: ByteVec)
      modifies payload
      ensures payload.data == old(payload.data) + Flatten(chunks)
    {
      var i := 0;
      while i < |chunks|
        invariant i <= |chunks|
        invariant payload.data == old(payload.data) + Flatten(chunks[..i])
      {
        assert chunks[..i + 1] == chunks[..i] + [chunks[i]];
        FlattenSnoc(chunks[..i], chunks[i]);
        payload.Extend(chunks[i]);
        i := i + 1;
      }
      assert chunks[..i] == chunks;
    }

    /** Sends preface and payload on a fresh server stream. */
    method Send(sessionId: u64, payload: seq<byte>, room: Room) returns (ok: bool)
      modifies this
      ensures var frame := Encode(WT_UNI_STREAM_TYPE) + Encode(sessionId) + payload;
              ok == Fits(|frame|, room) && streams == old(streams) + [Written(Taken(frame, room), ok)]
    {
      hide Encode;
      var send := new SendStream(room);
      var preface := new ByteVec();
      WriteVarint(WT_UNI_STREAM_TYPE, preface);
      WriteVarint(sessionId, preface);
      assert preface.data == Encode(WT_UNI_STREAM_TYPE) + Encode(sessionId) && [] + preface.data == preface.data;
      TakenPrefix(preface.data, payload, room);
      ok := send.WriteAll(preface.data);
      if ok { ok := send.WriteAll(payload); }
      if ok { send.Finish(); }
      send.Drop();
      streams := streams + [Written(send.bytes, send.finished)];
    }
  }

  lemma SessionIdFits(s: seq<byte>)
    ensures forall i :: 0 <= i < |Parse(s).values| ==> Parse(s).values[i] < TWO62
  {
    if Decode(s).Some? {
      DecodedBound(s);
      var rest := s[Decode(s).value.1..];
      if Decode(rest).Some? { DecodedBound(rest); }
    }
  }

  /** The frame written for an accepted unidirectional stream: the session id re-encoded in its
      shortest form, then the payload. */
  ghost function UniEcho(s: seq<byte>): seq<byte>
    requires Accepted(s, WT_UNI_STREAM_TYPE)
  {
    SessionIdFits(s);
    Encode(WT_UNI_STREAM_TYPE) + Encode(Parse(s).values[1]) + Parse(s).payload
  }

  /** The payload is complete before anything is written, so only then can opening or writing fail. */
  ghost function UniVerdict(s: seq<byte>, ending: Ending, opening: Option<Room>): Outcome {
    if !Verdict(s, WT_UNI_STREAM_TYPE, ending).Echoed? then Verdict(s, WT_UNI_STREAM_TYPE, ending)
    else if opening.None? then OpenError
    else if !Fits(|UniEcho(s)|, opening.value) then WriteError
    else Echoed
  }

  /** The server streams one client stream adds: one when it could be opened, ended when all fitted. */
  ghost function UniStreams(s: seq<byte>, ending: Ending, opening: Option<Room>): seq<Written> {
    if Verdict(s, WT_UNI_STREAM_TYPE, ending).Echoed? && opening.Some?
    then [Written(Taken(UniEcho(s), opening.value), UniVerdict(s, ending, opening).Echoed?)]
    else []
  }

  /** A bidirectional stream with the right type is echoed without its preface, as far as the peer takes
      it; with any other type, or cut inside the preface, nothing is. */
  lemma BidiExactly(streamType: u64, sid: u64, payload: seq<byte>, arrived: seq<byte>, ending: Ending, room: Room)
    requires streamType < TWO62 && sid < TWO62 && arrived <= Encode(streamType) + Encode(sid) + payload
    ensures var n := |Encode(streamType) + Encode(sid)|;
            if |arrived| < n then
              BidiEcho(arrived, room) == []
              && BidiVerdict(arrived, ending, room) == (if ending.Finished? then EndedBeforePreface else ReadError)
            else if streamType != 0x41 then
              BidiEcho(arrived, room) == [] && BidiVerdict(arrived, ending, room) == UnexpectedType(streamType)
            else if room.Some? && room.value < |arrived| - n then
              BidiEcho(arrived, room) == arrived[n..][..room.value] && BidiVerdict(arrived, ending, room) == WriteError
            else
              BidiEcho(arrived, room) == arrived[n..]
              && BidiVerdict(arrived, ending, room) == (if ending.Finished? then Echoed else ReadError)
  {
    hide Encode, Parse;
    ParsePart(streamType, sid, payload, arrived);
  }

  /** A unidirectional stream that ended well with the right type is answered on one new stream: the
      same type, session id and payload, as far as the peer takes them, ended if all fitted. Otherwise
      no stream is opened. */
  lemma UniExactly(streamType: u64, sid: u64, payload: seq<byte>, arrived: seq<byte>, ending: Ending,
                   opening: Option<Room>)
    requires streamType < TWO62 && sid < TWO62 && arrived <= Encode(streamType) + Encode(sid) + payload
    ensures var n := |Encode(streamType) + Encode(sid)|;
            var (streams, r) := (UniStreams(arrived, ending, opening), UniVerdict(arrived, ending, opening));
            if |arrived| < n then
              streams == [] && r == (if ending.Finished? then EndedBeforePreface else ReadError)
            else if streamType != 0x54 then streams == [] && r == UnexpectedType(streamType)
            else if ending.ReadFailed? then streams == [] && r == ReadError
            else if opening.None? then streams == [] && r == OpenError
            else
              var frame := Encode(0x54) + Encode(sid) + arrived[n..];
              if opening.value.Some? && opening.value.value < |frame| then
                streams == [Written(frame[..opening.value.value], false)] && r == WriteError
              else streams == [Written(frame, true)] && r == Echoed
  {
    hide Encode, Parse;
    ParsePart(streamType, sid, payload, arrived);
  }

  /** An echoed unidirectional stream reads back, in any chunking, to the stream type, session id
      and payload of the client's stream, and is never longer than it. */
  lemma UniEchoRoundTrip(s: seq<byte>)
    requires Accepted(s, WT_UNI_STREAM_TYPE)
    ensures Parse(UniEcho(s)) == Parse(s) && |UniEcho(s)| <= |s|
  {
    SessionIdFits(s);
    ParseFrame(WT_UNI_STREAM_TYPE, Parse(s).values[1], Parse(s).payload);
    DecodedBound(s);
    DecodedBound(s[Decode(s).value.1..]);
  }
}
