/** Request parsing and CONNECT responses: the tokio-quiche backend beside the aioquic backend. */
module Negotiation {
  import opened Lists

  type Header = (string, string)

  const PROTOCOL := "quicast-wt-v0"
  const QUOTED_PROTOCOL := "\"quicast-wt-v0\""
  const WEBTRANSPORT_INIT := "u=8388608, bl=8388608, br=8388608"

  datatype Decision = Health | Accept | Reject

  // ------------------------------------------------------------- string helpers

  predicate StartsWith(s: string, prefix: string) {
    prefix <= s
  }

  /** Position of the first c, or the length. */
  function Index(s: string, c: char): (i: nat)
    ensures i <= |s| && (forall k :: 0 <= k < i ==> s[k] != c) && (i < |s| ==> s[i] == c)
  {
    if s == [] || s[0] == c then 0 else 1 + Index(s[1..], c)
  }

  /** `s.split(c, 1)[0]` */
  function BeforeFirst(s: string, c: char): string {
    s[..Index(s, c)]
  }

  /** `s.split(c)` */
  function Split(s: string, c: char): (items: seq<string>)
    ensures |items| >= 1
    decreases |s|
  {
    var i := Index(s, c);
    if i == |s| then [s] else [s[..i]] + Split(s[i + 1..], c)
  }

  function StripLeft(s: string, drop: char -> bool): string {
    if s != [] && drop(s[0]) then StripLeft(s[1..], drop) else s
  }

  function StripRight(s: string, drop: char -> bool): string {
    if s != [] && drop(s[|s| - 1]) then StripRight(s[..|s| - 1], drop) else s
  }

  function Strip(s: string, drop: char -> bool): string {
    StripRight(StripLeft(s, drop), drop)
  }

  /** The ASCII characters `str.strip()` removes. */
  predicate IsSpace(c: char) {
    9 as char <= c <= 13 as char || 28 as char <= c <= 32 as char
  }

  predicate IsQuote(c: char) {
    c == '"'
  }

  function LowerChar(c: char): char {
    if 'A' <= c <= 'Z' then c - 'A' + 'a' else c
  }

  function Lower(s: string): string {
    Map(s, LowerChar)
  }

  // ------------------------------------------------------- reading the request

  /** The value of the last header with this name: a later one overwrites an earlier one. */
  function Last(headers: seq<Header>, name: string): Option<string> {
    if headers == [] then None
    else
      var h := headers[|headers| - 1];
      if h.0 == name then Some(h.1) else Last(headers[..|headers| - 1], name)
  }

  lemma {:induction false} LastExactly(before: seq<Header>, name: string, value: string, after: seq<Header>)
    requires forall h :: h in after ==> h.0 != name
    ensures Last(before + [(name, value)] + after, name) == Some(value)
    ensures Last(after, name) == None
  {
    var all := before + [(name, value)] + after;
    if after == [] {
      assert all == before + [(name, value)];
    } else {
      var n := |after| - 1;
      assert all[..|all| - 1] == before + [(name, value)] + after[..n] && all[|all| - 1] == after[n];
      LastExactly(before, name, value, after[..n]);
    }
  }

  datatype RequestHeaders = RequestHeaders(
    verb: Option<string>,
    protocol: Option<string>,
    path: Option<string>,
    origin: Option<string>,
    wtAvailableProtocols: Option<string>)

  /** The five fields the tokio-quiche backend keeps. */
  function Request(headers: seq<Header>): RequestHeaders {
    RequestHeaders(
      Last(headers, ":method"), Last(headers, ":protocol"), Last(headers, ":path"),
      Last(headers, "origin"), Last(headers, "wt-available-protocols"))
  }

  method FromHeaders(headers: seq<Header>) returns (r: RequestHeaders)
    ensures r == Request(headers)
  {
    r := RequestHeaders(None, None, None, None, None);
    for i := 0 to |headers|
      invariant r == Request(headers[..i])
    {
      var (name, value) := headers[i];
      assert headers[..i + 1][..i] == headers[..i];
      if name == ":method" { r := r.(verb := Some(value)); }
      else if name == ":protocol" { r := r.(protocol := Some(value)); }
      else if name == ":path" { r := r.(path := Some(value)); }
      else if name == "origin" { r := r.(origin := Some(value)); }
      else if name == "wt-available-protocols" { r := r.(wtAvailableProtocols := Some(value)); }
    }
    assert headers[..|headers|] == headers;
  }

  /** `header_map`: names in lower case, the last value kept. */
  function HeaderMap(headers: seq<Header>): seq<Header> {
    Map(headers, (h: Header) => (Lower(h.0), h.1))
  }

  /** A name is found in any case, and the last such header counts. */
  lemma LastInAnyCase(before: seq<Header>, name: string, value: string, after: seq<Header>)
    requires forall h :: h in after ==> Lower(h.0) != Lower(name)
    ensures Last(HeaderMap(before + [(name, value)] + after), Lower(name)) == Some(value)
  {
    hide Last, Lower;
    assert HeaderMap(before + [(name, value)] + after) ==
           HeaderMap(before) + [(Lower(name), value)] + HeaderMap(after);
    LastExactly(HeaderMap(before), Lower(name), value, HeaderMap(after));
  }

  // ------------------------------------------------------------------ decisions

  function RustDecision(r: RequestHeaders): Decision {
    if r.verb == Some("GET") && r.path == Some("/healthz") then Health
    else if r.verb == Some("CONNECT")
         && (r.protocol == Some("webtransport") || r.protocol == Some("webtransport-h3"))
         && r.path.Some? && StartsWith(r.path.value, "/wt") then Accept
    else Reject
  }

  function OrElse(o: Option<string>, default: string): string {
    if o.Some? then o.value else default
  }

  /** The aioquic backend drops the query before it looks at the path. */
  function PythonPath(headers: seq<Header>): string {
    BeforeFirst(OrElse(Last(HeaderMap(headers), ":path"), "/"), '?')
  }

  function PythonDecision(headers: seq<Header>): Decision {
    var m := HeaderMap(headers);
    var verb, protocol := OrElse(Last(m, ":method"), ""), OrElse(Last(m, ":protocol"), "");
    var path := PythonPath(headers);
    if verb == "GET" && path == "/healthz" then Health
    else if verb == "CONNECT" && (protocol == "webtransport" || protocol == "webtransport-h3")
         && StartsWith(path, "/wt") then Accept
    else Reject
  }

  ghost predicate LowerCaseNames(headers: seq<Header>) {
    forall h :: h in headers ==> Lower(h.0) == h.0
  }

  lemma {:induction false} LowerCaseMap(headers: seq<Header>)
    requires LowerCaseNames(headers)
    ensures HeaderMap(headers) == headers
  {
    forall i | 0 <= i < |headers| ensures HeaderMap(headers)[i] == headers[i] {
      assert headers[i] in headers;
    }
  }

  /** Cutting a path at its query keeps any prefix without a question mark. */
  lemma CutKeepsPrefix(p: string, prefix: string)
    requires '?' !in prefix
    ensures prefix <= BeforeFirst(p, '?') <==> prefix <= p
  {
    if prefix <= p {
      forall k | 0 <= k < |prefix| ensures p[k] != '?' {
        assert p[k] == prefix[k];
        assert prefix[k] in prefix;
      }
    }
  }

  /** What is left after the cut is a given word exactly when the path is that word, alone or
      followed by a query. */
  lemma CutIs(p: string, word: string)
    requires '?' !in word
    ensures BeforeFirst(p, '?') == word <==> p == word || word + ['?'] <= p
  {
    var i := Index(p, '?');
    if p == word {
      assert i == |p|;
    } else if word + ['?'] <= p {
      assert p[|word|] == '?' && forall k :: 0 <= k < |word| ==> p[k] == word[k];
      assert i == |word|;
    } else if i < |p| {
      assert p[..i + 1] == p[..i] + ['?'];
    } else {
      assert p[..i] == p;
    }
  }

  /** The two backends take the same decision on every request with lower-case header names, except
      that only the aioquic one answers a health check whose path carries a query. */
  lemma DecisionsAgreeExactly(headers: seq<Header>)
    requires LowerCaseNames(headers)
    ensures var r := Request(headers);
            PythonDecision(headers) == RustDecision(r) <==>
            !(r.verb == Some("GET") && r.path.Some? && "/healthz" + ['?'] <= r.path.value)
  {
    hide BeforeFirst, Last;
    LowerCaseMap(headers);
    var r := Request(headers);
    var p := OrElse(r.path, "/");
    CutKeepsPrefix(p, "/wt");
    CutIs(p, "/healthz");
  }

  // ------------------------------------------------------------------ responses

  /** What a response to an accepted CONNECT contains, given whether the backend chose the
      Yggdrasil shape for it. */
  function Reference(path: string, yggdrasil: bool, origin: Option<string>): seq<Header> {
    [(":status", "200")] +
    (if yggdrasil then
       [("server", "yggdrasil")] + ProtocolCapsuleInit() +
       (if origin.Some? then
          [("access-control-allow-origin", origin.value), ("access-control-allow-credentials", "true"),
           ("vary", "origin")]
        else [])
     else if path == "/wt/protocol" then [("wt-protocol", QUOTED_PROTOCOL)]
     else if path == "/wt/capsule" then [("wt-protocol", QUOTED_PROTOCOL), ("capsule-protocol", "?1")]
     else if path == "/wt/init" then ProtocolCapsuleInit()
     else if path == "/wt/draft" then [("sec-webtransport-http3-draft", "draft02")]
     else [])
  }

  function ProtocolCapsuleInit(): seq<Header> {
    [("wt-protocol", QUOTED_PROTOCOL), ("capsule-protocol", "?1"), ("webtransport-init", WEBTRANSPORT_INIT)]
  }

  predicate OccursAt(s: string, i: int, t: string) {
    0 <= i <= i + |t| <= |s| && s[i..i + |t|] == t
  }

  /** `str::contains` */
  ghost predicate Contains(s: string, t: string) {
    exists i :: OccursAt(s, i, t)
  }

  method ContainsAt(s: string, t: string) returns (r: bool)
    ensures r == Contains(s, t)
  {
    var i := 0;
    while i + |t| <= |s|
      invariant forall k :: 0 <= k < i ==> !OccursAt(s, k, t)
    {
      if OccursAt(s, i, t) { return true; }
      i := i + 1;
    }
    return false;
  }

  ghost predicate RustYggdrasil(path: string, r: RequestHeaders) {
    path == "/wt/yggdrasil" ||
    (path == "/wt/auto" && r.wtAvailableProtocols.Some? && Contains(r.wtAvailableProtocols.value, PROTOCOL))
  }

  method RustResponseHeaders(path: string, request: RequestHeaders, status: nat) returns (headers: seq<Header>)
    requires status in {200, 404}
    ensures status == 404 ==> headers == [(":status", "404")]
    ensures status == 200 ==> headers == Reference(path, RustYggdrasil(path, request), request.origin)
  {
    headers := [(":status", if status == 200 then "200" else "404")];
    if status != 200 { return; }
    var negotiated := false;
    if request.wtAvailableProtocols.Some? {
      negotiated := ContainsAt(request.wtAvailableProtocols.value, PROTOCOL);
    }
    var yggdrasilShape := path == "/wt/yggdrasil" || (path == "/wt/auto" && negotiated);
    if path in {"/wt/basic", "/wt/h3-token", "/wt", "/wt/"} {
    } else if path == "/wt/protocol" {
      headers := headers + [("wt-protocol", QUOTED_PROTOCOL)];
    } else if path == "/wt/capsule" {
      headers := headers + [("wt-protocol", QUOTED_PROTOCOL)];
      headers := headers + [("capsule-protocol", "?1")];
    } else if path == "/wt/init" {
      headers := headers + ProtocolCapsuleInit();
    } else if path == "/wt/draft" {
      headers := headers + [("sec-webtransport-http3-draft", "draft02")];
    } else if (path == "/wt/yggdrasil" || path == "/wt/auto") && yggdrasilShape {
      headers := headers + [("server", "yggdrasil")];
      headers := headers + ProtocolCapsuleInit();
      if request.origin.Some? {
        headers := headers + [("access-control-allow-origin", request.origin.value)];
        headers := headers + [("access-control-allow-credentials", "true")];
        headers := headers + [("vary", "origin")];
      }
    }
  }

  /** The protocol token of one list item: parameters, spaces and quotes removed. */
  function Token(item: string): string {
    Strip(Strip(BeforeFirst(item, ';'), IsSpace), IsQuote)
  }

  ghost predicate Offers(value: string, protocol: string) {
    exists item :: item in Split(value, ',') && Token(item) == protocol
  }

  method AvailableProtocolsContains(value: string, protocol: string) returns (r: bool)
    ensures r == Offers(value, protocol)
  {
    var items := Split(value, ',');
    for i := 0 to |items|
      invariant forall k :: 0 <= k < i ==> Token(items[k]) != protocol
    {
      if Token(items[i]) == protocol { return true; }
    }
    return false;
  }

  ghost predicate PythonYggdrasil(path: string, headers: seq<Header>) {
    path == "/wt/yggdrasil" ||
    (path == "/wt/auto" && Offers(OrElse(Last(HeaderMap(headers), "wt-available-protocols"), ""), PROTOCOL))
  }

  method PythonResponseHeaders(path: string, requestHeaders: seq<Header>) returns (headers: seq<Header>)
    ensures headers ==
      Reference(path, PythonYggdrasil(path, requestHeaders), Last(HeaderMap(requestHeaders), "origin"))
  {
    headers := [(":status", "200")];
    if path == "/wt/protocol" {
      headers := headers + [("wt-protocol", QUOTED_PROTOCOL)];
    } else if path == "/wt/capsule" {
      headers := headers + [("wt-protocol", QUOTED_PROTOCOL), ("capsule-protocol", "?1")];
    } else if path == "/wt/init" {
      headers := headers +
        [("wt-protocol", QUOTED_PROTOCOL), ("capsule-protocol", "?1"), ("webtransport-init", WEBTRANSPORT_INIT)];
    } else if path == "/wt/draft" {
      headers := headers + [("sec-webtransport-http3-draft", "draft02")];
    }
    var available := OrElse(Last(HeaderMap(requestHeaders), "wt-available-protocols"), "");
    var offered := AvailableProtocolsContains(available, PROTOCOL);
    if path == "/wt/yggdrasil" || (path == "/wt/auto" && offered) {
      var more := PythonYggdrasilHeaders(Last(HeaderMap(requestHeaders), "origin"));
      headers := headers + more;
    }
  }

  method PythonYggdrasilHeaders(origin: Option<string>) returns (headers: seq<Header>)
    ensures [(":status", "200")] + headers == Reference("/wt/yggdrasil", true, origin)
  {
    headers := [("server", "yggdrasil")];
    headers := headers + [("wt-protocol", QUOTED_PROTOCOL)];
    headers := headers + [("capsule-protocol", "?1")];
    headers := headers + [("webtransport-init", WEBTRANSPORT_INIT)];
    if origin.Some? {
      headers := headers + [("access-control-allow-origin", origin.value)];
      headers := headers + [("access-control-allow-credentials", "true")];
      headers := headers + [("vary", "origin")];
    }
  }

  // ------------------------------------------------------------------ refinement

  lemma ContainsTrans(s: string, t: string, u: string)
    requires Contains(s, t) && Contains(t, u)
    ensures Contains(s, u)
  {
    var i :| OccursAt(s, i, t);
    var k :| OccursAt(t, k, u);
    forall q | 0 <= q < |u| ensures s[i + k + q] == u[q] {
      assert t[k + q] == u[q];
    }
    assert OccursAt(s, i + k, u);
  }

  lemma {:induction false} SplitContained(s: string, c: char)
    ensures forall item :: item in Split(s, c) ==> Contains(s, item)
    decreases |s|
  {
    var i := Index(s, c);
    assert OccursAt(s, 0, s);
    if i < |s| {
      SplitContained(s[i + 1..], c);
      assert OccursAt(s, 0, s[..i]);
      assert OccursAt(s, i + 1, s[i + 1..]);
      forall item | item in Split(s[i + 1..], c) ensures Contains(s, item) {
        ContainsTrans(s, s[i + 1..], item);
      }
    }
  }

  lemma {:induction false} StripLeftContained(s: string, drop: char -> bool)
    ensures Contains(s, StripLeft(s, drop))
  {
    assert OccursAt(s, 0, s);
    if s != [] && drop(s[0]) {
      StripLeftContained(s[1..], drop);
      assert OccursAt(s, 1, s[1..]);
      ContainsTrans(s, s[1..], StripLeft(s, drop));
    }
  }

  lemma {:induction false} StripRightContained(s: string, drop: char -> bool)
    ensures Contains(s, StripRight(s, drop))
  {
    assert OccursAt(s, 0, s);
    if s != [] && drop(s[|s| - 1]) {
      StripRightContained(s[..|s| - 1], drop);
      assert OccursAt(s, 0, s[..|s| - 1]);
      ContainsTrans(s, s[..|s| - 1], StripRight(s, drop));
    }
  }

  lemma StripContained(s: string, drop: char -> bool)
    ensures Contains(s, Strip(s, drop))
  {
    StripLeftContained(s, drop);
    StripRightContained(StripLeft(s, drop), drop);
    ContainsTrans(s, StripLeft(s, drop), Strip(s, drop));
  }

  lemma TokenContained(item: string)
    ensures Contains(item, Token(item))
  {
    var head := BeforeFirst(item, ';');
    assert OccursAt(item, 0, head);
    StripContained(head, IsSpace);
    StripContained(Strip(head, IsSpace), IsQuote);
    ContainsTrans(head, Strip(head, IsSpace), Token(item));
    ContainsTrans(item, head, Token(item));
  }

  /** Whenever the aioquic tokenizer finds the protocol, the tokio-quiche substring test does too. */
  lemma OffersRefinesContains(value: string, protocol: string)
    requires Offers(value, protocol)
    ensures Contains(value, protocol)
  {
    var item :| item in Split(value, ',') && Token(item) == protocol;
    SplitContained(value, ',');
    TokenContained(item);
    ContainsTrans(value, item, protocol);
  }

  /** A single bare token is its own list, item and token. */
  lemma BareToken(v: string)
    requires v != [] && ',' !in v && ';' !in v
    requires !IsSpace(v[0]) && !IsSpace(v[|v| - 1]) && !IsQuote(v[0]) && !IsQuote(v[|v| - 1])
    ensures Split(v, ',') == [v] && Token(v) == v
  {
    assert Index(v, ',') == |v| && Index(v, ';') == |v|;
    assert v[..|v|] == v;
  }

  /** The converse fails: a longer token that embeds the protocol satisfies only the substring test. */
  lemma SubstringTestIsWeaker()
    ensures Contains("x" + PROTOCOL, PROTOCOL) && !Offers("x" + PROTOCOL, PROTOCOL)
  {
    var v := "x" + PROTOCOL;
    assert OccursAt(v, 1, PROTOCOL);
    BareToken(v);
    assert |v| == |PROTOCOL| + 1;
  }

  // ------------------------------------------------------------------ the offered tokens

  predicate All(s: string, drop: char -> bool) {
    forall c :: c in s ==> drop(c)
  }

  /** Neither end of the word is to be stripped. */
  predicate Trimmed(p: string, drop: char -> bool) {
    p != [] ==> !drop(p[0]) && !drop(p[|p| - 1])
  }

  lemma {:induction false} StripLeftOf(a: string, s: string, drop: char -> bool)
    requires All(a, drop) && (s != [] ==> !drop(s[0]))
    ensures StripLeft(a + s, drop) == s
  {
    if a == [] {
      assert a + s == s;
    } else {
      StripLeftOf(a[1..], s, drop);
      assert (a + s)[1..] == a[1..] + s;
    }
  }

  lemma {:induction false} StripRightOf(s: string, b: string, drop: char -> bool)
    requires All(b, drop) && (s != [] ==> !drop(s[|s| - 1]))
    ensures StripRight(s + b, drop) == s
  {
    if b == [] {
      assert s + b == s;
    } else {
      var n := |b| - 1;
      StripRightOf(s, b[..n], drop);
      assert (s + b)[..|s + b| - 1] == s + b[..n];
    }
  }

  /** Stripping takes everything to be dropped from both ends, and nothing else. */
  lemma StripOf(a: string, p: string, b: string, drop: char -> bool)
    requires All(a, drop) && All(b, drop) && Trimmed(p, drop)
    ensures Strip(a + p + b, drop) == p
  {
    if p == [] {
      StripLeftOf(a + b, [], drop);
      assert a + p + b == a + b + [];
    } else {
      assert a + p + b == a + (p + b);
      StripLeftOf(a, p + b, drop);
      StripRightOf(p, b, drop);
    }
  }

  lemma {:induction false} StripLeftParts(s: string, drop: char -> bool) returns (a: string)
    ensures s == a + StripLeft(s, drop) && All(a, drop)
    ensures StripLeft(s, drop) != [] ==> !drop(StripLeft(s, drop)[0])
  {
    a := [];
    if s != [] && drop(s[0]) {
      a := StripLeftParts(s[1..], drop);
      a := [s[0]] + a;
    }
  }

  lemma {:induction false} StripRightParts(s: string, drop: char -> bool) returns (b: string)
    ensures s == StripRight(s, drop) + b && All(b, drop)
    ensures StripRight(s, drop) != [] ==> !drop(StripRight(s, drop)[|StripRight(s, drop)| - 1])
  {
    b := [];
    if s != [] && drop(s[|s| - 1]) {
      b := StripRightParts(s[..|s| - 1], drop);
      b := b + [s[|s| - 1]];
    }
  }

  lemma StripParts(s: string, drop: char -> bool) returns (a: string, b: string)
    ensures s == a + Strip(s, drop) + b && All(a, drop) && All(b, drop) && Trimmed(Strip(s, drop), drop)
  {
    a := StripLeftParts(s, drop);
    b := StripRightParts(StripLeft(s, drop), drop);
  }

  /** How an item of the list may be written around a token: quotes, spaces outside them, parameters. */
  datatype Writing = Writing(left: string, open: string, close: string, right: string, parameters: string)

  ghost predicate Writes(item: string, p: string, w: Writing) {
    && item == w.left + (w.open + p + w.close) + w.right + w.parameters
    && All(w.left, IsSpace) && All(w.right, IsSpace) && All(w.open, IsQuote) && All(w.close, IsQuote)
    && Trimmed(w.open + p + w.close, IsSpace) && Trimmed(p, IsQuote)
    && ';' !in w.left + (w.open + p + w.close) + w.right
    && (w.parameters != [] ==> w.parameters[0] == ';')
  }

  /** An item has a token exactly when it is a writing of it. */
  lemma TokenExactly(item: string, p: string)
    ensures Token(item) == p <==> exists w :: Writes(item, p, w)
  {
    var head := BeforeFirst(item, ';');
    var inner := Strip(head, IsSpace);
    if Token(item) == p {
      var left, right := StripParts(head, IsSpace);
      var open, close := StripParts(inner, IsQuote);
      assert item == head + item[|head|..];
      assert Writes(item, p, Writing(left, open, close, right, item[|head|..]));
    }
    if w :| Writes(item, p, w) {
      var written := w.left + (w.open + p + w.close) + w.right;
      HeadOf(written, w.parameters);
      StripOf(w.left, w.open + p + w.close, w.right, IsSpace);
      StripOf(w.open, p, w.close, IsQuote);
    }
  }

  lemma HeadOf(written: string, parameters: string)
    requires ';' !in written && (parameters != [] ==> parameters[0] == ';')
    ensures BeforeFirst(written + parameters, ';') == written
  {
    var s := written + parameters;
    assert forall k :: 0 <= k < |written| ==> written[k] in written && s[k] == written[k];
    assert parameters != [] ==> s[|written|] == ';';
    assert Index(s, ';') == |written|;
  }

  lemma IndexJoin(a: string, b: string, c: char)
    ensures Index(a + [c] + b, c) == Index(a, c)
  {
    var s := a + [c] + b;
    assert s[|a|] == c && forall k :: 0 <= k < |a| ==> s[k] == a[k];
  }

  lemma Around(a: string, b: string, c: char, i: nat)
    requires i < |a|
    ensures (a + [c] + b)[..i] == a[..i] && (a + [c] + b)[i + 1..] == a[i + 1..] + [c] + b
  {
  }

  /** A list of two lists. */
  lemma {:induction false} SplitJoin(a: string, b: string, c: char)
    ensures Split(a + [c] + b, c) == Split(a, c) + Split(b, c)
    decreases |a|
  {
    hide Index;
    IndexJoin(a, b, c);
    var i := Index(a, c);
    if i < |a| {
      Around(a, b, c, i);
      SplitJoin(a[i + 1..], b, c);
      assert [a[..i]] + (Split(a[i + 1..], c) + Split(b, c)) == [a[..i]] + Split(a[i + 1..], c) + Split(b, c);
    } else {
      assert (a + [c] + b)[..i] == a && a[..i] == a && (a + [c] + b)[i + 1..] == b;
    }
  }

  lemma SplitItem(a: string, c: char)
    requires c !in a
    ensures Split(a, c) == [a]
  {
    assert Index(a, c) == |a|;
  }

  /** What a list of protocols offers: each of its items offers the token it is a writing of. */
  lemma OffersExactly(a: string, b: string, protocol: string)
    ensures Offers(a + [','] + b, protocol) <==> Offers(a, protocol) || Offers(b, protocol)
    ensures ',' !in a ==> (Offers(a, protocol) <==> exists w :: Writes(a, protocol, w))
  {
    hide Token, Split;
    SplitJoin(a, b, ',');
    if ',' !in a { SplitItem(a, ','); }
    TokenExactly(a, protocol);
    var all := Split(a + [','] + b, ',');
    forall item ensures item in all <==> item in Split(a, ',') || item in Split(b, ',') {}
  }

  /** Browsers quote the token. */
  lemma QuotedTokenIsOffered(p: string, parameters: string)
    requires p != "" && !IsQuote(p[0]) && !IsQuote(p[|p| - 1]) && ',' !in p + parameters && ';' !in p
    requires parameters != "" ==> parameters[0] == ';'
    ensures Offers(['"'] + p + ['"'] + parameters, p) && Offers([' ', '"'] + p + ['"'] + parameters, p)
  {
    hide Offers, Writes;
    QuotedIsWriting("", p, parameters);
    QuotedIsWriting([' '], p, parameters);
    assert [] + (['"'] + p + ['"']) + [] + parameters == ['"'] + p + ['"'] + parameters;
    assert [' '] + (['"'] + p + ['"']) + [] + parameters == [' ', '"'] + p + ['"'] + parameters;
    OffersExactly(['"'] + p + ['"'] + parameters, "", p);
    OffersExactly([' ', '"'] + p + ['"'] + parameters, "", p);
  }

  lemma QuotedIsWriting(left: string, p: string, parameters: string)
    requires p != "" && !IsQuote(p[0]) && !IsQuote(p[|p| - 1]) && ';' !in p && (left == "" || left == [' '])
    requires parameters != "" ==> parameters[0] == ';'
    ensures Writes(left + (['"'] + p + ['"']) + [] + parameters, p, Writing(left, ['"'], ['"'], [], parameters))
  {
    var inner := ['"'] + p + ['"'];
    assert inner[0] == '"' && inner[|inner| - 1] == '"';
  }

  /** The header lists an accepted CONNECT is answered with, path by path. */
  lemma ReferenceTable(origin: string, path: string, o: Option<string>)
    ensures Reference("/wt/protocol", false, o) == [(":status", "200"), ("wt-protocol", "\"quicast-wt-v0\"")]
    ensures Reference("/wt/capsule", false, o) ==
            [(":status", "200"), ("wt-protocol", "\"quicast-wt-v0\""), ("capsule-protocol", "?1")]
    ensures Reference("/wt/init", false, o) ==
            [(":status", "200"), ("wt-protocol", "\"quicast-wt-v0\""), ("capsule-protocol", "?1"),
             ("webtransport-init", "u=8388608, bl=8388608, br=8388608")]
    ensures Reference("/wt/draft", false, o) == [(":status", "200"), ("sec-webtransport-http3-draft", "draft02")]
    ensures Reference(path, true, None) ==
            [(":status", "200"), ("server", "yggdrasil"), ("wt-protocol", "\"quicast-wt-v0\""),
             ("capsule-protocol", "?1"), ("webtransport-init", "u=8388608, bl=8388608, br=8388608")]
    ensures Reference(path, true, Some(origin)) ==
            Reference(path, true, None) +
            [("access-control-allow-origin", origin), ("access-control-allow-credentials", "true"),
             ("vary", "origin")]
    ensures path !in {"/wt/protocol", "/wt/capsule", "/wt/init", "/wt/draft"} ==>
              Reference(path, false, o) == [(":status", "200")]
  {
  }

  /** The header lists the two backends answer an accepted CONNECT with. */
  ghost function RustConnectResponse(headers: seq<Header>): seq<Header>
    requires RustDecision(Request(headers)) == Accept
  {
    var r := Request(headers);
    Reference(r.path.value, RustYggdrasil(r.path.value, r), r.origin)
  }

  ghost function PythonConnectResponse(headers: seq<Header>): seq<Header> {
    var path := PythonPath(headers);
    Reference(path, PythonYggdrasil(path, headers), Last(HeaderMap(headers), "origin"))
  }

  /** The paths with headers of their own whatever the request offers. */
  predicate HasOwnHeaders(path: string) {
    path in {"/wt/protocol", "/wt/capsule", "/wt/init", "/wt/draft", "/wt/yggdrasil"}
  }

  /** When the two responses are the same, from the path and the offer alone. With a query only the
      aioquic backend still recognises the path; without one the two differ in how they read the
      offer. */
  ghost predicate SameConnectResponse(path: string, offer: string) {
    var q := BeforeFirst(path, '?');
    if '?' in path then !HasOwnHeaders(q) && !(q == "/wt/auto" && Offers(offer, PROTOCOL))
    else path == "/wt/auto" && Contains(offer, PROTOCOL) ==> Offers(offer, PROTOCOL)
  }

  /** The bare response is that of a path without headers of its own. */
  lemma BareExactly(path: string, yggdrasil: bool, origin: Option<string>)
    requires path == "/wt/yggdrasil" ==> yggdrasil
    ensures Reference(path, yggdrasil, origin) == [(":status", "200")] <==> !yggdrasil && !HasOwnHeaders(path)
  {
    assert |Reference(path, yggdrasil, origin)| >= 1;
    if yggdrasil || HasOwnHeaders(path) {
      assert |Reference(path, yggdrasil, origin)| > 1;
    }
  }

  lemma QueryIsUnknown(headers: seq<Header>)
    requires RustDecision(Request(headers)) == Accept && '?' in Request(headers).path.value
    ensures RustConnectResponse(headers) == [(":status", "200")]
  {
    hide Reference, Last;
    var r := Request(headers);
    var p := r.path.value;
    NoQueryInNames(p);
    BareExactly(p, false, r.origin);
  }

  lemma NoQueryInNames(p: string)
    requires '?' in p
    ensures !HasOwnHeaders(p) && p != "/wt/auto"
  {
  }

  lemma NothingOffered(protocol: string)
    requires protocol != ""
    ensures !Contains("", protocol)
  {
  }

  lemma UncutAgree(headers: seq<Header>)
    requires LowerCaseNames(headers)
    requires RustDecision(Request(headers)) == Accept && '?' !in Request(headers).path.value
    ensures var r := Request(headers);
            PythonConnectResponse(headers) == RustConnectResponse(headers) <==>
            SameConnectResponse(r.path.value, OrElse(r.wtAvailableProtocols, ""))
  {
    hide Last, Contains, Offers;
    LowerCaseMap(headers);
    var r := Request(headers);
    var p := r.path.value;
    var offer := OrElse(r.wtAvailableProtocols, "");
    assert Index(p, '?') == |p|;
    assert BeforeFirst(p, '?') == p;
    if Offers(offer, PROTOCOL) { OffersRefinesContains(offer, PROTOCOL); }
    NothingOffered(PROTOCOL);
    BareExactly("/wt/auto", false, r.origin);
    BareExactly("/wt/auto", true, r.origin);
  }

  lemma CutAgree(headers: seq<Header>)
    requires LowerCaseNames(headers)
    requires RustDecision(Request(headers)) == Accept && '?' in Request(headers).path.value
    ensures var r := Request(headers);
            PythonConnectResponse(headers) == RustConnectResponse(headers) <==>
            SameConnectResponse(r.path.value, OrElse(r.wtAvailableProtocols, ""))
  {
    hide Last, Contains, Offers, Reference, BeforeFirst;
    LowerCaseMap(headers);
    QueryIsUnknown(headers);
    var q := PythonPath(headers);
    BareExactly(q, PythonYggdrasil(q, headers), Last(HeaderMap(headers), "origin"));
  }

  /** On every CONNECT the tokio-quiche backend accepts, with lower-case names, the aioquic backend
      accepts too, and the two answer with the same header list exactly under the condition above. */
  lemma ResponsesAgreeExactly(headers: seq<Header>)
    requires LowerCaseNames(headers) && RustDecision(Request(headers)) == Accept
    ensures PythonDecision(headers) == Accept
    ensures var r := Request(headers);
            PythonConnectResponse(headers) == RustConnectResponse(headers) <==>
            SameConnectResponse(r.path.value, OrElse(r.wtAvailableProtocols, ""))
  {
    hide PythonDecision, PythonConnectResponse, RustConnectResponse, SameConnectResponse, Reference;
    AcceptedByBoth(headers);
    if '?' in Request(headers).path.value {
      CutAgree(headers);
    } else {
      UncutAgree(headers);
    }
  }

  lemma AcceptedByBoth(headers: seq<Header>)
    requires LowerCaseNames(headers) && RustDecision(Request(headers)) == Accept
    ensures PythonDecision(headers) == Accept
  {
    hide BeforeFirst, Last;
    LowerCaseMap(headers);
    CutKeepsPrefix(OrElse(Request(headers).path, "/"), "/wt");
    CutIs(OrElse(Request(headers).path, "/"), "/healthz");
  }

  const QUERY_CONNECT: seq<Header> :=
    [(":method", "CONNECT"), (":protocol", "webtransport"), (":path", "/wt/protocol" + "?x")]

  lemma QueryConnectRequest()
    ensures LowerCaseNames(QUERY_CONNECT)
    ensures var r := Request(QUERY_CONNECT);
            && r.verb == Some("CONNECT") && r.protocol == Some("webtransport")
            && r.path == Some("/wt/protocol" + "?x") && r.wtAvailableProtocols == None
  {
    assert Lower(":method") == ":method" && Lower(":protocol") == ":protocol" && Lower(":path") == ":path";
    hide Lower;
    var two, one := QUERY_CONNECT[..2], QUERY_CONNECT[..1];
    assert two[..1] == one && one[..0] == [];
    assert ":path"[1] == 'p' && ":protocol"[1] == 'p' && ":method"[1] == 'm';
    assert ":path"[2] == 'a' && ":protocol"[2] == 'r';
    assert |":path"| == 5 && |":protocol"| == 9 && |":method"| == 7 && |"wt-available-protocols"| == 22;
    assert Last(one, ":method") == Some("CONNECT");
    assert Last(two, ":method") == Some("CONNECT") && Last(two, ":protocol") == Some("webtransport");
    assert Last(one, "wt-available-protocols") == None;
    assert Last(two, "wt-available-protocols") == None;
  }

  lemma PathWithQuery(path: string, query: string)
    requires '?' !in path
    ensures BeforeFirst(path + ['?'] + query, '?') == path && '?' in path + ['?'] + query
  {
    CutIs(path + ['?'] + query, path);
    assert (path + ['?'] + query)[|path|] == '?';
  }

  lemma QueryPath()
    ensures "/wt" <= "/wt/protocol" + "?x" && !SameConnectResponse("/wt/protocol" + "?x", "")
  {
    hide Offers, Contains, BeforeFirst;
    PathWithQuery("/wt/protocol", "x");
    assert "/wt/protocol" + ['?'] + "x" == "/wt/protocol" + "?x";
  }

  lemma QueryAccepted()
    ensures LowerCaseNames(QUERY_CONNECT) && RustDecision(Request(QUERY_CONNECT)) == Accept
  {
    hide Request, LowerCaseNames;
    QueryConnectRequest();
    QueryPath();
  }

  /** An instance: `/wt/protocol?x` is accepted by both, and answered with `wt-protocol` by one only. */
  lemma QueryResponsesDiffer()
    ensures RustDecision(Request(QUERY_CONNECT)) == Accept && PythonDecision(QUERY_CONNECT) == Accept
    ensures PythonConnectResponse(QUERY_CONNECT) != RustConnectResponse(QUERY_CONNECT)
  {
    hide Request, LowerCaseNames, RustDecision, PythonDecision, PythonConnectResponse, RustConnectResponse,
      SameConnectResponse;
    QueryAccepted();
    QueryConnectRequest();
    QueryPath();
    ResponsesAgreeExactly(QUERY_CONNECT);
  }
}
