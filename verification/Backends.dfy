/** The two HTTP/3 backends side by side, on every request. */
module Backends {
  import opened Lists
  import opened Negotiation
  import T = TokioQuiche
  import A = Aioquic

  /** Whether the two responses to a request carry the same header list, from the request alone. */
  ghost predicate SameResponse(headers: seq<Header>) {
    var r := Request(headers);
    RustDecision(r) == Accept && SameConnectResponse(r.path.value, OrElse(r.wtAvailableProtocols, ""))
  }

  /** Over every request with lower-case names the two backends answer with the same header list
      exactly when the request is an accepted CONNECT with the same CONNECT response. All other
      responses differ: the aioquic backend adds a cache control to rejections, and content headers
      to health responses. */
  lemma ResponsesAgreeExactly(headers: seq<Header>, es: seq<A.Event>, uniStreams: nat, id: nat)
    requires LowerCaseNames(headers)
    ensures var sent := A.Reaction(es, uniStreams, A.Headers(id, headers));
            && sent != [] && sent[0].Respond?
            && (sent[0].headers == T.ResponseTo(Request(headers)) <==> SameResponse(headers))
  {
    hide SameConnectResponse, PythonConnectResponse, RustConnectResponse, Reference, PythonDecision, RustDecision,
      Request, A.Accepted;
    AioquicResponse(headers, es, uniStreams, id);
    if RustDecision(Request(headers)) == Accept {
      Negotiation.ResponsesAgreeExactly(headers);
      TokioConnect(headers);
    } else {
      TokioOther(headers);
      NotAccepted(headers);
    }
  }

  lemma TokioConnect(headers: seq<Header>)
    requires RustDecision(Request(headers)) == Accept
    ensures T.ResponseTo(Request(headers)) == RustConnectResponse(headers)
  {
  }

  lemma TokioOther(headers: seq<Header>)
    requires RustDecision(Request(headers)) != Accept
    ensures |T.ResponseTo(Request(headers))| == 1
  {
    hide RustDecision, Request;
  }

  /** The header list of an aioquic response; only a CONNECT response can be a bare status. */
  lemma AioquicResponse(headers: seq<Header>, es: seq<A.Event>, uniStreams: nat, id: nat)
    ensures var sent := A.Reaction(es, uniStreams, A.Headers(id, headers));
            && sent != [] && sent[0].Respond?
            && (PythonDecision(headers) == Accept ==> sent[0].headers == PythonConnectResponse(headers))
            && (PythonDecision(headers) != Accept ==> |sent[0].headers| > 1)
  {
    hide PythonDecision, Reference;
  }

  lemma NotAccepted(headers: seq<Header>)
    requires LowerCaseNames(headers) && RustDecision(Request(headers)) != Accept
    ensures PythonDecision(headers) != Accept
  {
    hide Last, BeforeFirst;
    DecisionsAgreeExactly(headers);
    LowerCaseMap(headers);
    assert |"GET"| != |"CONNECT"|;
  }
}
