/**
 * The authorization-code exchange of section 4.1.3 of RFC 6749, with the
 * client authenticated by HTTP Basic instead of body parameters: the
 * handler's `RedeemAuthorizationCodeAsync`.
 *
 * The provider configuration is resolved by the caller (the token endpoint
 * is a parameter). The back channel is an object that records every request
 * sent through it and answers each with a fixed function of the request.
 */
module TokenRedemption {
  import opened Wrappers
  import opened FormParameters
  import opened BasicAuthentication
  import opened TokenResponse

  datatype HttpMethod = Post

  datatype Header = Header(name: string, value: string)

  /** An HTTP request as the back channel receives it; `form` is the URL-encoded form content. */
  datatype HttpRequest = HttpRequest(verb: HttpMethod, target: string, headers: seq<Header>, form: Option<seq<Parameter>>)

  const AuthorizationHeader: string := "Authorization"

  /** `HttpRequestMessage`: a request whose headers and content are filled in place. */
  class RequestMessage {
    var verb: HttpMethod
    var target: string
    var headers: seq<Header>
    var form: Option<seq<Parameter>>

    constructor (verb: HttpMethod, target: string)
      ensures this.verb == verb && this.target == target
      ensures headers == [] && form == None
    {
      this.verb := verb;
      this.target := target;
      headers := [];
      form := None;
    }

    /** `Headers.Add`: appends one header, nothing else changes. */
    method AddHeader(name: string, value: string)
      modifies this
      ensures headers == old(headers) + [Header(name, value)]
      ensures verb == old(verb) && target == old(target) && form == old(form)
    {
      headers := headers + [Header(name, value)];
    }

    /** The request as it leaves the handler. */
    function Sent(): HttpRequest
      reads this
    {
      HttpRequest(verb, target, headers, form)
    }
  }

  /**
   * `Backchannel`: the HTTP client the handler sends through. `sentLog` is
   * every request sent so far, in order; `respond` is the server's answer to
   * a request.
   */
  class BackChannel {
    ghost var sentLog: seq<HttpRequest>
    const respond: HttpRequest -> HttpResponse

    constructor (respond: HttpRequest -> HttpResponse)
      ensures this.respond == respond && sentLog == []
    {
      this.respond := respond;
      sentLog := [];
    }

    /** `SendAsync`: sends one request and returns the server's response to it. */
    method Send(request: HttpRequest) returns (response: HttpResponse)
      modifies this
      ensures sentLog == old(sentLog) + [request]
      ensures response == respond(request)
    {
      sentLog := sentLog + [request];
      response := respond(request);
    }
  }

  /**
   * The request the handler sends for a pending request with parameters
   * `ps`: a POST to the token endpoint, the Basic `Authorization` header as
   * its only header, and the parameters without the client credentials as
   * its form.
   */
  function TokenRequest(endpoint: string, credentials: ClientCredentials, ps: seq<Parameter>): (r: HttpRequest)
    ensures r.form.Some? && |r.form.value| <= |ps|
    ensures forall i :: 0 <= i < |r.form.value| ==> r.form.value[i].name != ClientIdName && r.form.value[i].name != ClientSecretName
    ensures |r.headers| == 1 && r.headers[0].name == AuthorizationHeader && |Scheme| <= |r.headers[0].value| && r.headers[0].value[..|Scheme|] == Scheme
  {
    HttpRequest(Post, endpoint, [Header(AuthorizationHeader, AuthorizationValue(credentials))], Some(StripClientCredentials(ps)))
  }

  /**
   * The credentials travel in the header and never in the form: the form
   * names neither `client_id` nor `client_secret`, keeps every other
   * parameter with its value, and the header gives the endpoint back the
   * client id and secret when the client id has no colon.
   */
  lemma CredentialsOnlyInHeader(endpoint: string, credentials: ClientCredentials, ps: seq<Parameter>, key: string)
    ensures var r := TokenRequest(endpoint, credentials, ps);
      && r.form.Some?
      && !HasName(r.form.value, ClientIdName)
      && !HasName(r.form.value, ClientSecretName)
      && (key != ClientIdName && key != ClientSecretName ==> Lookup(r.form.value, key) == Lookup(ps, key))
      && |r.headers| == 1 && r.headers[0].name == AuthorizationHeader
      && (':' !in UserId(credentials) ==>
            ParseAuthorization(r.headers[0].value) == Some((UserId(credentials), Password(credentials))))
  {
    StripRemovesCredentials(ps);
    if key != ClientIdName && key != ClientSecretName {
      StripKeepsOthers(ps, key, Parameter(key, ""));
    }
    if ':' !in UserId(credentials) {
      ParseAuthorizationValue(credentials);
    }
  }

  /**
   * `RedeemAuthorizationCodeAsync`: builds the request, strips the
   * credentials from the pending request's parameters in place, sends the
   * request through the back channel exactly once, logs the Content-Type
   * diagnostic and classifies the response.
   */
  method Redeem(endpoint: string, credentials: ClientCredentials, parameters: ParameterDictionary,
                backchannel: BackChannel)
    returns (sent: HttpRequest, logged: Diagnostic, outcome: Outcome)
    requires parameters.Valid()
    modifies parameters, backchannel
    ensures parameters.Valid()
    ensures parameters.entries == StripClientCredentials(old(parameters.entries))
    ensures sent == TokenRequest(endpoint, credentials, old(parameters.entries))
    ensures backchannel.sentLog == old(backchannel.sentLog) + [sent]
    ensures logged == ContentTypeDiagnostic(backchannel.respond(sent))
    ensures outcome == Classify(backchannel.respond(sent))
  {
    var request := new RequestMessage(Post, endpoint);
    var basicAuthHeader := AuthorizationValue(credentials);
    request.AddHeader(AuthorizationHeader, basicAuthHeader);

    var _ := parameters.Remove(ClientIdName);
    var _ := parameters.Remove(ClientSecretName);

    request.form := Some(parameters.entries);
    sent := request.Sent();

    var response := backchannel.Send(sent);
    logged := ContentTypeDiagnostic(response);
    outcome := Classify(response);
  }
}
