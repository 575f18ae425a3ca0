/**
 * Handling of the token endpoint's response: the advisory Content-Type
 * diagnostic, and the classification of the response into exactly one of a
 * redeemed token message, a body that could not be parsed, or an error
 * reported by the provider (section 5.2 of RFC 6749).
 */
module TokenResponse {
  import opened Wrappers

  /** A parsed response body (`OpenIdConnectMessage`): its parameters by name. */
  datatype Message = Message(parameters: map<string, string>) {

    function Get(name: string): Option<string> {
      if name in parameters then Some(parameters[name]) else None
    }

    /** `Error`, `ErrorDescription` and `ErrorUri`: null when the body lacks the field. */
    function Error(): Option<string> { Get("error") }
    function ErrorDescription(): Option<string> { Get("error_description") }
    function ErrorUri(): Option<string> { Get("error_uri") }
  }

  /** The response's Content-Type header: its media type and its full text. */
  datatype ContentTypeHeader = ContentTypeHeader(mediaType: string, text: string)

  /**
   * What the handler learns from the transport: the numeric status code,
   * the Content-Type header if any, and the body parsed as a message, or
   * None when reading or parsing the body failed.
   */
  datatype HttpResponse = HttpResponse(status: int, contentType: Option<ContentTypeHeader>, body: Option<Message>)

  /** The debug message logged about the Content-Type, if any. */
  datatype Diagnostic =
    | Silent
    | MissingContentType(status: int)
    | UnexpectedContentType(status: int, contentType: string)

  datatype Outcome =
    | Redeemed(message: Message)
    | MalformedResponse(status: int, contentType: Option<ContentTypeHeader>)
    | ProviderError(error: Option<string>, description: string, uri: string)

  const JsonMediaType: string := "application/json"
  const MissingDescription: string := "error_description is null"
  const MissingUri: string := "error_uri is null"

  /** `HttpResponseMessage.IsSuccessStatusCode`: the status is in the Successful (2xx) class of section 15.3 of RFC 9110. */
  predicate IsSuccessStatusCode(status: int): (b: bool)
    ensures b <==> status / 100 == 2
  {
    200 <= status <= 299
  }

  /** Upper case for ASCII letters; every other character is left alone. */
  function AsciiUpper(c: char): (u: char)
    ensures 'a' <= c <= 'z' ==> u as int == c as int - 32
    ensures !('a' <= c <= 'z') ==> u == c
  {
    if 'a' <= c <= 'z' then (c as int - 32) as char else c
  }

  /** Ordinal comparison ignoring the case of ASCII letters. */
  predicate EqualsIgnoreCase(a: string, b: string) {
    |a| == |b| && forall i :: 0 <= i < |a| ==> AsciiUpper(a[i]) == AsciiUpper(b[i])
  }

  /**
   * The Content-Type check: a diagnostic when the header or its media type
   * is missing or empty, another when the media type is not
   * `application/json` in any letter case, and none otherwise.
   */
  function ContentTypeDiagnostic(r: HttpResponse): (d: Diagnostic)
    ensures d.Silent? <==> r.contentType.Some? && EqualsIgnoreCase(r.contentType.value.mediaType, JsonMediaType)
    ensures d.MissingContentType? <==> r.contentType.None? || r.contentType.value.mediaType == ""
    ensures !d.Silent? ==> d.status == r.status
    ensures d.UnexpectedContentType? ==> r.contentType.Some? && d.contentType == r.contentType.value.text
  {
    match r.contentType
    case None => MissingContentType(r.status)
    case Some(header) =>
      if header.mediaType == "" then MissingContentType(r.status)
      else if !EqualsIgnoreCase(header.mediaType, JsonMediaType) then UnexpectedContentType(r.status, header.text)
      else Silent
  }

  /**
   * The outcome of a response: a body that failed to parse is malformed
   * whatever the status; a parsed body with a status outside 2xx is the
   * provider's error; a parsed body with a 2xx status is returned as it is.
   */
  function Classify(r: HttpResponse): (o: Outcome)
    ensures o.MalformedResponse? <==> r.body.None?
    ensures o.ProviderError? <==> r.body.Some? && !IsSuccessStatusCode(r.status)
    ensures o.Redeemed? <==> r.body.Some? && IsSuccessStatusCode(r.status)
    ensures o.Redeemed? ==> o.message == r.body.value
    ensures o.MalformedResponse? ==> o.status == r.status && o.contentType == r.contentType
    ensures o.ProviderError? ==> o.error == r.body.value.Error()
  {
    match r.body
    case None => MalformedResponse(r.status, r.contentType)
    case Some(message) =>
      if !IsSuccessStatusCode(r.status) then
        ProviderError(message.Error(), message.ErrorDescription().GetOr(MissingDescription), message.ErrorUri().GetOr(MissingUri))
      else Redeemed(message)
  }

  /**
   * A provider error passes `error_description` and `error_uri` through when
   * the body has them and puts the placeholder texts in their place when it
   * does not; a missing `error` stays missing.
   */
  lemma ProviderErrorFields(r: HttpResponse)
    requires r.body.Some? && !IsSuccessStatusCode(r.status)
    ensures Classify(r).ProviderError?
    ensures "error" in r.body.value.parameters ==> Classify(r).error == Some(r.body.value.parameters["error"])
    ensures "error" !in r.body.value.parameters ==> Classify(r).error == None
    ensures "error_description" in r.body.value.parameters ==> Classify(r).description == r.body.value.parameters["error_description"]
    ensures "error_description" !in r.body.value.parameters ==> Classify(r).description == MissingDescription
    ensures "error_uri" in r.body.value.parameters ==> Classify(r).uri == r.body.value.parameters["error_uri"]
    ensures "error_uri" !in r.body.value.parameters ==> Classify(r).uri == MissingUri
  {
  }

  /**
   * The Content-Type never decides the outcome: with any other header the
   * outcome is the same, except that a malformed response reports the
   * header it came with.
   */
  lemma ContentTypeIsAdvisory(r: HttpResponse, other: Option<ContentTypeHeader>)
    ensures Classify(r.(contentType := other)).MalformedResponse? == Classify(r).MalformedResponse?
    ensures !Classify(r).MalformedResponse? ==> Classify(r.(contentType := other)) == Classify(r)
    ensures Classify(r).MalformedResponse? ==> Classify(r.(contentType := other)) == MalformedResponse(r.status, other)
  {
  }

  /** Media types such as `Application/JSON` draw no diagnostic; `text/html` and an absent header do. */
  lemma DiagnosticExamples(status: int)
    ensures ContentTypeDiagnostic(HttpResponse(status, Some(ContentTypeHeader("Application/JSON", "Application/JSON; charset=utf-8")), None)) == Silent
    ensures ContentTypeDiagnostic(HttpResponse(status, Some(ContentTypeHeader("text/html", "text/html")), None)) == UnexpectedContentType(status, "text/html")
    ensures ContentTypeDiagnostic(HttpResponse(status, None, None)) == MissingContentType(status)
  {
  }

  /** An expired code: status 400 with `invalid_grant` and a description but no URI. */
  lemma InvalidGrantExample()
    ensures Classify(HttpResponse(400, None, Some(Message(map["error" := "invalid_grant", "error_description" := "code expired"]))))
         == ProviderError(Some("invalid_grant"), "code expired", MissingUri)
    ensures Classify(HttpResponse(400, None, Some(Message(map["error" := "invalid_grant"]))))
         == ProviderError(Some("invalid_grant"), MissingDescription, MissingUri)
  {
  }
}
