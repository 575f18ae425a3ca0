/**
 * Client authentication with HTTP Basic (section 2.3.1 of RFC 6749): the
 * `Authorization` request header built from the client id and secret.
 */
module BasicAuthentication {
  import opened Wrappers
  import Base64
  import Utf8

  /** `Options.ClientId` and `Options.ClientSecret`; either may be unset (null). */
  datatype ClientCredentials = ClientCredentials(clientId: Option<string>, clientSecret: Option<string>)

  const Scheme: string := "Basic "

  /** The user-id of the header: the client id, where an unset one interpolates as empty text. */
  function UserId(c: ClientCredentials): string {
    c.clientId.GetOr("")
  }

  /** The password of the header: the client secret, where an unset one interpolates as empty text. */
  function Password(c: ClientCredentials): string {
    c.clientSecret.GetOr("")
  }

  /** The interpolated text `{ClientId}:{ClientSecret}`. */
  function UserPass(c: ClientCredentials): string {
    UserId(c) + ":" + Password(c)
  }

  /** The header value: `Basic ` and the Base64 encoding of the UTF-8 bytes of `UserPass(c)`. */
  function AuthorizationValue(c: ClientCredentials): (r: string)
    ensures |r| == |Scheme| + 4 * ((|Utf8.Encode(UserPass(c))| + 2) / 3)
    ensures r[..|Scheme|] == Scheme
  {
    Scheme + Base64.Encode(Utf8.Encode(UserPass(c)))
  }

  /** The user-id and the password of a user-pass text: the parts before and after its first colon. */
  function SplitAtColon(s: string): (r: Option<(string, string)>)
    ensures r.Some? ==> ':' !in r.value.0 && s == r.value.0 + ":" + r.value.1
  {
    if s == [] then None
    else if s[0] == ':' then Some(("", s[1..]))
    else
      match SplitAtColon(s[1..])
      case None => None
      case Some((user, password)) => Some(([s[0]] + user, password))
  }

  /**
   * What the token endpoint recovers from the header (section 2 of RFC 7617):
   * strip the scheme, Base64-decode, UTF-8-decode and split at the first colon.
   */
  function ParseAuthorization(h: string): Option<(string, string)> {
    if |h| < |Scheme| || h[..|Scheme|] != Scheme then None
    else
      match Base64.Decode(h[|Scheme|..])
      case None => None
      case Some(bytes) =>
        match Utf8.Decode(bytes)
        case None => None
        case Some(text) => SplitAtColon(text)
  }

  lemma {:induction false} SplitJoin(user: string, password: string)
    requires ':' !in user
    ensures SplitAtColon(user + ":" + password) == Some((user, password))
  {
    var s := user + ":" + password;
    if user == [] {
      assert s == [':'] + password;
    } else {
      assert s[0] == user[0];
      assert s[1..] == user[1..] + ":" + password;
      SplitJoin(user[1..], password);
      assert user == [user[0]] + user[1..];
    }
  }

  /**
   * The header carries the credentials: the endpoint gets back the client id
   * and secret, provided the client id contains no colon.
   */
  lemma ParseAuthorizationValue(c: ClientCredentials)
    requires ':' !in UserId(c)
    ensures ParseAuthorization(AuthorizationValue(c)) == Some((UserId(c), Password(c)))
  {
    var h := AuthorizationValue(c);
    assert h[|Scheme|..] == Base64.Encode(Utf8.Encode(UserPass(c)));
    Base64.DecodeEncode(Utf8.Encode(UserPass(c)));
    Utf8.DecodeEncode(UserPass(c));
    SplitJoin(UserId(c), Password(c));
  }

  /** Distinct colon-free client ids, or distinct secrets, give distinct headers. */
  lemma AuthorizationValueInjective(c: ClientCredentials, d: ClientCredentials)
    requires ':' !in UserId(c) && ':' !in UserId(d)
    requires AuthorizationValue(c) == AuthorizationValue(d)
    ensures UserId(c) == UserId(d) && Password(c) == Password(d)
  {
    ParseAuthorizationValue(c);
    ParseAuthorizationValue(d);
  }

  /** A colon in the client id is not escaped, so such credentials share a header with others. */
  lemma ColonInClientIdIsAmbiguous()
    ensures AuthorizationValue(ClientCredentials(Some("a:b"), Some("c")))
         == AuthorizationValue(ClientCredentials(Some("a"), Some("b:c")))
  {
  }

  /** A client `id` with secret `pw` sends `Basic aWQ6cHc=`. */
  lemma HeaderExample()
    ensures AuthorizationValue(ClientCredentials(Some("id"), Some("pw"))) == "Basic aWQ6cHc="
  {
    assert UserPass(ClientCredentials(Some("id"), Some("pw"))) == "id:pw";
    HeaderExampleBytes();
    HeaderExampleBase64();
  }

  lemma HeaderExampleBase64()
    ensures Base64.Encode([0x69, 0x64, 0x3A, 0x70, 0x77]) == "aWQ6cHc="
  {
    var bytes := [0x69, 0x64, 0x3A, 0x70, 0x77];
    assert bytes[3..] == [0x70, 0x77];
    assert Base64.EncodeBlock(0x69, 0x64, 0x3A) == "aWQ6";
    assert Base64.EncodeTail([0x70, 0x77]) == "cHc=";
  }

  lemma HeaderExampleBytes()
    ensures Utf8.Encode("id:pw") == [0x69, 0x64, 0x3A, 0x70, 0x77]
  {
    Utf8.EncodeAscii("id:pw");
  }

  /** An unset client id and secret still produce a header, for the text ":". */
  lemma UnsetCredentialsExample()
    ensures AuthorizationValue(ClientCredentials(None, None)) == "Basic Og=="
  {
    assert UserPass(ClientCredentials(None, None)) == ":";
    assert Utf8.Encode(":") == [0x3A];
  }
}
