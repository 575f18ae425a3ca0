# Token redemption with HTTP Basic client authentication

This project models the core of an ASP.NET Core OpenID Connect handler that
redeems an authorization code at the provider's token endpoint (section 4.1.3
of RFC 6749). It departs from the stock handler in one way: it authenticates
the client with an HTTP Basic `Authorization` header (section 2.3.1 of RFC 6749)
instead of sending `client_id` and `client_secret` in the form body.

The handler's `RedeemAuthorizationCodeAsync` does three things, and the model
follows them:

1. **Builds the request.** The header value is `Basic ` followed by the
   Base64 text (section 4 of RFC 4648) of the UTF-8 bytes (RFC 3629) of
   `{ClientId}:{ClientSecret}`. This is modelled exactly, in modules
   `Base64`, `Utf8` and `BasicAuthentication`. Each encoder has a strict
   decoder as its partner, and the round trips are proved. The request's
   parameter dictionary is a class (`FormParameters.ParameterDictionary`)
   whose `Remove` changes it in place. `client_id` and `client_secret` are
   removed from it before it becomes the form content.
2. **Classifies the response** (module `TokenResponse`). The Content-Type
   check only produces a debug diagnostic. A body that does not parse is a
   malformed response, whatever the status. A parsed body with a status
   outside 200-299 is a provider error, with placeholder texts for a missing
   `error_description` and `error_uri`. Any other response is returned as it is.
3. **Puts it together** (`TokenRedemption.Redeem`). The request is built
   in a `RequestMessage` object and sent once through a `BackChannel` object,
   which records every request sent through it. The method returns the
   request sent, the diagnostic logged and the outcome.

The provider error keeps the three fields the handler computes at lines
70-73: `error`, and `error_description` and `error_uri` with their
placeholders. It has no HTTP status. The exception raised at line 73 is
formatted with the empty format string `""`, so its message carries none of
these fields either; the model keeps them as the values the handler derives.
`error` itself gets no placeholder: when the body lacks it, the model records
it as absent (C# `null`).

## Model

| member | source | states |
|---|---|---|
| Base64.Encode | OneginiAuthClient/Onegini.AspNetCore.Authentication.OneginiOIDC/OneginiOpenIdConnectHandler.cs:32 | The encoding of n bytes has 4 * ceil(n / 3) characters. |
| Base64.EncodeAlphabet | OneginiAuthClient/Onegini.AspNetCore.Authentication.OneginiOIDC/OneginiOpenIdConnectHandler.cs:32 | Every character of an encoding is in the RFC 4648 alphabet or is `=`, and `=` appears only in the last two positions. |
| Base64.DecodeEncode | OneginiAuthClient/Onegini.AspNetCore.Authentication.OneginiOIDC/OneginiOpenIdConnectHandler.cs:32 | Strict Base64 decoding of the encoding gives back the original bytes. |
| Base64.EncodeInjective | OneginiAuthClient/Onegini.AspNetCore.Authentication.OneginiOIDC/OneginiOpenIdConnectHandler.cs:32 | Distinct byte sequences have distinct Base64 encodings. |
| Base64.TestVectors | OneginiAuthClient/Onegini.AspNetCore.Authentication.OneginiOIDC/OneginiOpenIdConnectHandler.cs:32 | The encoder reproduces the test vectors of section 10 of RFC 4648 ("" to "foobar"). |
| Utf8.EncodeChar | OneginiAuthClient/Onegini.AspNetCore.Authentication.OneginiOIDC/OneginiOpenIdConnectHandler.cs:32 | A character encodes to 1-4 bytes. It takes one byte exactly when it is below U+0080, and every byte after the first is a continuation byte. |
| Utf8.Encode | OneginiAuthClient/Onegini.AspNetCore.Authentication.OneginiOIDC/OneginiOpenIdConnectHandler.cs:32 | Text of n characters encodes to between n and 4n bytes. Utf8.DecodeEncode states that the bytes give back the text. |
| Utf8.DecodeEncodeChar | OneginiAuthClient/Onegini.AspNetCore.Authentication.OneginiOIDC/OneginiOpenIdConnectHandler.cs:32 | The decoder reads back exactly one encoded character and its length, whatever bytes follow it. |
| Utf8.DecodeEncode | OneginiAuthClient/Onegini.AspNetCore.Authentication.OneginiOIDC/OneginiOpenIdConnectHandler.cs:32 | Strict UTF-8 decoding of the encoding gives back the original text. |
| Utf8.EncodeAscii | OneginiAuthClient/Onegini.AspNetCore.Authentication.OneginiOIDC/OneginiOpenIdConnectHandler.cs:32 | On ASCII text UTF-8 gives one byte per character, equal to its code. |
| BasicAuthentication.AuthorizationValue | OneginiAuthClient/Onegini.AspNetCore.Authentication.OneginiOIDC/OneginiOpenIdConnectHandler.cs:32 | The header value starts with `Basic `, and its length is 6 plus the Base64 length of the UTF-8 bytes of `ClientId:ClientSecret`. |
| BasicAuthentication.SplitAtColon | OneginiAuthClient/Onegini.AspNetCore.Authentication.OneginiOIDC/OneginiOpenIdConnectHandler.cs:32 | Splitting a user-pass text at its first colon gives a colon-free user-id and a password that rejoin to the text. |
| BasicAuthentication.SplitJoin | OneginiAuthClient/Onegini.AspNetCore.Authentication.OneginiOIDC/OneginiOpenIdConnectHandler.cs:32 | A colon-free user-id joined to a password with `:` splits back into the same two parts. |
| BasicAuthentication.ParseAuthorizationValue | OneginiAuthClient/Onegini.AspNetCore.Authentication.OneginiOIDC/OneginiOpenIdConnectHandler.cs:32-33 | The endpoint's RFC 7617 parse of the header gives back the client id and secret when the id has no colon. An unset id or secret is read back as empty text. |
| BasicAuthentication.AuthorizationValueInjective | OneginiAuthClient/Onegini.AspNetCore.Authentication.OneginiOIDC/OneginiOpenIdConnectHandler.cs:32 | For colon-free client ids, equal headers imply equal client ids and equal secrets. |
| BasicAuthentication.ColonInClientIdIsAmbiguous | OneginiAuthClient/Onegini.AspNetCore.Authentication.OneginiOIDC/OneginiOpenIdConnectHandler.cs:32 | The credentials are not escaped, so ids `a:b` with secret `c` and `a` with `b:c` give the same header. |
| BasicAuthentication.HeaderExample | OneginiAuthClient/Onegini.AspNetCore.Authentication.OneginiOIDC/OneginiOpenIdConnectHandler.cs:32-33 | Client `id` with secret `pw` sends `Basic aWQ6cHc=`. |
| BasicAuthentication.UnsetCredentialsExample | OneginiAuthClient/Onegini.AspNetCore.Authentication.OneginiOIDC/OneginiOpenIdConnectHandler.cs:32 | An unset client id and secret interpolate as empty, giving `Basic Og==` (the text `:`). |
| FormParameters.Lookup | OneginiAuthClient/Onegini.AspNetCore.Authentication.OneginiOIDC/OneginiOpenIdConnectHandler.cs:35 | The value found under a name is present exactly when the dictionary has that name, and it is the value stored with it. |
| FormParameters.Without | OneginiAuthClient/Onegini.AspNetCore.Authentication.OneginiOIDC/OneginiOpenIdConnectHandler.cs:36-37 | The dictionary after `Remove(name)` is no longer, holds no entry named `name`, and holds only entries it had before. WithoutMembers, WithoutLookup and WithoutAppend state the rest. |
| FormParameters.WithoutCount | OneginiAuthClient/Onegini.AspNetCore.Authentication.OneginiOIDC/OneginiOpenIdConnectHandler.cs:36-37 | With distinct names, `Remove(name)` drops exactly one entry when the name is present and none otherwise. |
| FormParameters.WithoutMembers | OneginiAuthClient/Onegini.AspNetCore.Authentication.OneginiOIDC/OneginiOpenIdConnectHandler.cs:36-37 | After `Remove(name)`, an entry is kept exactly when it was present and has another name. No entry is added. |
| FormParameters.WithoutLookup | OneginiAuthClient/Onegini.AspNetCore.Authentication.OneginiOIDC/OneginiOpenIdConnectHandler.cs:36-37 | After `Remove(name)`, `name` has no value, and every other name keeps its value. |
| FormParameters.WithoutAbsent | OneginiAuthClient/Onegini.AspNetCore.Authentication.OneginiOIDC/OneginiOpenIdConnectHandler.cs:36-37 | Removing a name that is not present changes nothing. |
| FormParameters.WithoutAppend | OneginiAuthClient/Onegini.AspNetCore.Authentication.OneginiOIDC/OneginiOpenIdConnectHandler.cs:36-39 | Removal keeps the remaining entries in their order, which the form body follows. |
| FormParameters.WithoutDistinct | OneginiAuthClient/Onegini.AspNetCore.Authentication.OneginiOIDC/OneginiOpenIdConnectHandler.cs:36-37 | Removal keeps the dictionary's names distinct. |
| FormParameters.StripClientCredentials | OneginiAuthClient/Onegini.AspNetCore.Authentication.OneginiOIDC/OneginiOpenIdConnectHandler.cs:36-37 | After both removals no entry is named `client_id` or `client_secret`, and the parameters are no more than before. StripKeepsOthers states that nothing else changes. |
| FormParameters.StripRemovesCredentials | OneginiAuthClient/Onegini.AspNetCore.Authentication.OneginiOIDC/OneginiOpenIdConnectHandler.cs:35-39 | After both removals the parameters name neither `client_id` nor `client_secret`, whether or not they were present. |
| FormParameters.StripKeepsOthers | OneginiAuthClient/Onegini.AspNetCore.Authentication.OneginiOIDC/OneginiOpenIdConnectHandler.cs:35-37 | Every other name keeps its value, and the entries kept are exactly those with other names. |
| FormParameters.StripIdempotent | OneginiAuthClient/Onegini.AspNetCore.Authentication.OneginiOIDC/OneginiOpenIdConnectHandler.cs:36-37 | Parameters without the two names are left unchanged, so stripping twice equals stripping once. |
| FormParameters.ParameterDictionary.constructor | OneginiAuthClient/Onegini.AspNetCore.Authentication.OneginiOIDC/OneginiOpenIdConnectHandler.cs:35 | A dictionary holds the pending request's parameters, with distinct names. |
| FormParameters.ParameterDictionary.Remove | OneginiAuthClient/Onegini.AspNetCore.Authentication.OneginiOIDC/OneginiOpenIdConnectHandler.cs:36-37 | In-place removal: it reports whether the name was present, leaves exactly the entries without it, keeps the names distinct, and removes one entry when it reports `true` and none otherwise. |
| TokenResponse.ContentTypeDiagnostic | OneginiAuthClient/Onegini.AspNetCore.Authentication.OneginiOIDC/OneginiOpenIdConnectHandler.cs:43-51 | The diagnostic is silent exactly when the media type is `application/json` in any letter case. A missing header or an empty media type draws the "missing" diagnostic. Every diagnostic carries the status, and the "unexpected" diagnostic carries the Content-Type header text. |
| TokenResponse.DiagnosticExamples | OneginiAuthClient/Onegini.AspNetCore.Authentication.OneginiOIDC/OneginiOpenIdConnectHandler.cs:43-51 | `Application/JSON` draws no diagnostic, `text/html` draws "unexpected", and an absent header draws "missing". |
| TokenResponse.IsSuccessStatusCode | OneginiAuthClient/Onegini.AspNetCore.Authentication.OneginiOIDC/OneginiOpenIdConnectHandler.cs:68 | A status is a success exactly when it is in the 2xx class. |
| TokenResponse.Classify | OneginiAuthClient/Onegini.AspNetCore.Authentication.OneginiOIDC/OneginiOpenIdConnectHandler.cs:57-76 | Every response has exactly one outcome. It is malformed exactly when the body did not parse (with the status and Content-Type), a provider error exactly when it parsed with a non-2xx status, and redeemed exactly when it parsed with a 2xx status (with the message unchanged). |
| TokenResponse.ProviderErrorFields | OneginiAuthClient/Onegini.AspNetCore.Authentication.OneginiOIDC/OneginiOpenIdConnectHandler.cs:68-73 | A provider error passes `error_description` and `error_uri` through when present and uses the two placeholder texts when absent. A missing `error` stays missing. |
| TokenResponse.ContentTypeIsAdvisory | OneginiAuthClient/Onegini.AspNetCore.Authentication.OneginiOIDC/OneginiOpenIdConnectHandler.cs:43-66 | Changing the Content-Type never changes the outcome, except the header that a malformed response reports. |
| TokenResponse.InvalidGrantExample | OneginiAuthClient/Onegini.AspNetCore.Authentication.OneginiOIDC/OneginiOpenIdConnectHandler.cs:68-73 | A 400 `invalid_grant` body gives a provider error with its description or the placeholder, and the URI placeholder. |
| TokenRedemption.RequestMessage.constructor | OneginiAuthClient/Onegini.AspNetCore.Authentication.OneginiOIDC/OneginiOpenIdConnectHandler.cs:29 | A new request has the given method and target, no headers and no content. |
| TokenRedemption.RequestMessage.AddHeader | OneginiAuthClient/Onegini.AspNetCore.Authentication.OneginiOIDC/OneginiOpenIdConnectHandler.cs:33 | Adding a header appends it and changes nothing else. |
| TokenRedemption.TokenRequest | OneginiAuthClient/Onegini.AspNetCore.Authentication.OneginiOIDC/OneginiOpenIdConnectHandler.cs:29-39 | The request's form names neither credential and has no more entries than the pending parameters. Its one header is `Authorization`, and its value starts with `Basic `. CredentialsOnlyInHeader states the values. |
| TokenRedemption.BackChannel.constructor | OneginiAuthClient/Onegini.AspNetCore.Authentication.OneginiOIDC/OneginiOpenIdConnectHandler.cs:41 | A new back channel has sent nothing and answers with the given server function. |
| TokenRedemption.BackChannel.Send | OneginiAuthClient/Onegini.AspNetCore.Authentication.OneginiOIDC/OneginiOpenIdConnectHandler.cs:41 | Sending appends the request to the log of sent requests and returns the server's response to it. |
| TokenRedemption.CredentialsOnlyInHeader | OneginiAuthClient/Onegini.AspNetCore.Authentication.OneginiOIDC/OneginiOpenIdConnectHandler.cs:32-39 | The request form names neither credential and keeps every other parameter's value. The one header is `Authorization`, and it gives back the client id and secret. |
| TokenRedemption.Redeem | OneginiAuthClient/Onegini.AspNetCore.Authentication.OneginiOIDC/OneginiOpenIdConnectHandler.cs:22-77 | Strips the credentials from the caller's dictionary in place. The back channel's log grows by exactly one request, the specified one, so there is no retry. It logs the diagnostic and returns the classification of the response to that request. |

## Left out

- Resolving the provider configuration (line 27) is asynchronous network I/O. The token endpoint is a parameter of `Redeem`, and a failure to resolve it is not modelled.
- The back channel (line 41) and reading the body (line 60) are I/O. The back channel is an object that logs each request and answers it with a fixed function, and the response is a record of status, Content-Type header and parsed body. Transport failures, timeouts and cancellation raised by the send are not modelled.
- JSON parsing of the body (line 61) is done by the framework's message class, which is not part of this model. The parse result is an input: a message, or None when reading or parsing failed.
- The byte encoding of the form content (line 39) is the framework's URL-encoding serialiser. The form is modelled as the ordered list of remaining parameters.
- The text of the log messages (lines 46 and 50) is left out. The diagnostic records which message is logged, with the status and Content-Type it reports.
- The text of both exception messages (lines 65 and 73) is left out. The outcomes record the fields those lines use. The format string at line 73 is empty, so that exception's message is empty whatever the fields.
- TokenResponse.ContentTypeDiagnostic: compares letter case for ASCII letters only. The framework's ordinal case-insensitive comparison also folds some non-ASCII letters. The diagnostic never affects the outcome.
- Utf8.EncodeChar: a Dafny `char` is a Unicode scalar value, so the UTF-16 lone surrogates a C# string may hold (which the framework encodes as U+FFFD) are not modelled.
- The validation `Headers.Add` performs on a header value (line 33) is left out. A `Basic` header built this way is always accepted.
- Dictionary keys are compared exactly (ordinal). The remaining parameters keep their insertion order, which is how the form body enumerates them.
- Scheme registration and dependency injection (OneginiAuthClient/Onegini.AspNetCore.Authentication.OneginiOIDC/OneginiOpenIdConnectExtentions.cs) are framework plumbing and not modelled. The MVC controller (DotnetAspCoreMvcExample/Controllers/AccountController.cs) is framework and UI glue and not modelled.
