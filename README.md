# XClient in Dafny

A model of the core of XClient, a C# client for the X (Twitter) API. The model has these parts:

- **The OAuth 1.0a request signer** (`OAuthHeader`):
  - the sorted parameter dictionary;
  - the signature base string, the signing key and the `Authorization` header value, as in RFC 5849 sections 3.4.1, 3.4.2 and 3.5.1;
  - `Uri.EscapeDataString` (`PercentEncoding`).
- **The request plumbing:**
  - `HttpRequestHelper.SendHttpRequestAsync`, which classifies a reply into a `Result<T>`;
  - `XClient.SendHttpRequestAsync`, which signs a call and builds its URL with the query string.
- **Two client operations:** the user lookup and the tweet post (`XClient`, `PostTweetRequests`).
- **The chunked media upload `UploadMediaAsync`** (`MediaUpload`). It fetches the media, checks its size, then sends INIT, one APPEND per chunk of at most 1 MiB, and FINALIZE.
- **The three-legged OAuth flow** (`XAuth`):
  - the request-token call and the authorize URL;
  - the access-token call;
  - the reading of both form-encoded responses.
- **The `Result<T>` struct, the `Error` taxonomy** with `SetClientMessage`, and **the severity rule of `LogResult`** (`Results`, `Errors`, `Logging`).

Some inputs are parameters of the model:

- The network is a function from the request sent to the reply observed (`Reply<T>`). A reply is an exception, or a status code with a body and what the JSON reader returns for it.
- How a success body is read is fixed by the call, as its type argument is in C# (`Reading`). The request-token call, the access-token call and every APPEND ask for `Stream` and get the body on any success status. The other calls read JSON.
- HMAC-SHA1 followed by base64 is the parameter `hmac(key, message)`.
- The nonce and the timestamp are parameters. An operation that makes several calls receives them indexed by the number of the call (`Signing`).

`Error` is a class, because `SetClientMessage` updates the object in place and returns it. Each subclass is a named constructor of the one class; `kind` records which subclass it is. Methods that create errors ensure `fresh` results and state the new error's `State()`.

Each loop of the source is a method with invariants and is proved equal to a specification function:

- `OAuthHeader.AddEach` is proved equal to `AddAll`;
- `XClient.BuildUrl` is proved equal to `FinalUrl`;
- `MediaUpload.AppendSegments` is proved equal to `AppendRun`.

The properties of the source are proved about those functions. `MediaUpload.UploadFlow` is the whole upload operation as a value: its calls, in order, and its outcome.

Three behaviours of the code are easy to miss:

- **No transport or parse error kind.** A failed send and a JSON `null` body are plain `Error`s with the messages "Service request failed" and "Could not parse response".
- **Query values are not escaped.** They go onto the URL unescaped, although they are signed escaped.
- **The header is not per request.** It is stored in the shared client's `DefaultRequestHeaders`; see "Left out".

## Model

| member | source | states |
|---|---|---|
| OAuthHeader.FixedParams | src/XClient/Authentication/OAuthHeader.cs:21-28 | The initial dictionary is sorted and holds exactly the five fixed keys. Their values are the consumer key, the nonce, "HMAC-SHA1", the timestamp and "1.0". |
| SortedParams.Insert | src/XClient/Authentication/OAuthHeader.cs:35 | `SortedDictionary.Add` fails exactly when the key is already present. Otherwise the result is sorted, has one more key, maps it to the new value and leaves every other key unchanged. |
| SortedParams.AddAll | src/XClient/Authentication/OAuthHeader.cs:33-36 | Adding a dictionary succeeds exactly when its keys are disjoint from the present ones. The result then holds the union, each key with its own value. |
| OAuthHeader.AddEach | src/XClient/Authentication/OAuthHeader.cs:42-45 | The `foreach … Add` loop stops at the first duplicate and otherwise yields the dictionary `AddAll` defines. |
| OAuthHeader.MergedParameters | src/XClient/Authentication/OAuthHeader.cs:21-46 | The merged dictionary exists exactly when the fixed, auth and URL keys are pairwise disjoint. It is then sorted, its keys are the union, and each value comes from the dictionary that brought the key. |
| OAuthHeader.SignedHeader | src/XClient/Authentication/OAuthHeader.cs:15-53 | A header is produced exactly when the merge succeeds; otherwise `Authorization` throws. |
| OAuthHeader.Authorization | src/XClient/Authentication/OAuthHeader.cs:15-53 | The method returns the header `SignedHeader` specifies, or none where `Add` throws. |
| OAuthHeader.DuplicateKeyFails | src/XClient/Authentication/OAuthHeader.cs:30-46 | A key shared by any two of the fixed, auth and URL dictionaries makes the signing fail. No parameter overrides another. |
| OAuthHeader.MergedHoldsEverything | src/XClient/Authentication/OAuthHeader.cs:21-46 | The merged dictionary holds the five fixed values ("HMAC-SHA1", "1.0") and every auth and URL parameter with its own value. |
| OAuthHeader.ParameterStringParts | src/XClient/Authentication/OAuthHeader.cs:57 | The parameter string splits on `&` into one `enc(k)=enc(v)` item per entry, in ascending key order. Each item splits back into the encoded key and value, which decode to the originals' UTF-8 bytes. |
| OAuthHeader.ContentsDetermineStrings | src/XClient/Authentication/OAuthHeader.cs:55-79 | Two dictionaries with the same contents give the same parameter string and header, so the order of the additions does not matter. |
| OAuthHeader.BaseStringParts | src/XClient/Authentication/OAuthHeader.cs:58 | The base string has exactly three `&`-parts: the upper-cased method, the encoded URL and the encoded parameter string. Both encoded parts decode back. |
| OAuthHeader.SigningKeyParts | src/XClient/Authentication/OAuthHeader.cs:49 | The signing key is `enc(apiSecret)&enc(tokenSecret)`. Without a token secret it is `enc(apiSecret)&`. |
| OAuthHeader.OAuthOnly | src/XClient/Authentication/OAuthHeader.cs:73-74 | The filter keeps exactly the `oauth_` entries, with their values, in dictionary order. |
| OAuthHeader.HeaderParts | src/XClient/Authentication/OAuthHeader.cs:71-79 | The header splits on `,` into the `oauth_` entries in order, then one signature entry, last. |
| OAuthHeader.NonOAuthNotEchoed | src/XClient/Authentication/OAuthHeader.cs:57-75 | A non-`oauth_` parameter is part of the signed parameter string but has no header entry. |
| OAuthHeader.SignedHeaderShape | src/XClient/Authentication/OAuthHeader.cs:48-79 | The header is the `oauth_` entries followed by `oauth_signature="…"`. The signature is the digest of the base string under the signing key, percent-encoded exactly once. The five fixed keys are always echoed. |
| OAuthHeader.FixedInHeader | src/XClient/Authentication/OAuthHeader.cs:21-28 | The five fixed parameters survive the `oauth_` filter, so the header is never only a signature. |
| OAuthHeader.OAuthEntryInHeader | src/XClient/Authentication/OAuthHeader.cs:73-77 | Every `oauth_` parameter appears, encoded, as one comma-separated item of the header, and the signature entry is last. |
| PercentEncoding.EncodeRoundTrip | src/XClient/Authentication/OAuthHeader.cs:57 | Percent-decoding `Uri.EscapeDataString(s)` gives the UTF-8 bytes of `s`, so encoding loses nothing. |
| PercentEncoding.EncodeAlphabet | src/XClient/Authentication/OAuthHeader.cs:57 | Encoded text uses only RFC 3986 unreserved characters and `%`. |
| PercentEncoding.EncodeHasNoSeparators | src/XClient/Authentication/OAuthHeader.cs:57-58 | Encoded text contains no `&`, `,`, `=` or `"`, so the joined strings can be split back. |
| PercentEncoding.EncodeIdentity | src/XClient/Authentication/OAuthHeader.cs:57 | Encoding leaves a string unchanged exactly when all its characters are unreserved. |
| PercentEncoding.EncodeAppend | src/XClient/Authentication/OAuthHeader.cs:57 | Encoding works character by character: the encoding of a concatenation is the concatenation of the encodings. |
| Strings.SplitJoin | src/XClient/Authentication/OAuthHeader.cs:57 | `string.Join` is inverted by splitting on the separator when no part contains it. |
| Strings.TrimEnd | src/XClient/XClient.cs:245 | `TrimEnd(c)` removes a suffix made only of `c`, and what remains does not end with `c`. |
| Strings.DecimalRoundTrip | src/XClient/XClient.cs:155 | A decimal `ToString()` of a natural number reads back as that number. |
| HttpRequestHelper.Classify | src/XClient/Helpers/HttpRequestHelper.cs:11-65 | Reference classification of a reply, for a call that reads its body as a stream or as JSON: exception, non-success (404 or other), the body of a stream call, JSON null, value. |
| HttpRequestHelper.ClassifyRules | src/XClient/Helpers/HttpRequestHelper.cs:29-63 | `Classify` restated case by case, for reading: a value is delivered exactly on a success status when the call reads a stream or the JSON is not null. A stream call gets the body. An exception gives "Service request failed", 404 gives `NotFoundError`, and any other failure status gives an `HttpRequestError` of that status. The error content is kept exactly when the Content-Length is positive. A null JSON gives "Could not parse response", and no failure carries a client message. |
| HttpRequestHelper.StreamCallsDeliverBody | src/XClient/Helpers/HttpRequestHelper.cs:45-49 | A call asking for `Stream` succeeds exactly on a success status, with the whole body, and never fails with "Could not parse response". |
| HttpRequestHelper.ClassifyErrorKinds | src/XClient/Helpers/HttpRequestHelper.cs:29-64 | A failed call gives only a plain `Error`, a `NotFoundError` or an `HttpRequestError`, at the default level. `NotFoundError` comes exactly from a 404. An `HttpRequestError` carries the failure status it came from. A plain error comes only from an exception or, on a JSON call, a `null` body. |
| HttpRequestHelper.AuthStatusesAreHttpRequestErrors | src/XClient/Helpers/HttpRequestHelper.cs:38-42 | 401 and 403 become `HttpRequestError`s ("… success: 403"), not `UnauthorizedError` or `ForbiddenError`. |
| HttpRequestHelper.Send | src/XClient/Helpers/HttpRequestHelper.cs:11-65 | One send, read as the call says. The result is a success exactly when `Classify` delivers, with that value; a failure is a fresh error in the state `Classify` gives. |
| XClient.TokenParams | src/XClient/XClient.cs:228-231 | The auth dictionary of an API call holds exactly `oauth_token`, with the access token. |
| XClient.SignableMerges | src/XClient/XClient.cs:228-232 | A sorted query with no `oauth_` key never makes the signer throw. |
| XClient.SignedParamsContents | src/XClient/XClient.cs:228-232 | A call is signed over the fixed keys, `oauth_token` and the query. The token and each query parameter carry their own values. |
| XClient.RequestHeaderValue | src/XClient/XClient.cs:232 | The header is the header value over the signed parameters, signed with `enc(apiSecret)&enc(accessTokenSecret)` over the call's method and bare URL. |
| XClient.SignedRequestHeader | src/XClient/XClient.cs:228-235 | Every API call echoes `oauth_token` in its header and ends with the signature. Query parameters are signed but not echoed. |
| XClient.HeaderOfSignedParams | src/XClient/XClient.cs:228-235 | The same header facts, for any dictionary holding the fixed keys, the token and the query. |
| XClient.FinalUrl | src/XClient/XClient.cs:239-246 | Reference URL: the bare URL for a null or empty query; otherwise `?`, each `key=value&`, and trailing `&`s trimmed. |
| XClient.BuildUrl | src/XClient/XClient.cs:239-246 | The string-building loop yields `FinalUrl`. |
| XClient.AmpersandedJoin | src/XClient/XClient.cs:243-244 | Appending `key=value&` per parameter gives the `&`-join of the items plus one trailing `&`. |
| XClient.FinalUrlQuery | src/XClient/XClient.cs:240-245 | With a non-empty query the URL starts with `url?` and never ends in `&`. |
| XClient.FinalUrlJoined | src/XClient/XClient.cs:240-245 | When keys and values hold no `&` and keys no `=`, the URL is `url?` plus the items joined by `&`. The items split back, and each names its key, in dictionary order. |
| XClient.BareUrl | src/XClient/XClient.cs:239-240 | A null or empty query leaves the URL unchanged. |
| XClient.SendSigned | src/XClient/XClient.cs:224-255 | The method sends the signed request with the built URL once and passes the helper's result on unchanged. |
| XClient.UserFieldsQuery | src/XClient/XClient.cs:39-42 | The user lookup's query is one the signer accepts. |
| XClient.UserInfoUri | src/XClient/XClient.cs:17-44 | The lookup goes to `users/me?user.fields=id,name,username,profile_image_url`, with the commas unescaped. |
| XClient.DataOutcome | src/XClient/XClient.cs:44-49 | The operation succeeds exactly when the call does, with the `data` of the response; a failed call's error is passed on untouched. |
| XClient.GetUser | src/XClient/XClient.cs:37-50 | One signed GET; the result is `DataOutcome` of the reply: the `data`, or the call's error. |
| XClient.PostTweet | src/XClient/XClient.cs:198-217 | One signed POST to `tweets`, with no query and the JSON body of `TweetRequest`. The result is `DataOutcome` of the reply. |
| PostTweetRequests.TweetRequest | src/XClient/XClient.cs:201-205 | The text is kept. Media is present exactly when the id list is non-null and non-empty, and then holds that list. |
| PostTweetRequests.JsonRoundTrip | src/XClient/PostTweetRequest.cs:10-23 | Serialising a request and reading it back gives the request back. |
| PostTweetRequests.MediaMemberPresence | src/XClient/PostTweetRequest.cs:15-16 | `media` is written exactly when it is non-null, as `{"media_ids": [...]}`; `text` is always written. |
| PostTweetRequests.TweetBodyExamples | src/XClient/XClient.cs:204-208 | A null or empty id list gives `{"text":…}`; `["42"]` gives `{"text":…,"media":{"media_ids":["42"]}}`. |
| Json.StringsRoundTrip | src/XClient/PostTweetRequest.cs:21-22 | A string array reads back as itself. |
| MediaUpload.MediaCategory | src/XClient/XClient.cs:88-95 | A category exists exactly for the image or video type: `tweet_image` or `tweet_video`. |
| MediaUpload.FetchCheck | src/XClient/XClient.cs:100-125 | A length is delivered only from a fetch that succeeded with that Content-Length. |
| MediaUpload.FetchCheckBounds | src/XClient/XClient.cs:113-125 | Only lengths from 1 to 300 000 000 pass, both inclusive. 0 and 300 000 001 give the argument error. A missing length gives an argument error with the client message "Failed to obtain media size". |
| MediaUpload.InitQuery | src/XClient/XClient.cs:127-133 | The INIT query is one the signer accepts. |
| MediaUpload.AppendQuery | src/XClient/XClient.cs:151-156 | The APPEND query is one the signer accepts. |
| MediaUpload.FinalizeQuery | src/XClient/XClient.cs:177-181 | The FINALIZE query is one the signer accepts. |
| MediaUpload.InitQueryContents | src/XClient/XClient.cs:127-133 | INIT carries exactly `command`=`INIT`, `media_type`=`media`, `media_category` and `total_bytes`, whose decimal digits read back as the media length. |
| MediaUpload.FinalizeQueryContents | src/XClient/XClient.cs:177-181 | FINALIZE carries exactly `command`=`FINALIZE` and `media_id`. |
| MediaUpload.AppendQuerySegment | src/XClient/XClient.cs:151-156 | APPEND carries exactly `command`=`APPEND`, `media_id` and `segment_index`. The segment number is in decimal and reads back as the number. |
| MediaUpload.UploadSignerRequest | src/XClient/XClient.cs:224-249 | Call n of the upload is a POST with the given content. Its URI is the upload endpoint with the command's query, and it is signed over that query with nonce and timestamp n. |
| MediaUpload.AppendRequestShape | src/XClient/XClient.cs:151-165 | APPEND k is a POST whose only multipart part, `media`, holds chunk k; its URI carries segment k. |
| MediaUpload.ChunkCountSpec | src/XClient/XClient.cs:149 | The chunks are the non-empty reads before the first empty one. |
| MediaUpload.ChunksBounded | src/XClient/XClient.cs:145-149 | Every chunk holds from 1 to 1 048 576 bytes. |
| MediaUpload.AppendBodies | src/XClient/XClient.cs:159-162 | Chunk k is the body of APPEND k. |
| MediaUpload.SendCommand | src/XClient/XClient.cs:135 | One upload call: the signed request of that command, and the helper's result for it. |
| MediaUpload.AppendSegments | src/XClient/XClient.cs:142-174 | The loop sends exactly the calls of `AppendRun`. It ends with the first rejected APPEND's error, given the client message "Failed to upload media to X", or with none. |
| MediaUpload.Upload | src/XClient/XClient.cs:86-190 | For any signer that builds the client's requests, the calls made, in order, and the result are those of `UploadFlow`. |
| MediaUpload.UploadMedia | src/XClient/XClient.cs:86-190 | The same, with the client's own signer. |
| MediaUpload.AppendRunAccepted | src/XClient/XClient.cs:149-173 | When every APPEND is accepted, all are sent in segment order and the run ends cleanly. |
| MediaUpload.AppendRunRejected | src/XClient/XClient.cs:164-169 | When segment f is the first rejected one, the APPENDs up to f are sent, and no more, and the run ends with f's error. |
| MediaUpload.AppendRunClean | src/XClient/XClient.cs:149-173 | A run ends cleanly exactly when every APPEND is accepted. |
| MediaUpload.AppendRunCleanOnSuccessStatuses | src/XClient/XClient.cs:164-169 | APPEND asks for `Stream`, so a run ends cleanly exactly when every APPEND gets a success status. |
| MediaUpload.ApiCallsBytes | src/XClient/XClient.cs:159-164 | The APPEND calls carry exactly the chunks' bytes, concatenated in order. |
| MediaUpload.UploadingTrace | src/XClient/XClient.cs:135-189 | `UploadFlow` restated for reading, past INIT, the operation is the APPEND run and then FINALIZE, only when the run ended cleanly. |
| MediaUpload.UnsupportedTypeCallsNothing | src/XClient/XClient.cs:88-95 | An unsupported media type makes no call and returns "Unsupported media type: …" as an argument error. |
| MediaUpload.BadMediaCallsNoApi | src/XClient/XClient.cs:100-125 | A failed fetch or a bad length stops after the fetch, with no API call. |
| MediaUpload.RejectedInitStops | src/XClient/XClient.cs:135-138 | A rejected INIT ends the operation with INIT's error; no media byte is sent. |
| MediaUpload.AllAppendsAccepted | src/XClient/XClient.cs:86-190 | The calls are the fetch, INIT, the APPENDs numbered 0, 1, … in order, and FINALIZE last. The bytes sent are the stream's bytes up to its end, and the result is the FINALIZE reply. |
| MediaUpload.FirstRejectedAppendStops | src/XClient/XClient.cs:164-169 | After the first rejected APPEND nothing more is sent and there is no FINALIZE. The error is that APPEND's, with the client message "Failed to upload media to X". |
| XAuth.ParseItem | src/XClient/Authentication/XAuth.cs:79 | An item without `=` has no name. |
| XAuth.FormValue | src/XClient/Authentication/XAuth.cs:80 | The indexer is null exactly when no item carries the name, compared ignoring case. |
| XAuth.OneValue | src/XClient/Authentication/XAuth.cs:80 | A name carried by a single item reads as that item's value. |
| XAuth.ParseFormText | src/XClient/Authentication/XAuth.cs:79 | A form written from pairs parses back into those pairs, named, in order. |
| XAuth.FormRoundTrip | src/XClient/Authentication/XAuth.cs:79-80 | In a form whose names differ even ignoring case, each name reads as the value written under it. A name not written reads as null. |
| XAuth.ExtractOAuthToken | src/XClient/Authentication/XAuth.cs:77-85 | A token is returned exactly when the response names `oauth_token`; an empty token counts. Otherwise the result is the `ArgumentError` "oauth_token not found in response". |
| XAuth.TokenRoundTrip | src/XClient/Authentication/XAuth.cs:77-85 | A response that begins with `oauth_token=t` yields `t`, whatever pairs follow. |
| XAuth.TokenNameIgnoresCase | src/XClient/Authentication/XAuth.cs:79-80 | `OAUTH_TOKEN=t` is read as the token too. |
| XAuth.RepeatedTokenJoined | src/XClient/Authentication/XAuth.cs:79-80 | A repeated `oauth_token` reads as both values joined by a comma. |
| XAuth.NoEqualsNoToken | src/XClient/Authentication/XAuth.cs:79-82 | A response without `=` holds no token and gives the argument error. |
| XAuth.CredentialsRule | src/XClient/Authentication/XAuth.cs:123-137 | `ExtractAccountCredentials` restated for reading. Credentials are returned exactly when all four values are present and non-empty: the user id as `Id`, the screen name as `Name`, then the token and the secret. Otherwise the result is the `ArgumentError` "Could not extract account credentials". |
| XAuth.CredentialsRoundTrip | src/XClient/Authentication/XAuth.cs:123-137 | An access-token response gives back the credentials written into it when all four are non-empty, and the argument error when any is empty. |
| XAuth.CredentialsFromPairs | src/XClient/Authentication/XAuth.cs:126-136 | The same, for any form holding the four names once each. |
| XAuth.CallbackMerges | src/XClient/Authentication/XAuth.cs:32-43 | The request-token parameters never make the signer throw. |
| XAuth.RequestTokenUriValue | src/XClient/Authentication/XAuth.cs:50 | The request-token URI is `request_token?x_auth_access_type=write`. |
| XAuth.ConsumerSignedHeader | src/XClient/Authentication/XAuth.cs:43 | A header signed with a null token secret uses the key `enc(apiSecret)&`. |
| XAuth.RequestTokenHeader | src/XClient/Authentication/XAuth.cs:32-43 | The header echoes `oauth_callback`, signs `x_auth_access_type` without echoing it, carries no token and ends with the signature under `enc(apiSecret)&`. |
| XAuth.AuthUrlRules | src/XClient/Authentication/XAuth.cs:53-72 | A failed call's error is passed through untouched. A body without a token gives the argument error with the client message "Could not authenticate you". Otherwise the URL is `authorize?oauth_token=` plus the token. |
| XAuth.AuthUrlOnSuccessStatus | src/XClient/Authentication/XAuth.cs:53-72 | The call asks for `Stream`, so on a success status the outcome depends on the body alone. It is the URL exactly when the body has an `oauth_token`, and otherwise an error carrying "Could not authenticate you"; never a parse error. |
| XAuth.CreateAuthUrl | src/XClient/Authentication/XAuth.cs:30-73 | One POST of the signed request-token request; the result is `AuthUrlOutcome` of its reply. |
| XAuth.SendRequestTokenCall | src/XClient/Authentication/XAuth.cs:53-72 | The send, the extraction, `SetClientMessage` on failure and the URL: `AuthUrlOutcome` of the reply. |
| XAuth.VerifierParams | src/XClient/Authentication/XAuth.cs:91-95 | The auth dictionary holds exactly `oauth_token` and `oauth_verifier` with their values. |
| XAuth.VerifierMerges | src/XClient/Authentication/XAuth.cs:91-98 | The access-token parameters never make the signer throw. |
| XAuth.AccessTokenAuthorization | src/XClient/Authentication/XAuth.cs:98 | The access-token header is the header value over the merged parameters, signed with `enc(apiSecret)&`. The request token's secret is not used. |
| XAuth.AccessTokenHeader | src/XClient/Authentication/XAuth.cs:91-98 | The header echoes the request token and the verifier and ends with the signature. |
| XAuth.TwoEchoed | src/XClient/Authentication/OAuthHeader.cs:71-79 | Any two `oauth_` parameters are both echoed, and the signature is last. |
| XAuth.AccessTokenRules | src/XClient/Authentication/XAuth.cs:103-118 | A failed call's error is passed through untouched. Unreadable credentials give the argument error with the client message "Could not authenticate you". Otherwise the credentials are returned. The client message is set exactly when the call itself succeeded. |
| XAuth.AccessTokenOnSuccessStatus | src/XClient/Authentication/XAuth.cs:103-118 | The call asks for `Stream`, so on a success status the outcome depends on the body alone. It is the credentials exactly when the body yields them, and otherwise an error carrying "Could not authenticate you"; never a parse error. |
| XAuth.GetAccessToken | src/XClient/Authentication/XAuth.cs:89-119 | One POST of the signed access-token request to the bare endpoint; the result is `AccessTokenOutcome` of its reply. |
| XAuth.SendAccessTokenCall | src/XClient/Authentication/XAuth.cs:103-118 | The send, the extraction and `SetClientMessage` on failure: `AccessTokenOutcome` of the reply. |
| Errors.ErrorLogLevel.Value | src/XClient/Errors/Error.cs:41-48 | The enum values are 0 to 4. |
| Errors.LogLevelValues | src/XClient/Errors/Error.cs:41-48 | Distinct levels have distinct values, in the declared order. |
| Errors.HttpRequestMessageNamesStatus | src/XClient/Errors/HttpRequestError.cs:14 | The message is "Response status code does not indicate success: " followed by the status, which reads back from it. |
| Errors.Error.constructor | src/XClient/Errors/Error.cs:16-19 | A plain error has the message, the default level and no client message. |
| Errors.Error.WithClientMessage | src/XClient/Errors/Error.cs:21-25 | A plain error that also has the client message. |
| Errors.Error.FromException | src/XClient/Errors/Error.cs:27-30 | A plain error with the exception's message. |
| Errors.Error.Argument | src/XClient/Errors/ArgumentError.cs:11-14 | An argument error with the message and the Warning level. |
| Errors.Error.NotFound | src/XClient/Errors/NotFoundError.cs:11-13 | A not-found error: "Not found", default level. |
| Errors.Error.NotFoundWithMessage | src/XClient/Errors/NotFoundError.cs:15-17 | A not-found error with the given message. |
| Errors.Error.Unauthorized | src/XClient/Errors/UnauthorizedError.cs:11-12 | An unauthorized error: "Authorization failed". |
| Errors.Error.UnauthorizedWithMessage | src/XClient/Errors/UnauthorizedError.cs:14-15 | An unauthorized error with the given message. |
| Errors.Error.Forbidden | src/XClient/Errors/ForbiddenError.cs:11-13 | A forbidden error: "You do not have permission to access this resource". |
| Errors.Error.ForbiddenWithMessage | src/XClient/Errors/ForbiddenError.cs:15-18 | A forbidden error with the given message. |
| Errors.Error.Validation | src/XClient/Errors/ValidationError.cs:13-21 | A validation error with the field errors and "One or more validation errors occurred". |
| Errors.Error.ValidationOf | src/XClient/Errors/ValidationError.cs:25-31 | A validation error with one field holding one message. |
| Errors.Error.HttpRequest | src/XClient/Errors/HttpRequestError.cs:14-18 | An HTTP request error with the status, the content and the message naming the status. |
| Errors.Error.SetClientMessage | src/XClient/Errors/Error.cs:32-36 | The same object is returned. Its client message is now the new one, and nothing else about it changes, so the last call wins. |
| Results.Result.Value | src/XClient/Result.cs:12 | `Value` can be read exactly on a success with a non-null value. |
| Results.Result.GetError | src/XClient/Result.cs:13 | `Error` can be read exactly on a failure. |
| Results.Result.GetNullableValue | src/XClient/Result.cs:28-31 | The stored value of a success, or null for a failure. |
| Results.FromValue | src/XClient/Result.cs:15-19 | A result built from a value is a success storing that value. `Value` throws when the value is null. |
| Results.FromError | src/XClient/Result.cs:21-25 | A result built from an error is a failure with that error, and `Value` throws. |
| Results.DefaultResult | src/XClient/Result.cs:50-54 | The default struct reports success, yet both accessors throw. |
| Results.ToValue | src/XClient/Result.cs:34-37 | The implicit conversion to the value succeeds exactly on a non-null success. |
| Results.AccessorsExclusive | src/XClient/Result.cs:11-13 | `Value` and `Error` are never both readable, and `Error` is readable exactly on a failure. |
| Results.ConstructorsRoundTrip | src/XClient/Result.cs:34-47 | Building from a value or an error and reading it back gives it back. |
| Logging.LogResult | src/XClient/Logging/LoggerExtensions.cs:15-52 | Exactly one entry is written. It is "… succeeded" at Information exactly on a success; a failure is logged by `LogFailure`. |
| Logging.SeverityRule | src/XClient/Logging/LoggerExtensions.cs:24-49 | Not-found, unauthorized, forbidden and validation errors are warnings. Any other error is logged at its own level, or at Error when it has the default level. The client message plays no part. |
| Logging.FailedCallLogLevel | src/XClient/Logging/LoggerExtensions.cs:24-49 | A failed call is logged as a warning exactly when it was a 404, and as an error otherwise, never at another level. |
| Logging.InformationOnlyWhenAsked | src/XClient/Logging/LoggerExtensions.cs:35-38 | A failure is logged as information only when its error asks for that level. |
| Logging.FailureTextDiffers | src/XClient/Logging/LoggerExtensions.cs:20-48 | A failure's entry never reads as a success's. |
| Logging.ArgumentErrorLoggedAsWarning | src/XClient/Logging/LoggerExtensions.cs:39-40 | An argument error is logged as a warning with its message. |
| Logging.HttpRequestErrorLoggedAsError | src/XClient/Logging/LoggerExtensions.cs:46-49 | An HTTP request error is logged at Error. |
| Logging.PlainErrorLoggedAsError | src/XClient/Logging/LoggerExtensions.cs:46-49 | A plain error is logged as "… failed. Error: " with its message. |
| Logging.SingleFieldValidationText | src/XClient/Logging/LoggerExtensions.cs:30 | A single-field validation error renders as `field: message`. |

## Left out

- HMAC-SHA1, base64, the GUID nonce and the clock: these are the parameters `hmac`, `nonce` and `timestamp` of `Signing`, not computed.
- The UTF-8 encoding of `Uri.EscapeDataString` is modelled for Unicode scalar values; unpaired surrogates, which make it throw, are not modelled.
- Key order in `SortedDictionary` is taken as ordinal code-point order, and the `oauth_` filter (`StartsWith` with no comparison argument) as an ordinal prefix test. Both C# defaults are culture-sensitive; they agree with the ordinal versions on the ASCII keys the client uses.
- `HttpMethod.ToUpper()` is ASCII upper-casing, which is exact for "GET" and "POST".
- XAuth.FormValue: `ParseQueryString` also URL-decodes names and values; that decoding is not modelled. Names are compared ignoring ASCII case only.
- The `OAuth` scheme word, Cache-Control, `traceparent` and the shared `DefaultRequestHeaders`:
  - The header value is carried in the request itself.
  - The source instead stores it on the shared `HttpClient`.
  - So concurrent calls on one client can overwrite each other's header. That race is not modelled.
- Asynchrony, cancellation, disposal of streams and responses, logger calls inside the operations (`LogResult` itself is a function), dependency injection, retry policies, `IXClient`.
- `XClient.CreateAuthUrlAsync` and `XClient.GetAccessTokenAsync` (src/XClient/XClient.cs:59-79) are not modelled separately: they forward the `XAuth` result unchanged after logging it.
- MediaUpload.UploadMedia:
  - `segmentIndex` is a 32-bit `int` in the source. The model numbers segments with unbounded naturals, so the wrap-around after 2^31 segments, 2 PiB of media, is not modelled.
  - The media fetch's status code is not checked by the source, and the model does not check it either.
  - The Content-Length is not compared with the bytes read, in the source or in the model.
- MediaUpload.Upload: proved for every signer `SignsUploads` accepts, which the client's own signer is; the request is built by a ghost signer argument.
- Exceptions that escape the source's error handling are not modelled:
  - `Add` on a duplicate key in `Authorization` (the model returns none);
  - fetch failures other than `HttpRequestException`;
  - failures reading the media stream or the token response.
  Every query the client itself builds is proved signable, so the first does not arise from its own calls.
- `PostMediaTypes.Image` and `PostMediaTypes.Video`: their values are parameters (`MediaTypes`). `PostMediaTypes` is not part of this model, and neither is the `Tweet` type, which is a type parameter.
- Errors.Error.Validation: the list-of-messages and array-of-messages dictionary constructors are one constructor, since both become the same sequence of messages.
- The JSON reader and writer: a request body is a JSON value (`Json`), not text. `XUser`, `XMedia` and `XData` are records whose JSON mapping is not modelled.
- Query values are appended to the URL unescaped while they are signed escaped, as the source does. A value holding `&`, `=` or a non-ASCII character therefore does not survive the URL. The model keeps the source's behaviour.
