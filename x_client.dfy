/**
  `XClient`: the signed API requests, with the query string built onto the
  URL, the user lookup and the tweet post. The chunked media upload, the
  longest operation of the class, is in the `MediaUpload` module.

  Every API call is signed with OAuth 1.0a under the caller's four keys. The
  nonce, the timestamp and the HMAC-SHA1 digest come from `Signing`; the
  nonce and the timestamp are indexed by the number of the call within one
  operation, so that each call may see fresh ones.
 */
module XClient {
  import opened Wrappers
  import opened Strings
  import opened PercentEncoding
  import opened SortedParams
  import opened OAuthHeader
  import opened Json
  import opened Errors
  import opened Results
  import opened HttpRequestHelper
  import opened PostTweetRequests
  import opened Domain

  const UserInfoUrl := "https://api.x.com/2/users/me"
  const TweetsUrl := "https://api.x.com/2/tweets"

  /** The consumer key and secret and the user's access token and secret. */
  datatype ApiKeys = ApiKeys(apiKey: string, apiSecret: string, accessToken: string, accessTokenSecret: string)

  /** The digest function and the nonce and clock readings for the n-th call of an operation. */
  datatype Signing = Signing(hmac: Hmac, nonce: nat -> string, timestamp: nat -> string)

  /** `{ "oauth_token": accessToken }`: the one auth parameter of every API call. */
  function TokenParams(accessToken: string): (ps: Params)
    ensures Sorted(ps) && Keys(ps) == {"oauth_token"}
    ensures Lookup(ps, "oauth_token") == Some(accessToken)
  {
    assert Keys([("oauth_token", accessToken)]) == {"oauth_token"} by {
      assert [("oauth_token", accessToken)][0].0 == "oauth_token";
    }
    [("oauth_token", accessToken)]
  }

  /**
    A query the client may sign: sorted, and none of its keys starts with
    `oauth_`, so none collides with a signing parameter. Every query the
    client builds is one (see `UserFieldsQuery` and the upload queries).
   */
  predicate Signable(query: Option<Params>)
  {
    SortedOrNull(query) && forall k :: k in KeysOf(query) ==> !StartsWith(k, OAuthPrefix)
  }

  /** A signable query never makes the signer's `Add` throw. */
  lemma SignableMerges(apiKey: string, accessToken: string, nonce: string, timestamp: string, query: Option<Params>)
    requires Signable(query)
    ensures MergedParameters(apiKey, nonce, timestamp, Some(TokenParams(accessToken)), query).Some?
  {
    FixedKeysAreOAuth();
    assert StartsWith("oauth_token", OAuthPrefix);
    assert "oauth_token" !in FixedKeys;
  }

  /** The merged parameters the header of a signed call is computed over (none when `Add` would throw). */
  function SignedParams(keys: ApiKeys, signing: Signing, call: nat, query: Option<Params>): Params
    requires SortedOrNull(query)
  {
    MergedParameters(keys.apiKey, signing.nonce(call), signing.timestamp(call),
                     Some(TokenParams(keys.accessToken)), query).GetOr([])
  }

  /** For a signable query the merge succeeds and gives the signed parameters. */
  lemma SignedParamsMerged(keys: ApiKeys, signing: Signing, call: nat, query: Option<Params>)
    requires Signable(query)
    ensures MergedParameters(keys.apiKey, signing.nonce(call), signing.timestamp(call),
                             Some(TokenParams(keys.accessToken)), query) == Some(SignedParams(keys, signing, call, query))
  {
    SignableMerges(keys.apiKey, keys.accessToken, signing.nonce(call), signing.timestamp(call), query);
  }

  /**
    The signed parameters: the fixed five, the access token and the query,
    each query parameter with its own value.
   */
  lemma SignedParamsContents(keys: ApiKeys, signing: Signing, call: nat, query: Option<Params>)
    requires Signable(query)
    ensures var ps := SignedParams(keys, signing, call, query);
      Sorted(ps) && Keys(ps) == FixedKeys + {"oauth_token"} + KeysOf(query)
      && Lookup(ps, "oauth_token") == Some(keys.accessToken)
      && forall k :: k in KeysOf(query) ==> Lookup(ps, k) == Lookup(query.GetOr([]), k)
  {
    var ps := SignedParams(keys, signing, call, query);
    SignedParamsMerged(keys, signing, call, query);
    MergedHoldsEverything(keys.apiKey, signing.nonce(call), signing.timestamp(call),
                          Some(TokenParams(keys.accessToken)), query, ps);
  }

  /** The Authorization header value `SendHttpRequestAsync` sets for a call (empty when `Add` would throw). */
  function RequestHeader(keys: ApiKeys, signing: Signing, call: nat, httpMethod: HttpMethod,
                         url: string, query: Option<Params>): string
    requires SortedOrNull(query)
  {
    SignedHeader(httpMethod.Name(), url, keys.apiKey, keys.apiSecret, Some(keys.accessTokenSecret),
                 Some(TokenParams(keys.accessToken)), query, signing.nonce(call), signing.timestamp(call),
                 signing.hmac).GetOr("")
  }

  /** The items `key=value` of a query string, neither part escaped. */
  function QueryItem(p: (string, string)): string
  {
    p.0 + "=" + p.1
  }

  function QueryItems(ps: Params): (items: seq<string>)
    ensures |items| == |ps|
  {
    seq(|ps|, i requires 0 <= i < |ps| => QueryItem(ps[i]))
  }

  /** `key=value&` for every parameter in order, as the loop appends them. */
  function Ampersanded(ps: Params): string
  {
    if ps == [] then "" else Ampersanded(ps[..|ps| - 1]) + QueryItem(ps[|ps| - 1]) + "&"
  }

  /**
    The URL a call is sent to: the bare URL for a null or empty query,
    otherwise the URL, `?`, the items each followed by `&`, and then every
    trailing `&` trimmed off.
   */
  function FinalUrl(url: string, query: Option<Params>): string
  {
    if query.None? || query.value == [] then url
    else TrimEnd(url + "?" + Ampersanded(query.value), '&')
  }

  /** The query-string loop of `SendHttpRequestAsync`. */
  method BuildUrl(url: string, queryParams: Option<Params>) returns (finalUrl: string)
    ensures finalUrl == FinalUrl(url, queryParams)
  {
    finalUrl := url;
    if queryParams.Some? && |queryParams.value| != 0 {
      var ps := queryParams.value;
      finalUrl := finalUrl + "?";
      var i := 0;
      while i < |ps|
        invariant 0 <= i <= |ps|
        invariant finalUrl == url + "?" + Ampersanded(ps[..i])
      {
        assert ps[..i + 1][..i] == ps[..i];
        finalUrl := finalUrl + ps[i].0 + "=" + ps[i].1 + "&";
        i := i + 1;
      }
      assert ps[..i] == ps;
      finalUrl := TrimEnd(finalUrl, '&');
    }
  }

  /** The items joined by `&`, followed by one more `&`. */
  lemma {:induction false} AmpersandedJoin(ps: Params)
    requires ps != []
    ensures Ampersanded(ps) == Join(QueryItems(ps), "&") + "&"
  {
    var init := ps[..|ps| - 1];
    var last := QueryItem(ps[|ps| - 1]);
    assert QueryItems(ps) == QueryItems(init) + [last];
    if init == [] {
      assert QueryItems(ps) == [last];
    } else {
      AmpersandedJoin(init);
      JoinSnoc(QueryItems(init), last, "&");
    }
  }

  /** Trimming a single trailing character off a string that does not end with it. */
  lemma TrimOne(s: string, c: char)
    requires s != [] && s[|s| - 1] != c
    ensures TrimEnd(s + [c], c) == s
  {
    assert (s + [c])[..|s|] == s;
  }

  /**
    With a non-empty query the URL is the bare URL and `?` followed by the
    query, which never ends in `&`.
   */
  lemma FinalUrlQuery(url: string, ps: Params)
    requires ps != []
    ensures StartsWith(FinalUrl(url, Some(ps)), url + "?")
    ensures FinalUrl(url, Some(ps))[|FinalUrl(url, Some(ps))| - 1] != '&'
  {
    var s := url + "?" + Ampersanded(ps);
    var r := FinalUrl(url, Some(ps));
    assert s[|url|] == '?';
    assert |r| > |url|;
    assert r[..|url| + 1] == s[..|url| + 1] == url + "?";
  }

  /**
    When no key or value holds `&` and no key holds `=`, the query is the
    items joined by `&`, which split back into the keys and values in
    dictionary order.
   */
  lemma FinalUrlJoined(url: string, ps: Params)
    requires ps != []
    requires forall i :: 0 <= i < |ps| ==> '&' !in ps[i].0 && '&' !in ps[i].1 && '=' !in ps[i].0
    ensures FinalUrl(url, Some(ps)) == url + "?" + Join(QueryItems(ps), "&")
    ensures Split(Join(QueryItems(ps), "&"), '&') == QueryItems(ps)
    ensures forall i :: 0 <= i < |ps| ==> Split(QueryItems(ps)[i], '=')[0] == ps[i].0
  {
    var items := QueryItems(ps);
    var joined := Join(items, "&");
    AmpersandedJoin(ps);
    JoinLast(items, "&");
    var lastItem := items[|items| - 1];
    assert lastItem == ps[|ps| - 1].0 + "=" + ps[|ps| - 1].1;
    assert lastItem[|lastItem| - 1] != '&';
    assert url + "?" + Ampersanded(ps) == (url + "?" + joined) + ['&'];
    TrimOne(url + "?" + joined, '&');
    forall i | 0 <= i < |items| ensures '&' !in items[i] {
      assert items[i] == ps[i].0 + "=" + ps[i].1;
    }
    SplitJoin(items, '&');
    forall i | 0 <= i < |ps| ensures Split(items[i], '=')[0] == ps[i].0 {
      assert items[i] == ps[i].0 + ['='] + ps[i].1;
      SplitAt(ps[i].0, '=', ps[i].1);
    }
  }

  /** A non-empty join ends with the last part, whatever it is. */
  lemma {:induction false} JoinLast(parts: seq<string>, sep: string)
    requires |parts| > 0 && parts[|parts| - 1] != []
    ensures Join(parts, sep) != [] && Join(parts, sep)[|Join(parts, sep)| - 1] == parts[|parts| - 1][|parts[|parts| - 1]| - 1]
  {
    if |parts| > 1 {
      JoinLast(parts[1..], sep);
    }
  }

  /** A null or empty query leaves the URL as it is. */
  lemma BareUrl(url: string, query: Option<Params>)
    requires query.None? || query.value == []
    ensures FinalUrl(url, query) == url
  {
  }

  /**
    `SendHttpRequestAsync` in `XClient`: the header signs the call with the
    access token and its secret over the query; the query goes onto the URL.
   */
  function SignedRequest(keys: ApiKeys, signing: Signing, call: nat, httpMethod: HttpMethod,
                         url: string, query: Option<Params>, body: Body): ApiRequest
    requires SortedOrNull(query)
  {
    ApiRequest(httpMethod, FinalUrl(url, query), RequestHeader(keys, signing, call, httpMethod, url, query), body)
  }

  /** The header is the header value over the signed parameters with the encoded digest. */
  lemma RequestHeaderValue(keys: ApiKeys, signing: Signing, call: nat, httpMethod: HttpMethod,
                           url: string, query: Option<Params>)
    requires Signable(query)
    ensures var ps := SignedParams(keys, signing, call, query);
      RequestHeader(keys, signing, call, httpMethod, url, query)
      == HeaderValue(ps, Encode(signing.hmac(SigningKey(keys.apiSecret, Some(keys.accessTokenSecret)),
                                             BaseString(httpMethod.Name(), url, ps))))
  {
    SignedParamsMerged(keys, signing, call, query);
  }

  /**
    Every signed call carries `oauth_token` with the access token in its
    header, is signed with the access token secret, and keeps its query
    parameters out of the header, though they are part of what is signed.
   */
  lemma SignedRequestHeader(keys: ApiKeys, signing: Signing, call: nat, httpMethod: HttpMethod,
                            url: string, query: Option<Params>)
    requires Signable(query)
    ensures var ps := SignedParams(keys, signing, call, query);
      var digest := signing.hmac(SigningKey(keys.apiSecret, Some(keys.accessTokenSecret)),
                                 BaseString(httpMethod.Name(), url, ps));
      var parts := Split(RequestHeader(keys, signing, call, httpMethod, url, query), ',');
      HeaderEntry(("oauth_token", keys.accessToken)) in parts
      && parts[|parts| - 1] == SignatureEntry(Encode(digest))
      && forall k :: k in KeysOf(query) ==> k !in Keys(OAuthOnly(ps)) && k in Keys(ps)
  {
    var ps := SignedParams(keys, signing, call, query);
    var digest := signing.hmac(SigningKey(keys.apiSecret, Some(keys.accessTokenSecret)),
                               BaseString(httpMethod.Name(), url, ps));
    SignedParamsContents(keys, signing, call, query);
    RequestHeaderValue(keys, signing, call, httpMethod, url, query);
    EncodeHasNoSeparators(digest);
    HeaderOfSignedParams(ps, keys.accessToken, Encode(digest), query);
  }

  /** The header facts above, for any parameters holding the fixed keys, the token and the query. */
  lemma HeaderOfSignedParams(ps: Params, accessToken: string, signature: string, query: Option<Params>)
    requires Sorted(ps) && FixedKeys <= Keys(ps) && ',' !in signature
    requires Lookup(ps, "oauth_token") == Some(accessToken)
    requires forall k :: k in KeysOf(query) ==> k in Keys(ps) && !StartsWith(k, OAuthPrefix)
    ensures var parts := Split(HeaderValue(ps, signature), ',');
      HeaderEntry(("oauth_token", accessToken)) in parts
      && parts[|parts| - 1] == SignatureEntry(signature)
      && forall k :: k in KeysOf(query) ==> k !in Keys(OAuthOnly(ps)) && k in Keys(ps)
  {
    assert StartsWith("oauth_token", OAuthPrefix);
    OAuthEntryInHeader(ps, "oauth_token", signature);
    forall k | k in KeysOf(query) ensures k !in Keys(OAuthOnly(ps)) {
      NonOAuthNotEchoed(ps, k);
    }
  }

  /**
    `SendHttpRequestAsync<T>` of `XClient`: signs, builds the URL, sends
    once, and passes the helper's result on. The query must be signable;
    every query the client passes is.
   */
  method SendSigned<T>(keys: ApiKeys, signing: Signing, call: nat, httpMethod: HttpMethod, url: string,
                       queryParams: Option<Params>, content: Body, read: Reading<T>,
                       transport: ApiRequest -> Reply<T>)
    returns (request: ApiRequest, r: Result<T>)
    requires Signable(queryParams)
    ensures request == SignedRequest(keys, signing, call, httpMethod, url, queryParams, content)
    ensures r.Success? <==> Classify(transport(request), read).Delivered?
    ensures r.Success? ==> r.value == Some(Classify(transport(request), read).value)
    ensures r.Fail? ==> fresh(r.error) && r.error.State() == Classify(transport(request), read).error
  {
    var authParams := TokenParams(keys.accessToken);
    SignableMerges(keys.apiKey, keys.accessToken, signing.nonce(call), signing.timestamp(call), queryParams);
    var authorizationHeader := Authorization(httpMethod.Name(), url, keys.apiKey, keys.apiSecret,
                                             Some(keys.accessTokenSecret), Some(authParams), queryParams,
                                             signing.nonce(call), signing.timestamp(call), signing.hmac);
    var finalUrl := BuildUrl(url, queryParams);
    request := ApiRequest(httpMethod, finalUrl, authorizationHeader.value, content);
    var result := Send(transport, request, read);
    if !result.IsSuccess() {
      return request, FromError(result.error);
    }
    r := FromValue(Some(result.Value().got));
  }

  const UserFields := "id,name,username,profile_image_url"

  /** `{ "user.fields": "id,name,username,profile_image_url" }`, a query the signer accepts. */
  function UserFieldsQuery(): (q: Params)
    ensures Signable(Some(q))
  {
    var q := [("user.fields", UserFields)];
    assert Keys(q) == {"user.fields"} by {
      assert q[0].0 == "user.fields";
    }
    assert !StartsWith("user.fields", OAuthPrefix) by {
      assert "user.fields"[0] != OAuthPrefix[0];
    }
    q
  }

  /** The user lookup goes to `users/me` with the field list in the clear, commas unescaped. */
  lemma UserInfoUri()
    ensures FinalUrl(UserInfoUrl, Some(UserFieldsQuery())) == UserInfoUrl + "?user.fields=" + UserFields
  {
    var q := UserFieldsQuery();
    var item := QueryItem(q[0]);
    assert q[..0] == [];
    assert Ampersanded(q) == item + "&";
    assert UserFields[|UserFields| - 1] == 'l';
    assert item == "user.fields" + "=" + UserFields;
    TrimOne(UserInfoUrl + "?" + item, '&');
    assert UserInfoUrl + "?" + Ampersanded(q) == (UserInfoUrl + "?" + item) + ['&'];
    assert "?" + "user.fields" + "=" == "?user.fields=";
  }

  /**
    What `GetUserAsync` and `PostTweetAsync` return for the reply to their
    one call: the `data` of the response, or the call's error untouched.
   */
  function DataOutcome<V>(reply: Reply<Envelope<V>>): (v: Verdict<Option<V>>)
    ensures v.Delivered? <==> Classify(reply, AsJson).Delivered?
    ensures v.Delivered? ==> v.value == Classify(reply, AsJson).value.data
    ensures v.Rejected? ==> v.error == Classify(reply, AsJson).error
  {
    match Classify(reply, AsJson)
    case Rejected(e) => Rejected(e)
    case Delivered(envelope) => Delivered(envelope.data)
  }

  /**
    `GetUserAsync`: one signed GET of `users/me`; the user is the `data` of
    the response, a success with no value when the response has none.
   */
  method GetUser(keys: ApiKeys, signing: Signing, transport: ApiRequest -> Reply<Envelope<User>>)
    returns (request: ApiRequest, r: Result<User>)
    ensures request == SignedRequest(keys, signing, 0, Get, UserInfoUrl, Some(UserFieldsQuery()), NoContent)
    ensures r.Success? <==> DataOutcome(transport(request)).Delivered?
    ensures r.Success? ==> r.value == DataOutcome(transport(request)).value
    ensures r.Fail? ==> r.error.State() == DataOutcome(transport(request)).error
  {
    var result;
    request, result := SendSigned(keys, signing, 0, Get, UserInfoUrl, Some(UserFieldsQuery()), NoContent, AsJson, transport);
    if !result.IsSuccess() {
      return request, FromError(result.error);
    }
    r := FromValue(result.Value().got.data);
  }

  /**
    `PostTweetAsync`: one signed POST to `tweets`, no query, the JSON body
    of `TweetRequest`; the tweet is the `data` of the response.
   */
  method PostTweet<Tweet>(keys: ApiKeys, signing: Signing, tweetText: string, mediaIds: Option<seq<string>>,
                          transport: ApiRequest -> Reply<Envelope<Tweet>>)
    returns (request: ApiRequest, r: Result<Tweet>)
    ensures request == SignedRequest(keys, signing, 0, Post, TweetsUrl, None, JsonContent(ToJson(TweetRequest(tweetText, mediaIds))))
    ensures request.uri == TweetsUrl
    ensures r.Success? <==> DataOutcome(transport(request)).Delivered?
    ensures r.Success? ==> r.value == DataOutcome(transport(request)).value
    ensures r.Fail? ==> r.error.State() == DataOutcome(transport(request)).error
  {
    var tweetRequest := TweetRequest(tweetText, mediaIds);
    var content := JsonContent(ToJson(tweetRequest));
    var result;
    request, result := SendSigned(keys, signing, 0, Post, TweetsUrl, None, content, AsJson, transport);
    if !result.IsSuccess() {
      return request, FromError(result.error);
    }
    r := FromValue(result.Value().got.data);
  }
}
