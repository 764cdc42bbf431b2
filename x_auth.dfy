/**
  `XAuth`: the two steps of the three-legged OAuth flow.

  `CreateAuthUrl` asks for a request token, signed with the consumer key
  and secret and an `oauth_callback`, and turns the token into the URL the
  user is sent to. `GetAccessToken` trades the request token and its
  verifier for the user's credentials. Both read the response body as a
  form-encoded string, through `HttpUtility.ParseQueryString`, modelled
  here as `ParseQuery` and `FormValue`.
 */
module XAuth {
  import opened Wrappers
  import opened Strings
  import opened PercentEncoding
  import opened SortedParams
  import opened OAuthHeader
  import opened Errors
  import opened Results
  import opened HttpRequestHelper
  import opened Domain
  import opened XClient

  const RequestTokenUrl := "https://api.x.com/oauth/request_token"
  const AuthUrl := "https://api.x.com/oauth/authorize"
  const AccessTokenUrl := "https://api.twitter.com/oauth/access_token"

  const NotAuthenticatedMessage := "Could not authenticate you"
  const TokenNotFoundMessage := "oauth_token not found in response"
  const NoCredentialsMessage := "Could not extract account credentials"

  // ---------------------------------------------------------------------
  // The form parser

  /** One `name=value` item of a form string; an item without `=` has no name. */
  datatype FormItem = FormItem(name: Option<string>, value: string)

  /** The position of the first `c` in `s`. */
  function IndexOf(s: string, c: char): (i: nat)
    requires c in s
    ensures i < |s| && s[i] == c && c !in s[..i]
  {
    if s[0] == c then 0
    else
      var i := IndexOf(s[1..], c);
      assert s[..i + 1] == [s[0]] + s[1..][..i];
      i + 1
  }

  /** An item is named by what precedes its first `=`; the rest, further `=` included, is its value. */
  function ParseItem(segment: string): (item: FormItem)
    ensures '=' !in segment ==> item == FormItem(None, segment)
  {
    if '=' in segment then
      var i := IndexOf(segment, '=');
      FormItem(Some(segment[..i]), segment[i + 1..])
    else FormItem(None, segment)
  }

  /**
    `ParseQueryString(text)`: a leading `?` is skipped; an empty string has
    no items; otherwise every `&`-separated segment, empty ones included, is
    one item. Percent-decoding of names and values is not part of this model.
   */
  function ParseQuery(text: string): (items: seq<FormItem>)
  {
    var body := if |text| > 0 && text[0] == '?' then text[1..] else text;
    if body == [] then []
    else
      var segments := Split(body, '&');
      seq(|segments|, i requires 0 <= i < |segments| => ParseItem(segments[i]))
  }

  /** `NameValueCollection` compares names ignoring case. */
  predicate SameName(a: string, b: string)
  {
    Upper(a) == Upper(b)
  }

  /** The values stored under `key`, in the order they were added. */
  function ValuesOf(items: seq<FormItem>, key: string): (vs: seq<string>)
    ensures |vs| <= |items|
  {
    if items == [] then []
    else
      var rest := ValuesOf(items[1..], key);
      if items[0].name.Some? && SameName(items[0].name.value, key) then [items[0].value] + rest else rest
  }

  /** The indexer `collection[key]`: null when no item has that name, else all its values joined by `,`. */
  function FormValue(items: seq<FormItem>, key: string): (v: Option<string>)
    ensures v.None? <==> forall i :: 0 <= i < |items| ==> !(items[i].name.Some? && SameName(items[i].name.value, key))
  {
    NoValuesNoName(items, key);
    var vs := ValuesOf(items, key);
    if vs == [] then None else Some(Join(vs, ","))
  }

  lemma {:induction false} NoValuesNoName(items: seq<FormItem>, key: string)
    ensures ValuesOf(items, key) == [] <==>
      forall i :: 0 <= i < |items| ==> !(items[i].name.Some? && SameName(items[i].name.value, key))
  {
    if items != [] {
      NoValuesNoName(items[1..], key);
      assert forall i :: 1 <= i < |items| ==> items[i] == items[1..][i - 1];
    }
  }

  /** When exactly one item carries the name, its value alone is found, whatever else surrounds it. */
  lemma {:induction false} OneValue(items: seq<FormItem>, key: string, j: nat)
    requires j < |items| && items[j].name.Some? && SameName(items[j].name.value, key)
    requires forall i :: 0 <= i < |items| && i != j ==> !(items[i].name.Some? && SameName(items[i].name.value, key))
    ensures ValuesOf(items, key) == [items[j].value]
  {
    if j == 0 {
      NoValuesNoName(items[1..], key);
      assert forall i :: 0 <= i < |items[1..]| ==> items[1..][i] == items[i + 1];
    } else {
      assert forall i :: 0 <= i < |items[1..]| ==> items[1..][i] == items[i + 1];
      OneValue(items[1..], key, j - 1);
    }
  }

  /** The `name=value` text of a pair. */
  function PairText(p: (string, string)): string
  {
    p.0 + "=" + p.1
  }

  /** A form string written from pairs. */
  function FormText(pairs: Params): string
  {
    Join(seq(|pairs|, i requires 0 <= i < |pairs| => PairText(pairs[i])), "&")
  }

  /** Pairs that can be written as a form and read back: no `&` anywhere, no `=` in a name, no leading `?`. */
  predicate Writable(pairs: Params)
  {
    |pairs| > 0 && (pairs[0].0 == [] || pairs[0].0[0] != '?')
    && forall i :: 0 <= i < |pairs| ==> '&' !in pairs[i].0 && '&' !in pairs[i].1 && '=' !in pairs[i].0
  }

  lemma ParsePair(p: (string, string))
    requires '=' !in p.0
    ensures ParseItem(PairText(p)) == FormItem(Some(p.0), p.1)
  {
    var s := PairText(p);
    assert s[|p.0|] == '=';
    assert s[..|p.0|] == p.0;
    assert s[|p.0| + 1..] == p.1;
  }

  /** Writing pairs as a form and parsing it gives every pair back, named, in order. */
  lemma ParseFormText(pairs: Params)
    requires Writable(pairs)
    ensures ParseQuery(FormText(pairs)) == seq(|pairs|, i requires 0 <= i < |pairs| => FormItem(Some(pairs[i].0), pairs[i].1))
  {
    var texts := seq(|pairs|, i requires 0 <= i < |pairs| => PairText(pairs[i]));
    var text := Join(texts, "&");
    forall i | 0 <= i < |texts| ensures '&' !in texts[i] {
      assert texts[i] == pairs[i].0 + "=" + pairs[i].1;
    }
    SplitJoin(texts, '&');
    assert "&" == ['&'];
    JoinStartsWithFirst(texts, "&");
    assert text[..|texts[0]|] == texts[0];
    assert texts[0][|pairs[0].0|] == '=';
    assert text != [] && text[0] != '?' by {
      if pairs[0].0 == [] {
        assert text[0] == texts[0][0] == '=';
      } else {
        assert text[0] == texts[0][0] == pairs[0].0[0];
      }
    }
    forall i | 0 <= i < |pairs| ensures ParseItem(texts[i]) == FormItem(Some(pairs[i].0), pairs[i].1) {
      ParsePair(pairs[i]);
    }
  }

  /** A join begins with its first part. */
  lemma JoinStartsWithFirst(parts: seq<string>, sep: string)
    requires |parts| > 0
    ensures |parts[0]| <= |Join(parts, sep)| && Join(parts, sep)[..|parts[0]|] == parts[0]
  {
    if |parts| > 1 {
      assert Join(parts, sep) == parts[0] + (sep + Join(parts[1..], sep));
    }
  }

  /**
    In a form written from pairs whose names differ even ignoring case, the
    value read for each name is the value written under it, and a name not
    written reads as null.
   */
  lemma FormRoundTrip(pairs: Params, key: string)
    requires Writable(pairs)
    requires forall i, j :: 0 <= i < j < |pairs| ==> !SameName(pairs[i].0, pairs[j].0)
    ensures forall j :: 0 <= j < |pairs| && pairs[j].0 == key ==> FormValue(ParseQuery(FormText(pairs)), key) == Some(pairs[j].1)
    ensures (forall j :: 0 <= j < |pairs| ==> !SameName(pairs[j].0, key)) ==> FormValue(ParseQuery(FormText(pairs)), key).None?
  {
    var items := ParseQuery(FormText(pairs));
    ParseFormText(pairs);
    forall j | 0 <= j < |pairs| && pairs[j].0 == key ensures FormValue(items, key) == Some(pairs[j].1) {
      forall i | 0 <= i < |items| && i != j ensures !(items[i].name.Some? && SameName(items[i].name.value, key)) {
        if i < j {
          assert !SameName(pairs[i].0, pairs[j].0);
        } else {
          assert !SameName(pairs[j].0, pairs[i].0);
        }
      }
      OneValue(items, key, j);
    }
  }

  // ---------------------------------------------------------------------
  // Reading the responses

  /** `ExtractOAuthToken`: the `oauth_token` of the response, which may be empty; an error when it is absent. */
  function ExtractOAuthToken(responseText: string): (v: Verdict<string>)
    ensures v.Delivered? <==> FormValue(ParseQuery(responseText), "oauth_token").Some?
    ensures v.Rejected? ==> v.error == ArgumentState(TokenNotFoundMessage)
  {
    match FormValue(ParseQuery(responseText), "oauth_token")
    case None => Rejected(ArgumentState(TokenNotFoundMessage))
    case Some(token) => Delivered(token)
  }

  /** `string.IsNullOrEmpty`. */
  predicate NullOrEmpty(s: Option<string>)
  {
    s.None? || s.value == []
  }

  /**
    `ExtractAccountCredentials`: the token, its secret, the user id and the
    screen name, each of which must be present and non-empty.
   */
  function ExtractAccountCredentials(responseString: string): (v: Verdict<AccountCredentials>)
  {
    var items := ParseQuery(responseString);
    var oauthToken := FormValue(items, "oauth_token");
    var oauthTokenSecret := FormValue(items, "oauth_token_secret");
    var userId := FormValue(items, "user_id");
    var screenName := FormValue(items, "screen_name");
    if NullOrEmpty(oauthToken) || NullOrEmpty(oauthTokenSecret) || NullOrEmpty(userId) || NullOrEmpty(screenName) then
      Rejected(ArgumentState(NoCredentialsMessage))
    else
      Delivered(AccountCredentials(userId.value, screenName.value, oauthToken.value, oauthTokenSecret.value))
  }

  /**
    The credentials are extracted exactly when all four values are present
    and non-empty; they are then those values, the user id as `Id`, the
    screen name as `Name`.
   */
  lemma CredentialsRule(responseString: string)
    ensures var items := ParseQuery(responseString);
      var v := ExtractAccountCredentials(responseString);
      (v.Delivered? <==> !NullOrEmpty(FormValue(items, "oauth_token")) && !NullOrEmpty(FormValue(items, "oauth_token_secret"))
                         && !NullOrEmpty(FormValue(items, "user_id")) && !NullOrEmpty(FormValue(items, "screen_name")))
      && (v.Delivered? ==> v.value == AccountCredentials(FormValue(items, "user_id").value, FormValue(items, "screen_name").value,
                                                        FormValue(items, "oauth_token").value,
                                                        FormValue(items, "oauth_token_secret").value))
      && (v.Rejected? ==> v.error == ArgumentState(NoCredentialsMessage))
  {
  }

  /** The access-token response as X writes it. */
  function CredentialsText(token: string, secret: string, userId: string, screenName: string): string
  {
    FormText([("oauth_token", token), ("oauth_token_secret", secret), ("user_id", userId), ("screen_name", screenName)])
  }

  /** Names of different lengths, or whose first letters differ, are different names. */
  lemma DifferentNames(a: string, b: string)
    requires |a| != |b| || (a != [] && b != [] && 'a' <= a[0] <= 'z' && 'a' <= b[0] <= 'z' && a[0] != b[0])
    ensures !SameName(a, b)
  {
    if |a| == |b| {
      assert Upper(a)[0] != Upper(b)[0];
    }
  }

  /** The four names of the access-token response differ even ignoring case. */
  lemma CredentialNamesDistinct(pairs: Params)
    requires |pairs| == 4
    requires pairs[0].0 == "oauth_token" && pairs[1].0 == "oauth_token_secret"
    requires pairs[2].0 == "user_id" && pairs[3].0 == "screen_name"
    ensures forall i, j :: 0 <= i < j < 4 ==> !SameName(pairs[i].0, pairs[j].0)
  {
    assert |pairs[0].0| == 11 && |pairs[1].0| == 18 && |pairs[2].0| == 7 && |pairs[3].0| == 11;
    assert pairs[0].0[0] == 'o' && pairs[3].0[0] == 's';
    forall i, j | 0 <= i < j < 4 ensures !SameName(pairs[i].0, pairs[j].0) {
      DifferentNames(pairs[i].0, pairs[j].0);
    }
  }

  /** Each of four distinct names written once reads back as its own value. */
  lemma FourValues(pairs: Params, k0: string, k1: string, k2: string, k3: string)
    requires Writable(pairs) && |pairs| == 4
    requires pairs[0].0 == k0 && pairs[1].0 == k1 && pairs[2].0 == k2 && pairs[3].0 == k3
    requires forall i, j :: 0 <= i < j < |pairs| ==> !SameName(pairs[i].0, pairs[j].0)
    ensures var items := ParseQuery(FormText(pairs));
      FormValue(items, k0) == Some(pairs[0].1) && FormValue(items, k1) == Some(pairs[1].1)
      && FormValue(items, k2) == Some(pairs[2].1) && FormValue(items, k3) == Some(pairs[3].1)
  {
    FormRoundTrip(pairs, k0);
    FormRoundTrip(pairs, k1);
    FormRoundTrip(pairs, k2);
    FormRoundTrip(pairs, k3);
  }

  /** The credentials read from a form holding the four names once each. */
  lemma CredentialsFromPairs(pairs: Params)
    requires Writable(pairs) && |pairs| == 4
    requires pairs[0].0 == "oauth_token" && pairs[1].0 == "oauth_token_secret"
    requires pairs[2].0 == "user_id" && pairs[3].0 == "screen_name"
    ensures ExtractAccountCredentials(FormText(pairs))
            == if pairs[0].1 == [] || pairs[1].1 == [] || pairs[2].1 == [] || pairs[3].1 == [] then Rejected(ArgumentState(NoCredentialsMessage))
               else Delivered(AccountCredentials(pairs[2].1, pairs[3].1, pairs[0].1, pairs[1].1))
  {
    CredentialNamesDistinct(pairs);
    FourValues(pairs, "oauth_token", "oauth_token_secret", "user_id", "screen_name");
  }

  /**
    A well-formed access-token response, with no `&` in its values, gives
    back the credentials written into it when all four are non-empty, and
    the argument error when any is empty.
   */
  lemma CredentialsRoundTrip(token: string, secret: string, userId: string, screenName: string)
    requires '&' !in token && '&' !in secret && '&' !in userId && '&' !in screenName
    ensures ExtractAccountCredentials(CredentialsText(token, secret, userId, screenName))
            == if token == [] || secret == [] || userId == [] || screenName == [] then Rejected(ArgumentState(NoCredentialsMessage))
               else Delivered(AccountCredentials(userId, screenName, token, secret))
  {
    var pairs := [("oauth_token", token), ("oauth_token_secret", secret), ("user_id", userId), ("screen_name", screenName)];
    assert Writable(pairs);
    CredentialsFromPairs(pairs);
  }

  /**
    The request-token response gives its `oauth_token` back, an empty one
    included, whatever other pairs follow it.
   */
  lemma TokenRoundTrip(token: string, rest: Params)
    requires Writable([("oauth_token", token)] + rest)
    requires forall i :: 0 <= i < |rest| ==> !SameName(rest[i].0, "oauth_token")
    ensures ExtractOAuthToken(FormText([("oauth_token", token)] + rest)) == Delivered(token)
  {
    var pairs := [("oauth_token", token)] + rest;
    var items := ParseQuery(FormText(pairs));
    ParseFormText(pairs);
    assert items[0] == FormItem(Some("oauth_token"), token);
    forall i | 0 <= i < |items| && i != 0 ensures !(items[i].name.Some? && SameName(items[i].name.value, "oauth_token")) {
      assert pairs[i] == rest[i - 1];
    }
    OneValue(items, "oauth_token", 0);
  }

  /** The name is matched ignoring case: `OAUTH_TOKEN=…` is read as the token too. */
  lemma TokenNameIgnoresCase(name: string, token: string)
    requires SameName(name, "oauth_token") && Writable([(name, token)])
    ensures ExtractOAuthToken(FormText([(name, token)])) == Delivered(token)
  {
    var items := ParseQuery(FormText([(name, token)]));
    ParseFormText([(name, token)]);
    assert items[0] == FormItem(Some(name), token);
    OneValue(items, "oauth_token", 0);
  }

  /** A repeated `oauth_token` reads as both values joined by a comma. */
  lemma RepeatedTokenJoined(first: string, second: string)
    requires Writable([("oauth_token", first), ("oauth_token", second)])
    ensures ExtractOAuthToken(FormText([("oauth_token", first), ("oauth_token", second)])) == Delivered(first + "," + second)
  {
    var pairs := [("oauth_token", first), ("oauth_token", second)];
    var items := ParseQuery(FormText(pairs));
    ParseFormText(pairs);
    assert items[1..][1..] == [];
    assert ValuesOf(items[1..], "oauth_token") == [second];
    assert ValuesOf(items, "oauth_token") == [first, second];
    assert Join([first, second], ",") == first + "," + Join([second], ",");
  }

  /** A response with no `=` in it names nothing, so it holds no token. */
  lemma NoEqualsNoToken(responseText: string)
    requires '=' !in responseText
    ensures ExtractOAuthToken(responseText) == Rejected(ArgumentState(TokenNotFoundMessage))
  {
    var items := ParseQuery(responseText);
    var body := if |responseText| > 0 && responseText[0] == '?' then responseText[1..] else responseText;
    if body != [] {
      var segments := Split(body, '&');
      assert forall x :: x in body ==> x in responseText;
      SplitKeepsOut(body, '&', '=');
      forall i | 0 <= i < |items| ensures items[i].name.None? {
        assert items[i] == ParseItem(segments[i]);
      }
    }
  }

  // ---------------------------------------------------------------------
  // The request token and the authorization URL

  /** `{ "oauth_callback": callbackUrl }`. */
  function CallbackParams(callbackUrl: string): (ps: Params)
    ensures Sorted(ps) && Keys(ps) == {"oauth_callback"} && Lookup(ps, "oauth_callback") == Some(callbackUrl)
  {
    assert Keys([("oauth_callback", callbackUrl)]) == {"oauth_callback"} by {
      assert [("oauth_callback", callbackUrl)][0].0 == "oauth_callback";
    }
    [("oauth_callback", callbackUrl)]
  }

  /** `{ "x_auth_access_type": "write" }`: write access, which includes read. */
  function AccessTypeParams(): (ps: Params)
    ensures Sorted(ps) && Keys(ps) == {"x_auth_access_type"}
  {
    assert Keys([("x_auth_access_type", "write")]) == {"x_auth_access_type"} by {
      assert [("x_auth_access_type", "write")][0].0 == "x_auth_access_type";
    }
    [("x_auth_access_type", "write")]
  }

  /** The request-token URI: the parameters joined by `&`, with no trailing separator. */
  function RequestTokenUri(): string
  {
    RequestTokenUrl + "?" + Join(QueryItems(AccessTypeParams()), "&")
  }

  /** The request-token call carries its parameters in the clear. */
  lemma RequestTokenUriValue()
    ensures RequestTokenUri() == RequestTokenUrl + "?x_auth_access_type=write"
  {
    var items := QueryItems(AccessTypeParams());
    assert items == [QueryItem(("x_auth_access_type", "write"))];
    assert "?" + ("x_auth_access_type" + "=" + "write") == "?x_auth_access_type=write";
  }

  /** The parameters the request-token header is computed over. */
  function CallbackSignedParams(apiKey: string, callbackUrl: string, nonce: string, timestamp: string): Params
  {
    MergedParameters(apiKey, nonce, timestamp, Some(CallbackParams(callbackUrl)), Some(AccessTypeParams())).GetOr([])
  }

  /** The request-token call: POST, no body, signed with the consumer secret only. */
  function RequestTokenRequest(apiKey: string, apiSecret: string, callbackUrl: string,
                               nonce: string, timestamp: string, hmac: Hmac): ApiRequest
  {
    var header := SignedHeader("POST", RequestTokenUrl, apiKey, apiSecret, None, Some(CallbackParams(callbackUrl)),
                               Some(AccessTypeParams()), nonce, timestamp, hmac);
    ApiRequest(Post, RequestTokenUri(), header.GetOr(""), NoContent)
  }

  /** None of the caller's keys collides with a fixed one, so the signer never throws here. */
  lemma CallbackMerges(apiKey: string, callbackUrl: string, nonce: string, timestamp: string)
    ensures MergedParameters(apiKey, nonce, timestamp, Some(CallbackParams(callbackUrl)), Some(AccessTypeParams()))
            == Some(CallbackSignedParams(apiKey, callbackUrl, nonce, timestamp))
  {
    assert "oauth_callback" !in FixedKeys;
    assert "x_auth_access_type" !in FixedKeys;
  }

  /** A header signed without a token secret: over the merged parameters, with the key `enc(apiSecret)&`. */
  lemma ConsumerSignedHeader(url: string, apiKey: string, apiSecret: string, auth: Params, urlParams: Option<Params>,
                             nonce: string, timestamp: string, hmac: Hmac, ps: Params)
    requires Sorted(auth) && SortedOrNull(urlParams)
    requires MergedParameters(apiKey, nonce, timestamp, Some(auth), urlParams) == Some(ps)
    ensures SignedHeader("POST", url, apiKey, apiSecret, None, Some(auth), urlParams, nonce, timestamp, hmac).GetOr("")
            == HeaderValue(ps, Encode(hmac(Encode(apiSecret) + "&", BaseString("POST", url, ps))))
    ensures ',' !in Encode(hmac(Encode(apiSecret) + "&", BaseString("POST", url, ps)))
  {
    assert SigningKey(apiSecret, None) == Encode(apiSecret) + "&" by {
      assert Encode("") == "";
    }
    EncodeHasNoSeparators(hmac(Encode(apiSecret) + "&", BaseString("POST", url, ps)));
  }

  /**
    The request-token header carries `oauth_callback` and no token, signs
    `x_auth_access_type` without echoing it, and is signed with the key
    `enc(apiSecret)&`.
   */
  lemma RequestTokenHeader(apiKey: string, apiSecret: string, callbackUrl: string,
                           nonce: string, timestamp: string, hmac: Hmac)
    ensures var ps := CallbackSignedParams(apiKey, callbackUrl, nonce, timestamp);
      var digest := hmac(Encode(apiSecret) + "&", BaseString("POST", RequestTokenUrl, ps));
      var parts := Split(RequestTokenRequest(apiKey, apiSecret, callbackUrl, nonce, timestamp, hmac).authorization, ',');
      HeaderEntry(("oauth_callback", callbackUrl)) in parts
      && parts[|parts| - 1] == SignatureEntry(Encode(digest))
      && "x_auth_access_type" in Keys(ps) && "x_auth_access_type" !in Keys(OAuthOnly(ps))
      && "oauth_token" !in Keys(ps)
  {
    var auth := CallbackParams(callbackUrl);
    var urlParams := AccessTypeParams();
    var ps := CallbackSignedParams(apiKey, callbackUrl, nonce, timestamp);
    var signature := Encode(hmac(Encode(apiSecret) + "&", BaseString("POST", RequestTokenUrl, ps)));
    CallbackMerges(apiKey, callbackUrl, nonce, timestamp);
    ConsumerSignedHeader(RequestTokenUrl, apiKey, apiSecret, auth, Some(urlParams), nonce, timestamp, hmac, ps);
    assert RequestTokenRequest(apiKey, apiSecret, callbackUrl, nonce, timestamp, hmac).authorization == HeaderValue(ps, signature);
    CallbackHeader(ps, callbackUrl, signature);
    AccessTypeNotEchoed(ps);
    NoTokenAmongCallbackKeys(ps);
  }

  /** The callback is echoed in a header over any parameters that hold it, and the signature comes last. */
  lemma CallbackHeader(ps: Params, callbackUrl: string, signature: string)
    requires Sorted(ps) && FixedKeys <= Keys(ps) && ',' !in signature
    requires Lookup(ps, "oauth_callback") == Some(callbackUrl)
    ensures var parts := Split(HeaderValue(ps, signature), ',');
      HeaderEntry(("oauth_callback", callbackUrl)) in parts && parts[|parts| - 1] == SignatureEntry(signature)
  {
    assert StartsWith("oauth_callback", OAuthPrefix);
    OAuthEntryInHeader(ps, "oauth_callback", signature);
  }

  /** The access type is signed but, not being an `oauth_` parameter, never echoed in the header. */
  lemma AccessTypeNotEchoed(ps: Params)
    requires Sorted(ps) && "x_auth_access_type" in Keys(ps)
    ensures "x_auth_access_type" !in Keys(OAuthOnly(ps))
  {
    assert !StartsWith("x_auth_access_type", OAuthPrefix) by {
      assert "x_auth_access_type"[0] != OAuthPrefix[0];
    }
    NonOAuthNotEchoed(ps, "x_auth_access_type");
  }

  /** Parameters made of the fixed keys, the callback and the access type hold no token. */
  lemma NoTokenAmongCallbackKeys(ps: Params)
    requires Keys(ps) == FixedKeys + {"oauth_callback"} + {"x_auth_access_type"}
    ensures "oauth_token" !in Keys(ps)
  {
    assert "oauth_token" !in FixedKeys && "oauth_token" != "oauth_callback";
  }

  /** What `CreateAuthUrlAsync` returns for the reply to the request-token call. */
  function AuthUrlOutcome(reply: Reply<string>): (v: Verdict<string>)
  {
    match Classify(reply, ReadBody)
    case Rejected(e) => Rejected(e)
    case Delivered(responseText) =>
      match ExtractOAuthToken(responseText)
      case Rejected(e) => Rejected(e.(clientMessage := Some(NotAuthenticatedMessage)))
      case Delivered(token) => Delivered(AuthUrl + "?oauth_token=" + token)
  }

  /**
    A failed call passes its error through untouched; a response without a
    token is an argument error the user is told "Could not authenticate
    you" about; otherwise the URL is the authorize endpoint with the token.
   */
  lemma AuthUrlRules(reply: Reply<string>)
    ensures Classify(reply, ReadBody).Rejected? ==> AuthUrlOutcome(reply) == Classify(reply, ReadBody)
    ensures Classify(reply, ReadBody).Delivered? && FormValue(ParseQuery(Classify(reply, ReadBody).value), "oauth_token").None? ==>
      AuthUrlOutcome(reply) == Rejected(ArgumentState(TokenNotFoundMessage).(clientMessage := Some(NotAuthenticatedMessage)))
    ensures AuthUrlOutcome(reply).Delivered? <==>
      Classify(reply, ReadBody).Delivered? && FormValue(ParseQuery(Classify(reply, ReadBody).value), "oauth_token").Some?
    ensures AuthUrlOutcome(reply).Delivered? ==>
      AuthUrlOutcome(reply).value == AuthUrl + "?oauth_token=" + FormValue(ParseQuery(Classify(reply, ReadBody).value), "oauth_token").value
  {
  }

  /**
    The request-token call reads its body as a stream, so on a success
    status the outcome depends on the body alone: the URL when the body
    holds a token, otherwise the "Could not authenticate you" error, and
    never a parse error.
   */
  lemma AuthUrlOnSuccessStatus(reply: Reply<string>)
    requires reply.Answered? && IsSuccessStatusCode(reply.statusCode)
    ensures AuthUrlOutcome(reply).Delivered? <==> FormValue(ParseQuery(reply.content), "oauth_token").Some?
    ensures AuthUrlOutcome(reply).Rejected? ==> AuthUrlOutcome(reply).error.clientMessage == Some(NotAuthenticatedMessage)
  {
    StreamCallsDeliverBody(reply);
  }

  /**
    `CreateAuthUrlAsync`: one POST to the request-token endpoint, then the
    token read from the body, then the authorize URL built from it.
   */
  method CreateAuthUrl(apiKey: string, apiSecret: string, callbackUrl: string,
                       nonce: string, timestamp: string, hmac: Hmac, transport: ApiRequest -> Reply<string>)
    returns (request: ApiRequest, r: Result<string>)
    ensures request == RequestTokenRequest(apiKey, apiSecret, callbackUrl, nonce, timestamp, hmac)
    ensures r.Success? <==> AuthUrlOutcome(transport(request)).Delivered?
    ensures r.Success? ==> r.value == Some(AuthUrlOutcome(transport(request)).value)
    ensures r.Fail? ==> r.error.State() == AuthUrlOutcome(transport(request)).error
  {
    var authParameters := CallbackParams(callbackUrl);
    var urlParameters := AccessTypeParams();
    CallbackMerges(apiKey, callbackUrl, nonce, timestamp);
    var authorizationHeader := Authorization(Post.Name(), RequestTokenUrl, apiKey, apiSecret, None,
                                             Some(authParameters), Some(urlParameters), nonce, timestamp, hmac);
    var uri := RequestTokenUrl + "?" + Join(QueryItems(urlParameters), "&");
    request := ApiRequest(Post, uri, authorizationHeader.value, NoContent);
    r := SendRequestTokenCall(request, transport);
  }

  /** The second half of `CreateAuthUrlAsync`: the call sent, and the authorize URL built from its reply. */
  method SendRequestTokenCall(request: ApiRequest, transport: ApiRequest -> Reply<string>) returns (r: Result<string>)
    ensures r.Success? <==> AuthUrlOutcome(transport(request)).Delivered?
    ensures r.Success? ==> r.value == Some(AuthUrlOutcome(transport(request)).value)
    ensures r.Fail? ==> r.error.State() == AuthUrlOutcome(transport(request)).error
  {
    var result := Send(transport, request, ReadBody);
    if !result.IsSuccess() {
      return FromError(result.error);
    }
    var responseString := result.Value().got;
    var extractTokenResult := ExtractOAuthToken(responseString);
    if extractTokenResult.Rejected? {
      var e := new Error.Argument(TokenNotFoundMessage);
      e := e.SetClientMessage(NotAuthenticatedMessage);
      return Fail(e);
    }
    var oauthToken := extractTokenResult.value;
    r := FromValue(Some(AuthUrl + "?oauth_token=" + oauthToken));
  }

  // ---------------------------------------------------------------------
  // The access token

  /** `{ "oauth_token": oauthToken, "oauth_verifier": oauthVerifier }`. */
  function VerifierParams(oauthToken: string, oauthVerifier: string): (ps: Params)
    ensures Sorted(ps) && Keys(ps) == {"oauth_token", "oauth_verifier"}
    ensures Lookup(ps, "oauth_token") == Some(oauthToken) && Lookup(ps, "oauth_verifier") == Some(oauthVerifier)
  {
    TokenBeforeVerifier();
    TwoParams("oauth_token", oauthToken, "oauth_verifier", oauthVerifier);
    [("oauth_token", oauthToken), ("oauth_verifier", oauthVerifier)]
  }

  lemma TokenBeforeVerifier()
    ensures Less("oauth_token", "oauth_verifier")
  {
    LessSharedPrefix("oauth_", "token", "verifier");
    assert "oauth_token" == "oauth_" + "token" && "oauth_verifier" == "oauth_" + "verifier";
  }

  /** A two-entry dictionary whose keys are in order. */
  lemma TwoParams(a: string, va: string, b: string, vb: string)
    requires Less(a, b)
    ensures var ps := [(a, va), (b, vb)];
      Sorted(ps) && Keys(ps) == {a, b} && Lookup(ps, a) == Some(va) && Lookup(ps, b) == Some(vb)
  {
    var ps := [(a, va), (b, vb)];
    SortedByNeighbours(ps);
    assert ps[0].0 in Keys(ps) && ps[1].0 in Keys(ps);
    LookupFound(ps, 0);
    LookupFound(ps, 1);
  }

  /** The parameters the access-token header is computed over. */
  function VerifierSignedParams(apiKey: string, oauthToken: string, oauthVerifier: string,
                                nonce: string, timestamp: string): Params
  {
    MergedParameters(apiKey, nonce, timestamp, Some(VerifierParams(oauthToken, oauthVerifier)), None).GetOr([])
  }

  /** The access-token call: POST to the bare endpoint, no body, signed with the consumer secret only. */
  function AccessTokenRequest(apiKey: string, apiSecret: string, oauthToken: string, oauthVerifier: string,
                              nonce: string, timestamp: string, hmac: Hmac): ApiRequest
  {
    var header := SignedHeader("POST", AccessTokenUrl, apiKey, apiSecret, None, Some(VerifierParams(oauthToken, oauthVerifier)),
                               None, nonce, timestamp, hmac);
    ApiRequest(Post, AccessTokenUrl, header.GetOr(""), NoContent)
  }

  lemma VerifierMerges(apiKey: string, oauthToken: string, oauthVerifier: string, nonce: string, timestamp: string)
    ensures MergedParameters(apiKey, nonce, timestamp, Some(VerifierParams(oauthToken, oauthVerifier)), None)
            == Some(VerifierSignedParams(apiKey, oauthToken, oauthVerifier, nonce, timestamp))
  {
    assert "oauth_token" !in FixedKeys;
    assert "oauth_verifier" !in FixedKeys;
  }

  /**
    The access-token header carries the request token and the verifier and
    is signed with the key `enc(apiSecret)&`: the request token's secret is
    not used.
   */
  lemma AccessTokenHeader(apiKey: string, apiSecret: string, oauthToken: string, oauthVerifier: string,
                          nonce: string, timestamp: string, hmac: Hmac)
    ensures var ps := VerifierSignedParams(apiKey, oauthToken, oauthVerifier, nonce, timestamp);
      var digest := hmac(Encode(apiSecret) + "&", BaseString("POST", AccessTokenUrl, ps));
      var parts := Split(AccessTokenRequest(apiKey, apiSecret, oauthToken, oauthVerifier, nonce, timestamp, hmac).authorization, ',');
      parts[|parts| - 1] == SignatureEntry(Encode(digest))
      && HeaderEntry(("oauth_token", oauthToken)) in parts
      && HeaderEntry(("oauth_verifier", oauthVerifier)) in parts
  {
    var ps := VerifierSignedParams(apiKey, oauthToken, oauthVerifier, nonce, timestamp);
    var signature := Encode(hmac(Encode(apiSecret) + "&", BaseString("POST", AccessTokenUrl, ps)));
    AccessTokenAuthorization(apiKey, apiSecret, oauthToken, oauthVerifier, nonce, timestamp, hmac);
    VerifierLookups(apiKey, oauthToken, oauthVerifier, nonce, timestamp);
    VerifierKeysAreOAuth();
    var authorization := AccessTokenRequest(apiKey, apiSecret, oauthToken, oauthVerifier, nonce, timestamp, hmac).authorization;
    TwoEchoed(ps, "oauth_token", oauthToken, "oauth_verifier", oauthVerifier, signature, authorization);
  }

  lemma VerifierKeysAreOAuth()
    ensures StartsWith("oauth_token", OAuthPrefix) && StartsWith("oauth_verifier", OAuthPrefix)
  {
    assert "oauth_token" == OAuthPrefix + "token";
    assert "oauth_verifier" == OAuthPrefix + "verifier";
  }

  /** The access-token header is the header value over the merged parameters, signed with `enc(apiSecret)&`. */
  lemma AccessTokenAuthorization(apiKey: string, apiSecret: string, oauthToken: string, oauthVerifier: string,
                                 nonce: string, timestamp: string, hmac: Hmac)
    ensures var ps := VerifierSignedParams(apiKey, oauthToken, oauthVerifier, nonce, timestamp);
      var signature := Encode(hmac(Encode(apiSecret) + "&", BaseString("POST", AccessTokenUrl, ps)));
      AccessTokenRequest(apiKey, apiSecret, oauthToken, oauthVerifier, nonce, timestamp, hmac).authorization
        == HeaderValue(ps, signature)
      && ',' !in signature
  {
    var auth := VerifierParams(oauthToken, oauthVerifier);
    var ps := VerifierSignedParams(apiKey, oauthToken, oauthVerifier, nonce, timestamp);
    VerifierMerges(apiKey, oauthToken, oauthVerifier, nonce, timestamp);
    ConsumerSignedHeader(AccessTokenUrl, apiKey, apiSecret, auth, None, nonce, timestamp, hmac, ps);
  }

  /** The merged access-token parameters hold the fixed keys, the request token and the verifier. */
  lemma VerifierLookups(apiKey: string, oauthToken: string, oauthVerifier: string, nonce: string, timestamp: string)
    ensures var ps := VerifierSignedParams(apiKey, oauthToken, oauthVerifier, nonce, timestamp);
      Lookup(ps, "oauth_token") == Some(oauthToken) && Lookup(ps, "oauth_verifier") == Some(oauthVerifier)
      && FixedKeys <= Keys(ps)
  {
    var auth := VerifierParams(oauthToken, oauthVerifier);
    var ps := VerifierSignedParams(apiKey, oauthToken, oauthVerifier, nonce, timestamp);
    VerifierMerges(apiKey, oauthToken, oauthVerifier, nonce, timestamp);
    var token, verifier := "oauth_token", "oauth_verifier";
    AuthLookup(apiKey, nonce, timestamp, auth, ps, token);
    AuthLookup(apiKey, nonce, timestamp, auth, ps, verifier);
  }

  /** With no URL parameters, an auth parameter keeps its own value in the merged dictionary. */
  lemma AuthLookup(apiKey: string, nonce: string, timestamp: string, auth: Params, ps: Params, k: string)
    requires Sorted(auth) && MergedParameters(apiKey, nonce, timestamp, Some(auth), None) == Some(ps)
    requires k in Keys(auth)
    ensures Lookup(ps, k) == Lookup(auth, k)
  {
  }

  /** Two `oauth_` parameters, both echoed in a header over any parameters holding them. */
  lemma TwoEchoed(ps: Params, k1: string, v1: string, k2: string, v2: string, signature: string, header: string)
    requires FixedKeys <= Keys(ps) && ',' !in signature && header == HeaderValue(ps, signature)
    requires StartsWith(k1, OAuthPrefix) && Lookup(ps, k1) == Some(v1)
    requires StartsWith(k2, OAuthPrefix) && Lookup(ps, k2) == Some(v2)
    ensures var parts := Split(header, ',');
      HeaderEntry((k1, v1)) in parts && HeaderEntry((k2, v2)) in parts
      && parts[|parts| - 1] == SignatureEntry(signature)
  {
    EchoedEntry(ps, k1, v1, signature);
    EchoedEntry(ps, k2, v2, signature);
  }

  /** One `oauth_` parameter with its value, echoed in the header. */
  lemma EchoedEntry(ps: Params, k: string, v: string, signature: string)
    requires FixedKeys <= Keys(ps) && ',' !in signature
    requires StartsWith(k, OAuthPrefix) && Lookup(ps, k) == Some(v)
    ensures var parts := Split(HeaderValue(ps, signature), ',');
      HeaderEntry((k, v)) in parts && parts[|parts| - 1] == SignatureEntry(signature)
  {
    OAuthEntryInHeader(ps, k, signature);
  }

  /** What `GetAccessTokenAsync` returns for the reply to the access-token call. */
  function AccessTokenOutcome(reply: Reply<string>): (v: Verdict<AccountCredentials>)
  {
    match Classify(reply, ReadBody)
    case Rejected(e) => Rejected(e)
    case Delivered(responseString) =>
      match ExtractAccountCredentials(responseString)
      case Rejected(e) => Rejected(e.(clientMessage := Some(NotAuthenticatedMessage)))
      case Delivered(credentials) => Delivered(credentials)
  }

  /**
    A failed call passes its error through untouched; a response the
    credentials cannot be read from is an argument error with the client
    message "Could not authenticate you"; otherwise the credentials read.
   */
  lemma AccessTokenRules(reply: Reply<string>)
    ensures Classify(reply, ReadBody).Rejected? ==> AccessTokenOutcome(reply) == Rejected(Classify(reply, ReadBody).error)
    ensures Classify(reply, ReadBody).Delivered? ==>
      AccessTokenOutcome(reply) ==
        match ExtractAccountCredentials(Classify(reply, ReadBody).value)
        case Rejected(_) => Rejected(ArgumentState(NoCredentialsMessage).(clientMessage := Some(NotAuthenticatedMessage)))
        case Delivered(credentials) => Delivered(credentials)
    ensures AccessTokenOutcome(reply).Rejected? ==>
      (AccessTokenOutcome(reply).error.clientMessage == Some(NotAuthenticatedMessage) <==> Classify(reply, ReadBody).Delivered?)
  {
  }

  /**
    The access-token call reads its body as a stream, so on a success
    status the outcome depends on the body alone: the credentials when the
    body holds them, otherwise the "Could not authenticate you" error, and
    never a parse error.
   */
  lemma AccessTokenOnSuccessStatus(reply: Reply<string>)
    requires reply.Answered? && IsSuccessStatusCode(reply.statusCode)
    ensures AccessTokenOutcome(reply).Delivered? <==> ExtractAccountCredentials(reply.content).Delivered?
    ensures AccessTokenOutcome(reply).Rejected? ==> AccessTokenOutcome(reply).error.clientMessage == Some(NotAuthenticatedMessage)
  {
    StreamCallsDeliverBody(reply);
  }

  /**
    `GetAccessTokenAsync`: one POST to the access-token endpoint, then the
    credentials read from the body.
   */
  method GetAccessToken(apiKey: string, apiSecret: string, oauthToken: string, oauthVerifier: string,
                        nonce: string, timestamp: string, hmac: Hmac, transport: ApiRequest -> Reply<string>)
    returns (request: ApiRequest, r: Result<AccountCredentials>)
    ensures request == AccessTokenRequest(apiKey, apiSecret, oauthToken, oauthVerifier, nonce, timestamp, hmac)
    ensures r.Success? <==> AccessTokenOutcome(transport(request)).Delivered?
    ensures r.Success? ==> r.value == Some(AccessTokenOutcome(transport(request)).value)
    ensures r.Fail? ==> r.error.State() == AccessTokenOutcome(transport(request)).error
  {
    var authParameters := VerifierParams(oauthToken, oauthVerifier);
    VerifierMerges(apiKey, oauthToken, oauthVerifier, nonce, timestamp);
    var authorizationHeader := Authorization(Post.Name(), AccessTokenUrl, apiKey, apiSecret, None,
                                             Some(authParameters), None, nonce, timestamp, hmac);
    request := ApiRequest(Post, AccessTokenUrl, authorizationHeader.value, NoContent);
    r := SendAccessTokenCall(request, transport);
  }

  /** The second half of `GetAccessTokenAsync`: the call sent, and the credentials read from its reply. */
  method SendAccessTokenCall(request: ApiRequest, transport: ApiRequest -> Reply<string>)
    returns (r: Result<AccountCredentials>)
    ensures r.Success? <==> AccessTokenOutcome(transport(request)).Delivered?
    ensures r.Success? ==> r.value == Some(AccessTokenOutcome(transport(request)).value)
    ensures r.Fail? ==> r.error.State() == AccessTokenOutcome(transport(request)).error
  {
    var result := Send(transport, request, ReadBody);
    if !result.IsSuccess() {
      return FromError(result.error);
    }
    var responseString := result.Value().got;
    var credentialsResult := ExtractAccountCredentials(responseString);
    if credentialsResult.Rejected? {
      var e := new Error.Argument(NoCredentialsMessage);
      e := e.SetClientMessage(NotAuthenticatedMessage);
      return Fail(e);
    }
    r := FromValue(Some(credentialsResult.value));
  }
}
