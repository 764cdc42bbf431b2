/**
  The OAuth 1.0a request signer (RFC 5849): the merged parameter dictionary,
  the signature base string of section 3.4.1, the signing key of section
  3.4.2 and the Authorization header value of section 3.5.1.

  HMAC-SHA1 followed by base64 is the parameter `hmac(key, message)`; the
  nonce and the timestamp are parameters.
 */
module OAuthHeader {
  import opened Wrappers
  import opened Strings
  import opened PercentEncoding
  import opened SortedParams

  const OAuthVersion := "1.0"
  const OAuthSignatureMethod := "HMAC-SHA1"
  const OAuthPrefix := "oauth_"

  /** base64(HMAC-SHA1(key, message)), supplied by the caller. */
  type Hmac = (string, string) -> string

  /** The five parameters every signed request carries. */
  const FixedKeys: set<string> :=
    {"oauth_consumer_key", "oauth_nonce", "oauth_signature_method", "oauth_timestamp", "oauth_version"}

  // The five fixed keys in ascending order: after `oauth_` they start with c, n, s, t and v.

  lemma ConsumerKeyBeforeNonce()
    ensures Less("oauth_consumer_key", "oauth_nonce")
  {
    LessSharedPrefix("oauth_", "consumer_key", "nonce");
    assert "oauth_consumer_key" == "oauth_" + "consumer_key" && "oauth_nonce" == "oauth_" + "nonce";
  }

  lemma NonceBeforeSignatureMethod()
    ensures Less("oauth_nonce", "oauth_signature_method")
  {
    LessSharedPrefix("oauth_", "nonce", "signature_method");
    assert "oauth_nonce" == "oauth_" + "nonce" && "oauth_signature_method" == "oauth_" + "signature_method";
  }

  lemma SignatureMethodBeforeTimestamp()
    ensures Less("oauth_signature_method", "oauth_timestamp")
  {
    LessSharedPrefix("oauth_", "signature_method", "timestamp");
    assert "oauth_signature_method" == "oauth_" + "signature_method" && "oauth_timestamp" == "oauth_" + "timestamp";
  }

  lemma TimestampBeforeVersion()
    ensures Less("oauth_timestamp", "oauth_version")
  {
    LessSharedPrefix("oauth_", "timestamp", "version");
    assert "oauth_timestamp" == "oauth_" + "timestamp" && "oauth_version" == "oauth_" + "version";
  }

  /** Five entries with ascending keys form a dictionary holding exactly them. */
  lemma FiveEntries(a: (string, string), b: (string, string), c: (string, string),
                    d: (string, string), e: (string, string))
    requires Less(a.0, b.0) && Less(b.0, c.0) && Less(c.0, d.0) && Less(d.0, e.0)
    ensures Sorted([a, b, c, d, e]) && Keys([a, b, c, d, e]) == {a.0, b.0, c.0, d.0, e.0}
    ensures Lookup([a, b, c, d, e], a.0) == Some(a.1) && Lookup([a, b, c, d, e], b.0) == Some(b.1)
    ensures Lookup([a, b, c, d, e], c.0) == Some(c.1) && Lookup([a, b, c, d, e], d.0) == Some(d.1)
    ensures Lookup([a, b, c, d, e], e.0) == Some(e.1)
  {
    var ps := [a, b, c, d, e];
    SortedByNeighbours(ps);
    assert ps[0].0 in Keys(ps) && ps[1].0 in Keys(ps) && ps[2].0 in Keys(ps);
    assert ps[3].0 in Keys(ps) && ps[4].0 in Keys(ps);
    LookupFound(ps, 0);
    LookupFound(ps, 1);
    LookupFound(ps, 2);
    LookupFound(ps, 3);
    LookupFound(ps, 4);
  }

  /** The dictionary as initialised before any caller parameter is added. */
  function FixedParams(apiKey: string, nonce: string, timestamp: string): (ps: Params)
    ensures Sorted(ps) && Keys(ps) == FixedKeys
    ensures Lookup(ps, "oauth_consumer_key") == Some(apiKey)
    ensures Lookup(ps, "oauth_nonce") == Some(nonce)
    ensures Lookup(ps, "oauth_signature_method") == Some(OAuthSignatureMethod)
    ensures Lookup(ps, "oauth_timestamp") == Some(timestamp)
    ensures Lookup(ps, "oauth_version") == Some(OAuthVersion)
  {
    ConsumerKeyBeforeNonce();
    NonceBeforeSignatureMethod();
    SignatureMethodBeforeTimestamp();
    TimestampBeforeVersion();
    FiveEntries(("oauth_consumer_key", apiKey), ("oauth_nonce", nonce),
                ("oauth_signature_method", OAuthSignatureMethod),
                ("oauth_timestamp", timestamp), ("oauth_version", OAuthVersion));
    [("oauth_consumer_key", apiKey), ("oauth_nonce", nonce),
     ("oauth_signature_method", OAuthSignatureMethod),
     ("oauth_timestamp", timestamp), ("oauth_version", OAuthVersion)]
  }

  /** The keys of an optional dictionary, empty when it is null. */
  function KeysOf(p: Option<Params>): set<string>
  {
    Keys(p.GetOr([]))
  }

  predicate SortedOrNull(p: Option<Params>)
  {
    p.Some? ==> Sorted(p.value)
  }

  /**
    The dictionary after both `foreach … Add` loops: None where `Add` throws
    because a key is already present.
   */
  function MergedParameters(apiKey: string, nonce: string, timestamp: string,
                            auth: Option<Params>, url: Option<Params>): (r: Option<Params>)
    requires SortedOrNull(auth) && SortedOrNull(url)
    ensures r.Some? <==> FixedKeys !! KeysOf(auth) && FixedKeys !! KeysOf(url) && KeysOf(auth) !! KeysOf(url)
    ensures r.Some? ==> Sorted(r.value) && Keys(r.value) == FixedKeys + KeysOf(auth) + KeysOf(url)
    ensures r.Some? ==>
              forall k :: Lookup(r.value, k) ==
                            if k in KeysOf(url) then Lookup(url.GetOr([]), k)
                            else if k in KeysOf(auth) then Lookup(auth.GetOr([]), k)
                            else Lookup(FixedParams(apiKey, nonce, timestamp), k)
  {
    match AddAll(FixedParams(apiKey, nonce, timestamp), auth.GetOr([]))
    case None => None
    case Some(withAuth) => AddAll(withAuth, url.GetOr([]))
  }

  /** One `enc(key)=enc(value)` item of the parameter string. */
  function EncodedPair(p: (string, string)): string
  {
    Encode(p.0) + "=" + Encode(p.1)
  }

  function EncodedPairs(ps: Params): (items: seq<string>)
    ensures |items| == |ps|
  {
    seq(|ps|, i requires 0 <= i < |ps| => EncodedPair(ps[i]))
  }

  /** Section 3.4.1.3.2 of RFC 5849: the normalised parameter string. */
  function ParameterString(ps: Params): string
  {
    Join(EncodedPairs(ps), "&")
  }

  /** Section 3.4.1 of RFC 5849: `METHOD&enc(url)&enc(parameters)`. */
  function BaseString(httpMethod: string, url: string, ps: Params): string
  {
    Upper(httpMethod) + "&" + Encode(url) + "&" + Encode(ParameterString(ps))
  }

  /** Section 3.4.2 of RFC 5849: `enc(consumer secret)&enc(token secret)`, an absent secret as empty. */
  function SigningKey(apiSecret: string, tokenSecret: Option<string>): string
  {
    Encode(apiSecret) + "&" + Encode(tokenSecret.GetOr(""))
  }

  /** The digest as it goes into the header: percent-encoded once. */
  function Signature(hmac: Hmac, baseString: string, key: string): string
  {
    Encode(hmac(key, baseString))
  }

  /** The entries whose key starts with `oauth_`, in dictionary order. */
  function OAuthOnly(ps: Params): (r: Params)
    ensures |r| <= |ps|
    ensures forall i :: 0 <= i < |r| ==> StartsWith(r[i].0, OAuthPrefix)
    ensures forall k :: Lookup(r, k) == if StartsWith(k, OAuthPrefix) then Lookup(ps, k) else None
  {
    if ps == [] then []
    else if StartsWith(ps[0].0, OAuthPrefix) then
      var rest := OAuthOnly(ps[1..]);
      assert forall k :: Lookup([ps[0]] + rest, k) == if k == ps[0].0 then Some(ps[0].1) else Lookup(rest, k) by {
        assert ([ps[0]] + rest)[1..] == rest;
      }
      [ps[0]] + rest
    else
      OAuthOnly(ps[1..])
  }

  /** One `enc(key)="enc(value)"` item of the header. */
  function HeaderEntry(p: (string, string)): string
  {
    Encode(p.0) + "=\"" + Encode(p.1) + "\""
  }

  function HeaderEntries(ps: Params): (items: seq<string>)
  {
    var f := OAuthOnly(ps);
    seq(|f|, i requires 0 <= i < |f| => HeaderEntry(f[i]))
  }

  function SignatureEntry(signature: string): string
  {
    "oauth_signature=\"" + signature + "\""
  }

  /** Section 3.5.1 of RFC 5849, as this signer writes it: comma-separated, no `OAuth ` scheme word. */
  function HeaderValue(ps: Params, signature: string): string
  {
    Join(HeaderEntries(ps), ",") + "," + SignatureEntry(signature)
  }

  /** The value `Authorization` returns, or None where it throws on a duplicate key. */
  function SignedHeader(httpMethod: string, url: string, apiKey: string, apiSecret: string,
                        tokenSecret: Option<string>, auth: Option<Params>, urlParams: Option<Params>,
                        nonce: string, timestamp: string, hmac: Hmac): (r: Option<string>)
    requires SortedOrNull(auth) && SortedOrNull(urlParams)
    ensures r.Some? <==> MergedParameters(apiKey, nonce, timestamp, auth, urlParams).Some?
  {
    match MergedParameters(apiKey, nonce, timestamp, auth, urlParams)
    case None => None
    case Some(ps) =>
      Some(HeaderValue(ps, Signature(hmac, BaseString(httpMethod, url, ps), SigningKey(apiSecret, tokenSecret))))
  }

  /**
    One `foreach (var parameter in …) oauthParameters.Add(parameter.Key,
    parameter.Value)` loop: None as soon as an `Add` throws.
   */
  method AddEach(ps: Params, add: Params) returns (r: Option<Params>)
    requires Sorted(ps) && Sorted(add)
    ensures r == AddAll(ps, add)
  {
    var acc := ps;
    var i := 0;
    while i < |add|
      invariant 0 <= i <= |add|
      invariant Sorted(acc)
      invariant AddAll(ps, add[..i]) == Some(acc)
    {
      AddAllStep(ps, add, i, acc);
      var next := Insert(acc, add[i].0, add[i].1);
      if next.None? {
        AddAllPrefixFails(ps, add, i + 1);
        return None;
      }
      acc := next.value;
      i := i + 1;
    }
    assert add[..i] == add;
    r := Some(acc);
  }

  /**
    `OAuthHeader.Authorization`: the fixed parameters, then each auth and each
    URL parameter added one at a time, then the header built over the result.
   */
  method Authorization(httpMethod: string, url: string, apiKey: string, apiSecret: string,
                       accessTokenSecret: Option<string>, authParameters: Option<Params>,
                       urlParameters: Option<Params>, nonce: string, timestamp: string, hmac: Hmac)
    returns (header: Option<string>)
    requires SortedOrNull(authParameters) && SortedOrNull(urlParameters)
    ensures header == SignedHeader(httpMethod, url, apiKey, apiSecret, accessTokenSecret,
                                   authParameters, urlParameters, nonce, timestamp, hmac)
  {
    var oauthParameters := FixedParams(apiKey, nonce, timestamp);
    if authParameters.Some? {
      var merged := AddEach(oauthParameters, authParameters.value);
      if merged.None? {
        return None;
      }
      oauthParameters := merged.value;
    }
    if urlParameters.Some? {
      var merged := AddEach(oauthParameters, urlParameters.value);
      if merged.None? {
        return None;
      }
      oauthParameters := merged.value;
    }
    var baseString := BaseString(httpMethod, url, oauthParameters);
    var compositeKey := SigningKey(apiSecret, accessTokenSecret);
    var signature := Signature(hmac, baseString, compositeKey);
    header := Some(HeaderValue(oauthParameters, signature));
  }

  /** One more addition: the run over the first i + 1 additions is the run over i, then one `Add`. */
  lemma AddAllStep(ps: Params, add: Params, i: nat, acc: Params)
    requires Sorted(ps) && Sorted(add) && i < |add|
    requires Sorted(add[..i]) && AddAll(ps, add[..i]) == Some(acc)
    ensures Sorted(add[..i + 1]) && Sorted(acc)
    ensures AddAll(ps, add[..i + 1]) == Insert(acc, add[i].0, add[i].1)
  {
    PrefixSorted(add, i + 1);
    var prefix := add[..i + 1];
    assert prefix[..i] == add[..i] && prefix[i] == add[i];
  }

  /** Once some prefix of the additions collides, the whole run collides. */
  lemma AddAllPrefixFails(ps: Params, add: Params, n: nat)
    requires Sorted(ps) && Sorted(add) && n <= |add|
    requires Sorted(add[..n]) && AddAll(ps, add[..n]).None?
    ensures AddAll(ps, add).None?
  {
    forall k | k in Keys(add[..n]) ensures k in Keys(add) {
      var i :| 0 <= i < n && add[..n][i].0 == k;
      assert add[i].0 == k;
    }
  }

  // ---------------------------------------------------------------------
  // What the merged dictionary holds

  /**
    A caller parameter can never replace a fixed one or another caller
    parameter: a shared key makes the whole signing fail.
   */
  lemma DuplicateKeyFails(apiKey: string, nonce: string, timestamp: string,
                          auth: Option<Params>, url: Option<Params>, k: string)
    requires SortedOrNull(auth) && SortedOrNull(url)
    requires (k in FixedKeys && k in KeysOf(auth)) || (k in FixedKeys && k in KeysOf(url))
          || (k in KeysOf(auth) && k in KeysOf(url))
    ensures MergedParameters(apiKey, nonce, timestamp, auth, url).None?
  {
  }

  /** Every fixed, auth and URL parameter is present in the merged dictionary with its own value. */
  lemma MergedHoldsEverything(apiKey: string, nonce: string, timestamp: string,
                              auth: Option<Params>, url: Option<Params>, ps: Params)
    requires SortedOrNull(auth) && SortedOrNull(url)
    requires MergedParameters(apiKey, nonce, timestamp, auth, url) == Some(ps)
    ensures Lookup(ps, "oauth_consumer_key") == Some(apiKey)
    ensures Lookup(ps, "oauth_nonce") == Some(nonce)
    ensures Lookup(ps, "oauth_signature_method") == Some("HMAC-SHA1")
    ensures Lookup(ps, "oauth_timestamp") == Some(timestamp)
    ensures Lookup(ps, "oauth_version") == Some("1.0")
    ensures forall k :: k in KeysOf(auth) ==> Lookup(ps, k) == Lookup(auth.GetOr([]), k)
    ensures forall k :: k in KeysOf(url) ==> Lookup(ps, k) == Lookup(url.GetOr([]), k)
  {
    var fixed := FixedParams(apiKey, nonce, timestamp);
    forall k | k in FixedKeys ensures Lookup(ps, k) == Lookup(fixed, k) {
    }
  }

  // ---------------------------------------------------------------------
  // Reading the strings back

  lemma EncodedPairSplits(p: (string, string))
    ensures '&' !in EncodedPair(p)
    ensures Split(EncodedPair(p), '=') == [Encode(p.0), Encode(p.1)]
  {
    EncodeHasNoSeparators(p.0);
    EncodeHasNoSeparators(p.1);
    assert EncodedPair(p) == Join([Encode(p.0), Encode(p.1)], "=");
    SplitJoin([Encode(p.0), Encode(p.1)], '=');
  }

  /**
    The parameter string holds one item per dictionary entry, in dictionary
    (ascending key) order, and each item reads back as the encoded key and
    the encoded value, which decode to the UTF-8 bytes of the originals.
   */
  lemma ParameterStringParts(ps: Params)
    requires ps != []
    ensures Split(ParameterString(ps), '&') == EncodedPairs(ps)
    ensures forall i :: 0 <= i < |ps| ==>
      Split(Split(ParameterString(ps), '&')[i], '=') == [Encode(ps[i].0), Encode(ps[i].1)]
    ensures forall i :: 0 <= i < |ps| ==>
      Unescape(Encode(ps[i].0)) == Some(Utf8Bytes(ps[i].0)) && Unescape(Encode(ps[i].1)) == Some(Utf8Bytes(ps[i].1))
  {
    var items := EncodedPairs(ps);
    forall i | 0 <= i < |items| ensures '&' !in items[i] {
      EncodedPairSplits(ps[i]);
    }
    SplitJoin(items, '&');
    forall i | 0 <= i < |ps|
      ensures Split(items[i], '=') == [Encode(ps[i].0), Encode(ps[i].1)]
      ensures Unescape(Encode(ps[i].0)) == Some(Utf8Bytes(ps[i].0)) && Unescape(Encode(ps[i].1)) == Some(Utf8Bytes(ps[i].1))
    {
      EncodedPairSplits(ps[i]);
      EncodeRoundTrip(ps[i].0);
      EncodeRoundTrip(ps[i].1);
    }
  }

  /**
    The order of the additions does not matter: two dictionaries with the
    same contents give the same parameter string and the same header.
   */
  lemma ContentsDetermineStrings(a: Params, b: Params, signature: string)
    requires Sorted(a) && Sorted(b)
    requires forall k :: Lookup(a, k) == Lookup(b, k)
    ensures ParameterString(a) == ParameterString(b)
    ensures HeaderValue(a, signature) == HeaderValue(b, signature)
  {
    SortedDetermined(a, b);
  }

  /**
    The base string has exactly three `&`-separated parts: the upper-cased
    method, the encoded URL and the encoded parameter string, which decodes
    back to the parameter string's bytes.
   */
  lemma BaseStringParts(httpMethod: string, url: string, ps: Params)
    requires '&' !in Upper(httpMethod)
    ensures Split(BaseString(httpMethod, url, ps), '&') == [Upper(httpMethod), Encode(url), Encode(ParameterString(ps))]
    ensures Unescape(Encode(url)) == Some(Utf8Bytes(url))
    ensures Unescape(Encode(ParameterString(ps))) == Some(Utf8Bytes(ParameterString(ps)))
  {
    var parts := [Upper(httpMethod), Encode(url), Encode(ParameterString(ps))];
    EncodeHasNoSeparators(url);
    EncodeHasNoSeparators(ParameterString(ps));
    JoinThree(Upper(httpMethod), Encode(url), Encode(ParameterString(ps)), "&");
    SplitJoin(parts, '&');
    EncodeRoundTrip(url);
    EncodeRoundTrip(ParameterString(ps));
  }

  /**
    The signing key always has its `&`, with the encoded consumer secret
    before it and the encoded token secret, or nothing, after it.
   */
  lemma SigningKeyParts(apiSecret: string, tokenSecret: Option<string>)
    ensures Split(SigningKey(apiSecret, tokenSecret), '&') == [Encode(apiSecret), Encode(tokenSecret.GetOr(""))]
    ensures tokenSecret.None? ==> SigningKey(apiSecret, tokenSecret) == Encode(apiSecret) + "&"
  {
    EncodeHasNoSeparators(apiSecret);
    EncodeHasNoSeparators(tokenSecret.GetOr(""));
    assert SigningKey(apiSecret, tokenSecret) == Join([Encode(apiSecret), Encode(tokenSecret.GetOr(""))], "&");
    SplitJoin([Encode(apiSecret), Encode(tokenSecret.GetOr(""))], '&');
    if tokenSecret.None? {
      assert Encode("") == "";
    }
  }

  lemma HeaderEntryHasNoComma(p: (string, string))
    ensures ',' !in HeaderEntry(p)
  {
    EncodeHasNoSeparators(p.0);
    EncodeHasNoSeparators(p.1);
  }

  /**
    The header lists the `oauth_` entries of the dictionary in its order,
    then exactly one signature entry, last.
   */
  lemma HeaderParts(ps: Params, signature: string)
    requires HeaderEntries(ps) != [] && ',' !in signature
    ensures Split(HeaderValue(ps, signature), ',') == HeaderEntries(ps) + [SignatureEntry(signature)]
  {
    var entries := HeaderEntries(ps);
    var all := entries + [SignatureEntry(signature)];
    JoinSnoc(entries, SignatureEntry(signature), ",");
    forall i | 0 <= i < |all| ensures ',' !in all[i] {
      if i < |entries| {
        HeaderEntryHasNoComma(OAuthOnly(ps)[i]);
      }
    }
    SplitJoin(all, ',');
  }

  /** A non-`oauth_` parameter is signed (it is in the parameter string) but has no header entry. */
  lemma NonOAuthNotEchoed(ps: Params, k: string)
    requires Sorted(ps) && k in Keys(ps) && !StartsWith(k, OAuthPrefix)
    ensures Lookup(ps, k).Some?
    ensures exists i :: 0 <= i < |ps| && EncodedPairs(ps)[i] == EncodedPair((k, Lookup(ps, k).value))
    ensures k !in Keys(OAuthOnly(ps))
  {
    var i :| 0 <= i < |ps| && ps[i].0 == k;
    LookupFound(ps, i);
    assert EncodedPairs(ps)[i] == EncodedPair((k, Lookup(ps, k).value));
    LookupKeys(OAuthOnly(ps), k);
  }

  /**
    The signed header: the `oauth_` entries of the merged dictionary, then a
    signature entry whose value is the HMAC of the base string under the
    signing key, percent-encoded exactly once.
   */
  lemma SignedHeaderShape(httpMethod: string, url: string, apiKey: string, apiSecret: string,
                          tokenSecret: Option<string>, auth: Option<Params>, urlParams: Option<Params>,
                          nonce: string, timestamp: string, hmac: Hmac, ps: Params)
    requires SortedOrNull(auth) && SortedOrNull(urlParams)
    requires MergedParameters(apiKey, nonce, timestamp, auth, urlParams) == Some(ps)
    ensures var digest := hmac(SigningKey(apiSecret, tokenSecret), BaseString(httpMethod, url, ps));
      SignedHeader(httpMethod, url, apiKey, apiSecret, tokenSecret, auth, urlParams, nonce, timestamp, hmac)
        == Some(Join(HeaderEntries(ps) + [SignatureEntry(Encode(digest))], ","))
      && Unescape(Encode(digest)) == Some(Utf8Bytes(digest))
      && FixedKeys <= Keys(OAuthOnly(ps))
  {
    var digest := hmac(SigningKey(apiSecret, tokenSecret), BaseString(httpMethod, url, ps));
    EncodeRoundTrip(digest);
    FixedInHeader(ps);
    JoinSnoc(HeaderEntries(ps), SignatureEntry(Encode(digest)), ",");
  }

  lemma FixedKeysAreOAuth()
    ensures forall k :: k in FixedKeys ==> StartsWith(k, OAuthPrefix)
  {
  }

  /** The five fixed parameters survive the `oauth_` filter, so the header always carries them. */
  lemma FixedInHeader(ps: Params)
    requires FixedKeys <= Keys(ps)
    ensures FixedKeys <= Keys(OAuthOnly(ps)) && HeaderEntries(ps) != []
  {
    var f := OAuthOnly(ps);
    FixedKeysAreOAuth();
    forall k | k in FixedKeys ensures k in Keys(f) {
      LookupKeys(ps, k);
      LookupKeys(f, k);
    }
    assert "oauth_nonce" in Keys(f);
  }

  /** Every `oauth_` parameter is one of the comma-separated items of the header, encoded. */
  lemma OAuthEntryInHeader(ps: Params, k: string, signature: string)
    requires FixedKeys <= Keys(ps) && ',' !in signature
    requires StartsWith(k, OAuthPrefix) && Lookup(ps, k).Some?
    ensures var parts := Split(HeaderValue(ps, signature), ',');
      HeaderEntry((k, Lookup(ps, k).value)) in parts && parts[|parts| - 1] == SignatureEntry(signature)
  {
    FixedInHeader(ps);
    HeaderParts(ps, signature);
    var f := OAuthOnly(ps);
    LookupIndex(f, k);
    var i :| 0 <= i < |f| && f[i] == (k, Lookup(ps, k).value);
    assert HeaderEntries(ps)[i] == HeaderEntry((k, Lookup(ps, k).value));
    assert Split(HeaderValue(ps, signature), ',')[i] == HeaderEntries(ps)[i];
  }
}
