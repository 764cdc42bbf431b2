/**
  `XClient.UploadMediaAsync`: the chunked media upload.

  The media is fetched from its URI with the client that carries no
  Authorization header; its Content-Length is checked; then the upload is
  initialised (INIT), the media stream is sent in chunks of at most 1 MiB
  (APPEND, numbered from 0), and the upload is finalised (FINALIZE). The
  first failure ends the operation.

  `Fetch` is what the GET of the media URI yields: the exception it threw,
  or the Content-Length header and the successive results of `ReadAsync` on
  the body stream. `UploadFlow` is the whole operation as a value: the calls
  it makes, in order, and its outcome; `UploadMedia` is the method that
  makes them, with `AppendSegments` as its loop.
 */
module MediaUpload {
  import opened Wrappers
  import opened Strings
  import opened SortedParams
  import opened OAuthHeader
  import opened Errors
  import opened Results
  import opened HttpRequestHelper
  import opened Domain
  import opened XClient
  import opened PercentEncoding

  const UploadMediaUri := "https://upload.x.com/1.1/media/upload.json"
  const MaxMediaBytes := 300_000_000
  const BufferSize := 1024 * 1024

  const FetchFailedMessage := "Failed to fetch media"
  const NoLengthMessage := "Media length not found in response. Ensure media uri returns a content-length header."
  const NoLengthClientMessage := "Failed to obtain media size"
  const BadLengthMessage := "Media file is empty or larger than 300MB"
  const UploadFailedMessage := "Failed to upload media to X"

  /** `PostMediaTypes.Image` and `PostMediaTypes.Video`, whose values are not part of this model. */
  datatype MediaTypes = MediaTypes(image: string, video: string)

  /** The media category for a media type; None for any other type. */
  function MediaCategory(mediaType: string, types: MediaTypes): (c: Option<string>)
    ensures c.Some? <==> mediaType == types.image || mediaType == types.video
    ensures mediaType == types.image ==> c == Some("tweet_image")
    ensures mediaType != types.image && mediaType == types.video ==> c == Some("tweet_video")
  {
    if mediaType == types.image then Some("tweet_image")
    else if mediaType == types.video then Some("tweet_video")
    else None
  }

  /** The outcome of GET on the media URI (its status code is not looked at). */
  datatype Fetch =
    | FetchFailed(exceptionMessage: string)
    | Fetched(contentLength: Option<nat>, readResults: seq<seq<Byte>>)

  /** One outgoing call: the media fetch, or a signed API request. */
  datatype Call = FetchMedia(uri: string) | Api(request: ApiRequest)

  /** Who answers the upload calls: INIT and FINALIZE return the media, APPEND a raw body. */
  datatype UploadServer = UploadServer(media: ApiRequest -> Reply<Media>, append: ApiRequest -> Reply<string>)

  /** The size check on the fetched media: the length to upload, or the error returned. */
  function FetchCheck(fetch: Fetch): (v: Verdict<nat>)
    ensures v.Delivered? ==> fetch.Fetched? && fetch.contentLength == Some(v.value)
  {
    match fetch
    case FetchFailed(exceptionMessage) =>
      Rejected(PlainState(exceptionMessage).(clientMessage := Some(FetchFailedMessage)))
    case Fetched(contentLength, _) =>
      if contentLength.None? then Rejected(ArgumentState(NoLengthMessage).(clientMessage := Some(NoLengthClientMessage)))
      else if contentLength.value == 0 || contentLength.value > MaxMediaBytes then Rejected(ArgumentState(BadLengthMessage))
      else Delivered(contentLength.value)
  }

  /** Only a length from 1 byte to 300 000 000 bytes passes; both limits are inclusive. */
  lemma FetchCheckBounds(length: nat, readResults: seq<seq<Byte>>)
    ensures FetchCheck(Fetched(Some(length), readResults)).Delivered? <==> 1 <= length <= 300_000_000
    ensures FetchCheck(Fetched(Some(300_000_000), readResults)) == Delivered(300_000_000)
    ensures FetchCheck(Fetched(Some(0), readResults)) == Rejected(ArgumentState(BadLengthMessage))
    ensures FetchCheck(Fetched(Some(300_000_001), readResults)) == Rejected(ArgumentState(BadLengthMessage))
    ensures FetchCheck(Fetched(None, readResults)).error.kind == Argument
    ensures FetchCheck(Fetched(None, readResults)).error.clientMessage == Some(NoLengthClientMessage)
  {
  }

  /** A key whose first character is not `o` is not an `oauth_` key. */
  lemma NotOAuthKey(k: string)
    requires k != [] && k[0] != 'o'
    ensures !StartsWith(k, OAuthPrefix)
  {
    assert OAuthPrefix[0] == 'o';
  }

  /** A list with ascending keys, none of them beginning with `o`, is a query the client may sign. */
  lemma SignableList(q: Params)
    requires forall i :: 0 <= i < |q| - 1 ==> Less(q[i].0, q[i + 1].0)
    requires forall i :: 0 <= i < |q| ==> q[i].0 != [] && q[i].0[0] != 'o'
    ensures Signable(Some(q))
  {
    SortedByNeighbours(q);
    forall k | k in KeysOf(Some(q)) ensures !StartsWith(k, OAuthPrefix) {
      var i :| 0 <= i < |q| && q[i].0 == k;
      NotOAuthKey(k);
    }
  }

  /** The INIT query; `media_type` is the literal `media`, whatever the media type. */
  function InitQuery(category: string, totalBytes: nat): (q: Params)
    ensures Signable(Some(q))
  {
    var q := [("command", "INIT"), ("media_category", category), ("media_type", "media"),
              ("total_bytes", NatToString(totalBytes))];
    assert Less("media_category", "media_type") by {
      LessSharedPrefix("media_", "category", "type");
      assert "media_category" == "media_" + "category" && "media_type" == "media_" + "type";
    }
    assert Less("command", "media_category") && Less("media_type", "total_bytes");
    SignableList(q);
    q
  }

  /** The APPEND query of segment `segmentIndex`, numbered in decimal. */
  function AppendQuery(mediaId: string, segmentIndex: nat): (q: Params)
    ensures Signable(Some(q))
  {
    var q := [("command", "APPEND"), ("media_id", mediaId), ("segment_index", NatToString(segmentIndex))];
    assert Less("command", "media_id") && Less("media_id", "segment_index");
    SignableList(q);
    q
  }

  /** The FINALIZE query. */
  function FinalizeQuery(mediaId: string): (q: Params)
    ensures Signable(Some(q))
  {
    var q := [("command", "FINALIZE"), ("media_id", mediaId)];
    assert Less("command", "media_id");
    SignableList(q);
    q
  }

  /**
    APPEND carries exactly its command, the media id and the segment
    number, which reads back as the number it was sent for.
   */
  lemma AppendQuerySegment(mediaId: string, segmentIndex: nat)
    ensures Lookup(AppendQuery(mediaId, segmentIndex), "segment_index") == Some(NatToString(segmentIndex))
    ensures Lookup(AppendQuery(mediaId, segmentIndex), "media_id") == Some(mediaId)
    ensures DigitsValue(NatToString(segmentIndex)) == segmentIndex
    ensures Lookup(AppendQuery(mediaId, segmentIndex), "command") == Some("APPEND")
    ensures Keys(AppendQuery(mediaId, segmentIndex)) == {"command", "media_id", "segment_index"}
  {
    var q := AppendQuery(mediaId, segmentIndex);
    assert Keys(q) == {q[0].0, q[1].0, q[2].0};
    LookupFound(q, 0);
    LookupFound(q, 1);
    LookupFound(q, 2);
    DecimalRoundTrip(segmentIndex);
  }

  /**
    INIT carries exactly its command, the literal media type `media`, the
    category, and the total size in decimal, which reads back as the size.
   */
  lemma InitQueryContents(category: string, totalBytes: nat)
    ensures Keys(InitQuery(category, totalBytes)) == {"command", "media_category", "media_type", "total_bytes"}
    ensures Lookup(InitQuery(category, totalBytes), "command") == Some("INIT")
    ensures Lookup(InitQuery(category, totalBytes), "media_type") == Some("media")
    ensures Lookup(InitQuery(category, totalBytes), "media_category") == Some(category)
    ensures Lookup(InitQuery(category, totalBytes), "total_bytes") == Some(NatToString(totalBytes))
    ensures DigitsValue(NatToString(totalBytes)) == totalBytes
  {
    var q := InitQuery(category, totalBytes);
    assert Keys(q) == {q[0].0, q[1].0, q[2].0, q[3].0};
    LookupFound(q, 0);
    LookupFound(q, 1);
    LookupFound(q, 2);
    LookupFound(q, 3);
    DecimalRoundTrip(totalBytes);
  }

  /** FINALIZE carries exactly its command and the media id. */
  lemma FinalizeQueryContents(mediaId: string)
    ensures Keys(FinalizeQuery(mediaId)) == {"command", "media_id"}
    ensures Lookup(FinalizeQuery(mediaId), "command") == Some("FINALIZE")
    ensures Lookup(FinalizeQuery(mediaId), "media_id") == Some(mediaId)
  {
    var q := FinalizeQuery(mediaId);
    assert Keys(q) == {q[0].0, q[1].0};
    LookupFound(q, 0);
    LookupFound(q, 1);
  }

  /** The three commands of the upload endpoint, each with what its query carries. */
  datatype Command =
    | InitCommand(category: string, totalBytes: nat)
    | AppendCommand(mediaId: string, segmentIndex: nat)
    | FinalizeCommand(mediaId: string)

  /** The query string of a command. */
  function CommandQuery(command: Command): (q: Params)
    ensures Signable(Some(q))
  {
    match command
    case InitCommand(category, totalBytes) => InitQuery(category, totalBytes)
    case AppendCommand(mediaId, segmentIndex) => AppendQuery(mediaId, segmentIndex)
    case FinalizeCommand(mediaId) => FinalizeQuery(mediaId)
  }

  /**
    How the operation turns its n-th call, a command and a content into the
    request it sends. `UploadSigner` is the one `XClient` uses; the shape of
    the operation holds for any signer that keeps the content.
   */
  type Signer = (nat, Command, Body) -> ApiRequest

  /** Every upload call is a POST to the upload endpoint signed with the access token. */
  function UploadSigner(keys: ApiKeys, signing: Signing): Signer
  {
    (call: nat, command: Command, content: Body) =>
      SignedRequest(keys, signing, call, Post, UploadMediaUri, Some(CommandQuery(command)), content)
  }

  /** A signer that sends the content it is given. */
  ghost predicate KeepsContent(sign: Signer)
  {
    forall call, command, content :: sign(call, command, content).body == content
  }

  /** The client's signer sends the content it is given. */
  lemma UploadSignerKeepsContent(keys: ApiKeys, signing: Signing)
    ensures KeepsContent(UploadSigner(keys, signing))
  {
  }

  /**
    `sign` builds the requests `XClient` sends to the upload endpoint. The
    trigger keeps the fact from being unfolded until a signed request is
    actually at hand.
   */
  ghost predicate SignsUploads(sign: Signer, keys: ApiKeys, signing: Signing)
  {
    forall call: nat, command: Command, content: Body
      {:trigger SignedRequest(keys, signing, call, Post, UploadMediaUri, Some(CommandQuery(command)), content)} ::
      sign(call, command, content) == SignedRequest(keys, signing, call, Post, UploadMediaUri, Some(CommandQuery(command)), content)
  }

  /** The client's signer is the one that signs uploads. */
  lemma UploadSignerSigns(keys: ApiKeys, signing: Signing)
    ensures SignsUploads(UploadSigner(keys, signing), keys, signing)
  {
  }

  /**
    Call n of an upload is a POST to the upload endpoint with the command's
    query on the URL, signed with nonce and timestamp number n.
   */
  lemma UploadSignerRequest(keys: ApiKeys, signing: Signing, call: nat, command: Command, content: Body)
    ensures var request := UploadSigner(keys, signing)(call, command, content);
      request.httpMethod == Post && request.body == content
      && request.uri == FinalUrl(UploadMediaUri, Some(CommandQuery(command)))
      && StartsWith(request.uri, UploadMediaUri + "?")
      && request.authorization
         == HeaderValue(SignedParams(keys, signing, call, Some(CommandQuery(command))),
                        Encode(signing.hmac(SigningKey(keys.apiSecret, Some(keys.accessTokenSecret)),
                                            BaseString("POST", UploadMediaUri,
                                                       SignedParams(keys, signing, call, Some(CommandQuery(command)))))))
  {
    FinalUrlQuery(UploadMediaUri, CommandQuery(command));
    RequestHeaderValue(keys, signing, call, Post, UploadMediaUri, Some(CommandQuery(command)));
  }

  /** The INIT request: call 0, no content. */
  function InitRequest(sign: Signer, category: string, totalBytes: nat): ApiRequest
  {
    sign(0, InitCommand(category, totalBytes), NoContent)
  }

  /** The APPEND request of segment k: call k + 1, one form part named `media` holding the bytes read. */
  function AppendRequest(sign: Signer, mediaId: string, k: nat, chunk: seq<Byte>): ApiRequest
  {
    sign(k + 1, AppendCommand(mediaId, k), Multipart("media", chunk))
  }

  /** The FINALIZE request after n segments: call n + 1, no content. */
  function FinalizeRequest(sign: Signer, mediaId: string, n: nat): ApiRequest
  {
    sign(n + 1, FinalizeCommand(mediaId), NoContent)
  }

  /** `ReadAsync` on the media stream for the i-th time: nothing once the stream is exhausted. */
  function ReadAt(readResults: seq<seq<Byte>>, i: nat): seq<Byte>
  {
    if i < |readResults| then readResults[i] else []
  }

  /** How many reads come before the first empty one. */
  function ChunkCount(readResults: seq<seq<Byte>>): (n: nat)
    ensures n <= |readResults|
  {
    if readResults == [] || readResults[0] == [] then 0 else 1 + ChunkCount(readResults[1..])
  }

  /** The chunks the loop sends: every read up to the first that returns no bytes. */
  function Chunks(readResults: seq<seq<Byte>>): seq<seq<Byte>>
  {
    readResults[..ChunkCount(readResults)]
  }

  /** The chunks are non-empty reads, and the read after them is empty or missing. */
  lemma {:induction false} ChunkCountSpec(readResults: seq<seq<Byte>>)
    ensures forall k :: 0 <= k < ChunkCount(readResults) ==> readResults[k] != []
    ensures ReadAt(readResults, ChunkCount(readResults)) == []
  {
    if readResults != [] && readResults[0] != [] {
      ChunkCountSpec(readResults[1..]);
      forall k | 0 <= k < ChunkCount(readResults) ensures readResults[k] != [] {
        if k > 0 {
          assert readResults[k] == readResults[1..][k - 1];
        }
      }
    }
  }

  /** The stream reads into a 1 MiB buffer, so every chunk holds from 1 to 1 048 576 bytes. */
  lemma ChunksBounded(readResults: seq<seq<Byte>>)
    requires forall i :: 0 <= i < |readResults| ==> |readResults[i]| <= BufferSize
    ensures forall k :: 0 <= k < |Chunks(readResults)| ==> 1 <= |Chunks(readResults)[k]| <= 1_048_576
  {
    ChunkCountSpec(readResults);
  }

  /** The bytes of a run of chunks, in order. */
  function Concat(chunks: seq<seq<Byte>>): seq<Byte>
  {
    if chunks == [] then [] else chunks[0] + Concat(chunks[1..])
  }

  /** The APPEND request of every chunk, in segment order. */
  function AppendRequests(sign: Signer, mediaId: string, chunks: seq<seq<Byte>>): (requests: seq<ApiRequest>)
    ensures |requests| == |chunks|
  {
    seq(|chunks|, k requires 0 <= k < |chunks| => AppendRequest(sign, mediaId, k, chunks[k]))
  }

  /** A signer that keeps the content sends chunk k as the body of APPEND k. */
  lemma AppendBodies(sign: Signer, mediaId: string, chunks: seq<seq<Byte>>)
    requires KeepsContent(sign)
    ensures forall k :: 0 <= k < |chunks| ==> AppendRequests(sign, mediaId, chunks)[k].body == Multipart("media", chunks[k])
  {
  }

  /**
    The APPEND calls from segment `k` on, and how the run ends: with the
    error of the first rejected APPEND, or with none once every chunk is
    sent.
   */
  function AppendRun(append: ApiRequest -> Reply<string>, requests: seq<ApiRequest>, k: nat): (run: (seq<Call>, Option<ErrorState>))
    requires k <= |requests|
    decreases |requests| - k
  {
    if k == |requests| then ([], None)
    else
      var verdict := Classify(append(requests[k]), ReadBody);
      if verdict.Rejected? then ([Api(requests[k])], Some(verdict.error))
      else
        var rest := AppendRun(append, requests, k + 1);
        ([Api(requests[k])] + rest.0, rest.1)
  }

  /** The whole operation: its calls in order and its outcome. */
  datatype UploadTrace = UploadTrace(calls: seq<Call>, outcome: Verdict<Media>)

  /** The operation for a signer: the media checks, INIT, the APPEND run, FINALIZE. */
  function UploadFlow(sign: Signer, server: UploadServer, mediaUri: string,
                      mediaType: string, types: MediaTypes, fetch: Fetch): UploadTrace
  {
    var category := MediaCategory(mediaType, types);
    if category.None? then UploadTrace([], Rejected(ArgumentState("Unsupported media type: " + mediaType)))
    else
      var length := FetchCheck(fetch);
      if length.Rejected? then UploadTrace([FetchMedia(mediaUri)], Rejected(length.error))
      else
        var init := InitRequest(sign, category.value, length.value);
        var initVerdict := Classify(server.media(init), AsJson);
        if initVerdict.Rejected? then UploadTrace([FetchMedia(mediaUri), Api(init)], Rejected(initVerdict.error))
        else
          var mediaId := initVerdict.value.mediaIdString;
          var chunks := Chunks(fetch.readResults);
          var run := AppendRun(server.append, AppendRequests(sign, mediaId, chunks), 0);
          var sent := [FetchMedia(mediaUri), Api(init)] + run.0;
          if run.1.Some? then UploadTrace(sent, Rejected(run.1.value.(clientMessage := Some(UploadFailedMessage))))
          else
            var finalize := FinalizeRequest(sign, mediaId, |chunks|);
            UploadTrace(sent + [Api(finalize)], Classify(server.media(finalize), AsJson))
  }

  /** One upload call: `SendHttpRequestAsync` with POST, the upload endpoint and the command's query. */
  method SendCommand<T>(keys: ApiKeys, signing: Signing, ghost sign: Signer, call: nat, command: Command, content: Body,
                        read: Reading<T>, transport: ApiRequest -> Reply<T>)
    returns (request: ApiRequest, r: Result<T>)
    requires SignsUploads(sign, keys, signing)
    ensures request == sign(call, command, content)
    ensures r.Success? <==> Classify(transport(request), read).Delivered?
    ensures r.Success? ==> r.value == Some(Classify(transport(request), read).value)
    ensures r.Fail? ==> fresh(r.error) && r.error.State() == Classify(transport(request), read).error
  {
    request, r := SendSigned(keys, signing, call, Post, UploadMediaUri, Some(CommandQuery(command)), content, read, transport);
  }

  /**
    The APPEND loop of `UploadMediaAsync`: reads the stream into the buffer
    and sends each non-empty read as the next segment, until a read returns
    nothing or an APPEND fails; a failure gets the client message "Failed
    to upload media to X". What it sends and how it ends is `AppendRun`.
   */
  method AppendSegments(keys: ApiKeys, signing: Signing, ghost sign: Signer, append: ApiRequest -> Reply<string>,
                        mediaId: string, readResults: seq<seq<Byte>>)
    returns (appended: seq<Call>, failure: Option<Error>)
    requires SignsUploads(sign, keys, signing)
    ensures var run := AppendRun(append, AppendRequests(sign, mediaId, Chunks(readResults)), 0);
      appended == run.0 && (failure.Some? <==> run.1.Some?)
      && (failure.Some? ==> failure.value.State() == run.1.value.(clientMessage := Some(UploadFailedMessage)))
  {
    ghost var chunks := Chunks(readResults);
    ghost var requests := AppendRequests(sign, mediaId, chunks);
    appended := [];
    assert appended + AppendRun(append, requests, 0).0 == AppendRun(append, requests, 0).0;
    ChunkCountSpec(readResults);
    var segmentIndex := 0;
    var bytesRead := ReadAt(readResults, segmentIndex);
    while |bytesRead| > 0
      invariant 0 <= segmentIndex <= |chunks|
      invariant bytesRead == ReadAt(readResults, segmentIndex)
      invariant AppendRun(append, requests, 0).0 == appended + AppendRun(append, requests, segmentIndex).0
      invariant AppendRun(append, requests, 0).1 == AppendRun(append, requests, segmentIndex).1
      decreases |readResults| - segmentIndex
    {
      assert segmentIndex < |chunks| && chunks[segmentIndex] == bytesRead;
      var request, appendResult := SendCommand(keys, signing, sign, segmentIndex + 1, AppendCommand(mediaId, segmentIndex),
                                               Multipart("media", bytesRead), ReadBody, append);
      assert request == requests[segmentIndex];
      if !appendResult.IsSuccess() {
        appended := appended + [Api(request)];
        var e := appendResult.error.SetClientMessage(UploadFailedMessage);
        return appended, Some(e);
      }
      ghost var rest := AppendRun(append, requests, segmentIndex + 1).0;
      assert appended + ([Api(request)] + rest) == (appended + [Api(request)]) + rest;
      appended := appended + [Api(request)];
      segmentIndex := segmentIndex + 1;
      bytesRead := ReadAt(readResults, segmentIndex);
    }
    assert segmentIndex == |chunks|;
    assert appended + [] == appended;
    failure := None;
  }

  /**
    The body of `UploadMediaAsync`, for any `sign` that builds the requests
    `XClient` sends: the calls it makes are those of `UploadFlow`, in that
    order, and its result is the outcome there.
   */
  method Upload(keys: ApiKeys, signing: Signing, ghost sign: Signer, server: UploadServer, mediaUri: string,
                     mediaType: string, types: MediaTypes, fetch: Fetch)
    returns (calls: seq<Call>, r: Result<Media>)
    requires SignsUploads(sign, keys, signing)
    ensures var t := UploadFlow(sign, server, mediaUri, mediaType, types, fetch);
      calls == t.calls
      && (r.Success? <==> t.outcome.Delivered?)
      && (r.Success? ==> r.value == Some(t.outcome.value))
      && (r.Fail? ==> r.error.State() == t.outcome.error)
  {
    var mediaCategory := MediaCategory(mediaType, types);
    if mediaCategory.None? {
      var e := new Error.Argument("Unsupported media type: " + mediaType);
      return [], Fail(e);
    }

    calls := [FetchMedia(mediaUri)];
    if fetch.FetchFailed? {
      var e := new Error.FromException(fetch.exceptionMessage);
      e := e.SetClientMessage(FetchFailedMessage);
      return calls, Fail(e);
    }
    if fetch.contentLength.None? {
      var e := new Error.Argument(NoLengthMessage);
      e := e.SetClientMessage(NoLengthClientMessage);
      return calls, Fail(e);
    }
    var mediaLength := fetch.contentLength.value;
    if mediaLength == 0 || mediaLength > MaxMediaBytes {
      var e := new Error.Argument(BadLengthMessage);
      return calls, Fail(e);
    }

    var request, initRequestResult := SendCommand(keys, signing, sign, 0, InitCommand(mediaCategory.value, mediaLength),
                                                  NoContent, AsJson, server.media);
    assert request == Init(sign, mediaType, types, fetch);
    calls := calls + [Api(request)];
    if !initRequestResult.IsSuccess() {
      return calls, FromError(initRequestResult.error);
    }

    var media := initRequestResult.Value().got;
    UploadingTrace(sign, server, mediaUri, mediaType, types, fetch);
    var appended, failure := AppendSegments(keys, signing, sign, server.append, media.mediaIdString, fetch.readResults);
    calls := calls + appended;
    if failure.Some? {
      return calls, Fail(failure.value);
    }

    var finalizeResult;
    request, finalizeResult := SendCommand(keys, signing, sign, |Chunks(fetch.readResults)| + 1,
                                           FinalizeCommand(media.mediaIdString), NoContent, AsJson, server.media);
    calls := calls + [Api(request)];
    if !finalizeResult.IsSuccess() {
      return calls, FromError(finalizeResult.error);
    }
    media := finalizeResult.Value().got;
    r := FromValue(Some(media));
  }

  /** `UploadMediaAsync` as `XClient` runs it, with the client's own signer. */
  method UploadMedia(keys: ApiKeys, signing: Signing, server: UploadServer, mediaUri: string,
                     mediaType: string, types: MediaTypes, fetch: Fetch)
    returns (calls: seq<Call>, r: Result<Media>)
    ensures var t := UploadFlow(UploadSigner(keys, signing), server, mediaUri, mediaType, types, fetch);
      calls == t.calls
      && (r.Success? <==> t.outcome.Delivered?)
      && (r.Success? ==> r.value == Some(t.outcome.value))
      && (r.Fail? ==> r.error.State() == t.outcome.error)
  {
    UploadSignerSigns(keys, signing);
    calls, r := Upload(keys, signing, UploadSigner(keys, signing), server, mediaUri, mediaType, types, fetch);
  }

  /** The calls for the requests from k to n - 1, in order. */
  function ApiCalls(requests: seq<ApiRequest>, k: nat, n: nat): (calls: seq<Call>)
    requires k <= n <= |requests|
    ensures |calls| == n - k
  {
    seq(n - k, i requires 0 <= i < n - k => Api(requests[k + i]))
  }

  /** When every APPEND from k on is accepted, all of them are sent, in segment order, and the run ends cleanly. */
  lemma {:induction false} AppendRunAccepted(append: ApiRequest -> Reply<string>, requests: seq<ApiRequest>, k: nat)
    requires k <= |requests|
    requires forall j :: k <= j < |requests| ==> Classify(append(requests[j]), ReadBody).Delivered?
    ensures AppendRun(append, requests, k) == (ApiCalls(requests, k, |requests|), None)
    decreases |requests| - k
  {
    if k < |requests| {
      AppendRunAccepted(append, requests, k + 1);
      assert [Api(requests[k])] + ApiCalls(requests, k + 1, |requests|) == ApiCalls(requests, k, |requests|);
    }
  }

  /**
    When segment f is the first rejected one from k on, the run sends the
    APPENDs from k to f and no more, and ends with the error of f.
   */
  lemma {:induction false} AppendRunRejected(append: ApiRequest -> Reply<string>, requests: seq<ApiRequest>, k: nat, f: nat)
    requires k <= f < |requests|
    requires forall j :: k <= j < f ==> Classify(append(requests[j]), ReadBody).Delivered?
    requires Classify(append(requests[f]), ReadBody).Rejected?
    ensures AppendRun(append, requests, k) == (ApiCalls(requests, k, f + 1), Some(Classify(append(requests[f]), ReadBody).error))
    decreases f - k
  {
    if k < f {
      AppendRunRejected(append, requests, k + 1, f);
      assert [Api(requests[k])] + ApiCalls(requests, k + 1, f + 1) == ApiCalls(requests, k, f + 1);
    } else {
      assert ApiCalls(requests, k, f + 1) == [Api(requests[f])];
    }
  }

  /** A run ends cleanly exactly when every APPEND is accepted. */
  lemma {:induction false} AppendRunClean(append: ApiRequest -> Reply<string>, requests: seq<ApiRequest>, k: nat)
    requires k <= |requests|
    ensures AppendRun(append, requests, k).1.None? <==> forall j :: k <= j < |requests| ==> Classify(append(requests[j]), ReadBody).Delivered?
    decreases |requests| - k
  {
    if k < |requests| {
      AppendRunClean(append, requests, k + 1);
    }
  }

  /**
    An APPEND reads its body as a stream, so it is accepted on any success
    status: a run ends cleanly exactly when every APPEND gets one.
   */
  lemma AppendRunCleanOnSuccessStatuses(append: ApiRequest -> Reply<string>, requests: seq<ApiRequest>, k: nat)
    requires k <= |requests|
    ensures AppendRun(append, requests, k).1.None? <==>
      forall j :: k <= j < |requests| ==> append(requests[j]).Answered? && IsSuccessStatusCode(append(requests[j]).statusCode)
  {
    AppendRunClean(append, requests, k);
    forall j | k <= j < |requests|
      ensures Classify(append(requests[j]), ReadBody).Delivered? <==>
        append(requests[j]).Answered? && IsSuccessStatusCode(append(requests[j]).statusCode)
    {
      StreamCallsDeliverBody(append(requests[j]));
    }
  }

  /** The bytes carried by the multipart bodies of a sequence of calls, in order. */
  function SentBytes(calls: seq<Call>): seq<Byte>
  {
    if calls == [] then []
    else
      var here := if calls[0].Api? && calls[0].request.body.Multipart? then calls[0].request.body.bytes else [];
      here + SentBytes(calls[1..])
  }

  lemma {:induction false} SentBytesAppend(a: seq<Call>, b: seq<Call>)
    ensures SentBytes(a + b) == SentBytes(a) + SentBytes(b)
  {
    if a != [] {
      assert (a + b)[1..] == a[1..] + b;
      SentBytesAppend(a[1..], b);
    } else {
      assert a + b == b;
    }
  }

  /** Calls without a multipart body carry no bytes. */
  lemma {:induction false} NoBytesSent(calls: seq<Call>)
    requires forall i :: 0 <= i < |calls| ==> !(calls[i].Api? && calls[i].request.body.Multipart?)
    ensures SentBytes(calls) == []
  {
    if calls != [] {
      NoBytesSent(calls[1..]);
    }
  }

  /** The fetch and a call without content carry no bytes. */
  lemma FetchAndBodilessCall(mediaUri: string, request: ApiRequest)
    requires request.body == NoContent
    ensures SentBytes([FetchMedia(mediaUri), Api(request)]) == []
    ensures SentBytes([Api(request)]) == []
  {
    NoBytesSent([FetchMedia(mediaUri), Api(request)]);
    NoBytesSent([Api(request)]);
  }

  /** Calls whose requests carry the chunks as their multipart bodies carry exactly the chunks' bytes. */
  lemma {:induction false} ApiCallsBytes(requests: seq<ApiRequest>, chunks: seq<seq<Byte>>, k: nat)
    requires |requests| == |chunks| && k <= |chunks|
    requires forall j :: 0 <= j < |chunks| ==> requests[j].body == Multipart("media", chunks[j])
    ensures SentBytes(ApiCalls(requests, k, |requests|)) == Concat(chunks[k..])
    decreases |chunks| - k
  {
    var calls := ApiCalls(requests, k, |requests|);
    if k < |chunks| {
      ApiCallsBytes(requests, chunks, k + 1);
      assert calls[1..] == ApiCalls(requests, k + 1, |requests|);
      assert chunks[k..][1..] == chunks[k + 1..];
    } else {
      assert calls == [];
    }
  }

  /** Whether the operation gets as far as the APPEND loop. */
  predicate Uploading(sign: Signer, server: UploadServer, mediaType: string, types: MediaTypes, fetch: Fetch)
  {
    MediaCategory(mediaType, types).Some? && FetchCheck(fetch).Delivered?
    && Classify(server.media(InitRequest(sign, MediaCategory(mediaType, types).value, FetchCheck(fetch).value)), AsJson).Delivered?
  }

  /** The INIT request of an operation that passes the media checks. */
  function Init(sign: Signer, mediaType: string, types: MediaTypes, fetch: Fetch): ApiRequest
    requires MediaCategory(mediaType, types).Some? && FetchCheck(fetch).Delivered?
  {
    InitRequest(sign, MediaCategory(mediaType, types).value, FetchCheck(fetch).value)
  }

  /** The media id INIT returned, which every APPEND and the FINALIZE carry. */
  function InitMediaId(sign: Signer, server: UploadServer, mediaType: string, types: MediaTypes, fetch: Fetch): string
    requires Uploading(sign, server, mediaType, types, fetch)
  {
    Classify(server.media(Init(sign, mediaType, types, fetch)), AsJson).value.mediaIdString
  }

  /** The APPEND requests of an operation that reaches the loop. */
  function Appends(sign: Signer, server: UploadServer, mediaType: string, types: MediaTypes, fetch: Fetch): (requests: seq<ApiRequest>)
    requires Uploading(sign, server, mediaType, types, fetch)
    ensures |requests| == |Chunks(fetch.readResults)|
  {
    AppendRequests(sign, InitMediaId(sign, server, mediaType, types, fetch), Chunks(fetch.readResults))
  }

  /** Past INIT the operation is the APPEND run, then FINALIZE when the run ends cleanly. */
  lemma UploadingTrace(sign: Signer, server: UploadServer, mediaUri: string,
                       mediaType: string, types: MediaTypes, fetch: Fetch)
    requires Uploading(sign, server, mediaType, types, fetch)
    ensures var sent := [FetchMedia(mediaUri), Api(Init(sign, mediaType, types, fetch))];
      var mediaId := InitMediaId(sign, server, mediaType, types, fetch);
      var run := AppendRun(server.append, AppendRequests(sign, mediaId, Chunks(fetch.readResults)), 0);
      var finalize := FinalizeRequest(sign, mediaId, |Chunks(fetch.readResults)|);
      UploadFlow(sign, server, mediaUri, mediaType, types, fetch)
      == if run.1.Some? then UploadTrace(sent + run.0, Rejected(run.1.value.(clientMessage := Some(UploadFailedMessage))))
         else UploadTrace(sent + run.0 + [Api(finalize)], Classify(server.media(finalize), AsJson))
  {
  }

  /** An unsupported media type is refused before any call, with an argument error. */
  lemma UnsupportedTypeCallsNothing(sign: Signer, server: UploadServer, mediaUri: string,
                                    mediaType: string, types: MediaTypes, fetch: Fetch)
    requires mediaType != types.image && mediaType != types.video
    ensures UploadFlow(sign, server, mediaUri, mediaType, types, fetch)
            == UploadTrace([], Rejected(ArgumentState("Unsupported media type: " + mediaType)))
  {
  }

  /** A failed fetch or a missing, empty or oversized length stops after the fetch: no API call is made. */
  lemma BadMediaCallsNoApi(sign: Signer, server: UploadServer, mediaUri: string,
                           mediaType: string, types: MediaTypes, fetch: Fetch)
    requires MediaCategory(mediaType, types).Some? && FetchCheck(fetch).Rejected?
    ensures UploadFlow(sign, server, mediaUri, mediaType, types, fetch)
            == UploadTrace([FetchMedia(mediaUri)], Rejected(FetchCheck(fetch).error))
  {
  }

  /** A rejected INIT ends the operation with its error; no media byte is sent. */
  lemma RejectedInitStops(sign: Signer, server: UploadServer, mediaUri: string,
                          mediaType: string, types: MediaTypes, fetch: Fetch)
    requires KeepsContent(sign)
    requires MediaCategory(mediaType, types).Some? && FetchCheck(fetch).Delivered?
    requires !Uploading(sign, server, mediaType, types, fetch)
    ensures var t := UploadFlow(sign, server, mediaUri, mediaType, types, fetch);
      t.calls == [FetchMedia(mediaUri), Api(Init(sign, mediaType, types, fetch))]
      && t.outcome == Rejected(Classify(server.media(Init(sign, mediaType, types, fetch)), AsJson).error)
      && SentBytes(t.calls) == []
  {
    FetchAndBodilessCall(mediaUri, Init(sign, mediaType, types, fetch));
  }

  /**
    When every APPEND is accepted: the fetch, INIT, one APPEND per chunk
    with segment numbers 0, 1, … in order, then FINALIZE as the last call;
    the bytes sent are the stream's bytes up to its end, and the result is
    the FINALIZE response.
   */
  lemma AllAppendsAccepted(sign: Signer, server: UploadServer, mediaUri: string,
                           mediaType: string, types: MediaTypes, fetch: Fetch)
    requires KeepsContent(sign)
    requires Uploading(sign, server, mediaType, types, fetch)
    requires var requests := Appends(sign, server, mediaType, types, fetch);
      forall j :: 0 <= j < |requests| ==> Classify(server.append(requests[j]), ReadBody).Delivered?
    ensures var t := UploadFlow(sign, server, mediaUri, mediaType, types, fetch);
      var requests := Appends(sign, server, mediaType, types, fetch);
      var chunks := Chunks(fetch.readResults);
      var finalize := FinalizeRequest(sign, InitMediaId(sign, server, mediaType, types, fetch), |chunks|);
      t.calls == [FetchMedia(mediaUri), Api(Init(sign, mediaType, types, fetch))]
                 + ApiCalls(requests, 0, |chunks|) + [Api(finalize)]
      && SentBytes(t.calls) == Concat(chunks)
      && t.outcome == Classify(server.media(finalize), AsJson)
  {
    var mediaId := InitMediaId(sign, server, mediaType, types, fetch);
    var requests := Appends(sign, server, mediaType, types, fetch);
    var chunks := Chunks(fetch.readResults);
    var init := Init(sign, mediaType, types, fetch);
    var finalize := FinalizeRequest(sign, mediaId, |chunks|);
    var appends := ApiCalls(requests, 0, |chunks|);
    AppendRunAccepted(server.append, requests, 0);
    AppendBodies(sign, mediaId, chunks);
    ApiCallsBytes(requests, chunks, 0);
    assert chunks[0..] == chunks;
    SentBytesAppend([FetchMedia(mediaUri), Api(init)] + appends, [Api(finalize)]);
    SentBytesAppend([FetchMedia(mediaUri), Api(init)], appends);
    FetchAndBodilessCall(mediaUri, init);
    FetchAndBodilessCall(mediaUri, finalize);
  }

  /**
    When the APPEND of segment f is the first rejected one: the fetch, INIT
    and the APPENDs of segments 0 to f, and nothing after, so no FINALIZE;
    the error is that of segment f with the client message "Failed to
    upload media to X".
   */
  lemma FirstRejectedAppendStops(sign: Signer, server: UploadServer, mediaUri: string,
                                 mediaType: string, types: MediaTypes, fetch: Fetch, f: nat)
    requires Uploading(sign, server, mediaType, types, fetch)
    requires var requests := Appends(sign, server, mediaType, types, fetch);
      f < |requests| && Classify(server.append(requests[f]), ReadBody).Rejected?
      && forall j :: 0 <= j < f ==> Classify(server.append(requests[j]), ReadBody).Delivered?
    ensures var t := UploadFlow(sign, server, mediaUri, mediaType, types, fetch);
      var requests := Appends(sign, server, mediaType, types, fetch);
      t.calls == [FetchMedia(mediaUri), Api(Init(sign, mediaType, types, fetch))] + ApiCalls(requests, 0, f + 1)
      && t.calls[|t.calls| - 1] == Api(requests[f])
      && t.outcome == Rejected(Classify(server.append(requests[f]), ReadBody).error.(clientMessage := Some(UploadFailedMessage)))
  {
    var requests := Appends(sign, server, mediaType, types, fetch);
    AppendRunRejected(server.append, requests, 0, f);
  }

  /** APPEND k is sent with segment number k, readable back as k, and the media id INIT returned. */
  lemma AppendRequestShape(keys: ApiKeys, signing: Signing, mediaId: string, chunks: seq<seq<Byte>>, k: nat)
    requires k < |chunks|
    ensures var request := AppendRequests(UploadSigner(keys, signing), mediaId, chunks)[k];
      request.httpMethod == Post && request.body == Multipart("media", chunks[k])
      && request.uri == FinalUrl(UploadMediaUri, Some(AppendQuery(mediaId, k)))
      && StartsWith(request.uri, UploadMediaUri + "?")
  {
    UploadSignerRequest(keys, signing, k + 1, AppendCommand(mediaId, k), Multipart("media", chunks[k]));
  }
}
