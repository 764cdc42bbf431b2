/**
  `PostTweetRequest` and `PostTweetRequestMedia`: the body of a tweet post
  and its JSON shape. `text` is always written; `media` is left out of the
  JSON when it is null, and when present is an object whose only member is
  `media_ids`.
 */
module PostTweetRequests {
  import opened Wrappers
  import opened Json

  datatype PostTweetRequestMedia = PostTweetRequestMedia(mediaIds: seq<string>)

  datatype PostTweetRequest = PostTweetRequest(text: string, media: Option<PostTweetRequestMedia>)

  function MediaToJson(m: PostTweetRequestMedia): Json
  {
    JObject([("media_ids", JArray(Strings(m.mediaIds)))])
  }

  /** The serialised request: `text`, then `media` only when it is not null. */
  function ToJson(r: PostTweetRequest): Json
  {
    JObject([("text", JString(r.text))] + if r.media.None? then [] else [("media", MediaToJson(r.media.value))])
  }

  /** Reading a request body back; the partner of ToJson. */
  function FromJson(j: Json): (r: Option<PostTweetRequest>)
  {
    if !j.JObject? then None
    else
      var text := Member(j.members, "text");
      var media := Member(j.members, "media");
      if text.None? || !text.value.JString? then None
      else if media.None? then Some(PostTweetRequest(text.value.s, None))
      else if !media.value.JObject? then None
      else
        var ids := Member(media.value.members, "media_ids");
        if ids.None? || !ids.value.JArray? then None
        else
          match ReadStrings(ids.value.items)
          case None => None
          case Some(mediaIds) => Some(PostTweetRequest(text.value.s, Some(PostTweetRequestMedia(mediaIds))))
  }

  /** Serialising and reading back gives the request back: nothing is lost or reordered. */
  lemma JsonRoundTrip(r: PostTweetRequest)
    ensures FromJson(ToJson(r)) == Some(r)
  {
    var members := ToJson(r).members;
    assert members[0] == ("text", JString(r.text));
    assert Member(members, "text") == Some(JString(r.text));
    if r.media.Some? {
      var m := MediaToJson(r.media.value);
      StringsRoundTrip(r.media.value.mediaIds);
      assert members[1..] == [("media", m)];
      assert Member(members, "media") == Some(m);
      assert Member(m.members, "media_ids") == Some(JArray(Strings(r.media.value.mediaIds)));
    } else {
      assert members[1..] == [];
      assert Member(members, "media") == None;
    }
  }

  /** The `media` member is present exactly when the request has media, and is never null. */
  lemma MediaMemberPresence(r: PostTweetRequest)
    ensures Member(ToJson(r).members, "text") == Some(JString(r.text))
    ensures Member(ToJson(r).members, "media").Some? <==> r.media.Some?
    ensures r.media.Some? ==> Member(ToJson(r).members, "media") == Some(JObject([("media_ids", JArray(Strings(r.media.value.mediaIds)))]))
  {
  }

  /** The request `PostTweetAsync` builds: media only for a non-null, non-empty id list. */
  function TweetRequest(tweetText: string, mediaIds: Option<seq<string>>): (r: PostTweetRequest)
    ensures r.text == tweetText
    ensures r.media.Some? <==> mediaIds.Some? && |mediaIds.value| >= 1
    ensures r.media.Some? ==> r.media.value.mediaIds == mediaIds.value
  {
    PostTweetRequest(tweetText, if mediaIds.Some? && |mediaIds.value| >= 1 then Some(PostTweetRequestMedia(mediaIds.value)) else None)
  }

  /** A null or empty id list gives a body without `media`; `["42"]` gives `{"media":{"media_ids":["42"]}}`. */
  lemma TweetBodyExamples(text: string)
    ensures ToJson(TweetRequest(text, None)) == JObject([("text", JString(text))])
    ensures ToJson(TweetRequest(text, Some([]))) == JObject([("text", JString(text))])
    ensures ToJson(TweetRequest(text, Some(["42"]))) ==
      JObject([("text", JString(text)), ("media", JObject([("media_ids", JArray([JString("42")]))]))])
  {
    assert Strings(["42"]) == [JString("42")];
  }
}
