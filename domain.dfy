/**
  The domain records the client returns: the uploaded media, the user, the
  `data` envelope of API v2 responses and the account credentials.
 */
module Domain {
  import opened Wrappers

  /** `XMedia`. */
  datatype Media = Media(mediaId: int, mediaIdString: string, expiresAfterSecs: int, mediaKey: string)

  /** `XUser`: `Name` is read from the `username` member. */
  datatype User = User(id: string, name: string, profileImageUrl: Option<string>)

  /** `XData<T>`: the `data` member, which a response may leave null. */
  datatype Envelope<T> = Envelope(data: Option<T>)

  /** `XAccountCredentials(id, name, accessToken, accessTokenSecret)`. */
  datatype AccountCredentials = AccountCredentials(id: string, name: string, accessToken: string, accessTokenSecret: string)
}
