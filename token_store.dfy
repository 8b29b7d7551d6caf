/**
 * The turn token of server.js. The server keeps it in the file `token.json`; here the
 * file is a value: absent, holding text that does not parse as JSON, or holding a token.
 * A failed write is a parameter of the operation that performs it.
 */
module TokenStore {
  import opened Wrappers

  /** A token names the user who last passed the turn and the browser label it sent. */
  datatype Token = Token(user: string, browser: string)

  /** The request body of `POST /api/token`; a missing field is `None`. */
  datatype TokenBody = TokenBody(user: Option<string>, browser: Option<string>)

  /** The contents of `token.json`. */
  datatype TokenFile = Absent | Corrupt | Stored(token: Token)

  /** Status code and `message` of a JSON reply. */
  datatype Reply = Reply(status: nat, message: string)

  /** The file after `POST /api/token`, and the reply sent. */
  datatype PostResult = PostResult(file: TokenFile, reply: Reply)

  /** The reply of `GET /api/token`: the parsed token, or an error status and message. */
  datatype TokenReply = TokenOk(token: Token) | TokenError(status: nat, message: string)

  /** JavaScript truthiness of an optional string field: present and not empty. */
  predicate Truthy(field: Option<string>) {
    field.Some? && field.value != ""
  }

  /** The check `token && token.user && token.browser`. */
  predicate WellFormed(body: Option<TokenBody>) {
    body.Some? && Truthy(body.value.user) && Truthy(body.value.browser)
  }

  /** The token a well-formed body describes. */
  function TokenOf(body: Option<TokenBody>): Token
    requires WellFormed(body)
  {
    Token(body.value.user.value, body.value.browser.value)
  }

  /**
   * `POST /api/token`: a malformed body is refused with 400 and a failed write with 500,
   * both leaving the file as it was; otherwise the file is overwritten, whatever it held.
   */
  function Post(file: TokenFile, body: Option<TokenBody>, writeFails: bool): (r: PostResult)
    ensures r.reply.status == 400 <==>
      body.None? || body.value.user in {None, Some("")} || body.value.browser in {None, Some("")}
    ensures r.reply.status == 500 <==> WellFormed(body) && writeFails
    ensures r.reply.status in {200, 400, 500}
    ensures r.reply.status != 200 ==> r.file == file
    ensures r.reply.status == 200 ==>
      r.file.Stored? && r.file.token.user == body.value.user.value && r.file.token.browser == body.value.browser.value
  {
    if !WellFormed(body) then PostResult(file, Reply(400, "Invalid token format"))
    else if writeFails then PostResult(file, Reply(500, "Failed to write token"))
    else PostResult(Stored(TokenOf(body)), Reply(200, "Token written"))
  }

  /** `GET /api/token`: the stored token, or 500 when the file is missing or does not parse. */
  function Read(file: TokenFile): (r: TokenReply)
    ensures r.TokenOk? <==> file.Stored?
    ensures r.TokenOk? ==> r.token == file.token
    ensures r.TokenError? ==> r.status == 500
    ensures file.Absent? ==> r.TokenError? && r.message == "Failed to read token"
    ensures file.Corrupt? ==> r.TokenError? && r.message == "Invalid token format"
  {
    match file
    case Absent => TokenError(500, "Failed to read token")
    case Corrupt => TokenError(500, "Invalid token format")
    case Stored(t) => TokenOk(t)
  }

  /**
   * The token rule of the `disconnect` handler. `departing` is the user id of the socket
   * that left, `None` when it never identified (`user?.userId` is then undefined).
   * The token is deleted exactly when one is stored and its `user` is not the departing id;
   * a file that does not parse is left in place.
   */
  function ClearIfNotHolder(file: TokenFile, departing: Option<string>): (r: TokenFile)
    ensures r == file || r == Absent
    ensures r != file <==> file.Stored? && departing != Some(file.token.user)
  {
    if file.Stored? && departing != Some(file.token.user) then Absent else file
  }

  /** A successful write of a well-formed token is what the next read returns. */
  lemma PutThenGet(file: TokenFile, body: Option<TokenBody>)
    requires WellFormed(body)
    ensures Read(Post(file, body, false).file) == TokenOk(TokenOf(body))
  {
  }

  /** Refused and failed writes are invisible to the next read. */
  lemma FailedPutKeepsToken(file: TokenFile, body: Option<TokenBody>, writeFails: bool)
    requires !WellFormed(body) || writeFails
    ensures Read(Post(file, body, writeFails).file) == Read(file)
  {
  }

  /** Two successful writes in a row: the second one is what a read returns. */
  lemma LastWriterWins(file: TokenFile, first: Option<TokenBody>, second: Option<TokenBody>)
    requires WellFormed(first) && WellFormed(second)
    ensures Read(Post(Post(file, first, false).file, second, false).file) == TokenOk(TokenOf(second))
  {
  }

  /** Put T, then T's holder disconnects: a read still returns T. */
  lemma HolderLeavesTokenKept(file: TokenFile, body: Option<TokenBody>)
    requires WellFormed(body)
    ensures Read(ClearIfNotHolder(Post(file, body, false).file, Some(TokenOf(body).user))) == TokenOk(TokenOf(body))
  {
  }

  /** Put T, then any socket not identified as T's holder disconnects: the token is gone. */
  lemma OtherLeavesTokenCleared(file: TokenFile, body: Option<TokenBody>, departing: Option<string>)
    requires WellFormed(body) && departing != Some(TokenOf(body).user)
    ensures ClearIfNotHolder(Post(file, body, false).file, departing) == Absent
    ensures Read(ClearIfNotHolder(Post(file, body, false).file, departing)).TokenError?
  {
  }
}
