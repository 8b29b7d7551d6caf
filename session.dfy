/**
 * The server process of server.js: the `connectedUsers` map, the sockets whose handlers
 * are registered, and the token file, updated in place by the socket handlers and the
 * HTTP routes. Each method is proved to perform the step `SessionModel` gives for it.
 */
module Session {
  import opened Wrappers
  import opened UserMap
  import opened TokenStore
  import opened Projections
  import SessionModel

  class Server {
    /** Sockets admitted by the `connection` handler and not yet disconnected. */
    var sockets: set<SocketId>
    /** `connectedUsers`, in insertion order. */
    var connectedUsers: seq<Entry>
    /** The contents of `token.json`. */
    var tokenFile: TokenFile

    function State(): SessionModel.State
      reads this
    {
      SessionModel.State(sockets, connectedUsers, tokenFile)
    }

    ghost predicate Valid()
      reads this
    {
      SessionModel.Valid(State())
    }

    /** Process start: nobody connected; `token.json` holds whatever a previous run left. */
    constructor (stored: TokenFile)
      ensures Valid() && State() == SessionModel.Init(stored)
    {
      sockets := {};
      connectedUsers := [];
      tokenFile := stored;
    }

    /** The `connection` handler: deny when two users are identified, else register the handlers. */
    method Connect(sid: SocketId) returns (admission: SessionModel.Admission)
      requires Valid()
      modifies this
      ensures Valid()
      ensures admission == SessionModel.Admit(old(State()))
      ensures State() == SessionModel.Connect(old(State()), sid)
    {
      if |connectedUsers| >= SessionModel.MaxUsers {
        admission := SessionModel.Denied("Maximum number of users reached.");
        return;
      }
      admission := SessionModel.Admitted;
      sockets := sockets + {sid};
    }

    /** `setBtnState`: sets every flag, then broadcasts. */
    method SetBtnState(state: bool) returns (updates: seq<Update>)
      requires DistinctKeys(connectedUsers)
      modifies this
      ensures connectedUsers == SetAll(old(connectedUsers), state)
      ensures sockets == old(sockets) && tokenFile == old(tokenFile)
      ensures updates == Broadcast(connectedUsers)
    {
      var i := 0;
      while i < |connectedUsers|
        invariant 0 <= i <= |connectedUsers| == |old(connectedUsers)|
        invariant DistinctKeys(connectedUsers)
        invariant forall j :: 0 <= j < i ==> connectedUsers[j] == WithFlag(old(connectedUsers)[j], state)
        invariant forall j :: i <= j < |connectedUsers| ==> connectedUsers[j] == old(connectedUsers)[j]
        invariant sockets == old(sockets) && tokenFile == old(tokenFile)
      {
        var entry := connectedUsers[i];
        SetFlagAt(connectedUsers, i, state);
        connectedUsers := Set(connectedUsers, entry.socketId, entry.user.(isBtnDisabled := state));
        i := i + 1;
      }
      updates := Broadcast(connectedUsers);
    }

    /** `switchBtnState`: negates every flag, then broadcasts. */
    method SwitchBtnState() returns (updates: seq<Update>)
      requires DistinctKeys(connectedUsers)
      modifies this
      ensures connectedUsers == SwitchAll(old(connectedUsers))
      ensures sockets == old(sockets) && tokenFile == old(tokenFile)
      ensures updates == Broadcast(connectedUsers)
    {
      var i := 0;
      while i < |connectedUsers|
        invariant 0 <= i <= |connectedUsers| == |old(connectedUsers)|
        invariant DistinctKeys(connectedUsers)
        invariant forall j :: 0 <= j < i ==>
          connectedUsers[j] == WithFlag(old(connectedUsers)[j], !old(connectedUsers)[j].user.isBtnDisabled)
        invariant forall j :: i <= j < |connectedUsers| ==> connectedUsers[j] == old(connectedUsers)[j]
        invariant sockets == old(sockets) && tokenFile == old(tokenFile)
      {
        var entry := connectedUsers[i];
        var flipped := entry.user.(isBtnDisabled := !entry.user.isBtnDisabled);
        SetFlagAt(connectedUsers, i, !entry.user.isBtnDisabled);
        connectedUsers := Set(connectedUsers, entry.socketId, flipped);
        i := i + 1;
      }
      updates := Broadcast(connectedUsers);
    }

    /** `POST /api/switchBtnState`. */
    method PostSwitchBtnState() returns (message: string, updates: seq<Update>)
      requires Valid()
      modifies this
      ensures Valid()
      ensures State() == SessionModel.SwitchBtnState(old(State()))
      ensures message == "Switched button states!" && updates == Broadcast(connectedUsers)
    {
      updates := SwitchBtnState();
      message := "Switched button states!";
    }

    /**
     * The `identify` handler of socket `sid`. A socket that was denied (or has gone) has no
     * handler, so its event changes nothing and sends nothing.
     */
    method Identify(sid: SocketId, id: UserId) returns (updates: seq<Update>)
      requires Valid()
      modifies this
      ensures Valid()
      ensures State() == SessionModel.Identify(old(State()), sid, id)
      ensures updates == if sid in old(sockets) then Broadcast(connectedUsers) else []
    {
      if sid !in sockets {
        return [];
      }
      if |connectedUsers| > 0 {
        var earlier := SetBtnState(false);
      }
      connectedUsers := Set(connectedUsers, sid, User(id, true));
      assert State() == SessionModel.Identify(old(State()), sid, id);
      updates := Broadcast(connectedUsers);
    }

    /**
     * The `disconnect` handler of socket `sid`: remove its entry, delete the token unless
     * the departing user holds it, disable a lone survivor, broadcast.
     */
    method Disconnect(sid: SocketId) returns (updates: seq<Update>)
      requires Valid()
      modifies this
      ensures Valid()
      ensures State() == SessionModel.Disconnect(old(State()), sid)
      ensures updates == if sid in old(sockets) then Broadcast(connectedUsers) else []
    {
      if sid !in sockets {
        return [];
      }
      var user := Get(connectedUsers, sid);
      ghost var departing := SessionModel.DepartingId(connectedUsers, sid);
      assert departing == if user.None? then None else Some(user.value.userId);
      SessionModel.DisconnectSpec(connectedUsers, sid);
      connectedUsers := Delete(connectedUsers, sid);
      sockets := sockets - {sid};
      if tokenFile.Stored? && (user.None? || tokenFile.token.user != user.value.userId) {
        tokenFile := Absent;
      }
      assert tokenFile == ClearIfNotHolder(old(tokenFile), departing);
      if |connectedUsers| <= 1 {
        var lone := SetBtnState(true);
      }
      assert State() == SessionModel.Disconnect(old(State()), sid);
      updates := Broadcast(connectedUsers);
    }

    /** `POST /api/token`. */
    method PostToken(body: Option<TokenBody>, writeFails: bool) returns (reply: Reply)
      requires Valid()
      modifies this
      ensures Valid()
      ensures State() == SessionModel.PostToken(old(State()), body, writeFails)
      ensures reply == Post(old(tokenFile), body, writeFails).reply
    {
      if body.None? || !Truthy(body.value.user) || !Truthy(body.value.browser) {
        return Reply(400, "Invalid token format");
      }
      if writeFails {
        return Reply(500, "Failed to write token");
      }
      tokenFile := Stored(Token(body.value.user.value, body.value.browser.value));
      reply := Reply(200, "Token written");
    }

    /** `GET /api/token`: the stored token, or 500 when there is none or it does not parse. */
    function GetToken(): (r: TokenReply)
      reads this
      ensures r.TokenOk? <==> tokenFile.Stored?
      ensures r.TokenOk? ==> r.token == tokenFile.token
      ensures r.TokenError? ==> r.status == 500
    {
      Read(tokenFile)
    }

    /** `GET /api/users`: one user id per identified socket, in map order. */
    function ApiUsers(): (r: seq<UserId>)
      reads this
      ensures |r| == |connectedUsers|
      ensures forall i :: 0 <= i < |connectedUsers| ==> r[i] == connectedUsers[i].user.userId
    {
      UserIds(connectedUsers)
    }

    /** `GET /api/data`: the socket's own flag, or 404 with `isDisabled: true` for an unknown socket. */
    function ApiData(socketId: Option<SocketId>): (r: DataReply)
      reads this
      requires Valid()
      ensures r.status == 200 <==> socketId.Some? && socketId.value in Keys(connectedUsers)
      ensures r.status != 200 ==> r == DataReply(404, true)
      ensures forall k :: 0 <= k < |connectedUsers| && socketId == Some(connectedUsers[k].socketId) ==>
        r.isDisabled == connectedUsers[k].user.isBtnDisabled
    {
      Data(connectedUsers, socketId)
    }

    /** The `userUpdate` events `broadcastUserList` would send now. */
    function BroadcastUserList(): (r: seq<Update>)
      reads this
      ensures |r| == |connectedUsers|
      ensures forall i :: 0 <= i < |r| ==>
        r[i].to == connectedUsers[i].socketId && r[i].usersOnline == ApiUsers() &&
        r[i].isDisabled == connectedUsers[i].user.isBtnDisabled
    {
      Broadcast(connectedUsers)
    }
  }
}
