/**
 * The whole server state of server.js as a value, and each socket event and request
 * handler as a function from state to state. The class `Session.Server` implements these
 * step by step; here they are stated once, and the properties of the protocol are proved
 * about them.
 */
module SessionModel {
  import opened Wrappers
  import opened UserMap
  import opened TokenStore

  /**
   * `sockets`: the connections whose `identify` and `disconnect` handlers are registered
   * (admitted and not yet disconnected); `users`: the `connectedUsers` map;
   * `token`: the contents of `token.json`.
   */
  datatype State = State(sockets: set<SocketId>, users: seq<Entry>, token: TokenFile)

  /** The map is a map, and only sockets with live handlers are in it. */
  ghost predicate Valid(st: State) {
    && DistinctKeys(st.users)
    && forall i :: 0 <= i < |st.users| ==> st.users[i].socketId in st.sockets
  }

  /** A freshly started process: no connections, and whatever `token.json` holds on disk. */
  function Init(stored: TokenFile): (st: State)
    ensures Valid(st) && st.users == [] && st.token == stored
  {
    State({}, [], stored)
  }

  /** The admission bound of the `connection` handler. */
  const MaxUsers: nat := 2

  datatype Admission = Admitted | Denied(reason: string)

  /** The answer to a new connection. Only identified sockets are in the map, so only they count. */
  function Admit(st: State): (a: Admission)
    ensures a.Denied? <==> |st.users| >= 2
    ensures a.Denied? ==> a.reason == "Maximum number of users reached."
  {
    if |st.users| >= MaxUsers then Denied("Maximum number of users reached.") else Admitted
  }

  /** The `connection` handler: an admitted socket gets its handlers; a denied one is closed. */
  function Connect(st: State, sid: SocketId): (r: State)
    ensures |st.users| >= 2 ==> r == st
    ensures |st.users| < 2 ==> r == State(st.sockets + {sid}, st.users, st.token)
  {
    if Admit(st).Denied? then st else st.(sockets := st.sockets + {sid})
  }

  /** The admission decision and the step agree, and the step keeps the state invariant. */
  lemma AdmissionRule(st: State, sid: SocketId)
    requires Valid(st)
    ensures Valid(Connect(st, sid))
    ensures Admit(st).Denied? ==> Connect(st, sid) == st
    ensures Admit(st).Admitted? ==> sid in Connect(st, sid).sockets && Connect(st, sid).users == st.users
  {
  }

  /** The map part of the `identify` handler: `setBtnState(false)` if the map is not empty, then `set`. */
  function IdentifyUsers(es: seq<Entry>, sid: SocketId, id: UserId): (r: seq<Entry>)
    ensures |es| <= |r| <= |es| + 1
    ensures Entry(sid, User(id, true)) in r
  {
    var flagged := if |es| > 0 then SetAll(es, false) else es;
    Set(flagged, sid, User(id, true))
  }

  /**
   * After `identify`, `sid` holds `{userId: id, isBtnDisabled: true}`; every other entry
   * keeps its key, user id and position and has its flag cleared; the map grows by one
   * entry, at the end, exactly when `sid` was not in it.
   */
  lemma IdentifySpec(es: seq<Entry>, sid: SocketId, id: UserId)
    requires DistinctKeys(es)
    ensures DistinctKeys(IdentifyUsers(es, sid, id))
    ensures Get(IdentifyUsers(es, sid, id), sid) == Some(User(id, true))
    ensures forall i :: 0 <= i < |es| && es[i].socketId != sid ==>
      i < |IdentifyUsers(es, sid, id)| && IdentifyUsers(es, sid, id)[i] == WithFlag(es[i], false)
    ensures sid !in Keys(es) ==>
      |IdentifyUsers(es, sid, id)| == |es| + 1 && IdentifyUsers(es, sid, id)[|es|] == Entry(sid, User(id, true))
    ensures sid in Keys(es) ==> Keys(IdentifyUsers(es, sid, id)) == Keys(es)
  {
    if sid in Keys(es) {
      var k :| 0 <= k < |es| && Keys(es)[k] == sid;
      IdentifyKnownSpec(es, k, id);
    } else {
      IdentifyNewSpec(es, sid, id);
    }
  }

  lemma IdentifyKnownSpec(es: seq<Entry>, k: nat, id: UserId)
    requires DistinctKeys(es) && k < |es|
    ensures var r := IdentifyUsers(es, es[k].socketId, id);
      && DistinctKeys(r)
      && Get(r, es[k].socketId) == Some(User(id, true))
      && (forall i :: 0 <= i < |es| && es[i].socketId != es[k].socketId ==> i < |r| && r[i] == WithFlag(es[i], false))
      && Keys(r) == Keys(es)
  {
    var u := User(id, true);
    var flagged := SetAll(es, false);
    SetAllKeepsIdentities(es, false);
    IdentifyKnown(es, k, id);
    ReplaceKeepsDistinct(flagged, k, u);
    ReplaceKeepsKeys(flagged, k, u);
    GetAt(flagged[k := Entry(es[k].socketId, u)], k);
  }

  lemma ReplaceKeepsKeys(es: seq<Entry>, k: nat, u: User)
    requires k < |es|
    ensures Keys(es[k := Entry(es[k].socketId, u)]) == Keys(es)
  {
  }

  lemma GetAt(es: seq<Entry>, k: nat)
    requires DistinctKeys(es) && k < |es|
    ensures Get(es, es[k].socketId) == Some(es[k].user)
  {
  }

  lemma IdentifyNewSpec(es: seq<Entry>, sid: SocketId, id: UserId)
    requires DistinctKeys(es) && sid !in Keys(es)
    ensures var r := IdentifyUsers(es, sid, id);
      && DistinctKeys(r)
      && Get(r, sid) == Some(User(id, true))
      && (forall i :: 0 <= i < |es| ==> i < |r| && r[i] == WithFlag(es[i], false))
      && |r| == |es| + 1 && r[|es|] == Entry(sid, User(id, true))
  {
    var u := User(id, true);
    var flagged := SetAll(es, false);
    SetAllKeepsIdentities(es, false);
    IdentifyNew(es, sid, id);
    AppendKeepsDistinct(flagged, Entry(sid, u));
    var r := flagged + [Entry(sid, u)];
    assert r[|es|] == Entry(sid, u);
  }

  /** `identify` of a new socket: the old entries, disabled flags cleared, then the newcomer. */
  lemma IdentifyNew(es: seq<Entry>, sid: SocketId, id: UserId)
    requires sid !in Keys(es)
    ensures IdentifyUsers(es, sid, id) == SetAll(es, false) + [Entry(sid, User(id, true))]
  {
    SetAllKeepsIdentities(es, false);
    SetNew(SetAll(es, false), sid, User(id, true));
  }

  /** `identify` of the socket at index `k`: its entry is replaced where it stands, the others cleared. */
  lemma IdentifyKnown(es: seq<Entry>, k: nat, id: UserId)
    requires DistinctKeys(es) && k < |es|
    ensures IdentifyUsers(es, es[k].socketId, id) == SetAll(es, false)[k := Entry(es[k].socketId, User(id, true))]
  {
    var flagged := SetAll(es, false);
    assert forall j :: 0 <= j < |es| ==> flagged[j].socketId == es[j].socketId;
    SetFirst(flagged, k, User(id, true));
  }

  /** The `identify` handler of socket `sid`; a socket without handlers sends nothing. */
  function Identify(st: State, sid: SocketId, id: UserId): (r: State)
    requires Valid(st)
    ensures Valid(r)
  {
    if sid !in st.sockets then st
    else
      IdentifyKeepsValid(st, sid, id);
      st.(users := IdentifyUsers(st.users, sid, id))
  }

  lemma IdentifyKeepsValid(st: State, sid: SocketId, id: UserId)
    requires Valid(st) && sid in st.sockets
    ensures Valid(st.(users := IdentifyUsers(st.users, sid, id)))
  {
    var es, r := st.users, IdentifyUsers(st.users, sid, id);
    IdentifySpec(es, sid, id);
    forall i | 0 <= i < |r| ensures r[i].socketId in st.sockets {
      if i < |es| && es[i].socketId != sid {
        assert r[i] == WithFlag(es[i], false);
      } else if sid !in Keys(es) {
        assert i == |es|;
      } else {
        assert Keys(r)[i] in Keys(es);
        var j :| 0 <= j < |es| && Keys(es)[j] == Keys(r)[i];
        assert es[j].socketId in st.sockets;
      }
    }
  }

  /** The map part of the `disconnect` handler: `delete`, then `setBtnState(true)` if at most one entry is left. */
  function DisconnectUsers(es: seq<Entry>, sid: SocketId): (r: seq<Entry>)
    ensures |es| - 1 <= |r| <= |es|
    ensures |r| <= 1 ==> forall i :: 0 <= i < |r| ==> r[i].user.isBtnDisabled
  {
    var rest := Delete(es, sid);
    if |rest| <= 1 then SetAll(rest, true) else rest
  }

  /**
   * After `disconnect`, `sid` is gone and every other entry keeps its key, user id and
   * position; a lone survivor is disabled, and with two or more left no flag changes.
   */
  lemma DisconnectSpec(es: seq<Entry>, sid: SocketId)
    requires DistinctKeys(es)
    ensures DistinctKeys(DisconnectUsers(es, sid))
    ensures sid !in Keys(DisconnectUsers(es, sid))
    ensures forall e :: e in DisconnectUsers(es, sid) ==> e.socketId in Keys(es)
    ensures sid !in Keys(es) ==>
      Keys(DisconnectUsers(es, sid)) == Keys(es) && UserIds(DisconnectUsers(es, sid)) == UserIds(es)
    ensures forall k :: 0 <= k < |es| && es[k].socketId == sid ==>
      Keys(DisconnectUsers(es, sid)) == Keys(es[..k] + es[k + 1..]) &&
      UserIds(DisconnectUsers(es, sid)) == UserIds(es[..k] + es[k + 1..])
    ensures |DisconnectUsers(es, sid)| <= 1 ==>
      forall i :: 0 <= i < |DisconnectUsers(es, sid)| ==> DisconnectUsers(es, sid)[i].user.isBtnDisabled
    ensures |DisconnectUsers(es, sid)| >= 2 ==> DisconnectUsers(es, sid) == Delete(es, sid)
  {
    DeleteSpec(es, sid);
    var rest := Delete(es, sid);
    SetAllKeepsIdentities(rest, true);
    forall e | e in DisconnectUsers(es, sid) ensures e.socketId in Keys(es) {
      var i :| 0 <= i < |DisconnectUsers(es, sid)| && DisconnectUsers(es, sid)[i] == e;
      assert e.socketId == rest[i].socketId;
      assert rest[i] in es;
      var j :| 0 <= j < |es| && es[j] == rest[i];
      assert Keys(es)[j] == e.socketId;
    }
  }

  /** The user id `user?.userId` of the departing socket, `None` when it never identified. */
  function DepartingId(es: seq<Entry>, sid: SocketId): (r: Option<UserId>)
    requires DistinctKeys(es)
    ensures r.None? <==> sid !in Keys(es)
    ensures forall k :: 0 <= k < |es| && es[k].socketId == sid ==> r == Some(es[k].user.userId)
  {
    match Get(es, sid)
    case None => None
    case Some(u) => Some(u.userId)
  }

  /** The `disconnect` handler of socket `sid`, the token check included. */
  function Disconnect(st: State, sid: SocketId): (r: State)
    requires Valid(st)
    ensures Valid(r)
  {
    if sid !in st.sockets then st
    else
      DisconnectKeepsValid(st, sid);
      State(st.sockets - {sid}, DisconnectUsers(st.users, sid), ClearIfNotHolder(st.token, DepartingId(st.users, sid)))
  }

  lemma DisconnectKeepsValid(st: State, sid: SocketId)
    requires Valid(st)
    ensures Valid(State(st.sockets - {sid}, DisconnectUsers(st.users, sid), st.token))
  {
    var rest := Delete(st.users, sid);
    DeleteSpec(st.users, sid);
    assert forall i :: 0 <= i < |rest| ==> rest[i].socketId in st.sockets - {sid} by {
      forall i | 0 <= i < |rest| ensures rest[i].socketId in st.sockets - {sid} {
        assert rest[i] in rest;
        assert Keys(rest)[i] == rest[i].socketId;
      }
    }
    KeysInAfterSetAll(rest, true, st.sockets - {sid});
  }

  lemma KeysInAfterSetAll(es: seq<Entry>, flag: bool, live: set<SocketId>)
    requires DistinctKeys(es)
    requires forall i :: 0 <= i < |es| ==> es[i].socketId in live
    ensures DistinctKeys(SetAll(es, flag))
    ensures forall i :: 0 <= i < |es| ==> SetAll(es, flag)[i].socketId in live
  {
    SetAllKeepsIdentities(es, flag);
  }

  /** `POST /api/switchBtnState`. */
  function SwitchBtnState(st: State): (r: State)
    requires Valid(st)
    ensures Valid(r)
  {
    SwitchAllKeepsIdentities(st.users);
    st.(users := SwitchAll(st.users))
  }

  /** The state after `POST /api/token`. */
  function PostToken(st: State, body: Option<TokenBody>, writeFails: bool): (r: State)
    requires Valid(st)
    ensures Valid(r)
  {
    st.(token := Post(st.token, body, writeFails).file)
  }
}
