/**
 * What server.js sends about the user map without changing it: the `userUpdate`
 * payloads of `broadcastUserList`, and the replies of `GET /api/users` and `GET /api/data`.
 */
module Projections {
  import opened Wrappers
  import opened UserMap

  /** One `userUpdate` event: its recipient socket and its payload. */
  datatype Update = Update(to: SocketId, usersOnline: seq<UserId>, isDisabled: bool)

  /** The reply of `GET /api/data`: status and `isDisabled`. */
  datatype DataReply = DataReply(status: nat, isDisabled: bool)

  /** The events for `es`, each carrying the same list `online`. */
  function Notify(es: seq<Entry>, online: seq<UserId>): (r: seq<Update>)
    ensures |r| == |es|
    ensures forall i :: 0 <= i < |es| ==>
      r[i].to == es[i].socketId && r[i].usersOnline == online && r[i].isDisabled == es[i].user.isBtnDisabled
  {
    if es == [] then [] else [Update(es[0].socketId, online, es[0].user.isBtnDisabled)] + Notify(es[1..], online)
  }

  /**
   * `broadcastUserList`: one event per entry, in map order, to that entry's socket, with
   * every user id of the map and the recipient's own flag.
   */
  function Broadcast(es: seq<Entry>): (r: seq<Update>)
    ensures |r| == |es|
    ensures forall i :: 0 <= i < |es| ==>
      r[i].to == es[i].socketId && r[i].usersOnline == UserIds(es) && r[i].isDisabled == es[i].user.isBtnDisabled
  {
    Notify(es, UserIds(es))
  }

  /** `GET /api/data?socketId=…`: the socket's own flag, or 404 with `isDisabled: true`. */
  function Data(es: seq<Entry>, socketId: Option<SocketId>): (r: DataReply)
    requires DistinctKeys(es)
    ensures r.status == 200 <==> socketId.Some? && socketId.value in Keys(es)
    ensures r.status != 200 ==> r == DataReply(404, true)
    ensures forall k :: 0 <= k < |es| && socketId == Some(es[k].socketId) ==>
      r == DataReply(200, es[k].user.isBtnDisabled)
  {
    if socketId.None? then DataReply(404, true)
    else
      match Get(es, socketId.value)
      case None => DataReply(404, true)
      case Some(u) => DataReply(200, u.isBtnDisabled)
  }

  /**
   * The push path and the polling path agree: every broadcast recipient is an identified
   * socket, is told exactly what `/api/users` returns, and the flag `/api/data` reports for it.
   */
  lemma BroadcastAgreesWithPolling(es: seq<Entry>)
    requires DistinctKeys(es)
    ensures forall u :: u in Broadcast(es) ==>
      u.to in Keys(es) && u.usersOnline == UserIds(es) && Data(es, Some(u.to)) == DataReply(200, u.isDisabled)
  {
    forall u | u in Broadcast(es)
      ensures u.to in Keys(es) && u.usersOnline == UserIds(es) && Data(es, Some(u.to)) == DataReply(200, u.isDisabled)
    {
      var i :| 0 <= i < |Broadcast(es)| && Broadcast(es)[i] == u;
      assert Keys(es)[i] == u.to;
    }
  }

  /** No socket receives two events from one broadcast. */
  lemma BroadcastReachesEachSocketOnce(es: seq<Entry>)
    requires DistinctKeys(es)
    ensures forall i, j :: 0 <= i < j < |Broadcast(es)| ==> Broadcast(es)[i].to != Broadcast(es)[j].to
  {
  }
}
