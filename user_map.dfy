/**
 * The `connectedUsers` map of server.js: socket id -> { userId, isBtnDisabled }.
 * A JavaScript Map keeps its keys in insertion order, and `set` on a key that is
 * already present replaces the value where it stands, so the map is modelled as a
 * sequence of entries whose socket ids are pairwise distinct.
 */
module UserMap {
  import opened Wrappers

  type SocketId = string
  type UserId = string

  /** What the server keeps for one identified socket. */
  datatype User = User(userId: UserId, isBtnDisabled: bool)

  /** One key/value pair of the map. */
  datatype Entry = Entry(socketId: SocketId, user: User)

  /** The entry with its button flag replaced, as `{ ...user, isBtnDisabled: flag }` does. */
  function WithFlag(e: Entry, flag: bool): Entry {
    e.(user := e.user.(isBtnDisabled := flag))
  }

  /** A map holds each key at most once. */
  ghost predicate DistinctKeys(es: seq<Entry>) {
    forall i, j :: 0 <= i < j < |es| ==> es[i].socketId != es[j].socketId
  }

  /** The keys, in insertion order (`connectedUsers.keys()`). */
  function Keys(es: seq<Entry>): (r: seq<SocketId>)
    ensures |r| == |es|
    ensures forall i :: 0 <= i < |es| ==> r[i] == es[i].socketId
  {
    if es == [] then [] else [es[0].socketId] + Keys(es[1..])
  }

  /** The user ids, in insertion order (`values().map(user => user.userId)`). */
  function UserIds(es: seq<Entry>): (r: seq<UserId>)
    ensures |r| == |es|
    ensures forall i :: 0 <= i < |es| ==> r[i] == es[i].user.userId
  {
    if es == [] then [] else [es[0].user.userId] + UserIds(es[1..])
  }

  lemma DistinctTail(es: seq<Entry>)
    requires es != [] && DistinctKeys(es)
    ensures DistinctKeys(es[1..]) && es[0].socketId !in Keys(es[1..])
  {
  }

  /** `Map.get`: the value stored under `sid`, if any. */
  function Get(es: seq<Entry>, sid: SocketId): (r: Option<User>)
    requires DistinctKeys(es)
    ensures r.None? <==> sid !in Keys(es)
    ensures forall k :: 0 <= k < |es| && es[k].socketId == sid ==> r == Some(es[k].user)
  {
    if es == [] then None
    else
      DistinctTail(es);
      if es[0].socketId == sid then Some(es[0].user)
      else
        var r := Get(es[1..], sid);
        assert forall k :: 1 <= k < |es| ==> es[k] == es[1..][k - 1];
        r
  }

  /**
   * `Map.set`: a key already present keeps its position and gets the new value;
   * a new key is appended at the end.
   */
  function Set(es: seq<Entry>, sid: SocketId, u: User): (r: seq<Entry>)
    ensures |es| <= |r| <= |es| + 1
    ensures Entry(sid, u) in r
  {
    if es == [] then [Entry(sid, u)]
    else if es[0].socketId == sid then [Entry(sid, u)] + es[1..]
    else [es[0]] + Set(es[1..], sid, u)
  }

  /** `Set` on a key the map lacks appends one entry. */
  lemma {:induction false} SetNew(es: seq<Entry>, sid: SocketId, u: User)
    requires sid !in Keys(es)
    ensures Set(es, sid, u) == es + [Entry(sid, u)]
  {
    if es != [] {
      var t := es[1..];
      assert sid != Keys(es)[0];
      assert sid !in Keys(t) by {
        assert forall j :: 0 <= j < |t| ==> Keys(t)[j] == Keys(es)[j + 1];
      }
      SetNew(t, sid, u);
      assert es == [es[0]] + t;
    }
  }

  /** `Set` replaces the first entry under its key, at index `k`, and nothing else. */
  lemma {:induction false} SetFirst(es: seq<Entry>, k: nat, u: User)
    requires k < |es|
    requires forall j :: 0 <= j < k ==> es[j].socketId != es[k].socketId
    ensures Set(es, es[k].socketId, u) == es[k := Entry(es[k].socketId, u)]
  {
    if k > 0 {
      var t := es[1..];
      assert t[k - 1] == es[k];
      assert forall j :: 0 <= j < k - 1 ==> t[j] == es[j + 1];
      SetFirst(t, k - 1, u);
      assert es[k := Entry(es[k].socketId, u)] == [es[0]] + t[k - 1 := Entry(es[k].socketId, u)];
    }
  }

  lemma AppendKeepsDistinct(es: seq<Entry>, e: Entry)
    requires DistinctKeys(es) && e.socketId !in Keys(es)
    ensures DistinctKeys(es + [e]) && e.socketId in Keys(es + [e])
  {
    assert Keys(es + [e])[|es|] == e.socketId;
  }

  lemma ReplaceKeepsDistinct(es: seq<Entry>, k: nat, u: User)
    requires DistinctKeys(es) && k < |es|
    ensures DistinctKeys(es[k := Entry(es[k].socketId, u)])
    ensures es[k].socketId in Keys(es[k := Entry(es[k].socketId, u)])
  {
    assert Keys(es[k := Entry(es[k].socketId, u)])[k] == es[k].socketId;
  }

  /** The whole contract of `Set` on a map: the result is again a map and holds `sid`. */
  lemma SetSpec(es: seq<Entry>, sid: SocketId, u: User)
    requires DistinctKeys(es)
    ensures DistinctKeys(Set(es, sid, u))
    ensures sid in Keys(Set(es, sid, u))
    ensures sid !in Keys(es) ==> Set(es, sid, u) == es + [Entry(sid, u)]
    ensures forall k :: 0 <= k < |es| && es[k].socketId == sid ==> Set(es, sid, u) == es[k := Entry(sid, u)]
  {
    if sid in Keys(es) {
      var k :| 0 <= k < |es| && Keys(es)[k] == sid;
      SetFirst(es, k, u);
      ReplaceKeepsDistinct(es, k, u);
    } else {
      SetNew(es, sid, u);
      AppendKeepsDistinct(es, Entry(sid, u));
    }
  }

  /** `Set` of a new flag under the key at index `i`: the single-entry update of the flag loops. */
  lemma SetFlagAt(es: seq<Entry>, i: nat, flag: bool)
    requires DistinctKeys(es) && i < |es|
    ensures Set(es, es[i].socketId, es[i].user.(isBtnDisabled := flag)) == es[i := WithFlag(es[i], flag)]
    ensures DistinctKeys(es[i := WithFlag(es[i], flag)])
  {
    SetFirst(es, i, es[i].user.(isBtnDisabled := flag));
    ReplaceKeepsDistinct(es, i, es[i].user.(isBtnDisabled := flag));
  }

  /** `Map.delete`: the entry under `sid`, if any, is removed; the others keep their order. */
  function Delete(es: seq<Entry>, sid: SocketId): (r: seq<Entry>)
    ensures |es| - 1 <= |r| <= |es|
  {
    if es == [] then []
    else if es[0].socketId == sid then es[1..]
    else [es[0]] + Delete(es[1..], sid)
  }

  /** `Delete` of a key the map lacks changes nothing. */
  lemma {:induction false} DeleteMissing(es: seq<Entry>, sid: SocketId)
    requires sid !in Keys(es)
    ensures Delete(es, sid) == es
  {
    if es != [] {
      assert sid != Keys(es)[0];
      assert sid !in Keys(es[1..]) by {
        assert forall j :: 0 <= j < |es| - 1 ==> Keys(es[1..])[j] == Keys(es)[j + 1];
      }
      DeleteMissing(es[1..], sid);
      assert es == [es[0]] + es[1..];
    }
  }

  /** `Delete` of the first entry under its key, at index `k`, cuts exactly that entry out. */
  lemma {:induction false} DeleteFirst(es: seq<Entry>, k: nat)
    requires k < |es|
    requires forall j :: 0 <= j < k ==> es[j].socketId != es[k].socketId
    ensures Delete(es, es[k].socketId) == es[..k] + es[k + 1..]
  {
    if k > 0 {
      var t := es[1..];
      assert es[0].socketId != es[k].socketId;
      assert t[k - 1] == es[k];
      assert forall j :: 0 <= j < k - 1 ==> t[j] == es[j + 1];
      DeleteFirst(t, k - 1);
      CutAfterHead(es, k);
    }
  }

  /** Cutting index `k > 0` out of a sequence keeps its head in front. */
  lemma CutAfterHead(es: seq<Entry>, k: nat)
    requires 0 < k < |es|
    ensures es[..k] + es[k + 1..] == [es[0]] + (es[1..][..k - 1] + es[1..][k..])
  {
    assert es[..k] == [es[0]] + es[1..][..k - 1];
    assert es[k + 1..] == es[1..][k..];
  }

  /** Cutting one entry out of a map leaves a map without that key. */
  lemma CutKeepsDistinct(es: seq<Entry>, k: nat)
    requires DistinctKeys(es) && k < |es|
    ensures DistinctKeys(es[..k] + es[k + 1..])
    ensures es[k].socketId !in Keys(es[..k] + es[k + 1..])
    ensures forall e :: e in es[..k] + es[k + 1..] ==> e in es && e.socketId != es[k].socketId
  {
    var r := es[..k] + es[k + 1..];
    assert forall i :: 0 <= i < |r| ==> r[i] == es[if i < k then i else i + 1];
  }

  /** `Delete` of the key at index `k` of a map. */
  lemma DeleteAt(es: seq<Entry>, k: nat)
    requires DistinctKeys(es) && k < |es|
    ensures DistinctKeys(Delete(es, es[k].socketId))
    ensures es[k].socketId !in Keys(Delete(es, es[k].socketId))
    ensures forall e :: e in Delete(es, es[k].socketId) ==> e in es && e.socketId != es[k].socketId
    ensures forall k' :: 0 <= k' < |es| && es[k'].socketId == es[k].socketId ==> k' == k
    ensures Delete(es, es[k].socketId) == es[..k] + es[k + 1..]
  {
    DeleteFirst(es, k);
    CutKeepsDistinct(es, k);
  }

  /** The whole contract of `Delete` on a map. */
  lemma DeleteSpec(es: seq<Entry>, sid: SocketId)
    requires DistinctKeys(es)
    ensures DistinctKeys(Delete(es, sid))
    ensures sid !in Keys(Delete(es, sid))
    ensures forall e :: e in Delete(es, sid) ==> e in es && e.socketId != sid
    ensures sid !in Keys(es) ==> Delete(es, sid) == es
    ensures forall k :: 0 <= k < |es| && es[k].socketId == sid ==> Delete(es, sid) == es[..k] + es[k + 1..]
  {
    if sid in Keys(es) {
      var k :| 0 <= k < |es| && Keys(es)[k] == sid;
      DeleteAt(es, k);
    } else {
      DeleteMissing(es, sid);
    }
  }

  /** Every entry with its flag set to `flag` (the loop of `setBtnState`). */
  function SetAll(es: seq<Entry>, flag: bool): (r: seq<Entry>)
    ensures |r| == |es|
    ensures forall i :: 0 <= i < |es| ==> r[i] == WithFlag(es[i], flag)
  {
    if es == [] then [] else [WithFlag(es[0], flag)] + SetAll(es[1..], flag)
  }

  /** Every entry with its flag negated (the loop of `switchBtnState`). */
  function SwitchAll(es: seq<Entry>): (r: seq<Entry>)
    ensures |r| == |es|
    ensures forall i :: 0 <= i < |es| ==> r[i] == WithFlag(es[i], !es[i].user.isBtnDisabled)
  {
    if es == [] then [] else [WithFlag(es[0], !es[0].user.isBtnDisabled)] + SwitchAll(es[1..])
  }

  /** Rewriting the flags keeps the keys, their order and the user ids. */
  lemma SetAllKeepsIdentities(es: seq<Entry>, flag: bool)
    ensures Keys(SetAll(es, flag)) == Keys(es)
    ensures UserIds(SetAll(es, flag)) == UserIds(es)
    ensures forall i :: 0 <= i < |es| ==> SetAll(es, flag)[i].user.isBtnDisabled == flag
    ensures DistinctKeys(es) ==> DistinctKeys(SetAll(es, flag))
  {
  }

  /** Setting every flag to the same value twice is the same as doing it once. */
  lemma SetAllIdempotent(es: seq<Entry>, flag: bool)
    ensures SetAll(SetAll(es, flag), flag) == SetAll(es, flag)
  {
  }

  /** The last bulk assignment is the only one that matters. */
  lemma SetAllOverrides(es: seq<Entry>, first: bool, second: bool)
    ensures SetAll(SetAll(es, first), second) == SetAll(es, second)
  {
  }

  lemma SwitchAllKeepsIdentities(es: seq<Entry>)
    ensures Keys(SwitchAll(es)) == Keys(es)
    ensures UserIds(SwitchAll(es)) == UserIds(es)
    ensures DistinctKeys(es) ==> DistinctKeys(SwitchAll(es))
  {
  }

  /** Negating every flag twice restores the map. */
  lemma SwitchAllInvolutive(es: seq<Entry>)
    ensures SwitchAll(SwitchAll(es)) == es
  {
  }

}
