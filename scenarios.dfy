/**
 * Concrete runs of the session protocol, and what they show about the rules of server.js:
 * the admission cap, the flags after each `identify` and `disconnect`, and which departure
 * clears the turn token.
 */
module Scenarios {
  import opened Wrappers
  import opened UserMap
  import opened TokenStore
  import opened SessionModel

  /** Sockets "A" and "B" connect, then identify as "alice" and "bob", in that order. */
  function Seated(stored: TokenFile): State {
    var s1 := Connect(Init(stored), "A");
    var s2 := Connect(s1, "B");
    var s3 := Identify(s2, "A", "alice");
    Identify(s3, "B", "bob")
  }

  /**
   * After both identify, alice (who was alone) is enabled, while bob, the newcomer, is
   * stored disabled: `identify` only clears the flags of entries already present.
   */
  lemma SeatedFlags(stored: TokenFile)
    ensures Seated(stored) == State({"A", "B"}, [Entry("A", User("alice", false)), Entry("B", User("bob", true))], stored)
  {
    var s2 := Connect(Connect(Init(stored), "A"), "B");
    assert s2 == State({"A", "B"}, [], stored);
    var s3 := Identify(s2, "A", "alice");
    assert s3.users == [Entry("A", User("alice", true))];
    assert SetAll(s3.users, false) == [Entry("A", User("alice", false))];
    assert "B"[0] != "A"[0];
    assert Keys([Entry("A", User("alice", false))]) == ["A"];
    SetNew([Entry("A", User("alice", false))], "B", User("bob", true));
  }

  /** With two identified users a third connection is denied and changes nothing. */
  lemma ThirdConnectionDenied(stored: TokenFile, sid: SocketId)
    ensures Admit(Seated(stored)) == Denied("Maximum number of users reached.")
    ensures Connect(Seated(stored), sid) == Seated(stored)
  {
    SeatedFlags(stored);
  }

  /** The token alice writes when she passes the turn. */
  function AliceBody(): Option<TokenBody> {
    Some(TokenBody(Some("alice"), Some("X")))
  }

  /**
   * alice passes the turn, then bob (not the holder) disconnects: the token is deleted,
   * and alice, now alone, is disabled.
   */
  lemma NonHolderLeaves(stored: TokenFile)
    ensures var s := PostToken(Seated(stored), AliceBody(), false);
      Read(s.token) == TokenOk(Token("alice", "X")) &&
      Disconnect(s, "B") == State({"A"}, [Entry("A", User("alice", true))], Absent)
  {
    SeatedFlags(stored);
    var s := PostToken(Seated(stored), AliceBody(), false);
    assert s.users == [Entry("A", User("alice", false)), Entry("B", User("bob", true))];
    assert DepartingId(s.users, "B") == Some("bob");
    assert Delete(s.users, "B") == [Entry("A", User("alice", false))];
    assert SetAll([Entry("A", User("alice", false))], true) == [Entry("A", User("alice", true))];
  }

  /**
   * alice passes the turn, then alice herself (the holder) disconnects: the token stays,
   * and bob, now alone, is disabled.
   */
  lemma HolderLeaves(stored: TokenFile)
    ensures var s := PostToken(Seated(stored), AliceBody(), false);
      Disconnect(s, "A") == State({"B"}, [Entry("B", User("bob", true))], Stored(Token("alice", "X")))
  {
    SeatedFlags(stored);
    var s := PostToken(Seated(stored), AliceBody(), false);
    assert DepartingId(s.users, "A") == Some("alice");
    assert Delete(s.users, "A") == [Entry("B", User("bob", true))];
    assert SetAll([Entry("B", User("bob", true))], true) == [Entry("B", User("bob", true))];
  }

  /**
   * The cap is checked on connection, against identified sockets only, and `identify`
   * does not check it again: three sockets that all connect before any of them identifies
   * end up as three entries of the map.
   */
  lemma MapExceedsCap(stored: TokenFile)
    ensures var s3 := Connect(Connect(Connect(Init(stored), "A"), "B"), "C");
      |Identify(Identify(Identify(s3, "A", "a"), "B", "b"), "C", "c").users| == 3
  {
    var s3 := Connect(Connect(Connect(Init(stored), "A"), "B"), "C");
    assert s3 == State({"A", "B", "C"}, [], stored);
    var s4 := Identify(s3, "A", "a");
    assert s4.users == [Entry("A", User("a", true))];
    var s5 := Identify(s4, "B", "b");
    assert SetAll(s4.users, false) == [Entry("A", User("a", false))];
    assert "B"[0] != "A"[0];
    assert Keys([Entry("A", User("a", false))]) == ["A"];
    SetNew([Entry("A", User("a", false))], "B", User("b", true));
    assert s5.users == [Entry("A", User("a", false)), Entry("B", User("b", true))];
    var flagged := [Entry("A", User("a", false)), Entry("B", User("b", false))];
    assert SetAll(s5.users, false) == flagged;
    assert "C"[0] != "A"[0] && "C"[0] != "B"[0];
    assert Keys(flagged) == ["A", "B"];
    SetNew(flagged, "C", User("c", true));
  }

  /**
   * A socket that was admitted but never identified has no user id, which no stored token
   * matches: its departure deletes any stored token, and otherwise only applies the
   * lone-survivor rule to the map.
   */
  lemma UnidentifiedDepartureClearsToken(st: State, sid: SocketId)
    requires Valid(st) && sid in st.sockets && sid !in Keys(st.users) && st.token.Stored?
    ensures Disconnect(st, sid).token == Absent
    ensures Disconnect(st, sid).users == if |st.users| <= 1 then SetAll(st.users, true) else st.users
  {
    DeleteSpec(st.users, sid);
  }
}
