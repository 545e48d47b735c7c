/** When each handler answers success, and exactly what has happened then. */
module ChatAnswers {
  import opened ByteStrings
  import opened ChatTypes
  import opened ChatModel
  import opened ChatInvariant
  import opened ChatHandlers
  import opened ChatRuns

  /** user_login succeeds exactly when the name is new or the password is the one stored when the
      account was made, the name is not online, and the id counter has not come round to 0. The
      session then has the counter's id, the name leads to it, and the account has that password. */
  lemma LoginSucceedsExactly(st: ChatState, s: Session)
    requires s in st.sessions
    ensures var rec := st.sessions[s]; var reply := LoginCommit(st, s);
            && (reply.ret == Success <==> Accepts(st, rec.username, rec.password) && st.nextId != 0)
            && (reply.ret == Success ==>
                  && SessionValid(reply.st, s, st.nextId)
                  && SessionGet(reply.st, rec.username) == Some(s)
                  && reply.st.creds == st.creds[rec.username := rec.password])
            && (reply.ret != Success ==> reply.ret == Failure && forall sid :: !SessionValid(reply.st, s, sid))
            && (forall t :: t in st.sessions && t != s ==> reply.st.sessions[t] == st.sessions[t])
  {
    LoginEffect(st, s);
  }

  /** What the server starts with: to the first client to come, any valid name and password are an account of its
      own, except that admin takes the one password; only admin administers; and there is the room general. */
  lemma SeededState(st: ChatState, general: Room, s: Session, u: Bytes, p: Bytes)
    requires InitState(st, general) && ValidUsername(u) && ValidPassword(p)
    ensures var read := LoginCreds(ClientInit(st, s), s, u, p, true); var reply := LoginCommit(read.st, s);
            && read.ret == Success
            && (reply.ret == Success <==> (u == Ascii("admin") ==> p == Ascii("password")))
            && (reply.ret == Success ==> reply.st.sessions[s].id == 1)
            && (IsAdmin(reply.st, s) <==> u == Ascii("admin"))
    ensures forall name :: FindRoom(st, st.store, name) == if name == Ascii("general") then Some(general) else None
  {
    hide ValidUsername, ValidPassword, Ascii;
    assert [general][1..] == [];
  }

  lemma NewIdIsFresh(w: World, s: Session, w': World)
    requires IdsInOrder(w) && s in w.st.sessions && w.granted + 1 < ID_LIMIT
    requires Accepts(w.st, w.st.sessions[s].username, w.st.sessions[s].password)
    requires w'.st == LoginCommit(w.st, s).st
    ensures s in w'.st.sessions && w'.st.sessions[s].id == w.granted + 1
    ensures forall t :: t in w.st.sessions ==> w.st.sessions[t].id < w'.st.sessions[s].id
  {
    LoginEffect(w.st, s);
  }

  lemma CommitStep(w: World, s: Session)
    requires Enabled(w, LoginCommitOp(s))
    requires Accepts(w.st, w.st.sessions[s].username, w.st.sessions[s].password)
    ensures s in w.st.sessions && Step(w, LoginCommitOp(s)).granted == w.granted + 1
    ensures Step(w, LoginCommitOp(s)).st == LoginCommit(w.st, s).st
  {
    hide LoginCommit, Accepts;
  }

  lemma ReachableIds(w: World, ops: seq<Op>, general: Room)
    requires Init(w, general) && Possible(w, ops) && After(w, ops).granted < ID_LIMIT
    ensures IdsInOrder(After(w, ops))
  {
    hide *;
    InitEstablishes(w, general);
    RunKeepsInv(w, ops);
    OpenWorld(After(w, ops));
  }

  /** In every reachable state an accepted login gets an id that is not 0 and above every id in use. */
  lemma NextIdIsFresh(w: World, ops: seq<Op>, general: Room, s: Session)
    requires Init(w, general) && Possible(w, ops) && Enabled(After(w, ops), LoginCommitOp(s))
    requires Step(After(w, ops), LoginCommitOp(s)).granted < ID_LIMIT
    requires var st := After(w, ops).st;
             s in st.sessions && Accepts(st, st.sessions[s].username, st.sessions[s].password)
    ensures var w1 := After(w, ops); var w2 := Step(w1, LoginCommitOp(s));
            && s in w2.st.sessions && w2.st.sessions[s].id == w1.granted + 1 == w2.granted
            && (forall t :: t in w1.st.sessions ==> w1.st.sessions[t].id < w2.st.sessions[s].id)
  {
    hide *;
    var w1 := After(w, ops);
    CommitStep(w1, s);
    ReachableIds(w, ops, general);
    NewIdIsFresh(w1, s, Step(w1, LoginCommitOp(s)));
  }

  /** A message reaches exactly the sender's room, the sender included, once each; it is refused exactly
      for a bad session or outside of a room, and then nobody gets anything. */
  lemma MsgSendExactly(st: ChatState, s: Session, sid: nat, msg: Bytes)
    requires Inv(st) && s in st.sessions
    ensures var reply := MsgSend(st, s, sid, msg);
            && reply.st == st
            && (reply.ret == Success <==> SessionValid(st, s, sid) && st.sessions[s].room.Some?)
            && (reply.ret != Success ==> reply.out == [])
            && (reply.ret == Success ==>
                  && Frame(s, MSG, msg) in reply.out
                  && (forall t :: t in st.sessions ==>
                        (Frame(t, MSG, msg) in reply.out <==> st.sessions[t].room == st.sessions[s].room))
                  && (forall i, j :: 0 <= i < j < |reply.out| ==> reply.out[i].to != reply.out[j].to))
  {
    if SessionValid(st, s, sid) && st.sessions[s].room.Some? {
      var r := st.sessions[s].room.value;
      MemberAfterMove(st, s, r);
      BroadcastReachesExactlyTheRoom(st, r, MSG, msg);
      hide Inv, Broadcast, IsMember;
      forall t | t in st.sessions && Frame(t, MSG, msg) in Broadcast(st, r, MSG, msg)
        ensures st.sessions[t].room == Some(r)
      {
        var out := Broadcast(st, r, MSG, msg);
        var i :| 0 <= i < |out| && out[i] == Frame(t, MSG, msg);
        assert out[i].to == t;
      }
    }
  }

  lemma {:induction false} RoomNamesListed(st: ChatState, s: Session, store: seq<Room>, name: Bytes)
    ensures Frame(s, LIST, name) in RoomNames(st, s, store)
            <==> exists r :: r in store && r in st.rooms && st.rooms[r].name == name
  {
    if store != [] {
      RoomNamesListed(st, s, store[1..], name);
      assert store == [store[0]] + store[1..];
    }
  }

  lemma {:induction false} UserNamesListed(st: ChatState, s: Session, ms: seq<Session>, name: Bytes)
    ensures Frame(s, LIST, name) in UserNames(st, s, ms)
            <==> exists t :: t in ms && t in st.sessions && st.sessions[t].username == name
  {
    if ms != [] {
      UserNamesListed(st, s, ms[1..], name);
      assert ms == [ms[0]] + ms[1..];
    }
  }

  /** A list changes nothing. The list of rooms has exactly the names of all rooms; that of users, for a
      sender in a room, exactly the names of the users in it. */
  lemma ListExactly(st: ChatState, s: Session, sid: nat, flag: Byte, name: Bytes)
    requires Inv(st) && s in st.sessions
    ensures var reply := List(st, s, sid, flag);
            && reply.st == st && reply.keep
            && (reply.ret == Success <==>
                  SessionValid(st, s, sid) && (flag == 0 || (flag == 1 && st.sessions[s].room.Some?)))
            && (reply.ret != Success ==> reply.out == [])
            && (reply.ret == Success && flag == 0 ==>
                  (Frame(s, LIST, name) in reply.out <==> exists r :: r in st.rooms && st.rooms[r].name == name))
            && (reply.ret == Success && flag == 1 ==>
                  (Frame(s, LIST, name) in reply.out <==>
                     exists t :: t in st.sessions && st.sessions[t].room == st.sessions[s].room
                                 && st.sessions[t].username == name))
  {
    Open(st);
    RoomNamesListed(st, s, st.store, name);
    if st.sessions[s].room.Some? {
      var r := st.sessions[s].room.value;
      UserNamesListed(st, s, Members(st, r), name);
      InRoomIsMember(st, s, r);
      MembersAreTheRoom(st, r);
    }
    hide RoomNames, UserNames, Inv, OnlineAgree, RoomUsers, UsersKnown, PrivateRooms;
  }

  /** A relay may start exactly when the sender is logged in, in a room, and the online target's
      permission names the sender. */
  lemma FileCheckExactly(st: ChatState, s: Session, sid: nat, username: Bytes)
    requires OnlineAgree(st) && s in st.sessions
    ensures FileCheck(st, s, sid, username) == Success <==>
            && SessionValid(st, s, sid) && st.sessions[s].room.Some?
            && username in st.online && st.sessions[st.online[username]].allow == st.sessions[s].username
    ensures FileCheck(st, s, sid, username) == Unallowed <==>
            && SessionValid(st, s, sid) && st.sessions[s].room.Some?
            && username in st.online && st.sessions[st.online[username]].allow != st.sessions[s].username
  {
  }

  /** Promotion succeeds exactly for a logged-in administrator and a name that is not one yet; it adds
      that name and nothing else, and only its owner is told. */
  lemma PromoteExactly(st: ChatState, s: Session, sid: nat, username: Bytes)
    requires s in st.sessions
    ensures var reply := Promote(st, s, sid, username);
            && (reply.ret == Success <==> SessionValid(st, s, sid) && IsAdmin(st, s) && username !in st.admins)
            && (reply.ret != Success ==> reply.st == st && reply.out == [])
            && (reply.ret == Unauthorized <==> SessionValid(st, s, sid) && !IsAdmin(st, s))
            && (reply.ret == Success ==>
                  && reply.st.admins == st.admins + {username} && reply.st == st.(admins := reply.st.admins)
                  && |reply.out| == (if username in st.online then 1 else 0)
                  && (forall f :: f in reply.out ==> f.to == st.online[username]))
  {
  }

  /** An administrator's disconnect succeeds exactly for a name that is online. The target is then
      offline and nothing refers to it; unless it was the administrator, its client is gone; nobody
      else's record changes. */
  lemma DisconnectExactly(st: ChatState, s: Session, sid: nat, username: Bytes)
    requires Inv(st) && s in st.sessions
    ensures var reply := Disconnect(st, s, sid, username);
            && (reply.ret == Success <==> SessionValid(st, s, sid) && IsAdmin(st, s) && username in st.online)
            && (reply.ret != Success ==> reply.st == st && reply.out == [] && reply.keep)
            && (reply.ret == Success ==>
                  var x := st.online[username];
                  && Inv(reply.st) && NoReference(reply.st, x) && username !in reply.st.online
                  && (x in reply.st.sessions <==> x == s) && (reply.keep <==> x != s)
                  && (forall t :: t in st.sessions && t != x ==>
                       t in reply.st.sessions && reply.st.sessions[t] == st.sessions[t]))
  {
    Open(st);
    if SessionValid(st, s, sid) && IsAdmin(st, s) && username in st.online {
      var x := st.online[username];
      DisconnectState(st, s, sid, username, x);
      hide Disconnect, DisconnectTarget, SessionValid, IsAdmin, Inv, OnlineAgree, RoomsAgree, RoomUsers, UsersKnown;
      hide StoreGood, PrivateRooms, NoReference, UserLogout, ClientFree;
      DisconnectedGone(st, x, x == s);
    }
  }

  lemma DisconnectState(st: ChatState, s: Session, sid: nat, username: Bytes, x: Session)
    requires OnlineAgree(st) && s in st.sessions && SessionValid(st, s, sid) && IsAdmin(st, s)
    requires username in st.online && x == st.online[username]
    ensures var reply := Disconnect(st, s, sid, username);
            && x in st.sessions && reply.ret == Success && reply.keep == (x != s)
            && reply.st == Disconnected(st, x, x == s)
  {
    hide UserLogout, ClientFree;
  }

  ghost function Disconnected(st: ChatState, x: Session, self: bool): ChatState
    requires x in st.sessions
  {
    var gone := UserLogout(st, x);
    if self then gone else ClientFree(gone, x)
  }

  lemma DisconnectedGone(st: ChatState, x: Session, self: bool)
    requires Inv(st) && x in st.sessions && st.sessions[x].id != 0
    ensures var st' := Disconnected(st, x, self);
            && Inv(st') && NoReference(st', x) && st.sessions[x].username !in st'.online
            && (x in st'.sessions <==> self)
            && (forall t :: t in st.sessions && t != x ==> t in st'.sessions && st'.sessions[t] == st.sessions[t])
  {
    LogoutKeepsInv(st, x);
    var gone := UserLogout(st, x);
    LogoutKeepsInv(gone, x);
    CloseKeepsInv(gone, x);
    Open(st);
    Open(Disconnected(st, x, self));
    hide Inv, UserLogout, RoomsAgree, RoomUsers, UsersKnown, StoreGood, PrivateRooms;
    NameGone(st, x, Disconnected(st, x, self));
  }

  /** Once nothing refers to a session any more, its old name leads nowhere. */
  lemma NameGone(st: ChatState, x: Session, st': ChatState)
    requires OnlineAgree(st) && OnlineAgree(st') && x in st.sessions && st.sessions[x].id != 0
    requires forall u :: u in st'.online ==> st'.online[u] != x
    requires forall t :: t in st'.sessions && t != x ==> t in st.sessions && st'.sessions[t] == st.sessions[t]
    ensures st.sessions[x].username !in st'.online
  {
  }

  /** Deleting succeeds exactly for a logged-in administrator and the name of an existing room; the
      members are told first, and otherwise nothing changes. */
  lemma DeleteExactly(st: ChatState, s: Session, sid: nat, name: Bytes)
    requires Inv(st) && s in st.sessions
    ensures var reply := Delete(st, s, sid, name);
            && (reply.ret == Success <==>
                  SessionValid(st, s, sid) && IsAdmin(st, s) && exists r :: r in st.rooms && st.rooms[r].name == name)
            && (reply.ret != Success ==> reply.st == st && reply.out == [])
            && (reply.ret == Success ==>
                  exists r :: r in st.rooms && st.rooms[r].name == name && r !in reply.st.rooms
                              && FindRoom(st, st.store, name) == Some(r))
  {
    Open(st);
    FindRoomResult(st, st.store, name);
    var found := FindRoom(st, st.store, name);
    if found.Some? {
      DeleteRemovesWhatItEmptied(st, found.value, name);
    }
  }
}
