/** The invariant that ties sessions, rooms, the session store and the request tables together, and
    the proof that every change of the server state keeps it. */
module ChatInvariant {
  import opened ByteStrings
  import opened ChatTypes
  import opened ChatModel

  /** session_store[u] is s exactly when s is logged in under u. */
  ghost predicate OnlineAgree(st: ChatState) {
    && (forall u :: u in st.online ==>
          st.online[u] in st.sessions && st.sessions[st.online[u]].id != 0 && st.sessions[st.online[u]].username == u)
    && (forall s :: s in st.sessions && st.sessions[s].id != 0 ==>
          st.sessions[s].username in st.online && st.online[st.sessions[s].username] == s)
  }

  predicate NoDup<T(==)>(xs: seq<T>) { forall i, j :: 0 <= i < j < |xs| ==> xs[i] != xs[j] }

  ghost predicate IsMember(st: ChatState, r: Room, s: Session) { r in st.rooms && s in st.rooms[r].members }

  /** p_room is r exactly when the session occurs, once, in the member list of r. */
  ghost predicate RoomsAgree(st: ChatState) {
    && (forall s :: s in st.sessions && st.sessions[s].room.Some? ==> IsMember(st, st.sessions[s].room.value, s))
    && (forall r, s | r in st.rooms && s in st.rooms[r].members :: s in st.sessions && st.sessions[s].room == Some(r))
    && (forall r :: r in st.rooms ==> NoDup(st.rooms[r].members))
  }

  /** Only logged-in users are in rooms, and they have an entry in both request tables. */
  ghost predicate RoomUsers(st: ChatState) {
    forall s :: s in st.sessions && st.sessions[s].room.Some? ==>
      st.sessions[s].id != 0 && st.sessions[s].username in st.pmReqs && st.sessions[s].username in st.fileReqs
  }

  /** Logged-in users have valid names and an account with the password they gave. */
  ghost predicate UsersKnown(st: ChatState) {
    forall s :: s in st.sessions && st.sessions[s].id != 0 ==>
      && ValidUsername(st.sessions[s].username)
      && st.sessions[s].username in st.creds
      && st.creds[st.sessions[s].username] == st.sessions[s].password
  }

  /** The room store lists the live rooms once each; names without a plus sign are unique. */
  ghost predicate StoreGood(st: ChatState) {
    && (forall r :: r in st.rooms ==> r in st.store)
    && (forall r :: r in st.store ==> r in st.rooms)
    && NoDup(st.store)
    && (forall q, r | q in st.rooms && r in st.rooms ::
          st.rooms[q].name == st.rooms[r].name && PLUS !in st.rooms[q].name ==> q == r)
  }

  /** Members of a private room are among the two users in its name. */
  ghost predicate PrivateRooms(st: ChatState) {
    forall r, s :: r in st.rooms && s in st.rooms[r].members && s in st.sessions ==>
      MayEnter(st.rooms[r].name, st.sessions[s].username)
  }

  /** The clauses of the invariant, by name. */
  datatype Clause = OnlineClause | RoomsClause | UsersClause | KnownClause | StoreClause | PrivateClause

  ghost predicate Holds(c: Clause, st: ChatState) {
    match c
    case OnlineClause => OnlineAgree(st)
    case RoomsClause => RoomsAgree(st)
    case UsersClause => RoomUsers(st)
    case KnownClause => UsersKnown(st)
    case StoreClause => StoreGood(st)
    case PrivateClause => PrivateRooms(st)
  }

  ghost predicate Inv(st: ChatState) { forall c: Clause :: Holds(c, st) }

  lemma Open(st: ChatState)
    requires Inv(st)
    ensures OnlineAgree(st) && RoomsAgree(st) && RoomUsers(st)
    ensures UsersKnown(st) && StoreGood(st) && PrivateRooms(st)
  {
    assert Holds(OnlineClause, st) && Holds(RoomsClause, st) && Holds(UsersClause, st);
    assert Holds(KnownClause, st) && Holds(StoreClause, st) && Holds(PrivateClause, st);
  }

  lemma Establish(st: ChatState)
    requires OnlineAgree(st) && RoomsAgree(st) && RoomUsers(st)
    requires UsersKnown(st) && StoreGood(st) && PrivateRooms(st)
    ensures Inv(st)
  {
  }

  lemma InitHolds(st: ChatState, general: Room)
    requires InitState(st, general)
    ensures Inv(st)
  {
    assert Ascii("general")[0] != PLUS;
    Establish(st);
  }

  // ---------------------------------------------------------------- lists

  lemma {:induction false} RemoveFirstGone(ms: seq<Session>, s: Session)
    requires NoDup(ms)
    ensures NoDup(RemoveFirst(ms, s)) && s !in RemoveFirst(ms, s)
    ensures forall m | m in RemoveFirst(ms, s) :: m in ms
    ensures forall m | m in ms && m != s :: m in RemoveFirst(ms, s)
  {
    if ms != [] {
      assert NoDup(ms[1..]);
      assert ms == [ms[0]] + ms[1..];
      if ms[0] == s {
        assert forall i :: 0 <= i < |ms[1..]| ==> ms[1..][i] == ms[i + 1] != s;
      } else {
        RemoveFirstGone(ms[1..], s);
        assert ms[0] !in ms[1..];
      }
    }
  }

  // ---------------------------------------------------------------- user_leave

  /** st' is st after s left its room: the session's room field, the member lists it was on, and its
      own two request entries may differ, nothing else. */
  ghost predicate Left(st: ChatState, s: Session, st': ChatState)
    requires s in st.sessions
  {
    && st'.sessions == st.sessions[s := st.sessions[s].(room := None)]
    && st'.rooms.Keys == st.rooms.Keys
    && (forall r :: r in st.rooms ==> st'.rooms[r].name == st.rooms[r].name)
    && (forall r :: r in st.rooms ==> NoDup(st'.rooms[r].members) && s !in st'.rooms[r].members)
    && (forall r, m | r in st.rooms && m in st'.rooms[r].members :: IsMember(st, r, m))
    && (forall r, m | r in st.rooms && m in st.rooms[r].members :: m != s ==> IsMember(st', r, m))
    && (forall r :: r in st.rooms && st.sessions[s].room != Some(r) ==> st'.rooms[r] == st.rooms[r])
    && st' == st.(sessions := st'.sessions, rooms := st'.rooms, pmReqs := st'.pmReqs, fileReqs := st'.fileReqs)
    && (forall u :: u in st.pmReqs && u != st.sessions[s].username ==> u in st'.pmReqs)
    && (forall u :: u in st.fileReqs && u != st.sessions[s].username ==> u in st'.fileReqs)
    && (st.sessions[s].room.None? ==> st'.pmReqs == st.pmReqs && st'.fileReqs == st.fileReqs)
  }

  lemma LeftIntro(st: ChatState, s: Session, r: Room, rest: seq<Session>, st': ChatState)
    requires RoomsAgree(st) && s in st.sessions && r in st.rooms && st.sessions[s].room == Some(r)
    requires NoDup(rest) && s !in rest
    requires forall m | m in rest :: m in st.rooms[r].members
    requires forall m | m in st.rooms[r].members && m != s :: m in rest
    requires st' == st.(sessions := st.sessions[s := st.sessions[s].(room := None)],
                        rooms := st.rooms[r := RoomRec(st.rooms[r].name, rest)],
                        pmReqs := st.pmReqs - {st.sessions[s].username},
                        fileReqs := st.fileReqs - {st.sessions[s].username})
    ensures Left(st, s, st')
  {
  }

  lemma LeaveEffect(st: ChatState, s: Session)
    requires RoomsAgree(st) && s in st.sessions
    ensures Left(st, s, UserLeave(st, s))
  {
    var rec := st.sessions[s];
    if rec.room.Some? {
      var r := rec.room.value;
      assert IsMember(st, r, s);
      RemoveFirstGone(st.rooms[r].members, s);
      LeftIntro(st, s, r, RemoveFirst(st.rooms[r].members, s), UserLeave(st, s));
    } else {
      assert st.sessions == st.sessions[s := rec.(room := None)];
    }
  }

  lemma LeftKeepsRooms(st: ChatState, s: Session, st': ChatState)
    requires RoomsAgree(st) && s in st.sessions && Left(st, s, st')
    ensures RoomsAgree(st')
  {
  }

  lemma LeftKeepsUsers(st: ChatState, s: Session, st': ChatState)
    requires OnlineAgree(st) && RoomUsers(st) && s in st.sessions && Left(st, s, st')
    ensures OnlineAgree(st') && RoomUsers(st')
  {
    forall t | t in st'.sessions && st'.sessions[t].room.Some?
      ensures st'.sessions[t].username in st'.pmReqs && st'.sessions[t].username in st'.fileReqs
    {
      assert t != s && st'.sessions[t] == st.sessions[t];
    }
  }

  lemma LeftKeepsStore(st: ChatState, s: Session, st': ChatState)
    requires UsersKnown(st) && StoreGood(st) && PrivateRooms(st) && s in st.sessions && Left(st, s, st')
    ensures UsersKnown(st') && StoreGood(st') && PrivateRooms(st')
  {
  }

  lemma LeaveKeepsInv(st: ChatState, s: Session)
    requires Inv(st) && s in st.sessions
    ensures Inv(UserLeave(st, s)) && Left(st, s, UserLeave(st, s))
  {
    Open(st);
    var st' := UserLeave(st, s);
    LeaveEffect(st, s);
    LeftKeepsRooms(st, s, st');
    LeftKeepsUsers(st, s, st');
    LeftKeepsStore(st, s, st');
    Establish(st');
  }

  // ---------------------------------------------------------------- user_join and moves

  /** st' is st after s, who was in no room, entered r. */
  ghost predicate Entered(st: ChatState, s: Session, r: Room, st': ChatState)
    requires s in st.sessions && r in st.rooms
  {
    var rec := st.sessions[s];
    && st'.sessions == st.sessions[s := rec.(room := Some(r))]
    && st'.rooms == st.rooms[r := RoomRec(st.rooms[r].name, st.rooms[r].members + [s])]
    && st' == st.(sessions := st'.sessions, rooms := st'.rooms,
                  pmReqs := st.pmReqs[rec.username := []], fileReqs := st.fileReqs[rec.username := []])
  }

  lemma EnteredKeepsRooms(st: ChatState, s: Session, r: Room, st': ChatState)
    requires RoomsAgree(st) && s in st.sessions && r in st.rooms && st.sessions[s].room.None? && Entered(st, s, r, st')
    ensures RoomsAgree(st')
  {
    assert s !in st.rooms[r].members;
    forall t | t in st'.sessions && st'.sessions[t].room.Some?
      ensures IsMember(st', st'.sessions[t].room.value, t)
    {
      if t == s {
        assert st'.rooms[r].members[|st.rooms[r].members|] == s;
      } else {
        assert IsMember(st, st.sessions[t].room.value, t);
      }
    }
  }

  lemma EnteredKeepsUsers(st: ChatState, s: Session, r: Room, st': ChatState)
    requires OnlineAgree(st) && RoomUsers(st) && UsersKnown(st)
    requires s in st.sessions && r in st.rooms && st.sessions[s].id != 0 && Entered(st, s, r, st')
    ensures OnlineAgree(st') && RoomUsers(st') && UsersKnown(st')
  {
  }

  lemma EnteredKeepsStore(st: ChatState, s: Session, r: Room, st': ChatState)
    requires StoreGood(st) && PrivateRooms(st) && s in st.sessions && r in st.rooms && Entered(st, s, r, st')
    requires MayEnter(st.rooms[r].name, st.sessions[s].username)
    ensures StoreGood(st') && PrivateRooms(st')
  {
  }

  /** Moving a logged-in user to a room that lets it in always succeeds. */
  lemma MoveKeepsInv(st: ChatState, s: Session, r: Room)
    requires Inv(st) && s in st.sessions && r in st.rooms && st.sessions[s].id != 0
    requires MayEnter(st.rooms[r].name, st.sessions[s].username)
    ensures MoveTo(st, s, r).1 && Inv(MoveTo(st, s, r).0)
    ensures Entered(UserLeave(st, s), s, r, MoveTo(st, s, r).0)
  {
    Open(st);
    LeaveKeepsInv(st, s);
    var left := UserLeave(st, s);
    Open(left);
    var st' := MoveTo(st, s, r).0;
    assert Entered(left, s, r, st');
    EnteredKeepsRooms(left, s, r, st');
    EnteredKeepsUsers(left, s, r, st');
    EnteredKeepsStore(left, s, r, st');
    Establish(st');
  }

  lemma AddRoomKeepsRooms(st: ChatState, r: Room, name: Bytes)
    requires RoomsAgree(st) && r !in st.rooms
    ensures RoomsAgree(AddRoom(st, r, name))
  {
    var st' := AddRoom(st, r, name);
    forall s | s in st'.sessions && st'.sessions[s].room.Some?
      ensures IsMember(st', st'.sessions[s].room.value, s)
    {
      assert IsMember(st, st.sessions[s].room.value, s);
    }
  }

  lemma AddRoomKeepsStore(st: ChatState, r: Room, name: Bytes)
    requires StoreGood(st) && PrivateRooms(st) && r !in st.rooms
    requires PLUS !in name ==> forall q :: q in st.rooms ==> st.rooms[q].name != name
    ensures StoreGood(AddRoom(st, r, name)) && PrivateRooms(AddRoom(st, r, name))
  {
  }

  lemma AddRoomKeepsInv(st: ChatState, r: Room, name: Bytes)
    requires Inv(st) && r !in st.rooms
    requires PLUS !in name ==> forall q :: q in st.rooms ==> st.rooms[q].name != name
    ensures Inv(AddRoom(st, r, name))
  {
    Open(st);
    var st' := AddRoom(st, r, name);
    AddRoomKeepsRooms(st, r, name);
    AddRoomKeepsStore(st, r, name);
    assert OnlineAgree(st') && RoomUsers(st') && UsersKnown(st');
    Establish(st');
  }

  // ---------------------------------------------------------------- user_logout, clients

  /** The rooms do not change, nor do the sessions that are in rooms, up to fields other than these. */
  ghost predicate SameRooms(st: ChatState, st': ChatState) {
    && st'.rooms == st.rooms && st'.store == st.store
    && (forall s :: s in st'.sessions && st'.sessions[s].room.Some? ==> s in st.sessions && st.sessions[s].room.Some?)
    && (forall s :: s in st.sessions && st.sessions[s].room.Some? ==>
          s in st'.sessions && st'.sessions[s].room == st.sessions[s].room
          && st'.sessions[s].username == st.sessions[s].username)
  }

  lemma SameRoomsAgree(st: ChatState, st': ChatState)
    requires RoomsAgree(st) && SameRooms(st, st')
    ensures RoomsAgree(st')
  {
    forall s | s in st'.sessions && st'.sessions[s].room.Some?
      ensures IsMember(st', st'.sessions[s].room.value, s)
    {
      assert IsMember(st, st.sessions[s].room.value, s);
    }
  }

  lemma SameRoomsStore(st: ChatState, st': ChatState)
    requires RoomsAgree(st) && StoreGood(st) && PrivateRooms(st) && SameRooms(st, st')
    ensures StoreGood(st') && PrivateRooms(st')
  {
  }

  lemma SameRoomsKeepRooms(st: ChatState, st': ChatState)
    requires RoomsAgree(st) && StoreGood(st) && PrivateRooms(st) && SameRooms(st, st')
    ensures RoomsAgree(st') && StoreGood(st') && PrivateRooms(st')
  {
    hide *;
    SameRoomsAgree(st, st');
    SameRoomsStore(st, st');
  }

  /** Nothing in the server state mentions the session any more, apart from its own record. */
  ghost predicate NoReference(st: ChatState, s: Session) {
    && (forall r :: r in st.rooms ==> s !in st.rooms[r].members)
    && (forall u :: u in st.online ==> st.online[u] != s)
    && (s in st.sessions ==> st.sessions[s].room.None? && st.sessions[s].id == 0)
  }

  /** user_logout, when it was logged in, takes exactly its own name out of the session store. */
  lemma LogoutEffect(st: ChatState, s: Session)
    requires Inv(st) && s in st.sessions
    ensures var st' := UserLogout(st, s); var left := UserLeave(st, s);
            && st' == left.(sessions := left.sessions[s := SessRec([], [], 0, None, st.sessions[s].allow)],
                            online := if st.sessions[s].id == 0 then st.online
                                      else st.online - {st.sessions[s].username})
    ensures Left(st, s, UserLeave(st, s)) && Inv(UserLeave(st, s))
  {
    Open(st);
    LeaveKeepsInv(st, s);
  }

  lemma LoggedOutUsers(left: ChatState, s: Session, st': ChatState)
    requires OnlineAgree(left) && RoomUsers(left) && UsersKnown(left) && s in left.sessions
    requires st' == left.(sessions := left.sessions[s := SessRec([], [], 0, None, left.sessions[s].allow)],
                          online := if left.sessions[s].id == 0 then left.online
                                    else left.online - {left.sessions[s].username})
    ensures OnlineAgree(st') && RoomUsers(st') && UsersKnown(st')
    ensures forall u :: u in st'.online ==> st'.online[u] != s
  {
  }

  lemma LoggedOutRooms(left: ChatState, s: Session, st': ChatState)
    requires RoomsAgree(left) && StoreGood(left) && PrivateRooms(left) && s in left.sessions
    requires left.sessions[s].room.None?
    requires st' == left.(sessions := left.sessions[s := SessRec([], [], 0, None, left.sessions[s].allow)],
                          online := st'.online)
    ensures RoomsAgree(st') && StoreGood(st') && PrivateRooms(st')
    ensures forall r :: r in st'.rooms ==> s !in st'.rooms[r].members
  {
    hide StoreGood, PrivateRooms, NoDup;
    SameRoomsKeepRooms(left, st');
  }

  lemma LogoutKeepsInv(st: ChatState, s: Session)
    requires Inv(st) && s in st.sessions
    ensures Inv(UserLogout(st, s))
    ensures NoReference(UserLogout(st, s), s)
    ensures UserLogout(st, s).sessions == st.sessions[s := SessRec([], [], 0, None, st.sessions[s].allow)]
    ensures UserLogout(st, s).creds == st.creds && UserLogout(st, s).nextId == st.nextId
  {
    hide *;
    LogoutRecord(st, s);
    Open(UserLeave(st, s));
    LoggedOutUsers(UserLeave(st, s), s, UserLogout(st, s));
    LoggedOutRooms(UserLeave(st, s), s, UserLogout(st, s));
    Establish(UserLogout(st, s));
    NothingRefers(UserLogout(st, s), s);
  }

  lemma LogoutRecord(st: ChatState, s: Session)
    requires Inv(st) && s in st.sessions
    ensures var left, st' := UserLeave(st, s), UserLogout(st, s);
            && Inv(left) && s in left.sessions && left.sessions[s].room.None?
            && st' == left.(sessions := left.sessions[s := SessRec([], [], 0, None, left.sessions[s].allow)],
                            online := if left.sessions[s].id == 0 then left.online
                                      else left.online - {left.sessions[s].username})
            && s in st'.sessions && st'.sessions == st.sessions[s := SessRec([], [], 0, None, st.sessions[s].allow)]
            && st'.creds == st.creds && st'.nextId == st.nextId
  {
    LogoutEffect(st, s);
    hide Inv, UserLeave, UserLogout;
  }

  lemma NothingRefers(st: ChatState, s: Session)
    requires forall r :: r in st.rooms ==> s !in st.rooms[r].members
    requires forall u :: u in st.online ==> st.online[u] != s
    requires s in st.sessions && st.sessions[s].room.None? && st.sessions[s].id == 0
    ensures NoReference(st, s)
  {
  }

  lemma ConnectUsers(st: ChatState, s: Session)
    requires OnlineAgree(st) && RoomUsers(st) && UsersKnown(st) && s !in st.sessions
    ensures OnlineAgree(ClientInit(st, s)) && RoomUsers(ClientInit(st, s)) && UsersKnown(ClientInit(st, s))
  {
  }

  lemma ConnectSameRooms(st: ChatState, s: Session)
    requires s !in st.sessions
    ensures SameRooms(st, ClientInit(st, s))
  {
  }

  lemma ConnectKeepsInv(st: ChatState, s: Session)
    requires Inv(st) && s !in st.sessions
    ensures Inv(ClientInit(st, s))
  {
    hide *;
    Open(st);
    ConnectUsers(st, s);
    ConnectSameRooms(st, s);
    SameRoomsKeepRooms(st, ClientInit(st, s));
    Establish(ClientInit(st, s));
  }

  lemma RemoveKeepsInv(st: ChatState, s: Session)
    requires Inv(st) && s in st.sessions && NoReference(st, s)
    ensures Inv(RemoveSession(st, s)) && NoReference(RemoveSession(st, s), s)
  {
    Open(st);
    var st' := RemoveSession(st, s);
    SameRoomsKeepRooms(st, st');
    Establish(st');
  }

  /** Closing a client leaves no reference to its session behind. */
  lemma CloseKeepsInv(st: ChatState, s: Session)
    requires Inv(st) && s in st.sessions
    ensures Inv(ClientFree(st, s)) && NoReference(ClientFree(st, s), s)
  {
    Open(st);
    LogoutKeepsInv(st, s);
    RemoveKeepsInv(UserLogout(st, s), s);
  }

  lemma RecordKeepsUsers(st: ChatState, s: Session, rec: SessRec)
    requires OnlineAgree(st) && RoomUsers(st) && UsersKnown(st) && s in st.sessions
    requires rec.id == st.sessions[s].id && rec.room == st.sessions[s].room
    requires rec.id == 0 || (rec.username == st.sessions[s].username && rec.password == st.sessions[s].password)
    ensures var st' := WithSession(st, s, rec); OnlineAgree(st') && RoomUsers(st') && UsersKnown(st')
  {
  }

  /** Fields that no invariant reads on a logged-out session, or at all, may change freely. */
  lemma RecordKeepsInv(st: ChatState, s: Session, rec: SessRec)
    requires Inv(st) && s in st.sessions
    requires rec.id == st.sessions[s].id && rec.room == st.sessions[s].room
    requires rec.id == 0 || (rec.username == st.sessions[s].username && rec.password == st.sessions[s].password)
    ensures Inv(WithSession(st, s, rec))
  {
    Open(st);
    var st' := WithSession(st, s, rec);
    SameRoomsKeepRooms(st, st');
    RecordKeepsUsers(st, s, rec);
    Establish(st');
  }

  // ---------------------------------------------------------------- user_login

  /** When user_login accepts: the name is new or the password is the stored one, and the name is
      not online. */
  ghost predicate Accepts(st: ChatState, u: Bytes, p: Bytes) {
    (u in st.creds ==> st.creds[u] == p) && u !in st.online
  }

  lemma LoginEffect(st: ChatState, s: Session)
    requires s in st.sessions
    ensures var rec := st.sessions[s]; var st' := LoginCommit(st, s).st;
            && (Accepts(st, rec.username, rec.password) ==>
                  st' == st.(sessions := st.sessions[s := rec.(id := st.nextId)],
                             online := st.online[rec.username := s],
                             creds := st.creds[rec.username := rec.password],
                             nextId := (st.nextId + 1) % ID_LIMIT))
            && (!Accepts(st, rec.username, rec.password) ==>
                  st' == st.(sessions := st.sessions[s := rec.(id := 0)],
                             creds := if rec.username in st.creds then st.creds
                                      else st.creds[rec.username := rec.password]))
  {
    var rec := st.sessions[s];
    if rec.username in st.creds && st.creds[rec.username] == rec.password {
      assert st.creds[rec.username := rec.password] == st.creds;
    }
  }

  lemma RefusedLoginKeepsInv(st: ChatState, s: Session)
    requires Inv(st) && s in st.sessions && st.sessions[s].id == 0 && st.sessions[s].room.None?
    requires !Accepts(st, st.sessions[s].username, st.sessions[s].password)
    ensures Inv(LoginCommit(st, s).st) && NoReference(LoginCommit(st, s).st, s)
    ensures LoginCommit(st, s).st == st && LoginCommit(st, s).ret == Failure
  {
    Open(st);
    LoginEffect(st, s);
    var rec := st.sessions[s];
    assert st.sessions[s := rec.(id := 0)] == st.sessions;
  }

  lemma LoggedInUsers(st: ChatState, s: Session, st': ChatState)
    requires OnlineAgree(st) && RoomUsers(st) && UsersKnown(st) && s in st.sessions
    requires st.sessions[s].id == 0 && st.sessions[s].room.None?
    requires ValidUsername(st.sessions[s].username) && st.nextId != 0
    requires Accepts(st, st.sessions[s].username, st.sessions[s].password)
    requires var rec := st.sessions[s];
             st' == st.(sessions := st.sessions[s := rec.(id := st.nextId)],
                        online := st.online[rec.username := s],
                        creds := st.creds[rec.username := rec.password],
                        nextId := st'.nextId)
    ensures OnlineAgree(st') && RoomUsers(st') && UsersKnown(st')
  {
  }

  lemma LoginSameRooms(st: ChatState, s: Session, st': ChatState)
    requires s in st.sessions && st.sessions[s].room.None?
    requires st' == st.(sessions := st.sessions[s := st.sessions[s].(id := st.nextId)],
                        online := st'.online, creds := st'.creds, nextId := st'.nextId)
    ensures SameRooms(st, st')
  {
  }

  lemma AcceptedLoginKeepsInv(st: ChatState, s: Session)
    requires Inv(st) && s in st.sessions && st.sessions[s].id == 0 && st.sessions[s].room.None?
    requires ValidUsername(st.sessions[s].username) && st.nextId != 0
    requires Accepts(st, st.sessions[s].username, st.sessions[s].password)
    ensures Inv(LoginCommit(st, s).st) && LoginCommit(st, s).ret == Success
  {
    Open(st);
    LoginEffect(st, s);
    LoginSameRooms(st, s, LoginCommit(st, s).st);
    hide OnlineAgree, RoomsAgree, RoomUsers, UsersKnown, StoreGood, PrivateRooms, SameRooms, Inv;
    LoggedInUsers(st, s, LoginCommit(st, s).st);
    SameRoomsKeepRooms(st, LoginCommit(st, s).st);
    Establish(LoginCommit(st, s).st);
  }

  /** The 32-bit session counter. An accepted login keeps the server state in order exactly as long
      as the counter has not come round to 0; at 0 the login is answered FAILURE and yet its name
      stays in the session store, for good (ChatLimits.NameIsStuckForever). */
  lemma LoginKeepsInvExactly(st: ChatState, s: Session)
    requires Inv(st) && s in st.sessions && st.sessions[s].id == 0 && st.sessions[s].room.None?
    requires ValidUsername(st.sessions[s].username)
    ensures var rec := st.sessions[s]; var reply := LoginCommit(st, s);
            && (Inv(reply.st) <==> !(Accepts(st, rec.username, rec.password) && st.nextId == 0))
            && (!Inv(reply.st) ==>
                  reply.ret == Failure && rec.username in reply.st.online && reply.st.sessions[s].id == 0)
  {
    Open(st);
    var rec := st.sessions[s];
    LoginEffect(st, s);
    if !Accepts(st, rec.username, rec.password) {
      RefusedLoginKeepsInv(st, s);
    } else if st.nextId != 0 {
      AcceptedLoginKeepsInv(st, s);
    } else {
      assert LoginCommit(st, s).st.online[rec.username] == s;
      assert !OnlineAgree(LoginCommit(st, s).st);
      assert !Holds(OnlineClause, LoginCommit(st, s).st);
    }
  }
}
