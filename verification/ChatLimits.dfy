/** Where a property that one might expect of the server fails: the inputs at which it fails, runs that
    lead there, and exactly when it holds. */
module ChatLimits {
  import opened ByteStrings
  import opened ChatTypes
  import opened ChatModel
  import opened ChatInvariant
  import opened ChatHandlers
  import opened ChatRuns

  // ---------------------------------------------------------------- names of rooms

  ghost predicate NamesDistinct(st: ChatState) {
    forall q, r | q in st.rooms && r in st.rooms :: st.rooms[q].name == st.rooms[r].name ==> q == r
  }

  ghost predicate NameTaken(st: ChatState, name: Bytes) { exists r :: r in st.rooms && st.rooms[r].name == name }

  /** st' has one room more than st, and no other name has changed. */
  ghost predicate OneRoomMore(st: ChatState, created: Room, name: Bytes, st': ChatState) {
    && st'.rooms.Keys == st.rooms.Keys + {created}
    && st'.rooms[created].name == name
    && forall r :: r in st.rooms && r != created ==> st'.rooms[r].name == st.rooms[r].name
  }

  lemma MovedTwiceRooms(st: ChatState, a: Session, b: Session, created: Room, name: Bytes, st1: ChatState,
                        st2: ChatState)
    requires created !in st.rooms && a in st.sessions && b in st1.sessions && created in st1.rooms
    requires Moved(AddRoom(st, created, name), a, created, st1) && Moved(st1, b, created, st2)
    ensures OneRoomMore(st, created, name, st2)
  {
  }

  lemma PmAcceptRooms(st: ChatState, requester: Session, responder: Session, created: Room)
    requires Inv(st) && requester in st.sessions && responder in st.sessions && created !in st.rooms
    requires st.sessions[requester].id != 0 && st.sessions[responder].id != 0
    ensures var a, b := st.sessions[requester].username, st.sessions[responder].username;
            OneRoomMore(st, created, PmRoomName(a, b), PmAccept(st, requester, b, created).0)
  {
    hide PmAccept, MoveTo, PmRoomName, MayEnter, Inv, OneRoomMore;
    var a, b := st.sessions[requester].username, st.sessions[responder].username;
    var name := PmRoomName(a, b);
    var st0 := AddRoom(st, created, name);
    PmRoomReady(st, requester, responder, created);
    MoveFrame(st0, requester, created);
    var st1 := MoveTo(st0, requester, created).0;
    PmAcceptMoves(st, requester, responder, created, st1);
    MoveFrame(st1, responder, created);
    MovedTwiceRooms(st, requester, responder, created, name, st1, MoveTo(st1, responder, created).0);
  }

  lemma DistinctWithOneMore(st: ChatState, created: Room, name: Bytes, st': ChatState)
    requires created !in st.rooms && NamesDistinct(st) && OneRoomMore(st, created, name, st')
    ensures NamesDistinct(st') <==> !NameTaken(st, name)
  {
    if NameTaken(st, name) {
      var r :| r in st.rooms && st.rooms[r].name == name;
      assert st'.rooms[r].name == st'.rooms[created].name;
    }
  }

  /** Accepting a private conversation keeps the names of all rooms distinct if and only if no room has
      the name that the private room gets. */
  lemma NamesStayDistinctExactly(st: ChatState, requester: Session, responder: Session, created: Room)
    requires Inv(st) && requester in st.sessions && responder in st.sessions && created !in st.rooms
    requires st.sessions[requester].id != 0 && st.sessions[responder].id != 0 && NamesDistinct(st)
    ensures var a, b := st.sessions[requester].username, st.sessions[responder].username;
            NamesDistinct(PmAccept(st, requester, b, created).0) <==> !NameTaken(st, PmRoomName(a, b))
  {
    var a, b := st.sessions[requester].username, st.sessions[responder].username;
    PmAcceptRooms(st, requester, responder, created);
    DistinctWithOneMore(st, created, PmRoomName(a, b), PmAccept(st, requester, b, created).0);
  }

  /** The name of a private room depends on who asked: "bob+bobby" or "bobby+bob". */
  lemma NameDependsOnWhoAsks()
    ensures PmRoomName(Ascii("bob"), Ascii("bobby")) == Ascii("bob+bobby")
    ensures PmRoomName(Ascii("bobby"), Ascii("bob")) == Ascii("bobby+bob")
  {
    var bob, bobby := Ascii("bob"), Ascii("bobby");
    MemCmpZero(bob, bobby, 3);
    MemCmpZero(bobby, bob, 3);
    assert forall i :: 0 <= i < 3 ==> bob[i] == bobby[i];
  }

  // ---------------------------------------------------------------- request tables

  /** The user of this name is logged in and in a room. */
  ghost predicate InRoom(st: ChatState, u: Bytes) {
    u in st.online && st.online[u] in st.sessions && st.sessions[st.online[u]].room.Some?
  }

  ghost predicate EntryMeansRoom(st: ChatState) {
    forall u :: u in st.pmReqs || u in st.fileReqs ==> InRoom(st, u)
  }

  ghost predicate BothEntriesMeanRoom(st: ChatState) {
    forall u :: u in st.pmReqs && u in st.fileReqs ==> InRoom(st, u)
  }

  lemma EntriesWithOneMore(st: ChatState, u: Bytes, st': ChatState)
    requires EntryMeansRoom(st) && st'.online == st.online && st'.sessions == st.sessions
    requires forall v :: v in st'.pmReqs || v in st'.fileReqs <==> v == u || v in st.pmReqs || v in st.fileReqs
    ensures EntryMeansRoom(st') <==> InRoom(st, u)
  {
    if !InRoom(st, u) {
      assert !InRoom(st', u);
    }
  }

  /** The request will be written into the table: the guard of the branch of set_request that does it. */
  ghost predicate WillRecord(st: ChatState, s: Session, sid: nat, flag: Byte, username: Bytes)
    requires s in st.sessions
  {
    Reaches(st, s, sid, flag, username) && PendingAt(st, KindOf(flag).value, username).None?
  }

  /** A request writes the entry of its target whether or not the target is in a room. An entry for a
      user in no room appears if and only if the request gets as far as the table, none of its kind is
      pending there, and its target is in no room. */
  lemma EntriesExactly(st: ChatState, s: Session, sid: nat, flag: Byte, username: Bytes)
    requires OnlineAgree(st) && UsersKnown(st) && s in st.sessions && EntryMeansRoom(st)
    ensures EntryMeansRoom(Request(st, s, sid, flag, username).st) <==>
            !(WillRecord(st, s, sid, flag, username) && !InRoom(st, username))
  {
    RequestDiscipline(st, s, sid, flag, username);
    hide Request, OnlineAgree, UsersKnown, PendingAt, Reaches, SessionValid, EntryMeansRoom, InRoom;
    var reply := Request(st, s, sid, flag, username);
    if reply.ret == Success {
      EntriesWithOneMore(st, username, reply.st);
    }
  }

  lemma BothWithOneMore(st: ChatState, kind: ReqKind, u: Bytes, value: Bytes, st': ChatState)
    requires BothEntriesMeanRoom(st) && st' == WithTable(st, kind, Table(st, kind)[u := value])
    ensures BothEntriesMeanRoom(st') <==>
            !(!InRoom(st, u) && u in (if kind.PmKind? then st.fileReqs else st.pmReqs))
  {
    assert InRoom(st', u) == InRoom(st, u);
  }

  /** With an entry in both tables it takes a second one: the other table must have one already. */
  lemma BothEntriesExactly(st: ChatState, s: Session, sid: nat, flag: Byte, username: Bytes)
    requires OnlineAgree(st) && UsersKnown(st) && s in st.sessions && BothEntriesMeanRoom(st)
    ensures BothEntriesMeanRoom(Request(st, s, sid, flag, username).st) <==>
            !(WillRecord(st, s, sid, flag, username) && !InRoom(st, username)
              && username in (if KindOf(flag) == Some(PmKind) then st.fileReqs else st.pmReqs))
  {
    RequestDiscipline(st, s, sid, flag, username);
    hide Request, OnlineAgree, UsersKnown, PendingAt, Reaches, SessionValid;
    hide BothEntriesMeanRoom, InRoom, WithTable, Table;
    var reply := Request(st, s, sid, flag, username);
    if reply.ret == Success {
      BothWithOneMore(st, KindOf(flag).value, username, st.sessions[s].username, reply.st);
    }
  }

  /** The entry of a user survives the logout if and only if the user is in no room then. */
  lemma EntrySurvivesLogoutExactly(st: ChatState, s: Session)
    requires s in st.sessions
    ensures var u := st.sessions[s].username;
            && (u in st.pmReqs ==> (u in UserLogout(st, s).pmReqs <==> st.sessions[s].room.None?))
            && (u in st.fileReqs ==> (u in UserLogout(st, s).fileReqs <==> st.sessions[s].room.None?))
            && (st.sessions[s].room.None? ==>
                  UserLogout(st, s).pmReqs == st.pmReqs && UserLogout(st, s).fileReqs == st.fileReqs)
  {
  }

  /** A user in no room cannot answer a request. */
  lemma NoAnswerWithoutRoom(st: ChatState, t: Session, sid: nat, flag: Byte, choice: Byte, from: Bytes, created: Room)
    requires t in st.sessions && st.sessions[t].room.None?
    ensures Respond(st, t, sid, flag, choice, from, created).st == st
    ensures Respond(st, t, sid, flag, choice, from, created).ret != Success
  {
  }

  /** While a request is pending at a user, in a room or not, every further one of its kind that gets as far
      as the table is answered PENDING; entering a room ends that. */
  lemma PendingUntilEntering(st: ChatState, t: Session, s: Session, sid: nat, flag: Byte, r: Room)
    requires OnlineAgree(st) && UsersKnown(st) && t in st.sessions && s in st.sessions
    requires Reaches(st, s, sid, flag, st.sessions[t].username)
    requires PendingAt(st, KindOf(flag).value, st.sessions[t].username).Some?
    ensures Request(st, s, sid, flag, st.sessions[t].username).ret == Pending
    ensures Request(st, s, sid, flag, st.sessions[t].username).st == st
    ensures MoveTo(st, t, r).1 ==> PendingAt(MoveTo(st, t, r).0, KindOf(flag).value, st.sessions[t].username).None?
  {
    RequestDiscipline(st, s, sid, flag, st.sessions[t].username);
    EnteringClears(st, t, KindOf(flag).value, r);
  }

  lemma EnteringClears(st: ChatState, t: Session, kind: ReqKind, r: Room)
    requires t in st.sessions
    ensures MoveTo(st, t, r).1 ==> PendingAt(MoveTo(st, t, r).0, kind, st.sessions[t].username).None?
  {
    hide MayEnter;
  }

  // ---------------------------------------------------------------- the session counter comes round

  /** The name is in the session store although nobody is logged in under it. */
  ghost predicate Stuck(st: ChatState, u: Bytes) {
    u in st.online && forall s :: s in st.sessions && st.sessions[s].id != 0 ==> st.sessions[s].username != u
  }

  /** From st to st' sessions are at most logged out, and only the names of sessions that were logged in
      leave the session store. */
  ghost predicate OnlyLogsOut(st: ChatState, st': ChatState) {
    && (forall s :: s in st'.sessions ==> s in st.sessions)
    && (forall s :: s in st'.sessions && st'.sessions[s].id != 0 ==>
          st'.sessions[s].id == st.sessions[s].id && st'.sessions[s].username == st.sessions[s].username)
    && (forall u :: u in st.online && u !in st'.online ==> LoggedIn(st, u))
  }

  ghost predicate LoggedIn(st: ChatState, u: Bytes) {
    exists s :: s in st.sessions && st.sessions[s].id != 0 && st.sessions[s].username == u
  }

  lemma OnlyLogsOutTwice(st: ChatState, st1: ChatState, st2: ChatState)
    requires OnlyLogsOut(st, st1) && OnlyLogsOut(st1, st2)
    ensures OnlyLogsOut(st, st2)
  {
    forall u | u in st.online && u !in st2.online
      ensures LoggedIn(st, u)
    {
      if u in st1.online {
        var s :| s in st1.sessions && st1.sessions[s].id != 0 && st1.sessions[s].username == u;
        assert s in st.sessions;
      }
    }
  }

  lemma StuckStays(st: ChatState, u: Bytes, st': ChatState)
    requires Stuck(st, u) && OnlyLogsOut(st, st')
    ensures Stuck(st', u)
  {
  }

  /** Nothing but rooms and request tables changes. */
  ghost predicate SameLogins(st: ChatState, st': ChatState) {
    && st'.online == st.online && st'.sessions.Keys == st.sessions.Keys
    && forall s :: s in st.sessions ==>
         st'.sessions[s].id == st.sessions[s].id && st'.sessions[s].username == st.sessions[s].username
  }

  lemma SameLoginsOut(st: ChatState, st': ChatState)
    requires SameLogins(st, st')
    ensures OnlyLogsOut(st, st')
  {
  }

  lemma LeaveLogins(st: ChatState, s: Session)
    requires s in st.sessions
    ensures SameLogins(st, UserLeave(st, s))
  {
  }

  lemma EnterLogins(st: ChatState, s: Session)
    requires s in st.sessions && st.sessions[s].room.Some?
    ensures UserJoin(st, s).0.online == st.online && UserJoin(st, s).0.sessions == st.sessions
  {
    hide MayEnter;
  }

  lemma MoveLogins(st: ChatState, s: Session, r: Room)
    requires s in st.sessions
    ensures SameLogins(st, MoveTo(st, s, r).0)
  {
    LeaveLogins(st, s);
    hide UserLeave, UserJoin;
    var left := UserLeave(st, s);
    EnterLogins(WithSession(left, s, left.sessions[s].(room := Some(r))), s);
  }

  lemma LogoutLogins(st: ChatState, s: Session)
    requires s in st.sessions
    ensures OnlyLogsOut(st, UserLogout(st, s)) && UserLogout(st, s).sessions.Keys == st.sessions.Keys
    ensures UserLogout(st, s).sessions[s].id == 0
  {
    LeaveLogins(st, s);
    hide UserLeave;
  }

  lemma FreeLogins(st: ChatState, s: Session)
    requires s in st.sessions
    ensures OnlyLogsOut(st, ClientFree(st, s))
  {
    LogoutLogins(st, s);
    hide UserLogout;
  }

  lemma PmAcceptLogins(st: ChatState, requester: Session, responder: Bytes, created: Room)
    requires requester in st.sessions
    ensures SameLogins(st, PmAccept(st, requester, responder, created).0)
  {
    var name := PmRoomName(st.sessions[requester].username, responder);
    var st0 := AddRoom(st, created, name);
    MoveLogins(st0, requester, created);
    var st1 := MoveTo(st0, requester, created).0;
    if responder in st1.online && st1.online[responder] in st1.sessions {
      MoveLogins(st1, st1.online[responder], created);
    }
    hide MoveTo, PmRoomName;
  }

  lemma DecideLogins(st: ChatState, s: Session, target: Session, kind: ReqKind, choice: Byte, created: Room)
    requires s in st.sessions && target in st.sessions
    ensures SameLogins(st, Decide(st, s, target, kind, choice, created).st)
  {
    hide PmAccept;
    PmAcceptLogins(st, target, st.sessions[s].username, created);
  }

  lemma RespondLogins(st: ChatState, s: Session, sid: nat, flag: Byte, choice: Byte, username: Bytes, created: Room)
    requires s in st.sessions
    ensures SameLogins(st, Respond(st, s, sid, flag, choice, username, created).st)
  {
    hide Decide, PendingAt, SameLogins, SessionValid;
    SameLoginsRefl(st);
    if username in st.online && st.online[username] in st.sessions && KindOf(flag).Some? {
      DecideLogins(st, s, st.online[username], KindOf(flag).value, choice, created);
    }
  }

  lemma SameLoginsRefl(st: ChatState)
    ensures SameLogins(st, st) && OnlyLogsOut(st, st)
  {
  }

  lemma {:induction false} LeaveAllLogins(st: ChatState, ms: seq<Session>)
    ensures SameLogins(st, LeaveAll(st, ms))
    decreases |ms|
  {
    if ms != [] {
      var st1 := if ms[0] in st.sessions then UserLeave(st, ms[0]) else st;
      if ms[0] in st.sessions {
        LeaveLogins(st, ms[0]);
      }
      hide UserLeave;
      LeaveAllLogins(st1, ms[1..]);
    }
  }

  lemma DeleteLogins(st: ChatState, s: Session, sid: nat, name: Bytes)
    requires s in st.sessions
    ensures SameLogins(st, Delete(st, s, sid, name).st)
  {
    hide LeaveAll, FindRoom, DropRoom, Members, Broadcast;
    var found := FindRoom(st, st.store, name);
    if found.Some? {
      LeaveAllLogins(st, Members(st, found.value));
    }
  }

  lemma JoinLogins(st: ChatState, s: Session, sid: nat, name: Bytes, created: Room)
    requires s in st.sessions
    ensures SameLogins(st, Join(st, s, sid, name, created).st)
  {
    hide MoveTo, FindRoom;
    var (st1, r) := RoomFor(st, name, created);
    MoveLogins(st1, s, r);
  }

  lemma RequestLogins(st: ChatState, s: Session, sid: nat, flag: Byte, username: Bytes)
    requires s in st.sessions
    ensures SameLogins(st, Request(st, s, sid, flag, username).st)
  {
    hide PendingAt, SessionValid, RequestText;
  }

  lemma MsgSendLogins(st: ChatState, s: Session, sid: nat, msg: Bytes)
    requires s in st.sessions
    ensures SameLogins(st, MsgSend(st, s, sid, msg).st)
  {
    hide SessionValid, Broadcast;
  }

  lemma PromoteLogins(st: ChatState, s: Session, sid: nat, username: Bytes)
    requires s in st.sessions
    ensures SameLogins(st, Promote(st, s, sid, username).st)
  {
    hide SessionValid, IsAdmin, Ascii;
  }

  lemma PlainLogins(st: ChatState, op: Op)
    requires Plain(op) && op.s in st.sessions
    ensures OnlyLogsOut(st, PlainReply(st, op).st)
  {
    hide OnlyLogsOut, SameLogins, Join, Delete, UserLogout, MsgSend, Request, Promote, SessionValid;
    SameLoginsRefl(st);
    if op.LogoutOp? {
      LogoutLogins(st, op.s);
    } else {
      if op.JoinOp? {
        JoinLogins(st, op.s, op.sid, op.name, op.created);
      } else if op.DeleteOp? {
        DeleteLogins(st, op.s, op.sid, op.name);
      } else if op.RequestOp? {
        RequestLogins(st, op.s, op.sid, op.flag, op.username);
      } else if op.MsgSendOp? {
        MsgSendLogins(st, op.s, op.sid, op.msg);
      } else {
        PromoteLogins(st, op.s, op.sid, op.username);
      }
      SameLoginsOut(st, PlainReply(st, op).st);
    }
  }

  lemma DisconnectLogins(st: ChatState, s: Session, sid: nat, username: Bytes)
    requires s in st.sessions
    ensures OnlyLogsOut(st, Disconnect(st, s, sid, username).st)
  {
    hide OnlyLogsOut, UserLogout, ClientFree, SessionValid, IsAdmin;
    SameLoginsRefl(st);
    var target := DisconnectTarget(st, s, sid, username);
    if target.Some? {
      LogoutLogins(st, target.value);
      var gone := UserLogout(st, target.value);
      FreeLogins(gone, target.value);
      OnlyLogsOutTwice(st, gone, ClientFree(gone, target.value));
    }
  }

  // ---------------------------------------------------------------- after the counter has come round

  /** The name is stuck, and whoever is in the middle of a login has no id. */
  ghost predicate StuckWorld(w: World, u: Bytes) {
    && Stuck(w.st, u)
    && forall s :: s in w.phase && s in w.st.sessions && (w.phase[s].AwaitCreds? || w.phase[s].HaveCreds?) ==>
         w.st.sessions[s].id == 0
  }

  lemma StuckAfterLogouts(w: World, u: Bytes, w': World)
    requires StuckWorld(w, u) && OnlyLogsOut(w.st, w'.st)
    requires forall s :: s in w'.phase && (w'.phase[s].AwaitCreds? || w'.phase[s].HaveCreds?) ==>
               (s in w.phase && w.phase[s] == w'.phase[s]) || (s in w'.st.sessions && w'.st.sessions[s].id == 0)
    ensures StuckWorld(w', u)
  {
    StuckStays(w.st, u, w'.st);
  }

  /** Steps after which sessions are at most logged out. */
  lemma LogoutSteps(w: World, op: Op)
    requires Enabled(w, op) && !op.Connect? && !op.LoginCredsOp? && !op.LoginCommitOp?
    ensures OnlyLogsOut(w.st, Step(w, op).st)
  {
    hide OnlyLogsOut, Respond, Disconnect, PlainReply, UserLogout, ClientFree;
    hide InFlight, FileCheck, DisconnectTarget, At;
    SessionIsKnown(w, op);
    SameLoginsRefl(w.st);
    if Plain(op) {
      PlainLogins(w.st, op);
    } else if op.Close? {
      FreeLogins(w.st, op.s);
    } else if op.LoginBeginOp? {
      LogoutLogins(w.st, op.s);
    } else if op.RespondOp? {
      RespondLogins(w.st, op.s, op.sid, op.flag, op.choice, op.username, op.created);
      SameLoginsOut(w.st, Step(w, op).st);
    } else if op.DisconnectOp? {
      DisconnectLogins(w.st, op.s, op.sid, op.username);
    } else if op.FileDoneOp? {
      FileDoneLogins(w.st, w.phase[op.s].target, op.relayed);
    }
  }

  lemma SessionIsKnown(w: World, op: Op)
    requires Enabled(w, op) && !op.Connect?
    ensures op.s in w.st.sessions && op.s in w.phase
  {
    hide InFlight, DisconnectTarget;
  }

  lemma FileDoneLogins(st: ChatState, target: Session, relayed: bool)
    requires target in st.sessions
    ensures OnlyLogsOut(st, FileDone(st, target, relayed).st)
  {
  }

  lemma LogoutPhases(w: World, op: Op)
    requires Enabled(w, op) && !op.Connect? && !op.LoginCredsOp? && !op.LoginCommitOp?
    ensures var w' := Step(w, op);
            forall s :: s in w'.phase && (w'.phase[s].AwaitCreds? || w'.phase[s].HaveCreds?) ==>
              (s in w.phase && w.phase[s] == w'.phase[s]) || (s in w'.st.sessions && w'.st.sessions[s].id == 0)
  {
    SessionIsKnown(w, op);
    if op.LoginBeginOp? {
      LogoutLogins(w.st, op.s);
    }
    hide Respond, Disconnect, PlainReply, UserLogout, ClientFree, InFlight, FileCheck, DisconnectTarget, FileDone;
  }

  lemma ConnectStuck(w: World, s: Session, u: Bytes)
    requires StuckWorld(w, u) && Enabled(w, Connect(s))
    ensures StuckWorld(Step(w, Connect(s)), u)
  {
  }

  lemma CredsStuck(w: World, s: Session, name: Bytes, p: Bytes, fits: bool, u: Bytes)
    requires StuckWorld(w, u) && Enabled(w, LoginCredsOp(s, name, p, fits))
    ensures StuckWorld(Step(w, LoginCredsOp(s, name, p, fits)), u)
  {
    hide ValidUsername, ValidPassword;
  }

  /** A login under the stuck name is refused; one under another name does not touch it. */
  lemma CommitStuck(st: ChatState, s: Session, u: Bytes)
    requires Stuck(st, u) && s in st.sessions
    ensures Stuck(LoginCommit(st, s).st, u)
    ensures st.sessions[s].username == u ==> LoginCommit(st, s).ret == Failure
    ensures LoginCommit(st, s).st.sessions.Keys == st.sessions.Keys
    ensures forall t :: t in st.sessions && t != s ==> LoginCommit(st, s).st.sessions[t] == st.sessions[t]
  {
  }

  lemma CommitStepStuck(w: World, s: Session, u: Bytes)
    requires StuckWorld(w, u) && Enabled(w, LoginCommitOp(s))
    ensures StuckWorld(Step(w, LoginCommitOp(s)), u)
  {
    hide LoginCommit, Accepts;
    CommitStuck(w.st, s, u);
  }

  lemma StepStuck(w: World, op: Op, u: Bytes)
    requires StuckWorld(w, u) && Enabled(w, op)
    ensures StuckWorld(Step(w, op), u)
  {
    hide Enabled, Step, StuckWorld, OnlyLogsOut;
    if op.Connect? {
      ConnectStuck(w, op.s, u);
    } else if op.LoginCredsOp? {
      CredsStuck(w, op.s, op.u, op.p, op.fits, u);
    } else if op.LoginCommitOp? {
      CommitStepStuck(w, op.s, u);
    } else {
      LogoutSteps(w, op);
      LogoutPhases(w, op);
      StuckAfterLogouts(w, u, Step(w, op));
    }
  }

  lemma {:induction false} RunStuck(w: World, ops: seq<Op>, u: Bytes)
    requires StuckWorld(w, u) && Possible(w, ops)
    ensures StuckWorld(After(w, ops), u)
    decreases |ops|
  {
    hide Enabled, Step, StuckWorld;
    if ops != [] {
      StepStuck(w, ops[0], u);
      RunStuck(Step(w, ops[0]), ops[1..], u);
    }
  }

  lemma WrappedStuck(st: ChatState, s: Session)
    requires OnlineAgree(st) && s in st.sessions && st.sessions[s].id == 0 && st.nextId == 0
    requires Accepts(st, st.sessions[s].username, st.sessions[s].password)
    ensures LoginCommit(st, s).ret == Failure && Stuck(LoginCommit(st, s).st, st.sessions[s].username)
    ensures LoginCommit(st, s).st.sessions == st.sessions
  {
    LoginEffect(st, s);
    assert st.sessions[s := st.sessions[s].(id := 0)] == st.sessions;
    hide LoginCommit;
  }

  lemma WrappedWorld(w: World, s: Session, u: Bytes, w': World)
    requires PhasesFit(w) && At(w, s, HaveCreds) && w'.st.sessions == w.st.sessions && Stuck(w'.st, u)
    requires w'.phase == w.phase[s := Idle]
    ensures StuckWorld(w', u)
  {
    hide Stuck, ValidUsername;
  }

  lemma CommitWorld(w: World, s: Session)
    requires Enabled(w, LoginCommitOp(s))
    ensures At(w, s, HaveCreds)
    ensures var w' := Step(w, LoginCommitOp(s)); w'.st == LoginCommit(w.st, s).st && w'.phase == w.phase[s := Idle]
  {
    hide Accepts, UserLogin;
  }

  lemma WrappedCommit(w: World, s: Session)
    requires WorldInv(w) && Enabled(w, LoginCommitOp(s)) && w.st.nextId == 0
    requires Accepts(w.st, w.st.sessions[s].username, w.st.sessions[s].password)
    ensures LoginCommit(w.st, s).ret == Failure
    ensures StuckWorld(Step(w, LoginCommitOp(s)), w.st.sessions[s].username)
  {
    OpenWorld(w);
    Open(w.st);
    CommitWorld(w, s);
    NoIdBeforeCommit(w, s);
    hide *;
    WrappedStuck(w.st, s);
    WrappedWorld(w, s, w.st.sessions[s].username, Step(w, LoginCommitOp(s)));
  }

  lemma NoIdBeforeCommit(w: World, s: Session)
    requires PhasesFit(w) && At(w, s, HaveCreds)
    ensures w.st.sessions[s].id == 0
  {
  }

  /** The login that meets a counter of 0 is answered FAILURE and leaves its name in the session store for
      good: after any run of any handlers, logouts, closed connections and administrators' disconnects
      included, the name is still there, nobody is logged in under it, and every login under it fails. */
  lemma NameIsStuckForever(w: World, s: Session, ops: seq<Op>)
    requires WorldInv(w) && Enabled(w, LoginCommitOp(s)) && w.st.nextId == 0
    requires Accepts(w.st, w.st.sessions[s].username, w.st.sessions[s].password)
    requires Possible(Step(w, LoginCommitOp(s)), ops)
    ensures var u := w.st.sessions[s].username; var st := After(Step(w, LoginCommitOp(s)), ops).st;
            && LoginCommit(w.st, s).ret == Failure
            && u in st.online && !LoggedIn(st, u)
            && forall t :: t in st.sessions && st.sessions[t].username == u ==>
                 LoginCommit(st, t).ret == Failure && u in LoginCommit(st, t).st.online
  {
    var u := w.st.sessions[s].username;
    WrappedCommit(w, s);
    hide WorldInv, Enabled, Step, LoginCommit, Accepts;
    RunStuck(Step(w, LoginCommitOp(s)), ops, u);
    var st := After(Step(w, LoginCommitOp(s)), ops).st;
    forall t | t in st.sessions && st.sessions[t].username == u
      ensures LoginCommit(st, t).ret == Failure && u in LoginCommit(st, t).st.online
    {
      CommitStuck(st, t, u);
    }
  }

  /** A state in which the counter has come round: alice, whose name is new, has sent her credentials. */
  ghost predicate ComeRound(st: ChatState, general: Room, s: Session) {
    && InitState(st.(sessions := map[], nextId := 1), general)
    && st.sessions == map[s := SessRec(Ascii("alice"), Ascii("secret123"), 0, None, [])]
    && st.nextId == 0
  }

  lemma ComeRoundBreaks(st: ChatState, general: Room, s: Session)
    requires ComeRound(st, general, s)
    ensures Inv(st) && !Inv(LoginCommit(st, s).st) && LoginCommit(st, s).ret == Failure
    ensures Stuck(LoginCommit(st, s).st, Ascii("alice"))
  {
    var alice := Ascii("alice");
    assert alice[0] == 97 && alice[1] == 108 && alice[2] == 105 && alice[3] == 99 && alice[4] == 101;
    assert Ascii("admin")[1] == 100;
    assert ValidUsername(alice);
    assert Ascii("general")[0] != PLUS;
    hide ValidUsername;
    Establish(st);
    LoginKeepsInvExactly(st, s);
    LoginEffect(st, s);
  }
}
