/** Which steps of the server can break the properties of ChatLimits: for each of them one kind of step, on
    an exact condition, and no other. */
module ChatLimitRuns {
  import opened ByteStrings
  import opened ChatTypes
  import opened ChatModel
  import opened ChatInvariant
  import opened ChatHandlers
  import opened ChatRuns
  import opened ChatLimits

  lemma StateOf(w: World)
    requires WorldInv(w)
    ensures Inv(w.st)
  {
    assert InOrder(StateLedger, w);
  }

  /** The steps that a step can be, by what has to be known about them. */
  datatype Sort = Quiet | Leaving | Answering | Asking | Joining | Deleting | Committing | Disconnecting

  function SortOf(op: Op): Sort {
    match op
    case Close(_) => Leaving
    case LoginBeginOp(_) => Leaving
    case LogoutOp(_, _) => Leaving
    case LoginCommitOp(_) => Committing
    case JoinOp(_, _, _, _) => Joining
    case RequestOp(_, _, _, _) => Asking
    case RespondOp(_, _, _, _, _, _) => Answering
    case DisconnectOp(_, _, _) => Disconnecting
    case DeleteOp(_, _, _) => Deleting
    case _ => Quiet
  }

  // ---------------------------------------------------------------- names of rooms

  /** No room is new, and none has changed its name. */
  ghost predicate NamesKept(st: ChatState, st': ChatState) {
    forall r :: r in st'.rooms ==> r in st.rooms && st'.rooms[r].name == st.rooms[r].name
  }

  lemma NamesKeptDistinct(st: ChatState, st': ChatState)
    requires NamesKept(st, st') && NamesDistinct(st)
    ensures NamesDistinct(st')
  {
  }

  lemma LeaveNames(st: ChatState, s: Session)
    requires s in st.sessions
    ensures NamesKept(st, UserLeave(st, s))
  {
  }

  lemma LogoutNames(st: ChatState, s: Session)
    requires s in st.sessions
    ensures NamesKept(st, UserLogout(st, s)) && UserLogout(st, s).sessions.Keys == st.sessions.Keys
  {
    LeaveNames(st, s);
    LeaveLogins(st, s);
    hide UserLeave;
  }

  lemma EnterNames(st: ChatState, s: Session)
    requires s in st.sessions && st.sessions[s].room.Some?
    ensures NamesKept(st, UserJoin(st, s).0)
  {
    hide MayEnter;
  }

  lemma MoveNames(st: ChatState, s: Session, r: Room)
    requires s in st.sessions
    ensures NamesKept(st, MoveTo(st, s, r).0)
  {
    LeaveNames(st, s);
    var left := UserLeave(st, s);
    EnterNames(WithSession(left, s, left.sessions[s].(room := Some(r))), s);
    hide UserLeave, UserJoin;
  }

  lemma {:induction false} LeaveAllNames(st: ChatState, ms: seq<Session>)
    ensures NamesKept(st, LeaveAll(st, ms))
    decreases |ms|
  {
    if ms != [] {
      var st1 := if ms[0] in st.sessions then UserLeave(st, ms[0]) else st;
      if ms[0] in st.sessions {
        LeaveNames(st, ms[0]);
      }
      hide UserLeave;
      LeaveAllNames(st1, ms[1..]);
    }
  }

  lemma DeleteNames(st: ChatState, s: Session, sid: nat, name: Bytes)
    requires s in st.sessions
    ensures NamesKept(st, Delete(st, s, sid, name).st)
  {
    hide LeaveAll, FindRoom, DropRoom, Members, Broadcast;
    var found := FindRoom(st, st.store, name);
    if found.Some? {
      LeaveAllNames(st, Members(st, found.value));
    }
  }

  lemma DisconnectNames(st: ChatState, s: Session, sid: nat, username: Bytes)
    requires s in st.sessions
    ensures NamesKept(st, Disconnect(st, s, sid, username).st)
  {
    hide UserLogout, SessionValid, IsAdmin;
    var target := DisconnectTarget(st, s, sid, username);
    if target.Some? {
      LogoutNames(st, target.value);
      LogoutNames(UserLogout(st, target.value), target.value);
    }
  }

  /** A join by name makes a room only where none has the name. */
  lemma RoomForNames(st: ChatState, name: Bytes, created: Room)
    requires StoreGood(st) && created !in st.rooms && NamesDistinct(st)
    ensures NamesDistinct(RoomFor(st, name, created).0) && RoomFor(st, name, created).0.sessions == st.sessions
  {
    FindRoomResult(st, st.store, name);
    hide FindRoom;
  }

  lemma JoinNames(st: ChatState, s: Session, sid: nat, name: Bytes, created: Room)
    requires StoreGood(st) && s in st.sessions && created !in st.rooms && NamesDistinct(st)
    ensures NamesDistinct(Join(st, s, sid, name, created).st)
  {
    hide RoomFor, MoveTo, NamesDistinct, NamesKept, StoreGood, AllAlnum, SessionValid;
    RoomForNames(st, name, created);
    var (st1, r) := RoomFor(st, name, created);
    MoveNames(st1, s, r);
    NamesKeptDistinct(st1, MoveTo(st1, s, r).0);
  }

  /** An answer that opens a private conversation. */
  ghost predicate OpensTalk(st: ChatState, op: Op) {
    && op.RespondOp? && op.s in st.sessions && op.flag == 0 && op.choice != 1
    && MayAnswer(st, op.s, op.sid, op.flag, op.username)
  }

  /** The answer opens a private conversation for which there is a room already. */
  ghost predicate SecondTalk(st: ChatState, op: Op) {
    OpensTalk(st, op) && NameTaken(st, PmRoomName(op.username, st.sessions[op.s].username))
  }

  lemma NoTalkNames(st: ChatState, op: Op)
    requires Inv(st) && op.RespondOp? && op.s in st.sessions && !OpensTalk(st, op)
    ensures NamesKept(st, Respond(st, op.s, op.sid, op.flag, op.choice, op.username, op.created).st)
  {
    Open(st);
    if MayAnswer(st, op.s, op.sid, op.flag, op.username) {
      RespondOther(st, op.s, op.sid, op.flag, op.choice, op.username, op.created);
    } else {
      RespondRefused(st, op.s, op.sid, op.flag, op.choice, op.username, op.created);
    }
    hide Respond, MayAnswer, Inv;
  }

  lemma SameRoomsDistinct(st: ChatState, st': ChatState)
    requires st'.rooms == st.rooms
    ensures NamesDistinct(st') <==> NamesDistinct(st)
    ensures forall name :: NameTaken(st', name) <==> NameTaken(st, name)
  {
    forall name
      ensures NameTaken(st', name) <==> NameTaken(st, name)
    {
    }
  }

  lemma TalkNames(st: ChatState, op: Op)
    requires Inv(st) && op.RespondOp? && op.s in st.sessions && op.created !in st.rooms && OpensTalk(st, op)
    requires NamesDistinct(st)
    ensures NamesDistinct(Respond(st, op.s, op.sid, op.flag, op.choice, op.username, op.created).st)
            <==> !SecondTalk(st, op)
  {
    Open(st);
    var from := st.online[op.username];
    PmAcceptKeepsInv(st, from, op.s, op.created);
    NamesStayDistinctExactly(st, from, op.s, op.created);
    RespondPm(st, op.s, op.sid, op.flag, op.choice, op.username, op.created);
    hide Respond, MayAnswer, Inv, PmAccept, NamesDistinct, NameTaken;
    hide RoomsAgree, RoomUsers, UsersKnown, StoreGood, PrivateRooms;
    SameRoomsDistinct(PmAccept(st, from, st.sessions[op.s].username, op.created).0,
                      Respond(st, op.s, op.sid, op.flag, op.choice, op.username, op.created).st);
  }

  // ---------------------------------------------------------------- what the steps do to the state

  /** Rooms, session store and request tables are as they were, and so is everybody's room. */
  ghost predicate Undisturbed(st: ChatState, st': ChatState) {
    && st'.rooms == st.rooms && st'.online == st.online && st'.pmReqs == st.pmReqs && st'.fileReqs == st.fileReqs
    && forall t :: t in st.sessions ==> t in st'.sessions && st'.sessions[t].room == st.sessions[t].room
  }

  lemma QuietMessage(st: ChatState, s: Session, sid: nat, msg: Bytes)
    requires s in st.sessions
    ensures Undisturbed(st, MsgSend(st, s, sid, msg).st)
  {
    hide Broadcast, SessionValid;
  }

  lemma QuietPromote(st: ChatState, s: Session, sid: nat, username: Bytes)
    requires s in st.sessions
    ensures Undisturbed(st, Promote(st, s, sid, username).st)
  {
    hide SessionValid, IsAdmin, Ascii;
  }

  lemma QuietRecord(st: ChatState, s: Session, rec: SessRec)
    requires s in st.sessions && rec.room == st.sessions[s].room
    ensures Undisturbed(st, WithSession(st, s, rec))
  {
  }

  lemma QuietCreds(st: ChatState, s: Session, u: Bytes, p: Bytes, fits: bool)
    requires s in st.sessions
    ensures Undisturbed(st, LoginCreds(st, s, u, p, fits).st)
  {
    hide ValidUsername, ValidPassword, Undisturbed;
    var rec := st.sessions[s].(username := u, password := p);
    QuietRecord(st, s, rec);
    QuietRecord(st, s, rec.(id := 0));
    assert st.sessions[s := rec][s := rec.(id := 0)] == st.sessions[s := rec.(id := 0)];
  }

  lemma QuietRelay(st: ChatState, t: Session, relayed: bool)
    requires t in st.sessions
    ensures Undisturbed(st, FileDone(st, t, relayed).st)
  {
  }

  lemma QuietConnect(st: ChatState, s: Session)
    requires s !in st.sessions
    ensures Undisturbed(st, st) && Undisturbed(st, ClientInit(st, s))
  {
  }

  lemma QuietState(w: World, op: Op)
    requires Enabled(w, op) && SortOf(op) == Quiet
    ensures Undisturbed(w.st, Step(w, op).st)
  {
    hide InFlight, FileCheck, Undisturbed, LoginCreds, FileDone, ClientInit, MsgSend, Promote;
    if op.Connect? {
      QuietConnect(w.st, op.s);
    } else if op.LoginCredsOp? {
      QuietCreds(w.st, op.s, op.u, op.p, op.fits);
    } else if op.FileDoneOp? {
      QuietRelay(w.st, w.phase[op.s].target, op.relayed);
    } else if op.MsgSendOp? {
      QuietMessage(w.st, op.s, op.sid, op.msg);
    } else if op.PromoteOp? {
      QuietPromote(w.st, op.s, op.sid, op.username);
    } else {
      UndisturbedSelf(w.st);
    }
  }

  lemma UndisturbedSelf(st: ChatState)
    ensures Undisturbed(st, st)
  {
  }

  /** The state after a session has left: as it was, or logged out, or logged out and gone. */
  ghost predicate LeftState(st: ChatState, s: Session, st': ChatState)
    requires s in st.sessions
  {
    st' == st || st' == UserLogout(st, s) || st' == RemoveSession(UserLogout(st, s), s)
  }

  lemma LeavingState(w: World, op: Op)
    requires Enabled(w, op) && SortOf(op) == Leaving
    ensures op.s in w.st.sessions && LeftState(w.st, op.s, Step(w, op).st)
  {
    hide InFlight, UserLogout;
  }

  lemma CommittingState(w: World, op: Op)
    requires Enabled(w, op) && SortOf(op) == Committing
    ensures op.s in w.st.sessions && Step(w, op).st == LoginCommit(w.st, op.s).st
  {
    hide LoginCommit, Accepts;
  }

  /** What the handlers that answer in one go leave behind. */
  ghost function Handled(st: ChatState, op: Op): ChatState
    requires op.s in st.sessions
  {
    match op
    case JoinOp(s, sid, name, created) => Join(st, s, sid, name, created).st
    case RequestOp(s, sid, flag, username) => Request(st, s, sid, flag, username).st
    case RespondOp(s, sid, flag, choice, username, created) => Respond(st, s, sid, flag, choice, username, created).st
    case DeleteOp(s, sid, name) => Delete(st, s, sid, name).st
    case DisconnectOp(s, sid, username) => Disconnect(st, s, sid, username).st
    case _ => st
  }

  lemma OtherState(w: World, op: Op)
    requires Enabled(w, op) && SortOf(op) != Quiet && SortOf(op) != Leaving && SortOf(op) != Committing
    ensures op.s in w.st.sessions && Step(w, op).st == Handled(w.st, op)
    ensures op.JoinOp? || op.RespondOp? ==> op.created !in w.st.rooms
  {
    hide InFlight, Join, Request, Respond, Delete, Disconnect, DisconnectTarget;
  }

  lemma LeftNames(st: ChatState, s: Session, st': ChatState)
    requires s in st.sessions && LeftState(st, s, st')
    ensures NamesKept(st, st')
  {
    LogoutNames(st, s);
    hide UserLogout;
  }

  lemma OtherNames(st: ChatState, op: Op)
    requires Inv(st) && NamesDistinct(st) && op.s in st.sessions
    requires op.JoinOp? || op.RequestOp? || op.RespondOp? || op.DeleteOp? || op.DisconnectOp?
    requires op.JoinOp? || op.RespondOp? ==> op.created !in st.rooms
    ensures NamesDistinct(Handled(st, op)) <==> !SecondTalk(st, op)
  {
    Open(st);
    hide Inv, Join, Request, Respond, Delete, Disconnect, OpensTalk, NamesDistinct, NamesKept;
    hide StoreGood, RoomsAgree, RoomUsers, UsersKnown, PrivateRooms, OnlineAgree;
    if op.RespondOp? {
      if OpensTalk(st, op) {
        TalkNames(st, op);
      } else {
        NoTalkNames(st, op);
        NamesKeptDistinct(st, Handled(st, op));
      }
    } else {
      OtherThanAnswers(st, op);
    }
  }

  lemma OtherThanAnswers(st: ChatState, op: Op)
    requires Inv(st) && NamesDistinct(st) && op.s in st.sessions
    requires op.JoinOp? || op.RequestOp? || op.DeleteOp? || op.DisconnectOp?
    requires op.JoinOp? ==> op.created !in st.rooms
    ensures NamesDistinct(Handled(st, op)) && !SecondTalk(st, op)
  {
    Open(st);
    hide Inv, Join, Request, Delete, Disconnect, NamesDistinct, NamesKept, StoreGood, RoomsAgree, RoomUsers;
    hide UsersKnown, PrivateRooms, OnlineAgree;
    if op.JoinOp? {
      JoinNames(st, op.s, op.sid, op.name, op.created);
    } else {
      if op.RequestOp? {
        RequestNames(st, op.s, op.sid, op.flag, op.username);
      } else if op.DeleteOp? {
        DeleteNames(st, op.s, op.sid, op.name);
      } else {
        DisconnectNames(st, op.s, op.sid, op.username);
      }
      NamesKeptDistinct(st, Handled(st, op));
    }
  }

  lemma RequestNames(st: ChatState, s: Session, sid: nat, flag: Byte, username: Bytes)
    requires s in st.sessions
    ensures NamesKept(st, Request(st, s, sid, flag, username).st)
  {
    hide PendingAt, SessionValid, RequestText;
  }

  lemma CommitNames(st: ChatState, s: Session)
    requires s in st.sessions
    ensures LoginCommit(st, s).st.rooms == st.rooms
  {
  }

  /** Of all steps only one kind can end the distinctness of room names, and it does so exactly when it opens
      a private conversation for which there is a room already. */
  lemma StepNamesExactly(w: World, op: Op)
    requires WorldInv(w) && Enabled(w, op) && NamesDistinct(w.st)
    ensures NamesDistinct(Step(w, op).st) <==> !SecondTalk(w.st, op)
  {
    hide *;
    StateOf(w);
    NoTalkBut(w.st, op);
    SortsOf(op);
    match SortOf(op)
    case Quiet =>
      QuietState(w, op);
      UndisturbedRooms(w.st, Step(w, op).st);
      SameRoomsDistinct(w.st, Step(w, op).st);
    case Leaving =>
      LeavingState(w, op);
      LeftNames(w.st, op.s, Step(w, op).st);
      NamesKeptDistinct(w.st, Step(w, op).st);
    case Committing =>
      CommittingState(w, op);
      CommitNames(w.st, op.s);
      SameRoomsDistinct(w.st, Step(w, op).st);
    case _ =>
      OtherState(w, op);
      OtherNames(w.st, op);
  }

  lemma SortsOf(op: Op)
    ensures SortOf(op) != Quiet && SortOf(op) != Leaving && SortOf(op) != Committing ==>
              op.JoinOp? || op.RequestOp? || op.RespondOp? || op.DeleteOp? || op.DisconnectOp?
    ensures SortOf(op) == Quiet || SortOf(op) == Leaving || SortOf(op) == Committing ==>
              !op.RespondOp? && !op.RequestOp?
  {
  }

  lemma NoTalkBut(st: ChatState, op: Op)
    ensures !op.RespondOp? ==> !SecondTalk(st, op)
  {
  }

  lemma UndisturbedRooms(st: ChatState, st': ChatState)
    requires Undisturbed(st, st')
    ensures st'.rooms == st.rooms
  {
  }

  /** No step of the run opens a private conversation for which there is a room already. */
  ghost predicate NoSecondTalk(w: World, ops: seq<Op>)
    requires Possible(w, ops)
    decreases |ops|
  {
    ops == [] || (!SecondTalk(w.st, ops[0]) && NoSecondTalk(Step(w, ops[0]), ops[1..]))
  }

  lemma {:induction false} RunKeepsNames(w: World, ops: seq<Op>)
    requires WorldInv(w) && Possible(w, ops) && After(w, ops).granted < ID_LIMIT
    requires NamesDistinct(w.st) && NoSecondTalk(w, ops)
    ensures NamesDistinct(After(w, ops).st)
    decreases |ops|
  {
    hide WorldInv, Enabled, Step, SecondTalk, NamesDistinct;
    if ops != [] {
      GrantedGrows(Step(w, ops[0]), ops[1..]);
      StepKeepsInv(w, ops[0]);
      StepNamesExactly(w, ops[0]);
      RunKeepsNames(Step(w, ops[0]), ops[1..]);
    }
  }

  // ---------------------------------------------------------------- entries of the request tables

  /** The user has an entry: in both tables, or in at least one. */
  predicate Has(st: ChatState, u: Bytes, both: bool) {
    if both then u in st.pmReqs && u in st.fileReqs else u in st.pmReqs || u in st.fileReqs
  }

  ghost predicate EntriesMean(st: ChatState, both: bool) { forall u :: Has(st, u, both) ==> InRoom(st, u) }

  lemma TwoReadings(st: ChatState)
    ensures EntriesMean(st, false) <==> EntryMeansRoom(st)
    ensures EntriesMean(st, true) <==> BothEntriesMeanRoom(st)
  {
    hide InRoom;
    if EntriesMean(st, false) {
      forall u | u in st.pmReqs || u in st.fileReqs
        ensures InRoom(st, u)
      {
        assert Has(st, u, false);
      }
    }
    if EntriesMean(st, true) {
      forall u | u in st.pmReqs && u in st.fileReqs
        ensures InRoom(st, u)
      {
        assert Has(st, u, true);
      }
    }
  }

  lemma UndisturbedEntries(st: ChatState, st': ChatState, both: bool)
    requires Undisturbed(st, st') && EntriesMean(st, both)
    ensures EntriesMean(st', both)
  {
    forall u | Has(st', u, both)
      ensures InRoom(st', u)
    {
      assert Has(st, u, both);
    }
  }

  lemma LeaveEntries(st: ChatState, s: Session, both: bool)
    requires OnlineAgree(st) && s in st.sessions && EntriesMean(st, both)
    ensures EntriesMean(UserLeave(st, s), both)
  {
    var st' := UserLeave(st, s);
    LeaveLogins(st, s);
    forall u | Has(st', u, both)
      ensures InRoom(st', u)
    {
      assert Has(st, u, both) && InRoom(st, u);
    }
  }

  lemma StillAgree(st: ChatState, st': ChatState)
    requires OnlineAgree(st) && SameLogins(st, st')
    ensures OnlineAgree(st')
  {
  }

  /** The session of a user in no room is logged out. */
  lemma GoneEntries(left: ChatState, s: Session, st': ChatState, both: bool)
    requires OnlineAgree(left) && s in left.sessions && left.sessions[s].room.None? && EntriesMean(left, both)
    requires st' == left.(sessions := left.sessions[s := SessRec([], [], 0, None, left.sessions[s].allow)],
                          online := if left.sessions[s].id == 0 then left.online
                                    else left.online - {left.sessions[s].username})
    ensures EntriesMean(st', both) && EntriesMean(RemoveSession(st', s), both)
  {
    forall u | Has(st', u, both)
      ensures InRoom(st', u) && InRoom(RemoveSession(st', s), u)
    {
      assert Has(left, u, both) && InRoom(left, u);
    }
    forall u | Has(RemoveSession(st', s), u, both)
      ensures InRoom(RemoveSession(st', s), u)
    {
      assert Has(st', u, both);
    }
  }

  lemma LogoutEntries(st: ChatState, s: Session, both: bool)
    requires Inv(st) && s in st.sessions && EntriesMean(st, both)
    ensures EntriesMean(UserLogout(st, s), both) && EntriesMean(RemoveSession(UserLogout(st, s), s), both)
  {
    hide *;
    Open(st);
    LogoutRecord(st, s);
    Open(UserLeave(st, s));
    LeaveEntries(st, s, both);
    GoneEntries(UserLeave(st, s), s, UserLogout(st, s), both);
  }

  lemma LeftEntries(st: ChatState, s: Session, st': ChatState, both: bool)
    requires Inv(st) && s in st.sessions && EntriesMean(st, both) && LeftState(st, s, st')
    ensures EntriesMean(st', both)
  {
    hide Inv, UserLogout, EntriesMean, RemoveSession;
    LogoutEntries(st, s, both);
  }

  /** A logged-in session is put into a room. */
  lemma PlacedEntries(left: ChatState, s: Session, r: Room, both: bool)
    requires OnlineAgree(left) && s in left.sessions && left.sessions[s].id != 0 && EntriesMean(left, both)
    ensures var placed := WithSession(left, s, left.sessions[s].(room := Some(r)));
            && EntriesMean(placed, both) && InRoom(placed, left.sessions[s].username)
            && EntriesMean(UserJoin(placed, s).0, both)
  {
    hide MayEnter, Members;
    var placed := WithSession(left, s, left.sessions[s].(room := Some(r)));
    forall u | Has(placed, u, both)
      ensures InRoom(placed, u)
    {
      assert Has(left, u, both) && InRoom(left, u);
    }
    var joined := UserJoin(placed, s).0;
    forall u | Has(joined, u, both)
      ensures InRoom(joined, u)
    {
      assert u == left.sessions[s].username || Has(placed, u, both);
    }
  }

  lemma MoveEntries(st: ChatState, s: Session, r: Room, both: bool)
    requires OnlineAgree(st) && s in st.sessions && st.sessions[s].id != 0 && EntriesMean(st, both)
    ensures EntriesMean(MoveTo(st, s, r).0, both) && OnlineAgree(MoveTo(st, s, r).0)
  {
    LeaveEntries(st, s, both);
    LeaveLogins(st, s);
    StillAgree(st, UserLeave(st, s));
    MoveLogins(st, s, r);
    StillAgree(st, MoveTo(st, s, r).0);
    hide UserLeave, UserJoin, EntriesMean, OnlineAgree, InRoom;
    PlacedEntries(UserLeave(st, s), s, r, both);
  }

  lemma RoomsEntries(st: ChatState, st': ChatState, both: bool)
    requires st'.online == st.online && st'.pmReqs == st.pmReqs && st'.fileReqs == st.fileReqs
    requires st'.sessions == st.sessions
    ensures EntriesMean(st', both) <==> EntriesMean(st, both)
    ensures OnlineAgree(st') <==> OnlineAgree(st)
  {
    if EntriesMean(st, both) {
      forall u | Has(st', u, both)
        ensures InRoom(st', u)
      {
        assert Has(st, u, both);
      }
    }
    if EntriesMean(st', both) {
      forall u | Has(st, u, both)
        ensures InRoom(st, u)
      {
        assert Has(st', u, both);
      }
    }
  }

  lemma JoinEntries(st: ChatState, s: Session, sid: nat, name: Bytes, created: Room, both: bool)
    requires OnlineAgree(st) && s in st.sessions && EntriesMean(st, both)
    ensures EntriesMean(Join(st, s, sid, name, created).st, both)
  {
    hide MoveTo, FindRoom, EntriesMean, OnlineAgree, AllAlnum;
    var (st1, r) := RoomFor(st, name, created);
    RoomsEntries(st, st1, both);
    if SessionValid(st, s, sid) {
      MoveEntries(st1, s, r, both);
    }
  }

  /** An entry is written for a user in a room. */
  lemma TableEntries(st: ChatState, kind: ReqKind, u: Bytes, value: Bytes, both: bool)
    requires EntriesMean(st, both) && InRoom(st, u)
    ensures EntriesMean(WithTable(st, kind, Table(st, kind)[u := value]), both)
  {
    var st' := WithTable(st, kind, Table(st, kind)[u := value]);
    forall v | Has(st', v, both)
      ensures InRoom(st', v)
    {
      assert v == u || Has(st, v, both);
    }
  }

  lemma AllowEntries(st: ChatState, s: Session, allow: Bytes, both: bool)
    requires s in st.sessions && EntriesMean(st, both)
    ensures EntriesMean(WithSession(st, s, st.sessions[s].(allow := allow)), both)
    ensures forall u :: InRoom(st, u) ==> InRoom(WithSession(st, s, st.sessions[s].(allow := allow)), u)
  {
    var st' := WithSession(st, s, st.sessions[s].(allow := allow));
    UndisturbedEntries(st, st', both);
  }

  lemma PmAcceptEntries(st: ChatState, requester: Session, responder: Bytes, created: Room, both: bool)
    requires OnlineAgree(st) && requester in st.sessions && st.sessions[requester].id != 0 && EntriesMean(st, both)
    ensures EntriesMean(PmAccept(st, requester, responder, created).0, both)
  {
    hide MoveTo, PmRoomName, EntriesMean, RoomsAgree;
    var name := PmRoomName(st.sessions[requester].username, responder);
    var st0 := AddRoom(st, created, name);
    RoomsEntries(st, st0, both);
    MoveEntries(st0, requester, created, both);
    var st1 := MoveTo(st0, requester, created).0;
    if responder in st1.online {
      MoveEntries(st1, st1.online[responder], created, both);
    }
  }

  lemma AnswerEntries(st: ChatState, op: Op, both: bool)
    requires Inv(st) && op.RespondOp? && op.s in st.sessions && op.created !in st.rooms && EntriesMean(st, both)
    ensures EntriesMean(Respond(st, op.s, op.sid, op.flag, op.choice, op.username, op.created).st, both)
  {
    Open(st);
    hide Inv, Respond, EntriesMean, MayAnswer, RoomsAgree, RoomUsers, UsersKnown, StoreGood, PrivateRooms;
    if !MayAnswer(st, op.s, op.sid, op.flag, op.username) {
      RespondRefused(st, op.s, op.sid, op.flag, op.choice, op.username, op.created);
    } else {
      AnswererInRoom(st, op);
      if op.choice == 1 || op.flag == 1 {
        OtherAnswerEntries(st, op, both);
      } else {
        TalkEntries(st, op, both);
      }
    }
  }

  lemma AnswererInRoom(st: ChatState, op: Op)
    requires OnlineAgree(st) && op.RespondOp? && op.s in st.sessions
    requires MayAnswer(st, op.s, op.sid, op.flag, op.username)
    ensures InRoom(st, st.sessions[op.s].username) && st.sessions[op.s].id != 0
    ensures KindOf(op.flag).Some? && (op.flag != 1 ==> op.flag == 0)
    ensures op.username in st.online && st.online[op.username] in st.sessions
    ensures st.sessions[st.online[op.username]].id != 0
  {
  }

  lemma OtherAnswerEntries(st: ChatState, op: Op, both: bool)
    requires OnlineAgree(st) && op.RespondOp? && op.s in st.sessions && EntriesMean(st, both)
    requires MayAnswer(st, op.s, op.sid, op.flag, op.username) && (op.choice == 1 || op.flag == 1)
    ensures EntriesMean(Respond(st, op.s, op.sid, op.flag, op.choice, op.username, op.created).st, both)
  {
    AnswererInRoom(st, op);
    RespondOther(st, op.s, op.sid, op.flag, op.choice, op.username, op.created);
    hide Respond, EntriesMean, MayAnswer, InRoom, OnlineAgree, WithTable;
    var me, rec := st.sessions[op.s].username, st.sessions[op.s];
    var allow := if op.choice == 1 then rec.allow else op.username;
    assert rec.(allow := rec.allow) == rec;
    AllowEntries(st, op.s, allow, both);
    TableEntries(WithSession(st, op.s, rec.(allow := allow)), KindOf(op.flag).value, me, [], both);
  }

  lemma TalkEntries(st: ChatState, op: Op, both: bool)
    requires Inv(st) && op.RespondOp? && op.s in st.sessions && op.created !in st.rooms && EntriesMean(st, both)
    requires MayAnswer(st, op.s, op.sid, op.flag, op.username) && op.choice != 1 && op.flag != 1
    ensures EntriesMean(Respond(st, op.s, op.sid, op.flag, op.choice, op.username, op.created).st, both)
  {
    Open(st);
    AnswererInRoom(st, op);
    var from, me := st.online[op.username], st.sessions[op.s].username;
    PmAcceptKeepsInv(st, from, op.s, op.created);
    PmAcceptEntries(st, from, me, op.created, both);
    RespondPm(st, op.s, op.sid, op.flag, op.choice, op.username, op.created);
    var st1 := PmAccept(st, from, me, op.created).0;
    MemberInRoom(st1, op.s, op.created);
    hide Respond, EntriesMean, MayAnswer, OnlineAgree, PmAccept, Inv;
    hide RoomsAgree, RoomUsers, UsersKnown, StoreGood, PrivateRooms;
    TableEntries(st1, PmKind, me, [], both);
  }

  lemma MemberInRoom(st: ChatState, s: Session, r: Room)
    requires Inv(st) && IsMember(st, r, s)
    ensures s in st.sessions && InRoom(st, st.sessions[s].username)
  {
    Open(st);
  }

  lemma {:induction false} LeaveAllEntries(st: ChatState, ms: seq<Session>, both: bool)
    requires OnlineAgree(st) && EntriesMean(st, both)
    ensures EntriesMean(LeaveAll(st, ms), both)
    decreases |ms|
  {
    hide EntriesMean, OnlineAgree, UserLeave;
    if ms != [] {
      if ms[0] in st.sessions {
        LeaveEntries(st, ms[0], both);
        LeaveLogins(st, ms[0]);
        StillAgree(st, UserLeave(st, ms[0]));
        LeaveAllEntries(UserLeave(st, ms[0]), ms[1..], both);
      } else {
        LeaveAllEntries(st, ms[1..], both);
      }
    }
  }

  lemma DeleteEntries(st: ChatState, s: Session, sid: nat, name: Bytes, both: bool)
    requires OnlineAgree(st) && s in st.sessions && EntriesMean(st, both)
    ensures EntriesMean(Delete(st, s, sid, name).st, both)
  {
    hide LeaveAll, FindRoom, DropRoom, Members, Broadcast, EntriesMean, SessionValid, IsAdmin, OnlineAgree;
    var found := FindRoom(st, st.store, name);
    if found.Some? {
      var emptied := LeaveAll(st, Members(st, found.value));
      LeaveAllEntries(st, Members(st, found.value), both);
      RoomsEntries(emptied, DeleteRoom(st, found.value, name), both);
    }
  }

  lemma DisconnectEntries(st: ChatState, s: Session, sid: nat, username: Bytes, both: bool)
    requires Inv(st) && s in st.sessions && EntriesMean(st, both)
    ensures EntriesMean(Disconnect(st, s, sid, username).st, both)
  {
    hide UserLogout, SessionValid, IsAdmin, EntriesMean, Inv, RemoveSession;
    var target := DisconnectTarget(st, s, sid, username);
    if target.Some? {
      LogoutKeepsInv(st, target.value);
      LogoutEntries(st, target.value, both);
      LogoutEntries(UserLogout(st, target.value), target.value, both);
    }
  }

  lemma CommitEntries(st: ChatState, s: Session, both: bool)
    requires OnlineAgree(st) && s in st.sessions && EntriesMean(st, both)
    ensures EntriesMean(LoginCommit(st, s).st, both)
  {
    LoginEffect(st, s);
    hide LoginCommit, OnlineAgree;
    var st' := LoginCommit(st, s).st;
    forall u | Has(st', u, both)
      ensures InRoom(st', u)
    {
      assert Has(st, u, both) && InRoom(st, u);
    }
  }

  /** The request writes an entry for a user in no room, who then has one in the way that is asked for. */
  ghost predicate EntersRoomless(st: ChatState, op: Op, both: bool) {
    && op.RequestOp? && op.s in st.sessions && WillRecord(st, op.s, op.sid, op.flag, op.username)
    && !InRoom(st, op.username)
    && (both ==> op.username in (if KindOf(op.flag) == Some(PmKind) then st.fileReqs else st.pmReqs))
  }

  lemma RequestEntries(st: ChatState, op: Op, both: bool)
    requires Inv(st) && op.RequestOp? && op.s in st.sessions && EntriesMean(st, both)
    ensures EntriesMean(Request(st, op.s, op.sid, op.flag, op.username).st, both) <==> !EntersRoomless(st, op, both)
  {
    Open(st);
    var st' := Request(st, op.s, op.sid, op.flag, op.username).st;
    TwoReadings(st);
    TwoReadings(st');
    hide Inv, Request, EntriesMean, EntryMeansRoom, BothEntriesMeanRoom, WillRecord, InRoom, OnlineAgree, UsersKnown;
    if both {
      BothEntriesExactly(st, op.s, op.sid, op.flag, op.username);
    } else {
      EntriesExactly(st, op.s, op.sid, op.flag, op.username);
    }
  }

  lemma OtherEntries(st: ChatState, op: Op, both: bool)
    requires Inv(st) && EntriesMean(st, both) && op.s in st.sessions
    requires op.JoinOp? || op.RequestOp? || op.RespondOp? || op.DeleteOp? || op.DisconnectOp?
    requires op.JoinOp? || op.RespondOp? ==> op.created !in st.rooms
    ensures EntriesMean(Handled(st, op), both) <==> !EntersRoomless(st, op, both)
  {
    Open(st);
    hide Inv, Join, Request, Respond, Delete, Disconnect, EntriesMean, StoreGood, RoomsAgree, RoomUsers;
    hide UsersKnown, PrivateRooms, OnlineAgree, EntersRoomless;
    OnlyRequestsEnter(st, op, both);
    if op.RequestOp? {
      RequestEntries(st, op, both);
    } else if op.RespondOp? {
      AnswerEntries(st, op, both);
    } else if op.JoinOp? {
      JoinEntries(st, op.s, op.sid, op.name, op.created, both);
    } else if op.DeleteOp? {
      DeleteEntries(st, op.s, op.sid, op.name, both);
    } else {
      DisconnectEntries(st, op.s, op.sid, op.username, both);
    }
  }

  lemma OnlyRequestsEnter(st: ChatState, op: Op, both: bool)
    ensures !op.RequestOp? ==> !EntersRoomless(st, op, both)
  {
  }

  lemma AgreesOnline(st: ChatState)
    requires Inv(st)
    ensures OnlineAgree(st)
  {
    Open(st);
  }

  /** Of all steps only one kind can end that an entry, or one in both tables, means being in a room, and it
      does so exactly when it writes such an entry for a user in no room. */
  lemma StepEntriesExactly(w: World, op: Op, both: bool)
    requires WorldInv(w) && Enabled(w, op) && EntriesMean(w.st, both)
    ensures EntriesMean(Step(w, op).st, both) <==> !EntersRoomless(w.st, op, both)
  {
    hide *;
    StateOf(w);
    AgreesOnline(w.st);
    OnlyRequestsEnter(w.st, op, both);
    SortsOf(op);
    match SortOf(op)
    case Quiet =>
      QuietState(w, op);
      UndisturbedEntries(w.st, Step(w, op).st, both);
    case Leaving =>
      LeavingState(w, op);
      LeftEntries(w.st, op.s, Step(w, op).st, both);
    case Committing =>
      CommittingState(w, op);
      CommitEntries(w.st, op.s, both);
    case _ =>
      OtherState(w, op);
      OtherEntries(w.st, op, both);
  }

  /** No request of the run writes an entry for a user in no room. */
  ghost predicate NoRoomlessEntry(w: World, ops: seq<Op>, both: bool)
    requires Possible(w, ops)
    decreases |ops|
  {
    ops == [] || (!EntersRoomless(w.st, ops[0], both) && NoRoomlessEntry(Step(w, ops[0]), ops[1..], both))
  }

  lemma {:induction false} RunKeepsEntries(w: World, ops: seq<Op>, both: bool)
    requires WorldInv(w) && Possible(w, ops) && After(w, ops).granted < ID_LIMIT
    requires EntriesMean(w.st, both) && NoRoomlessEntry(w, ops, both)
    ensures EntriesMean(After(w, ops).st, both)
    decreases |ops|
  {
    hide WorldInv, Enabled, Step, EntersRoomless, EntriesMean;
    if ops != [] {
      GrantedGrows(Step(w, ops[0]), ops[1..]);
      StepKeepsInv(w, ops[0]);
      StepEntriesExactly(w, ops[0], both);
      RunKeepsEntries(Step(w, ops[0]), ops[1..], both);
    }
  }

  lemma StartIsRegular(w: World, general: Room)
    requires Init(w, general)
    ensures WorldInv(w) && NamesDistinct(w.st) && EntriesMean(w.st, false) && EntriesMean(w.st, true)
  {
    InitEstablishes(w, general);
  }

  /** From the start of the server: room names are distinct, and an entry means being in a room, as long as no
      step of these two kinds has happened. */
  lemma RegularUntil(w: World, ops: seq<Op>, general: Room)
    requires Init(w, general) && Possible(w, ops) && After(w, ops).granted < ID_LIMIT
    ensures NoSecondTalk(w, ops) ==> NamesDistinct(After(w, ops).st)
    ensures NoRoomlessEntry(w, ops, false) ==> EntryMeansRoom(After(w, ops).st)
    ensures NoRoomlessEntry(w, ops, true) ==> BothEntriesMeanRoom(After(w, ops).st)
  {
    hide *;
    StartIsRegular(w, general);
    TwoReadings(After(w, ops).st);
    if NoSecondTalk(w, ops) {
      RunKeepsNames(w, ops);
    }
    if NoRoomlessEntry(w, ops, false) {
      RunKeepsEntries(w, ops, false);
    }
    if NoRoomlessEntry(w, ops, true) {
      RunKeepsEntries(w, ops, true);
    }
  }
}
