/** The permission to send a file: whom it belongs to, and what changes it. */
module ChatPermissions {
  import opened ByteStrings
  import opened ChatTypes
  import opened ChatModel
  import opened ChatInvariant
  import opened ChatHandlers
  import opened ChatRuns

  /** The login of another user on the connection of t: both parts, after a logout. */
  ghost function NextUser(st: ChatState, t: Session, u: Bytes, p: Bytes): ChatState
    requires t in st.sessions
  {
    var gone := LoginBegin(UserLogout(st, t), t);
    LoginCommit(LoginCreds(gone, t, u, p, true).st, t).st
  }

  lemma LogoutTwice(st: ChatState, t: Session)
    requires Inv(st) && t in st.sessions
    ensures LoginBegin(UserLogout(st, t), t) == UserLogout(st, t)
  {
    LogoutEffect(st, t);
    var gone := UserLogout(st, t);
    assert gone.sessions[t := gone.sessions[t]] == gone.sessions;
  }

  lemma LoggedInAs(st: ChatState, t: Session, u: Bytes, p: Bytes)
    requires t in st.sessions && st.sessions[t].id == 0 && ValidUsername(u) && ValidPassword(p)
    requires Accepts(st, u, p)
    ensures var st' := LoginCommit(LoginCreds(st, t, u, p, true).st, t).st;
            && st'.sessions == st.sessions[t := st.sessions[t].(username := u, password := p, id := st.nextId)]
            && u in st'.online && st'.online[u] == t
  {
    hide ValidUsername, ValidPassword, LoginCommit;
    var rec := st.sessions[t].(username := u, password := p);
    assert LoginCreds(st, t, u, p, true).st == WithSession(st, t, rec);
    LoginEffect(WithSession(st, t, rec), t);
    assert st.sessions[t := rec][t := rec.(id := st.nextId)] == st.sessions[t := rec.(id := st.nextId)];
  }

  lemma OffAfterLogout(st: ChatState, t: Session, u: Bytes)
    requires Inv(st) && t in st.sessions && (u in st.online ==> st.online[u] == t)
    ensures u !in UserLogout(st, t).online
  {
    LogoutEffect(st, t);
    Open(st);
    hide UserLogout, UserLeave, Inv, RoomsAgree, RoomUsers, UsersKnown, StoreGood, PrivateRooms;
  }

  lemma NextUserState(st: ChatState, t: Session, u: Bytes, p: Bytes)
    requires Inv(st) && t in st.sessions && ValidUsername(u) && ValidPassword(p)
    requires (u in st.creds ==> st.creds[u] == p) && (u in st.online ==> st.online[u] == t)
    ensures var st' := NextUser(st, t, u, p);
            && st'.sessions == st.sessions[t := SessRec(u, p, st.nextId, None, st.sessions[t].allow)]
            && u in st'.online && st'.online[u] == t
  {
    hide ValidUsername, ValidPassword, Inv, UserLogout, LoginBegin, LoginCreds, LoginCommit;
    LogoutTwice(st, t);
    LogoutKeepsInv(st, t);
    OffAfterLogout(st, t, u);
    LoggedInAs(UserLogout(st, t), t, u, p);
  }

  /** user_allow belongs to the connection, not to the user. When t logs out and somebody logs in as u on
      the same connection, a relay of s towards u may start if and only if s could be validated, was in
      a room, and had the permission of whoever was logged in on that connection before. */
  lemma PermissionOutlivesLogoutExactly(st: ChatState, t: Session, u: Bytes, p: Bytes, s: Session, sid: nat)
    requires Inv(st) && t in st.sessions && s in st.sessions && s != t
    requires ValidUsername(u) && ValidPassword(p)
    requires (u in st.creds ==> st.creds[u] == p) && (u in st.online ==> st.online[u] == t)
    ensures var st' := NextUser(st, t, u, p);
            && s in st'.sessions
            && (FileCheck(st', s, sid, u) == Success <==>
                  && SessionValid(st, s, sid) && st.sessions[s].room.Some?
                  && st.sessions[t].allow == st.sessions[s].username)
  {
    NextUserState(st, t, u, p);
    hide NextUser, Inv, ValidUsername, ValidPassword;
  }

  /** What each step does to the permission of a session that is there before and after it: accepting a file
      request stores one, a relay that went through clears it, and nothing else touches it. */
  lemma PermissionChangesOnly(w: World, op: Op, t: Session)
    requires WorldInv(w) && Enabled(w, op) && Step(w, op).granted < ID_LIMIT
    requires t in w.st.sessions && t in Step(w, op).st.sessions
    ensures Step(w, op).st.sessions[t].allow
            == if op.RespondOp? && op.s == t && op.flag == 1 && op.choice != 1
                  && MayAnswer(w.st, t, op.sid, op.flag, op.username) then op.username
               else if op.FileDoneOp? && op.relayed && w.phase[op.s].target == t then []
               else w.st.sessions[t].allow
  {
    hide *;
    StateInOrder(w);
    if op.RespondOp? {
      AnswerPermission(w, op, t);
    } else if op.FileDoneOp? {
      RelayPermission(w, op, t);
    } else if op.DisconnectOp? {
      DisconnectPermission(w, op, t);
    } else if op.Close? || op.LoginBeginOp? {
      ClosePermission(w, op, t);
    } else if op.LoginCredsOp? || op.LoginCommitOp? {
      LoginPermission(w, op, t);
    } else if op.Connect? || op.Quit? || op.FileSendOp? {
      QuietPermission(w, op, t);
    } else {
      TheRestIsPlain(op);
      PlainPermission(w, op, t);
    }
  }

  lemma StateInOrder(w: World)
    requires WorldInv(w)
    ensures Inv(w.st)
  {
    assert InOrder(StateLedger, w);
  }

  lemma TheRestIsPlain(op: Op)
    requires !op.Connect? && !op.Close? && !op.Quit? && !op.LoginBeginOp? && !op.LoginCredsOp? && !op.LoginCommitOp?
    requires !op.RespondOp? && !op.FileSendOp? && !op.FileDoneOp? && !op.DisconnectOp?
    ensures Plain(op)
  {
  }

  lemma AnswerPermission(w: World, op: Op, t: Session)
    requires Inv(w.st) && op.RespondOp? && Enabled(w, op) && t in w.st.sessions && t in Step(w, op).st.sessions
    ensures Step(w, op).st.sessions[t].allow
            == if op.s == t && op.flag == 1 && op.choice != 1 && MayAnswer(w.st, t, op.sid, op.flag, op.username)
               then op.username else w.st.sessions[t].allow
  {
    RespondSteady(w.st, op.s, op.sid, op.flag, op.choice, op.username, op.created);
    RespondDiscipline(w.st, op.s, op.sid, op.flag, op.choice, op.username, op.created);
    hide Inv, Respond, MayAnswer;
  }

  lemma RelayPermission(w: World, op: Op, t: Session)
    requires op.FileDoneOp? && Enabled(w, op) && t in w.st.sessions && t in Step(w, op).st.sessions
    ensures Step(w, op).st.sessions[t].allow
            == if op.relayed && w.phase[op.s].target == t then [] else w.st.sessions[t].allow
  {
  }

  lemma SafePermission(st: ChatState, st': ChatState, x: Session, t: Session)
    requires Safe(st, st', x) && t in st.sessions
    ensures t in st'.sessions && st'.sessions[t].allow == st.sessions[t].allow
  {
    hide Inv;
  }

  lemma PlainPermission(w: World, op: Op, t: Session)
    requires Inv(w.st) && Plain(op) && Enabled(w, op) && t in w.st.sessions && t in Step(w, op).st.sessions
    ensures Step(w, op).st.sessions[t].allow == w.st.sessions[t].allow
  {
    hide Inv, PlainReply, Safe, InFlight, FileCheck;
    PlainSafe(w.st, op);
    SafePermission(w.st, PlainReply(w.st, op).st, op.s, t);
  }

  lemma DisconnectPermission(w: World, op: Op, t: Session)
    requires Inv(w.st) && op.DisconnectOp? && Enabled(w, op) && t in w.st.sessions && t in Step(w, op).st.sessions
    ensures Step(w, op).st.sessions[t].allow == w.st.sessions[t].allow
  {
    hide Inv, UserLogout, InFlight, NoReference;
    var target := DisconnectTarget(w.st, op.s, op.sid, op.username);
    if target.Some? {
      LogoutKeepsInv(w.st, target.value);
      LogoutKeepsInv(UserLogout(w.st, target.value), target.value);
    }
  }

  lemma ClosePermission(w: World, op: Op, t: Session)
    requires Inv(w.st) && (op.Close? || op.LoginBeginOp?) && Enabled(w, op)
    requires t in w.st.sessions && t in Step(w, op).st.sessions
    ensures Step(w, op).st.sessions[t].allow == w.st.sessions[t].allow
  {
    hide Inv, UserLogout, InFlight, NoReference;
    LogoutKeepsInv(w.st, op.s);
  }

  lemma LoginPermission(w: World, op: Op, t: Session)
    requires (op.LoginCredsOp? || op.LoginCommitOp?) && Enabled(w, op)
    requires t in w.st.sessions && t in Step(w, op).st.sessions
    ensures Step(w, op).st.sessions[t].allow == w.st.sessions[t].allow
  {
    hide LoginCommit, LoginCreds, Accepts;
    if op.LoginCommitOp? {
      CommitAllow(w.st, op.s, t);
    } else {
      CredsAllow(w.st, op.s, op.u, op.p, op.fits, t);
    }
  }

  lemma CredsAllow(st: ChatState, s: Session, u: Bytes, p: Bytes, fits: bool, t: Session)
    requires s in st.sessions && t in st.sessions
    ensures t in LoginCreds(st, s, u, p, fits).st.sessions
    ensures LoginCreds(st, s, u, p, fits).st.sessions[t].allow == st.sessions[t].allow
  {
    hide ValidUsername, ValidPassword;
  }

  lemma QuietPermission(w: World, op: Op, t: Session)
    requires Enabled(w, op) && t in w.st.sessions && t in Step(w, op).st.sessions
    requires op.Connect? || op.Quit? || op.FileSendOp?
    ensures Step(w, op).st.sessions[t].allow == w.st.sessions[t].allow
  {
    hide InFlight, FileCheck;
  }

  lemma CommitAllow(st: ChatState, s: Session, t: Session)
    requires s in st.sessions && t in st.sessions
    ensures t in LoginCommit(st, s).st.sessions && LoginCommit(st, s).st.sessions[t].allow == st.sessions[t].allow
  {
    LoginEffect(st, s);
    hide LoginCommit;
  }
}
