/** The objects of ChatServer make the steps of ChatRuns: what is proved about every run is about what the
    methods do. */
module ChatServerRuns {
  import opened ByteStrings
  import opened ChatTypes
  import opened ChatServer
  import M = ChatModel
  import I = ChatInvariant
  import R = ChatRuns
  import T = ChatTransfers

  /** The object shows the state from which the step starts. */
  ghost predicate Before(app: Appdata, w: R.World, op: R.Op)
    reads app, app.st.sessions.Keys, app.st.rooms.Keys
  {
    app.Valid() && app.st == w.st && I.Inv(w.st) && R.Enabled(w, op)
  }

  /** The object shows the state in which the step ends; the packets that the step sends have been put behind
      those sent before; and the client goes on or is dropped as the step says. */
  ghost predicate After(app: Appdata, w: R.World, op: R.Op, sent: seq<Frame>, keep: bool)
    requires R.Enabled(w, op)
    reads app, app.st.sessions.Keys, app.st.rooms.Keys
  {
    var w' := R.Step(w, op);
    && app.Valid() && app.st == w'.st && app.outbox == sent + T.OutOf(w, op)
    && (op.s in w'.phase ==> w'.phase[op.s] == if keep then R.Idle else R.Closing)
  }

  lemma StepOf(w: R.World, op: R.Op)
    requires R.Enabled(w, op) && R.Plain(op)
    ensures op.s in w.st.sessions
    ensures var reply := R.PlainReply(w.st, op); var w' := R.Step(w, op);
            && w'.st == reply.st && T.OutOf(w, op) == reply.out
            && op.s in w'.phase && w'.phase[op.s] == if reply.keep then R.Idle else R.Closing
  {
    hide R.PlainReply;
  }

  // ---------------------------------------------------------------- handlers that are one critical section

  /** opcode_logout. */
  method LogoutIsStep(app: Appdata, ghost w: R.World, s: Session, sid: nat) returns (ret: Retcode, keep: bool)
    requires Before(app, w, R.LogoutOp(s, sid))
    modifies app, app.st.sessions.Keys, app.st.rooms.Keys
    ensures After(app, w, R.LogoutOp(s, sid), old(app.outbox), keep)
  {
    StepOf(w, R.LogoutOp(s, sid));
    InvLinks(w.st);
    hide R.Enabled, R.Step, T.OutOf, M.Logout, I.Inv;
    ret, keep := app.OpcodeLogout(s, sid);
  }

  /** opcode_msg_send. */
  method MsgSendIsStep(app: Appdata, ghost w: R.World, s: Session, sid: nat, msg: Bytes)
    returns (ret: Retcode, keep: bool)
    requires Before(app, w, R.MsgSendOp(s, sid, msg))
    modifies app, app.st.sessions.Keys, app.st.rooms.Keys
    ensures After(app, w, R.MsgSendOp(s, sid, msg), old(app.outbox), keep)
  {
    StepOf(w, R.MsgSendOp(s, sid, msg));
    InvLinks(w.st);
    hide R.Enabled, R.Step, T.OutOf, M.MsgSend, I.Inv;
    ret, keep := app.OpcodeMsgSend(s, sid, msg);
  }

  /** opcode_request. */
  method RequestIsStep(app: Appdata, ghost w: R.World, s: Session, sid: nat, flag: Byte, username: Bytes)
    returns (ret: Retcode, keep: bool)
    requires Before(app, w, R.RequestOp(s, sid, flag, username))
    modifies app, app.st.sessions.Keys, app.st.rooms.Keys
    ensures After(app, w, R.RequestOp(s, sid, flag, username), old(app.outbox), keep)
  {
    StepOf(w, R.RequestOp(s, sid, flag, username));
    InvLinks(w.st);
    hide R.Enabled, R.Step, T.OutOf, M.Request, I.Inv;
    ret, keep := app.OpcodeRequest(s, sid, flag, username);
  }

  /** opcode_promote. */
  method PromoteIsStep(app: Appdata, ghost w: R.World, s: Session, sid: nat, username: Bytes)
    returns (ret: Retcode, keep: bool)
    requires Before(app, w, R.PromoteOp(s, sid, username))
    modifies app, app.st.sessions.Keys, app.st.rooms.Keys
    ensures After(app, w, R.PromoteOp(s, sid, username), old(app.outbox), keep)
  {
    StepOf(w, R.PromoteOp(s, sid, username));
    InvLinks(w.st);
    hide R.Enabled, R.Step, T.OutOf, M.Promote, I.Inv;
    ret, keep := app.OpcodePromote(s, sid, username);
  }

  /** opcode_delete. */
  method DeleteIsStep(app: Appdata, ghost w: R.World, s: Session, sid: nat, name: Bytes)
    returns (ret: Retcode, keep: bool)
    requires Before(app, w, R.DeleteOp(s, sid, name))
    modifies app, app.st.sessions.Keys, app.st.rooms.Keys
    ensures After(app, w, R.DeleteOp(s, sid, name), old(app.outbox), keep)
  {
    StepOf(w, R.DeleteOp(s, sid, name));
    InvLinks(w.st);
    hide R.Enabled, R.Step, T.OutOf, M.Delete, I.Inv;
    ret, keep := app.OpcodeDelete(s, sid, name);
  }

  /** Joining a room that exists needs no new one. */
  lemma JoinFound(st: ChatState, s: Session, sid: nat, name: Bytes, a: Room, b: Room)
    requires s in st.sessions && M.FindRoom(st, st.store, name).Some?
    ensures M.Join(st, s, sid, name, a) == M.Join(st, s, sid, name, b)
  {
    hide M.MoveTo, AllAlnum;
  }

  /** opcode_join. The object of the new room, if there is one, is what the step calls it; spare stands for
      the one that is not needed otherwise. */
  method JoinIsStep(app: Appdata, ghost w: R.World, s: Session, sid: nat, name: Bytes, ghost spare: Room)
    returns (ret: Retcode, keep: bool, ghost created: Room)
    requires Before(app, w, R.JoinOp(s, sid, name, spare))
    modifies app, app.st.sessions.Keys, app.st.rooms.Keys
    ensures R.Enabled(w, R.JoinOp(s, sid, name, created))
    ensures After(app, w, R.JoinOp(s, sid, name, created), old(app.outbox), keep)
  {
    InvLinks(w.st);
    hide M.Join, I.Inv, R.Step, T.OutOf;
    ghost var room;
    ret, keep, room := app.OpcodeJoin(s, sid, name);
    created := if room != null && room !in w.st.rooms then room else spare;
    if room != null && room in w.st.rooms && M.FindRoom(w.st, w.st.store, name).Some? {
      JoinFound(w.st, s, sid, name, room, spare);
    }
    StepOf(w, R.JoinOp(s, sid, name, created));
  }

  lemma RespondOf(w: R.World, op: R.Op)
    requires R.Enabled(w, op) && op.RespondOp?
    ensures op.s in w.st.sessions
    ensures var w' := R.Step(w, op);
            var reply := M.Respond(w.st, op.s, op.sid, op.flag, op.choice, op.username, op.created);
            && w'.st == reply.st && T.OutOf(w, op) == reply.out
            && op.s in w'.phase && w'.phase[op.s] == (if reply.keep then R.Idle else R.Closing)
            && w'.accepts == if reply.ret == Success && op.flag == 1 && op.choice != 1 && op.s in w.accepts
                             then w.accepts[op.s := w.accepts[op.s] + 1] else w.accepts
  {
    hide M.Respond;
  }

  /** opcode_respond. An accepted file request, and nothing else, is counted as one. */
  method RespondIsStep(app: Appdata, ghost w: R.World, s: Session, sid: nat, flag: Byte, choice: Byte,
                       username: Bytes, ghost spare: Room)
    returns (ret: Retcode, keep: bool, ghost created: Room)
    requires Before(app, w, R.RespondOp(s, sid, flag, choice, username, spare))
    modifies app, app.st.sessions.Keys, app.st.rooms.Keys
    ensures R.Enabled(w, R.RespondOp(s, sid, flag, choice, username, created))
    ensures After(app, w, R.RespondOp(s, sid, flag, choice, username, created), old(app.outbox), keep)
    ensures R.Step(w, R.RespondOp(s, sid, flag, choice, username, created)).accepts ==
            if ret == Success && flag == 1 && choice != 1 && s in w.accepts
            then w.accepts[s := w.accepts[s] + 1] else w.accepts
  {
    InvLinks(w.st);
    hide M.Respond, I.Inv, R.Step, T.OutOf;
    ghost var room;
    ret, keep, room := app.OpcodeRespond(s, sid, flag, choice, username);
    created := if room != null then room else spare;
    RespondOf(w, R.RespondOp(s, sid, flag, choice, username, created));
  }

  lemma DisconnectOf(w: R.World, op: R.Op)
    requires R.Enabled(w, op) && op.DisconnectOp?
    ensures op.s in w.st.sessions
    ensures var w' := R.Step(w, op); var reply := M.Disconnect(w.st, op.s, op.sid, op.username);
            && w'.st == reply.st && T.OutOf(w, op) == reply.out
            && op.s in w'.phase && w'.phase[op.s] == if reply.keep then R.Idle else R.Closing
  {
    hide M.Disconnect;
  }

  /** opcode_disconnect. */
  method DisconnectIsStep(app: Appdata, ghost w: R.World, s: Session, sid: nat, username: Bytes)
    returns (ret: Retcode, keep: bool)
    requires Before(app, w, R.DisconnectOp(s, sid, username))
    modifies app, app.st.sessions.Keys, app.st.rooms.Keys
    ensures After(app, w, R.DisconnectOp(s, sid, username), old(app.outbox), keep)
  {
    DisconnectOf(w, R.DisconnectOp(s, sid, username));
    hide R.Enabled, R.Step, T.OutOf, M.Disconnect, I.Inv;
    ret, keep := app.OpcodeDisconnect(s, sid, username);
  }

  // ---------------------------------------------------------------- handlers of several critical sections

  /** The login is accepted: no account of the name, or the password of it, and nobody online under it. */
  ghost predicate CredsAccepted(st: ChatState, s: Session)
    requires s in st.sessions
  {
    var rec := st.sessions[s];
    (rec.username in st.creds ==> st.creds[rec.username] == rec.password) && rec.username !in st.online
  }

  lemma LoginOf(w: R.World, op: R.Op)
    requires R.Enabled(w, op) && (op.LoginBeginOp? || op.LoginCredsOp? || op.LoginCommitOp?)
    ensures op.s in w.st.sessions && T.OutOf(w, op) == [] && op.s in R.Step(w, op).phase
    ensures op.LoginBeginOp? ==>
              R.Step(w, op).st == M.UserLogout(w.st, op.s) && R.Step(w, op).phase[op.s] == R.AwaitCreds
    ensures op.LoginCredsOp? ==>
              var reply := M.LoginCreds(w.st, op.s, op.u, op.p, op.fits);
              && R.Step(w, op).st == reply.st && reply.out == []
              && R.Step(w, op).phase[op.s] == if reply.ret == Success then R.HaveCreds else R.Idle
    ensures op.LoginCommitOp? ==>
              && R.Step(w, op).st == M.LoginCommit(w.st, op.s).st && R.Step(w, op).phase[op.s] == R.Idle
              && R.Step(w, op).granted == w.granted + if CredsAccepted(w.st, op.s) then 1 else 0
  {
    hide M.UserLogout, ValidUsername, ValidPassword;
  }

  /** opcode_login up to login_recv_creds: whoever was logged in on the connection is logged out. */
  method LoginBeginIsStep(app: Appdata, ghost w: R.World, s: Session)
    requires Before(app, w, R.LoginBeginOp(s))
    modifies app, app.st.sessions.Keys, app.st.rooms.Keys
    ensures app.Valid() && app.st == R.Step(w, R.LoginBeginOp(s)).st && app.outbox == old(app.outbox)
    ensures T.OutOf(w, R.LoginBeginOp(s)) == []
  {
    LoginOf(w, R.LoginBeginOp(s));
    InvLinks(w.st);
    hide R.Enabled, R.Step, T.OutOf, I.Inv, M.UserLogout;
    app.UserLogout(s);
  }

  /** login_recv_creds: the login goes on exactly when it succeeds. */
  method LoginCredsIsStep(app: Appdata, ghost w: R.World, s: Session, u: Bytes, p: Bytes, fits: bool)
    returns (ret: Retcode, keep: bool)
    requires Before(app, w, R.LoginCredsOp(s, u, p, fits))
    modifies app, app.st.sessions.Keys, app.st.rooms.Keys
    ensures var w' := R.Step(w, R.LoginCredsOp(s, u, p, fits));
            && app.Valid() && app.st == w'.st && app.outbox == old(app.outbox)
            && s in w'.phase && w'.phase[s] == if ret == Success then R.HaveCreds else R.Idle
    ensures T.OutOf(w, R.LoginCredsOp(s, u, p, fits)) == []
  {
    LoginOf(w, R.LoginCredsOp(s, u, p, fits));
    hide R.Enabled, R.Step, T.OutOf, I.Inv, M.LoginCreds;
    ret, keep := app.LoginCreds(s, u, p, fits);
  }

  /** The second critical section of opcode_login. */
  method LoginCommitIsStep(app: Appdata, ghost w: R.World, s: Session) returns (ret: Retcode)
    requires Before(app, w, R.LoginCommitOp(s))
    modifies app, app.st.sessions.Keys, app.st.rooms.Keys
    ensures app.Valid() && app.st == R.Step(w, R.LoginCommitOp(s)).st && app.outbox == old(app.outbox)
    ensures T.OutOf(w, R.LoginCommitOp(s)) == []
  {
    LoginOf(w, R.LoginCommitOp(s));
    hide R.Enabled, R.Step, T.OutOf, I.Inv, M.LoginCommit;
    ret := app.LoginCommit(s);
  }

  lemma FileOf(w: R.World, op: R.Op)
    requires R.Enabled(w, op) && (op.FileSendOp? || op.FileDoneOp?)
    ensures op.s in w.st.sessions && T.OutOf(w, op) == [] && op.s in R.Step(w, op).phase
    ensures op.FileSendOp? ==>
              && R.Step(w, op).st == w.st
              && (M.FileCheck(w.st, op.s, op.sid, op.username) == Success ==>
                    M.SessionGet(w.st, op.username).Some?
                    && R.Step(w, op).phase[op.s] == R.Relaying(M.SessionGet(w.st, op.username).value))
              && (M.FileCheck(w.st, op.s, op.sid, op.username) != Success ==> R.Step(w, op) == w)
    ensures op.FileDoneOp? ==>
              && op.s in w.phase && w.phase[op.s].Relaying? && w.phase[op.s].target in w.st.sessions
              && (var t := w.phase[op.s].target; var reply := M.FileDone(w.st, t, op.relayed);
                  && R.Step(w, op).st == reply.st && reply.out == []
                  && R.Step(w, op).phase[op.s] == (if reply.keep then R.Idle else R.Closing)
                  && R.Step(w, op).relays == if op.relayed && t in w.relays then w.relays[t := w.relays[t] + 1]
                                             else w.relays)
  {
  }

  /** opcode_file_send up to the relay: the relay begins exactly when the check succeeds, and goes to the session
      that the check has found. */
  method FileSendIsStep(app: Appdata, ghost w: R.World, s: Session, sid: nat, username: Bytes)
    returns (ret: Retcode, target: Session?)
    requires Before(app, w, R.FileSendOp(s, sid, username))
    ensures var w' := R.Step(w, R.FileSendOp(s, sid, username));
            && app.st == w'.st
            && (ret == Success ==> target != null && s in w'.phase && w'.phase[s] == R.Relaying(target))
            && (ret != Success ==> w' == w)
  {
    FileOf(w, R.FileSendOp(s, sid, username));
    InvLinks(w.st);
    hide R.Enabled, R.Step, T.OutOf, I.Inv, M.FileCheck;
    ret, target := app.FileCheck(s, sid, username);
  }

  /** opcode_file_send after the relay. */
  method FileDoneIsStep(app: Appdata, ghost w: R.World, s: Session, target: Session, relayed: bool)
    returns (ret: Retcode, keep: bool)
    requires Before(app, w, R.FileDoneOp(s, relayed)) && s in w.phase && w.phase[s] == R.Relaying(target)
    modifies app, app.st.sessions.Keys, app.st.rooms.Keys
    ensures After(app, w, R.FileDoneOp(s, relayed), old(app.outbox), keep)
    ensures R.Step(w, R.FileDoneOp(s, relayed)).relays ==
            if relayed && target in w.relays then w.relays[target := w.relays[target] + 1] else w.relays
  {
    FileOf(w, R.FileDoneOp(s, relayed));
    hide R.Enabled, R.Step, T.OutOf, I.Inv, M.FileDone;
    ret, keep := app.FileDone(target, relayed);
  }

  // ---------------------------------------------------------------- clients come and go

  lemma ClientOf(w: R.World, op: R.Op)
    requires R.Enabled(w, op) && (op.Connect? || op.Close? || op.Quit?)
    ensures T.OutOf(w, op) == []
    ensures op.Connect? ==>
              && R.Step(w, op).st == M.ClientInit(w.st, op.s)
              && R.Step(w, op).phase == w.phase[op.s := R.Idle]
              && R.Step(w, op).accepts == w.accepts[op.s := 0] && R.Step(w, op).relays == w.relays[op.s := 0]
    ensures op.Close? ==>
              && op.s in w.st.sessions && R.Step(w, op).st == M.ClientFree(w.st, op.s)
              && R.Step(w, op).phase == w.phase - {op.s}
              && R.Step(w, op).accepts == w.accepts - {op.s} && R.Step(w, op).relays == w.relays - {op.s}
    ensures op.Quit? ==> R.Step(w, op) == w.(phase := w.phase[op.s := R.Closing])
  {
    hide M.ClientFree;
  }

  /** chat_client_init: the new session is nobody's yet. */
  method ConnectIsStep(app: Appdata, ghost w: R.World) returns (s: Session)
    requires app.Valid() && app.st == w.st && I.Inv(w.st)
    modifies app, app.st.sessions.Keys, app.st.rooms.Keys
    ensures R.Enabled(w, R.Connect(s)) && app.Valid() && app.st == R.Step(w, R.Connect(s)).st
    ensures app.outbox == old(app.outbox)
  {
    s := app.ClientInit();
    ClientOf(w, R.Connect(s));
  }

  /** chat_client_free. */
  method CloseIsStep(app: Appdata, ghost w: R.World, s: Session)
    requires Before(app, w, R.Close(s))
    modifies app, app.st.sessions.Keys, app.st.rooms.Keys
    ensures app.Valid() && app.st == R.Step(w, R.Close(s)).st && app.outbox == old(app.outbox)
  {
    ClientOf(w, R.Close(s));
    InvLinks(w.st);
    hide R.Enabled, R.Step, T.OutOf, I.Inv, M.ClientFree;
    app.ClientFree(s);
  }
}
