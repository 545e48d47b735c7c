/** The chat server as objects updated in place: appdata_t with its tables, sessions and rooms.
    Every method is proved to change the state exactly as its function in ChatModel says; the state
    as a value is carried along in a ghost field that Valid ties to the real ones. */
module ChatServer {
  import opened ByteStrings
  import opened ChatTypes
  import M = ChatModel
  import I = ChatInvariant
  import H = ChatHandlers

  /** The kinds of pointers in the server state. */
  datatype Link = RoomPointers | OnlinePointers | MemberPointers | StorePointers

  ghost predicate LinkGood(link: Link, st: ChatState) {
    match link
    case RoomPointers =>
      forall s :: s in st.sessions && st.sessions[s].room.Some? ==> st.sessions[s].room.value in st.rooms
    case OnlinePointers => forall u :: u in st.online ==> st.online[u] in st.sessions
    case MemberPointers => forall r, s | r in st.rooms && s in st.rooms[r].members :: s in st.sessions
    case StorePointers =>
      (forall r :: r in st.rooms ==> r in st.store) && (forall r :: r in st.store ==> r in st.rooms)
  }

  /** Every pointer leads to a live object. */
  ghost predicate Linked(st: ChatState) { forall link: Link :: LinkGood(link, st) }

  lemma OpenLinks(st: ChatState)
    requires Linked(st)
    ensures LinkGood(RoomPointers, st) && LinkGood(OnlinePointers, st)
    ensures LinkGood(MemberPointers, st) && LinkGood(StorePointers, st)
  {
  }

  lemma CloseLinks(st: ChatState)
    requires LinkGood(RoomPointers, st) && LinkGood(OnlinePointers, st)
    requires LinkGood(MemberPointers, st) && LinkGood(StorePointers, st)
    ensures Linked(st)
  {
  }

  /** No session and no room appeared or went. */
  ghost predicate SameObjects(st: ChatState, st': ChatState) {
    st'.sessions.Keys == st.sessions.Keys && st'.rooms.Keys == st.rooms.Keys
  }

  /** The same, with one room added. */
  ghost predicate RoomAdded(st: ChatState, st': ChatState, r: Room) {
    st'.sessions.Keys == st.sessions.Keys && st'.rooms.Keys == st.rooms.Keys + {r}
  }

  function RoomPointer(room: Option<Room>): Room? { if room.Some? then room.value else null }

  ghost predicate Shows(s: Session, rec: SessRec)
    reads s
  {
    && s.username == rec.username && s.password == rec.password && s.sessionId == rec.id
    && s.room == RoomPointer(rec.room) && s.userAllow == rec.allow
  }

  ghost predicate ShowsRoom(r: Room, rec: RoomRec)
    reads r
  {
    r.name == rec.name && r.members == rec.members && r.users == SplitAtPlus(r.name)
  }

  lemma {:induction false} RemoveFirstShrinks(ms: seq<Session>, s: Session)
    ensures forall m | m in M.RemoveFirst(ms, s) :: m in ms
  {
    if ms != [] && ms[0] != s {
      RemoveFirstShrinks(ms[1..], s);
    }
  }

  lemma LeaveMembers(st: ChatState, s: Session)
    requires LinkGood(MemberPointers, st) && LinkGood(RoomPointers, st) && s in st.sessions
    ensures LinkGood(MemberPointers, M.UserLeave(st, s))
  {
    if st.sessions[s].room.Some? {
      RemoveFirstShrinks(st.rooms[st.sessions[s].room.value].members, s);
    }
  }

  /** What leaving a room does to the set of live objects and to the pointers between them. */
  lemma LeaveFrame(st: ChatState, s: Session)
    requires LinkGood(RoomPointers, st) && s in st.sessions
    ensures SameObjects(st, M.UserLeave(st, s))
    ensures M.UserLeave(st, s).online == st.online && M.UserLeave(st, s).store == st.store
    ensures forall t :: t in st.sessions ==>
              M.UserLeave(st, s).sessions[t].room == if t == s then None else st.sessions[t].room
  {
  }

  lemma LeaveOthers(st: ChatState, s: Session)
    requires LinkGood(RoomPointers, st) && LinkGood(OnlinePointers, st) && LinkGood(StorePointers, st)
    requires s in st.sessions
    ensures SameObjects(st, M.UserLeave(st, s))
    ensures LinkGood(RoomPointers, M.UserLeave(st, s)) && LinkGood(OnlinePointers, M.UserLeave(st, s))
    ensures LinkGood(StorePointers, M.UserLeave(st, s))
  {
    LeaveFrame(st, s);
    hide M.UserLeave;
  }

  lemma LeaveLinked(st: ChatState, s: Session)
    requires Linked(st) && s in st.sessions
    ensures Linked(M.UserLeave(st, s)) && SameObjects(st, M.UserLeave(st, s))
  {
    hide *;
    OpenLinks(st);
    LeaveMembers(st, s);
    LeaveOthers(st, s);
    CloseLinks(M.UserLeave(st, s));
  }

  lemma JoinMembers(st: ChatState, s: Session)
    requires LinkGood(MemberPointers, st) && s in st.sessions && st.sessions[s].room.Some?
    ensures LinkGood(MemberPointers, M.UserJoin(st, s).0)
  {
    var st' := M.UserJoin(st, s).0;
    forall r, m | r in st'.rooms && m in st'.rooms[r].members
      ensures m in st'.sessions
    {
      assert m == s || m in st.rooms[r].members;
    }
  }

  lemma JoinOthers(st: ChatState, s: Session)
    requires LinkGood(RoomPointers, st) && LinkGood(OnlinePointers, st) && LinkGood(StorePointers, st)
    requires s in st.sessions && st.sessions[s].room.Some?
    ensures SameObjects(st, M.UserJoin(st, s).0)
    ensures LinkGood(RoomPointers, M.UserJoin(st, s).0) && LinkGood(OnlinePointers, M.UserJoin(st, s).0)
    ensures LinkGood(StorePointers, M.UserJoin(st, s).0)
  {
  }

  lemma JoinLinked(st: ChatState, s: Session)
    requires Linked(st) && s in st.sessions && st.sessions[s].room.Some?
    ensures Linked(M.UserJoin(st, s).0) && SameObjects(st, M.UserJoin(st, s).0)
  {
    hide *;
    OpenLinks(st);
    JoinMembers(st, s);
    JoinOthers(st, s);
    CloseLinks(M.UserJoin(st, s).0);
  }

  lemma PlaceLinked(st: ChatState, s: Session, rec: SessRec)
    requires Linked(st) && s in st.sessions && (rec.room.Some? ==> rec.room.value in st.rooms)
    ensures Linked(M.WithSession(st, s, rec))
  {
    OpenLinks(st);
    CloseLinks(M.WithSession(st, s, rec));
  }

  lemma AddRoomLinked(st: ChatState, r: Room, name: Bytes)
    requires Linked(st)
    ensures Linked(M.AddRoom(st, r, name))
  {
    OpenLinks(st);
    CloseLinks(M.AddRoom(st, r, name));
  }

  lemma InvLinks(st: ChatState)
    requires I.Inv(st)
    ensures Linked(st)
  {
    I.Open(st);
    forall s | s in st.sessions && st.sessions[s].room.Some?
      ensures st.sessions[s].room.value in st.rooms
    {
      assert I.IsMember(st, st.sessions[s].room.value, s);
    }
    CloseLinks(st);
  }

  /** All outcomes of login_recv_creds store both strings; only a valid login keeps the id. */
  lemma CredsUpdate(st: ChatState, s: Session, u: Bytes, p: Bytes, fits: bool)
    requires s in st.sessions
    ensures var ok := fits && ValidUsername(u) && ValidPassword(p); var rec := st.sessions[s];
            M.LoginCreds(st, s, u, p, fits)
            == Reply(M.WithSession(st, s, rec.(username := u, password := p, id := if ok then rec.id else 0)),
                     if !fits then Overflow else if !ok then Failure else Success, [], true)
  {
  }

  // What the methods below rely on to keep the invariant of ChatInvariant.

  lemma LoginCredsKeeps(st: ChatState, s: Session, u: Bytes, p: Bytes, fits: bool)
    requires s in st.sessions
    ensures I.Inv(st) && st.sessions[s].id == 0 ==> I.Inv(M.LoginCreds(st, s, u, p, fits).st)
  {
    CredsUpdate(st, s, u, p, fits);
    hide I.Inv, M.LoginCreds, ValidUsername, ValidPassword;
    if I.Inv(st) && st.sessions[s].id == 0 {
      I.RecordKeepsInv(st, s, st.sessions[s].(username := u, password := p));
    }
  }

  lemma LoginCommitKeeps(st: ChatState, s: Session)
    requires s in st.sessions
    ensures var rec := st.sessions[s];
            I.Inv(st) && rec.id == 0 && rec.room.None? && ValidUsername(rec.username) ==>
              (I.Inv(M.LoginCommit(st, s).st) <==> !(I.Accepts(st, rec.username, rec.password) && st.nextId == 0))
  {
    hide *;
    var rec := st.sessions[s];
    if I.Inv(st) && rec.id == 0 && rec.room.None? && ValidUsername(rec.username) {
      I.LoginKeepsInvExactly(st, s);
    }
  }

  lemma LogoutKeeps(st: ChatState, s: Session, sid: nat)
    requires s in st.sessions
    ensures I.Inv(st) ==> I.Inv(M.Logout(st, s, sid).st)
  {
    hide I.Inv, M.UserLogout;
    if I.Inv(st) {
      I.LogoutKeepsInv(st, s);
    }
  }

  lemma RequestKeeps(st: ChatState, s: Session, sid: nat, flag: Byte, username: Bytes)
    requires s in st.sessions
    ensures I.Inv(st) ==> I.Inv(M.Request(st, s, sid, flag, username).st)
  {
    hide *;
    if I.Inv(st) {
      H.RequestKeepsInv(st, s, sid, flag, username);
    }
  }

  lemma PromoteKeeps(st: ChatState, s: Session, sid: nat, username: Bytes)
    requires s in st.sessions
    ensures I.Inv(st) ==> I.Inv(M.Promote(st, s, sid, username).st)
  {
    hide I.Inv, M.Promote;
    if I.Inv(st) {
      H.PromoteSafe(st, s, sid, username);
    }
  }

  lemma FileDoneKeeps(st: ChatState, target: Session, relayed: bool)
    requires target in st.sessions
    ensures I.Inv(st) ==> I.Inv(M.FileDone(st, target, relayed).st)
  {
    hide I.Inv;
    if I.Inv(st) {
      I.RecordKeepsInv(st, target, st.sessions[target].(allow := []));
    }
  }

  lemma DeleteKeeps(st: ChatState, s: Session, sid: nat, name: Bytes)
    requires s in st.sessions
    ensures I.Inv(st) ==> I.Inv(M.Delete(st, s, sid, name).st)
  {
    hide I.Inv, M.Delete;
    if I.Inv(st) {
      H.DeleteSafe(st, s, sid, name);
    }
  }

  lemma DisconnectKeeps(st: ChatState, s: Session, sid: nat, username: Bytes)
    requires s in st.sessions
    ensures I.Inv(st) ==> I.Inv(M.Disconnect(st, s, sid, username).st)
  {
    hide I.Inv, M.UserLogout, M.ClientFree, M.SessionValid, M.IsAdmin;
    var target := M.DisconnectTarget(st, s, sid, username);
    if I.Inv(st) && target.Some? {
      I.LogoutKeepsInv(st, target.value);
      I.CloseKeepsInv(M.UserLogout(st, target.value), target.value);
    }
  }

  /** The room of a join is new, or the one that is found. */
  lemma JoinKeeps(st: ChatState, s: Session, sid: nat, name: Bytes, r: Room)
    requires s in st.sessions && (r !in st.rooms || M.FindRoom(st, st.store, name) == Some(r))
    ensures I.Inv(st) ==> I.Inv(M.Join(st, s, sid, name, r).st)
  {
    hide I.Inv, M.MoveTo, M.FindRoom, AllAlnum;
    if I.Inv(st) && M.SessionValid(st, s, sid) && AllAlnum(name) {
      if r !in st.rooms {
        H.JoinKeepsInv(st, s, sid, name, r);
      } else {
        H.FindRoomResult(st, st.store, name);
        H.AlnumHasNoPlus(name);
        H.MoveFrame(st, s, r);
      }
    }
  }

  lemma PmAcceptKeeps(st: ChatState, requester: Session, responder: Bytes, created: Room)
    requires requester in st.sessions && created !in st.rooms
    ensures I.Inv(st) && st.sessions[requester].id != 0 && responder in st.online ==>
              M.PmAccept(st, requester, responder, created).2 && I.Inv(M.PmAccept(st, requester, responder, created).0)
  {
    hide I.Inv, M.PmAccept;
    if I.Inv(st) && st.sessions[requester].id != 0 && responder in st.online {
      I.Open(st);
      H.PmAcceptKeepsInv(st, requester, st.online[responder], created);
    }
  }

  lemma TableKeeps(st: ChatState, kind: M.ReqKind, name: Bytes, value: Bytes)
    ensures I.Inv(st) ==> I.Inv(M.WithTable(st, kind, M.Table(st, kind)[name := value]))
  {
    hide *;
    if I.Inv(st) {
      H.TableKeepsInv(st, kind, name, value);
    }
  }

  lemma AllowKeeps(st: ChatState, s: Session, allow: Bytes)
    requires s in st.sessions
    ensures I.Inv(st) ==> I.Inv(M.WithSession(st, s, st.sessions[s].(allow := allow)))
  {
    hide I.Inv, M.WithSession;
    if I.Inv(st) {
      I.RecordKeepsInv(st, s, st.sessions[s].(allow := allow));
    }
  }

  lemma AllowLinked(st: ChatState, s: Session, allow: Bytes)
    requires Linked(st) && s in st.sessions
    ensures Linked(M.WithSession(st, s, st.sessions[s].(allow := allow)))
  {
    OpenLinks(st);
    PlaceLinked(st, s, st.sessions[s].(allow := allow));
  }

  lemma TableLinked(st: ChatState, kind: M.ReqKind, name: Bytes, value: Bytes)
    requires Linked(st)
    ensures Linked(M.WithTable(st, kind, M.Table(st, kind)[name := value]))
  {
    OpenLinks(st);
    CloseLinks(M.WithTable(st, kind, M.Table(st, kind)[name := value]));
  }

  /** Two users who are logged in may have a private conversation. */
  lemma OnlineUsers(st: ChatState, s: Session, username: Bytes)
    requires s in st.sessions && I.Inv(st)
    ensures st.sessions[s].id != 0 ==> st.sessions[s].username in st.online
    ensures username in st.online ==> st.online[username] in st.sessions && st.sessions[st.online[username]].id != 0
  {
    I.Open(st);
  }

  method Without(ms: seq<Session>, s: Session) returns (rest: seq<Session>)
    ensures rest == M.RemoveFirst(ms, s)
  {
    var i := 0;
    while i < |ms| && ms[i] != s
      invariant 0 <= i <= |ms|
      invariant M.RemoveFirst(ms, s) == ms[..i] + M.RemoveFirst(ms[i..], s)
    {
      assert ms[i..][0] == ms[i] && ms[i..][1..] == ms[i + 1..];
      assert ms[..i + 1] == ms[..i] + [ms[i]];
      i := i + 1;
    }
    if i < |ms| {
      assert ms[i..][0] == s && ms[i..][1..] == ms[i + 1..];
      rest := ms[..i] + ms[i + 1..];
    } else {
      assert ms[i..] == [] && ms[..i] + [] == ms;
      rest := ms;
    }
  }

  /** The three groups of fields that the ghost state mirrors. */
  datatype Part = TableFields | SessionFields | RoomFields

  class Appdata {
    var nextSessionId: nat
    var credStore: map<Bytes, Bytes>
    var roomStore: seq<Room>
    var admins: set<Bytes>
    var sessionStore: map<Bytes, Session>
    var pmReqs: map<Bytes, Bytes>
    var fileReqs: map<Bytes, Bytes>
    var outbox: seq<Frame>     // every MSG_RECV packet sent, in order
    ghost var st: ChatState    // the server state as a value

    ghost predicate Fits(part: Part)
      reads this, st.sessions.Keys, st.rooms.Keys
    {
      match part
      case TableFields =>
        st == ChatState(st.sessions, st.rooms, roomStore, credStore, admins, sessionStore, pmReqs, fileReqs,
                        nextSessionId)
      case SessionFields => forall s :: s in st.sessions ==> Shows(s, st.sessions[s])
      case RoomFields => forall r :: r in st.rooms ==> ShowsRoom(r, st.rooms[r])
    }

    /** st is what the fields of this object, of the sessions and of the rooms hold. */
    ghost predicate Valid()
      reads this, st.sessions.Keys, st.rooms.Keys
    {
      forall part: Part :: Fits(part)
    }

    lemma Open()
      requires Valid()
      ensures st == ChatState(st.sessions, st.rooms, roomStore, credStore, admins, sessionStore, pmReqs,
                              fileReqs, nextSessionId)
      ensures forall s :: s in st.sessions ==> Shows(s, st.sessions[s])
      ensures forall r :: r in st.rooms ==> ShowsRoom(r, st.rooms[r])
    {
      assert Fits(TableFields) && Fits(SessionFields) && Fits(RoomFields);
    }

    lemma ShowsSession(s: Session)
      requires Valid() && s in st.sessions
      ensures Shows(s, st.sessions[s])
    {
      assert Fits(SessionFields);
    }

    lemma ShowsTables()
      requires Valid()
      ensures st == ChatState(st.sessions, st.rooms, roomStore, credStore, admins, sessionStore, pmReqs,
                              fileReqs, nextSessionId)
    {
      assert Fits(TableFields);
    }

    lemma ShowsOneRoom(r: Room)
      requires Valid() && r in st.rooms
      ensures ShowsRoom(r, st.rooms[r])
    {
      assert Fits(RoomFields);
    }

    // Writes of single fields, each keeping st in step.

    method SetRoom(s: Session, room: Room?)
      requires Valid() && s in st.sessions
      modifies `st, s
      ensures Valid() && SameObjects(old(st), st)
      ensures st == M.WithSession(old(st), s, old(st).sessions[s].(room := if room == null then None else Some(room)))
    {
      Open();
      s.room := room;
      st := M.WithSession(st, s, st.sessions[s].(room := if room == null then None else Some(room)));
    }

    method SetCreds(s: Session, username: Bytes, password: Bytes, id: nat)
      requires Valid() && s in st.sessions
      modifies `st, s
      ensures Valid() && SameObjects(old(st), st)
      ensures st == M.WithSession(old(st), s,
                                  old(st).sessions[s].(username := username, password := password, id := id))
    {
      Open();
      s.username, s.password, s.sessionId := username, password, id;
      st := M.WithSession(st, s, st.sessions[s].(username := username, password := password, id := id));
    }

    method SetAllow(s: Session, allow: Bytes)
      requires Valid() && s in st.sessions
      modifies `st, s
      ensures Valid() && SameObjects(old(st), st)
      ensures st == M.WithSession(old(st), s, old(st).sessions[s].(allow := allow))
    {
      Open();
      s.userAllow := allow;
      st := M.WithSession(st, s, st.sessions[s].(allow := allow));
    }

    method SetMembers(r: Room, members: seq<Session>)
      requires Valid() && r in st.rooms
      modifies `st, r
      ensures Valid() && SameObjects(old(st), st)
      ensures st == M.WithMembers(old(st), r, members)
    {
      Open();
      r.members := members;
      st := M.WithMembers(st, r, members);
    }

    method SetRequests(pm: map<Bytes, Bytes>, file: map<Bytes, Bytes>)
      requires Valid()
      modifies `st, `pmReqs, `fileReqs
      ensures Valid() && SameObjects(old(st), st)
      ensures st == old(st).(pmReqs := pm, fileReqs := file)
    {
      Open();
      pmReqs, fileReqs := pm, file;
      st := st.(pmReqs := pm, fileReqs := file);
    }

    method SetOnline(online: map<Bytes, Session>)
      requires Valid()
      modifies `st, `sessionStore
      ensures Valid() && SameObjects(old(st), st)
      ensures st == old(st).(online := online)
    {
      Open();
      sessionStore := online;
      st := st.(online := online);
    }

    /** sll_remove on a member list. */
    method RemoveMember(r: Room, s: Session)
      requires Valid() && r in st.rooms
      modifies `st, r
      ensures Valid() && SameObjects(old(st), st)
      ensures st == M.WithMembers(old(st), r, M.RemoveFirst(M.Members(old(st), r), s))
    {
      ShowsOneRoom(r);
      var rest := Without(r.members, s);
      SetMembers(r, rest);
    }

    method UserLeave(s: Session)
      requires Valid() && Linked(st) && s in st.sessions
      modifies this, st.sessions.Keys, st.rooms.Keys
      ensures Valid() && outbox == old(outbox)
      ensures st == M.UserLeave(old(st), s) && SameObjects(old(st), st)
    {
      ShowsSession(s);
      OpenLinks(st);
      if s.room != null {
        RemoveMember(s.room, s);
        ShowsSession(s);
        ShowsTables();
        SetRequests(pmReqs - {s.username}, fileReqs - {s.username});
        SetRoom(s, null);
      }
    }

    method MayEnter(s: Session, r: Room) returns (ok: bool)
      requires Valid() && s in st.sessions && r in st.rooms
      ensures ok <==> M.MayEnter(st.rooms[r].name, st.sessions[s].username)
    {
      ShowsSession(s);
      ShowsOneRoom(r);
      ok := !(r.users.Some? && !(s.username == r.users.value.0 || s.username == r.users.value.1));
    }

    /** The room was stored in the session just before; a private room admits its two users only. */
    method UserJoin(s: Session) returns (ok: bool)
      requires Valid() && Linked(st) && s in st.sessions && st.sessions[s].room.Some?
      modifies this, st.rooms.Keys
      ensures Valid() && outbox == old(outbox)
      ensures (st, ok) == M.UserJoin(old(st), s) && SameObjects(old(st), st)
    {
      ShowsSession(s);
      OpenLinks(st);
      var r := s.room;
      ShowsOneRoom(r);
      ok := MayEnter(s, r);
      ShowsTables();
      if ok {
        SetMembers(r, r.members + [s]);
        SetRequests(pmReqs[s.username := []], fileReqs[s.username := []]);
      }
    }

    method UserLogout(s: Session)
      requires Valid() && Linked(st) && s in st.sessions
      modifies this, st.sessions.Keys, st.rooms.Keys
      ensures Valid() && outbox == old(outbox)
      ensures st == M.UserLogout(old(st), s) && SameObjects(old(st), st)
    {
      UserLeave(s);
      ShowsSession(s);
      ShowsTables();
      if s.username != [] && s.sessionId != 0 {
        SetOnline(sessionStore - {s.username});
      }
      SetCreds(s, [], [], 0);
    }

    method SetCredStore(creds: map<Bytes, Bytes>)
      requires Valid()
      modifies `st, `credStore
      ensures Valid() && SameObjects(old(st), st)
      ensures st == old(st).(creds := creds)
    {
      Open();
      credStore := creds;
      st := st.(creds := creds);
    }

    method SetNextId(id: nat)
      requires Valid()
      modifies `st, `nextSessionId
      ensures Valid() && SameObjects(old(st), st)
      ensures st == old(st).(nextId := id)
    {
      Open();
      nextSessionId := id;
      st := st.(nextId := id);
    }

    method UserLogin(s: Session) returns (sessionId: nat)
      requires Valid() && s in st.sessions
      modifies this
      ensures Valid() && outbox == old(outbox)
      ensures (st, sessionId) == M.UserLogin(old(st), s) && SameObjects(old(st), st)
    {
      ShowsSession(s);
      ShowsTables();
      var username, password := s.username, s.password;
      if username in credStore {
        if credStore[username] != password {
          return 0;
        }
      } else {
        SetCredStore(credStore[username := password]);
        ShowsTables();
      }
      if username in sessionStore {
        return 0;
      }
      sessionId := nextSessionId;
      SetOnline(sessionStore[username := s]);
      SetNextId((sessionId + 1) % ID_LIMIT);
    }

    method SessionGet(username: Bytes) returns (s: Session?)
      requires Valid() && Linked(st)
      ensures s == null <==> M.SessionGet(st, username).None?
      ensures s != null ==> M.SessionGet(st, username) == Some(s) && s in st.sessions
    {
      ShowsTables();
      OpenLinks(st);
      s := if username in sessionStore then sessionStore[username] else null;
    }

    /** user_creds_valid: sizes first, then one loop over each string. */
    method CredsValid(username: Bytes, password: Bytes) returns (ok: bool)
      ensures ok <==> ValidUsername(username) && ValidPassword(password)
    {
      if !(3 <= |username| <= 16) || !(8 <= |password| <= 128) {
        return false;
      }
      for i := 0 to |username|
        invariant forall j :: 0 <= j < i ==> IsAlnum(username[j]) || username[j] == 95
      {
        if !(IsAlnum(username[i]) || username[i] == 95) {
          return false;
        }
      }
      for i := 0 to |password|
        invariant forall j :: 0 <= j < i ==> IsPrintNoSpace(password[j])
      {
        if !IsPrintNoSpace(password[i]) {
          return false;
        }
      }
      ok := true;
    }

    /** login_recv_creds after the bytes have arrived; a login that stops here ends with id 0. */
    method LoginCreds(s: Session, u: Bytes, p: Bytes, fits: bool) returns (ret: Retcode, keep: bool)
      requires Valid() && s in st.sessions
      modifies this, s
      ensures Valid()
      ensures Answered(M.LoginCreds(old(st), s, u, p, fits), ret, keep, old(outbox))
      ensures I.Inv(old(st)) && old(st).sessions[s].id == 0 ==> I.Inv(st)
    {
      LoginCredsKeeps(st, s, u, p, fits);
      ShowsSession(s);
      keep := true;
      var ok := fits;
      if fits {
        ok := CredsValid(u, p);
      }
      CredsUpdate(st, s, u, p, fits);
      SetCreds(s, u, p, if ok then s.sessionId else 0);
      ret := if !fits then Overflow else if !ok then Failure else Success;
    }

    /** The part of opcode_login under its second lock, and the store of the id at the end. */
    method LoginCommit(s: Session) returns (ret: Retcode)
      requires Valid() && s in st.sessions
      modifies this, s
      ensures Valid() && outbox == old(outbox)
      ensures st == M.LoginCommit(old(st), s).st && ret == M.LoginCommit(old(st), s).ret
      ensures var rec := old(st).sessions[s];
              I.Inv(old(st)) && rec.id == 0 && rec.room.None? && ValidUsername(rec.username) ==>
                (I.Inv(st) <==> !(I.Accepts(old(st), rec.username, rec.password) && old(st).nextId == 0))
    {
      LoginCommitKeeps(st, s);
      var id := UserLogin(s);
      ShowsSession(s);
      SetCreds(s, s.username, s.password, id);
      ret := if id == 0 then Failure else Success;
    }

    method MsgSend(s: Session, flag: MsgFlag, payload: Bytes)
      requires Valid()
      modifies `outbox
      ensures Valid() && outbox == old(outbox) + [Frame(s, flag, payload)]
    {
      Open();
      outbox := outbox + [Frame(s, flag, payload)];
    }

    /** One turn of msg_send_room: skip whoever is not logged in and in this room. */
    method SendIfListening(target: Session, r: Room, flag: MsgFlag, payload: Bytes)
      requires Valid() && target in st.sessions
      modifies `outbox
      ensures Valid() && outbox == old(outbox) + M.Frames(M.Reached(st, r, [target]), flag, payload)
    {
      ShowsSession(target);
      if target.sessionId == 0 || target.username == [] || target.room != r {
        assert M.Reached(st, r, [target]) == [];
        assert outbox + M.Frames([], flag, payload) == outbox;
      } else {
        assert M.Reached(st, r, [target]) == [target];
        MsgSend(target, flag, payload);
      }
    }

    /** msg_send_room: walk the member list. */
    method MsgSendRoom(r: Room, flag: MsgFlag, payload: Bytes)
      requires Valid() && Linked(st) && r in st.rooms
      modifies `outbox
      ensures Valid()
      ensures outbox == old(outbox) + M.Broadcast(st, r, flag, payload)
    {
      ShowsOneRoom(r);
      OpenLinks(st);
      var ms := r.members;
      var i := 0;
      while i < |ms|
        invariant 0 <= i <= |ms| && Valid()
        invariant outbox == old(outbox) + M.Frames(M.Reached(st, r, ms[..i]), flag, payload)
      {
        BroadcastGrows(st, r, ms, i, old(outbox), flag, payload);
        SendIfListening(ms[i], r, flag, payload);
        i := i + 1;
      }
      assert ms[..i] == ms;
    }

    // ---------------------------------------------------------------- rooms

    /** user_leave, p_room assigned, user_join. */
    method MoveTo(s: Session, r: Room) returns (ok: bool)
      requires Valid() && Linked(st) && s in st.sessions && r in st.rooms
      modifies this, st.sessions.Keys, st.rooms.Keys
      ensures Valid() && Linked(st) && outbox == old(outbox)
      ensures (st, ok) == M.MoveTo(old(st), s, r) && SameObjects(old(st), st)
    {
      LeaveLinked(st, s);
      UserLeave(s);
      PlaceLinked(st, s, st.sessions[s].(room := Some(r)));
      SetRoom(s, r);
      JoinLinked(st, s);
      ok := UserJoin(s);
    }

    /** sll_get on the room store with compare_room. */
    method FindRoom(name: Bytes) returns (r: Room?)
      requires Valid() && Linked(st)
      ensures M.FindRoom(st, st.store, name) == if r == null then None else Some(r)
      ensures r != null ==> r in st.rooms
    {
      ShowsTables();
      OpenLinks(st);
      var i := 0;
      r := null;
      while i < |roomStore|
        invariant 0 <= i <= |roomStore|
        invariant M.FindRoom(st, st.store, name) == M.FindRoom(st, st.store[i..], name)
      {
        assert st.store[i..][0] == roomStore[i] && st.store[i..][1..] == st.store[i + 1..];
        ShowsOneRoom(roomStore[i]);
        if roomStore[i].name == name {
          r := roomStore[i];
          return;
        }
        i := i + 1;
      }
      assert st.store[i..] == [];
    }

    /** room_create followed by sll_append to the room store. */
    method AddRoom(name: Bytes) returns (r: Room)
      requires Valid() && Linked(st)
      modifies this
      ensures Valid() && Linked(st) && outbox == old(outbox) && fresh(r)
      ensures st == M.AddRoom(old(st), r, name) && RoomAdded(old(st), st, r)
    {
      Open();
      r := new Room(name);
      roomStore := roomStore + [r];
      AddRoomLinked(st, r, name);
      st := M.AddRoom(st, r, name);
    }

    /** The state, the answer and the packets sent are those of the specification. */
    ghost predicate Answered(reply: Reply, ret: Retcode, keep: bool, before: seq<Frame>)
      reads this
    {
      st == reply.st && ret == reply.ret && keep == reply.keep && outbox == before + reply.out
    }

    /** validate_session. */
    method SessionValid(s: Session, sid: nat) returns (ok: bool)
      requires Valid() && s in st.sessions
      ensures ok <==> M.SessionValid(st, s, sid)
    {
      ShowsSession(s);
      ok := !(s.sessionId == 0 || sid != s.sessionId);
    }

    /** Look the room up or create it, and enter it. */
    method JoinByName(s: Session, name: Bytes) returns (ok: bool, r: Room)
      requires Valid() && Linked(st) && s in st.sessions
      modifies this, st.sessions.Keys, st.rooms.Keys
      ensures Valid() && Linked(st) && outbox == old(outbox)
      ensures var (st1, room) := M.RoomFor(old(st), name, r);
              room == r && (st, ok) == M.MoveTo(st1, s, r)
      ensures (fresh(r) && r !in old(st).rooms) || M.FindRoom(old(st), old(st).store, name) == Some(r)
    {
      var found := FindRoom(name);
      if found == null {
        r := AddRoom(name);
      } else {
        r := found;
      }
      ok := MoveTo(s, r);
    }

    /** room is the room that was found or created, if the request got that far. */
    method OpcodeJoin(s: Session, sid: nat, name: Bytes) returns (ret: Retcode, keep: bool, ghost room: Room?)
      requires Valid() && Linked(st) && s in st.sessions
      modifies this, st.sessions.Keys, st.rooms.Keys
      ensures Valid() && Linked(st)
      ensures forall created: Room :: room == null || created == room ==>
                Answered(M.Join(old(st), s, sid, name, created), ret, keep, old(outbox))
      ensures room != null ==>
                || (fresh(room) && room !in old(st).rooms)
                || (room in old(st).rooms && M.FindRoom(old(st), old(st).store, name) == Some(room))
      ensures I.Inv(old(st)) ==> I.Inv(st)
    {
      room, keep := null, true;
      var ok := SessionValid(s, sid);
      if !ok {
        ret := SessionError;
      } else if !AllAlnum(name) {
        ret := Failure;
      } else {
        keep, room := JoinByName(s, name);
        H.FindRoomResult(old(st), old(st).store, name);
        JoinKeeps(old(st), s, sid, name, room);
        ret := if keep then Success else Failure;
      }
    }

    // ---------------------------------------------------------------- requests

    /** ht_set on one of the two request tables. */
    method SetPending(kind: M.ReqKind, name: Bytes, value: Bytes)
      requires Valid()
      modifies `st, `pmReqs, `fileReqs
      ensures Valid() && st == M.WithTable(old(st), kind, M.Table(old(st), kind)[name := value])
      ensures Linked(old(st)) ==> Linked(st)
      ensures I.Inv(old(st)) ==> I.Inv(st)
    {
      TableKeeps(st, kind, name, value);
      if Linked(st) {
        TableLinked(st, kind, name, value);
      }
      ShowsTables();
      if kind.PmKind? {
        SetRequests(pmReqs[name := value], fileReqs);
      } else {
        SetRequests(pmReqs, fileReqs[name := value]);
      }
    }

    /** ht_get on one of the two request tables: an empty value is no request. */
    method GetPending(kind: M.ReqKind, name: Bytes) returns (value: Option<Bytes>)
      requires Valid()
      ensures value == M.PendingAt(st, kind, name)
    {
      ShowsTables();
      var table := if kind.PmKind? then pmReqs else fileReqs;
      value := if name in table && table[name] != [] then Some(table[name]) else None;
    }

    /** set_request, once the kind of the request is known. */
    method SetRequest(s: Session, target: Session, kind: M.ReqKind) returns (pending: bool)
      requires Valid() && s in st.sessions && target in st.sessions
      modifies this
      ensures Valid()
      ensures var name, from := old(st).sessions[target].username, old(st).sessions[s].username;
              && (pending <==> M.PendingAt(old(st), kind, name).Some?)
              && (pending ==> st == old(st) && outbox == old(outbox))
              && (!pending ==>
                    && st == M.WithTable(old(st), kind, M.Table(old(st), kind)[name := from])
                    && outbox == old(outbox) + [Frame(target, NOTIF, M.RequestText(kind, from))])
    {
      ShowsSession(s);
      ShowsSession(target);
      var name, from := target.username, s.username;
      var value := GetPending(kind, name);
      pending := value.Some?;
      if !pending {
        SetPending(kind, name, from);
        MsgSend(target, NOTIF, M.RequestText(kind, from));
      }
    }

    method OpcodeRequest(s: Session, sid: nat, flag: Byte, username: Bytes) returns (ret: Retcode, keep: bool)
      requires Valid() && Linked(st) && s in st.sessions
      modifies this
      ensures Valid()
      ensures Answered(M.Request(old(st), s, sid, flag, username), ret, keep, old(outbox))
      ensures I.Inv(old(st)) ==> I.Inv(st)
    {
      RequestKeeps(st, s, sid, flag, username);
      keep := true;
      ShowsSession(s);
      var ok := SessionValid(s, sid);
      if !ok {
        return SessionError, true;
      }
      if s.room == null {
        return Failure, true;
      }
      var target := SessionGet(username);
      if target == null {
        return Failure, true;
      }
      if M.KindOf(flag).None? {
        return Failure, false;
      }
      var pending := SetRequest(s, target, M.KindOf(flag).value);
      ret := if pending then Pending else Success;
    }

    /** Move a session into the private room and tell it. */
    method MoveAndTell(s: Session, r: Room, name: Bytes)
      requires Valid() && Linked(st) && s in st.sessions && r in st.rooms
      modifies this, st.sessions.Keys, st.rooms.Keys
      ensures Valid() && Linked(st)
      ensures st == M.MoveTo(old(st), s, r).0 && SameObjects(old(st), st)
      ensures outbox == old(outbox) + [Frame(s, JOIN, name)]
    {
      var moved := MoveTo(s, r);
      MsgSend(s, JOIN, name);
    }

    method PmSecond(responder: Bytes, room: Room, name: Bytes) returns (ok: bool)
      requires Valid() && Linked(st) && room in st.rooms
      modifies this, st.sessions.Keys, st.rooms.Keys
      ensures Valid() && Linked(st)
      ensures var (st', out, done) := M.PmSecond(old(st), responder, room, name);
              st == st' && ok == done && outbox == old(outbox) + out
    {
      var target := SessionGet(responder);
      ok := target != null;
      if ok {
        MoveAndTell(target, room, name);
      }
    }

    method PmFirst(requester: Session, name: Bytes) returns (room: Room)
      requires Valid() && Linked(st) && requester in st.sessions
      modifies this, st.sessions.Keys, st.rooms.Keys
      ensures Valid() && Linked(st) && fresh(room) && room in st.rooms && RoomAdded(old(st), st, room)
      ensures st == M.MoveTo(M.AddRoom(old(st), room, name), requester, room).0
      ensures outbox == old(outbox) + [Frame(requester, JOIN, name)]
    {
      room := AddRoom(name);
      MoveAndTell(requester, room, name);
    }

    /** respond_pm_accept. */
    method PmAccept(requester: Session, responder: Bytes) returns (ok: bool, room: Room)
      requires Valid() && Linked(st) && requester in st.sessions
      modifies this, st.sessions.Keys, st.rooms.Keys
      ensures Valid() && Linked(st) && fresh(room) && room !in old(st).rooms
      ensures var (st', out, done) := M.PmAccept(old(st), requester, responder, room);
              st == st' && ok == done && outbox == old(outbox) + out
      ensures I.Inv(old(st)) && old(st).sessions[requester].id != 0 && responder in old(st).online ==> I.Inv(st)
    {
      ShowsSession(requester);
      hide I.Inv, M.MoveTo, M.AddRoom, M.PmSecond, M.PmRoomName, Valid, Linked, RoomAdded;
      var name := M.PmRoomName(requester.username, responder);
      room := PmFirst(requester, name);
      ok := PmSecond(responder, room, name);
      PmAcceptKeeps(old(st), requester, responder, room);
    }

    /** The permission that accepting a file request stores. */
    method AllowFile(s: Session, allow: Bytes)
      requires Valid() && Linked(st) && s in st.sessions
      modifies `st, s
      ensures Valid() && Linked(st)
      ensures st == M.WithSession(old(st), s, old(st).sessions[s].(allow := allow))
      ensures I.Inv(old(st)) ==> I.Inv(st)
    {
      AllowKeeps(st, s, allow);
      AllowLinked(st, s, allow);
      SetAllow(s, allow);
    }

    /** set_response on a request that is pending at s and names target; room is the private room, if
        one was made. */
    method Decide(s: Session, target: Session, kind: M.ReqKind, choice: Byte)
      returns (ret: Retcode, keep: bool, ghost room: Room?)
      requires Valid() && Linked(st) && s in st.sessions && target in st.sessions
      modifies this, st.sessions.Keys, st.rooms.Keys
      ensures Valid() && Linked(st)
      ensures forall created: Room :: room == null || created == room ==>
                Answered(M.Decide(old(st), s, target, kind, choice, created), ret, keep, old(outbox))
      ensures room != null ==> fresh(room) && room !in old(st).rooms
      ensures I.Inv(old(st)) && old(st).sessions[s].id != 0 && old(st).sessions[target].id != 0 ==> I.Inv(st)
    {
      if I.Inv(st) {
        OnlineUsers(st, s, []);
      }
      ShowsSession(s);
      ShowsSession(target);
      ret, keep, room := Success, true, null;
      var me, from := s.username, target.username;
      if choice == 1 {
        MsgSend(s, NOTIF, M.DeclineText(kind, me));
        MsgSend(target, NOTIF, M.DeclineText(kind, me));
        SetPending(kind, me, []);
      } else if kind.PmKind? {
        keep, room := PmAccept(target, me);
        if keep {
          SetPending(kind, me, []);
        } else {
          ret := Failure;
        }
      } else {
        AllowFile(s, from);
        SetPending(kind, me, []);
      }
    }

    method OpcodeRespond(s: Session, sid: nat, flag: Byte, choice: Byte, username: Bytes)
      returns (ret: Retcode, keep: bool, ghost room: Room?)
      requires Valid() && Linked(st) && s in st.sessions
      modifies this, st.sessions.Keys, st.rooms.Keys
      ensures Valid() && Linked(st)
      ensures forall created: Room :: room == null || created == room ==>
                Answered(M.Respond(old(st), s, sid, flag, choice, username, created), ret, keep, old(outbox))
      ensures room != null ==> fresh(room) && room !in old(st).rooms
      ensures I.Inv(old(st)) ==> I.Inv(st)
    {
      if I.Inv(st) {
        OnlineUsers(st, s, username);
      }
      ret, keep, room := Success, true, null;
      ShowsSession(s);
      var ok := SessionValid(s, sid);
      if !ok {
        return SessionError, true, null;
      }
      if s.room == null {
        return Failure, true, null;
      }
      var target := SessionGet(username);
      if target == null {
        return Failure, true, null;
      }
      if M.KindOf(flag).None? {
        return Failure, false, null;
      }
      ShowsSession(target);
      var kind := M.KindOf(flag).value;
      var value := GetPending(kind, s.username);
      if value != Some(target.username) {
        return NotPending, true, null;
      }
      ret, keep, room := Decide(s, target, kind, choice);
    }

    /** opcode_file_send up to the relay: Success starts the relay to target. */
    method FileCheck(s: Session, sid: nat, username: Bytes) returns (ret: Retcode, target: Session?)
      requires Valid() && Linked(st) && s in st.sessions
      ensures ret == M.FileCheck(st, s, sid, username)
      ensures ret == Success ==> target != null && M.SessionGet(st, username) == Some(target)
    {
      target := null;
      ShowsSession(s);
      var ok := SessionValid(s, sid);
      if !ok {
        return SessionError, null;
      }
      if s.room == null {
        return Failure, null;
      }
      target := SessionGet(username);
      if target == null {
        return Failure, null;
      }
      ShowsSession(target);
      ret := if target.userAllow != s.username then Unallowed else Success;
    }

    /** opcode_file_send after the relay. */
    method FileDone(target: Session, relayed: bool) returns (ret: Retcode, keep: bool)
      requires Valid() && target in st.sessions
      modifies this, target
      ensures Valid()
      ensures Answered(M.FileDone(old(st), target, relayed), ret, keep, old(outbox))
      ensures I.Inv(old(st)) ==> I.Inv(st)
    {
      FileDoneKeeps(st, target, relayed);
      if relayed {
        SetAllow(target, []);
      }
      ret, keep := if relayed then Success else Failure, relayed;
    }

    // ---------------------------------------------------------------- deleting a room

    /** The loop of opcode_delete: next is read before user_leave takes the current node off the very
        list being walked, and stays the head of what is left of that list. */
    method EmptyRoom(r: Room)
      requires Valid() && I.Inv(st) && r in st.rooms
      modifies this, st.sessions.Keys, st.rooms.Keys
      ensures Valid() && outbox == old(outbox) && SameObjects(old(st), st)
      ensures st == M.LeaveAll(old(st), M.Members(old(st), r)) && r in st.rooms && st.rooms[r].members == []
      ensures I.Inv(st)
    {
      ShowsOneRoom(r);
      var rest := r.members;
      while rest != []
        invariant Valid() && I.Inv(st) && outbox == old(outbox) && SameObjects(old(st), st) && r in st.rooms
        invariant rest == st.rooms[r].members
        invariant M.LeaveAll(st, rest) == M.LeaveAll(old(st), M.Members(old(st), r))
        decreases |rest|
      {
        var member, next := rest[0], rest[1..];
        H.LeaveHead(st, r);
        InvLinks(st);
        UserLeave(member);
        rest := next;
      }
    }

    /** sll_remove on the room store: the first room of the name goes and is destroyed. */
    method DropRoomNamed(name: Bytes)
      requires Valid() && Linked(st)
      modifies this
      ensures Valid() && outbox == old(outbox)
      ensures var victim := M.FindRoom(old(st), old(st).store, name);
              st == if victim.None? then old(st)
                    else old(st).(rooms := old(st).rooms - {victim.value},
                                  store := M.DropRoom(old(st).store, victim.value))
    {
      var r := FindRoom(name);
      if r != null {
        Open();
        roomStore := M.DropRoom(roomStore, r);
        st := st.(rooms := st.rooms - {r}, store := M.DropRoom(st.store, r));
      }
    }

    method IsAdmin(s: Session) returns (ok: bool)
      requires Valid() && s in st.sessions
      ensures ok <==> M.IsAdmin(st, s)
    {
      ShowsSession(s);
      ShowsTables();
      ok := s.username in admins;
    }

    /** msg_send_room twice, the member loop, and the removal from the store. */
    method DeleteFound(r: Room, name: Bytes)
      requires Valid() && I.Inv(st) && r in st.rooms
      modifies this, st.sessions.Keys, st.rooms.Keys
      ensures Valid() && st == M.DeleteRoom(old(st), r, name)
      ensures outbox == old(outbox) + M.Broadcast(old(st), r, NOTIF, Ascii("Current room deleted by admin"))
                        + M.Broadcast(old(st), r, JOIN, [])
    {
      InvLinks(st);
      MsgSendRoom(r, NOTIF, Ascii("Current room deleted by admin"));
      MsgSendRoom(r, JOIN, []);
      EmptyRoom(r);
      InvLinks(st);
      DropRoomNamed(name);
    }

    method SetAdmins(who: set<Bytes>)
      requires Valid()
      modifies `st, `admins
      ensures Valid() && SameObjects(old(st), st) && st == old(st).(admins := who)
    {
      Open();
      admins := who;
      st := st.(admins := who);
    }

    /** opcode_promote: only an administrator may, and nobody is promoted twice. */
    method OpcodePromote(s: Session, sid: nat, username: Bytes) returns (ret: Retcode, keep: bool)
      requires Valid() && Linked(st) && s in st.sessions
      modifies this
      ensures Valid()
      ensures Answered(M.Promote(old(st), s, sid, username), ret, keep, old(outbox))
      ensures I.Inv(old(st)) ==> I.Inv(st)
    {
      PromoteKeeps(st, s, sid, username);
      keep := true;
      var ok := SessionValid(s, sid);
      if !ok {
        return SessionError, true;
      }
      ok := IsAdmin(s);
      if !ok {
        return Unauthorized, true;
      }
      ShowsTables();
      if username in admins {
        return Failure, true;
      }
      var target := SessionGet(username);
      SetAdmins(admins + {username});
      if target != null {
        MsgSend(target, NOTIF, Ascii("You are now an admin"));
      }
      ret := Success;
    }

    /** opcode_logout. */
    method OpcodeLogout(s: Session, sid: nat) returns (ret: Retcode, keep: bool)
      requires Valid() && Linked(st) && s in st.sessions
      modifies this, st.sessions.Keys, st.rooms.Keys
      ensures Valid()
      ensures Answered(M.Logout(old(st), s, sid), ret, keep, old(outbox))
      ensures I.Inv(old(st)) ==> I.Inv(st)
    {
      LogoutKeeps(st, s, sid);
      ret, keep := Success, true;
      var ok := SessionValid(s, sid);
      if !ok {
        return SessionError, true;
      }
      UserLogout(s);
    }

    /** opcode_msg_send: the message goes to everybody in the sender's room, the sender included. */
    method OpcodeMsgSend(s: Session, sid: nat, msg: Bytes) returns (ret: Retcode, keep: bool)
      requires Valid() && Linked(st) && s in st.sessions
      modifies `outbox
      ensures Valid()
      ensures Answered(M.MsgSend(st, s, sid, msg), ret, keep, old(outbox))
    {
      ret, keep := Success, true;
      ShowsSession(s);
      OpenLinks(st);
      var ok := SessionValid(s, sid);
      if !ok {
        return SessionError, true;
      }
      if s.room == null {
        return Failure, true;
      }
      MsgSendRoom(s.room, MSG, msg);
    }

    /** The walk over the room store. */
    method ListRooms(s: Session)
      requires Valid() && Linked(st)
      modifies `outbox
      ensures Valid() && outbox == old(outbox) + M.RoomNames(st, s, st.store)
    {
      ShowsTables();
      OpenLinks(st);
      var i := 0;
      while i < |roomStore|
        invariant 0 <= i <= |roomStore| && Valid() && st.store == roomStore
        invariant outbox + M.RoomNames(st, s, st.store[i..]) == old(outbox) + M.RoomNames(st, s, st.store)
      {
        assert st.store[i..][0] == roomStore[i] && st.store[i..][1..] == st.store[i + 1..];
        ShowsOneRoom(roomStore[i]);
        Regroup(outbox, [Frame(s, LIST, roomStore[i].name)], M.RoomNames(st, s, st.store[i + 1..]));
        MsgSend(s, LIST, roomStore[i].name);
        i := i + 1;
      }
      assert st.store[i..] == [];
    }

    /** The walk over the member list. */
    method ListUsers(s: Session, r: Room)
      requires Valid() && Linked(st) && r in st.rooms
      modifies `outbox
      ensures Valid() && outbox == old(outbox) + M.UserNames(st, s, M.Members(st, r))
    {
      ShowsOneRoom(r);
      OpenLinks(st);
      var ms := r.members;
      var i := 0;
      while i < |ms|
        invariant 0 <= i <= |ms| && Valid()
        invariant outbox + M.UserNames(st, s, ms[i..]) == old(outbox) + M.UserNames(st, s, ms)
      {
        assert ms[i..][0] == ms[i] && ms[i..][1..] == ms[i + 1..];
        ShowsSession(ms[i]);
        Regroup(outbox, [Frame(s, LIST, ms[i].username)], M.UserNames(st, s, ms[i + 1..]));
        MsgSend(s, LIST, ms[i].username);
        i := i + 1;
      }
      assert ms[i..] == [];
    }

    /** opcode_list. */
    method OpcodeList(s: Session, sid: nat, flag: Byte) returns (ret: Retcode, keep: bool)
      requires Valid() && Linked(st) && s in st.sessions
      modifies `outbox
      ensures Valid()
      ensures Answered(M.List(st, s, sid, flag), ret, keep, old(outbox))
    {
      ret, keep := Success, true;
      ShowsSession(s);
      OpenLinks(st);
      var ok := SessionValid(s, sid);
      if !ok {
        return SessionError, true;
      }
      if flag == 0 {
        ListRooms(s);
      } else if flag == 1 && s.room != null {
        ListUsers(s, s.room);
      } else {
        ret := Failure;
      }
    }

    /** chat_client_init: a session that is not logged in. */
    method ClientInit() returns (s: Session)
      requires Valid()
      modifies `st
      ensures Valid() && fresh(s) && st == M.ClientInit(old(st), s)
      ensures I.Inv(old(st)) ==> I.Inv(st)
    {
      Open();
      s := new Session();
      if I.Inv(st) {
        I.ConnectKeepsInv(st, s);
      }
      st := M.ClientInit(st, s);
    }

    /** chat_client_free: log out, then the session object is gone. */
    method ClientFree(s: Session)
      requires Valid() && Linked(st) && s in st.sessions
      modifies this, st.sessions.Keys, st.rooms.Keys
      ensures Valid() && st == M.ClientFree(old(st), s) && outbox == old(outbox)
      ensures I.Inv(old(st)) ==> I.Inv(st)
    {
      if I.Inv(st) {
        I.CloseKeepsInv(st, s);
      }
      UserLogout(s);
      Open();
      st := M.RemoveSession(st, s);
    }

    /** opcode_disconnect; whoever disconnects itself is dropped after the answer. */
    method OpcodeDisconnect(s: Session, sid: nat, username: Bytes) returns (ret: Retcode, keep: bool)
      requires Valid() && I.Inv(st) && s in st.sessions
      modifies this, st.sessions.Keys, st.rooms.Keys
      ensures Valid() && I.Inv(st)
      ensures Answered(M.Disconnect(old(st), s, sid, username), ret, keep, old(outbox))
    {
      DisconnectKeeps(st, s, sid, username);
      InvLinks(st);
      var ok := SessionValid(s, sid);
      if !ok {
        return SessionError, true;
      }
      ok := IsAdmin(s);
      if !ok {
        return Unauthorized, true;
      }
      var target := SessionGet(username);
      if target == null {
        return Failure, true;
      }
      MsgSend(target, NOTIF, Ascii("Disconnected by an admin"));
      H.LogoutSafe(st, target);
      InvLinks(M.UserLogout(st, target));
      UserLogout(target);
      if target == s {
        return Success, false;
      }
      ClientFree(target);
      return Success, true;
    }

    method OpcodeDelete(s: Session, sid: nat, name: Bytes) returns (ret: Retcode, keep: bool)
      requires Valid() && I.Inv(st) && s in st.sessions
      modifies this, st.sessions.Keys, st.rooms.Keys
      ensures Valid() && I.Inv(st)
      ensures Answered(M.Delete(old(st), s, sid, name), ret, keep, old(outbox))
    {
      DeleteKeeps(st, s, sid, name);
      keep := true;
      InvLinks(st);
      var ok := SessionValid(s, sid);
      if !ok {
        return SessionError, true;
      }
      ok := IsAdmin(s);
      if !ok {
        return Unauthorized, true;
      }
      var r := FindRoom(name);
      if r == null {
        return Failure, true;
      }
      DeleteFound(r, name);
      ret := Success;
    }
  }

  lemma Regroup<T>(a: seq<T>, b: seq<T>, c: seq<T>)
    ensures (a + b) + c == a + (b + c)
  {
  }

  lemma {:induction false} ReachedGrows(st: ChatState, r: Room, ms: seq<Session>, m: Session)
    ensures M.Reached(st, r, ms + [m]) == M.Reached(st, r, ms) + M.Reached(st, r, [m])
  {
    if ms == [] {
      assert ms + [m] == [m];
    } else {
      assert (ms + [m])[1..] == ms[1..] + [m];
      ReachedGrows(st, r, ms[1..], m);
    }
  }

  lemma BroadcastGrows(st: ChatState, r: Room, ms: seq<Session>, i: nat, sent: seq<Frame>, flag: MsgFlag,
                       payload: Bytes)
    requires i < |ms|
    ensures sent + M.Frames(M.Reached(st, r, ms[..i + 1]), flag, payload)
            == sent + M.Frames(M.Reached(st, r, ms[..i]), flag, payload)
               + M.Frames(M.Reached(st, r, [ms[i]]), flag, payload)
  {
    assert ms[..i + 1] == ms[..i] + [ms[i]];
    ReachedGrows(st, r, ms[..i], ms[i]);
  }
}
