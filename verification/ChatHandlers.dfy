/** What the larger handlers promise: every handler keeps the state invariant, and the properties of
    private rooms, requests, deletion and broadcast that span several operations. */
module ChatHandlers {
  import opened ByteStrings
  import opened ChatTypes
  import opened ChatModel
  import opened ChatInvariant

  // ---------------------------------------------------------------- joining by name

  lemma {:induction false} FindRoomResult(st: ChatState, store: seq<Room>, name: Bytes)
    ensures var found := FindRoom(st, store, name);
            && (found.Some? ==> found.value in store && found.value in st.rooms && st.rooms[found.value].name == name)
            && (found.None? ==> forall q :: q in store && q in st.rooms ==> st.rooms[q].name != name)
  {
    if store != [] {
      FindRoomResult(st, store[1..], name);
      assert store == [store[0]] + store[1..];
    }
  }

  lemma AlnumHasNoPlus(name: Bytes)
    requires AllAlnum(name)
    ensures PLUS !in name && SplitAtPlus(name).None?
  {
    SplitOnlyWithPlus(name);
  }

  /** What a successful move changes. */
  ghost predicate Moved(st: ChatState, s: Session, r: Room, st': ChatState)
    requires s in st.sessions && r in st.rooms
  {
    && st'.sessions == st.sessions[s := st.sessions[s].(room := Some(r))]
    && st'.rooms.Keys == st.rooms.Keys
    && (forall q :: q in st.rooms ==> st'.rooms[q].name == st.rooms[q].name)
    && st' == st.(sessions := st'.sessions, rooms := st'.rooms, pmReqs := st'.pmReqs, fileReqs := st'.fileReqs)
  }

  lemma LeftThenEntered(st: ChatState, s: Session, r: Room, left: ChatState, st': ChatState)
    requires s in st.sessions && r in st.rooms
    requires Left(st, s, left) && Entered(left, s, r, st')
    ensures Moved(st, s, r, st')
  {
  }

  lemma MoveFrame(st: ChatState, s: Session, r: Room)
    requires Inv(st) && s in st.sessions && r in st.rooms && st.sessions[s].id != 0
    requires MayEnter(st.rooms[r].name, st.sessions[s].username)
    ensures Inv(MoveTo(st, s, r).0) && MoveTo(st, s, r).1
    ensures Moved(st, s, r, MoveTo(st, s, r).0)
  {
    Open(st);
    MoveKeepsInv(st, s, r);
    LeaveKeepsInv(st, s);
    LeftThenEntered(st, s, r, UserLeave(st, s), MoveTo(st, s, r).0);
  }

  lemma InRoomIsMember(st: ChatState, s: Session, r: Room)
    requires RoomsAgree(st) && s in st.sessions && st.sessions[s].room == Some(r)
    ensures IsMember(st, r, s)
  {
  }

  lemma MemberAfterMove(st: ChatState, s: Session, r: Room)
    requires Inv(st) && s in st.sessions && st.sessions[s].room == Some(r)
    ensures IsMember(st, r, s)
  {
    Open(st);
  }

  lemma RoomForReady(st: ChatState, name: Bytes, created: Room)
    requires Inv(st) && AllAlnum(name) && created !in st.rooms
    ensures var (st1, r) := RoomFor(st, name, created);
            && Inv(st1) && r in st1.rooms && st1.rooms[r].name == name
            && st1 == st.(rooms := st1.rooms, store := st1.store)
    ensures SplitAtPlus(name).None?
  {
    Open(st);
    AlnumHasNoPlus(name);
    FindRoomResult(st, st.store, name);
    if FindRoom(st, st.store, name).None? {
      AddRoomKeepsInv(st, created, name);
    }
  }

  /** Joining by name always succeeds for a logged-in user and an alphanumeric name, and lands in a
      room of that name; a refused join changes nothing. */
  lemma JoinKeepsInv(st: ChatState, s: Session, sid: nat, name: Bytes, created: Room)
    requires Inv(st) && s in st.sessions && created !in st.rooms
    ensures var reply := Join(st, s, sid, name, created);
            && Safe(st, reply.st, s) && reply.keep
            && (reply.ret == Success <==> SessionValid(st, s, sid) && AllAlnum(name))
            && (reply.ret != Success ==> reply.st == st)
            && (reply.ret == Success ==>
                  && IsMember(reply.st, RoomFor(st, name, created).1, s)
                  && reply.st.rooms[RoomFor(st, name, created).1].name == name)
  {
    if SessionValid(st, s, sid) && AllAlnum(name) {
      RoomForReady(st, name, created);
      var (st1, r) := RoomFor(st, name, created);
      MoveFrame(st1, s, r);
      MovedSteady(st, st1, s, r, MoveTo(st1, s, r).0);
      MemberAfterMove(MoveTo(st1, s, r).0, s, r);
    }
  }

  /** Between st and st' no name, id or file permission changes, except that x may have lost its login. */
  ghost predicate Steady(st: ChatState, st': ChatState, x: Session) {
    && st'.sessions.Keys == st.sessions.Keys && st'.nextId == st.nextId
    && (forall t :: t in st.sessions ==> st'.sessions[t].allow == st.sessions[t].allow)
    && (forall t :: t in st.sessions && t != x ==>
          st'.sessions[t].id == st.sessions[t].id && st'.sessions[t].username == st.sessions[t].username)
    && (x in st.sessions ==>
          || st'.sessions[x].id == 0
          || (st'.sessions[x].id == st.sessions[x].id && st'.sessions[x].username == st.sessions[x].username))
  }

  /** What every handler that moves no counter guarantees. */
  ghost predicate Safe(st: ChatState, st': ChatState, x: Session) {
    Inv(st') && Steady(st, st', x) && st'.creds == st.creds
  }

  lemma MovedSteady(st: ChatState, st1: ChatState, s: Session, r: Room, st2: ChatState)
    requires s in st1.sessions && r in st1.rooms && Moved(st1, s, r, st2)
    requires st1 == st.(rooms := st1.rooms, store := st1.store)
    ensures Steady(st, st2, s) && st2.creds == st.creds
    ensures s in st2.sessions && st2.sessions[s].room == Some(r) && r in st2.rooms
            && st2.rooms[r].name == st1.rooms[r].name
  {
  }

  // ---------------------------------------------------------------- private rooms

  /** The room name does not depend on who asked, except when one username is a proper prefix of the
      other. */
  lemma PmRoomNameSymmetric(a: Bytes, b: Bytes)
    requires PLUS !in a && PLUS !in b
    ensures PmRoomName(a, b) == PmRoomName(b, a) <==> (a <= b || b <= a ==> a == b)
  {
    var n := Min(|a|, |b|);
    MemCmpSwap(a, b, n);
    MemCmpZero(a, b, n);
    if MemCmp(a, b, n) == 0 && a != b {
      assert |a| != |b|;
      if JoinWithPlus(a, b) == JoinWithPlus(b, a) {
        SplitRecoversUsers(a, b);
        SplitRecoversUsers(b, a);
        assert false;
      }
      if |a| < |b| { assert a == b[..n]; } else { assert b == a[..n]; }
    }
  }

  lemma PmRoomAdmitsBoth(a: Bytes, b: Bytes)
    requires PLUS !in a && PLUS !in b
    ensures var name := PmRoomName(a, b);
            PLUS in name && MayEnter(name, a) && MayEnter(name, b)
            && (forall u :: MayEnter(name, u) ==> u == a || u == b)
  {
    SplitRecoversUsers(a, b);
    SplitRecoversUsers(b, a);
    SplitOnlyWithPlus(PmRoomName(a, b));
  }

  lemma ValidNameHasNoPlus(u: Bytes)
    requires ValidUsername(u)
    ensures PLUS !in u
  {
  }

  /** The private room before anybody has moved into it. */
  lemma PmRoomReady(st: ChatState, requester: Session, responder: Session, created: Room)
    requires Inv(st) && requester in st.sessions && responder in st.sessions && created !in st.rooms
    requires st.sessions[requester].id != 0 && st.sessions[responder].id != 0
    ensures var a, b := st.sessions[requester].username, st.sessions[responder].username;
            && PLUS in PmRoomName(a, b)
            && MayEnter(PmRoomName(a, b), a) && MayEnter(PmRoomName(a, b), b)
            && Inv(AddRoom(st, created, PmRoomName(a, b)))
            && b in st.online && st.online[b] == responder
  {
    Open(st);
    var a, b := st.sessions[requester].username, st.sessions[responder].username;
    ValidNameHasNoPlus(a);
    ValidNameHasNoPlus(b);
    PmRoomAdmitsBoth(a, b);
    AddRoomKeepsInv(st, created, PmRoomName(a, b));
  }

  /** Only the rooms of the two sessions change. */
  ghost predicate OnlyRoomsOf(st: ChatState, a: Session, b: Session, st': ChatState) {
    && st'.sessions.Keys == st.sessions.Keys
    && (forall t :: t in st.sessions ==>
          st'.sessions[t] == st.sessions[t].(room := st'.sessions[t].room)
          && (t != a && t != b ==> st'.sessions[t] == st.sessions[t]))
    && st'.online == st.online && st'.creds == st.creds && st'.admins == st.admins && st'.nextId == st.nextId
  }

  lemma MovedTwice(st: ChatState, a: Session, b: Session, r: Room, name: Bytes, st1: ChatState, st2: ChatState)
    requires a in st.sessions && b in st.sessions
    requires Moved(AddRoom(st, r, name), a, r, st1) && Moved(st1, b, r, st2)
    ensures OnlyRoomsOf(st, a, b, st2)
    ensures st2.sessions[a].room == Some(r) && st2.sessions[b].room == Some(r) && st2.rooms[r].name == name
  {
  }

  lemma PmAcceptMoves(st: ChatState, requester: Session, responder: Session, created: Room, st1: ChatState)
    requires requester in st.sessions && responder in st.sessions
    requires var a, b := st.sessions[requester].username, st.sessions[responder].username;
             && b in st.online && st.online[b] == responder
             && st1 == MoveTo(AddRoom(st, created, PmRoomName(a, b)), requester, created).0
             && Moved(AddRoom(st, created, PmRoomName(a, b)), requester, created, st1)
    ensures var (st', _, ok) := PmAccept(st, requester, st.sessions[responder].username, created);
            responder in st1.sessions && st' == MoveTo(st1, responder, created).0 && ok
  {
  }

  /** Accepting a private conversation always works: both users end up in the new room, whose name
      admits nobody else, and no other session, account or login is touched. */
  lemma PmAcceptKeepsInv(st: ChatState, requester: Session, responder: Session, created: Room)
    requires Inv(st) && requester in st.sessions && responder in st.sessions && created !in st.rooms
    requires st.sessions[requester].id != 0 && st.sessions[responder].id != 0
    ensures var (st', out, ok) := PmAccept(st, requester, st.sessions[responder].username, created);
            && ok && Inv(st') && OnlyRoomsOf(st, requester, responder, st')
            && IsMember(st', created, requester) && IsMember(st', created, responder)
            && st'.rooms[created].name == PmRoomName(st.sessions[requester].username, st.sessions[responder].username)
  {
    var a, b := st.sessions[requester].username, st.sessions[responder].username;
    PmRoomReady(st, requester, responder, created);
    var st0 := AddRoom(st, created, PmRoomName(a, b));
    MoveFrame(st0, requester, created);
    var st1 := MoveTo(st0, requester, created).0;
    PmAcceptMoves(st, requester, responder, created, st1);
    PmSecondMove(st, st1, requester, responder, created);
  }

  /** Names with a plus sign are not unique: accepting a second private conversation between the same
      two users creates a second room of the same name beside the first. When names stay distinct is
      said by ChatLimits.NamesStayDistinctExactly. */
  lemma PrivateNamesMayRepeat(st: ChatState, requester: Session, responder: Session, first: Room, created: Room)
    requires Inv(st) && requester in st.sessions && responder in st.sessions && created !in st.rooms
    requires st.sessions[requester].id != 0 && st.sessions[responder].id != 0 && first in st.rooms
    requires st.rooms[first].name == PmRoomName(st.sessions[requester].username, st.sessions[responder].username)
    ensures var st' := PmAccept(st, requester, st.sessions[responder].username, created).0;
            && first in st'.rooms && created in st'.rooms && first != created && first in st'.store
            && created in st'.store
            && st'.rooms[first].name == st'.rooms[created].name && Inv(st')
  {
    PmAcceptKeepsInv(st, requester, responder, created);
    Open(st);
    var st1 := AddRoom(st, created, PmRoomName(st.sessions[requester].username, st.sessions[responder].username));
    PmRoomReady(st, requester, responder, created);
    MoveFrame(st1, requester, created);
    var st2 := MoveTo(st1, requester, created).0;
    MoveFrame(st2, responder, created);
    Open(PmAccept(st, requester, st.sessions[responder].username, created).0);
  }

  lemma PmSecondMove(st: ChatState, st1: ChatState, requester: Session, responder: Session, created: Room)
    requires requester in st.sessions && responder in st.sessions && Inv(st1)
    requires var a, b := st.sessions[requester].username, st.sessions[responder].username;
             && Moved(AddRoom(st, created, PmRoomName(a, b)), requester, created, st1)
             && MayEnter(PmRoomName(a, b), b)
             && st.sessions[responder].id != 0
    ensures var st2 := MoveTo(st1, responder, created).0;
            && Inv(st2) && OnlyRoomsOf(st, requester, responder, st2)
            && IsMember(st2, created, requester) && IsMember(st2, created, responder)
            && st2.rooms[created].name == PmRoomName(st.sessions[requester].username, st.sessions[responder].username)
  {
    MoveFrame(st1, responder, created);
    var st2 := MoveTo(st1, responder, created).0;
    MovedTwice(st, requester, responder, created,
               PmRoomName(st.sessions[requester].username, st.sessions[responder].username), st1, st2);
    MemberAfterMove(st2, requester, created);
    MemberAfterMove(st2, responder, created);
  }

  // ---------------------------------------------------------------- requests

  lemma TableKeepsInv(st: ChatState, kind: ReqKind, name: Bytes, value: Bytes)
    requires Inv(st)
    ensures Inv(WithTable(st, kind, Table(st, kind)[name := value]))
  {
    Open(st);
    var st' := WithTable(st, kind, Table(st, kind)[name := value]);
    SameRoomsKeepRooms(st, st');
    assert OnlineAgree(st') && RoomUsers(st') && UsersKnown(st');
    Establish(st');
  }

  /** The user that s asks to reach, when the request gets as far as the tables. */
  ghost predicate Reaches(st: ChatState, s: Session, sid: nat, flag: Byte, username: Bytes)
    requires s in st.sessions
  {
    && SessionValid(st, s, sid) && st.sessions[s].room.Some?
    && username in st.online && KindOf(flag).Some?
  }

  /** A request is recorded exactly when none of its kind is pending at the receiver; a second one is
      answered PENDING and changes nothing. Refused requests of any sort change nothing. */
  lemma RequestDiscipline(st: ChatState, s: Session, sid: nat, flag: Byte, username: Bytes)
    requires OnlineAgree(st) && UsersKnown(st) && s in st.sessions
    ensures var reply := Request(st, s, sid, flag, username);
            && (reply.ret == Success <==>
                  Reaches(st, s, sid, flag, username) && PendingAt(st, KindOf(flag).value, username).None?)
            && (reply.ret == Pending <==>
                  Reaches(st, s, sid, flag, username) && PendingAt(st, KindOf(flag).value, username).Some?)
            && (reply.ret != Success ==> reply.st == st && reply.out == [])
            && (reply.ret == Success ==>
                  var kind := KindOf(flag).value;
                  && reply.st == WithTable(st, kind, Table(st, kind)[username := st.sessions[s].username])
                  && PendingAt(reply.st, kind, username) == Some(st.sessions[s].username))
            && (!reply.keep <==> SessionValid(st, s, sid) && st.sessions[s].room.Some?
                                 && username in st.online && KindOf(flag).None?)
  {
  }

  lemma RequestKeepsInv(st: ChatState, s: Session, sid: nat, flag: Byte, username: Bytes)
    requires Inv(st) && s in st.sessions
    ensures Inv(Request(st, s, sid, flag, username).st)
  {
    Open(st);
    RequestDiscipline(st, s, sid, flag, username);
    if Request(st, s, sid, flag, username).ret == Success {
      TableKeepsInv(st, KindOf(flag).value, username, st.sessions[s].username);
    }
  }

  /** s may answer the request of username: it is the one recorded as pending at s. */
  ghost predicate MayAnswer(st: ChatState, s: Session, sid: nat, flag: Byte, username: Bytes)
    requires s in st.sessions
  {
    && Reaches(st, s, sid, flag, username)
    && PendingAt(st, KindOf(flag).value, st.sessions[s].username) == Some(username)
  }

  ghost predicate PmAcceptWorks(st: ChatState, s: Session, username: Bytes, created: Room)
    requires s in st.sessions && username in st.online && st.online[username] in st.sessions
  {
    var (st', out, ok) := PmAccept(st, st.online[username], st.sessions[s].username, created);
    ok && OnlyRoomsOf(st, st.online[username], s, st')
  }

  lemma RespondRefused(st: ChatState, s: Session, sid: nat, flag: Byte, choice: Byte, username: Bytes, created: Room)
    requires OnlineAgree(st) && s in st.sessions && !MayAnswer(st, s, sid, flag, username)
    ensures var reply := Respond(st, s, sid, flag, choice, username, created);
            reply.ret != Success && reply.st == st
  {
  }

  lemma RespondPm(st: ChatState, s: Session, sid: nat, flag: Byte, choice: Byte, username: Bytes, created: Room)
    requires OnlineAgree(st) && s in st.sessions && MayAnswer(st, s, sid, flag, username)
    requires choice != 1 && flag == 0 && PmAcceptWorks(st, s, username, created)
    ensures var reply := Respond(st, s, sid, flag, choice, username, created);
            var (st', out, ok) := PmAccept(st, st.online[username], st.sessions[s].username, created);
            reply == Reply(st'.(pmReqs := st'.pmReqs[st.sessions[s].username := []]), Success, out, true)
  {
  }

  lemma RespondOther(st: ChatState, s: Session, sid: nat, flag: Byte, choice: Byte, username: Bytes, created: Room)
    requires OnlineAgree(st) && s in st.sessions && MayAnswer(st, s, sid, flag, username)
    requires choice == 1 || flag == 1
    ensures var reply := Respond(st, s, sid, flag, choice, username, created);
            var kind, me := KindOf(flag).value, st.sessions[s].username;
            var rec := if choice == 1 then st.sessions[s] else st.sessions[s].(allow := username);
            && reply.ret == Success && reply.keep
            && reply.st == WithTable(WithSession(st, s, rec), kind, Table(st, kind)[me := []])
  {
    assert st.sessions[s := st.sessions[s]] == st.sessions;
  }

  /** An answer goes through exactly when the request recorded at the answering user names the user
      it answers. It consumes the request; every other answer leaves the state alone. */
  lemma RespondDiscipline(st: ChatState, s: Session, sid: nat, flag: Byte, choice: Byte, username: Bytes, created: Room)
    requires Inv(st) && s in st.sessions && created !in st.rooms
    ensures var reply := Respond(st, s, sid, flag, choice, username, created);
            && (reply.ret == Success <==> MayAnswer(st, s, sid, flag, username))
            && (reply.ret != Success ==> reply.st == st)
            && (reply.ret == Success ==>
                  && reply.keep && s in reply.st.sessions
                  && st.sessions[s].username == reply.st.sessions[s].username
                  && PendingAt(reply.st, KindOf(flag).value, st.sessions[s].username).None?)
  {
    Open(st);
    if !MayAnswer(st, s, sid, flag, username) {
      RespondRefused(st, s, sid, flag, choice, username, created);
    } else if choice == 1 || flag == 1 {
      RespondOther(st, s, sid, flag, choice, username, created);
    } else {
      PmAcceptKeepsInv(st, st.online[username], s, created);
      RespondPm(st, s, sid, flag, choice, username, created);
    }
  }

  lemma RespondKeepsInv(st: ChatState, s: Session, sid: nat, flag: Byte, choice: Byte, username: Bytes, created: Room)
    requires Inv(st) && s in st.sessions && created !in st.rooms
    ensures Inv(Respond(st, s, sid, flag, choice, username, created).st)
  {
    Open(st);
    var reply := Respond(st, s, sid, flag, choice, username, created);
    var kind, me := KindOf(flag).GetOr(PmKind), st.sessions[s].username;
    if !MayAnswer(st, s, sid, flag, username) {
      RespondRefused(st, s, sid, flag, choice, username, created);
    } else if choice == 1 || flag == 1 {
      var rec := if choice == 1 then st.sessions[s] else st.sessions[s].(allow := username);
      RespondOther(st, s, sid, flag, choice, username, created);
      RecordKeepsInv(st, s, rec);
      TableKeepsInv(WithSession(st, s, rec), kind, me, []);
    } else {
      PmAcceptKeepsInv(st, st.online[username], s, created);
      RespondPm(st, s, sid, flag, choice, username, created);
      TableKeepsInv(PmAccept(st, st.online[username], me, created).0, PmKind, me, []);
    }
  }

  /** What an accepted request does: a private conversation brings both users into a room of their
      own; a file request gives the requester, and nobody else, permission to send. */
  lemma AcceptEffect(st: ChatState, s: Session, sid: nat, flag: Byte, choice: Byte, username: Bytes, created: Room)
    requires Inv(st) && s in st.sessions && created !in st.rooms && choice != 1
    requires Respond(st, s, sid, flag, choice, username, created).ret == Success
    ensures var reply := Respond(st, s, sid, flag, choice, username, created);
            && (KindOf(flag).value.PmKind? ==>
                  && IsMember(reply.st, created, s) && IsMember(reply.st, created, st.online[username])
                  && (forall u :: MayEnter(reply.st.rooms[created].name, u) ==>
                        u == username || u == st.sessions[s].username))
            && (KindOf(flag).value.FileKind? ==>
                  reply.st.sessions == st.sessions[s := st.sessions[s].(allow := username)])
  {
    Open(st);
    RespondDiscipline(st, s, sid, flag, choice, username, created);
    if KindOf(flag).value.PmKind? {
      var other := st.online[username];
      PmAcceptKeepsInv(st, other, s, created);
      RespondPm(st, s, sid, flag, choice, username, created);
      ValidNameHasNoPlus(username);
      ValidNameHasNoPlus(st.sessions[s].username);
      PmRoomAdmitsBoth(username, st.sessions[s].username);
    } else {
      RespondOther(st, s, sid, flag, choice, username, created);
    }
  }

  // ---------------------------------------------------------------- broadcast

  lemma {:induction false} ReachedAll(st: ChatState, r: Room, ms: seq<Session>)
    requires forall s :: s in ms ==>
               s in st.sessions && st.sessions[s].id != 0 && st.sessions[s].username != []
               && st.sessions[s].room == Some(r)
    ensures Reached(st, r, ms) == ms
  {
    if ms != [] {
      assert ms == [ms[0]] + ms[1..];
      ReachedAll(st, r, ms[1..]);
    }
  }

  /** A broadcast into a live room sends exactly one frame to each session whose current room it is,
      and none to anybody else: the skip filter never drops a listed member. */
  lemma BroadcastReachesExactlyTheRoom(st: ChatState, r: Room, flag: MsgFlag, payload: Bytes)
    requires Inv(st) && r in st.rooms
    ensures var out := Broadcast(st, r, flag, payload);
            && (forall i :: 0 <= i < |out| ==> out[i] == Frame(out[i].to, flag, payload))
            && (forall i :: 0 <= i < |out| ==> out[i].to in st.sessions && st.sessions[out[i].to].room == Some(r))
            && (forall i, j :: 0 <= i < j < |out| ==> out[i].to != out[j].to)
            && (forall s :: s in st.sessions && st.sessions[s].room == Some(r) ==> Frame(s, flag, payload) in out)
  {
    var ms := st.rooms[r].members;
    MembersListen(st, r);
    FramesTo(ms, flag, payload);
    hide Reached, Frames, Inv, IsMember, RoomsAgree;
    var out := Broadcast(st, r, flag, payload);
    assert out == Frames(ms, flag, payload);
    forall s | s in st.sessions && st.sessions[s].room == Some(r)
      ensures Frame(s, flag, payload) in out
    {
      var i :| 0 <= i < |ms| && ms[i] == s;
      assert out[i] == Frame(s, flag, payload);
    }
  }

  /** The member list of a live room: exactly the sessions whose room it is, once each, all of which
      the filter lets through. */
  lemma MembersListen(st: ChatState, r: Room)
    requires Inv(st) && r in st.rooms
    ensures Reached(st, r, st.rooms[r].members) == st.rooms[r].members
    ensures forall i :: 0 <= i < |st.rooms[r].members| ==>
              st.rooms[r].members[i] in st.sessions && st.sessions[st.rooms[r].members[i]].room == Some(r)
    ensures NoDup(st.rooms[r].members)
    ensures forall s :: s in st.sessions && st.sessions[s].room == Some(r) ==> s in st.rooms[r].members
  {
    Open(st);
    ReachedAll(st, r, st.rooms[r].members);
    forall s | s in st.sessions && st.sessions[s].room == Some(r)
      ensures s in st.rooms[r].members
    {
      InRoomIsMember(st, s, r);
    }
  }

  lemma FramesTo(to: seq<Session>, flag: MsgFlag, payload: Bytes)
    ensures |Frames(to, flag, payload)| == |to|
    ensures forall i :: 0 <= i < |to| ==> Frames(to, flag, payload)[i] == Frame(to[i], flag, payload)
  {
  }

  // ---------------------------------------------------------------- deleting a room

  /** Everybody in ms is out of their room; other sessions and other rooms than r are unchanged. */
  ghost predicate Emptied(st: ChatState, r: Room, ms: seq<Session>, st': ChatState) {
    && st'.sessions.Keys == st.sessions.Keys
    && (forall s :: s in st.sessions ==>
          st'.sessions[s] == st.sessions[s].(room := if s in ms then None else st.sessions[s].room))
    && st'.rooms.Keys == st.rooms.Keys
    && (forall q :: q in st.rooms ==> st'.rooms[q].name == st.rooms[q].name)
    && (forall q :: q in st.rooms && q != r ==> st'.rooms[q] == st.rooms[q])
    && st' == st.(sessions := st'.sessions, rooms := st'.rooms, pmReqs := st'.pmReqs, fileReqs := st'.fileReqs)
  }

  lemma EmptiedOneMore(st: ChatState, r: Room, ms: seq<Session>, st1: ChatState, st2: ChatState)
    requires ms != [] && ms[0] in st.sessions && st.sessions[ms[0]].room == Some(r)
    requires Left(st, ms[0], st1) && Emptied(st1, r, ms[1..], st2)
    ensures Emptied(st, r, ms, st2)
  {
    assert ms == [ms[0]] + ms[1..];
  }

  lemma LeaveHead(st: ChatState, r: Room)
    requires Inv(st) && r in st.rooms && st.rooms[r].members != []
    ensures var s := st.rooms[r].members[0];
            && s in st.sessions && st.sessions[s].room == Some(r)
            && Inv(UserLeave(st, s)) && Left(st, s, UserLeave(st, s))
            && UserLeave(st, s).rooms[r].members == st.rooms[r].members[1..]
  {
    Open(st);
    var s := st.rooms[r].members[0];
    assert IsMember(st, r, s);
    LeaveKeepsInv(st, s);
  }

  /** The loop of opcode_delete ends with the list it walks empty, although every step shortens it. */
  lemma {:induction false} LeaveAllEmpties(st: ChatState, r: Room)
    requires Inv(st) && r in st.rooms
    ensures var st' := LeaveAll(st, st.rooms[r].members);
            Inv(st') && Emptied(st, r, st.rooms[r].members, st') && st'.rooms[r].members == []
    decreases |st.rooms[r].members|
  {
    Open(st);
    var ms := st.rooms[r].members;
    if ms != [] {
      LeaveHead(st, r);
      LeaveAllEmpties(UserLeave(st, ms[0]), r);
      EmptiedOneMore(st, r, ms, UserLeave(st, ms[0]), LeaveAll(UserLeave(st, ms[0]), ms[1..]));
    }
  }

  lemma {:induction false} FindRoomByNamesOnly(st: ChatState, st': ChatState, store: seq<Room>, name: Bytes)
    requires st'.rooms.Keys == st.rooms.Keys && forall q :: q in st.rooms ==> st'.rooms[q].name == st.rooms[q].name
    ensures FindRoom(st', store, name) == FindRoom(st, store, name)
  {
    if store != [] {
      FindRoomByNamesOnly(st, st', store[1..], name);
    }
  }

  lemma {:induction false} DropRoomGone(store: seq<Room>, r: Room)
    requires NoDup(store)
    ensures NoDup(DropRoom(store, r)) && r !in DropRoom(store, r)
    ensures forall q | q in DropRoom(store, r) :: q in store
    ensures forall q | q in store && q != r :: q in DropRoom(store, r)
  {
    if store != [] {
      assert NoDup(store[1..]);
      assert store == [store[0]] + store[1..];
      if store[0] == r {
        assert forall i :: 0 <= i < |store[1..]| ==> store[1..][i] == store[i + 1] != r;
      } else {
        DropRoomGone(store[1..], r);
        assert store[0] !in store[1..];
      }
    }
  }

  lemma DropKeepsStore(st: ChatState, r: Room, st': ChatState)
    requires StoreGood(st) && st' == st.(rooms := st.rooms - {r}, store := DropRoom(st.store, r))
    ensures StoreGood(st')
  {
    DropRoomGone(st.store, r);
  }

  lemma DropKeepsRooms(st: ChatState, r: Room, st': ChatState)
    requires RoomsAgree(st) && r in st.rooms && st.rooms[r].members == []
    requires st' == st.(rooms := st.rooms - {r}, store := st'.store)
    ensures RoomsAgree(st')
  {
    forall s | s in st'.sessions && st'.sessions[s].room.Some?
      ensures IsMember(st', st'.sessions[s].room.value, s)
    {
      assert IsMember(st, st.sessions[s].room.value, s);
    }
  }

  lemma DropKeepsInv(st: ChatState, r: Room, st': ChatState)
    requires Inv(st) && r in st.rooms && st.rooms[r].members == []
    requires st' == st.(rooms := st.rooms - {r}, store := DropRoom(st.store, r))
    ensures Inv(st')
  {
    Open(st);
    DropKeepsStore(st, r, st');
    DropKeepsRooms(st, r, st');
    assert OnlineAgree(st') && RoomUsers(st');
    Establish(st');
  }

  /** Deleting by name empties one room and removes that same room, even when two private rooms share
      the name: exactly its members become roomless, every other room is untouched, and no session is
      left pointing at the removed one. */
  lemma DeleteRemovesWhatItEmptied(st: ChatState, r: Room, name: Bytes)
    requires Inv(st) && FindRoom(st, st.store, name) == Some(r)
    ensures var st' := DeleteRoom(st, r, name);
            && Inv(st')
            && st'.rooms.Keys == st.rooms.Keys - {r}
            && (forall q :: q in st'.rooms ==> st'.rooms[q] == st.rooms[q])
            && st'.sessions.Keys == st.sessions.Keys
            && (forall s :: s in st.sessions ==>
                  st'.sessions[s] == st.sessions[s].(room := if st.sessions[s].room == Some(r) then None
                                                             else st.sessions[s].room))
            && st'.online == st.online && st'.creds == st.creds && st'.admins == st.admins && st'.nextId == st.nextId
  {
    Open(st);
    FindRoomResult(st, st.store, name);
    var ms := st.rooms[r].members;
    var emptied := LeaveAll(st, ms);
    LeaveAllEmpties(st, r);
    FindRoomByNamesOnly(st, emptied, st.store, name);
    DropKeepsInv(emptied, r, DeleteRoom(st, r, name));
    MembersAreTheRoom(st, r);
  }

  lemma DeleteRoomSafe(st: ChatState, s: Session, r: Room, name: Bytes)
    requires Inv(st) && FindRoom(st, st.store, name) == Some(r)
    ensures Safe(st, DeleteRoom(st, r, name), s)
  {
    Open(st);
    DeleteRemovesWhatItEmptied(st, r, name);
    RoomsOnlySteady(st, DeleteRoom(st, r, name), s);
  }

  lemma SafeRefl(st: ChatState, s: Session)
    requires Inv(st)
    ensures Safe(st, st, s)
  {
  }

  lemma DeleteSafe(st: ChatState, s: Session, sid: nat, name: Bytes)
    requires Inv(st) && s in st.sessions
    ensures Safe(st, Delete(st, s, sid, name).st, s)
  {
    hide DeleteRoom, FindRoom, IsAdmin, SessionValid, Broadcast, Inv, Steady;
    SafeRefl(st, s);
    var found := FindRoom(st, st.store, name);
    if found.Some? {
      DeleteRoomSafe(st, s, found.value, name);
    }
  }

  lemma RoomsOnlySteady(st: ChatState, st': ChatState, s: Session)
    requires st'.sessions.Keys == st.sessions.Keys && st'.nextId == st.nextId
    requires forall t :: t in st.sessions ==> st'.sessions[t] == st.sessions[t].(room := st'.sessions[t].room)
    ensures Steady(st, st', s)
  {
  }

  lemma AdminsKeepInv(st: ChatState, st': ChatState)
    requires Inv(st) && st' == st.(admins := st'.admins)
    ensures Inv(st')
  {
    Open(st);
    SameRoomsKeepRooms(st, st');
    assert OnlineAgree(st') && RoomUsers(st') && UsersKnown(st');
    Establish(st');
  }

  lemma MembersAreTheRoom(st: ChatState, r: Room)
    requires RoomsAgree(st) && r in st.rooms
    ensures forall s :: s in st.sessions ==> (s in st.rooms[r].members <==> st.sessions[s].room == Some(r))
  {
    forall s | s in st.sessions
      ensures s in st.rooms[r].members <==> st.sessions[s].room == Some(r)
    {
      if st.sessions[s].room == Some(r) {
        InRoomIsMember(st, s, r);
      }
    }
  }

  // ---------------------------------------------------------------- the remaining handlers

  lemma LogoutSafe(st: ChatState, x: Session)
    requires Inv(st) && x in st.sessions
    ensures Safe(st, UserLogout(st, x), x) && NoReference(UserLogout(st, x), x)
  {
    Open(st);
    LogoutKeepsInv(st, x);
  }

  lemma RequestSafe(st: ChatState, s: Session, sid: nat, flag: Byte, username: Bytes)
    requires Inv(st) && s in st.sessions
    ensures Safe(st, Request(st, s, sid, flag, username).st, s)
  {
    Open(st);
    RequestKeepsInv(st, s, sid, flag, username);
    RequestDiscipline(st, s, sid, flag, username);
  }

  lemma PromoteSafe(st: ChatState, s: Session, sid: nat, username: Bytes)
    requires Inv(st) && s in st.sessions
    ensures Safe(st, Promote(st, s, sid, username).st, s)
  {
    Open(st);
    AdminsKeepInv(st, Promote(st, s, sid, username).st);
  }
}
