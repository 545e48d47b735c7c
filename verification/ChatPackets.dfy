/** What the handlers of private rooms and requests put into their packets: to whom, of which kind, and
    which bytes. */
module ChatPackets {
  import opened ByteStrings
  import opened ChatTypes
  import opened ChatModel
  import opened ChatInvariant
  import opened ChatHandlers

  /** s is logged in, and sid is its id. */
  ghost predicate Known(st: ChatState, s: Session, sid: nat) {
    s in st.sessions && st.sessions[s].id != 0 && sid == st.sessions[s].id
  }

  ghost predicate KnownAdmin(st: ChatState, s: Session, sid: nat) {
    Known(st, s, sid) && st.sessions[s].username in st.admins
  }

  // ---------------------------------------------------------------- the name of a private room

  /** The first byte in which two strings differ decides memcmp. */
  lemma {:induction false} FirstDifferenceDecides(a: Bytes, b: Bytes, n: nat, k: nat)
    requires k < n <= |a| && n <= |b| && a[..k] == b[..k] && a[k] != b[k]
    ensures MemCmp(a, b, n) == if a[k] < b[k] then -1 else 1
  {
    if k > 0 {
      assert a[0] == a[..k][0] == b[..k][0] == b[0];
      assert a[1..][..k - 1] == a[..k][1..] && b[1..][..k - 1] == b[..k][1..];
      FirstDifferenceDecides(a[1..], b[1..], n - 1, k - 1);
    }
  }

  /** The two users stand in the order of their first different bytes; when there are none, because one
      name is the beginning of the other, the one who asked stands first. */
  ghost predicate NamedInOrder(asked: Bytes, answered: Bytes, name: Bytes) {
    && (forall k :: 0 <= k < |asked| && k < |answered| && asked[..k] == answered[..k] && asked[k] < answered[k]
          ==> name == asked + [43] + answered)
    && (forall k :: 0 <= k < |asked| && k < |answered| && asked[..k] == answered[..k] && answered[k] < asked[k]
          ==> name == answered + [43] + asked)
    && (asked <= answered || answered <= asked ==> name == asked + [43] + answered)
  }

  lemma JoinedInOrder(asked: Bytes, answered: Bytes)
    ensures NamedInOrder(asked, answered, PmRoomName(asked, answered))
  {
    var n := Min(|asked|, |answered|);
    MemCmpZero(asked, answered, n);
    forall k | 0 <= k < n && asked[..k] == answered[..k] && asked[k] != answered[k]
      ensures MemCmp(asked, answered, n) == if asked[k] < answered[k] then -1 else 1
    {
      FirstDifferenceDecides(asked, answered, n, k);
    }
  }

  /** The room that an accepted private conversation creates is named after its users in order, and that
      name goes out to both of them, first to the one who asked. */
  lemma PrivateRoomIsNamedInOrder(st: ChatState, requester: Session, responder: Session, created: Room)
    requires Inv(st) && requester in st.sessions && responder in st.sessions && created !in st.rooms
    requires st.sessions[requester].id != 0 && st.sessions[responder].id != 0
    ensures var asked, answered := st.sessions[requester].username, st.sessions[responder].username;
            var (st', out, ok) := PmAccept(st, requester, answered, created);
            && ok && created in st'.rooms && NamedInOrder(asked, answered, st'.rooms[created].name)
            && out == [Frame(requester, JOIN, st'.rooms[created].name), Frame(responder, JOIN, st'.rooms[created].name)]
  {
    var asked, answered := st.sessions[requester].username, st.sessions[responder].username;
    PmAcceptKeepsInv(st, requester, responder, created);
    JoinedInOrder(asked, answered);
    Open(st);
    PmAcceptTells(st, requester, answered, created);
  }

  lemma PmAcceptTells(st: ChatState, requester: Session, responder: Bytes, created: Room)
    requires requester in st.sessions && responder in st.online
    requires PmAccept(st, requester, responder, created).2
    requires MoveTo(AddRoom(st, created, PmRoomName(st.sessions[requester].username, responder)),
                    requester, created).0.online == st.online
    ensures var name := PmRoomName(st.sessions[requester].username, responder);
            PmAccept(st, requester, responder, created).1
            == [Frame(requester, JOIN, name), Frame(st.online[responder], JOIN, name)]
  {
    hide MoveTo, AddRoom, PmRoomName;
  }

  // ---------------------------------------------------------------- requests and answers

  /** A recorded request is told to the user that it asks, and to nobody else. */
  lemma RequestTells(st: ChatState, s: Session, sid: nat, flag: Byte, username: Bytes)
    requires Inv(st) && s in st.sessions
    ensures var reply := Request(st, s, sid, flag, username);
            && (reply.ret != Success ==> reply.out == [])
            && (reply.ret == Success ==>
                  && (flag == 0 || flag == 1) && username in st.online
                  && reply.out == [Frame(st.online[username], NOTIF,
                                         (if flag == 0 then Ascii("PM request received from ")
                                          else Ascii("File transfer request received from "))
                                         + st.sessions[s].username)])
  {
    Open(st);
  }

  lemma DeclineTells(st: ChatState, s: Session, sid: nat, flag: Byte, username: Bytes, created: Room)
    requires OnlineAgree(st) && s in st.sessions && MayAnswer(st, s, sid, flag, username)
    ensures var text := (if flag == 0 then Ascii("PM request declined by ")
                         else Ascii("File transfer request declined by ")) + st.sessions[s].username;
            Respond(st, s, sid, flag, 1, username, created).out
            == [Frame(s, NOTIF, text), Frame(st.online[username], NOTIF, text)]
  {
    TwoFrames(s, st.online[username], NOTIF, DeclineText(KindOf(flag).value, st.sessions[s].username));
    hide Frames;
  }

  lemma TwoFrames(s: Session, t: Session, flag: MsgFlag, payload: Bytes)
    ensures Frames([s, t], flag, payload) == [Frame(s, flag, payload), Frame(t, flag, payload)]
  {
  }

  lemma RefusedAnswerTells(st: ChatState, s: Session, sid: nat, flag: Byte, choice: Byte, username: Bytes,
                           created: Room)
    requires OnlineAgree(st) && s in st.sessions && !MayAnswer(st, s, sid, flag, username)
    ensures Respond(st, s, sid, flag, choice, username, created).out == []
  {
  }

  lemma FileAcceptTells(st: ChatState, s: Session, sid: nat, choice: Byte, username: Bytes, created: Room)
    requires OnlineAgree(st) && s in st.sessions && MayAnswer(st, s, sid, 1, username) && choice != 1
    ensures Respond(st, s, sid, 1, choice, username, created).out == []
  {
  }

  lemma PmAnswerTells(st: ChatState, s: Session, sid: nat, choice: Byte, username: Bytes, created: Room)
    requires Inv(st) && s in st.sessions && created !in st.rooms
    requires MayAnswer(st, s, sid, 0, username) && choice != 1
    ensures var reply := Respond(st, s, sid, 0, choice, username, created);
            && created in reply.st.rooms
            && NamedInOrder(username, st.sessions[s].username, reply.st.rooms[created].name)
            && reply.out == [Frame(st.online[username], JOIN, reply.st.rooms[created].name),
                             Frame(s, JOIN, reply.st.rooms[created].name)]
  {
    Open(st);
    var other := st.online[username];
    PmAcceptKeepsInv(st, other, s, created);
    RespondPm(st, s, sid, 0, choice, username, created);
    PrivateRoomIsNamedInOrder(st, other, s, created);
  }

  /** What an answer tells, and whom. A declined request is told to both users, in these words; an accepted
      private conversation gives both the name of the new room; an accepted file tells nobody anything. */
  lemma RespondTells(st: ChatState, s: Session, sid: nat, flag: Byte, choice: Byte, username: Bytes, created: Room)
    requires Inv(st) && s in st.sessions && created !in st.rooms
    ensures var reply := Respond(st, s, sid, flag, choice, username, created); var me := st.sessions[s].username;
            && (reply.ret != Success ==> reply.out == [])
            && (reply.ret == Success ==> username in st.online && (flag == 0 || flag == 1))
            && (reply.ret == Success && choice == 1 ==>
                  var text := (if flag == 0 then Ascii("PM request declined by ")
                               else Ascii("File transfer request declined by ")) + me;
                  reply.out == [Frame(s, NOTIF, text), Frame(st.online[username], NOTIF, text)])
            && (reply.ret == Success && choice != 1 && flag == 0 ==>
                  && created in reply.st.rooms && NamedInOrder(username, me, reply.st.rooms[created].name)
                  && reply.out == [Frame(st.online[username], JOIN, reply.st.rooms[created].name),
                                   Frame(s, JOIN, reply.st.rooms[created].name)])
            && (reply.ret == Success && choice != 1 && flag == 1 ==> reply.out == [])
  {
    Open(st);
    hide Respond, NamedInOrder, Inv, OnlineAgree, PendingAt;
    RespondDiscipline(st, s, sid, flag, choice, username, created);
    if !MayAnswer(st, s, sid, flag, username) {
      RefusedAnswerTells(st, s, sid, flag, choice, username, created);
    } else if choice == 1 {
      DeclineTells(st, s, sid, flag, username, created);
    } else if flag == 0 {
      PmAnswerTells(st, s, sid, choice, username, created);
    } else {
      FileAcceptTells(st, s, sid, choice, username, created);
    }
  }
}
