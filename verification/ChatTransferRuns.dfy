/** Whole runs of the server with its file transfers: what is on every client's socket, and what the
    client that hears it writes. */
module ChatTransferRuns {
  import opened ByteStrings
  import opened ChatTypes
  import opened ChatTransfers
  import I = ChatInvariant
  import M = ChatModel
  import R = ChatRuns
  import W = Wire
  import C = ChatClient
  import L = ChatListener

  // ---------------------------------------------------------------- whole runs

  /** The steps of ChatRuns that a move is. */
  ghost function Ops(v: Server, m: Move): seq<R.Op>
    requires Allowed(v, m)
  {
    match m
    case Handler(op) => [op]
    case FileSend(s, sid, username, _) => [R.FileSendOp(s, sid, username)]
    case FileDone(s) => [R.FileDoneOp(s, v.stage[s].whole)]
    case _ => []
  }

  lemma MoveRefines(v: Server, m: Move)
    requires Allowed(v, m)
    ensures R.Possible(v.w, Ops(v, m)) && R.After(v.w, Ops(v, m)) == Do(v, m).w
  {
    hide R.Enabled, R.Step, PutAll, OutOf, Kept, M.FileCheck;
    if Ops(v, m) != [] {
      assert Ops(v, m)[1..] == [];
    }
  }

  lemma StepInOrder(v: Server, m: Move)
    requires InOrder(v) && Allowed(v, m) && Do(v, m).w.granted < ID_LIMIT
    ensures InOrder(Do(v, m))
  {
    hide *;
    OpenServer(v);
    MoveRefines(v, m);
    R.RunKeepsInv(v.w, Ops(v, m));
    match m
    case Handler(op) => if op.Connect? { ConnectStep(v, op.s); } else { HandlerStep(v, op); }
    case FileSend(s, sid, username, ps) => FileSendStep(v, s, sid, username, ps);
    case Acquire(s) => AcquireStep(v, s);
    case SendChunk(s) => SendStep(v, s);
    case GiveUp(s) =>
      LetGoShape(v, s);
      LetGoStep(v, s, false, Do(v, m));
    case Release(s) =>
      HoldingStage(v, s);
      LetGoShape(v, s);
      LetGoStep(v, s, C.Whole(v.stage[s].ps), Do(v, m));
    case FileDone(s) => FileDoneStep(v, s);
    case Answer(s, d) => AnswerStep(v, s, d);
  }

  lemma HoldingStage(v: Server, s: Session)
    requires Allowed(v, Release(s))
    ensures s in v.stage && v.stage[s].Holding?
  {
  }

  ghost predicate Can(v: Server, ms: seq<Move>)
    decreases |ms|
  {
    ms == [] || (Allowed(v, ms[0]) && Can(Do(v, ms[0]), ms[1..]))
  }

  ghost function Run(v: Server, ms: seq<Move>): Server
    requires Can(v, ms)
    decreases |ms|
  {
    if ms == [] then v else Run(Do(v, ms[0]), ms[1..])
  }

  ghost function RunOps(v: Server, ms: seq<Move>): seq<R.Op>
    requires Can(v, ms)
    decreases |ms|
  {
    if ms == [] then [] else Ops(v, ms[0]) + RunOps(Do(v, ms[0]), ms[1..])
  }

  /** A run with its transfers taken apart is a run of ChatRuns, so everything proved there holds here. */
  lemma {:induction false} RunRefines(v: Server, ms: seq<Move>)
    requires Can(v, ms)
    ensures R.Possible(v.w, RunOps(v, ms)) && R.After(v.w, RunOps(v, ms)) == Run(v, ms).w
    decreases |ms|
  {
    hide R.Enabled, R.Step, Allowed, Do, Ops;
    if ms != [] {
      MoveRefines(v, ms[0]);
      RunRefines(Do(v, ms[0]), ms[1..]);
      R.AfterBoth(v.w, Ops(v, ms[0]), RunOps(Do(v, ms[0]), ms[1..]));
    }
  }

  lemma {:induction false} RunInOrder(v: Server, ms: seq<Move>)
    requires InOrder(v) && Can(v, ms) && Run(v, ms).w.granted < ID_LIMIT
    ensures InOrder(Run(v, ms))
    decreases |ms|
  {
    hide InOrder, Allowed, Do;
    if ms != [] {
      var v1 := Do(v, ms[0]);
      RunRefines(v1, ms[1..]);
      R.GrantedGrows(v1.w, RunOps(v1, ms[1..]));
      StepInOrder(v, ms[0]);
      RunInOrder(v1, ms[1..]);
    }
  }

  lemma Reachable(v: Server, ms: seq<Move>, general: Room)
    requires Start(v, general) && Can(v, ms) && Run(v, ms).w.granted < ID_LIMIT
    ensures InOrder(Run(v, ms))
  {
    StartInOrder(v, general);
    hide InOrder, Start, Can, Run;
    RunInOrder(v, ms);
  }

  /** After any run, whatever the senders send and however handlers interleave: the file payloads on a
      client's socket are the ended relays into it one after another, each in one piece, and behind
      them what the one relay that holds file_lock has sent; and every frame is well-formed. */
  lemma RelaysDoNotMix(v: Server, ms: seq<Move>, general: Room, t: Session)
    requires Start(v, general) && Can(v, ms) && Run(v, ms).w.granted < ID_LIMIT
    requires t in Run(v, ms).w.st.sessions
    ensures var v' := Run(v, ms);
            && t in v'.down && t in v'.past
            && Payloads(v'.down[t]) == Flat(v'.past[t]) + Current(v', t)
            && AllWellFormed(v'.down[t])
  {
    hide Start, Can, Run, Current, Payloads, Flat, AllWellFormed, InOrder, StagesFit, LockFits, CountsFit;
    Reachable(v, ms, general);
    OpenServer(Run(v, ms));
  }

  // ---------------------------------------------------------------- no file without an accepted request

  lemma SubsetCount<T>(a: set<T>, b: set<T>)
    requires a <= b
    ensures |a| <= |b|
  {
    assert b == a + (b - a);
  }

  lemma LastsOfCurrent(v: Server, t: Session)
    requires StagesFit(v) && LockFits(v)
    ensures Lasts(Current(v, t)) + |Ended(v, t)| <= |R.InFlight(v.w, t)|
  {
    if Current(v, t) != [] {
      var s := v.fileLock.value;
      LastsOfSent(v.stage[s].ps, v.stage[s].sent);
      assert s !in Ended(v, t);
      SubsetCount(Ended(v, t) + {s}, R.InFlight(v.w, t));
    } else {
      SubsetCount(Ended(v, t), R.InFlight(v.w, t));
    }
  }

  lemma LastsCovered(v: Server, t: Session)
    requires InOrder(v) && t in v.w.st.sessions
    ensures t in v.down && t in v.w.accepts && Lasts(Payloads(v.down[t])) <= v.w.accepts[t]
  {
    OpenServer(v);
    R.OpenWorld(v.w);
    hide InOrder, R.WorldInv, I.Inv, R.IdsInOrder, StagesFit, LockFits, FramesFit, Current;
    hide Ended, Payloads, Flat, Lasts, R.InFlight, R.Usable;
    LastsOfCurrent(v, t);
    LastsJoin(Flat(v.past[t]), Current(v, t));
  }

  /** A payload that is not flagged LAST writes no file, and any other at most one. */
  lemma {:induction false} FilesNeedLasts(box: C.Inbox, ps: seq<Bytes>)
    ensures |C.TakeFiles(box, ps).files| <= |box.files| + Lasts(ps)
    decreases |ps|
  {
    if ps != [] {
      var last := ps[|ps| - 1];
      FilesNeedLasts(box, ps[..|ps| - 1]);
      assert ps == ps[..|ps| - 1] + [last];
      C.TakeFilesJoin(box, ps[..|ps| - 1], [last]);
      L.TakeOne(C.TakeFiles(box, ps[..|ps| - 1]), last);
    }
  }

  lemma PrefixFewerLasts(a: seq<Bytes>, b: seq<Bytes>)
    requires a <= b
    ensures Lasts(a) <= Lasts(b)
  {
    assert b == a + b[|a|..];
    LastsJoin(a, b[|a|..]);
  }

  lemma HeardFewerLasts(h: L.Hearing, ds: seq<L.Down>, n: nat)
    requires n <= |ds| && h.box.alive
    ensures |L.HearAll(h, ds, n).box.files| <= |h.box.files| + Lasts(Payloads(ds))
  {
    L.OnlyFilesMatter(h, ds, n);
    hide L.HearAll, C.TakeFiles, L.FilePayloads, Lasts, L.ReadableUpTo;
    var heard := L.FilePayloads(ds, L.ReadableUpTo(ds, n));
    FilesNeedLasts(h.box, heard);
    L.FilePayloadsPrefix(ds, L.ReadableUpTo(ds, n), |ds|);
    PrefixFewerLasts(heard, Payloads(ds));
  }

  /** After any run, whatever the senders send: a client that has heard any part of what was put on its
      socket has written at most as many files as it has accepted file requests. */
  lemma FilesNeedAccepts(v: Server, ms: seq<Move>, general: Room, t: Session, h: L.Hearing, n: nat)
    requires Start(v, general) && Can(v, ms) && Run(v, ms).w.granted < ID_LIMIT
    requires t in Run(v, ms).w.st.sessions && h.box.alive
    requires t in Run(v, ms).down ==> n <= |Run(v, ms).down[t]|
    ensures var v' := Run(v, ms);
            && t in v'.down && t in v'.w.accepts
            && |L.HearAll(h, v'.down[t], n).box.files| <= |h.box.files| + v'.w.accepts[t]
  {
    hide *;
    var v' := Run(v, ms);
    Reachable(v, ms, general);
    LastsCovered(v', t);
    HeardFewerLasts(h, v'.down[t], n);
  }

  // ---------------------------------------------------------------- senders that flag their chunks as do_put does

  /** Everything that is or was sent has its first payload, and no other, flagged FIRST. */
  ghost predicate OnlyTransfers(v: Server) {
    && (forall s :: s in v.stage && !v.stage[s].Released? ==> C.IsTransfer(v.stage[s].ps))
    && (forall t :: t in v.past ==> forall i :: 0 <= i < |v.past[t]| ==> C.IsTransfer(v.past[t][i]))
  }

  ghost predicate SendsTransfers(ms: seq<Move>) {
    forall i :: 0 <= i < |ms| && ms[i].FileSend? ==> C.IsTransfer(ms[i].ps)
  }

  /** A transfer that is broken off is a transfer that is not completed. */
  lemma PrefixIsTransfer(ps: C.Transfer, n: nat)
    requires 0 < n <= |ps|
    ensures C.IsTransfer(ps[..n])
    ensures n < |ps| ==> !C.Completed(ps[..n])
  {
  }

  lemma KeptTransfers(past: map<Session, seq<seq<W.Payload>>>, t: Session, ps: C.Transfer, n: nat)
    requires n <= |ps|
    requires forall u :: u in past ==> forall i :: 0 <= i < |past[u]| ==> C.IsTransfer(past[u][i])
    ensures var past' := Kept(past, t, ps[..n]);
            forall u :: u in past' ==> forall i :: 0 <= i < |past'[u]| ==> C.IsTransfer(past'[u][i])
  {
    if n > 0 {
      PrefixIsTransfer(ps, n);
    }
    hide C.IsTransfer;
  }

  lemma StepTransfers(v: Server, m: Move)
    requires LockFits(v) && OnlyTransfers(v) && Allowed(v, m) && (m.FileSend? ==> C.IsTransfer(m.ps))
    ensures OnlyTransfers(Do(v, m))
  {
    hide R.Step, R.Enabled, OutOf, PutAll, Put, Kept, C.IsTransfer;
    hide C.IsSent, C.Whole, M.FileCheck, L.WellFormed, L.IsFile;
    if m.GiveUp? || m.Release? {
      var st := v.stage[m.s];
      KeptTransfers(v.past, st.target, st.ps, st.sent);
      assert st.sent == |st.ps| ==> st.ps[..st.sent] == st.ps;
    }
  }

  lemma {:induction false} RunTransfers(v: Server, ms: seq<Move>)
    requires InOrder(v) && OnlyTransfers(v) && Can(v, ms) && SendsTransfers(ms) && Run(v, ms).w.granted < ID_LIMIT
    ensures OnlyTransfers(Run(v, ms))
    decreases |ms|
  {
    hide InOrder, Allowed, Do, OnlyTransfers, C.IsTransfer;
    if ms != [] {
      var v1 := Do(v, ms[0]);
      RunRefines(v1, ms[1..]);
      R.GrantedGrows(v1.w, RunOps(v1, ms[1..]));
      OpenServer(v);
      StepInOrder(v, ms[0]);
      StepTransfers(v, ms[0]);
      assert forall i :: 0 <= i < |ms[1..]| ==> ms[1..][i] == ms[i + 1];
      RunTransfers(v1, ms[1..]);
    }
  }

  /** The transfers into t, the last one perhaps unfinished. */
  ghost function Received(v: Server, t: Session): seq<C.Transfer>
    requires OnlyTransfers(v) && LockFits(v) && t in v.past
  {
    var now := Current(v, t);
    if now == [] then v.past[t]
    else
      var st := v.stage[v.fileLock.value];
      PrefixIsTransfer(st.ps, st.sent);
      v.past[t] + [now]
  }

  lemma {:induction false} ConcatOfOneMore(ts: seq<C.Transfer>, ps: C.Transfer)
    ensures C.Concat(ts + [ps]) == C.Concat(ts) + ps
  {
    if ts == [] {
      assert ([] + [ps])[1..] == [];
      assert C.Concat(ts + [ps]) == ps + [];
    } else {
      assert (ts + [ps])[0] == ts[0] && (ts + [ps])[1..] == ts[1..] + [ps];
      ConcatOfOneMore(ts[1..], ps);
      assert ts[0] + (C.Concat(ts[1..]) + ps) == (ts[0] + C.Concat(ts[1..])) + ps;
    }
  }

  lemma {:induction false} FlatIsConcat(ts: seq<C.Transfer>)
    ensures Flat(ts) == C.Concat(ts)
    decreases |ts|
  {
    if ts != [] {
      FlatIsConcat(ts[..|ts| - 1]);
      ConcatOfOneMore(ts[..|ts| - 1], ts[|ts| - 1]);
      assert ts == ts[..|ts| - 1] + [ts[|ts| - 1]];
    }
  }

  lemma ReceivedConcat(v: Server, t: Session)
    requires OnlyTransfers(v) && LockFits(v) && t in v.past
    ensures C.Concat(Received(v, t)) == Flat(v.past[t]) + Current(v, t)
  {
    FlatIsConcat(v.past[t]);
    if Current(v, t) != [] {
      var st := v.stage[v.fileLock.value];
      PrefixIsTransfer(st.ps, st.sent);
      ConcatOfOneMore(v.past[t], Current(v, t));
    } else {
      assert Flat(v.past[t]) + [] == Flat(v.past[t]);
    }
  }

  /** After any run in which the senders flag their chunks as do_put does: a client that hears everything
      on its socket, files of any number of senders and all other frames, has written exactly the
      completed files among those sent to it, in order, each with its whole content, up to one that
      ends its listener; a text that does not decode ends it earlier. */
  lemma WholeFilesArrive(v: Server, ms: seq<Move>, general: Room, t: Session, h: L.Hearing)
    requires Start(v, general) && Can(v, ms) && Run(v, ms).w.granted < ID_LIMIT && SendsTransfers(ms)
    requires t in Run(v, ms).w.st.sessions && h.box.alive
    ensures var v' := Run(v, ms);
            && OnlyTransfers(v') && LockFits(v') && t in v'.past && t in v'.down
            && (var ds, ts := v'.down[t], Received(v', t);
                var heard := L.HearAll(h, ds, |ds|).box;
                && heard.files <= h.box.files + C.Written(ts)
                && ((forall d :: d in ds ==> L.Readable(d)) ==> heard.files == h.box.files + C.Written(ts))
                && (heard.alive <==> (forall d :: d in ds ==> L.Readable(d)) && C.AllHarmless(ts)))
  {
    hide *;
    var v' := Run(v, ms);
    StartTransfers(v, general);
    RunTransfers(v, ms);
    Reachable(v, ms, general);
    RelaysDoNotMix(v, ms, general, t);
    OpenServer(v');
    ReceivedConcat(v', t);
    PayloadsOf(v'.down[t]);
    L.FilesWritten(h, v'.down[t], Received(v', t));
  }

  lemma PayloadsOf(ds: seq<L.Down>)
    ensures Payloads(ds) == L.FilePayloads(ds, |ds|)
  {
    hide L.FilePayloads;
  }

  lemma StartTransfers(v: Server, general: Room)
    requires Start(v, general)
    ensures InOrder(v) && OnlyTransfers(v)
  {
    StartInOrder(v, general);
  }

  // ---------------------------------------------------------------- where the files come from

  /** The target and the payloads of a file request that passes the check. */
  ghost function Grant(v: Server, m: Move): set<(Session, C.Sent)>
    requires Allowed(v, m)
  {
    if m.FileSend? && M.FileCheck(v.w.st, m.s, m.sid, m.username) == Success
    then {(v.w.st.online[m.username], m.ps)} else {}
  }

  ghost function Grants(v: Server, ms: seq<Move>): set<(Session, C.Sent)>
    requires Can(v, ms)
    decreases |ms|
  {
    if ms == [] then {} else Grant(v, ms[0]) + Grants(Do(v, ms[0]), ms[1..])
  }

  ghost predicate Beginning(b: seq<W.Payload>, t: Session, grants: set<(Session, C.Sent)>) {
    exists g :: g in grants && g.0 == t && b <= g.1
  }

  /** All that is and was sent to a target has been granted for this target. */
  ghost predicate OnlyGranted(v: Server, grants: set<(Session, C.Sent)>) {
    && (forall s :: s in v.stage && !v.stage[s].Released? ==> (v.stage[s].target, v.stage[s].ps) in grants)
    && (forall t :: t in v.past ==> forall i :: 0 <= i < |v.past[t]| ==> Beginning(v.past[t][i], t, grants))
  }

  lemma MoreGrants(v: Server, a: set<(Session, C.Sent)>, b: set<(Session, C.Sent)>)
    requires OnlyGranted(v, a) && a <= b
    ensures OnlyGranted(v, b)
  {
  }

  lemma KeptGranted(v: Server, s: Session, n: nat, grants: set<(Session, C.Sent)>)
    requires OnlyGranted(v, grants) && s in v.stage && !v.stage[s].Released? && n <= |v.stage[s].ps|
    ensures var past' := Kept(v.past, v.stage[s].target, v.stage[s].ps[..n]);
            forall t :: t in past' ==> forall i :: 0 <= i < |past'[t]| ==> Beginning(past'[t][i], t, grants)
  {
    var st := v.stage[s];
    assert (st.target, st.ps) in grants && st.ps[..n] <= st.ps;
    assert Beginning(st.ps[..n], st.target, grants);
    hide Beginning;
  }

  lemma StepGranted(v: Server, m: Move, grants: set<(Session, C.Sent)>)
    requires LockFits(v) && OnlyGranted(v, grants) && Allowed(v, m)
    ensures OnlyGranted(Do(v, m), grants + Grant(v, m))
  {
    hide R.Step, R.Enabled, OutOf, PutAll, Put, Kept, C.IsTransfer;
    hide C.IsSent, C.Whole, M.FileCheck, L.WellFormed, L.IsFile;
    MoreGrants(v, grants, grants + Grant(v, m));
    if m.GiveUp? || m.Release? {
      var st := v.stage[m.s];
      KeptGranted(v, m.s, st.sent, grants + Grant(v, m));
      assert st.sent == |st.ps| ==> st.ps[..st.sent] == st.ps;
    }
  }

  lemma {:induction false} RunGranted(v: Server, ms: seq<Move>, grants: set<(Session, C.Sent)>)
    requires InOrder(v) && OnlyGranted(v, grants) && Can(v, ms) && Run(v, ms).w.granted < ID_LIMIT
    ensures OnlyGranted(Run(v, ms), grants + Grants(v, ms))
    decreases |ms|
  {
    hide InOrder, Allowed, Do, OnlyGranted, Grant;
    if ms == [] {
      assert grants + Grants(v, ms) == grants;
    } else {
      var v1 := Do(v, ms[0]);
      RunRefines(v1, ms[1..]);
      R.GrantedGrows(v1.w, RunOps(v1, ms[1..]));
      OpenServer(v);
      StepInOrder(v, ms[0]);
      StepGranted(v, ms[0], grants);
      RunGranted(v1, ms[1..], grants + Grant(v, ms[0]));
      assert (grants + Grant(v, ms[0])) + Grants(v1, ms[1..]) == grants + Grants(v, ms);
    }
  }

  /** After any run, every piece of a client's file stream is the beginning of what a file request asked to
      send that passed the check with this client as its target. */
  lemma FilesComeFromGrants(v: Server, ms: seq<Move>, general: Room, t: Session)
    requires Start(v, general) && Can(v, ms) && Run(v, ms).w.granted < ID_LIMIT
    requires t in Run(v, ms).w.st.sessions
    ensures var v' := Run(v, ms);
            && t in v'.past
            && (forall i :: 0 <= i < |v'.past[t]| ==> Beginning(v'.past[t][i], t, Grants(v, ms)))
            && (Current(v', t) != [] ==> Beginning(Current(v', t), t, Grants(v, ms)))
  {
    StartTransfers(v, general);
    RunGranted(v, ms, {});
    RelaysDoNotMix(v, ms, general, t);
    hide Start, Can, Run, Grants, Flat, Payloads, AllWellFormed, InOrder;
    var v', grants := Run(v, ms), Grants(v, ms);
    assert {} + grants == grants;
    if Current(v', t) != [] {
      var st := v'.stage[v'.fileLock.value];
      assert (t, st.ps) in grants && Current(v', t) <= st.ps;
    }
  }
}
