/** What may happen next in a run: no client is ever shut out, and none is ever stuck. */
module ChatProgress {
  import opened ByteStrings
  import opened ChatTypes
  import opened ChatModel
  import opened ChatInvariant
  import opened ChatRuns

  /** The first step of a handler, or of none: what can come when nothing of s is under way. */
  predicate Begins(op: Op) { !op.Connect? && !op.LoginCredsOp? && !op.LoginCommitOp? && !op.FileDoneOp? }

  /** An administrator's disconnect of somebody else whose handler is running, or into whom a file is running,
      and a close in the middle of a file: the cases that a run leaves out. */
  ghost predicate LeftOut(w: World, op: Op) {
    match op
    case DisconnectOp(s, sid, username) =>
      && s in w.st.sessions && DisconnectTarget(w.st, s, sid, username).Some?
      && (var t := DisconnectTarget(w.st, s, sid, username).value;
          t != s && (!At(w, t, Idle) || InFlight(w, t) != {}))
    case Close(s) => InFlight(w, s) != {}
    case _ => false
  }

  /** Whatever a client that is idle asks for, with whatever arguments, its handler may run at once. */
  lemma AnythingMayBegin(w: World, op: Op)
    requires Begins(op) && At(w, op.s, Idle)
    requires op.JoinOp? || op.RespondOp? ==> op.created !in w.st.rooms
    ensures Enabled(w, op) <==> !LeftOut(w, op)
  {
  }

  /** What the handler of a client goes on with, by where it is. */
  function GoesOnWith(phase: Phase, s: Session, u: Bytes, p: Bytes, flag: bool): Op {
    match phase
    case Idle => LoginBeginOp(s)
    case AwaitCreds => LoginCredsOp(s, u, p, flag)
    case HaveCreds => LoginCommitOp(s)
    case Relaying(_) => FileDoneOp(s, flag)
    case Closing => Close(s)
  }

  lemma PhaseGoesOn(w: World, s: Session, u: Bytes, p: Bytes, flag: bool)
    requires PhasesFit(w) && s in w.st.sessions
    ensures s in w.phase
    ensures w.phase[s] != Closing || InFlight(w, s) == {} ==> Enabled(w, GoesOnWith(w.phase[s], s, u, p, flag))
  {
    hide InFlight;
  }

  lemma FlightEnds(w: World, s: Session, x: Session, flag: bool)
    requires PhasesFit(w) && x in InFlight(w, s)
    ensures Enabled(w, FileDoneOp(x, flag))
  {
  }

  /** No handler is ever stuck, whatever the client sends and whether or not a relay goes through. Only the
      close of a client into which a file is running has to wait, and then that relay can end. */
  lemma EveryClientGoesOn(w: World, s: Session, u: Bytes, p: Bytes, flag: bool)
    requires WorldInv(w) && s in w.st.sessions
    ensures s in w.phase
    ensures w.phase[s] != Closing || InFlight(w, s) == {} ==> Enabled(w, GoesOnWith(w.phase[s], s, u, p, flag))
    ensures InFlight(w, s) != {} ==> exists x :: x in InFlight(w, s) && Enabled(w, FileDoneOp(x, flag))
  {
    OpenWorld(w);
    hide *;
    PhaseGoesOn(w, s, u, p, flag);
    if InFlight(w, s) != {} {
      var x :| x in InFlight(w, s);
      FlightEnds(w, s, x, flag);
    }
  }
}
