/**
 One connection of wrk against a server that answers every request it has read, once and in order (wrk.c). The client
 writes a batch of pipelined requests, in any portions, and waits for all answers, which it reads in any portions. The
 text of each batch may be another one, as with a script that makes its requests anew.
*/
module WrkConnection {

  /** What sock.write reports: n bytes, nothing yet, or a failure. */
  datatype Written = Wrote(n: nat) | Retry | Broken

  /** A text that holds |ends| requests, the last byte of request j being before ends[j]. */
  predicate Batch(ends: seq<nat>, pipeline: nat) {
    |ends| == pipeline > 0 && ends[0] > 0 && forall i, j :: 0 <= i < j < |ends| ==> ends[i] < ends[j]
  }

  function Length(ends: seq<nat>): nat { if ends == [] then 0 else ends[|ends| - 1] }

  /** How many requests end within the first b bytes. */
  function Whole(ends: seq<nat>, b: nat): nat {
    if ends == [] then 0 else Whole(ends[..|ends| - 1], b) + (if ends[|ends| - 1] <= b then 1 else 0)
  }

  // ---------- the exchange, as the two ends of the socket see it ----------

  /**
   The batch that is on its way: the bytes the socket took, those the server has read, the answers the server has given
   and those the client has read. `total` counts all answers read, `finished` the batches whose last answer was read.
  */
  datatype Session = Session(connected: bool, ends: seq<nat>, sent: nat, read: nat, answered: nat, done: nat,
                             finished: nat, total: nat)

  datatype Move =
    | Connect
    | Write(w: Written, text: seq<nat>)
    | Serve(n: nat)
    | Answer
    | Respond(keepAlive: bool)
    | Break

  const START := Session(false, [], 0, 0, 0, 0, 0, 0)

  /** Nothing is on its way. */
  predicate Idle(s: Session) { s.sent == 0 || (s.sent == Length(s.ends) && s.done == |s.ends|) }

  /**
   The closed loop: a write may begin a batch only when nothing is on its way, or go on with one that is unfinished.
  */
  predicate MayWrite(s: Session) { s.connected && (Idle(s) || s.sent < Length(s.ends)) }

  /** How many bytes a write may take. */
  function Rest(s: Session, text: seq<nat>): int { if Idle(s) then Length(text) else Length(s.ends) - s.sent }

  predicate Enabled(s: Session, pipeline: nat, m: Move) {
    match m
    case Connect => !s.connected
    case Write(w, text) => MayWrite(s) && Batch(text, pipeline) && (w.Wrote? ==> 0 < w.n <= Rest(s, text))
    case Serve(n) => s.connected && s.read + n <= s.sent
    case Answer => s.connected && s.answered < Whole(s.ends, s.read)
    case Respond(keepAlive) => s.connected && s.done < s.answered
    case Break => s.connected
  }

  function Cleared(s: Session, connected: bool): Session {
    s.(connected := connected, sent := 0, read := 0, answered := 0, done := 0)
  }

  function Next(s: Session, m: Move): Session {
    match m
    case Connect => Cleared(s, true)
    case Write(w, text) =>
      var t := if Idle(s) then Cleared(s, true).(ends := text) else s;
      (match w case Wrote(n) => t.(sent := t.sent + n) case Retry => t case Broken => Cleared(t, false))
    case Serve(n) => s.(read := s.read + n)
    case Answer => s.(answered := s.answered + 1)
    case Respond(keepAlive) =>
      var t := s.(done := s.done + 1, total := s.total + 1,
          finished := s.finished + (if s.done + 1 == |s.ends| then 1 else 0));
      if keepAlive then t else Cleared(t, false)
    case Break => Cleared(s, false)
  }

  predicate Inv(s: Session, pipeline: nat) {
    && (s.ends != [] ==> Batch(s.ends, pipeline)) && pipeline > 0
    && s.done <= s.answered <= Whole(s.ends, s.read) && s.read <= s.sent <= Length(s.ends)
    && (!s.connected ==> s.sent == 0)
    && pipeline * s.finished + (if Idle(s) then 0 else s.done) <= s.total
  }

  // ---------- the client ----------

  class Connection {
    const pipeline: nat
    var length: nat
    var connected: bool
    var written: nat
    var pending: nat
    var writable: bool  // AE_WRITABLE, with socket_writeable as the handler
    var complete: nat
    var latency: nat  // attempts to record a latency
    ghost var session: Session

    /** The client's own counters say how the exchange stands. */
    ghost predicate Valid()
      reads this
    {
      && Inv(session, pipeline) && connected == session.connected
      && complete == session.total && latency == session.finished
      && (connected ==>
            if Idle(session) then written == 0 && writable
            else
              && pending == pipeline - session.done && length == Length(session.ends)
              && written == (if session.sent == length then 0 else session.sent)
              && (writable <==> session.sent < length))
    }

    constructor (pipeline: nat)
      requires pipeline > 0
      ensures Valid() && session == START && this.pipeline == pipeline
    {
      this.pipeline, length, connected, written, pending, writable, complete, latency := pipeline, 0, false, 0, 0,
        false, 0, 0;
      session := START;
    }

    /** reconnect_socket: both interests of the old socket go, and the new one waits for socket_connected. */
    method Reconnect()
      requires Valid() && connected
      modifies this
      ensures Valid() && session == Next(old(session), Break)
    {
      hide Whole;
      NoneYet(session.ends, pipeline);
      writable := false;
      connected := false;
      session := Next(session, Break);
    }

    /** socket_connected */
    method SocketConnected()
      requires Valid() && !connected
      modifies this
      ensures Valid() && session == Next(old(session), Connect)
      ensures MayWrite(session) && writable
    {
      hide Whole;
      NoneYet(session.ends, pipeline);
      connected := true;
      written := 0;
      writable := true;
      session := Next(session, Connect);
    }

    /**
     socket_writeable, without a delay script. It is called whenever the socket takes bytes and the client asked for it;
     that is never more than the closed loop allows. A new text is taken when the last one was written in full.
    */
    method SocketWriteable(w: Written, text: seq<nat>)
      requires Valid() && connected && writable && Batch(text, pipeline)
      requires w.Wrote? ==> 0 < w.n <= if written == 0 then Length(text) else length - written
      modifies this
      ensures old(Enabled(session, pipeline, Write(w, text))) && Valid()
      ensures session == Next(old(session), Write(w, text))
    {
      hide Whole;
      SessionKeeps(session, pipeline, Write(w, text));
      WholeBounds(session.ends, session.read);
      ghost var next := Next(session, Write(w, text));
      if written == 0 {
        length := Length(text);
        pending := pipeline;
      }
      match w {
        case Wrote(n) =>
          written := written + n;
          if written == length {
            written := 0;
            writable := false;
          }
        case Broken =>
          writable := false;
          connected := false;
        case Retry =>
      }
      session := next;
    }

    /** response_complete, apart from what it does with the headers */
    method ResponseComplete(keepAlive: bool)
      requires Valid() && connected && session.done < session.answered
      modifies this
      ensures old(pending) > 0 && Valid() && session == Next(old(session), Respond(keepAlive))
    {
      hide Whole;
      SessionKeeps(session, pipeline, Respond(keepAlive));
      Whole1(session, pipeline);
      ghost var next := Next(session, Respond(keepAlive));
      complete := complete + 1;
      pending := pending - 1;
      if pending == 0 {
        latency := latency + 1;
        writable := true;
      }
      if !keepAlive {
        writable := false;
        connected := false;
      }
      session := next;
    }

    /** What the server does leaves the client as it is. */
    ghost method Server(m: Move)
      requires Valid() && Enabled(session, pipeline, m) && (m.Serve? || m.Answer?)
      modifies this`session
      ensures Valid() && session == Next(old(session), m)
    {
      SessionKeeps(session, pipeline, m);
      session := Next(session, m);
    }
  }

  // ---------- counting whole requests ----------

  lemma {:induction false} WholeBounds(ends: seq<nat>, b: nat)
    ensures Whole(ends, b) <= |ends|
    ensures ends != [] && (forall i, j :: 0 <= i < j < |ends| ==> ends[i] < ends[j]) ==>
              (Whole(ends, b) == |ends| <==> b >= Length(ends))
    ensures (forall i :: 0 <= i < |ends| ==> ends[i] > 0) ==> Whole(ends, 0) == 0
    decreases |ends|
  {
    if ends != [] {
      var init := ends[..|ends| - 1];
      WholeBounds(init, b);
      if init != [] && (forall i, j :: 0 <= i < j < |ends| ==> ends[i] < ends[j]) {
        assert Length(init) == ends[|ends| - 2] < Length(ends);
      }
    }
  }

  lemma {:induction false} WholeGrows(ends: seq<nat>, a: nat, b: nat)
    requires a <= b
    ensures Whole(ends, a) <= Whole(ends, b)
    decreases |ends|
  {
    if ends != [] { WholeGrows(ends[..|ends| - 1], a, b); }
  }

  lemma NoneYet(ends: seq<nat>, pipeline: nat)
    requires ends == [] || Batch(ends, pipeline)
    ensures Whole(ends, 0) == 0
  {
    forall i | 0 <= i < |ends| ensures ends[i] > 0 {
      assert ends[i] >= ends[0];
    }
    WholeBounds(ends, 0);
  }

  /** An answer that can be read belongs to a request of the batch. */
  lemma Whole1(s: Session, pipeline: nat)
    requires Inv(s, pipeline) && s.done < s.answered
    ensures !Idle(s) && s.ends != [] && s.done < pipeline
    ensures s.done + 1 == pipeline ==> s.sent == Length(s.ends)
  {
    WholeBounds(s.ends, s.read);
    NoneYet(s.ends, pipeline);
    WholeBounds(s.ends, s.sent);
    WholeGrows(s.ends, 0, s.read);
  }

  // ---------- theorems ----------

  lemma SessionKeeps(s: Session, pipeline: nat, m: Move)
    requires Inv(s, pipeline) && Enabled(s, pipeline, m)
    ensures Inv(Next(s, m), pipeline)
  {
    hide Whole;
    NoneYet(s.ends, pipeline);
    match m
    case Serve(n) => WholeGrows(s.ends, s.read, s.read + n);
    case Write(w, text) => NoneYet(text, pipeline);
    case Respond(keepAlive) =>
      Whole1(s, pipeline);
      assert pipeline * (s.finished + 1) == pipeline * s.finished + pipeline;
    case _ =>
  }

  /** The requests the client has written in full and not yet read the answer to. */
  function Unanswered(s: Session): int { Whole(s.ends, s.sent) - s.done }

  /**
   At every moment of an open connection at most one batch is unanswered, and the client may write exactly while a batch
   is unfinished or nothing is unanswered. The answers read are at least those of the finished batches.
  */
  lemma ClosedLoop(s: Session, pipeline: nat)
    requires Inv(s, pipeline) && s.connected
    ensures 0 <= Unanswered(s) <= pipeline
    ensures MayWrite(s) <==> 0 < s.sent < Length(s.ends) || Unanswered(s) == 0
    ensures pipeline * s.finished <= s.total
  {
    NoneYet(s.ends, pipeline);
    WholeBounds(s.ends, s.sent);
    WholeBounds(s.ends, s.read);
    WholeGrows(s.ends, s.read, s.sent);
  }

  /** Moves that follow one another from the start, each enabled where it happens. */
  predicate Run(trace: seq<Session>, pipeline: nat, moves: seq<Move>) {
    && |trace| == |moves| + 1 && trace[0] == START
    && forall i :: 0 <= i < |moves| ==> Moves(trace[i], pipeline, moves[i], trace[i + 1])
  }

  predicate Moves(s: Session, pipeline: nat, m: Move, t: Session) { Enabled(s, pipeline, m) && t == Next(s, m) }

  lemma {:induction false} RunKeeps(trace: seq<Session>, pipeline: nat, moves: seq<Move>, i: nat)
    requires pipeline > 0 && Run(trace, pipeline, moves) && i < |trace|
    ensures Inv(trace[i], pipeline)
    decreases i
  {
    hide Enabled, Next;
    if i > 0 {
      RunKeeps(trace, pipeline, moves, i - 1);
      assert Moves(trace[i - 1], pipeline, moves[i - 1], trace[i - 1 + 1]);
      SessionKeeps(trace[i - 1], pipeline, moves[i - 1]);
    }
  }
}
