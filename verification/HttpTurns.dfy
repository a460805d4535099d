/** How far a call of http_parser_execute has come, in terms of the byte machine run over the whole buffer. */
module HttpTurns {
  import opened Chars
  import opened HttpTypes
  import opened HttpStep
  import opened HttpSpec
  import opened HttpInvariant
  import opened HttpMarks
  import opened HttpBulk

  /** A machine at the beginning of a call. */
  predicate Entry(m0: Machine) { MachineInv(m0) && m0.stop.Running? && m0.scan.Fresh? && m0.used == 0 }

  /** Between two passes over byte p: the rest of the byte is the passes from record q, counter nr and log glog. */
  predicate Mid(m0: Machine, data: string, p: nat, q: Parser, nr: nat, calls: seq<Event>, mark: Mark, glog: seq<Event>)
          {
    && Entry(m0) && p < |data| && nr <= MAX_HEADER
    && glog == Pending(calls, mark, data, p) && MarkInv(mark, q.state, p)
    && var m := Run(m0, data[..p]);
       && m.stop.Running? && m.used == p && PassReady(q, nr, data[p], m.scan)
       && Byte(m, data[p]) == var r := Passes(q, nr, glog, data[p], m.scan); r.(used := p + r.used)
  }

  /** In front of byte p, or at the end of the buffer. */
  predicate Before(m0: Machine, data: string, p: nat, q: Parser, nr: nat, calls: seq<Event>, mark: Mark) {
    && Entry(m0) && p <= |data|
    && var m := Run(m0, data[..p]);
       var r := if p == |data| then EndBuffer(m) else m;
       && r.stop.Running? && r.scan.Fresh? && r.used == p && MachineInv(r)
       && q == r.ps && nr == r.nread && r.log == Pending(calls, mark, data, p) && MarkInv(mark, q.state, p)
  }

  /** The call is over after n bytes, before the end of the buffer or with it. */
  predicate Stopped(m0: Machine, data: string, n: nat, q: Parser, nr: nat, calls: seq<Event>) {
    var r := EndBuffer(Run(m0, data));
    && !r.stop.Running? && !r.stop.Aborted?
    && if r.stop.Upgraded? then q == r.ps && nr == r.nread && n == r.used && Canonical(calls) == r.log
       else Refusal(r, q, calls, n)
  }

  /** What an error leaves: the error, the state, the number of bytes used and the notifications. */
  predicate Refusal(r: Machine, q: Parser, calls: seq<Event>, n: nat) {
    !q.errno.OK? && q.errno == r.ps.errno && q.state == r.ps.state && n == r.used && Notes(calls) == Notes(r.log)
  }

  lemma Enter(m0: Machine, data: string, p: nat, q: Parser, nr: nat, calls: seq<Event>, mark: Mark)
    requires Before(m0, data, p, q, nr, calls, mark) && p < |data| && Counted(q.state, nr) <= MAX_HEADER
    ensures Mid(m0, data, p, q, Counted(q.state, nr), calls, mark, Run(m0, data[..p]).log)
    ensures Run(m0, data[..p]).scan.Fresh?
  {
    hide Run, Passes, StateInv, LogInv, MarkInv, Pending;
  }

  lemma StopHere(m0: Machine, data: string, p: nat)
    requires p < |data| && !Run(m0, data[..p + 1]).stop.Running?
    ensures EndBuffer(Run(m0, data)) == Run(m0, data[..p + 1])
  {
    hide Byte;
    var r := Run(m0, data[..p + 1]);
    assert data == data[..p + 1] + data[p + 1..];
    RunConcat(m0, data[..p + 1], data[p + 1..]);
    RunStopped(r, data[p + 1..]);
  }

  lemma TooLong(m0: Machine, data: string, p: nat, q: Parser, nr: nat, calls: seq<Event>, mark: Mark)
    requires Before(m0, data, p, q, nr, calls, mark) && p < |data| && ParsingHeader(q.state) && nr + 1 > MAX_HEADER
    ensures Stopped(m0, data, p, q.(errno := HeaderOverflow), nr + 1, calls)
  {
    hide Run, Passes, StateInv, LogInv, MarkInv, Pending, Notes;
    PendingNotes(calls, mark, data, p);
    RunSnoc(m0, data[..p], data[p]);
    assert data[..p + 1] == data[..p] + [data[p]];
    StopHere(m0, data, p);
  }

  /** One pass of the switch. */
  lemma PassOn(m0: Machine, data: string, p: nat, q: Parser, nr: nat, calls: seq<Event>, mark: Mark, glog: seq<Event>)
    requires Mid(m0, data, p, q, nr, calls, mark, glog)
    ensures var m := Run(m0, data[..p]);
      var o := Step(q, data[p], m.scan.Skipping?);
      var nr' := if o.reset then 0 else nr;
      var calls', mark' := CallsAfter(calls, mark, o, data, p), MarkAfter(mark, o, p);
      var log' := LogAfter(q.state, glog, o, data[p]);
      && !o.next.Fault? && SpanOk(q.state, o) && MarkInv(mark, q.state, p)
      && (o.next.Again? ==> !o.st.state.HeaderField? && !o.st.state.HeaderValue?)
      && (o.next.Again? ==> Rank(o.st.state) < Rank(q.state) && Mid(m0, data, p, o.st, nr', calls', mark', log'))
      && (o.next.Advance? ==>
            && Run(m0, data[..p + 1]) == Machine(o.st, nr', log', ScanAfter(q, o.st, m.scan), p + 1, Running)
            && MachineInv(Run(m0, data[..p + 1]))
            && log' == Pending(calls', mark', data, p + 1) && MarkInv(mark', o.st.state, p + 1)
            && (ScanAfter(q, o.st, m.scan).Fresh? ==> Before(m0, data, p + 1, o.st, nr', calls', mark')))
      && (o.next.Fail? ==> Stopped(m0, data, p, o.st, nr', calls') && EndBuffer(Run(m0, data)).stop.Failed?)
      && (o.next.Exit? ==> Stopped(m0, data, p + 1, o.st, nr', calls'))
  {
    hide Step, Run, StateInv, LogInv, MarkInv, Pending, SpanOk, LogAfter, MarkAfter, CallsAfter;
    var m := Run(m0, data[..p]);
    var o := Step(q, data[p], m.scan.Skipping?);
    var nr' := if o.reset then 0 else nr;
    StepKeeps(q, data[p], m.scan.Skipping?);
    StepSpans(q, data[p], m.scan.Skipping?);
    StepDescends(q, data[p], m.scan.Skipping?);
    PassLog(q.state, o, calls, mark, data, p);
    PassNotes(q.state, o, calls, mark, data, p);
    PassesKeep(q, nr, glog, data[p], m.scan);
    RunSnoc(m0, data[..p], data[p]);
    assert data[..p + 1] == data[..p] + [data[p]];
    if o.next.Fail? || o.next.Exit? { StopHere(m0, data, p); }
    if p + 1 == |data| { assert data[..p + 1] == data; }
  }

  // ---------- header loops ----------

  /** The state of a header loop that started in front of byte `from` and stands in front of byte p. */
  predicate InLoopAt(m0: Machine, data: string, from: nat, p: nat, k: DataKind, q: Parser, calls: seq<Event>,
          mark: Mark, scan: Scan) {
    && Entry(m0) && from <= p <= |data| && from < |data| && Inv(q)
    && mark.At? && mark.kind == k && mark.pos <= from
    && var m := Run(m0, data[..from]);
       && m.stop.Running? && m.used == from && m.nread < MAX_HEADER && m.log == Pending(calls, mark, data, from)
       && Looped(m, k, data[from..p], q, scan)
       && (p > from ==> !scan.Fresh?) && (p == from ==> scan.Fresh? && m.scan.Fresh?)
  }

  lemma LoopEnter(m0: Machine, data: string, p: nat, k: DataKind, q: Parser, nr: nat, calls: seq<Event>, mark: Mark)
    requires Before(m0, data, p, q, nr, calls, mark) && p < |data| && nr < MAX_HEADER && InLoop(q.state, k)
    ensures InLoopAt(m0, data, p, p, k, q, calls, mark, Fresh) && Run(m0, data[..p]).nread == nr
  {
    hide Run, StateInv, Looped, Pending;
    assert data[p..p] == "";
    LoopedStart(Run(m0, data[..p]), k);
  }

  /** The bytes before the loop and those inside it. */
  lemma LoopRun(m0: Machine, data: string, from: nat, p: nat)
    requires from <= p <= |data|
    ensures Run(m0, data[..p]) == Run(Run(m0, data[..from]), data[from..p])
  {
    assert data[..p] == data[..from] + data[from..p];
    RunConcat(m0, data[..from], data[from..p]);
  }

  /** A byte that ends the loop, in front of which no jump has lost its way. */
  predicate EndsLoop(q: Parser, ch: char, scan: Scan) {
    !StaysInLoop(q.state, ch) && (q.state.HeaderValue? ==> RunOf(scan) < MAX_HEADER)
  }

  /** The state that a loop leaves when the size check behind it fails. */
  function OverflowState(data: string, p: nat, q: Parser): State {
    if p < |data| && q.state.HeaderValue? then HeaderAlmostDone else q.state
  }

  /** The size check after the loop fails, and so does that of the byte machine. */
  lemma LoopOverflow(m0: Machine, data: string, from: nat, p: nat, k: DataKind, q: Parser, calls: seq<Event>,
          mark: Mark, scan: Scan)
    requires InLoopAt(m0, data, from, p, k, q, calls, mark, scan) && (p < |data| ==> EndsLoop(q, data[p], scan))
    requires Run(m0, data[..from]).nread + 1 + (p - from) > MAX_HEADER
    ensures forall c: seq<Event>, e: Parser, r: nat ::
              e.errno.HeaderOverflow? && e.state == OverflowState(data, p, q) && Notes(c) == Notes(calls)
              ==> Stopped(m0, data, p, e, r, c)
  {
    hide Run, Passes, Inv, Pending, StaysInLoop, Notes;
    LoopRun(m0, data, from, p);
    PendingNotes(calls, mark, data, from);
    NotesPush(Pending(calls, mark, data, from), Data(k, data[from..p]));
    if p == |data| {
      assert data[..p] == data;
    } else {
      RunSnoc(m0, data[..p], data[p]);
      assert data[..p + 1] == data[..p] + [data[p]];
      StopHere(m0, data, p);
    }
  }

  /** The buffer ends inside the loop. */
  lemma LoopEnd(m0: Machine, data: string, from: nat, k: DataKind, q: Parser, calls: seq<Event>, mark: Mark, scan: Scan)
    requires InLoopAt(m0, data, from, |data|, k, q, calls, mark, scan)
    requires Run(m0, data[..from]).nread + 1 + (|data| - from) <= MAX_HEADER
    ensures Before(m0, data, |data|, q, Run(m0, data[..from]).nread + 1 + (|data| - from), calls, mark)
  {
    hide Run, Inv, Push, Canonical;
    var m := Run(m0, data[..from]);
    LoopRun(m0, data, from, |data|);
    assert data[..|data|] == data;
    RunKeeps(m0, data);
    EndKeeps(Run(m0, data));
    LoopLog(data, from, |data|, k, calls, mark);
  }

  /** A byte stops the loop. */
  lemma LoopStop(m0: Machine, data: string, from: nat, p: nat, k: DataKind, q: Parser, calls: seq<Event>, mark: Mark,
          scan: Scan)
    requires InLoopAt(m0, data, from, p, k, q, calls, mark, scan) && p < |data| && EndsLoop(q, data[p], scan)
    requires Run(m0, data[..from]).nread + 1 + (p - from) <= MAX_HEADER
    ensures Run(m0, data[..p]).scan == scan
    ensures Mid(m0, data, p, q, Run(m0, data[..from]).nread + 1 + (p - from), calls, mark, Run(m0, data[..p]).log)
  {
    hide Run, Inv, Push, Canonical, Passes, StaysInLoop;
    LoopRun(m0, data, from, p);
    LoopLog(data, from, p, k, calls, mark);
    RunKeeps(m0, data[..p]);
    var m := Run(m0, data[..from]);
    if p == from {
      assert data[from..p] == "" && Run(m, "") == m;
    }
  }

  lemma LoopLog(data: string, from: nat, p: nat, k: DataKind, calls: seq<Event>, mark: Mark)
    requires from <= p <= |data| && mark.At? && mark.kind == k && mark.pos <= from
    ensures p > from ==> Push(Pending(calls, mark, data, from), Data(k, data[from..p])) == Pending(calls, mark, data, p)
  {
    hide Canonical;
    PushTwice(Canonical(calls), k, data[mark.pos..from], data[from..p]);
    assert data[mark.pos..p] == data[mark.pos..from] + data[from..p];
    if mark.pos == from { assert data[mark.pos..p] == data[from..p]; }
  }

  /** A byte that the loop rejects, whatever the size. */
  lemma LoopFail(m0: Machine, data: string, from: nat, p: nat, k: DataKind, q: Parser, calls: seq<Event>, mark: Mark,
          scan: Scan, e: Parser)
    requires InLoopAt(m0, data, from, p, k, q, calls, mark, scan) && p < |data| && StaysInLoop(q.state, data[p])
    requires RunOf(scan) < MAX_HEADER
    requires var o := Step(q, data[p], scan.Skipping?);
        o == Reject(o.st, o.st.errno) && o.st.errno == e.errno && o.st.state == e.state
    requires !e.errno.OK?
    ensures forall c: seq<Event>, r: nat :: Notes(c) == Notes(calls) ==> Stopped(m0, data, p, e, r, c)
  {
    hide Run, Step, Inv, Pending, Notes, StaysInLoop;
    LoopRun(m0, data, from, p);
    PendingNotes(calls, mark, data, from);
    NotesPush(Pending(calls, mark, data, from), Data(k, data[from..p]));
    RunSnoc(m0, data[..p], data[p]);
    assert data[..p + 1] == data[..p] + [data[p]];
    StopHere(m0, data, p);
  }

  lemma FieldLoopOn(m0: Machine, data: string, from: nat, p: nat, q: Parser, calls: seq<Event>, mark: Mark, scan: Scan)
    requires InLoopAt(m0, data, from, p, OnHeaderField, q, calls, mark, scan)
    requires p < |data| && q.state.HeaderField? && IsToken(data[p])
    ensures InLoopAt(m0, data, from, p + 1, OnHeaderField, FieldByte(q, Token(data[p])), calls, mark, Scanning)
  {
    hide Run, FieldByte, Token, Looped, Pending, MatchingName, Word;
    FieldByteKeeps(q, Token(data[p]));
    FieldLoopByte(Run(m0, data[..from]), data[from..p], q, scan, data[p]);
    assert data[from..p + 1] == data[from..p] + [data[p]];
  }

  lemma ValueLoopOn(m0: Machine, data: string, from: nat, p: nat, q: Parser, calls: seq<Event>, mark: Mark, scan: Scan)
    requires InLoopAt(m0, data, from, p, OnHeaderValue, q, calls, mark, scan)
    requires p < |data| && q.state.HeaderValue? && data[p] != CR && data[p] != LF
    requires (q.lenient || IsHeaderChar(data[p]))
    requires ValueByte(q, data[p]).errno.OK? && !scan.Skipping?
    ensures InLoopAt(m0, data, from, p + 1, OnHeaderValue, ValueByte(q, data[p]), calls, mark,
                     if q.hstate.HGeneral? then Skipping(1) else Scanning)
  {
    hide Run, ValueByte, Looped, Pending, StateInv, IsHeaderChar;
    ValueByteKeeps(q, data[p]);
    ValueLoopByte(Run(m0, data[..from]), data[from..p], q, scan, data[p]);
    assert data[from..p + 1] == data[from..p] + [data[p]];
  }

  /** A memchr jump from byte p, the first that it passes, to byte `to`. */
  lemma JumpOn(m0: Machine, data: string, from: nat, p: nat, to: nat, q: Parser, calls: seq<Event>, mark: Mark)
    requires p + 1 <= to <= |data| && InLoopAt(m0, data, from, p + 1, OnHeaderValue, q, calls, mark, Skipping(1))
    requires q.state.HeaderValue? && q.hstate.HGeneral?
    requires forall i :: p < i < to && i < p + MAX_HEADER ==> data[i] != CR && data[i] != LF
    ensures InLoopAt(m0, data, from, to, OnHeaderValue, q, calls, mark, Skipping(to - p))
  {
    hide Run, Looped, Pending, StateInv;
    var m := Run(m0, data[..from]);
    assert data[from..to] == data[from..p + 1] + data[p + 1..to];
    JumpBytes(m, data[from..p + 1], q, 1, data[p + 1..to]);
  }

  /** A line end stops the value loop. */
  lemma ValueLineEnd(m0: Machine, data: string, from: nat, p: nat, q: Parser, calls: seq<Event>, mark: Mark, scan: Scan)
    returns (glog: seq<Event>)
    requires InLoopAt(m0, data, from, p, OnHeaderValue, q, calls, mark, scan) && p < |data| && q.state.HeaderValue?
    requires RunOf(scan) < MAX_HEADER
    requires (data[p] == CR || data[p] == LF) && Run(m0, data[..from]).nread + 1 + (p - from) <= MAX_HEADER
    ensures var nr := Run(m0, data[..from]).nread + 1 + (p - from);
      var q' := q.(state := HeaderAlmostDone);
      var calls' := calls + [Data(OnHeaderValue, data[mark.pos..p])];
      if data[p] == CR then Before(m0, data, p + 1, q', nr, calls', NoMark)
          else Mid(m0, data, p, q', nr, calls', NoMark, glog)
  {
    hide Run, Step, Before, Mid, Pending, Inv, Looped, LogAfter;
    var nr := Run(m0, data[..from]).nread + 1 + (p - from);
    LoopStop(m0, data, from, p, OnHeaderValue, q, calls, mark, scan);
    ValueEnds(q, scan.Skipping?);
    glog := Run(m0, data[..p]).log;
    PassOn(m0, data, p, q, nr, calls, mark, glog);
    glog := LogAfter(HeaderValue, glog, Step(q, data[p], scan.Skipping?), data[p]);
  }

  // ---------- body strides ----------

  function BodyMark(mark: Mark, p: nat): Mark { if mark.NoMark? then At(OnBody, p) else mark }

  /** The C asserts at the head of a body stride. */
  lemma BodyLengths(m0: Machine, data: string, p: nat, q: Parser, nr: nat, calls: seq<Event>, mark: Mark)
    requires Before(m0, data, p, q, nr, calls, mark) && p < |data| && (q.state.ChunkData? || q.state.BodyIdentity?)
    ensures 0 < q.clen < ULLONG_MAX && BodyState(q) && nr <= MAX_HEADER
    ensures (mark.At? ==> mark.kind.OnBody? && mark.pos < p)
  {
    hide Run, Pending, MethodString, NameInv, ValueInv;
  }

  lemma BodyLog(data: string, from: nat, p: nat, calls: seq<Event>, mark: Mark)
    requires from < p <= |data| && (mark.At? ==> mark.kind.OnBody? && mark.pos < from)
    ensures Push(Pending(calls, mark, data, from), Data(OnBody, data[from..p])) == Pending(calls, BodyMark(mark, from),
        data, p)
  {
    hide Canonical;
    if mark.At? {
      PushTwice(Canonical(calls), OnBody, data[mark.pos..from], data[from..p]);
      assert data[mark.pos..p] == data[mark.pos..from] + data[from..p];
    }
  }

  /** A stride that does not complete a message of known length. */
  lemma StrideTurn(m0: Machine, data: string, p: nat, k: nat, q: Parser, nr: nat, calls: seq<Event>, mark: Mark)
    requires Before(m0, data, p, q, nr, calls, mark) && p < |data| && (q.state.ChunkData? || q.state.BodyIdentity?)
    requires 0 < k <= q.clen && p + k <= |data| && (q.state.BodyIdentity? ==> k < q.clen)
    ensures Before(m0, data, p + k, BodyAfter(q, k), nr, calls, BodyMark(mark, p))
  {
    hide Run, Pending, StateInv, LogInv, Byte, Push;
    BodyLengths(m0, data, p, q, nr, calls, mark);
    BodyRun(Run(m0, data[..p]), data[p..p + k]);
    LoopRun(m0, data, p, p + k);
    RunKeeps(m0, data[..p + k]);
    BodyLog(data, p, p + k, calls, mark);
    if p + k == |data| { assert data[..p + k] == data; }
  }

  lemma LastBodyByte(q: Parser, ch: char)
    requires q.state.BodyIdentity? && q.clen == 1
    ensures Step(q, ch, false) == Outcome(q.(clen := 0, state := MessageDone), Some(OnBody), Some(OnBody), true, None,
        false, Again)
  {
    hide HeaderStep, ResponseLine, RequestLine, UrlHead, UrlRest, ChunkFirst, ChunkDigit, ChunkLineEnd, ChunkByte,
         ChunkEnd, ChunkDone;
  }

  /** The stride that completes a body of known length: its last byte is seen again. */
  lemma LastStride(m0: Machine, data: string, p: nat, k: nat, q: Parser, nr: nat, calls: seq<Event>, mark: Mark)
    returns (glog: seq<Event>)
    requires Before(m0, data, p, q, nr, calls, mark) && p < |data| && q.state.BodyIdentity? && k == q.clen && 0 < k
    requires p + k <= |data|
    ensures BodyMark(mark, p).pos < p + k
    ensures Mid(m0, data, p + k - 1, q.(clen := 0, state := MessageDone), nr,
                calls + [Data(OnBody, data[BodyMark(mark, p).pos..p + k])], NoMark, glog)
  {
    hide Run, Pending, StateInv, LogInv, Step, Before, Mid;
    BodyLengths(m0, data, p, q, nr, calls, mark);
    var q1, mark1 := q, mark;
    if k > 1 {
      StrideTurn(m0, data, p, k - 1, q, nr, calls, mark);
      q1, mark1 := BodyAfter(q, k - 1), BodyMark(mark, p);
    }
    var last := p + k - 1;
    Enter(m0, data, last, q1, nr, calls, mark1);
    glog := Run(m0, data[..last]).log;
    LastBodyByte(q1, data[last]);
    PassOn(m0, data, last, q1, nr, calls, mark1, glog);
    glog := LogAfter(q1.state, glog, Step(q1, data[last], false), data[last]);
  }

  /** The rest of the buffer is body. */
  lemma EofTurn(m0: Machine, data: string, p: nat, q: Parser, nr: nat, calls: seq<Event>, mark: Mark)
    requires Before(m0, data, p, q, nr, calls, mark) && p < |data| && q.state.BodyIdentityEof?
    ensures Before(m0, data, |data|, q, nr, calls, BodyMark(mark, p))
  {
    hide Run, Pending, StateInv, LogInv;
    EofRun(Run(m0, data[..p]), data[p..]);
    LoopRun(m0, data, p, |data|);
    assert data[p..|data|] == data[p..] && data[..|data|] == data;
    RunKeeps(m0, data);
    BodyLog(data, p, |data|, calls, mark);
  }

  // ---------- a whole call ----------

  lemma CountBound(m0: Machine, data: string, p: nat, q: Parser, nr: nat, calls: seq<Event>, mark: Mark)
    requires Before(m0, data, p, q, nr, calls, mark)
    ensures nr <= MAX_HEADER
  {
    hide Run, Pending, StateInv;
  }

  /**
   Result q, nr, log, n of a call agrees with machine m; after an error, in the error, the state, n and the
   notifications.
  */
  predicate Meets(m: Machine, q: Parser, nr: nat, log: seq<Event>, n: nat) {
    && !m.stop.Aborted?
    && (q.errno.OK? <==> m.ps.errno.OK?)
    && (q.errno.OK? ==> q == m.ps && nr == m.nread && log == m.log && n == m.used)
    && (!q.errno.OK? ==> q.errno == m.ps.errno && q.state == m.ps.state && n == m.used && Notes(log) == Notes(m.log))
  }

  function StartOf(p: Parser, nr: nat, calls: seq<Event>): Machine {
    Machine(p, nr, Canonical(calls), Fresh, 0, Running)
  }

  /** The marks that http_parser_execute sets before its first byte. */
  function FirstMark(s: State): Mark { if OpenOf(s).Some? then At(OpenOf(s).value, 0) else NoMark }

  lemma Begin(data: string, p: Parser, nr: nat, calls: seq<Event>)
    requires p.errno.OK? && Valid(p, nr, Canonical(calls)) && data != ""
    ensures Before(StartOf(p, nr, calls), data, 0, p, nr, calls, FirstMark(p.state))
  {
    hide StateInv;
    assert data[..0] == "";
  }

  /** An early exit meets the specification of the call. */
  lemma StopMeets(data: string, p: Parser, nr: nat, calls: seq<Event>, q: Parser, nr': nat, calls': seq<Event>, n: nat)
    requires p.errno.OK? && Valid(p, nr, Canonical(calls)) && data != ""
    requires Stopped(StartOf(p, nr, calls), data, n, q, nr', calls')
    ensures Meets(Call(p, nr, Canonical(calls), data), q, nr', Canonical(calls'), n)
  {
    hide Run, Inv, Notes;
    NotesCanonical(calls');
    CallKeeps(p, nr, Canonical(calls), data);
    RunKeeps(StartOf(p, nr, calls), data);
  }

  /** The final flush of the open mark completes the log. */
  lemma FinishMeets(data: string, p: Parser, nr: nat, calls: seq<Event>, q: Parser, nr': nat, calls': seq<Event>,
          mark: Mark)
    requires p.errno.OK? && Valid(p, nr, Canonical(calls)) && data != ""
    requires Before(StartOf(p, nr, calls), data, |data|, q, nr', calls', mark)
    ensures mark.At? ==> mark.pos <= |data|
    ensures var calls'' := if mark.At? then calls' + [Data(mark.kind, data[mark.pos..])] else calls';
      var m := Call(p, nr, Canonical(calls), data);
      Meets(m, q, nr', Canonical(calls''), |data|) && m.stop.Running?
  {
    hide Run, Inv, Push, Canonical, StateInv;
    assert data[..|data|] == data;
    CallKeeps(p, nr, Canonical(calls), data);
    if mark.At? {
      var k, rest := mark.kind, data[mark.pos..];
      assert rest == data[mark.pos..|data|];
      CanonicalSnoc(calls', Data(k, rest));
      if mark.pos == |data| {
        assert rest == "";
        PushNothing(Canonical(calls'), k);
      }
    }
  }
}
