/**
 What the buffer loops of http_parser_execute compute, in terms of the one-byte machine: header names, header values
 with their memchr jump, and body skips.
 */
module HttpBulk {
  import opened Chars
  import opened HttpTypes
  import opened HttpStep
  import opened HttpSpec
  import opened HttpInvariant

  // ---------- header loops ----------

  predicate InLoop(s: State, k: DataKind) {
    (s.HeaderField? && k.OnHeaderField?) || (s.HeaderValue? && k.OnHeaderValue?)
  }

  /** Reading s inside a header loop leads the byte machine from m to record q; the size limit is not looked at. */
  predicate Looped(m: Machine, k: DataKind, s: string, q: Parser, scan: Scan) {
    && InLoop(q.state, k) && m.nread < MAX_HEADER && (scan.Fresh? ==> s == "")
    && Run(m, s) == Machine(q, m.nread + |s|, Push(m.log, Data(k, s)), scan, m.used + |s|, Running)
  }

  lemma LoopedStart(m: Machine, k: DataKind)
    requires MachineInv(m) && m.stop.Running? && InLoop(m.ps.state, k) && m.nread < MAX_HEADER
    ensures Looped(m, k, "", m.ps, m.scan)
  {
    hide StateInv;
    PushNothing(m.log, k);
  }

  /** The bytes a jump has passed. */
  function RunOf(scan: Scan): nat { if scan.Skipping? then scan.run else 0 }

  /** One more byte of a header loop. */
  lemma LoopedByte(m: Machine, k: DataKind, s: string, q: Parser, scan: Scan, ch: char)
    requires Looped(m, k, s, q, scan) && StaysInLoop(q.state, ch) && (q.state.HeaderValue? ==> RunOf(scan) < MAX_HEADER)
    requires var o := Step(q, ch, scan.Skipping?);
      o.next.Advance? && o.st.state == q.state && o.mark.None? && o.flush.None? && o.note.None? && !o.reset
    ensures var o := Step(q, ch, scan.Skipping?); Looped(m, k, s + [ch], o.st, ScanAfter(q, o.st, scan))
  {
    hide Step, Run, IsToken, Push;
    RunSnoc(m, s, ch);
    PushTwice(m.log, k, s, [ch]);
  }

  /** The field loop's byte. */
  lemma FieldLoopByte(m: Machine, s: string, q: Parser, scan: Scan, ch: char)
    requires Looped(m, OnHeaderField, s, q, scan) && q.state.HeaderField? && IsToken(ch) && FieldState(q.hstate)
    ensures Looped(m, OnHeaderField, s + [ch], FieldByte(q, Token(ch)), Scanning)
  {
    hide LineStart, DiscardWs, ValueStart, ValueStep, ValueLws, DiscardLws, HeadersEnd, BodyStart, BodyStep,
         ResponseLine, RequestLine, UrlHead, UrlRest, FieldByte, Token, Looped;
    LoopedByte(m, OnHeaderField, s, q, scan, ch);
  }

  /** The value loop's byte. */
  lemma ValueLoopByte(m: Machine, s: string, q: Parser, scan: Scan, ch: char)
    requires Looped(m, OnHeaderValue, s, q, scan) && q.state.HeaderValue? && ch != CR && ch != LF
    requires RunOf(scan) < MAX_HEADER
    requires q.lenient || scan.Skipping? || IsHeaderChar(ch)
    requires !q.hstate.HConnection? && !q.hstate.HTransferEncoding? && ValueByte(q, ch).errno.OK?
    ensures Looped(m, OnHeaderValue, s + [ch], ValueByte(q, ch),
        if q.hstate.HGeneral? then Skipping(RunOf(scan) + 1) else Scanning)
  {
    hide LineStart, FieldStep, DiscardWs, ValueStart, ValueLws, DiscardLws, HeadersEnd, BodyStart, BodyStep,
         ResponseLine, RequestLine, UrlHead, UrlRest, ValueByte, IsHeaderChar, Looped;
    LoopedByte(m, OnHeaderValue, s, q, scan, ch);
  }

  predicate NoLineEnd(s: string) { CR !in s && LF !in s }

  /** A byte behind those that a jump has searched. */
  lemma LostByte(m: Machine, s: string, q: Parser, run: nat, ch: char)
    requires Looped(m, OnHeaderValue, s, q, Skipping(run)) && q.state.HeaderValue? && run >= MAX_HEADER
    ensures Looped(m, OnHeaderValue, s + [ch], q, Skipping(run + 1))
  {
    hide Run;
    RunSnoc(m, s, ch);
    PushTwice(m.log, OnHeaderValue, s, [ch]);
  }

  /**
   A memchr jump over t: no byte of t is looked at again. Among the bytes that the search reaches there is no line end;
   those behind it are passed whatever they are.
  */
  lemma {:induction false} JumpBytes(m: Machine, s: string, q: Parser, run: nat, t: string)
    requires Looped(m, OnHeaderValue, s, q, Skipping(run)) && q.state.HeaderValue? && q.hstate.HGeneral? && q.errno.OK?
    requires forall i :: 0 <= i < |t| && run + i < MAX_HEADER ==> t[i] != CR && t[i] != LF
    ensures Looped(m, OnHeaderValue, s + t, q, Skipping(run + |t|))
    decreases |t|
  {
    hide Looped, Step;
    if t == "" {
      assert s + t == s;
    } else {
      if run < MAX_HEADER {
        ValueLoopByte(m, s, q, Skipping(run), t[0]);
      } else {
        LostByte(m, s, q, run, t[0]);
      }
      assert s + t == s + [t[0]] + t[1..];
      JumpBytes(m, s + [t[0]], q, run + 1, t[1..]);
    }
  }

  /**
   A jump past line ends that the search did not reach: the rest of the buffer is used, and the size check behind it
   fails.
  */
  lemma {:induction false} JumpTooFar(m: Machine, t: string)
    requires MachineInv(m) && m.stop.Running? && Lost(m)
    ensures var r := EndBuffer(Run(m, t)); r.stop.Failed? && r.ps.errno.HeaderOverflow? && r.used == m.used + |t|
    decreases |t|
  {
    hide StateInv, Push;
    if t != "" {
      ByteKeeps(m, t[0]);
      JumpTooFar(Byte(m, t[0]), t[1..]);
    }
  }

  // ---------- bodies ----------

  /** The record after n bytes of a body of known length. */
  function BodyAfter(p: Parser, n: nat): Parser
    requires n <= p.clen
  {
    p.(clen := p.clen - n, state := if p.state.ChunkData? && n == p.clen then ChunkDataAlmostDone else p.state)
  }

  predicate BodyState(p: Parser) {
    (p.state.ChunkData? && p.flags.chunked) || p.state.BodyIdentity?
  }

  lemma BodySteps(p: Parser, ch: char, skip: bool)
    requires BodyState(p) && 0 < p.clen < ULLONG_MAX && (p.state.BodyIdentity? ==> p.clen > 1)
    ensures Step(p, ch, skip) == Go(BodyAfter(p, 1)).(mark := Some(OnBody))
  {
    hide HeaderStep, ResponseLine, RequestLine, UrlHead, UrlRest, ChunkFirst, ChunkDigit, ChunkLineEnd, ChunkEnd,
         ChunkDone;
  }

  lemma BodyByteRun(m: Machine, ch: char)
    requires m.stop.Running? && BodyState(m.ps) && 0 < m.ps.clen < ULLONG_MAX
    requires (m.ps.state.BodyIdentity? ==> m.ps.clen > 1)
    ensures Byte(m, ch) == Machine(BodyAfter(m.ps, 1), m.nread, Push(m.log, Data(OnBody, [ch])), Fresh, m.used + 1,
        Running)
  {
    hide Step, Push;
    BodySteps(m.ps, ch, m.scan.Skipping?);
  }

  /** Body bytes that do not end a body of known length: what C skips in one stride. */
  lemma {:induction false} BodyRun(m: Machine, s: string)
    requires m.stop.Running? && BodyState(m.ps) && 0 < |s| <= m.ps.clen < ULLONG_MAX
    requires m.ps.state.BodyIdentity? ==> |s| < m.ps.clen
    ensures Run(m, s) == Machine(BodyAfter(m.ps, |s|), m.nread, Push(m.log, Data(OnBody, s)), Fresh, m.used + |s|,
        Running)
    decreases |s|
  {
    hide Byte, Push;
    var r := Byte(m, s[0]);
    BodyByteRun(m, s[0]);
    if |s| == 1 {
      assert s == [s[0]] && Run(r, s[1..]) == r;
    } else {
      BodyRun(r, s[1..]);
      assert [s[0]] + s[1..] == s;
      PushTwice(m.log, OnBody, [s[0]], s[1..]);
    }
  }

  /** The body that ends with the connection. */
  lemma EofByteRun(m: Machine, ch: char)
    requires m.stop.Running? && m.ps.state.BodyIdentityEof?
    ensures Byte(m, ch) == Machine(m.ps, m.nread, Push(m.log, Data(OnBody, [ch])), Fresh, m.used + 1, Running)
  {
    hide HeaderStep, ResponseLine, RequestLine, UrlHead, UrlRest, ChunkFirst, ChunkDigit, ChunkLineEnd, ChunkEnd,
         ChunkDone;
  }

  lemma {:induction false} EofRun(m: Machine, s: string)
    requires m.stop.Running? && m.ps.state.BodyIdentityEof? && |s| > 0
    ensures Run(m, s) == Machine(m.ps, m.nread, Push(m.log, Data(OnBody, s)), Fresh, m.used + |s|, Running)
    decreases |s|
  {
    hide Byte, Push;
    var r := Byte(m, s[0]);
    EofByteRun(m, s[0]);
    if |s| == 1 {
      assert s == [s[0]] && Run(r, s[1..]) == r;
    } else {
      EofRun(r, s[1..]);
      assert [s[0]] + s[1..] == s;
      PushTwice(m.log, OnBody, [s[0]], s[1..]);
    }
  }
}
