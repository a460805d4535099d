/** The end of a header block, and bodies of known length. */
module HttpBodies {
  import opened Chars
  import opened HttpTypes
  import opened HttpStep
  import opened HttpSpec
  import opened HttpInvariant
  import opened HttpBulk
  import opened HttpRuns
  import opened HttpHeaders

  lemma CloseSteps(p: Parser)
    ensures p.state.HeaderFieldStart? ==> Step(p, CR, false) == Go(p.(state := HeadersAlmostDone))
    ensures p.state.HeadersAlmostDone? ==> Step(p, LF, false) == HeadersEnd(p)
    ensures p.state.HeadersDone? ==> Step(p, LF, false) == BodyStart(p)
  {
    hide FieldStep, DiscardWs, ValueStart, ValueStep, ValueLws, DiscardLws, HeadersEnd, BodyStart, BodyStep,
         ResponseLine, RequestLine, UrlHead, UrlRest, Token, FieldStart;
  }

  /** A message head that is not followed by another protocol, by chunks, or by nothing at the embedder's wish. */
  predicate SimpleHead(p: Parser) {
    !p.flags.trailing && !p.flags.chunked && !p.flags.skipBody && !p.meth.CONNECT?
      && !(p.flags.upgrade && p.flags.connUpgrade)
  }

  /** The record when such a head is complete. */
  function HeadDone(p: Parser): Parser { p.(state := HeadersDone, upgrade := false) }

  lemma HeadersEndSimple(p: Parser)
    requires SimpleHead(p)
    ensures HeadersEnd(p) == Redo(HeadDone(p)).(note := Some(OnHeadersComplete))
  {
  }

  lemma BodyStartSimple(p: Parser)
    requires SimpleHead(p) && !p.upgrade
    ensures BodyStart(p) == (if p.clen == 0 || (p.clen == ULLONG_MAX && !NeedsEof(p)) then Complete(p)
                             else Go(p.(state := if p.clen != ULLONG_MAX then BodyIdentity else BodyIdentityEof)))
                            .(reset := true)
  {
    hide Complete, NeedsEof;
  }

  /** The last line feed of a head. */
  lemma CloseByte(m: Machine)
    requires m.stop.Running? && m.ps.state.HeadersAlmostDone? && m.nread < MAX_HEADER && SimpleHead(m.ps)
    requires !m.scan.Skipping?
    ensures var q := HeadDone(m.ps);
      var log := Push(m.log, Notify(OnHeadersComplete));
      Byte(m, LF) ==
        if q.clen == 0 || (q.clen == ULLONG_MAX && !NeedsEof(q))
        then Machine(q.(state := NewMessage(q)), 0, Push(log, Notify(OnMessageComplete)), Fresh, m.used + 1, Running)
        else Machine(q.(state := if q.clen != ULLONG_MAX then BodyIdentity else BodyIdentityEof), 0, log, Fresh,
          m.used + 1, Running)
  {
    hide Step, HeadersEnd, BodyStart, Push, NeedsEof, NewMessage;
    var p, q := m.ps, HeadDone(m.ps);
    CloseSteps(p);
    CloseSteps(q);
    HeadersEndSimple(p);
    BodyStartSimple(q);
    var log := Push(m.log, Notify(OnHeadersComplete));
    assert Passes(p, m.nread + 1, m.log, LF, m.scan) == Passes(q, m.nread + 1, log, LF, m.scan);
    assert Passes(q, m.nread + 1, log, LF, m.scan).stop.Running?;
  }

  /** The empty line that ends a head, from wherever the last header line left the machine. */
  lemma CloseRun(m: Machine)
    requires MachineInv(m) && m.stop.Running? && m.scan.Fresh? && m.nread + 2 <= MAX_HEADER
    requires Settle(m).ps.state.HeaderFieldStart? && SimpleHead(Settle(m).ps)
    ensures var s := Settle(m);
      var q := HeadDone(s.ps);
      var log := Push(s.log, Notify(OnHeadersComplete));
      Run(m, CRLF) ==
        if q.clen == 0 || (q.clen == ULLONG_MAX && !NeedsEof(q))
        then Machine(q.(state := NewMessage(q)), 0, Push(log, Notify(OnMessageComplete)), Fresh, m.used + 2, Running)
        else Machine(q.(state := if q.clen != ULLONG_MAX then BodyIdentity else BodyIdentityEof), 0, log, Fresh,
          m.used + 2, Running)
  {
    hide Step, Byte, Push, NeedsEof, NewMessage, MachineInv, Settle;
    var s := Settle(m);
    SettleShape(m);
    SettleByte(m, CR);
    CloseSteps(s.ps);
    OnePass(s, CR);
    var r := Byte(m, CR);
    NewMessageState(HeadDone(s.ps), HeadDone(r.ps));
    CloseByte(r);
    assert CRLF == [CR] + [LF];
    RunCons(m, CR, [LF]);
    RunOne(r, LF);
  }

  lemma NewMessageState(p: Parser, q: Parser)
    requires q == p.(state := q.state)
    ensures NewMessage(p) == NewMessage(q) && NeedsEof(p) == NeedsEof(q)
  {
  }

  // ---------- bodies of known length ----------

  lemma LastByteRun(m: Machine, ch: char)
    requires m.stop.Running? && m.ps.state.BodyIdentity? && m.ps.clen == 1 && !m.ps.upgrade
    ensures var q := m.ps.(clen := 0, state := MessageDone);
      Byte(m, ch) == Machine(q.(state := NewMessage(q)), m.nread,
                             Push(Push(m.log, Data(OnBody, [ch])), Notify(OnMessageComplete)), Fresh, m.used + 1,
                               Running)
  {
    hide Step, NewMessage, Push;
    var q, log := m.ps.(clen := 0, state := MessageDone), Push(m.log, Data(OnBody, [ch]));
    LastSteps(m.ps, ch);
    LastSteps(q, ch);
    assert Passes(m.ps, m.nread, m.log, ch, m.scan) == Passes(q, m.nread, log, ch, m.scan);
    assert Passes(q, m.nread, log, ch, m.scan).stop.Running?;
  }

  lemma LastSteps(p: Parser, ch: char)
    ensures p.state.BodyIdentity? && p.clen == 1 ==>
              forall skip: bool :: Step(p, ch, skip)
                == Outcome(p.(clen := 0, state := MessageDone), Some(OnBody), Some(OnBody), true, None, false, Again)
    ensures forall skip: bool :: p.state.MessageDone? && !p.upgrade ==> Step(p, ch, skip) == Complete(p)
  {
    hide HeaderStep, ResponseLine, RequestLine, UrlHead, UrlRest, ChunkFirst, ChunkDigit, ChunkLineEnd, ChunkByte,
         ChunkEnd, ChunkDone, NewMessage;
  }

  /**
   Conservation. As long as bytes of a body of known length are missing, bytes delivered and content_length add up to
   the length; the message is complete exactly when the last one has been delivered.
  */
  lemma IdentityBody(m: Machine, body: string)
    requires m.stop.Running? && m.ps.state.BodyIdentity? && 0 < |body| <= m.ps.clen < ULLONG_MAX && !m.ps.upgrade
    ensures var r := Run(m, body);
      var log := Push(m.log, Data(OnBody, body));
      if |body| < m.ps.clen
      then r == Machine(m.ps.(clen := m.ps.clen - |body|), m.nread, log, Fresh, m.used + |body|, Running)
      else var q := m.ps.(clen := 0, state := MessageDone);
        r == Machine(q.(state := NewMessage(q)), m.nread, Push(log, Notify(OnMessageComplete)), Fresh, m.used + |body|,
          Running)
  {
    hide Byte, Push, NewMessage;
    if |body| < m.ps.clen {
      BodyRun(m, body);
    } else {
      var init, ch := body[..|body| - 1], body[|body| - 1];
      assert body == init + [ch];
      RunSnoc(m, init, ch);
      if init == "" {
        RunNothing(m);
        assert body == [ch];
      } else {
        BodyRun(m, init);
        PushTwice(m.log, OnBody, init, [ch]);
      }
      LastByteRun(Run(m, init), ch);
    }
  }
}
