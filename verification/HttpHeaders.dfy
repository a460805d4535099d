/** Header lines: what the byte machine does with a name, a colon, a value and a line end. */
module HttpHeaders {
  import opened Chars
  import opened HttpTypes
  import opened HttpStep
  import opened HttpSpec
  import opened HttpInvariant
  import opened HttpBulk
  import opened HttpRuns
  import opened HttpNames

  // ---------- names ----------

  lemma NameSteps(p: Parser, ch: char)
    requires IsToken(ch)
    ensures p.state.HeaderFieldStart? ==>
        Step(p, ch, false) == Go(FieldStart(p, Token(ch))).(mark := Some(OnHeaderField))
    ensures p.state.HeaderField? && FieldState(p.hstate) ==> Step(p, ch, false) == Go(FieldByte(p, Token(ch)))
  {
    hide DiscardWs, ValueStart, ValueStep, ValueLws, DiscardLws, HeadersEnd, BodyStart, BodyStep, ResponseLine,
         RequestLine, UrlHead, UrlRest, FieldByte, FieldStart, Token;
    assert ch != CR && ch != LF by { NoTokenEnds(ch); }
  }

  lemma NoTokenEnds(ch: char)
    requires IsToken(ch)
    ensures ch != CR && ch != LF && ch != ':' && ch != ' ' && ch != '\t'
  {
  }

  /** The first letter of a name, and each further one. */
  lemma NameByte(m: Machine, ch: char)
    requires MachineInv(m) && m.stop.Running? && m.nread < MAX_HEADER && IsToken(ch)
    requires m.ps.state.HeaderFieldStart? || m.ps.state.HeaderField?
    ensures var q := if m.ps.state.HeaderField? then FieldByte(m.ps, Token(ch)) else FieldStart(m.ps, Token(ch));
      Byte(m, ch) == Machine(q, m.nread + 1, Push(m.log, Data(OnHeaderField, [ch])),
                             if m.ps.state.HeaderField? then Scanning else Fresh, m.used + 1, Running)
  {
    hide Step, Token, FieldByte, FieldStart, StateInv, Byte, Push;
    if m.ps.state.HeaderField? { InvName(m.ps); }
    NameSteps(m.ps, ch);
    OnePass(m, ch);
  }

  lemma {:induction false} NameRun(m: Machine, name: string)
    requires MachineInv(m) && m.stop.Running? && m.ps.state.HeaderFieldStart? && IsName(name)
    requires m.nread + |name| <= MAX_HEADER
    ensures Run(m, name) == Machine(NameRecord(m.ps, name), m.nread + |name|, Push(m.log, Data(OnHeaderField, name)),
                                    if |name| == 1 then Fresh else Scanning, m.used + |name|, Running)
    ensures NameRecord(m.ps, name).state.HeaderField?
    decreases |name|
  {
    hide Run, Token, MachineInv, Byte, Push;
    var init, c := name[..|name| - 1], name[|name| - 1];
    assert name == init + [c];
    RunSnoc(m, init, c);
    if |name| == 1 {
      RunNothing(m);
      NameByte(m, c);
    } else {
      NameRun(m, init);
      RunKeeps(m, init);
      NameByte(Run(m, init), c);
      PushTwice(m.log, OnHeaderField, init, [c]);
    }
  }

  lemma RunNothing(m: Machine)
    ensures Run(m, "") == m
  {
  }

  lemma InvName(p: Parser)
    requires Inv(p) && p.state.HeaderField?
    ensures FieldState(p.hstate)
  {
    hide MethodString, Word;
  }

  // ---------- values ----------

  /** The value loop accepts s from record q. */
  predicate Accepts(q: Parser, s: string)
    decreases |s|
  {
    s == "" || (s[0] != CR && s[0] != LF && (q.lenient || IsHeaderChar(s[0]))
                && !q.hstate.HConnection? && !q.hstate.HTransferEncoding?
                && ValueByte(q, s[0]).errno.OK? && Accepts(ValueByte(q, s[0]), s[1..]))
  }

  /** The record after the value loop has read s. */
  function ValueRecord(q: Parser, s: string): Parser
    decreases |s|
  {
    if s == "" then q else ValueRecord(ValueByte(q, s[0]), s[1..])
  }

  lemma {:induction false} ValueRun(m: Machine, done: string, q: Parser, scan: Scan, s: string) returns (scan': Scan)
    requires Looped(m, OnHeaderValue, done, q, scan) && q.state.HeaderValue? && Accepts(q, s)
    requires RunOf(scan) + |s| <= MAX_HEADER
    ensures Looped(m, OnHeaderValue, done + s, ValueRecord(q, s), scan') && ValueRecord(q, s).state.HeaderValue?
    decreases |s|
  {
    hide Looped, ValueByte, IsHeaderChar;
    if s == "" {
      assert done + s == done;
      scan' := scan;
    } else {
      ValueLoopByte(m, done, q, scan, s[0]);
      assert done + s == done + [s[0]] + s[1..];
      scan' := ValueRun(m, done + [s[0]], ValueByte(q, s[0]),
        if q.hstate.HGeneral? then Skipping(RunOf(scan) + 1) else Scanning, s[1..]);
    }
  }

  /** A value the parser does not interpret. */
  predicate IsPlain(v: string) {
    (v != "" ==> v[0] != ' ' && v[0] != '\t') && forall i :: 0 <= i < |v| ==>
      v[i] != CR && v[i] != LF && IsHeaderChar(v[i])
  }

  lemma {:induction false} PlainAccepted(q: Parser, s: string)
    requires q.hstate.HGeneral? && q.errno.OK? && forall i :: 0 <= i < |s| ==>
        s[i] != CR && s[i] != LF && IsHeaderChar(s[i])
    ensures Accepts(q, s) && ValueRecord(q, s) == q
    decreases |s|
  {
    hide IsHeaderChar;
    if s != "" {
      assert ValueByte(q, s[0]) == q;
      PlainAccepted(q, s[1..]);
    }
  }

  /** Steps from the colon to the first byte of the value. */
  lemma ColonSteps(p: Parser)
    ensures p.state.HeaderField? ==>
        Step(p, ':', false) == Go(p.(state := HeaderValueDiscardWs)).(flush := Some(OnHeaderField))
    ensures p.state.HeaderValueDiscardWs? ==> Step(p, ' ', false) == Go(p)
  {
    hide LineStart, ValueStart, ValueStep, ValueLws, DiscardLws, HeadersEnd, BodyStart, BodyStep, ResponseLine,
         RequestLine, UrlHead, UrlRest, FieldByte, FieldStart;
  }

  lemma ColonRun(m: Machine)
    requires MachineInv(m) && m.stop.Running? && m.ps.state.HeaderField? && m.nread + 2 <= MAX_HEADER
    ensures Run(m, ": ") == Moved(m, m.ps.(state := HeaderValueDiscardWs), m.log, 2)
  {
    hide Step, Byte, StateInv, Push;
    ColonSteps(m.ps);
    OnePass(m, ':');
    var r := Byte(m, ':');
    PushNothing(m.log, OnHeaderField);
    ColonSteps(r.ps);
    GoByte(r, ' ', r.ps);
    assert ": " == [':'] + [' '];
    RunCons(m, ':', [' ']);
    RunOne(r, ' ');
  }

  lemma FirstByte(m: Machine, ch: char)
    requires MachineInv(m) && m.stop.Running? && m.ps.state.HeaderValueDiscardWs? && m.nread < MAX_HEADER
    requires ch != ' ' && ch != '\t' && ch != CR && ch != LF && ValueStart(m.ps, ch).next.Advance?
    ensures var q := ValueStart(m.ps, ch).st; q.state.HeaderValue? && q.errno.OK?
    ensures Byte(m, ch) == Moved(m, ValueStart(m.ps, ch).st, Push(m.log, Data(OnHeaderValue, [ch])), 1)
  {
    FirstStep(m.ps, ch);
    hide Step, ValueStart, Byte, StateInv, Push;
    OnePass(m, ch);
  }

  lemma FirstStep(p: Parser, ch: char)
    requires p.state.HeaderValueDiscardWs? && ch != ' ' && ch != '\t' && ch != CR && ch != LF && p.errno.OK?
    ensures Step(p, ch, false) == ValueStart(p, ch) && ValueStart(p, ch).mark == Some(OnHeaderValue)
    ensures var o := ValueStart(p, ch); o.st.state.HeaderValue? && o.flush.None? && o.note.None? && !o.reset
    ensures ValueStart(p, ch).next.Advance? ==> ValueStart(p, ch).st.errno.OK?
  {
    hide LineStart, FieldStep, ValueStep, ValueLws, DiscardLws, HeadersEnd, BodyStart, BodyStep, ResponseLine,
         RequestLine, UrlHead, UrlRest, Lower;
  }

  lemma AlmostDone(p: Parser)
    ensures p.state.HeaderAlmostDone? ==> Step(p, LF, false) == Go(p.(state := HeaderValueLws))
    ensures p.state.HeaderValueDiscardWs? ==> Step(p, CR, false) == Go(p.(state := HeaderValueDiscardWsAlmostDone))
    ensures p.state.HeaderValueDiscardWsAlmostDone? ==> Step(p, LF, false) == Go(p.(state := HeaderValueDiscardLws))
  {
    hide LineStart, FieldStep, ValueStart, ValueStep, ValueLws, DiscardLws, HeadersEnd, BodyStart, BodyStep,
         ResponseLine, RequestLine, UrlHead, UrlRest;
  }

  const CRLF: string := [CR, LF]

  lemma RunLineEnd(m: Machine)
    ensures Run(m, CRLF) == Byte(Byte(m, CR), LF)
  {
    hide Byte;
    assert CRLF == [CR] + [LF];
    RunCons(m, CR, [LF]);
    RunOne(Byte(m, CR), LF);
  }

  lemma LineFeedByte(m: Machine)
    requires m.stop.Running? && m.nread < MAX_HEADER && m.scan.Fresh?
    ensures m.ps.state.HeaderAlmostDone? ==> Byte(m, LF) == Moved(m, m.ps.(state := HeaderValueLws), m.log, 1)
    ensures m.ps.state.HeaderValueDiscardWsAlmostDone? ==>
        Byte(m, LF) == Moved(m, m.ps.(state := HeaderValueDiscardLws), m.log, 1)
  {
    hide Step, Byte;
    AlmostDone(m.ps);
    if m.ps.state.HeaderAlmostDone? {
      GoByte(m, LF, m.ps.(state := HeaderValueLws));
    } else if m.ps.state.HeaderValueDiscardWsAlmostDone? {
      GoByte(m, LF, m.ps.(state := HeaderValueDiscardLws));
    }
  }

  lemma ValueEndByte(m: Machine)
    requires m.stop.Running? && m.ps.state.HeaderValue? && m.nread < MAX_HEADER && !Lost(m)
    requires EndsWith(m.log, OnHeaderValue)
    ensures Byte(m, CR) == Moved(m, m.ps.(state := HeaderAlmostDone), m.log, 1)
  {
    hide Step, Byte, Push;
    ValueEnds(m.ps, m.scan.Skipping?);
    OnePass(m, CR);
    PushNothing(m.log, OnHeaderValue);
  }

  lemma ValueEndRun(m: Machine)
    requires m.stop.Running? && m.ps.state.HeaderValue? && m.nread + 2 <= MAX_HEADER && !Lost(m)
    requires EndsWith(m.log, OnHeaderValue)
    ensures Run(m, CRLF) == Moved(m, m.ps.(state := HeaderValueLws), m.log, 2)
  {
    hide Byte, Run;
    ValueEndByte(m);
    LineFeedByte(Byte(m, CR));
    RunLineEnd(m);
  }

  /** The bytes of a value that the value loop accepts. */
  predicate GoodValue(p: Parser, v: string) {
    && v != "" && v[0] != ' ' && v[0] != '\t' && v[0] != CR && v[0] != LF && ValueStart(p, v[0]).next.Advance?
    && Accepts(ValueStart(p, v[0]).st, v[1..])
  }

  lemma ValueBytes(m: Machine, v: string)
    requires MachineInv(m) && m.stop.Running? && m.ps.state.HeaderValueDiscardWs? && m.nread + |v| < MAX_HEADER
    requires GoodValue(m.ps, v)
    ensures var r := Run(m, v);
      && MachineInv(r) && r.stop.Running? && r.ps == ValueRecord(ValueStart(m.ps, v[0]).st, v[1..])
      && r.ps.state.HeaderValue?
      && r.nread == m.nread + |v| && r.used == m.used + |v| && r.log == Push(m.log, Data(OnHeaderValue, v)) && !Lost(r)
  {
    hide Run, ValueStart, Byte, StateInv, Push, Accepts, ValueRecord;
    var q := ValueStart(m.ps, v[0]).st;
    FirstByte(m, v[0]);
    ByteKeeps(m, v[0]);
    var r := Byte(m, v[0]);
    LoopedStart(r, OnHeaderValue);
    var scan := ValueRun(r, "", q, Fresh, v[1..]);
    assert "" + v[1..] == v[1..] && [v[0]] + v[1..] == v;
    PushTwice(m.log, OnHeaderValue, [v[0]], v[1..]);
    RunCons(m, v[0], v[1..]);
    RunKeeps(m, v);
  }

  /** A non-empty value and its line end, from behind the blank after the colon. */
  lemma ValueLine(m: Machine, v: string)
    requires MachineInv(m) && m.stop.Running? && m.ps.state.HeaderValueDiscardWs? && m.nread + |v| + 2 <= MAX_HEADER
    requires GoodValue(m.ps, v)
    ensures Run(m, v + CRLF) == Moved(m, ValueRecord(ValueStart(m.ps, v[0]).st, v[1..]).(state := HeaderValueLws),
                                      Push(m.log, Data(OnHeaderValue, v)), |v| + 2)
  {
    hide Run, ValueStart, MachineInv, Push, Accepts, ValueRecord, Lost, GoodValue;
    ValueBytes(m, v);
    PushTwice(m.log, OnHeaderValue, v, "");
    RunConcat(m, v, CRLF);
    ValueEndRun(Run(m, v));
  }

  /** An empty value and its line end. */
  lemma EmptyLine(m: Machine)
    requires MachineInv(m) && m.stop.Running? && m.ps.state.HeaderValueDiscardWs? && m.nread + 2 <= MAX_HEADER
    ensures Run(m, CRLF) == Moved(m, m.ps.(state := HeaderValueDiscardLws), m.log, 2)
  {
    hide Byte, Run, StateInv;
    EmptyByte(m);
    LineFeedByte(Byte(m, CR));
    RunLineEnd(m);
  }

  lemma EmptyByte(m: Machine)
    requires m.stop.Running? && m.ps.state.HeaderValueDiscardWs? && m.nread < MAX_HEADER && !m.scan.Skipping?
    ensures Byte(m, CR) == Moved(m, m.ps.(state := HeaderValueDiscardWsAlmostDone), m.log, 1)
  {
    hide Step, Byte;
    AlmostDone(m.ps);
    GoByte(m, CR, m.ps.(state := HeaderValueDiscardWsAlmostDone));
  }

  // ---------- lines ----------

  /** The machine in front of a line, once the end of the header before it has taken effect. */
  function Settle(m: Machine): Machine {
    if m.ps.state.HeaderValueLws?
        then m.(ps := m.ps.(flags := FlagOf(m.ps.flags, m.ps.hstate), state := HeaderFieldStart))
    else if m.ps.state.HeaderValueDiscardLws? then
      m.(ps := m.ps.(flags := FlagOf(m.ps.flags, m.ps.hstate), state := HeaderFieldStart),
        log := Push(m.log, Data(OnHeaderValue, "")))
    else m
  }

  lemma SettleByte(m: Machine, ch: char)
    requires m.stop.Running? && ch != ' ' && ch != '\t' && m.nread < MAX_HEADER
    ensures Byte(m, ch) == Byte(Settle(m), ch)
  {
    hide Settle, Byte;
    if m.ps.state.HeaderValueLws? {
      LwsByte(m, ch);
    } else if m.ps.state.HeaderValueDiscardLws? {
      DiscardLwsByte(m, ch);
    } else {
      assert Settle(m) == m by { NothingToSettle(m); }
    }
  }

  lemma NothingToSettle(m: Machine)
    requires !m.ps.state.HeaderValueLws? && !m.ps.state.HeaderValueDiscardLws?
    ensures Settle(m) == m
  {
  }

  lemma LwsByte(m: Machine, ch: char)
    requires m.stop.Running? && ch != ' ' && ch != '\t' && m.nread < MAX_HEADER && m.ps.state.HeaderValueLws?
    ensures Byte(m, ch) == Byte(Settle(m), ch)
  {
    hide Step, FlagOf, Passes;
    LwsSteps(m.ps, ch, m.scan.Skipping?);
    PassAgain(m.ps, m.nread + 1, m.log, ch, m.scan);
  }

  lemma DiscardLwsByte(m: Machine, ch: char)
    requires m.stop.Running? && ch != ' ' && ch != '\t' && m.nread < MAX_HEADER && m.ps.state.HeaderValueDiscardLws?
    ensures Byte(m, ch) == Byte(Settle(m), ch)
  {
    hide Step, FlagOf, Passes, Push, LogAfter;
    LwsSteps(m.ps, ch, m.scan.Skipping?);
    EmptyLog(m.ps, m.log, ch);
    PassAgain(m.ps, m.nread + 1, m.log, ch, m.scan);
  }

  lemma EmptyLog(p: Parser, log: seq<Event>, ch: char)
    requires p.state.HeaderValueDiscardLws? && ch != ' ' && ch != '\t'
    ensures LogAfter(p.state, log, DiscardLws(p, ch), ch) == Push(log, Data(OnHeaderValue, ""))
  {
    hide FlagOf, Push;
  }

  lemma LwsSteps(p: Parser, ch: char, skip: bool)
    ensures p.state.HeaderValueLws? ==> Step(p, ch, skip) == ValueLws(p, ch)
    ensures p.state.HeaderValueDiscardLws? ==> Step(p, ch, skip) == DiscardLws(p, ch)
  {
    hide LineStart, FieldStep, DiscardWs, ValueStart, ValueStep, ValueLws, DiscardLws, HeadersEnd, BodyStart, BodyStep,
         ResponseLine, RequestLine, UrlHead, UrlRest;
  }

  lemma SettleRun(m: Machine, s: string)
    requires m.stop.Running? && s != "" && s[0] != ' ' && s[0] != '\t' && m.nread < MAX_HEADER
    ensures Run(m, s) == Run(Settle(m), s)
  {
    hide Byte, Settle;
    SettleByte(m, s[0]);
  }

  lemma SettleKeeps(m: Machine)
    requires MachineInv(m) && m.stop.Running?
    ensures MachineInv(Settle(m))
  {
    hide NameInv, ValueInv, MethodString, Push;
  }

  lemma SettleShape(r: Machine)
    ensures var s := Settle(r); s.stop == r.stop && s.scan == r.scan && s.nread == r.nread && s.used == r.used
    ensures r.ps.state.HeaderValueLws? || r.ps.state.HeaderValueDiscardLws? || r.ps.state.HeaderFieldStart? ==>
              Settle(r).ps.state.HeaderFieldStart?
  {
  }
}
