/**
 Two requests that one call accepts and that two calls reject, one for each thing that depends on the cuts.
*/
module HttpBadCut {
  import opened Chars
  import opened HttpTypes
  import opened HttpStep
  import opened HttpSpec
  import opened HttpInvariant
  import opened HttpBulk
  import opened HttpRuns
  import opened HttpNames
  import opened HttpHeaders
  import opened HttpStartLine
  import opened HttpBodies
  import opened HttpRequests
  import opened HttpSplit

  const CONTROL: char := 1 as char

  /** The machine that http_parser_init leaves. */
  function Init0(): Machine { Machine(Init(Request), 0, [], Fresh, 0, Running) }

  /** A request line and the name of one header. */
  function Named(): string { StartLine(GET, "/") + "A: " }

  lemma InitWaits()
    ensures Waiting(Init0()) && Valid(Init(Request), 0, [])
  {
  }

  /** Behind the name: nothing but the header automaton differs from the record behind the request line. */
  lemma AfterName() returns (m: Machine)
    ensures m == Run(Init0(), Named())
    ensures MachineInv(m) && m.stop.Running? && m.scan.Fresh? && m.nread == m.used == |Named()| < 100
    ensures Alike(StartRecord(Init(Request), GET).(state := HeaderValueDiscardWs), m.ps) && FieldState(m.ps.hstate)
    ensures !m.ps.hstate.HConnection? && !m.ps.hstate.HContentLength? && !m.ps.hstate.HTransferEncoding?
    ensures !m.ps.hstate.HUpgrade?
    ensures m.log == [Notify(OnMessageBegin), Data(OnUrl, "/"), Data(OnHeaderField, "A")]
  {
    hide Run, MachineInv, GoodTarget, Push, NameRecord, FieldStart, LowerName, Waiting, Valid;
    var m0, r := Init0(), Req(GET, "/", [], None);
    PathIsGood("/");
    InitWaits();
    ShortHead(r);
    StartLineRecord(m0, r);
    var x := Run(m0, StartLine(GET, "/"));
    OneLetter();
    NameAndColon(x, "A");
    NameAlike(x.ps, "A");
    NamesRecognised(x.ps, "A");
    RunConcat(m0, StartLine(GET, "/"), "A: ");
    assert "A" + ": " == "A: ";
    m := Run(m0, Named());
    RunKeeps(m0, Named()) by { Waits(m0); }
    PushNew(x.log, Data(OnHeaderField, "A"));
  }

  lemma Waits(m: Machine)
    requires Waiting(m)
    ensures MachineInv(m)
  {
  }

  lemma ShortHead(r: Req)
    requires r == Req(GET, "/", [], None) && GoodTarget("/")
    ensures GoodReq(r) && |StartLine(GET, "/")| < 50
  {
  }

  lemma OneLetter()
    ensures LowerName("A") == "a" && IsName("A")
  {
  }

  // ---------- a control byte that a jump passes ----------

  /** The text in front of the cut, in the middle of a header value; and the rest of the request. */
  function Before(): string { Named() + "xy" }

  function After(): string { [CONTROL] + CRLF + CRLF }

  /** The record inside an uninteresting value. */
  predicate InPlainValue(q: Parser) {
    Alike(StartRecord(Init(Request), GET).(state := HeaderValue), q) && q.hstate.HGeneral?
  }

  /** Behind the first byte of a value. */
  lemma OneByte() returns (y: Machine, z: Machine)
    ensures y == Run(Init0(), Named()) && z == Run(y, ['x']) && MachineInv(z) && z.stop.Running? && z.scan.Fresh?
    ensures y.nread == y.used == |Named()| < 100 && z.nread == z.used == y.nread + 1 && InPlainValue(z.ps)
    ensures y.log == [Notify(OnMessageBegin), Data(OnUrl, "/"), Data(OnHeaderField, "A")]
    ensures z.log == Push(y.log, Data(OnHeaderValue, ['x']))
  {
    hide Run, MachineInv, ValueStart, Push, StartLine;
    y := AfterName();
    PlainStart(y.ps, 'x');
    FirstByte(y, 'x');
    z := Byte(y, 'x');
    RunOne(y, 'x');
    ByteKeeps(y, 'x');
  }

  /** Behind two bytes of a value, the parser is carried by a jump. */
  lemma TwoBytes(ch: char) returns (q: Parser, y: Machine)
    requires IsHeaderChar(ch) && ch != CR && ch != LF
    ensures y == Run(Init0(), Named()) && InPlainValue(q)
    ensures y.nread == y.used == |Named()| < 100
    ensures y.log == [Notify(OnMessageBegin), Data(OnUrl, "/"), Data(OnHeaderField, "A")]
    ensures Run(y, ['x', ch]) == Machine(q, y.nread + 2, Push(y.log, Data(OnHeaderValue, ['x', ch])), Skipping(1),
        y.used + 2, Running)
    ensures Run(Init0(), Named() + ['x', ch]) == Run(y, ['x', ch])
  {
    hide Run, MachineInv, ValueByte, IsHeaderChar, Push, StartLine;
    var z;
    y, z := OneByte();
    q := z.ps;
    LoopedStart(z, OnHeaderValue);
    PlainByte(q, ch);
    ValueLoopByte(z, "", q, Fresh, ch);
    assert "" + [ch] == [ch] && ['x'] + [ch] == ['x', ch];
    PushTwice(y.log, OnHeaderValue, ['x'], [ch]);
    RunConcat(y, ['x'], [ch]);
    RunConcat(Init0(), Named(), ['x', ch]);
  }

  /** The jump also passes the control byte. */
  lemma ControlPasses(y: Machine, q: Parser)
    requires y.stop.Running? && InPlainValue(q) && y.nread < 100
    requires Run(y, "xy") == Machine(q, y.nread + 2, Push(y.log, Data(OnHeaderValue, "xy")), Skipping(1), y.used + 2,
        Running)
    ensures Run(y, "xy" + [CONTROL])
      == Machine(q, y.nread + 3, Push(y.log, Data(OnHeaderValue, "xy" + [CONTROL])), Skipping(2), y.used + 3, Running)
  {
    hide Run, ValueByte, IsHeaderChar, Push, MethodString;
    PlainByte(q, CONTROL);
    ValueLoopByte(y, "xy", q, Skipping(1), CONTROL);
  }

  lemma InsideValue() returns (q: Parser, y: Machine)
    ensures y == Run(Init0(), Named()) && InPlainValue(q)
    ensures y.nread == y.used == |Named()| < 100
    ensures y.log == [Notify(OnMessageBegin), Data(OnUrl, "/"), Data(OnHeaderField, "A")]
    ensures var v := Data(OnHeaderValue, "xy");
      Run(Init0(), Before()) == Machine(q, y.nread + 2, Push(y.log, v), Skipping(1), y.used + 2, Running)
    ensures var v := Data(OnHeaderValue, "xy" + [CONTROL]);
      Run(Init0(), Before() + [CONTROL]) == Machine(q, y.nread + 3, Push(y.log, v), Skipping(2), y.used + 3, Running)
  {
    hide Run, IsHeaderChar, Push, StartLine, InPlainValue;
    PlainBytes();
    q, y := TwoBytes('y');
    assert ['x', 'y'] == "xy";
    if !y.stop.Running? { RunStopped(y, "xy"); }
    ControlPasses(y, q);
    RunConcat(Init0(), Named(), "xy" + [CONTROL]);
    assert Before() + [CONTROL] == Named() + ("xy" + [CONTROL]);
  }

  lemma PlainBytes()
    ensures IsHeaderChar('x') && IsHeaderChar('y') && !IsHeaderChar(CONTROL)
  {
  }

  lemma PlainByte(q: Parser, ch: char)
    requires q.hstate.HGeneral?
    ensures ValueByte(q, ch) == q
  {
  }

  /** What the callbacks report of the whole request. */
  function Reported(): seq<Event> {
    [Notify(OnMessageBegin), Data(OnUrl, "/"), Data(OnHeaderField, "A"), Data(OnHeaderValue, "xy" + [CONTROL]),
     Notify(OnHeadersComplete), Notify(OnMessageComplete)]
  }

  /** A head of this record ends a request without a body. */
  lemma HeadOnly(p: Parser, h: Parser)
    requires Alike(StartRecord(Init(Request), GET).(state := HeaderFieldStart), p) && h == HeadDone(p)
    ensures SimpleHead(p) && h.clen == ULLONG_MAX && !NeedsEof(h) && NewMessage(h).StartReq?
  {
    hide MethodString;
  }

  lemma LineEnds(m: Machine)
    requires m.ps.state.HeaderValueLws? && m.ps.hstate.HGeneral?
    ensures Settle(m) == m.(ps := m.ps.(state := HeaderFieldStart))
  {
  }

  /** One call reads the whole request. */
  lemma ReadWhole()
    ensures var r := Run(Init0(), Before() + After());
      r.stop.Running? && r.scan.Fresh? && r.ps.state.StartReq? && r.log == Reported() && r.nread == 0
  {
    hide Run, MachineInv, Push, StartLine, NeedsEof, NewMessage, Settle;
    var q, y := InsideValue();
    var m := Run(Init0(), Before() + [CONTROL]);
    PushEnds(y.log, OnHeaderValue, "xy" + [CONTROL]);
    ValueEndRun(m);
    var x := Run(m, CRLF);
    LineEnds(x);
    InitWaits();
    Waits(Init0());
    RunKeeps(Init0(), Before() + [CONTROL]);
    RunKeeps(m, CRLF);
    HeadOnly(Settle(x).ps, HeadDone(Settle(x).ps));
    CloseRun(x);
    RunConcat(m, CRLF, CRLF);
    RunConcat(Init0(), Before() + [CONTROL], CRLF + CRLF);
    assert Before() + After() == (Before() + [CONTROL]) + (CRLF + CRLF);
    var log := m.log;
    PushNew(y.log, Data(OnHeaderValue, "xy" + [CONTROL]));
    PushNew(log, Notify(OnHeadersComplete));
    PushNew(log + [Notify(OnHeadersComplete)], Notify(OnMessageComplete));
  }

  /**
   The first exception to split invariance: a GET request with a control byte in a header value is read to its end by
   one call, and refused by two calls when the second begins with the control byte.
  */
  lemma CutMatters()
    ensures var whole := Call(Init(Request), 0, [], Before() + After());
      whole.stop.Running? && whole.ps.state.StartReq? && whole.log == Reported()
    ensures var first := Call(Init(Request), 0, [], Before());
      first.stop.Running? && NextCall(first, After()).stop.Failed?
        && NextCall(first, After()).ps.errno.InvalidHeaderToken?
  {
    hide Run, StartLine, MachineInv, Valid, Waiting, Push, SurplusAfter, CountsFit;
    var q, y := InsideValue();
    ReadWhole();
    InitWaits();
    PlainBytes();
    assert Before() + After() != "" && Before() != "" && After() != "" && After()[0] == CONTROL;
    SplitOnce(Init(Request), 0, [], Before(), After());
  }

  // ---------- a full header count ----------

  /** As long as every byte has counted, the surplus has stayed. */
  lemma {:induction false} FitsAt(a: Machine, e: nat, begins: bool, data: string, j: nat)
    requires CountsFit(a, e, begins, data) && j < |data| && Run(a, data[..j]).nread == a.nread + j
    ensures Fits(Run(a, data[..j]), e, begins && j == 0, data[j])
    decreases |data|
  {
    hide Byte, Fits;
    if j > 0 {
      var a' := Byte(a, data[0]);
      assert data[..j][0] == data[0] && data[..j][1..] == data[1..][..j - 1];
      ByteCounts(a, data[0]);
      RunCounts(a', data[1..][..j - 1]);
      FitsAt(a', Surplus(e, a'), false, data[1..], j - 1);
    }
  }

  /** In front of the line feed that ends a head of n bytes, n - 1 bytes have been counted. */
  lemma BeforeLast(r: Req) returns (x: Machine)
    requires GoodReq(r)
    ensures x == Run(Init0(), StartLine(r.meth, r.target) + HeadersText(r.headers) + [CR])
    ensures x.ps.state.HeadersAlmostDone? && x.scan.Fresh? && x.nread == |HeadText(r)| - 1
  {
    hide Run, StartLine, HeadersText, Settle, MachineInv, Byte, Step, GoodTarget, GoodHeader, Push;
    var lines := StartLine(r.meth, r.target) + HeadersText(r.headers);
    InitWaits();
    LinesRecord(Init0(), r);
    var y := Run(Init0(), lines);
    SettleShape(y);
    CloseSteps(Settle(y).ps);
    SettleByte(y, CR);
    OnePass(Settle(y), CR);
    RunSnoc(Init0(), lines, CR);
    x := Byte(y, CR);
  }

  /**
   The second exception: a good request whose head has exactly as many bytes as the header limit allows is accepted
   whole, but a cut inside one of its names or values makes the second call overflow.
  */
  lemma CutOverflows(r: Req, A: string, B: string)
    requires GoodReq(r) && r.body.None? && |HeadText(r)| == MAX_HEADER && A + B == HeadText(r) && A != "" && B != ""
    requires !Run(Init0(), A).scan.Fresh? && !BadCut(Run(Init0(), A).ps, B[0])
    ensures var whole := Call(Init(Request), 0, [], A + B); whole.stop.Running? && whole.log == Events(r)
    ensures var first := Call(Init(Request), 0, [], A); first.stop.Running? ==> Overflown(NextCall(first, B))
  {
    hide Run, StartLine, HeadersText, MachineInv, GoodReq, BadCut, Fits, Valid, SurplusAfter, CountsFit, Events;
    OneRequest(r);
    InitWaits();
    SplitOnce(Init(Request), 0, [], A, B);
    var a, j := Run(Init0(), A), |B| - 1;
    var x := BeforeLast(r);
    var init := StartLine(r.meth, r.target) + HeadersText(r.headers) + [CR];
    assert HeadText(r) == init + [LF];
    assert A + B[..j] == init && B[j] == LF by {
      assert (A + B)[..|A| + j] == A + B[..j];
      assert (A + B)[|A| + j] == B[j];
    }
    RunConcat(Init0(), A, B[..j]);
    RunCounts(Init0(), A);
    RunCounts(a, B[..j]);
    if CountsFit(a, 1, true, B) {
      FitsAt(a, 1, true, B, j);
      Full(x, j == 0);
      assert false;
    }
  }

  lemma Full(x: Machine, begins: bool)
    requires x.ps.state.HeadersAlmostDone? && x.scan.Fresh? && x.nread == MAX_HEADER - 1
    ensures !Fits(x, 1, begins, LF)
  {
  }

  lemma OneRequest(r: Req)
    requires GoodReq(r) && r.body.None?
    ensures var m := Call(Init(Request), 0, [], HeadText(r)); m.stop.Running? && m.log == Events(r)
  {
    hide Run, GoodReq, Events, HeadText, Call;
    assert Texts([r]) == HeadText(r) by {
      assert [r][1..] == [];
      assert Texts([r]) == Text(r) + "";
      assert BodyText(r) == "" && Text(r) == HeadText(r) + "";
    }
    assert AllEvents([r]) == Events(r) by {
      assert [r][1..] == [];
      assert AllEvents([r]) == Events(r) + [];
    }
    PipelinedRoundTrip([r]);
  }

  /** A request whose value fills the head up to the limit. */
  function Longest(): Req { Req(GET, "/", [Header("A", seq(MAX_HEADER - 23, _ => 'x'))], None) }

  lemma LongestIsGood()
    ensures GoodReq(Longest()) && |HeadText(Longest())| == MAX_HEADER
  {
    hide GoodTarget, LowerName, IsToken, IsHeaderChar, StartLine, HeadText, HeadersText;
    var h := Longest().headers[0];
    PathIsGood("/");
    OneLetter();
    PlainBytes();
    LongestText();
    LongestLengths(h);
    StartLength();
  }

  lemma LongestLengths(h: Header)
    requires !IsLengthName(h.name)
    ensures LengthHeaders([h]) == 0
  {
    hide LowerName;
    assert [h][..0] == [];
    assert LengthHeaders([]) == 0;
  }

  lemma LongestText()
    ensures HeadText(Longest()) == (Named() + ['x', 'x']) + (seq(MAX_HEADER - 25, _ => 'x') + CRLF + CRLF)
  {
    hide StartLine, HeadersText;
    var h, x := Longest().headers[0], seq(MAX_HEADER - 25, _ => 'x');
    assert h.value == ['x', 'x'] + x;
    OneHeader(h);
    var first := StartLine(GET, "/");
    assert HeaderText(h) == "A: " + (['x', 'x'] + x) + CRLF;
    assert first + ("A: " + (['x', 'x'] + x) + CRLF) + CRLF == (first + "A: " + ['x', 'x']) + (x + CRLF + CRLF);
  }

  lemma OneHeader(h: Header)
    ensures HeadersText([h]) == HeaderText(h)
  {
    assert [h][..0] == [];
    assert HeadersText([]) == "";
    assert "" + HeaderText(h) == HeaderText(h);
  }

  lemma StartLength()
    ensures |StartLine(GET, "/")| == 16
  {
  }

  /** Cut in the middle of that value, the request that one call accepts overflows in the second of two. */
  lemma CutFills()
    ensures var A, B := Named() + ['x', 'x'], seq(MAX_HEADER - 25, _ => 'x') + CRLF + CRLF;
      && Call(Init(Request), 0, [], A + B).stop.Running? && Completed(Call(Init(Request), 0, [], A + B).log) == 1
      && var first := Call(Init(Request), 0, [], A); first.stop.Running? && Overflown(NextCall(first, B))
  {
    hide Run, StartLine, GoodReq, IsHeaderChar, Push, HeadText, Events;
    var A, B := Named() + ['x', 'x'], seq(MAX_HEADER - 25, _ => 'x') + CRLF + CRLF;
    PlainBytes();
    LongestIsGood();
    LongestText();
    var q, y := TwoBytes('x');
    assert B[0] == 'x';
    CutOverflows(Longest(), A, B);
    OneCompleted(Longest());
  }
}
