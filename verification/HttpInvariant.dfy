/** What every reachable parser state satisfies, and that no assert of http_parser_execute can fail. */
module HttpInvariant {
  import opened Chars
  import opened HttpTypes
  import opened HttpStep
  import opened HttpSpec

  /** The header states that occur while a header value is read. */
  predicate ValueState(h: HeaderState) {
    h.HGeneral? || h.HContentLength? || h.HMatchingChunked? || h.HMatchingTokenStart? || h.HMatchingKeepAlive?
    || h.HMatchingClose? || h.HMatchingConnUpgrade? || h.HMatchingToken? || h.HChunked?
    || h.HConnKeepAlive? || h.HConnClose? || h.HConnUpgrade?
  }

  /** The largest chunk size and the largest Content-Length that pass the overflow tests. */
  const MAX_CHUNK: nat := ULLONG_MAX - 16
  const MAX_LENGTH: nat := ULLONG_MAX - 6

  /** While a name is read: a matcher stands strictly before the last letter of its word. */
  predicate NameInv(p: Parser) {
    && FieldState(p.hstate)
    && (MatchingName(p.hstate) ==> p.index + 1 < |Word(p.hstate)|)
    && (p.hstate.HC? ==> p.index == 0) && (p.hstate.HCo? ==> p.index == 1) && (p.hstate.HCon? ==> p.index == 2)
  }

  /** While a value is read. */
  predicate ValueInv(p: Parser) {
    && ValueState(p.hstate)
    && (MatchingValue(p.hstate) ==> p.index + 1 < |Word(p.hstate)|)
    && (p.hstate.HMatchingTokenStart? ==> p.index == 0)
    && (p.hstate.HContentLength? ==> p.clen <= MAX_LENGTH)
  }

  predicate AfterName(s: State) {
    s.HeaderValueDiscardWs? || s.HeaderValueDiscardWsAlmostDone? || s.HeaderValueDiscardLws?
  }

  predicate AfterValue(s: State) { s.HeaderValueStart? || s.HeaderAlmostDone? || s.HeaderValueLws? }

  predicate ChunkState(s: State) {
    s.ChunkSizeStart? || s.ChunkSize? || s.ChunkParameters? || s.ChunkSizeAlmostDone?
    || s.ChunkData? || s.ChunkDataAlmostDone? || s.ChunkDataDone?
  }

  /** The invariant of each state. */
  predicate StateInv(p: Parser) {
    && (p.state.ReqMethod? ==> p.index <= |MethodString(p.meth)|)
    && (p.state.HeaderField? ==> NameInv(p))
    && (AfterName(p.state) ==> FieldState(p.hstate))
    && (p.state.HeaderValue? ==> ValueInv(p))
    && (AfterValue(p.state) ==> ValueState(p.hstate))
    && (ChunkState(p.state) ==> p.flags.chunked)
    && (p.state.ChunkSize? || p.state.ChunkParameters? || p.state.ChunkSizeAlmostDone? ==> p.clen <= MAX_CHUNK)
    && (p.state.ChunkData? || p.state.BodyIdentity? ==> HasLength(p))
    && (p.state.ChunkDataAlmostDone? ==> p.clen == 0)
  }

  /** The invariant. `index` and `status` fit the bits that the C record gives them. */
  predicate Inv(p: Parser) {
    p.errno.OK? && p.status <= 999 && p.index <= 20 && p.clen <= ULLONG_MAX && StateInv(p)
  }

  /** At a chunk size the header count is exactly the bytes of this line that were read. */
  predicate CountInv(s: State, nread: nat, n: nat) { s.ChunkSizeStart? ==> nread == n }

  /** An open data span is always the last event of the log. */
  predicate LogInv(s: State, log: seq<Event>) {
    OpenOf(s).Some? ==> EndsWith(log, OpenOf(s).value)
  }

  /** The scan and the counter: outside the header loops the size limit holds; a jump has been counted. */
  predicate ScanInv(m: Machine) {
    && (m.scan.Fresh? ==> m.nread <= MAX_HEADER)
    && (!m.scan.Fresh? ==> (m.ps.state.HeaderField? || m.ps.state.HeaderValue?) && m.nread > 0)
    && (m.scan.Skipping? ==> m.ps.state.HeaderValue? && m.ps.hstate.HGeneral? && m.scan.run <= m.nread)
  }

  predicate MachineInv(m: Machine) {
    && !m.stop.Aborted?
    && (m.stop.Running? ==> Inv(m.ps) && CountInv(m.ps.state, m.nread, 0) && LogInv(m.ps.state, m.log) && ScanInv(m))
    && (m.stop.Failed? ==> !m.ps.errno.OK?)
    && (m.stop.Upgraded? ==>
          && Inv(m.ps) && CountInv(m.ps.state, m.nread, 0) && m.nread <= MAX_HEADER
          && m.ps.upgrade && OpenOf(m.ps.state).None?)
    && (!m.scan.Fresh? ==> m.stop.Running?)
  }

  /** What one pass guarantees: no failed assert, and the invariant again unless the pass rejects the byte. */
  predicate Kept(o: Outcome) {
    && !o.next.Fault?
    && (!o.next.Fail? ==> Inv(o.st))
    && (o.st.state.ChunkSizeStart? ==> o.next.Fail? || (o.next.Advance? && o.reset))
    && (o.next.Again? ==> !o.st.state.HeaderField? && !o.st.state.HeaderValue?)
    && (o.next.Fail? ==> !o.st.errno.OK?)
    && (o.next.Exit? ==> o.st.upgrade && OpenOf(o.st.state).None?)
  }

  /** States that the invariant says nothing about. */
  predicate Plain(s: State) {
    && !s.ReqMethod? && !s.HeaderField? && !AfterName(s) && !s.HeaderValue? && !AfterValue(s) && !ChunkState(s)
    && !s.BodyIdentity?
  }

  /** A pass that ends in such a state, with its counters in range. */
  predicate PlainPass(p: Parser, o: Outcome) {
    && (o.next.Advance? || o.next.Again? || o.next.Fail?)
    && (o.next.Fail? ==> !o.st.errno.OK?)
    && (!o.next.Fail? ==> o.st.errno.OK? && o.st.status <= 999 && o.st.index <= 20 && o.st.clen <= ULLONG_MAX)
    && Plain(o.st.state)
  }

  lemma PlainKeeps(p: Parser, o: Outcome)
    requires Inv(p) && PlainPass(p, o)
    ensures Kept(o)
  {
    hide NameInv, ValueInv, MethodString;
  }

  lemma StatusKeeps(p: Parser, ch: char)
    requires Inv(p)
    ensures p.state.ResStatusCode? ==> PlainPass(p, StatusDigit(p, ch))
    ensures p.state.ResStatus? ==> PlainPass(p, StatusText(p, ch))
    ensures p.state.StartRes? ==> PlainPass(p, ResponseStart(p, ch))
  {
    hide StateInv;
  }

  lemma ResponseLineKeeps(p: Parser, ch: char)
    requires Inv(p) && IsResponseLine(p.state)
    ensures Kept(ResponseLine(p, ch))
  {
    hide StateInv, Kept, StatusDigit, StatusText, ResponseStart, ResponseLine, PlainPass;
    if IsVersion(p.state) {
      VersionPlain(p, ch);
    } else {
      StatusPlain(p, ch);
    }
    PlainKeeps(p, ResponseLine(p, ch));
  }

  lemma VersionPlain(p: Parser, ch: char)
    requires Inv(p) && IsVersion(p.state)
    ensures PlainPass(p, ResponseLine(p, ch))
  {
    hide StateInv, StatusDigit, StatusText, ResponseStart, IsNum, Digit;
    DigitFits(ch);
  }

  lemma DigitFits(ch: char)
    ensures IsNum(ch) ==> Digit(ch) < 10
  {
  }

  lemma StatusPlain(p: Parser, ch: char)
    requires Inv(p) && IsResponseLine(p.state) && !IsVersion(p.state)
    ensures PlainPass(p, ResponseLine(p, ch))
  {
    hide StateInv, StatusDigit, StatusText, ResponseStart, IsNum, Digit;
    DigitFits(ch);
    StatusKeeps(p, ch);
  }

  /** The states between "HTTP" and the status code. */
  predicate IsVersion(s: State) {
    s.ResH? || s.ResHT? || s.ResHTT? || s.ResHTTP? || s.ResHttpMajor? || s.ResHttpDot? || s.ResHttpMinor?
      || s.ResHttpEnd?
  }

  /** Corrections happen within the first five letters. */
  lemma ReguessEarly(m: Method, i: nat, ch: char)
    requires Reguess(m, i, ch).Some?
    ensures var g := Reguess(m, i, ch).value; i <= 2 || g.MKCALENDAR? || g.UNLINK? || g.PROPPATCH?
    ensures i <= 4
  {
  }

  lemma LongMethods()
    ensures |MethodString(MKCALENDAR)| == 10 && |MethodString(UNLINK)| == 6 && |MethodString(PROPPATCH)| == 9
  {
  }

  lemma ReguessFits(m: Method, i: nat, ch: char)
    requires Reguess(m, i, ch).Some?
    ensures i < |MethodString(Reguess(m, i, ch).value)| <= 12
  {
    hide MethodString, Reguess;
    ReguessEarly(m, i, ch);
    MethodFits(Reguess(m, i, ch).value);
    LongMethods();
  }

  lemma MethodFits(m: Method)
    ensures 3 <= |MethodString(m)| <= 12
  {
  }

  /** While a method is read, this is the whole invariant. */
  lemma MethodIsInv(q: Parser)
    requires q.state.ReqMethod? && q.index <= |MethodString(q.meth)| && q.errno.OK? && q.status <= 999 && q.index <= 20
    requires q.clen <= ULLONG_MAX
    ensures Inv(q)
  {
    hide NameInv, ValueInv, MethodString;
  }

  lemma MethodInv(p: Parser)
    requires Inv(p) && p.state.ReqMethod?
    ensures p.index <= |MethodString(p.meth)|
  {
    hide NameInv, ValueInv, MethodString;
  }

  lemma MethodKeeps(p: Parser, ch: char)
    requires Inv(p) && p.state.ReqMethod?
    ensures Kept(MethodStep(p, ch))
  {
    hide MethodString, Reguess, StateInv;
    MethodInv(p);
    MethodFits(p.meth);
    if Reguess(p.meth, p.index, ch).Some? {
      ReguessFits(p.meth, p.index, ch);
    }
    var o := MethodStep(p, ch);
    if o.next.Advance? {
      if o.st.state.ReqMethod? { MethodIsInv(o.st); } else { assert Inv(o.st) by { PlainIsInv(o.st); } }
    }
  }

  lemma PlainIsInv(q: Parser)
    requires Plain(q.state) && q.errno.OK? && q.status <= 999 && q.index <= 20 && q.clen <= ULLONG_MAX
    ensures Inv(q)
  {
    hide NameInv, ValueInv, MethodString;
  }

  lemma UrlCloses(s: State, ch: char)
    ensures var t := ParseUrlChar(s, ch); t.Dead? || IsUrlState(t)
  {
    hide IsUserinfoChar, IsUrlChar, IsAlpha;
  }

  lemma UrlKeeps(p: Parser, ch: char)
    requires Inv(p) && IsUrlState(p.state)
    ensures Kept(UrlRest(p, ch)) && Kept(UrlHead(p, ch))
  {
    hide ParseUrlChar, StateInv, Kept;
    UrlCloses(p.state, ch);
    PlainKeeps(p, UrlRest(p, ch));
    PlainKeeps(p, UrlHead(p, ch));
  }

  lemma UrlFirstKeeps(p: Parser, ch: char)
    requires Inv(p) && p.state.ReqSpacesBeforeUrl?
    ensures Kept(UrlFirst(p, ch))
  {
    hide ParseUrlChar, StateInv, Kept;
    UrlCloses(p.state, ch);
    UrlCloses(ReqServerStart, ch);
    PlainKeeps(p, UrlFirst(p, ch));
  }

  lemma RequestStartKeeps(p: Parser, ch: char)
    requires Inv(p) && p.state.StartReq?
    ensures Kept(RequestStart(p, ch))
  {
    hide StateInv, MethodString, IsAlpha;
    var o := RequestStart(p, ch);
    if FirstGuess(ch).Some? { MethodFits(FirstGuess(ch).value); }
    if o.next.Advance? {
      if o.st.state.ReqMethod? { MethodIsInv(o.st); } else { PlainIsInv(o.st); }
    }
  }

  lemma EitherKeeps(p: Parser, ch: char)
    requires Inv(p) && p.state.ResOrRespH?
    ensures Kept(RequestLine(p, ch))
  {
    hide StateInv, MethodString;
    var o := RequestLine(p, ch);
    MethodFits(HEAD);
    if o.next.Advance? {
      if o.st.state.ReqMethod? { MethodIsInv(o.st); } else { PlainIsInv(o.st); }
    }
  }

  /** The states of a request line that are only about its version: the letters, and the rest. */
  predicate IsHttpWord(s: State) { s.ReqHttpStart? || s.ReqHttpH? || s.ReqHttpHT? || s.ReqHttpHTT? || s.ReqHttpHTTP? }

  predicate IsReqVersion(s: State) {
    s.ReqHttpMajor? || s.ReqHttpDot? || s.ReqHttpMinor? || s.ReqHttpEnd? || s.ReqLineAlmostDone?
  }

  lemma RequestLineKeeps(p: Parser, ch: char)
    requires Inv(p) && !IsResponseLine(p.state) && !IsHeader(p.state) && !IsBody(p.state) && !IsUrlState(p.state)
    ensures Kept(RequestLine(p, ch))
  {
    hide MethodStep, UrlFirst, RequestStart, EitherStart, StateInv, Kept, RequestLine, PlainPass;
    RequestLineIs(p, ch);
    if p.state.ReqMethod? {
      MethodKeeps(p, ch);
    } else if p.state.StartReq? {
      RequestStartKeeps(p, ch);
    } else if p.state.ResOrRespH? {
      EitherKeeps(p, ch);
    } else if p.state.ReqSpacesBeforeUrl? {
      UrlFirstKeeps(p, ch);
    } else if IsHttpWord(p.state) {
      HttpWordPlain(p, ch);
      PlainKeeps(p, RequestLine(p, ch));
    } else if IsReqVersion(p.state) {
      ReqVersionPlain(p, ch);
      PlainKeeps(p, RequestLine(p, ch));
    } else {
      RequestLinePlain(p, ch);
      PlainKeeps(p, RequestLine(p, ch));
    }
  }

  lemma RequestLineIs(p: Parser, ch: char)
    ensures p.state.ReqMethod? ==> RequestLine(p, ch) == MethodStep(p, ch)
    ensures p.state.StartReq? ==> RequestLine(p, ch) == RequestStart(p, ch)
    ensures p.state.ReqSpacesBeforeUrl? ==> RequestLine(p, ch) == UrlFirst(p, ch)
  {
    hide MethodStep, UrlFirst, RequestStart, EitherStart, IsNum, Digit;
  }

  lemma HttpWordPlain(p: Parser, ch: char)
    requires Inv(p) && IsHttpWord(p.state)
    ensures PlainPass(p, RequestLine(p, ch))
  {
    hide MethodStep, UrlFirst, RequestStart, EitherStart, StateInv, IsNum, Digit;
  }

  lemma ReqVersionPlain(p: Parser, ch: char)
    requires Inv(p) && IsReqVersion(p.state)
    ensures PlainPass(p, RequestLine(p, ch))
  {
    hide MethodStep, UrlFirst, RequestStart, EitherStart, StateInv, IsNum, Digit;
    DigitFits(ch);
  }

  lemma RequestLinePlain(p: Parser, ch: char)
    requires Inv(p) && (p.state.Dead? || p.state.StartReqOrRes?)
    ensures PlainPass(p, RequestLine(p, ch))
  {
    hide MethodStep, UrlFirst, RequestStart, StateInv;
  }

  /** While a name is read, this is the whole invariant. */
  lemma NameIsInv(q: Parser)
    requires q.state.HeaderField? && NameInv(q) && q.errno.OK? && q.status <= 999 && q.index <= 20
    requires q.clen <= ULLONG_MAX
    ensures Inv(q)
  {
    hide NameInv, ValueInv, MethodString;
  }

  lemma NameOf(p: Parser)
    requires Inv(p) && p.state.HeaderField?
    ensures NameInv(p)
  {
    hide NameInv, ValueInv, MethodString;
  }

  lemma FieldByteName(p: Parser, c: char)
    requires NameInv(p)
    ensures NameInv(FieldByte(p, c)) && FieldByte(p, c).index <= p.index + 1
    ensures MatchingName(p.hstate) ==> p.index < 17
  {
  }

  lemma FieldByteKeeps(p: Parser, c: char)
    requires Inv(p) && p.state.HeaderField?
    ensures Inv(FieldByte(p, c))
  {
    hide NameInv, StateInv, FieldByte;
    NameOf(p);
    FieldByteName(p, c);
    IndexBound(p, c);
    NameIsInv(FieldByte(p, c));
  }

  lemma IndexBound(p: Parser, c: char)
    requires NameInv(p) && p.index <= 20
    ensures FieldByte(p, c).index <= 20
  {
    hide Word;
  }

  lemma FieldKeeps(p: Parser, ch: char)
    requires Inv(p) && p.state.HeaderField?
    ensures Kept(FieldStep(p, ch))
  {
    hide FieldByte, Token, Word, ValueInv, MethodString;
    FieldByteKeeps(p, Token(ch));
  }

  lemma FirstLetterName(p: Parser, c: char)
    ensures NameInv(FieldStart(p, c))
  {
  }

  lemma LineStartKeeps(p: Parser, ch: char)
    requires Inv(p) && p.state.HeaderFieldStart?
    ensures Kept(LineStart(p, ch))
  {
    hide Token, NameInv, StateInv, MethodString;
    var o := LineStart(p, ch);
    FirstLetterName(p, Token(ch));
    if o.next.Advance? && IsToken(ch) && ch != CR {
      NameIsInv(o.st);
    } else if !o.next.Fail? {
      PlainIsInv(o.st);
    }
  }

  /** An accepted digit never wraps and stays in range. */
  lemma DecimalExact(p: Parser, d: nat)
    requires p.errno.OK? && d < 10
    ensures var q := AddDecimal(p, d); q.errno.OK? <==> p.clen <= (ULLONG_MAX - 10) / 10
    ensures var q := AddDecimal(p, d); q.errno.OK? ==> q == p.(clen := p.clen * 10 + d) && q.clen <= MAX_LENGTH
  {
  }

  lemma HexExact(p: Parser, d: nat)
    requires p.errno.OK? && d < 16
    ensures var q := AddHex(p, d); q.errno.OK? <==> p.clen <= (ULLONG_MAX - 16) / 16
    ensures var q := AddHex(p, d); q.errno.OK? ==> q == p.(clen := p.clen * 16 + d) && q.clen <= MAX_CHUNK
  {
  }

  lemma MatchKeeps(p: Parser, c: char, miss: HeaderState)
    requires Inv(p) && p.state.HeaderValue? && MatchingValue(p.hstate)
    requires miss.HGeneral? || miss.HMatchingToken?
    ensures Inv(Match(p, c, miss))
  {
    hide NameInv, MethodString;
  }

  lemma ValueByteKeeps(p: Parser, ch: char)
    requires Inv(p) && p.state.HeaderValue?
    ensures var q := ValueByte(p, ch); q.errno.OK? ==> Inv(q)
    ensures !p.hstate.HConnection? && !p.hstate.HTransferEncoding?
  {
    hide Match, Lower, Token, AddDecimal, NameInv, MethodString;
    if IsNum(ch) { DecimalExact(p, Digit(ch)); }
    if MatchingValue(p.hstate) {
      MatchKeeps(p, Lower(ch), if p.hstate.HMatchingChunked? then HGeneral else HMatchingToken);
    }
  }

  lemma WordsAreLong(h: HeaderState)
    requires MatchingName(h) || MatchingValue(h)
    ensures |Word(h)| >= 5
  {
  }

  lemma ValueStartKeeps(p: Parser, ch: char)
    requires Inv(p) && (FieldState(p.hstate) || ValueState(p.hstate))
    ensures Kept(ValueStart(p, ch))
  {
    hide Lower, Word, NameInv, ValueInv, StateInv, MethodString;
    var o := ValueStart(p, ch);
    if o.next.Advance? {
      FirstValueInv(p, ch);
      ValueIsInv(o.st);
    }
  }

  /** The record after a first byte that is accepted. */
  lemma FirstValueInv(p: Parser, ch: char)
    requires (FieldState(p.hstate) || ValueState(p.hstate)) && ValueStart(p, ch).next.Advance?
    ensures ValueInv(ValueStart(p, ch).st)
  {
    hide Lower, Word;
    var h := ValueStart(p, ch).st.hstate;
    if MatchingValue(h) { WordsAreLong(h); }
  }

  /** For a record inside a value, this is the whole invariant. */
  lemma ValueIsInv(q: Parser)
    requires q.state.HeaderValue? && ValueInv(q) && q.errno.OK? && q.status <= 999 && q.index <= 20
    requires q.clen <= ULLONG_MAX
    ensures Inv(q)
  {
    hide NameInv, ValueInv, MethodString;
  }

  lemma ValueKeeps(p: Parser, ch: char, skip: bool)
    requires Inv(p) && p.state.HeaderValue?
    ensures Kept(ValueStep(p, ch, skip))
  {
    hide ValueByte, IsHeaderChar, NameInv, Word, MethodString;
    ValueByteKeeps(p, ch);
  }

  lemma AfterValueKeeps(p: Parser, ch: char)
    requires Inv(p)
    ensures p.state.HeaderValueDiscardWs? ==> Kept(DiscardWs(p, ch))
  {
    hide ValueStart, FlagOf, NameInv, ValueInv, MethodString;
    if p.state.HeaderValueDiscardWs? { ValueStartKeeps(p, ch); }
  }

  /** Outside a name and a value, this is all that the invariant says of the header automaton. */
  lemma BesideValue(p: Parser)
    requires Inv(p)
    ensures AfterName(p.state) ==> FieldState(p.hstate)
    ensures AfterValue(p.state) ==> ValueState(p.hstate)
  {
    hide NameInv, ValueInv, MethodString, FieldState, ValueState;
  }

  /** For a record between a name and its value, or behind a value, this is the whole invariant. */
  lemma BesideIsInv(q: Parser)
    requires (AfterName(q.state) && FieldState(q.hstate)) || (AfterValue(q.state) && ValueState(q.hstate))
    requires q.errno.OK? && q.status <= 999 && q.index <= 20 && q.clen <= ULLONG_MAX
    ensures Inv(q)
  {
    hide NameInv, ValueInv, MethodString, FieldState, ValueState;
  }

  lemma DiscardLwsKeeps(p: Parser, ch: char)
    requires Inv(p) && p.state.HeaderValueDiscardLws?
    ensures Kept(DiscardLws(p, ch))
  {
    hide FlagOf, StateInv, FieldState, ValueState;
    BesideValue(p);
    var o := DiscardLws(p, ch);
    if o.next.Again? { PlainIsInv(o.st); } else { BesideIsInv(o.st); }
  }

  lemma ValueLwsKeeps(p: Parser, ch: char)
    requires Inv(p) && p.state.HeaderValueLws?
    ensures Kept(ValueLws(p, ch))
  {
    hide FlagOf, StateInv, FieldState, ValueState;
    BesideValue(p);
    var o := ValueLws(p, ch);
    if o.st.state.HeaderFieldStart? { PlainIsInv(o.st); } else { BesideIsInv(o.st); }
  }

  lemma HeadersEndKeeps(p: Parser)
    requires Inv(p)
    ensures Kept(HeadersEnd(p))
  {
    hide NameInv, ValueInv, MethodString;
  }

  lemma CompleteKeeps(p: Parser)
    requires p.errno.OK? && p.status <= 999 && p.index <= 20 && p.clen <= ULLONG_MAX
    ensures Kept(Complete(p)) && (p.upgrade ==> Kept(Complete(p).(next := Exit)))
  {
    hide NameInv, ValueInv, MethodString;
  }

  lemma BodyStartKeeps(p: Parser)
    requires Inv(p)
    ensures Kept(BodyStart(p))
  {
    hide Complete, NeedsEof, NameInv, ValueInv, MethodString;
    CompleteKeeps(p);
  }

  /** The line feeds that a header state waits for. */
  lemma LineFeedKeeps(p: Parser, ch: char)
    requires Inv(p)
    ensures p.state.HeaderAlmostDone? ==> Kept(Expect(p, ch == LF, LfExpected, HeaderValueLws))
    ensures p.state.HeaderValueDiscardWsAlmostDone? ==> Kept(Expect(p, ch == LF, Strict, HeaderValueDiscardLws))
    ensures p.state.HeadersAlmostDone? || p.state.HeadersDone? ==> Kept(Reject(p, Strict))
  {
    hide NameInv, ValueInv, MethodString;
  }

  lemma HeaderKeeps(p: Parser, ch: char, skip: bool)
    requires Inv(p) && IsHeader(p.state)
    ensures Kept(HeaderStep(p, ch, skip))
  {
    hide LineStart, FieldStep, DiscardWs, ValueStart, ValueStep, ValueLws, DiscardLws, HeadersEnd, BodyStart, Expect,
         Reject, NameInv, ValueInv, MethodString, Kept;
    LineFeedKeeps(p, ch);
    match p.state
    case HeaderFieldStart => LineStartKeeps(p, ch);
    case HeaderField => FieldKeeps(p, ch);
    case HeaderValueDiscardWs => AfterValueKeeps(p, ch);
    case HeaderValueStart => ValueStartKeeps(p, ch);
    case HeaderValue => ValueKeeps(p, ch, skip);
    case HeaderValueLws => ValueLwsKeeps(p, ch);
    case HeaderValueDiscardLws => DiscardLwsKeeps(p, ch);
    case HeadersAlmostDone => HeadersEndKeeps(p);
    case HeadersDone => BodyStartKeeps(p);
    case _ =>
  }

  lemma ChunkSizeKeeps(p: Parser, ch: char)
    requires Inv(p)
    ensures p.state.ChunkSizeStart? ==> Kept(ChunkFirst(p, ch))
    ensures p.state.ChunkSize? ==> Kept(ChunkDigit(p, ch))
  {
    hide AddHex, NameInv, ValueInv, MethodString;
    if Unhex(ch) >= 0 { HexExact(p, Unhex(ch)); }
  }

  lemma ChunkDataKeeps(p: Parser, ch: char)
    requires Inv(p)
    ensures p.state.ChunkSizeAlmostDone? ==> Kept(ChunkLineEnd(p, ch))
    ensures p.state.ChunkDataAlmostDone? ==> Kept(ChunkEnd(p, ch))
    ensures p.state.ChunkDataDone? ==> Kept(ChunkDone(p, ch))
  {
    hide NameInv, ValueInv, MethodString;
  }

  lemma StrideKeeps(p: Parser)
    requires Inv(p)
    ensures p.state.ChunkData? ==> Kept(ChunkByte(p))
    ensures p.state.BodyIdentity? ==> Kept(BodyByte(p))
  {
    hide NameInv, ValueInv, MethodString;
  }

  lemma ParametersKeep(p: Parser, ch: char)
    requires Inv(p)
    ensures p.state.ChunkParameters? ==> Kept(BodyStep(p, ch))
    ensures p.state.BodyIdentityEof? ==> Kept(Go(p).(mark := Some(OnBody)))
  {
    hide ChunkFirst, ChunkDigit, ChunkLineEnd, ChunkByte, ChunkEnd, ChunkDone, BodyByte, NewMessage, NameInv, ValueInv,
         MethodString;
  }

  lemma BodyKeeps(p: Parser, ch: char)
    requires Inv(p) && IsBody(p.state)
    ensures Kept(BodyStep(p, ch))
  {
    hide ChunkFirst, ChunkDigit, ChunkLineEnd, ChunkByte, ChunkEnd, ChunkDone, BodyByte, Complete, StateInv, Kept;
    match p.state
    case ChunkSizeStart => ChunkSizeKeeps(p, ch);
    case ChunkSize => ChunkSizeKeeps(p, ch);
    case ChunkSizeAlmostDone => ChunkDataKeeps(p, ch);
    case ChunkDataAlmostDone => ChunkDataKeeps(p, ch);
    case ChunkDataDone => ChunkDataKeeps(p, ch);
    case ChunkData => StrideKeeps(p);
    case BodyIdentity => StrideKeeps(p);
    case MessageDone => NotExit(p);
    case _ => ParametersKeep(p, ch);
  }

  lemma NotExit(p: Parser)
    requires p.errno.OK? && p.status <= 999 && p.index <= 20 && p.clen <= ULLONG_MAX
    ensures Kept(Complete(p).(next := if p.upgrade then Exit else Advance))
  {
    hide NameInv, ValueInv, MethodString;
  }

  /** One pass keeps the invariant; in particular no assert of the source fails. */
  lemma StepKeeps(p: Parser, ch: char, skip: bool)
    requires Inv(p)
    ensures Kept(Step(p, ch, skip))
  {
    hide HeaderStep, BodyStep, ResponseLine, RequestLine, UrlHead, UrlRest, Kept, Inv;
    if IsHeader(p.state) {
      HeaderKeeps(p, ch, skip);
    } else if IsBody(p.state) {
      BodyKeeps(p, ch);
    } else if IsResponseLine(p.state) {
      ResponseLineKeeps(p, ch);
    } else if IsUrlState(p.state) {
      UrlKeeps(p, ch);
    } else {
      RequestLineKeeps(p, ch);
    }
  }

  // ---------- whole bytes and whole inputs ----------

  /**
   How a pass treats data spans. It never marks a second span beside an open one. A span that the next state calls
   open is the current one, not flushed; any other span is flushed, except that of a body, whose mark outlives the
   body states.
  */
  predicate SpanOk(s: State, o: Outcome) {
    var span := Span(s, o);
    && (OpenOf(s).Some? ==> o.mark.None?)
    && (o.flush.Some? && span.Some? ==> o.flush == span)
    && (o.flush.Some? ==> o.note.None?)
    && (o.flush.Some? && span.None? ==>
          s.ChunkDataAlmostDone? && o.flush == Some(OnBody) && o.next.Advance? && !o.inclusive)
    && (o.inclusive ==> s.BodyIdentity? && o.flush.Some? && o.next.Again?)
    && (o.next.Advance? || o.next.Again? ==>
          if OpenOf(o.st.state).Some? then span == OpenOf(o.st.state) && o.flush.None? && o.note.None?
          else
            || span.None? || o.flush.Some?
            || (span == Some(OnBody) && o.next.Advance? && HoldsBody(o.st.state) && o.note.None?))
    && (HoldsBody(o.st.state) && o.next.Advance? && !s.ChunkSizeAlmostDone? && !s.HeadersDone? ==>
          o.mark == Some(OnBody))
    && (o.mark == Some(OnBody) ==> InBody(s))
    && (HoldsBody(s) ==> o.mark.None? || o.mark == Some(OnBody))
    && (HoldsBody(s) && (o.next.Advance? || o.next.Again?) ==> o.mark == Some(OnBody) || o.flush == Some(OnBody))
    && (o.next.Exit? ==> Span(s, o).None? && !HoldsBody(s))
  }

  /** The states that read body bytes. */
  predicate InBody(s: State) { s.ChunkData? || s.BodyIdentity? || s.BodyIdentityEof? }

  /** The states in which a body mark may be set. */
  predicate HoldsBody(s: State) { InBody(s) || s.ChunkDataAlmostDone? }

  lemma NameSpans(p: Parser, ch: char)
    ensures p.state.HeaderFieldStart? ==> SpanOk(p.state, LineStart(p, ch))
    ensures p.state.HeaderField? ==> SpanOk(p.state, FieldStep(p, ch))
  {
    hide Token, FieldStart, FieldByte, Lower, FlagOf;
  }

  lemma ValueStartSpans(p: Parser, ch: char)
    ensures p.state.HeaderValueDiscardWs? ==> SpanOk(p.state, DiscardWs(p, ch))
    ensures p.state.HeaderValueStart? ==> SpanOk(p.state, ValueStart(p, ch))
  {
    hide Token, Lower, FlagOf;
  }

  lemma ValueSpans(p: Parser, ch: char, skip: bool)
    ensures p.state.HeaderValue? ==> SpanOk(p.state, ValueStep(p, ch, skip))
    ensures p.state.HeaderValueLws? ==> SpanOk(p.state, ValueLws(p, ch))
    ensures p.state.HeaderValueDiscardLws? ==> SpanOk(p.state, DiscardLws(p, ch))
  {
    hide ValueByte, IsHeaderChar, FlagOf;
  }

  lemma EndSpans(p: Parser)
    ensures p.state.HeadersAlmostDone? ==> SpanOk(p.state, HeadersEnd(p))
    ensures p.state.HeadersDone? ==> SpanOk(p.state, BodyStart(p))
  {
    hide NewMessage, NeedsEof;
  }

  lemma HeaderSpans(p: Parser, ch: char, skip: bool)
    requires IsHeader(p.state)
    ensures SpanOk(p.state, HeaderStep(p, ch, skip))
  {
    hide LineStart, FieldStep, DiscardWs, ValueStart, ValueStep, ValueLws, DiscardLws, HeadersEnd, BodyStart;
    NameSpans(p, ch);
    ValueStartSpans(p, ch);
    ValueSpans(p, ch, skip);
    EndSpans(p);
  }

  lemma SizeSpans(p: Parser, ch: char)
    ensures p.state.ChunkSizeStart? ==> SpanOk(p.state, ChunkFirst(p, ch))
    ensures p.state.ChunkSize? ==> SpanOk(p.state, ChunkDigit(p, ch))
  {
    hide AddHex, Unhex;
  }

  lemma ChunkSpans(p: Parser, ch: char)
    ensures p.state.ChunkSizeAlmostDone? ==> SpanOk(p.state, ChunkLineEnd(p, ch))
    ensures p.state.ChunkDataDone? ==> SpanOk(p.state, ChunkDone(p, ch))
    ensures p.state.ChunkDataAlmostDone? ==> SpanOk(p.state, ChunkEnd(p, ch))
  {
  }

  lemma StrideSpans(p: Parser)
    ensures p.state.ChunkData? ==> SpanOk(p.state, ChunkByte(p))
    ensures p.state.BodyIdentity? ==> SpanOk(p.state, BodyByte(p))
  {
  }

  lemma BodySpans(p: Parser, ch: char)
    requires IsBody(p.state)
    ensures SpanOk(p.state, BodyStep(p, ch))
  {
    hide ChunkFirst, ChunkDigit, ChunkLineEnd, ChunkByte, ChunkEnd, ChunkDone, BodyByte, NewMessage, SpanOk;
    match p.state
    case ChunkSizeStart => SizeSpans(p, ch);
    case ChunkSize => SizeSpans(p, ch);
    case ChunkSizeAlmostDone => ChunkSpans(p, ch);
    case ChunkDataAlmostDone => ChunkSpans(p, ch);
    case ChunkDataDone => ChunkSpans(p, ch);
    case ChunkData => StrideSpans(p);
    case BodyIdentity => StrideSpans(p);
    case _ => RestSpans(p, ch);
  }

  lemma RestSpans(p: Parser, ch: char)
    requires p.state.ChunkParameters? || p.state.BodyIdentityEof? || p.state.MessageDone?
    ensures SpanOk(p.state, BodyStep(p, ch))
  {
    hide ChunkFirst, ChunkDigit, ChunkLineEnd, ChunkByte, ChunkEnd, ChunkDone, BodyByte, NewMessage;
  }

  lemma StatusSpans(p: Parser, ch: char)
    ensures p.state.StartRes? ==> SpanOk(p.state, ResponseStart(p, ch))
    ensures p.state.ResStatusCode? ==> SpanOk(p.state, StatusDigit(p, ch))
    ensures p.state.ResStatus? ==> SpanOk(p.state, StatusText(p, ch))
  {
  }

  lemma VersionSpans(p: Parser, ch: char)
    requires IsVersion(p.state)
    ensures SpanOk(p.state, ResponseLine(p, ch))
  {
    hide ResponseStart, StatusDigit, StatusText, IsNum, Digit;
  }

  lemma ResponseSpans(p: Parser, ch: char)
    requires IsResponseLine(p.state)
    ensures SpanOk(p.state, ResponseLine(p, ch))
  {
    if IsVersion(p.state) {
      hide ResponseLine, SpanOk;
      VersionSpans(p, ch);
    } else {
      StatusSpans(p, ch);
      hide ResponseStart, StatusDigit, StatusText, IsNum, Digit;
    }
  }

  lemma StartSpans(p: Parser, ch: char)
    ensures p.state.StartReqOrRes? ==> SpanOk(p.state, EitherStart(p, ch))
    ensures p.state.StartReq? ==> SpanOk(p.state, RequestStart(p, ch))
  {
    hide MethodString, FirstGuess, IsAlpha;
  }

  lemma WordSpans(p: Parser, ch: char)
    ensures p.state.ReqMethod? ==> SpanOk(p.state, MethodStep(p, ch))
    ensures p.state.ReqSpacesBeforeUrl? ==> SpanOk(p.state, UrlFirst(p, ch))
  {
    hide MethodString, Reguess, ParseUrlChar;
    UrlCloses(p.state, ch);
    UrlCloses(ReqServerStart, ch);
  }

  lemma RequestSpans(p: Parser, ch: char)
    requires !IsResponseLine(p.state) && !IsHeader(p.state) && !IsBody(p.state) && !IsUrlState(p.state)
    ensures SpanOk(p.state, RequestLine(p, ch))
  {
    hide EitherStart, RequestStart, MethodStep, UrlFirst, SpanOk, RequestLine;
    RequestLineIs(p, ch);
    if IsHttpWord(p.state) {
      HttpWordSpans(p, ch);
    } else if IsReqVersion(p.state) {
      ReqVersionSpans(p, ch);
    } else if p.state.ReqMethod? || p.state.ReqSpacesBeforeUrl? {
      WordSpans(p, ch);
    } else if p.state.StartReq? {
      StartSpans(p, ch);
    } else {
      OtherSpans(p, ch);
    }
  }

  lemma HttpWordSpans(p: Parser, ch: char)
    requires IsHttpWord(p.state)
    ensures SpanOk(p.state, RequestLine(p, ch))
  {
    hide EitherStart, RequestStart, MethodStep, UrlFirst, IsNum, Digit;
  }

  lemma ReqVersionSpans(p: Parser, ch: char)
    requires IsReqVersion(p.state)
    ensures SpanOk(p.state, RequestLine(p, ch))
  {
    hide EitherStart, RequestStart, MethodStep, UrlFirst, IsNum, Digit;
  }

  lemma OtherSpans(p: Parser, ch: char)
    requires p.state.Dead? || p.state.StartReqOrRes? || p.state.ResOrRespH?
    ensures SpanOk(p.state, RequestLine(p, ch))
  {
    hide EitherStart, RequestStart, MethodStep, UrlFirst;
    StartSpans(p, ch);
  }

  lemma UrlSpans(p: Parser, ch: char)
    requires IsUrlState(p.state)
    ensures SpanOk(p.state, UrlHead(p, ch)) && SpanOk(p.state, UrlRest(p, ch))
  {
    hide ParseUrlChar;
    UrlCloses(p.state, ch);
  }

  lemma StepSpans(p: Parser, ch: char, skip: bool)
    ensures SpanOk(p.state, Step(p, ch, skip))
  {
    hide HeaderStep, BodyStep, ResponseLine, RequestLine, UrlHead, UrlRest, SpanOk;
    if IsHeader(p.state) {
      HeaderSpans(p, ch, skip);
    } else if IsBody(p.state) {
      BodySpans(p, ch);
    } else if IsResponseLine(p.state) {
      ResponseSpans(p, ch);
    } else if IsUrlState(p.state) {
      UrlSpans(p, ch);
    } else {
      RequestSpans(p, ch);
    }
  }

  lemma AdvanceLog(s: State, log: seq<Event>, o: Outcome, ch: char)
    requires SpanOk(s, o) && o.next.Advance?
    ensures LogInv(o.st.state, LogAfter(s, log, o, ch))
  {
    if Span(s, o).Some? { PushTwice(log, Span(s, o).value, [ch], ""); }
  }

  /** A memchr jump leaves the record alone. */
  lemma GeneralStays(p: Parser, ch: char, skip: bool)
    requires p.state.HeaderValue? && p.hstate.HGeneral?
    ensures var o := Step(p, ch, skip); o.st.state.HeaderValue? && o.next.Advance? ==> o.st == p
  {
    hide LineStart, FieldStep, DiscardWs, ValueStart, ValueLws, DiscardLws, HeadersEnd, BodyStart, BodyStep,
         ResponseLine, RequestLine, UrlHead, UrlRest;
  }

  /** The passes over a byte behind which a header loop may go on. */
  predicate PassReady(p: Parser, nread: nat, ch: char, scan: Scan) {
    && Inv(p) && CountInv(p.state, nread, 1)
    && (nread <= MAX_HEADER || StaysInLoop(p.state, ch))
    && (p.state.HeaderField? ==> nread > 0)
    && (p.state.HeaderValue? ==> nread > if scan.Skipping? then scan.run else 0)
  }

  lemma {:induction false} PassesKeep(p: Parser, nread: nat, log: seq<Event>, ch: char, scan: Scan)
    requires PassReady(p, nread, ch, scan)
    ensures MachineInv(Passes(p, nread, log, ch, scan))
    decreases Rank(p.state)
  {
    hide Step, StateInv, IsToken;
    var o := Step(p, ch, scan.Skipping?);
    StepDescends(p, ch, scan.Skipping?);
    StepKeeps(p, ch, scan.Skipping?);
    StepSpans(p, ch, scan.Skipping?);
    if StaysInLoop(p.state, ch) { LoopStays(p, ch, scan.Skipping?); }
    if o.next.Again? {
      PassesKeep(o.st, if o.reset then 0 else nread, LogAfter(p.state, log, o, ch), ch, scan);
    } else if o.next.Advance? {
      AdvanceLog(p.state, log, o, ch);
      if p.state.HeaderValue? && p.hstate.HGeneral? { GeneralStays(p, ch, scan.Skipping?); }
      if p.state.HeaderField? || p.state.HeaderValue? { LoopResets(p, ch, scan.Skipping?); }
    }
  }

  /** A byte inside a header loop leads nowhere else. */
  lemma LoopStays(p: Parser, ch: char, skip: bool)
    requires Inv(p) && StaysInLoop(p.state, ch)
    ensures var o := Step(p, ch, skip); o.next.Fail? || (o.next.Advance? && o.st.state == p.state && !o.reset)
  {
    hide LineStart, DiscardWs, ValueStart, ValueLws, DiscardLws, HeadersEnd, BodyStart, BodyStep, ResponseLine,
         RequestLine, UrlHead, UrlRest, FieldByte, ValueByte, Token, IsHeaderChar, Word;
  }

  lemma LoopResets(p: Parser, ch: char, skip: bool)
    requires p.state.HeaderField? || p.state.HeaderValue?
    ensures !Step(p, ch, skip).reset
  {
    hide LineStart, DiscardWs, ValueStart, ValueLws, DiscardLws, HeadersEnd, BodyStart, BodyStep, ResponseLine,
         RequestLine, UrlHead, UrlRest, FieldByte, ValueByte, Token, IsHeaderChar;
  }

  lemma ByteKeeps(m: Machine, ch: char)
    requires MachineInv(m)
    ensures MachineInv(Byte(m, ch))
  {
    hide Passes, StateInv, IsToken;
    if m.stop.Running? {
      if Lost(m) {
        PushEnds(m.log, OnHeaderValue, [ch]);
      } else if Counted(m.ps.state, m.nread) <= MAX_HEADER || !Checked(m, ch) {
        PassesKeep(m.ps, Counted(m.ps.state, m.nread), m.log, ch, m.scan);
      }
    }
  }

  lemma PushEnds(log: seq<Event>, k: DataKind, x: string)
    ensures EndsWith(Push(log, Data(k, x)), k)
  {
    PushTwice(log, k, x, "");
  }

  /** The invariant holds after any input; no run aborts. */
  lemma {:induction false} RunKeeps(m: Machine, data: string)
    requires MachineInv(m)
    ensures MachineInv(Run(m, data))
    decreases |data|
  {
    hide Byte, MachineInv;
    if data != "" {
      ByteKeeps(m, data[0]);
      RunKeeps(Byte(m, data[0]), data[1..]);
    }
  }

  /** A running machine has no error. */
  lemma ErrnoOk(m: Machine)
    requires MachineInv(m) && m.stop.Running?
    ensures m.ps.errno.OK?
  {
    hide StateInv;
  }

  lemma EndKeeps(m: Machine)
    requires MachineInv(m)
    ensures MachineInv(EndBuffer(m))
  {
    hide StateInv;
  }

  /** What a parser satisfies between two calls. */
  predicate Valid(p: Parser, nread: nat, log: seq<Event>) {
    p.errno.OK? ==> Inv(p) && CountInv(p.state, nread, 0) && nread <= MAX_HEADER && LogInv(p.state, log)
  }

  /** Every call from a valid parser leaves a valid parser, and no assert in it fails. */
  lemma CallKeeps(p: Parser, nread: nat, log: seq<Event>, data: string)
    requires Valid(p, nread, log)
    ensures var m := Call(p, nread, log, data); !m.stop.Aborted? && Valid(m.ps, m.nread, m.log)
  {
    hide Run, StateInv;
    if p.errno.OK? && data != "" {
      var m := Machine(p, nread, log, Fresh, 0, Running);
      RunKeeps(m, data);
      EndKeeps(Run(m, data));
    }
  }

  lemma InitValid(kind: Type)
    ensures Valid(Init(kind), 0, [])
  {
  }
}
