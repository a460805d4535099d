/**
 One pass of the switch inside http_parser_execute, as a function of the parser record and one byte. The five
 states whose C code loops over the buffer are given here byte by byte; HttpExecute proves the loops against them.
 */
module HttpStep {
  import opened Chars
  import opened HttpTypes

  datatype DataKind = OnUrl | OnStatus | OnHeaderField | OnHeaderValue | OnBody
  datatype Note = OnMessageBegin | OnHeadersComplete | OnMessageComplete | OnChunkHeader | OnChunkComplete

  /**
   What follows one pass: the next byte, the same byte again (REEXECUTE), an error, an upgrade exit, or a failed
   assert.
  */
  datatype Next = Advance | Again | Fail | Exit | Fault

  /** The new record and the MARK, CALLBACK_DATA and CALLBACK_NOTIFY macros that ran, in this order.
      `inclusive` says that the flushed span includes the current byte, `reset` that nread went back to zero. */
  datatype Outcome = Outcome(st: Parser, mark: Option<DataKind>, flush: Option<DataKind>, inclusive: bool,
                             note: Option<Note>, reset: bool, next: Next)

  function Go(p: Parser): Outcome { Outcome(p, None, None, false, None, false, Advance) }

  function Redo(p: Parser): Outcome { Outcome(p, None, None, false, None, false, Again) }

  function Reject(p: Parser, e: Errno): Outcome { Outcome(p.(errno := e), None, None, false, None, false, Fail) }

  function Assertion(p: Parser): Outcome { Outcome(p, None, None, false, None, false, Fault) }

  function Expect(p: Parser, ok: bool, e: Errno, s: State): Outcome {
    if ok then Go(p.(state := s)) else Reject(p, e)
  }

  /** Order of the states along the REEXECUTE edges. */
  function Rank(s: State): nat {
    match s
    case HeaderValueLws => 3 case HeaderValueDiscardLws => 3
    case HeaderFieldStart => 2 case ResStatusCode => 2
    case StartReqOrRes => 1 case ResStatusStart => 1 case HeadersAlmostDone => 1 case HeaderValue => 1
        case BodyIdentity => 1
    case _ => 0
  }

  // ---------- URL ----------

  /** parse_url_char */
  function ParseUrlChar(s: State, ch: char): State {
    if ch == ' ' || ch == CR || ch == LF || ch == '\t' || ch == 12 as char then Dead
    else match s
      case ReqSpacesBeforeUrl =>
        if ch == '/' || ch == '*' then ReqPath else if IsAlpha(ch) then ReqSchema else Dead
      case ReqSchema => if IsAlpha(ch) then ReqSchema else if ch == ':' then ReqSchemaSlash else Dead
      case ReqSchemaSlash => if ch == '/' then ReqSchemaSlashSlash else Dead
      case ReqSchemaSlashSlash => if ch == '/' then ReqServerStart else Dead
      case ReqServerWithAt => if ch == '@' then Dead else ParseServerChar(ch)
      case ReqServerStart => ParseServerChar(ch)
      case ReqServer => ParseServerChar(ch)
      case ReqPath =>
        if IsUrlChar(ch) then ReqPath else if ch == '?' then ReqQueryStringStart
        else if ch == '#' then ReqFragmentStart else Dead
      case ReqQueryStringStart => ParseQueryChar(ch)
      case ReqQueryString => ParseQueryChar(ch)
      case ReqFragmentStart =>
        if IsUrlChar(ch) || ch == '?' then ReqFragment else if ch == '#' then ReqFragmentStart else Dead
      case ReqFragment => if IsUrlChar(ch) || ch == '?' || ch == '#' then ReqFragment else Dead
      case _ => Dead
  }

  function ParseServerChar(ch: char): State {
    if ch == '/' then ReqPath
    else if ch == '?' then ReqQueryStringStart
    else if ch == '@' then ReqServerWithAt
    else if IsUserinfoChar(ch) || ch == '[' || ch == ']' then ReqServer
    else Dead
  }

  function ParseQueryChar(ch: char): State {
    if IsUrlChar(ch) || ch == '?' then ReqQueryString else if ch == '#' then ReqFragmentStart else Dead
  }

  predicate IsUrlHead(s: State) { s.ReqSchema? || s.ReqSchemaSlash? || s.ReqSchemaSlashSlash? || s.ReqServerStart? }

  predicate IsUrlState(s: State) {
    IsUrlHead(s) || s.ReqServer? || s.ReqServerWithAt?
    || s.ReqPath? || s.ReqQueryStringStart? || s.ReqQueryString? || s.ReqFragmentStart? || s.ReqFragment?
  }

  /** The data mark that http_parser_execute sets from the saved state before its first byte. */
  function OpenOf(s: State): Option<DataKind> {
    if IsUrlState(s) then Some(OnUrl)
    else if s.ResStatus? then Some(OnStatus)
    else if s.HeaderField? then Some(OnHeaderField)
    else if s.HeaderValue? then Some(OnHeaderValue)
    else None
  }

  /** The states of a URL that cannot end yet: white space is an error. */
  function UrlHead(p: Parser, ch: char): Outcome {
    if ch == ' ' || ch == CR || ch == LF then Reject(p, InvalidUrl) else UrlStep(p, ch)
  }

  function UrlStep(p: Parser, ch: char): Outcome {
    var s := ParseUrlChar(p.state, ch);
    if s.Dead? then Reject(p.(state := Dead), InvalidUrl) else Go(p.(state := s))
  }

  // ---------- start lines ----------

  function ResponseStart(p: Parser, ch: char): Outcome {
    var q := p.(flags := NO_FLAGS, clen := ULLONG_MAX);
    if ch == 'H' then Go(q.(state := ResH)).(note := Some(OnMessageBegin))
    else if ch == CR || ch == LF then Go(q).(note := Some(OnMessageBegin))
    else Reject(q, InvalidConstant)
  }

  function StatusDigit(p: Parser, ch: char): Outcome {
    if IsNum(ch) then
      var q := p.(status := p.status * 10 + Digit(ch));
      if q.status > 999 then Reject(q, InvalidStatus) else Go(q)
    else if ch == ' ' then Go(p.(state := ResStatusStart))
    else if ch == CR || ch == LF then Redo(p.(state := ResStatusStart))
    else Reject(p, InvalidStatus)
  }

  function StatusText(p: Parser, ch: char): Outcome {
    if ch == CR then Go(p.(state := ResLineAlmostDone)).(flush := Some(OnStatus))
    else if ch == LF then Go(p.(state := HeaderFieldStart)).(flush := Some(OnStatus))
    else Go(p)
  }

  function ResponseLine(p: Parser, ch: char): Outcome {
    match p.state
    case StartRes => ResponseStart(p, ch)
    case ResH => Expect(p, ch == 'T', Strict, ResHT)
    case ResHT => Expect(p, ch == 'T', Strict, ResHTT)
    case ResHTT => Expect(p, ch == 'P', Strict, ResHTTP)
    case ResHTTP => Expect(p, ch == '/', Strict, ResHttpMajor)
    case ResHttpMajor => if IsNum(ch) then Go(p.(major := Digit(ch), state := ResHttpDot))
        else Reject(p, InvalidVersion)
    case ResHttpDot => Expect(p, ch == '.', InvalidVersion, ResHttpMinor)
    case ResHttpMinor => if IsNum(ch) then Go(p.(minor := Digit(ch), state := ResHttpEnd))
        else Reject(p, InvalidVersion)
    case ResHttpEnd => Expect(p, ch == ' ', InvalidVersion, ResFirstStatusCode)
    case ResFirstStatusCode =>
      if IsNum(ch) then Go(p.(status := Digit(ch), state := ResStatusCode))
      else Expect(p, ch == ' ', InvalidStatus, ResFirstStatusCode)
    case ResStatusCode => StatusDigit(p, ch)
    case ResStatusStart =>
      var q := p.(state := ResStatus, index := 0);
      (if ch == CR || ch == LF then Redo(q) else Go(q)).(mark := Some(OnStatus))
    case ResStatus => StatusText(p, ch)
    case ResLineAlmostDone => Expect(p, ch == LF, Strict, HeaderFieldStart)
    case _ => Assertion(p)
  }

  /** The method guessed from the first letter. */
  function FirstGuess(ch: char): Option<Method> {
    match ch
    case 'A' => Some(ACL) case 'B' => Some(BIND) case 'C' => Some(CONNECT) case 'D' => Some(DELETE)
    case 'G' => Some(GET) case 'H' => Some(HEAD) case 'L' => Some(LOCK) case 'M' => Some(MKCOL)
    case 'N' => Some(NOTIFY) case 'O' => Some(OPTIONS) case 'P' => Some(POST) case 'R' => Some(REPORT)
    case 'S' => Some(SUBSCRIBE) case 'T' => Some(TRACE) case 'U' => Some(UNLOCK)
    case _ => None
  }

  /** The corrected guess when letter `i` is not the one of the current guess. */
  function Reguess(m: Method, i: nat, ch: char): Option<Method> {
    match m
    case POST => if i == 1 && ch == 'U' then Some(PUT) else if i == 1 && ch == 'A' then Some(PATCH)
                 else if i == 1 && ch == 'R' then Some(PROPFIND) else None
    case PUT => if i == 2 && ch == 'R' then Some(PURGE) else None
    case CONNECT => if i == 1 && ch == 'H' then Some(CHECKOUT) else if i == 2 && ch == 'P' then Some(COPY) else None
    case MKCOL => if i == 1 && ch == 'O' then Some(MOVE) else if i == 1 && ch == 'E' then Some(MERGE)
                  else if i == 1 && ch == '-' then Some(MSEARCH) else if i == 2 && ch == 'A' then Some(MKACTIVITY)
                  else if i == 3 && ch == 'A' then Some(MKCALENDAR) else None
    case SUBSCRIBE => if i == 1 && ch == 'E' then Some(SEARCH) else None
    case REPORT => if i == 2 && ch == 'B' then Some(REBIND) else None
    case PROPFIND => if i == 4 && ch == 'P' then Some(PROPPATCH) else None
    case LOCK => if i == 1 && ch == 'I' then Some(LINK) else None
    case UNLOCK => if i == 2 && ch == 'S' then Some(UNSUBSCRIBE) else if i == 2 && ch == 'B' then Some(UNBIND)
                   else if i == 3 && ch == 'I' then Some(UNLINK) else None
    case _ => None
  }

  /** The byte of a NUL-terminated word at index i. */
  function CharAt(word: string, i: nat): char { if i < |word| then word[i] else '\0' }

  function MethodStep(p: Parser, ch: char): Outcome {
    var want := CharAt(MethodString(p.meth), p.index);
    var q := p.(index := p.index + 1);
    if ch == '\0' then Reject(p, InvalidMethod)
    else if ch == ' ' && want == '\0' then Go(q.(state := ReqSpacesBeforeUrl))
    else if ch == want then Go(q)
    else if 'A' <= ch <= 'Z' || ch == '-' then
      match Reguess(p.meth, p.index, ch)
      case Some(m) => Go(q.(meth := m))
      case None => Reject(p, InvalidMethod)
    else Reject(p, InvalidMethod)
  }

  function EitherStart(p: Parser, ch: char): Outcome {
    var q := p.(flags := NO_FLAGS, clen := ULLONG_MAX);
    if ch == CR || ch == LF then Go(p)
    else if ch == 'H' then Go(q.(state := ResOrRespH)).(note := Some(OnMessageBegin))
    else Redo(q.(kind := Request, state := StartReq))
  }

  function RequestStart(p: Parser, ch: char): Outcome {
    var q := p.(flags := NO_FLAGS, clen := ULLONG_MAX);
    if ch == CR || ch == LF then Go(p)
    else if !IsAlpha(ch) then Reject(q, InvalidMethod)
    else match FirstGuess(ch)
      case Some(m) => Go(q.(meth := m, index := 1, state := ReqMethod)).(note := Some(OnMessageBegin))
      case None => Reject(q.(meth := DELETE, index := 1), InvalidMethod)
  }

  function UrlFirst(p: Parser, ch: char): Outcome {
    if ch == ' ' then Go(p)
    else UrlStep(if p.meth.CONNECT? then p.(state := ReqServerStart) else p, ch).(mark := Some(OnUrl))
  }

  /** The states of a URL that white space may end. */
  function UrlRest(p: Parser, ch: char): Outcome {
    if ch == ' ' then Go(p.(state := ReqHttpStart)).(flush := Some(OnUrl))
    else if ch == CR || ch == LF then
      Go(p.(major := 0, minor := 9,
        state := if ch == CR then ReqLineAlmostDone else HeaderFieldStart)).(flush := Some(OnUrl))
    else UrlStep(p, ch)
  }

  function RequestLine(p: Parser, ch: char): Outcome {
    match p.state
    case Dead => if ch == CR || ch == LF then Go(p) else Reject(p, ClosedConnection)
    case StartReqOrRes => EitherStart(p, ch)
    case ResOrRespH =>
      if ch == 'T' then Go(p.(kind := Response, state := ResHT))
      else if ch == 'E' then Go(p.(kind := Request, meth := HEAD, index := 2, state := ReqMethod))
      else Reject(p, InvalidConstant)
    case StartReq => RequestStart(p, ch)
    case ReqMethod => MethodStep(p, ch)
    case ReqSpacesBeforeUrl => UrlFirst(p, ch)
    case ReqHttpStart => if ch == ' ' then Go(p) else Expect(p, ch == 'H', InvalidConstant, ReqHttpH)
    case ReqHttpH => Expect(p, ch == 'T', Strict, ReqHttpHT)
    case ReqHttpHT => Expect(p, ch == 'T', Strict, ReqHttpHTT)
    case ReqHttpHTT => Expect(p, ch == 'P', Strict, ReqHttpHTTP)
    case ReqHttpHTTP => Expect(p, ch == '/', Strict, ReqHttpMajor)
    case ReqHttpMajor => if IsNum(ch) then Go(p.(major := Digit(ch), state := ReqHttpDot))
        else Reject(p, InvalidVersion)
    case ReqHttpDot => Expect(p, ch == '.', InvalidVersion, ReqHttpMinor)
    case ReqHttpMinor => if IsNum(ch) then Go(p.(minor := Digit(ch), state := ReqHttpEnd))
        else Reject(p, InvalidVersion)
    case ReqHttpEnd =>
      if ch == CR then Go(p.(state := ReqLineAlmostDone)) else Expect(p, ch == LF, InvalidVersion, HeaderFieldStart)
    case ReqLineAlmostDone => Expect(p, ch == LF, LfExpected, HeaderFieldStart)
    case _ => Assertion(p)
  }

  // ---------- headers ----------

  /** The word that a matching header state compares with; empty for the other states. */
  function Word(h: HeaderState): (w: string)
    ensures |w| <= 17
  {
    match h
    case HMatchingConnection => "connection"
    case HMatchingProxyConnection => "proxy-connection"
    case HMatchingContentLength => "content-length"
    case HMatchingTransferEncoding => "transfer-encoding"
    case HMatchingUpgrade => "upgrade"
    case HMatchingChunked => "chunked"
    case HMatchingKeepAlive => "keep-alive"
    case HMatchingClose => "close"
    case HMatchingConnUpgrade => "upgrade"
    case _ => ""
  }

  /** The header state that a completed match leads to. */
  function Hit(h: HeaderState): HeaderState {
    match h
    case HMatchingConnection => HConnection
    case HMatchingProxyConnection => HConnection
    case HMatchingContentLength => HContentLength
    case HMatchingTransferEncoding => HTransferEncoding
    case HMatchingUpgrade => HUpgrade
    case HMatchingChunked => HChunked
    case HMatchingKeepAlive => HConnKeepAlive
    case HMatchingClose => HConnClose
    case HMatchingConnUpgrade => HConnUpgrade
    case _ => HGeneral
  }

  predicate MatchingName(h: HeaderState) {
    h.HMatchingConnection? || h.HMatchingProxyConnection? || h.HMatchingContentLength?
    || h.HMatchingTransferEncoding? || h.HMatchingUpgrade?
  }

  predicate MatchingValue(h: HeaderState) {
    h.HMatchingChunked? || h.HMatchingKeepAlive? || h.HMatchingClose? || h.HMatchingConnUpgrade?
  }

  /** One comparison step of a matcher: `index++`, then the test of c against word[index]. */
  function Match(p: Parser, c: char, miss: HeaderState): (q: Parser)
    ensures q.state == p.state
  {
    var i := p.index + 1;
    var word := Word(p.hstate);
    p.(index := i,
       hstate := if i >= |word| || c != word[i] then miss else if i == |word| - 1 then Hit(p.hstate) else p.hstate)
  }

  /** The header states that occur while a field name is read. */
  predicate FieldState(h: HeaderState) {
    h.HGeneral? || h.HC? || h.HCo? || h.HCon? || MatchingName(h)
    || h.HConnection? || h.HContentLength? || h.HTransferEncoding? || h.HUpgrade?
  }

  /** The inner switch of the header field loop, on the lower-cased token character c. */
  function FieldByte(p: Parser, c: char): (q: Parser)
    ensures q == p.(index := q.index, hstate := q.hstate)
  {
    var q := p.(index := p.index + 1);
    if MatchingName(p.hstate) then Match(p, c, HGeneral)
    else match p.hstate
      case HC => q.(hstate := if c == 'o' then HCo else HGeneral)
      case HCo => q.(hstate := if c == 'n' then HCon else HGeneral)
      case HCon => q.(hstate := if c == 'n' then HMatchingConnection else if c ==
          't' then HMatchingContentLength else HGeneral)
      case _ => p.(hstate := HGeneral)
  }

  function FieldStart(p: Parser, c: char): (q: Parser)
    ensures q.state.HeaderField?
  {
    p.(index := 0, state := HeaderField,
       hstate := if c == 'c' then HC else if c == 'p' then HMatchingProxyConnection
                 else if c == 't' then HMatchingTransferEncoding else if c == 'u' then HMatchingUpgrade else HGeneral)
  }

  /** The first byte of a header value. */
  function ValueStart(p: Parser, ch: char): Outcome {
    var c := Lower(ch);
    var q := p.(state := HeaderValue, index := 0);
    (match p.hstate
     case HUpgrade => Go(q.(flags := q.flags.(upgrade := true), hstate := HGeneral))
     case HTransferEncoding => Go(q.(hstate := if c == 'c' then HMatchingChunked else HGeneral))
     case HContentLength =>
       if !IsNum(ch) then Reject(q, InvalidContentLength)
       else if p.flags.contentLength then Reject(q, UnexpectedContentLength)
       else Go(q.(flags := q.flags.(contentLength := true), clen := Digit(ch)))
     case HConnection =>
       Go(q.(hstate := if c == 'k' then HMatchingKeepAlive else if c == 'c' then HMatchingClose
                       else if c == 'u' then HMatchingConnUpgrade else HMatchingToken))
     case HMatchingTokenStart => Go(q)
     case _ => Go(q.(hstate := HGeneral))).(mark := Some(OnHeaderValue))
  }

  /** The flag a recognised Connection or Transfer-Encoding token stands for. */
  function FlagOf(f: Flags, h: HeaderState): Flags {
    match h
    case HConnKeepAlive => f.(keepAlive := true)
    case HConnClose => f.(close := true)
    case HConnUpgrade => f.(connUpgrade := true)
    case HChunked => f.(chunked := true)
    case _ => f
  }

  /** The 64-bit `t = 10 * content_length + digit`, with the source's conservative overflow test. */
  function AddDecimal(p: Parser, digit: nat): (q: Parser)
    ensures q.state == p.state
  {
    if (ULLONG_MAX - 10) / 10 < p.clen then p.(errno := InvalidContentLength)
    else p.(clen := (p.clen * 10 + digit) % (ULLONG_MAX + 1))
  }

  /** The same for a chunk size. */
  function AddHex(p: Parser, digit: nat): (q: Parser)
    ensures q.state == p.state
  {
    if (ULLONG_MAX - 16) / 16 < p.clen then p.(errno := InvalidContentLength)
    else p.(clen := (p.clen * 16 + digit) % (ULLONG_MAX + 1))
  }

  /** The inner switch of the header value loop, on a byte that is neither CR nor LF. */
  function ValueByte(p: Parser, ch: char): (q: Parser)
    ensures q == p.(index := q.index, hstate := q.hstate, flags := q.flags, clen := q.clen, errno := q.errno)
  {
    var c := Lower(ch);
    if MatchingValue(p.hstate) then Match(p, c, if p.hstate.HMatchingChunked? then HGeneral else HMatchingToken)
    else match p.hstate
    case HGeneral => p
    case HContentLength =>
      if ch == ' ' then p
      else if !IsNum(ch) then p.(errno := InvalidContentLength)
      else AddDecimal(p, Digit(ch))
    case HMatchingTokenStart =>
      p.(hstate := if c == 'k' then HMatchingKeepAlive else if c == 'c' then HMatchingClose
                   else if c == 'u' then HMatchingConnUpgrade else if IsToken(c) then HMatchingToken
                   else if c == ' ' || c == '\t' then HMatchingTokenStart else HGeneral)
    case HMatchingToken => if ch == ',' then p.(hstate := HMatchingTokenStart, index := 0) else p
    case HChunked => if ch != ' ' then p.(hstate := HGeneral) else p
    case HConnKeepAlive => TokenEnd(p, ch)
    case HConnClose => TokenEnd(p, ch)
    case HConnUpgrade => TokenEnd(p, ch)
    case _ => p.(hstate := HGeneral)
  }

  function TokenEnd(p: Parser, ch: char): Parser {
    if ch == ',' then p.(flags := FlagOf(p.flags, p.hstate), hstate := HMatchingTokenStart, index := 0)
    else if ch != ' ' then p.(hstate := HMatchingToken)
    else p
  }

  /** One byte in state HeaderValue. `skip` says that a memchr jump passes over this byte. */
  function ValueStep(p: Parser, ch: char, skip: bool): Outcome {
    if ch == CR then Go(p.(state := HeaderAlmostDone)).(flush := Some(OnHeaderValue))
    else if ch == LF then Redo(p.(state := HeaderAlmostDone)).(flush := Some(OnHeaderValue))
    else if !p.lenient && !skip && !IsHeaderChar(ch) then Reject(p, InvalidHeaderToken)
    else if p.hstate.HConnection? || p.hstate.HTransferEncoding? then Assertion(p)
    else
      var q := ValueByte(p, ch);
      if q.errno.OK? then Go(q) else Reject(q, q.errno)
  }

  /** The end of a header block: an upgrade request is recorded and on_headers_complete runs. */
  function HeadersEnd(p: Parser): Outcome {
    if p.flags.trailing then Redo(p.(state := MessageDone)).(note := Some(OnChunkComplete))
    else if p.flags.chunked && p.flags.contentLength then Reject(p, UnexpectedContentLength)
    else
      var up := if p.flags.upgrade && p.flags.connUpgrade then p.kind.Request? || p.status == 101 else p.meth.CONNECT?;
      Redo(p.(state := HeadersDone, upgrade := up)).(note := Some(OnHeadersComplete))
  }

  function Complete(p: Parser): Outcome {
    Go(p.(state := NewMessage(p))).(note := Some(OnMessageComplete))
  }

  /** The choice of the body framing. */
  function BodyStart(p: Parser): Outcome {
    var hasBody := p.flags.chunked || (p.clen > 0 && p.clen != ULLONG_MAX);
    (if p.upgrade && (p.meth.CONNECT? || p.flags.skipBody || !hasBody) then Complete(p).(next := Exit)
     else if p.flags.skipBody then Complete(p)
     else if p.flags.chunked then Go(p.(state := ChunkSizeStart))
     else if p.clen == 0 then Complete(p)
     else if p.clen != ULLONG_MAX then Go(p.(state := BodyIdentity))
     else if !NeedsEof(p) then Complete(p)
     else Go(p.(state := BodyIdentityEof))).(reset := true)
  }

  /** The start of a line in the header block. */
  function LineStart(p: Parser, ch: char): Outcome {
    if ch == CR then Go(p.(state := HeadersAlmostDone))
    else if ch == LF then Redo(p.(state := HeadersAlmostDone))
    else if !IsToken(ch) then Reject(p, InvalidHeaderToken)
    else Go(FieldStart(p, Token(ch))).(mark := Some(OnHeaderField))
  }

  function FieldStep(p: Parser, ch: char): Outcome {
    if IsToken(ch) then (if FieldState(p.hstate) then Go(FieldByte(p, Token(ch))) else Assertion(p))
    else if ch == ':' then Go(p.(state := HeaderValueDiscardWs)).(flush := Some(OnHeaderField))
    else Reject(p, InvalidHeaderToken)
  }

  function DiscardWs(p: Parser, ch: char): Outcome {
    if ch == ' ' || ch == '\t' then Go(p)
    else if ch == CR then Go(p.(state := HeaderValueDiscardWsAlmostDone))
    else if ch == LF then Go(p.(state := HeaderValueDiscardLws))
    else ValueStart(p, ch)
  }

  /** The line after an empty value: more white space, or the header is over. */
  function DiscardLws(p: Parser, ch: char): Outcome {
    if ch == ' ' || ch == '\t' then Go(p.(state := HeaderValueDiscardWs))
    else Redo(p.(flags := FlagOf(p.flags, p.hstate), state := HeaderFieldStart))
           .(mark := Some(OnHeaderValue), flush := Some(OnHeaderValue))
  }

  /** The line after a value: a continuation, or the header is over. */
  function ValueLws(p: Parser, ch: char): Outcome {
    if ch == ' ' || ch == '\t' then Redo(p.(state := HeaderValueStart))
    else Redo(p.(flags := FlagOf(p.flags, p.hstate), state := HeaderFieldStart))
  }

  function HeaderStep(p: Parser, ch: char, skip: bool): Outcome {
    match p.state
    case HeaderFieldStart => LineStart(p, ch)
    case HeaderField => FieldStep(p, ch)
    case HeaderValueDiscardWs => DiscardWs(p, ch)
    case HeaderValueStart => ValueStart(p, ch)
    case HeaderValue => ValueStep(p, ch, skip)
    case HeaderAlmostDone => Expect(p, ch == LF, LfExpected, HeaderValueLws)
    case HeaderValueLws => ValueLws(p, ch)
    case HeaderValueDiscardWsAlmostDone => Expect(p, ch == LF, Strict, HeaderValueDiscardLws)
    case HeaderValueDiscardLws => DiscardLws(p, ch)
    case HeadersAlmostDone => if ch != LF then Reject(p, Strict) else HeadersEnd(p)
    case HeadersDone => if ch != LF then Reject(p, Strict) else BodyStart(p)
    case _ => Assertion(p)
  }

  // ---------- bodies ----------

  predicate HasLength(p: Parser) { p.clen != 0 && p.clen != ULLONG_MAX }

  function ChunkFirst(p: Parser, ch: char): Outcome {
    if !p.flags.chunked then Assertion(p)
    else if Unhex(ch) == -1 then Reject(p, InvalidChunkSize)
    else Go(p.(clen := Unhex(ch), state := ChunkSize))
  }

  function ChunkDigit(p: Parser, ch: char): Outcome {
    if !p.flags.chunked then Assertion(p)
    else if ch == CR then Go(p.(state := ChunkSizeAlmostDone))
    else if Unhex(ch) == -1 then Expect(p, ch == ';' || ch == ' ', InvalidChunkSize, ChunkParameters)
    else
      var q := AddHex(p, Unhex(ch));
      if q.errno.OK? then Go(q) else Reject(q, q.errno)
  }

  function ChunkLineEnd(p: Parser, ch: char): Outcome {
    if !p.flags.chunked then Assertion(p)
    else if ch != LF then Reject(p, Strict)
    else if p.clen == 0 then
      Go(p.(flags := p.flags.(trailing := true), state := HeaderFieldStart)).(note := Some(OnChunkHeader),
        reset := true)
    else Go(p.(state := ChunkData)).(note := Some(OnChunkHeader), reset := true)
  }

  function ChunkByte(p: Parser): Outcome {
    if !p.flags.chunked || !HasLength(p) then Assertion(p)
    else Go(p.(clen := p.clen - 1,
      state := if p.clen == 1 then ChunkDataAlmostDone else ChunkData)).(mark := Some(OnBody))
  }

  function ChunkEnd(p: Parser, ch: char): Outcome {
    if !p.flags.chunked || p.clen != 0 then Assertion(p)
    else if ch != CR then Reject(p, Strict)
    else Go(p.(state := ChunkDataDone)).(flush := Some(OnBody))
  }

  function ChunkDone(p: Parser, ch: char): Outcome {
    if !p.flags.chunked then Assertion(p)
    else if ch != LF then Reject(p, Strict)
    else Go(p.(state := ChunkSizeStart)).(note := Some(OnChunkComplete), reset := true)
  }

  /** The last byte of a body of known length is seen again by MessageDone. */
  function BodyByte(p: Parser): Outcome {
    if !HasLength(p) then Assertion(p)
    else if p.clen > 1 then Go(p.(clen := p.clen - 1)).(mark := Some(OnBody))
    else Outcome(p.(clen := 0, state := MessageDone), Some(OnBody), Some(OnBody), true, None, false, Again)
  }

  function BodyStep(p: Parser, ch: char): Outcome {
    match p.state
    case ChunkSizeStart => ChunkFirst(p, ch)
    case ChunkSize => ChunkDigit(p, ch)
    case ChunkParameters =>
      if !p.flags.chunked then Assertion(p) else if ch == CR then Go(p.(state := ChunkSizeAlmostDone)) else Go(p)
    case ChunkSizeAlmostDone => ChunkLineEnd(p, ch)
    case ChunkData => ChunkByte(p)
    case ChunkDataAlmostDone => ChunkEnd(p, ch)
    case ChunkDataDone => ChunkDone(p, ch)
    case BodyIdentity => BodyByte(p)
    case BodyIdentityEof => Go(p).(mark := Some(OnBody))
    case MessageDone => Complete(p).(next := if p.upgrade then Exit else Advance)
    case _ => Assertion(p)
  }

  // ---------- the switch ----------

  predicate IsResponseLine(s: State) {
    s.StartRes? || s.ResH? || s.ResHT? || s.ResHTT? || s.ResHTTP? || s.ResHttpMajor? || s.ResHttpDot? || s.ResHttpMinor?
    || s.ResHttpEnd? || s.ResFirstStatusCode? || s.ResStatusCode? || s.ResStatusStart? || s.ResStatus?
      || s.ResLineAlmostDone?
  }

  predicate IsHeader(s: State) {
    s.HeaderFieldStart? || s.HeaderField? || s.HeaderValueDiscardWs? || s.HeaderValueDiscardWsAlmostDone?
    || s.HeaderValueDiscardLws? || s.HeaderValueStart? || s.HeaderValue? || s.HeaderValueLws? || s.HeaderAlmostDone?
    || s.HeadersAlmostDone? || s.HeadersDone?
  }

  predicate IsBody(s: State) {
    s.ChunkSizeStart? || s.ChunkSize? || s.ChunkParameters? || s.ChunkSizeAlmostDone? || s.ChunkData?
    || s.ChunkDataAlmostDone? || s.ChunkDataDone? || s.BodyIdentity? || s.BodyIdentityEof? || s.MessageDone?
  }

  /** One pass of the switch. */
  function Step(p: Parser, ch: char, skip: bool): Outcome {
    if IsHeader(p.state) then HeaderStep(p, ch, skip)
    else if IsBody(p.state) then BodyStep(p, ch)
    else if IsResponseLine(p.state) then ResponseLine(p, ch)
    else if IsUrlHead(p.state) then UrlHead(p, ch)
    else if IsUrlState(p.state) then UrlRest(p, ch)
    else RequestLine(p, ch)
  }

  /** A memchr jump concerns header values only. */
  lemma SkipElsewhere(p: Parser, ch: char, skip: bool)
    requires !p.state.HeaderValue?
    ensures Step(p, ch, skip) == Step(p, ch, false)
  {
    hide LineStart, FieldStep, DiscardWs, ValueStart, ValueStep, ValueLws, DiscardLws, HeadersEnd, BodyStart, BodyStep,
         ResponseLine, RequestLine, UrlHead, UrlRest;
  }

  /** The end of a header value. */
  lemma ValueEnds(p: Parser, skip: bool)
    requires p.state.HeaderValue?
    ensures var q := p.(state := HeaderAlmostDone);
      && Step(p, CR, skip) == Go(q).(flush := Some(OnHeaderValue))
      && Step(p, LF, skip) == Redo(q).(flush := Some(OnHeaderValue))
  {
    hide LineStart, FieldStep, DiscardWs, ValueStart, ValueLws, DiscardLws, HeadersEnd, BodyStart, BodyStep, ValueByte,
         ResponseLine, RequestLine, UrlHead, UrlRest, IsHeaderChar;
  }

  /** A byte that the value loop rejects. */
  lemma ValueRejects(p: Parser, ch: char)
    requires p.state.HeaderValue? && ch != CR && ch != LF && !p.hstate.HConnection? && !p.hstate.HTransferEncoding?
    ensures !p.lenient && !IsHeaderChar(ch) ==> Step(p, ch, false) == Reject(p, InvalidHeaderToken)
    ensures (p.lenient || IsHeaderChar(ch)) && !ValueByte(p, ch).errno.OK? ==>
              Step(p, ch, false) == Reject(ValueByte(p, ch), ValueByte(p, ch).errno)
  {
    hide LineStart, FieldStep, DiscardWs, ValueStart, ValueLws, DiscardLws, HeadersEnd, BodyStart, BodyStep, ValueByte,
         ResponseLine, RequestLine, UrlHead, UrlRest, IsHeaderChar;
  }

  predicate Descends(o: Outcome, s: State) { o.next.Again? ==> Rank(o.st.state) < Rank(s) }

  lemma HeaderDescends(p: Parser, ch: char, skip: bool)
    requires IsHeader(p.state)
    ensures Descends(HeaderStep(p, ch, skip), p.state)
  {
    hide ValueStart, FieldStep, BodyStart, HeadersEnd, ValueStep, DiscardWs, LineStart, ValueLws, DiscardLws;
    ValueStartGoesOn(p, ch);
    OthersGoOn(p, ch);
    if p.state.HeaderValue? { ValueDescends(p, ch, skip); }
    LineDescends(p, ch);
  }

  lemma ValueStartGoesOn(p: Parser, ch: char)
    ensures ValueStart(p, ch).next != Again && DiscardWs(p, ch).next != Again
  {
    hide Lower;
  }

  lemma OthersGoOn(p: Parser, ch: char)
    ensures FieldStep(p, ch).next != Again && BodyStart(p).next != Again
  {
    hide Token, FieldByte, NewMessage, NeedsEof;
  }

  lemma ValueDescends(p: Parser, ch: char, skip: bool)
    requires p.state.HeaderValue?
    ensures Descends(ValueStep(p, ch, skip), p.state)
  {
    hide ValueByte, IsHeaderChar;
  }

  lemma LineDescends(p: Parser, ch: char)
    ensures p.state.HeaderFieldStart? ==> Descends(LineStart(p, ch), p.state)
    ensures p.state.HeaderValueLws? ==> Descends(ValueLws(p, ch), p.state)
    ensures p.state.HeaderValueDiscardLws? ==> Descends(DiscardLws(p, ch), p.state)
    ensures p.state.HeadersAlmostDone? ==> Descends(HeadersEnd(p), p.state)
  {
    hide Token, FieldStart, FlagOf;
  }

  lemma BodyDescends(p: Parser, ch: char)
    requires IsBody(p.state)
    ensures Descends(BodyStep(p, ch), p.state)
  {
    hide Unhex, AddHex, NewMessage;
  }

  lemma ResponseDescends(p: Parser, ch: char)
    ensures Descends(ResponseLine(p, ch), p.state)
  {
  }

  lemma RequestDescends(p: Parser, ch: char)
    ensures Descends(RequestLine(p, ch), p.state)
  {
    hide ParseUrlChar, IsAlpha, FirstGuess, Reguess, MethodString;
  }

  lemma StartLineDescends(p: Parser, ch: char)
    ensures Descends(ResponseLine(p, ch), p.state)
    ensures Descends(UrlHead(p, ch), p.state) && Descends(UrlRest(p, ch), p.state)
    ensures Descends(RequestLine(p, ch), p.state)
  {
    hide ParseUrlChar, ResponseLine, RequestLine;
    ResponseDescends(p, ch);
    RequestDescends(p, ch);
  }

  /** Every re-execution moves strictly down the ranks, so the switch runs finitely often on each byte. */
  lemma StepDescends(p: Parser, ch: char, skip: bool)
    ensures Descends(Step(p, ch, skip), p.state)
  {
    hide HeaderStep, BodyStep, ResponseLine, RequestLine, UrlHead, UrlRest, Descends;
    if IsHeader(p.state) {
      HeaderDescends(p, ch, skip);
    } else if IsBody(p.state) {
      BodyDescends(p, ch);
    } else {
      StartLineDescends(p, ch);
    }
  }
}
