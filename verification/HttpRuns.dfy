/** Runs of the byte machine over the parts of a message: the building blocks of the round trips. */
module HttpRuns {
  import opened Chars
  import opened HttpTypes
  import opened HttpStep
  import opened HttpSpec

  /** Machine m after k more header bytes, outside any loop. */
  function Moved(m: Machine, q: Parser, log: seq<Event>, k: nat): Machine {
    Machine(q, m.nread + k, log, Fresh, m.used + k, Running)
  }

  /** A byte that takes one pass. */
  lemma OnePass(m: Machine, ch: char)
    requires m.stop.Running? && ParsingHeader(m.ps.state) && m.nread < MAX_HEADER && !m.ps.state.ChunkSizeStart?
    requires !Lost(m)
    requires Step(m.ps, ch, m.scan.Skipping?).next.Advance?
    ensures var o := Step(m.ps, ch, m.scan.Skipping?);
      Byte(m, ch) == Machine(o.st, if o.reset then 0 else m.nread + 1, LogAfter(m.ps.state, m.log, o, ch),
                             ScanAfter(m.ps, o.st, m.scan), m.used + 1, Running)
  {
    hide Step, LogAfter;
  }

  /** A byte that only changes the record. */
  lemma GoByte(m: Machine, ch: char, q: Parser)
    requires m.stop.Running? && ParsingHeader(m.ps.state) && m.nread < MAX_HEADER && !m.ps.state.ChunkSizeStart?
    requires OpenOf(m.ps.state).None? && Step(m.ps, ch, m.scan.Skipping?) == Go(q)
    ensures Byte(m, ch) == Moved(m, q, m.log, 1)
  {
    hide Step;
    OnePass(m, ch);
  }

  /** The same where the counter is not looked at. */
  lemma GoPasses(p: Parser, n: nat, log: seq<Event>, ch: char, scan: Scan, q: Parser)
    requires OpenOf(p.state).None? && Step(p, ch, scan.Skipping?) == Go(q) && (p.state.ChunkSizeStart? ==> n == 1)
    ensures Passes(p, n, log, ch, scan) == Machine(q, n, log, Fresh, 1, Running)
  {
    hide Step;
  }

  lemma RunOne(m: Machine, ch: char)
    ensures Run(m, [ch]) == Byte(m, ch)
  {
    hide Byte;
    assert [ch][1..] == "";
  }

  /** The first byte, then the rest. */
  lemma RunCons(m: Machine, ch: char, rest: string)
    ensures Run(m, [ch] + rest) == Run(Byte(m, ch), rest)
  {
    hide Byte;
    assert ([ch] + rest)[1..] == rest;
  }

  // ---------- " HTTP/1.1" and the line end ----------

  lemma VersionSteps(p: Parser)
    ensures p.state.ReqHttpStart? ==> RequestLine(p, 'H') == Go(p.(state := ReqHttpH))
    ensures p.state.ReqHttpH? ==> RequestLine(p, 'T') == Go(p.(state := ReqHttpHT))
    ensures p.state.ReqHttpHT? ==> RequestLine(p, 'T') == Go(p.(state := ReqHttpHTT))
    ensures p.state.ReqHttpHTT? ==> RequestLine(p, 'P') == Go(p.(state := ReqHttpHTTP))
    ensures p.state.ReqHttpHTTP? ==> RequestLine(p, '/') == Go(p.(state := ReqHttpMajor))
    ensures p.state.ReqHttpMajor? ==> RequestLine(p, '1') == Go(p.(major := 1, state := ReqHttpDot))
    ensures p.state.ReqHttpDot? ==> RequestLine(p, '.') == Go(p.(state := ReqHttpMinor))
    ensures p.state.ReqHttpMinor? ==> RequestLine(p, '1') == Go(p.(minor := 1, state := ReqHttpEnd))
    ensures p.state.ReqHttpEnd? ==> RequestLine(p, CR) == Go(p.(state := ReqLineAlmostDone))
    ensures p.state.ReqLineAlmostDone? ==> RequestLine(p, LF) == Go(p.(state := HeaderFieldStart))
  {
    hide MethodStep, UrlFirst, RequestStart, EitherStart;
  }

  /** The order of the version states. */
  function VersionSucc(s: State): State {
    match s
    case ReqHttpStart => ReqHttpH case ReqHttpH => ReqHttpHT case ReqHttpHT => ReqHttpHTT case ReqHttpHTT => ReqHttpHTTP
    case ReqHttpHTTP => ReqHttpMajor case ReqHttpMajor => ReqHttpDot case ReqHttpDot => ReqHttpMinor
    case ReqHttpMinor => ReqHttpEnd case ReqHttpEnd => ReqLineAlmostDone case _ => HeaderFieldStart
  }

  /** The record after the byte that a version state waits for. */
  function VersionNext(p: Parser): Parser {
    p.(state := VersionSucc(p.state), major := if p.state.ReqHttpMajor? then 1 else p.major,
       minor := if p.state.ReqHttpMinor? then 1 else p.minor)
  }

  function VersionChar(s: State): char {
    match s
    case ReqHttpStart => 'H' case ReqHttpH => 'T' case ReqHttpHT => 'T' case ReqHttpHTT => 'P' case ReqHttpHTTP => '/'
    case ReqHttpMajor => '1' case ReqHttpDot => '.' case ReqHttpMinor => '1' case ReqHttpEnd => CR case _ => LF
  }

  /** How many bytes of the version are still to come. */
  function VersionLeft(s: State): nat {
    match s
    case ReqHttpStart => 10 case ReqHttpH => 9 case ReqHttpHT => 8 case ReqHttpHTT => 7 case ReqHttpHTTP => 6
    case ReqHttpMajor => 5 case ReqHttpDot => 4 case ReqHttpMinor => 3 case ReqHttpEnd => 2 case ReqLineAlmostDone => 1
    case _ => 0
  }

  /** What a version state still waits for. */
  function VersionText(s: State): string
    decreases VersionLeft(s)
  {
    if VersionLeft(s) == 0 then "" else [VersionChar(s)] + VersionText(VersionSucc(s))
  }

  const VERSION: string := "HTTP/1.1\r\n"

  lemma VersionCons(s: State, c: char, rest: string)
    requires VersionLeft(s) > 0 && VersionChar(s) == c && VersionText(VersionSucc(s)) == rest
    ensures VersionText(s) == [c] + rest
  {
  }

  lemma VersionEnd()
    ensures VersionText(ReqHttpEnd) == "\r\n"
  {
    hide VersionText;
    VersionEmpty();
    VersionCons(ReqLineAlmostDone, LF, "");
    VersionCons(ReqHttpEnd, CR, "\n");
  }

  lemma VersionMinor()
    ensures VersionText(ReqHttpDot) == ".1\r\n"
  {
    hide VersionText;
    VersionEnd();
    VersionCons(ReqHttpMinor, '1', "\r\n");
    VersionCons(ReqHttpDot, '.', "1\r\n");
  }

  lemma VersionNumbers()
    ensures VersionText(ReqHttpHTTP) == "/1.1\r\n"
  {
    hide VersionText;
    VersionMinor();
    VersionCons(ReqHttpMajor, '1', ".1\r\n");
    VersionCons(ReqHttpHTTP, '/', "1.1\r\n");
  }

  lemma VersionEmpty()
    ensures VersionText(HeaderFieldStart) == ""
  {
  }

  lemma VersionWord()
    ensures VersionText(ReqHttpHT) == "TP/1.1\r\n"
  {
    hide VersionText;
    VersionNumbers();
    VersionCons(ReqHttpHTT, 'P', "/1.1\r\n");
    VersionCons(ReqHttpHT, 'T', "P/1.1\r\n");
  }

  lemma VersionSpelling()
    ensures VersionText(ReqHttpStart) == VERSION
  {
    hide VersionText;
    VersionWord();
    VersionCons(ReqHttpH, 'T', "TP/1.1\r\n");
    VersionCons(ReqHttpStart, 'H', "TTP/1.1\r\n");
  }

  lemma VersionStep(p: Parser)
    requires VersionLeft(p.state) > 0
    ensures Step(p, VersionChar(p.state), false) == Go(VersionNext(p))
    ensures var k := VersionLeft(p.state);
      && VersionLeft(VersionNext(p).state) == k - 1 && VersionNext(p).state == VersionSucc(p.state) && k <= 10
      && VersionNext(p) == p.(state := if k == 1 then HeaderFieldStart else VersionNext(p).state,
                              major := if k == 5 then 1 else p.major, minor := if k == 3 then 1 else p.minor)
  {
    hide HeaderStep, BodyStep, ResponseLine, RequestLine, UrlHead, UrlRest;
    VersionSteps(p);
  }

  lemma VersionStates(s: State)
    requires VersionLeft(s) > 0
    ensures ParsingHeader(s) && OpenOf(s).None? && !s.ChunkSizeStart?
  {
  }

  lemma VersionByte(m: Machine)
    requires m.stop.Running? && m.nread < MAX_HEADER && VersionLeft(m.ps.state) > 0 && !m.scan.Skipping?
    ensures Byte(m, VersionChar(m.ps.state)) == Moved(m, VersionNext(m.ps), m.log, 1)
  {
    hide Step, Byte, VersionNext, VersionChar;
    VersionStep(m.ps);
    VersionStates(m.ps.state);
    GoByte(m, VersionChar(m.ps.state), VersionNext(m.ps));
  }

  lemma {:induction false} VersionRun(m: Machine)
    requires m.stop.Running? && m.nread + VersionLeft(m.ps.state) <= MAX_HEADER && VersionLeft(m.ps.state) > 0
    requires !m.scan.Skipping?
    ensures var k := VersionLeft(m.ps.state);
      Run(m, VersionText(m.ps.state)) == Moved(m, m.ps.(major := if k >= 5 then 1 else m.ps.major,
                                               minor := if k >= 3 then 1
                                                 else m.ps.minor, state := HeaderFieldStart), m.log, k)
    decreases VersionLeft(m.ps.state)
  {
    hide Byte, Step, VersionNext, VersionSucc, VersionLeft, VersionChar;
    VersionStep(m.ps);
    VersionByte(m);
    var r := Byte(m, VersionChar(m.ps.state));
    RunCons(m, VersionChar(m.ps.state), VersionText(r.ps.state));
    if VersionLeft(r.ps.state) > 0 {
      VersionRun(r);
    }
  }
}
