/** Requests as wrk prints them, and their round trip through the parser. */
module HttpRequests {
  import opened Chars
  import opened HttpTypes
  import opened HttpStep
  import opened HttpSpec
  import opened HttpInvariant
  import opened HttpRuns
  import opened HttpNames
  import opened HttpHeaders
  import opened HttpLengths
  import opened HttpStartLine
  import opened HttpBodies

  datatype Header = Header(name: string, value: string)

  datatype Req = Req(meth: Method, target: string, headers: seq<Header>, body: Option<string>)

  // ---------- printing ----------

  function HeaderText(h: Header): string { h.name + ": " + h.value + CRLF }

  function HeadersText(hs: seq<Header>): string {
    if hs == [] then "" else HeadersText(hs[..|hs| - 1]) + HeaderText(hs[|hs| - 1])
  }

  function BodyText(r: Req): string { if r.body.Some? then r.body.value else "" }

  function HeadText(r: Req): string { StartLine(r.meth, r.target) + HeadersText(r.headers) + CRLF }

  /** The bytes of a request. */
  function Text(r: Req): string { HeadText(r) + BodyText(r) }

  // ---------- what is asked of a request ----------

  predicate IsLengthName(name: string) { LowerName(name) == "content-length" }

  /** The names the parser acts on. */
  predicate IsSpecial(name: string) {
    IsLengthName(name) || LowerName(name) == "connection" || LowerName(name) == "proxy-connection"
    || LowerName(name) == "transfer-encoding" || LowerName(name) == "upgrade"
  }

  predicate GoodHeader(h: Header, body: Option<string>) {
    && IsName(h.name)
    && if IsLengthName(h.name) then body.Some? && h.value == Decimal(|body.value|)
        else !IsSpecial(h.name) && IsPlain(h.value)
  }

  function LengthHeaders(hs: seq<Header>): nat {
    if hs == [] then 0
    else LengthHeaders(hs[..|hs| - 1]) + (if IsLengthName(hs[|hs| - 1].name) then 1 else 0)
  }

  /**
   A request that wrk can print: any listed method but CONNECT, and one Content-Length exactly when there is a body.
  */
  predicate GoodReq(r: Req) {
    && !r.meth.CONNECT? && GoodTarget(r.target)
    && (forall h :: h in r.headers ==> GoodHeader(h, r.body))
    && LengthHeaders(r.headers) == (if r.body.Some? then 1 else 0)
    && |BodyText(r)| <= MAX_LENGTH
    && |HeadText(r)| <= MAX_HEADER
  }

  // ---------- what the parser reports ----------

  function HeaderEvents(hs: seq<Header>): seq<Event> {
    if hs == [] then []
    else var h := hs[|hs| - 1];
      HeaderEvents(hs[..|hs| - 1]) + [Data(OnHeaderField, h.name), Data(OnHeaderValue, h.value)]
  }

  function Events(r: Req): seq<Event> {
    [Notify(OnMessageBegin), Data(OnUrl, r.target)] + HeaderEvents(r.headers) + [Notify(OnHeadersComplete)]
    + (if BodyText(r) == "" then [] else [Data(OnBody, BodyText(r))]) + [Notify(OnMessageComplete)]
  }

  // ---------- one header line ----------

  /** Two records that differ at most in the header automaton. */
  predicate Alike(p: Parser, q: Parser) { q == p.(hstate := q.hstate, index := q.index) }

  /** The machine after a header line, as seen from the machine before it. */
  predicate AfterLine(m: Machine, h: Header, r: Machine, p: Parser) {
    && r.stop.Running? && r.scan.Fresh? && (r.ps.state.HeaderValueLws? || r.ps.state.HeaderValueDiscardLws?)
    && r.nread == m.nread + |HeaderText(h)| && r.used == m.used + |HeaderText(h)|
    && Alike(p, Settle(r).ps)
    && Settle(r).log == Push(Push(m.log, Data(OnHeaderField, h.name)), Data(OnHeaderValue, h.value))
  }

  lemma NameAndColon(m: Machine, name: string)
    requires MachineInv(m) && m.stop.Running? && m.ps.state.HeaderFieldStart? && IsName(name)
    requires m.nread + |name| + 2 <= MAX_HEADER
    ensures Run(m, name + ": ") ==
      Moved(m, NameRecord(m.ps, name).(state := HeaderValueDiscardWs), Push(m.log, Data(OnHeaderField, name)),
        |name| + 2)
  {
    hide Run, MachineInv, Push, NameRecord;
    NameRun(m, name);
    RunKeeps(m, name);
    RunConcat(m, name, ": ");
    ColonRun(Run(m, name));
  }

  /** Reading a name touches only the header automaton. */
  lemma {:induction false} NameAlike(p: Parser, name: string)
    requires name != ""
    ensures Alike(p.(state := HeaderField), NameRecord(p, name))
    decreases |name|
  {
    hide FieldByte, Token;
    if |name| > 1 { NameAlike(p, name[..|name| - 1]); }
  }

  lemma PlainStart(p: Parser, ch: char)
    requires !p.hstate.HConnection? && !p.hstate.HContentLength? && !p.hstate.HTransferEncoding? && !p.hstate.HUpgrade?
    requires FieldState(p.hstate)
    ensures ValueStart(p,
        ch) == Go(p.(state := HeaderValue, index := 0, hstate := HGeneral)).(mark := Some(OnHeaderValue))
  {
    hide Lower;
  }

  lemma PlainFlags(f: Flags, h: HeaderState)
    requires FieldState(h)
    ensures FlagOf(f, h) == f
  {
  }

  lemma PlainLine(m: Machine, h: Header)
    requires MachineInv(m) && m.stop.Running? && m.ps.state.HeaderFieldStart? && m.nread + |HeaderText(h)| <= MAX_HEADER
    requires IsName(h.name) && !IsSpecial(h.name) && IsPlain(h.value)
    ensures AfterLine(m, h, Run(m, HeaderText(h)), m.ps)
  {
    hide Run, MachineInv, Push, NameRecord, LowerName, IsHeaderChar, IsToken, ValueStart, Accepts, ValueRecord;
    var head := h.name + ": ";
    assert HeaderText(h) == head + (h.value + CRLF);
    NameAndColon(m, h.name);
    NameAlike(m.ps, h.name);
    NamesRecognised(m.ps, h.name);
    RunKeeps(m, head);
    RunConcat(m, head, h.value + CRLF);
    var r := Run(m, head);
    PlainFlags(m.ps.flags, r.ps.hstate);
    if h.value == "" {
      EmptyLine(r);
      assert h.value + CRLF == CRLF;
    } else {
      PlainStart(r.ps, h.value[0]);
      var q := ValueStart(r.ps, h.value[0]).st;
      assert q.errno.OK? by { ErrnoOk(r); }
      PlainAccepted(q, h.value[1..]);
      ValueLine(r, h.value);
    }
  }

  lemma LengthStart(p: Parser, ch: char)
    requires p.hstate.HContentLength? && IsNum(ch) && !p.flags.contentLength
    ensures ValueStart(p,
        ch) == Go(p.(state := HeaderValue, index := 0, flags := p.flags.(contentLength := true), clen := Digit(ch)))
                                   .(mark := Some(OnHeaderValue))
  {
    hide Lower;
  }

  /** A Content-Length header sets the flag and the length. */
  lemma LengthLine(m: Machine, h: Header)
    requires MachineInv(m) && m.stop.Running? && m.ps.state.HeaderFieldStart? && m.nread + |HeaderText(h)| <= MAX_HEADER
    requires IsName(h.name) && IsLengthName(h.name) && !m.ps.flags.contentLength
    requires h.value != "" && IsNum(h.value[0]) && DigitsAndBlanks(h.value) && DecValue(0, h.value) <= MAX_LENGTH
    ensures AfterLine(m, h, Run(m, HeaderText(h)),
                      m.ps.(flags := m.ps.flags.(contentLength := true), clen := DecValue(0, h.value)))
  {
    hide Run, MachineInv, Push, NameRecord, LowerName, IsHeaderChar, IsToken, ValueStart, Accepts, ValueRecord;
    var head, v := h.name + ": ", h.value;
    assert HeaderText(h) == head + (v + CRLF);
    NameAndColon(m, h.name);
    NameAlike(m.ps, h.name);
    NamesRecognised(m.ps, h.name);
    RunKeeps(m, head);
    RunConcat(m, head, v + CRLF);
    var r := Run(m, head);
    LengthStart(r.ps, v[0]);
    var q := ValueStart(r.ps, v[0]).st;
    ErrnoOk(r);
    assert DecValue(0, v) == DecValue(q.clen, v[1..]);
    LengthAccepted(q, v[1..]);
    ValueLine(r, v);
  }

  // ---------- all header lines ----------

  lemma PushNew(log: seq<Event>, e: Event)
    requires e.Notify? || !EndsWith(log, e.kind)
    ensures Push(log, e) == log + [e]
  {
  }

  /** The record after the header lines hs; `body` is what their Content-Length announces. */
  function HeadersRecord(p: Parser, hs: seq<Header>, body: Option<string>): Parser {
    if body.Some? && LengthHeaders(hs) == 1 then p.(flags := p.flags.(contentLength := true), clen := |body.value|)
        else p
  }

  predicate AfterHeaders(m: Machine, hs: seq<Header>, r: Machine, p: Parser) {
    && r.stop.Running? && r.scan.Fresh?
    && (r.ps.state.HeaderValueLws? || r.ps.state.HeaderValueDiscardLws? || r.ps.state.HeaderFieldStart?)
    && r.nread == m.nread + |HeadersText(hs)| && r.used == m.used + |HeadersText(hs)|
    && Alike(p, Settle(r).ps) && Settle(r).log == m.log + HeaderEvents(hs)
  }

  lemma LogAfterHeader(log: seq<Event>, hs: seq<Header>, h: Header)
    requires log != [] && !EndsWith(log, OnHeaderField)
    ensures Push(Push(log + HeaderEvents(hs), Data(OnHeaderField, h.name)), Data(OnHeaderValue, h.value))
      == log + HeaderEvents(hs + [h])
  {
    var l := log + HeaderEvents(hs);
    assert (hs + [h])[..|hs|] == hs;
    PushNew(l, Data(OnHeaderField, h.name));
    PushNew(l + [Data(OnHeaderField, h.name)], Data(OnHeaderValue, h.value));
  }

  /** One more line. */
  lemma LineAfterHeaders(m: Machine, hs: seq<Header>, h: Header, body: Option<string>, r: Machine)
    requires MachineInv(m) && MachineInv(r) && !m.ps.flags.contentLength && m.log != []
    requires !EndsWith(m.log, OnHeaderField)
    requires m.ps.state.HeaderFieldStart? && AfterHeaders(m, hs, r, HeadersRecord(m.ps, hs, body))
    requires GoodHeader(h, body) && LengthHeaders(hs + [h]) <= 1 && (body.Some? ==> |body.value| <= MAX_LENGTH)
    requires m.nread + |HeadersText(hs + [h])| <= MAX_HEADER
    ensures HeadersText(hs + [h]) == HeadersText(hs) + HeaderText(h)
    ensures AfterHeaders(m, hs + [h], Run(r, HeaderText(h)), HeadersRecord(m.ps, hs + [h], body))
  {
    hide Run, MachineInv, Push, Settle, LowerName, IsHeaderChar, IsToken, Decimal;
    assert (hs + [h])[..|hs|] == hs;
    var s := Settle(r);
    SettleKeeps(r);
    SettleShape(r);
    assert HeaderText(h)[0] == h.name[0];
    NoTokenEnds(h.name[0]);
    SettleRun(r, HeaderText(h));
    if IsLengthName(h.name) {
      DecimalRead(|body.value|);
      LengthLine(s, h);
    } else {
      PlainLine(s, h);
    }
    LogAfterHeader(m.log, hs, h);
  }

  lemma {:induction false} HeadersRun(m: Machine, hs: seq<Header>, body: Option<string>)
    requires MachineInv(m) && m.stop.Running? && m.scan.Fresh? && m.ps.state.HeaderFieldStart?
    requires !m.ps.flags.contentLength
    requires m.log != [] && !EndsWith(m.log, OnHeaderField) && m.nread + |HeadersText(hs)| <= MAX_HEADER
    requires (forall h :: h in hs ==> GoodHeader(h, body)) && LengthHeaders(hs) <= 1
    requires (body.Some? ==> |body.value| <= MAX_LENGTH)
    ensures AfterHeaders(m, hs, Run(m, HeadersText(hs)), HeadersRecord(m.ps, hs, body))
    decreases |hs|
  {
    hide Run, MachineInv, GoodHeader, HeaderText;
    if hs == [] {
      RunNothing(m);
      assert m.log + [] == m.log;
    } else {
      var init, h := hs[..|hs| - 1], hs[|hs| - 1];
      assert hs == init + [h];
      HeadersRun(m, init, body);
      RunKeeps(m, HeadersText(init));
      RunConcat(m, HeadersText(init), HeaderText(h));
      LineAfterHeaders(m, init, h, body, Run(m, HeadersText(init)));
    }
  }

  // ---------- one request ----------

  /** A machine that waits for a request. */
  predicate Waiting(m: Machine) {
    MachineInv(m) && m.stop.Running? && m.scan.Fresh? && m.ps.state.StartReq? && m.ps.kind.Request? && m.nread == 0
  }

  lemma StartLineRecord(m: Machine, r: Req)
    requires Waiting(m) && GoodReq(r)
    ensures var x := Run(m, StartLine(r.meth, r.target));
      && MachineInv(x) && x.stop.Running? && x.scan.Fresh? && x.ps == StartRecord(m.ps, r.meth)
      && x.nread == x.used - m.used == |StartLine(r.meth, r.target)|
      && x.log == m.log + [Notify(OnMessageBegin), Data(OnUrl, r.target)]
  {
    hide Run, StateInv, GoodTarget, StartLine, GoodHeader;
    assert |HeadText(r)| == |StartLine(r.meth, r.target)| + |HeadersText(r.headers)| + 2;
    StartLineRun(m, r.meth, r.target);
    RunKeeps(m, StartLine(r.meth, r.target));
    PushNew(m.log, Notify(OnMessageBegin));
    PushNew(m.log + [Notify(OnMessageBegin)], Data(OnUrl, r.target));
  }

  /** The record in front of the empty line. */
  function FullRecord(p: Parser, r: Req): Parser {
    HeadersRecord(StartRecord(p, r.meth), r.headers, r.body)
  }

  lemma LinesRecord(m: Machine, r: Req)
    requires Waiting(m) && GoodReq(r)
    ensures var x := Run(m, StartLine(r.meth, r.target) + HeadersText(r.headers));
      && MachineInv(x) && x.stop.Running? && x.scan.Fresh? && Settle(x).ps.state.HeaderFieldStart?
      && x.nread == x.used - m.used == |StartLine(r.meth, r.target)| + |HeadersText(r.headers)|
      && Alike(FullRecord(m.ps, r), Settle(x).ps)
      && Settle(x).log == m.log + [Notify(OnMessageBegin), Data(OnUrl, r.target)] + HeaderEvents(r.headers)
  {
    hide Run, MachineInv, GoodTarget, StartLine, GoodHeader, Settle, Waiting;
    var first := StartLine(r.meth, r.target);
    assert |HeadText(r)| == |first| + |HeadersText(r.headers)| + 2;
    StartLineRecord(m, r);
    var x := Run(m, first);
    HeadersRun(x, r.headers, r.body);
    RunConcat(m, first, HeadersText(r.headers));
    RunKeeps(x, HeadersText(r.headers));
    SettleShape(Run(x, HeadersText(r.headers)));
  }

  /** The record after a whole request: the header automaton aside, only these fields have changed. */
  predicate Answered(p: Parser, r: Req, q: Parser) {
    q.state.StartReq? && q.kind == p.kind && q.lenient == p.lenient && q.meth == r.meth && q.errno.OK? && q.major == 1
      && q.minor == 1
  }

  lemma HeadRun(m: Machine, r: Req)
    requires Waiting(m) && GoodReq(r)
    ensures var x := Run(m, HeadText(r));
      var log := m.log + [Notify(OnMessageBegin),
          Data(OnUrl, r.target)] + HeaderEvents(r.headers) + [Notify(OnHeadersComplete)];
      && MachineInv(x) && x.stop.Running? && x.scan.Fresh? && x.nread == 0 && x.used == m.used + |HeadText(r)|
      && x.ps.kind == m.ps.kind && x.ps.lenient == m.ps.lenient && x.ps.meth == r.meth && x.ps.major == 1
      && x.ps.minor == 1
      && !x.ps.upgrade && !x.ps.flags.close
      && if BodyText(r) == "" then x.ps.state.StartReq? && x.log == log + [Notify(OnMessageComplete)]
         else x.ps.state.BodyIdentity? && x.ps.clen == |BodyText(r)| && x.log == log
  {
    hide Run, MachineInv, GoodTarget, StartLine, GoodHeader, Settle;
    var lines := StartLine(r.meth, r.target) + HeadersText(r.headers);
    LinesRecord(m, r);
    var x := Run(m, lines);
    CloseRun(x);
    RunConcat(m, lines, CRLF);
    RunKeeps(m, HeadText(r));
    PushNew(Settle(x).log, Notify(OnHeadersComplete));
    PushNew(Settle(x).log + [Notify(OnHeadersComplete)], Notify(OnMessageComplete));
  }

  /** One request is read back exactly. */
  lemma RequestRun(m: Machine, r: Req)
    requires Waiting(m) && GoodReq(r)
    ensures var x := Run(m, Text(r));
      Waiting(x) && x.log == m.log + Events(r) && x.used == m.used + |Text(r)| && Answered(m.ps, r, x.ps)
  {
    hide Run, StateInv, GoodTarget, HeadText, GoodHeader;
    HeadRun(m, r);
    var x := Run(m, HeadText(r));
    RunConcat(m, HeadText(r), BodyText(r));
    RunKeeps(m, Text(r));
    if BodyText(r) == "" {
      RunNothing(x);
    } else {
      IdentityBody(x, BodyText(r));
      PushNew(x.log, Data(OnBody, BodyText(r)));
      PushNew(x.log + [Data(OnBody, BodyText(r))], Notify(OnMessageComplete));
    }
    ErrnoOk(Run(m, Text(r)));
  }

  // ---------- pipelines ----------

  function Texts(rs: seq<Req>): string { if rs == [] then "" else Text(rs[0]) + Texts(rs[1..]) }

  function AllEvents(rs: seq<Req>): seq<Event> { if rs == [] then [] else Events(rs[0]) + AllEvents(rs[1..]) }

  lemma {:induction false} PipelineRun(m: Machine, rs: seq<Req>)
    requires Waiting(m) && forall r :: r in rs ==> GoodReq(r)
    ensures var x := Run(m, Texts(rs));
      Waiting(x) && x.log == m.log + AllEvents(rs) && x.used == m.used + |Texts(rs)|
      && (rs != [] ==> Answered(m.ps, rs[|rs| - 1], x.ps))
    decreases |rs|
  {
    hide Run, Waiting, GoodReq, Text, Events;
    if rs == [] {
      RunNothing(m);
      assert m.log + [] == m.log;
    } else {
      var x := Run(m, Text(rs[0]));
      RequestRun(m, rs[0]);
      PipelineRun(x, rs[1..]);
      if rs[1..] == [] { RunNothing(x); } else { assert rs[1..][|rs| - 2] == rs[|rs| - 1]; }
      RunConcat(m, Text(rs[0]), Texts(rs[1..]));
      assert m.log + Events(rs[0]) + AllEvents(rs[1..]) == m.log + AllEvents(rs);
    }
  }

  /** The number of completed messages in a log. */
  function Completed(log: seq<Event>): nat {
    if log == [] then 0 else (if log[0] == Notify(OnMessageComplete) then 1 else 0) + Completed(log[1..])
  }

  lemma {:induction false} CompletedConcat(a: seq<Event>, b: seq<Event>)
    ensures Completed(a + b) == Completed(a) + Completed(b)
    decreases |a|
  {
    if a == [] {
      assert a + b == b;
    } else {
      assert (a + b)[1..] == a[1..] + b;
      CompletedConcat(a[1..], b);
    }
  }

  lemma {:induction false} HeadersCompleteNothing(hs: seq<Header>)
    ensures Completed(HeaderEvents(hs)) == 0
    decreases |hs|
  {
    if hs != [] {
      var h := hs[|hs| - 1];
      HeadersCompleteNothing(hs[..|hs| - 1]);
      var e := [Data(OnHeaderField, h.name), Data(OnHeaderValue, h.value)];
      CompletedConcat(HeaderEvents(hs[..|hs| - 1]), e);
      assert e[1..] == [e[1]] && e[1..][1..] == [];
      assert Completed(e) == Completed(e[1..]) == Completed([]) == 0;
      assert HeaderEvents(hs) == HeaderEvents(hs[..|hs| - 1]) + e;
    }
  }

  lemma OneCompleted(r: Req)
    ensures Completed(Events(r)) == 1
  {
    var a, b := [Notify(OnMessageBegin), Data(OnUrl, r.target)], HeaderEvents(r.headers);
    var c := [Notify(OnHeadersComplete)] + (if BodyText(r) == "" then [] else [Data(OnBody, BodyText(r))]);
    var d := [Notify(OnMessageComplete)];
    assert Events(r) == ((a + b) + c) + d;
    CompletedConcat((a + b) + c, d);
    CompletedConcat(a + b, c);
    CompletedConcat(a, b);
    HeadersCompleteNothing(r.headers);
    assert a[1..] == [a[1]] && a[1..][1..] == [] && d[1..] == [];
    assert c[1..] == [] || (c[1..] == [c[1]] && c[1..][1..] == []);
  }

  lemma {:induction false} PipelineCompletes(rs: seq<Req>)
    ensures Completed(AllEvents(rs)) == |rs|
    decreases |rs|
  {
    hide Events;
    if rs != [] {
      OneCompleted(rs[0]);
      PipelineCompletes(rs[1..]);
      CompletedConcat(Events(rs[0]), AllEvents(rs[1..]));
    }
  }

  /**
   Any number of printed requests, one after the other, is consumed whole by one call from http_parser_init: no error,
   exactly one completed message for each request, and their targets, headers and bodies in order.
  */
  lemma PipelinedRoundTrip(rs: seq<Req>)
    requires rs != [] && forall r :: r in rs ==> GoodReq(r)
    ensures var m := Call(Init(Request), 0, [], Texts(rs));
      && m.stop.Running? && m.ps.errno.OK? && m.used == |Texts(rs)| && m.log == AllEvents(rs)
      && Completed(m.log) == |rs|
      && Answered(Init(Request), rs[|rs| - 1], m.ps)
  {
    hide Run, GoodReq;
    var m := Machine(Init(Request), 0, [], Fresh, 0, Running);
    InitValid(Request);
    PipelineRun(m, rs);
    PipelineCompletes(rs);
    TextNotEmpty(rs[0]);
    assert [] + AllEvents(rs) == AllEvents(rs);
  }

  lemma TextNotEmpty(r: Req)
    ensures Text(r) != ""
  {
    hide MethodString;
  }
}
