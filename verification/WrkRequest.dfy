/**
 The requests wrk sends: wrk.format prints a request from a Lua table of headers, and script_verify_request counts the
 requests in what a script hands over, or says where they go wrong.
*/
module WrkRequest {
  import opened Chars
  import opened HttpTypes
  import opened HttpStep
  import opened HttpSpec
  import opened HttpInvariant
  import opened HttpBulk
  import opened HttpRuns
  import opened HttpTurns
  import opened HttpNames
  import opened HttpHeaders
  import opened HttpLengths
  import opened HttpStartLine
  import opened HttpRequests
  import opened HttpExecute

  // ---------- wrk.format ----------

  /** What wrk.format prints for a list of headers. */
  function Printed(meth: string, path: string, order: seq<Header>, body: Option<string>): string {
    meth + " " + path + " HTTP/1.1" + CRLF + HeadersText(order) + CRLF + (if body.Some? then body.value else "")
  }

  /** A list holds every entry of a table once. */
  predicate Lists(order: seq<Header>, entries: map<string, string>) {
    && (forall i, j :: 0 <= i < j < |order| ==> order[i].name != order[j].name)
    && (forall h :: h in order ==> h.name in entries && entries[h.name] == h.value)
    && (forall n :: n in entries ==> Header(n, entries[n]) in order)
  }

  /** The header table that a call of wrk.format leaves: a Host if one is known, and the length of the body. */
  function Completing(entries: map<string, string>, defaults: map<string, string>, body: Option<string>)
          : map<string, string> {
    var hosted := if "Host" !in entries && "Host" in defaults then entries["Host" := defaults["Host"]] else entries;
    if body.Some? then hosted["Content-Length" := Decimal(|body.value|)] else hosted - {"Content-Length"}
  }

  /** table.concat(s, "\r\n") */
  function Joined(s: seq<string>): string
    requires s != []
  {
    if |s| == 1 then s[0] else Joined(s[..|s| - 1]) + CRLF + s[|s| - 1]
  }

  /** A Lua table from strings to strings. */
  class Table {
    var entries: map<string, string>

    constructor ()
      ensures entries == map[]
    {
      entries := map[];
    }

    method Set(name: string, value: Option<string>)
      modifies this
      ensures entries == if value.Some? then old(entries)[name := value.value] else old(entries) - {name}
    {
      entries := if value.Some? then entries[name := value.value] else entries - {name};
    }
  }

  class Wrk {
    var meth: string
    var path: string
    const headers: Table
    var body: Option<string>

    constructor ()
      ensures meth == "GET" && path == "/" && body.None? && fresh(headers) && headers.entries == map[]
    {
      meth, path, body := "GET", "/", None;
      headers := new Table();
    }

    /** wrk.format: every argument is optional, and the table that was passed, or wrk's own, is completed in place. */
    method Format(meth': Option<string>, path': Option<string>, headers': Option<Table>, body': Option<string>)
      returns (text: string, ghost order: seq<Header>)
      modifies if headers'.Some? then {headers'.value} else {headers}
      ensures var t := if headers'.Some? then headers'.value else headers;
        var b := if body'.Some? then body' else body;
        && t.entries == Completing(old(t.entries), old(headers.entries), b) && Lists(order, t.entries)
        && text == Printed(if meth'.Some? then meth'.value else meth, if path'.Some? then path'.value else path, order,
            b)
    {
      var m := if meth'.Some? then meth'.value else meth;
      var p := if path'.Some? then path'.value else path;
      var t := if headers'.Some? then headers'.value else headers;
      var b := if body'.Some? then body' else body;
      if "Host" !in t.entries {
        t.Set("Host", if "Host" in headers.entries then Some(headers.entries["Host"]) else None);
      }
      t.Set("Content-Length", if b.Some? then Some(Decimal(|b.value|)) else None);
      assert t.entries == Completing(old(t.entries), old(headers.entries), b);
      text, order := Print(m, p, t, b);
    }

    /** The second half of wrk.format: the lines of the request, joined. The table is walked in no particular order. */
    static method Print(m: string, p: string, t: Table, b: Option<string>)
      returns (text: string, ghost order: seq<Header>)
      ensures Lists(order, t.entries) && text == Printed(m, p, order, b)
    {
      var first := m + " " + p + " HTTP/1.1";
      var s := [first];
      order := [];
      ghost var entries := t.entries;
      var left := t.entries.Keys;
      while left != {}
        invariant t.entries == entries && left <= t.entries.Keys && Lists(order, t.entries - left)
        invariant s != [] && Joined(s) + CRLF == first + CRLF + HeadersText(order)
        decreases left
      {
        var name :| name in left;
        var line := name + ": " + t.entries[name];
        ghost var h := Header(name, t.entries[name]);
        ListsSnoc(order, t.entries, left, name);
        JoinedLine(s, first, order, h);
        s := s + [line];
        order := order + [h];
        left := left - {name};
      }
      assert t.entries - {} == t.entries;
      var last := if b.Some? then b.value else "";
      JoinedEnd(s, first, order, last);
      text := Joined(s + ["", last]);
      assert text == Printed(m, p, order, b);
    }

    static lemma JoinedLine(s: seq<string>, first: string, order: seq<Header>, h: Header)
      requires s != [] && Joined(s) + CRLF == first + CRLF + HeadersText(order)
      ensures Joined(s + [h.name + ": " + h.value]) + CRLF == first + CRLF + HeadersText(order + [h])
    {
      assert (s + [h.name + ": " + h.value])[..|s|] == s && (order + [h])[..|order|] == order;
      assert Joined(s) + CRLF + (h.name + ": " + h.value) + CRLF == Joined(s) + CRLF + HeaderText(h);
      assert first + CRLF + HeadersText(order) + HeaderText(h) == first + CRLF + (HeadersText(order) + HeaderText(h));
    }

    static lemma JoinedEnd(s: seq<string>, first: string, order: seq<Header>, last: string)
      requires s != [] && Joined(s) + CRLF == first + CRLF + HeadersText(order)
      ensures Joined(s + ["", last]) == first + CRLF + HeadersText(order) + CRLF + last
    {
      assert (s + [""])[..|s|] == s && (s + ["", last])[..|s| + 1] == s + [""];
      assert Joined(s + [""]) == Joined(s) + CRLF;
    }

    static lemma ListsSnoc(order: seq<Header>, entries: map<string, string>, left: set<string>, name: string)
      requires name in left && left <= entries.Keys && Lists(order, entries - left)
      ensures Lists(order + [Header(name, entries[name])], entries - (left - {name}))
    {
      var h := Header(name, entries[name]);
      forall n | n in entries - (left - {name}) ensures Header(n, entries[n]) in order + [h] {
        if n != name { assert n in entries - left; }
      }
    }
  }

  // ---------- what is printed is a request ----------

  /** Entries whose names the parser does not act on, with plain values, but for the length that wrk.format adds. */
  predicate Tidy(entries: map<string, string>) {
    forall n :: n in entries && n != "Content-Length" ==> IsName(n) && !IsSpecial(n) && IsPlain(entries[n])
  }

  lemma {:induction false} OneLength(order: seq<Header>)
    requires forall i, j :: 0 <= i < j < |order| ==> order[i].name != order[j].name
    requires forall h :: h in order ==> (IsLengthName(h.name) <==> h.name == "Content-Length")
    ensures LengthHeaders(order) == if exists h :: h in order && h.name == "Content-Length" then 1 else 0
    decreases |order|
  {
    hide IsLengthName;
    if order != [] {
      var init, last := order[..|order| - 1], order[|order| - 1];
      OneLength(init);
      assert order == init + [last];
      if last.name == "Content-Length" {
        assert last in order;
      } else if h :| h in order && h.name == "Content-Length" {
        assert h in init;
      }
    }
  }

  lemma LengthName()
    ensures IsName("Content-Length") && IsLengthName("Content-Length")
  {
    var n := "Content-Length";
    assert forall i :: 0 <= i < |n| ==> IsToken(n[i]);
    assert LowerName(n) == "content-length";
  }

  /**
   With a listed method other than CONNECT, an accepted target and tidy headers, the printed text is a good request with
   exactly these headers, whatever order the table is walked in.
  */
  lemma PrintedIsGood(m: Method, path: string, entries: map<string, string>, defaults: map<string, string>,
          order: seq<Header>, body: Option<string>)
    requires !m.CONNECT? && GoodTarget(path) && Tidy(entries) && Tidy(defaults)
    requires Lists(order, Completing(entries, defaults, body))
    requires var r := Req(m, path, order, body); |BodyText(r)| <= MAX_LENGTH && |HeadText(r)| <= MAX_HEADER
    ensures var r := Req(m, path, order, body); GoodReq(r) && Printed(MethodString(m), path, order, body) == Text(r)
  {
    hide MethodString, GoodTarget, IsName, IsPlain, Decimal, LowerName, Printed, HeadersText, Text, LengthHeaders;
    var r := Req(m, path, order, body);
    LengthName();
    var t := Completing(entries, defaults, body);
    assert Tidy(t);
    forall h | h in order ensures GoodHeader(h, body) && (IsLengthName(h.name) <==> h.name == "Content-Length") {
      assert h.name in t;
    }
    OneLength(order);
    if body.Some? {
      assert "Content-Length" in t && Header("Content-Length", t["Content-Length"]) in order;
    }
    PrintedText(r);
  }

  lemma PrintedText(r: Req)
    ensures Printed(MethodString(r.meth), r.target, r.headers, r.body) == Text(r)
  {
    hide MethodString, HeadersText;
    var start := MethodString(r.meth) + " " + r.target + " HTTP/1.1";
    assert start + CRLF + HeadersText(r.headers) + CRLF + BodyText(r) == HeadText(r) + BodyText(r);
  }

  // ---------- script_verify_request ----------

  /** The number of requests, or the error (none if a request is incomplete) and its place. */
  datatype Verdict = Accepted(count: nat) | Rejected(errno: Errno, parsed: nat, line: nat, column: nat)

  /** The place behind a text, with lines and columns counted from one. */
  predicate Place(text: string, line: nat, column: nat) {
    && line == 1 + multiset(text)[LF] && 1 <= column <= |text| + 1
    && LF !in text[|text| - (column - 1)..] && (column <= |text| ==> text[|text| - column] == LF)
  }

  /**
   What the verdict on a text must be. The C code looks at the bytes used and at the number of completed requests, not
   at the error, so a text is accepted whenever all of it was used and some request was completed.
  */
  predicate Judges(v: Verdict, request: string) {
    var m := Call(Init(HttpTypes.Request), 0, [], request);
    if m.used == |request| && Completed(m.log) > 0 then v == Accepted(Completed(m.log))
    else
      && v.Rejected? && v.errno == m.ps.errno && v.parsed == m.used <= |request|
      && Place(request[..v.parsed], v.line, v.column)
  }

  lemma {:induction false} FailedPasses(p: Parser, nread: nat, log: seq<Event>, ch: char, scan: Scan)
    requires Inv(p)
    ensures var r := Passes(p, nread, log, ch, scan); r.stop.Failed? ==> r.used == 0
    decreases Rank(p.state)
  {
    hide Step, LogAfter, Inv;
    var o := Step(p, ch, scan.Skipping?);
    StepDescends(p, ch, scan.Skipping?);
    StepKeeps(p, ch, scan.Skipping?);
    if o.next.Again? {
      FailedPasses(o.st, if o.reset then 0 else nread, LogAfter(p.state, log, o, ch), ch, scan);
    }
  }

  /** A byte that is refused is not used. */
  lemma {:induction false} FailedShort(m: Machine, data: string)
    requires MachineInv(m) && m.stop.Running?
    ensures Run(m, data).stop.Failed? ==> Run(m, data).used < m.used + |data|
    decreases |data|
  {
    hide Passes, Inv;
    if data != "" {
      FailedPasses(m.ps, Counted(m.ps.state, m.nread), m.log, data[0], m.scan);
      ByteKeeps(m, data[0]);
      var r := Byte(m, data[0]);
      if r.stop.Running? {
        RunUsed(m, [data[0]]);
        assert [data[0]][1..] == "" && Run(m, [data[0]]) == Run(r, "");
        FailedShort(r, data[1..]);
      } else {
        RunStopped(r, data[1..]);
      }
    }
  }

  /**
   A parser that stands in a header name or value with a full counter: the size check at the end of the text fails.
  */
  predicate Unseen(r: Machine) { r.stop.Running? && !r.scan.Fresh? && r.nread >= MAX_HEADER }

  /** The machine that http_parser_init leaves. */
  function Begun(): Machine { Machine(Init(HttpTypes.Request), 0, [], Fresh, 0, Running) }

  /** An error has used the whole text exactly when it is that of the size check behind it. */
  lemma ErrorAtEnd(request: string)
    ensures var m, r := Call(Init(HttpTypes.Request), 0, [], request), Run(Begun(), request);
      && m.used <= |request| && (request == "" ==> m.ps.errno.OK?)
      && (!m.ps.errno.OK? && m.used == |request| <==> Unseen(r))
      && (Unseen(r) ==> m.ps.errno.HeaderOverflow? && m.log == r.log)
  {
    hide Run, StateInv;
    var m0 := Begun();
    InitValid(HttpTypes.Request);
    RunKeeps(m0, request);
    EndKeeps(Run(m0, request));
    FailedShort(m0, request);
    RunUsed(m0, request);
    if request == "" { RunNothing(m0); }
  }

  /**
   When a text is accepted: some request in it was completed, and either the parser read all of it without an error, or
   the header size limit was passed inside a header name or value that, as far as the parser looked, does not end.
  */
  lemma AcceptedExactly(request: string, v: Verdict)
    requires Judges(v, request)
    ensures var m := Call(Init(HttpTypes.Request), 0, [], request);
      v.Accepted? <==> Completed(m.log) > 0 && ((m.ps.errno.OK? && m.used == |request|) || Unseen(Run(Begun(),
        request)))
  {
    hide Call, Run, Completed;
    ErrorAtEnd(request);
  }

  /** The completed messages of a log are among its notifications. */
  lemma {:induction false} CompletedNotes(log: seq<Event>)
    ensures Completed(log) == multiset(Notes(log))[OnMessageComplete]
    decreases |log|
  {
    if log != [] {
      var init, e := log[..|log| - 1], log[|log| - 1];
      assert log == init + [e] && [e][1..] == [];
      CompletedNotes(init);
      CompletedConcat(init, [e]);
    }
  }

  lemma SameCompleted(a: seq<Event>, b: seq<Event>)
    requires Notes(a) == Notes(b)
    ensures Completed(a) == Completed(b)
  {
    hide Notes, Completed;
    CompletedNotes(a);
    CompletedNotes(b);
  }

  /** The loop of script_verify_request that finds the place of an error. */
  method Locate(request: string, parsed: nat) returns (line: nat, column: nat)
    requires parsed <= |request|
    ensures Place(request[..parsed], line, column)
  {
    line, column := 1, 1;
    var c := 0;
    while c < parsed
      invariant c <= parsed && Place(request[..c], line, column)
    {
      assert request[..c + 1] == request[..c] + [request[c]];
      column := column + 1;
      if request[c] == LF {
        column := 1;
        line := line + 1;
      }
      c := c + 1;
    }
  }

  /** script_verify_request */
  method VerifyRequest(request: string) returns (v: Verdict)
    requires |request| <= MAX_BUFFER
    ensures Judges(v, request)
  {
    hide Call, Inv, Completed, Notes, Run, Unseen;
    var parser := new HttpParser(HttpTypes.Request);
    ghost var m := Call(Init(HttpTypes.Request), 0, [], request);
    var parsed := parser.Execute(request);
    assert Meets(m, parser.Rec(), parser.nread, Canonical(parser.calls), parsed);
    var calls, errno := parser.calls, parser.errno;
    NotesCanonical(calls);
    SameCompleted(calls, m.log);
    ErrorAtEnd(request);
    CompletedNothing();
    var count := 0;
    var i := 0;
    while i < |calls|
      invariant i <= |calls| && count == Completed(calls[..i])
    {
      CompletedSnoc(calls, i);
      if calls[i] == Notify(OnMessageComplete) {
        count := count + 1;
      }
      i := i + 1;
    }
    assert calls[..i] == calls;
    if parsed != |request| || count == 0 {
      var line, column := Locate(request, parsed);
      return Rejected(errno, parsed, line, column);
    }
    return Accepted(count);
  }

  lemma CompletedSnoc(calls: seq<Event>, i: nat)
    requires i < |calls|
    ensures Completed(calls[..i + 1]) ==
        Completed(calls[..i]) + (if calls[i] == Notify(OnMessageComplete) then 1 else 0)
  {
    assert calls[..i + 1] == calls[..i] + [calls[i]];
    CompletedConcat(calls[..i], [calls[i]]);
    assert [calls[i]][1..] == [];
  }

  lemma CompletedNothing()
    ensures Completed([]) == 0
  {
  }

  /** A script that returns k good requests is accepted with count k. */
  lemma GoodRequestsAreCounted(rs: seq<Req>, v: Verdict)
    requires rs != [] && (forall r :: r in rs ==> GoodReq(r)) && Judges(v, Texts(rs))
    ensures v == Accepted(|rs|)
  {
    hide Call, GoodReq, Place, Completed, AllEvents, Texts;
    PipelinedRoundTrip(rs);
  }

  // ---------- an error that goes unnoticed ----------

  /** A header value with no line end among the bytes that are searched. */
  predicate Endless(tail: string) {
    && |tail| >= 2 && tail[0] != ' ' && tail[0] != '\t' && IsHeaderChar(tail[1])
    && forall i :: 0 <= i < |tail| && i <= MAX_HEADER ==> tail[i] != CR && tail[i] != LF
  }

  /** Inside such a value the parser goes on to the end of the text, whatever the rest of it is. */
  lemma EndlessRun(m: Machine, tail: string)
    requires MachineInv(m) && m.stop.Running? && m.ps.state.HeaderValueDiscardWs? && FieldState(m.ps.hstate)
    requires m.nread + 1 < MAX_HEADER
    requires !m.ps.hstate.HConnection? && !m.ps.hstate.HContentLength? && !m.ps.hstate.HTransferEncoding?
    requires !m.ps.hstate.HUpgrade?
    requires Endless(tail) && m.nread + |tail| >= MAX_HEADER
    ensures Unseen(Run(m, tail)) && Run(m, tail).log == Push(m.log, Data(OnHeaderValue, tail))
  {
    hide Run, ValueStart, ValueByte, MachineInv, IsHeaderChar, Push, Byte;
    var t := tail[2..];
    PlainStart(m.ps, tail[0]);
    FirstByte(m, tail[0]);
    ByteKeeps(m, tail[0]);
    var r := Byte(m, tail[0]);
    LoopedStart(r, OnHeaderValue);
    assert ValueByte(r.ps, tail[1]) == r.ps by { GeneralByte(r.ps, tail[1]); }
    ValueLoopByte(r, "", r.ps, Fresh, tail[1]);
    assert "" + [tail[1]] == [tail[1]] && [tail[1]] + t == tail[1..];
    JumpBytes(r, [tail[1]], r.ps, 1, t);
    PushTwice(m.log, OnHeaderValue, [tail[0]], tail[1..]);
    assert tail == [tail[0]] + tail[1..];
    RunCons(m, tail[0], tail[1..]);
  }

  lemma GeneralByte(p: Parser, ch: char)
    requires p.hstate.HGeneral?
    ensures ValueByte(p, ch) == p
  {
  }

  /** The request line and the name in front of the value. */
  lemma NamedRun(m: Machine, r: Req, name: string) returns (y: Machine)
    requires Waiting(m) && GoodReq(r) && IsName(name) && !IsSpecial(name)
    requires |StartLine(r.meth, r.target)| + |name| + 3 < MAX_HEADER
    ensures y == Run(m, StartLine(r.meth, r.target) + (name + ": "))
    ensures MachineInv(y) && y.stop.Running? && y.ps.state.HeaderValueDiscardWs? && FieldState(y.ps.hstate)
    ensures !y.ps.hstate.HConnection? && !y.ps.hstate.HContentLength? && !y.ps.hstate.HTransferEncoding?
    ensures !y.ps.hstate.HUpgrade?
    ensures y.nread == |StartLine(r.meth, r.target) + (name + ": ")|
    ensures y.log == m.log + [Notify(OnMessageBegin), Data(OnUrl, r.target), Data(OnHeaderField, name)]
  {
    hide Run, MachineInv, GoodReq, NameRecord, LowerName, StartLine, Push, IsName, Waiting;
    var first := StartLine(r.meth, r.target);
    StartLineRecord(m, r);
    var x := Run(m, first);
    NameAndColon(x, name);
    NameAlike(x.ps, name) by { NotEmpty(name); }
    NamesRecognised(x.ps, name) by { NotEmpty(name); }
    RunConcat(m, first, name + ": ");
    RunKeeps(x, name + ": ");
    y := Run(m, first + (name + ": "));
    PushNew(x.log, Data(OnHeaderField, name));
  }

  lemma NotEmpty(name: string)
    requires IsName(name)
    ensures name != ""
  {
  }

  /**
   A whole family of texts whose error goes unnoticed: good requests, then a request line and a header whose value has
   no line end in its first 80 KiB. What follows may be anything; the text is accepted, with the number of the good
   requests.
  */
  lemma TailUnread(rs: seq<Req>, r: Req, name: string, tail: string, v: Verdict)
    requires rs != [] && (forall x :: x in rs ==> GoodReq(x)) && GoodReq(r)
    requires IsName(name) && !IsSpecial(name) && |StartLine(r.meth, r.target)| + |name| + 3 < MAX_HEADER
    requires Endless(tail) && |StartLine(r.meth, r.target)| + |name| + 2 + |tail| >= MAX_HEADER
    requires Judges(v, Texts(rs) + (StartLine(r.meth, r.target) + (name + ": ") + tail))
    ensures v == Accepted(|rs|)
    ensures Call(Init(HttpTypes.Request), 0, [],
        Texts(rs) + (StartLine(r.meth, r.target) + (name + ": ") + tail)).ps.errno.HeaderOverflow?
  {
    hide Run, MachineInv, GoodReq, StartLine, IsName, IsSpecial, Endless, Call, Waiting, Completed, Push, Texts,
         AllEvents;
    var head := StartLine(r.meth, r.target) + (name + ": ");
    var m0, text := Begun(), Texts(rs) + (head + tail);
    assert Waiting(m0) by { Starts(); }
    PipelineRun(m0, rs);
    var m := Run(m0, Texts(rs));
    var y := NamedRun(m, r, name);
    EndlessRun(y, tail);
    RunConcat(m, head, tail);
    RunConcat(m0, Texts(rs), head + tail);
    ErrorAtEnd(text);
    OpenLog(m.log, [Notify(OnMessageBegin), Data(OnUrl, r.target), Data(OnHeaderField, name)], tail);
    PipelineCompletes(rs);
    assert [] + AllEvents(rs) == AllEvents(rs);
  }

  lemma Starts()
    ensures Waiting(Begun())
  {
  }

  lemma {:induction false} NoneCompleted(events: seq<Event>)
    requires Notify(OnMessageComplete) !in events
    ensures Completed(events) == 0
    decreases |events|
  {
    if events != [] { NoneCompleted(events[1..]); }
  }

  /** Events without a completion add none. */
  lemma OpenLog(log: seq<Event>, events: seq<Event>, tail: string)
    requires Notify(OnMessageComplete) !in events
    ensures Completed(Push(log + events, Data(OnHeaderValue, tail))) == Completed(log)
  {
    hide Push, Completed, Notes;
    NotesPush(log + events, Data(OnHeaderValue, tail));
    assert Notes(log + events) + [] == Notes(log + events);
    SameCompleted(Push(log + events, Data(OnHeaderValue, tail)), log + events);
    CompletedConcat(log, events);
    NoneCompleted(events);
  }

  /** One good request, then a request with a value of 90000 bytes, then anything at all. */
  lemma UnnoticedError(rest: string, v: Verdict)
    requires Judges(v, "GET / HTTP/1.1\r\n\r\n" + ("GET / HTTP/1.1\r\nA: " + (seq(90000, _ => 'x') + rest)))
    ensures v == Accepted(1)
  {
    hide Judges, GoodReq, IsName, IsSpecial, Endless, StartLine, LowerName, Text;
    var r, tail := Req(GET, "/", [], None), seq(90000, _ => 'x') + rest;
    Smallest();
    assert Texts([r]) == Text(r) by {
      assert [r][1..] == [];
      assert Texts([r]) == Text(r) + "";
    }
    assert Endless(tail) by { LongValue(rest); }
    OneLetterName();
    assert StartLine(GET, "/") + ("A" + ": ") + tail == "GET / HTTP/1.1\r\nA: " + tail by {
      assert "GET / HTTP/1.1\r\n" + ("A" + ": ") == "GET / HTTP/1.1\r\nA: ";
    }
    TailUnread([r], r, "A", tail, v);
  }

  lemma LongValue(rest: string)
    ensures Endless(seq(90000, _ => 'x') + rest)
  {
  }

  lemma OneLetterName()
    ensures IsName("A") && !IsSpecial("A")
  {
    assert LowerName("A") == "a";
  }

  lemma Smallest()
    ensures var r := Req(GET, "/", [], None);
      GoodReq(r) && Text(r) == "GET / HTTP/1.1\r\n\r\n" && StartLine(GET, "/") == "GET / HTTP/1.1\r\n"
  {
    hide GoodTarget;
    PathIsGood("/");
    var r := Req(GET, "/", [], None);
    assert StartLine(GET, "/") == "GET / HTTP/1.1\r\n";
    assert HeadText(r) == StartLine(GET, "/") + "" + CRLF;
    assert Text(r) == HeadText(r) + "";
  }
}
