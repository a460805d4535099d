/** Inputs for which nothing depends on the cuts, and the pipelined round trip under any cuts. */
module HttpCuts {
  import opened Chars
  import opened HttpTypes
  import opened HttpStep
  import opened HttpSpec
  import opened HttpInvariant
  import opened HttpRuns
  import opened HttpNames
  import opened HttpHeaders
  import opened HttpLengths
  import opened HttpStartLine
  import opened HttpBodies
  import opened HttpRequests
  import opened HttpSplit

  /** No byte of this input would be a bad cut. */
  predicate NoBadByte(a: Machine, data: string)
    decreases |data|
  {
    data == "" || (!BadCut(a.ps, data[0]) && NoBadByte(Byte(a, data[0]), data[1..]))
  }

  lemma {:induction false} NoBadConcat(a: Machine, A: string, B: string)
    ensures NoBadByte(a, A + B) <==> NoBadByte(a, A) && NoBadByte(Run(a, A), B)
    decreases |A|
  {
    hide Byte, BadCut;
    if A == "" {
      assert A + B == B;
    } else {
      assert (A + B)[0] == A[0] && (A + B)[1..] == A[1..] + B;
      NoBadConcat(Byte(a, A[0]), A[1..], B);
    }
  }

  lemma {:induction false} NoBadPieces(a: Machine, pieces: seq<string>)
    requires Pieces(pieces) && NoBadByte(a, Concat(pieces))
    ensures NoBadCut(a, pieces)
    decreases |pieces|
  {
    hide Run, BadCut, Byte;
    if pieces != [] {
      NoBadConcat(a, pieces[0], Concat(pieces[1..]));
      NoBadPieces(Run(a, pieces[0]), pieces[1..]);
    }
  }

  predicate HeaderBytes(s: string) { forall i :: 0 <= i < |s| ==> IsHeaderChar(s[i]) }

  lemma {:induction false} HeaderBytesGood(a: Machine, data: string)
    requires HeaderBytes(data)
    ensures NoBadByte(a, data)
    decreases |data|
  {
    hide Byte, IsHeaderChar;
    if data != "" { HeaderBytesGood(Byte(a, data[0]), data[1..]); }
  }

  /**
   An input without a byte that would be a bad cut is read alike however it is cut, if the counter of the uninterrupted
   run leaves room for the cuts, or for as many bytes again.
  */
  lemma QuietSplit(p: Parser, nread: nat, log: seq<Event>, pieces: seq<string>, n: nat)
    requires Valid(p, nread, log) && p.errno.OK? && Pieces(pieces) && pieces != []
    requires var m := Machine(p, nread, log, Fresh, 0, Running);
      NoBadByte(m, Concat(pieces)) && Below(m, n, Concat(pieces))
    requires n + 1 + Least(n, |pieces| - 1) <= MAX_HEADER
    ensures var m, whole := Machine(p, nread, log, Fresh, 0, Running), Call(p, nread, log, Concat(pieces));
      var cut := Feed(m, pieces);
      && (AllRunning(m, pieces) <==> whole.stop.Running?)
      && (AllRunning(m, pieces) ==> cut.ps == whole.ps && cut.log == whole.log)
  {
    hide Run, StateInv, AllRunning, CutsFit, NoBadCut, NoBadByte, Feed, SurplusOf, Below;
    var m := Machine(p, nread, log, Fresh, 0, Running);
    SplitMany(p, nread, log, pieces);
    NoBadPieces(m, pieces);
    var whole := Call(p, nread, log, Concat(pieces));
    if whole.stop.Running? {
      assert Concat(pieces) != "" by { assert Concat(pieces) == pieces[0] + Concat(pieces[1..]); }
      SmallCutsFit(m, 0, pieces, n, 0);
    }
  }

  /** In particular an input of header characters. */
  lemma PlainSplit(p: Parser, nread: nat, log: seq<Event>, pieces: seq<string>, n: nat)
    requires Valid(p, nread, log) && p.errno.OK? && Pieces(pieces) && pieces != [] && HeaderBytes(Concat(pieces))
    requires Below(Machine(p, nread, log, Fresh, 0, Running), n, Concat(pieces))
    requires n + 1 + Least(n, |pieces| - 1) <= MAX_HEADER
    ensures var m, whole := Machine(p, nread, log, Fresh, 0, Running), Call(p, nread, log, Concat(pieces));
      var cut := Feed(m, pieces);
      && (AllRunning(m, pieces) <==> whole.stop.Running?)
      && (AllRunning(m, pieces) ==> cut.ps == whole.ps && cut.log == whole.log)
  {
    hide Valid, AllRunning, NoBadByte, Feed, Below, Call, HeaderBytes;
    HeaderBytesGood(Machine(p, nread, log, Fresh, 0, Running), Concat(pieces));
    QuietSplit(p, nread, log, pieces, n);
  }

  // ---------- pipelines under any cuts ----------

  lemma BothBytes(a: string, b: string)
    requires HeaderBytes(a) && HeaderBytes(b)
    ensures HeaderBytes(a + b)
  {
    hide IsHeaderChar;
  }

  lemma SmallBytes()
    ensures HeaderBytes(" ") && HeaderBytes(": ") && HeaderBytes(CRLF) && HeaderBytes(VERSION)
  {
  }

  lemma ShortBytes(m: Method)
    requires |MethodString(m)| <= 5
    ensures HeaderBytes(MethodString(m))
  {
  }

  lemma MiddleBytes(m: Method)
    requires 5 < |MethodString(m)| <= 7
    ensures HeaderBytes(MethodString(m))
  {
  }

  lemma LongBytes(m: Method)
    requires |MethodString(m)| > 7
    ensures HeaderBytes(MethodString(m))
  {
  }

  lemma MethodBytes(m: Method)
    ensures HeaderBytes(MethodString(m))
  {
    hide MethodString, HeaderBytes;
    var n := |MethodString(m)|;
    if n <= 5 { ShortBytes(m); } else if n <= 7 { MiddleBytes(m); } else { LongBytes(m); }
  }

  lemma UrlByteIsHeader(s: State, ch: char)
    requires !ParseUrlChar(s, ch).Dead?
    ensures IsHeaderChar(ch)
  {
  }

  lemma {:induction false} TargetBytes(s: State, t: string)
    requires !UrlFold(s, t).Dead?
    ensures HeaderBytes(t)
    decreases |t|
  {
    hide ParseUrlChar, IsHeaderChar;
    if t != "" {
      var s' := ParseUrlChar(s, t[0]);
      if s'.Dead? { DeadStays(t[1..]); }
      UrlByteIsHeader(s, t[0]);
      TargetBytes(s', t[1..]);
      assert forall i :: 0 < i < |t| ==> t[i] == t[1..][i - 1];
    }
  }

  lemma DigitsAreHeader(s: string)
    requires DigitsAndBlanks(s)
    ensures HeaderBytes(s)
  {
  }

  lemma TokenIsHeader(ch: char)
    requires IsToken(ch)
    ensures IsHeaderChar(ch)
  {
  }

  lemma LineBytes(h: Header, body: Option<string>)
    requires GoodHeader(h, body)
    ensures HeaderBytes(HeaderText(h))
  {
    hide IsHeaderChar, IsToken, LowerName, Decimal;
    SmallBytes();
    if body.Some? {
      DecimalRead(|body.value|);
      DigitsAreHeader(Decimal(|body.value|));
    }
    forall i | 0 <= i < |h.name| ensures IsHeaderChar(h.name[i]) { TokenIsHeader(h.name[i]); }
    BothBytes(h.name, ": ");
    BothBytes(h.name + ": ", h.value);
    BothBytes(h.name + ": " + h.value, CRLF);
  }

  lemma {:induction false} LinesBytes(hs: seq<Header>, body: Option<string>)
    requires forall h :: h in hs ==> GoodHeader(h, body)
    ensures HeaderBytes(HeadersText(hs))
    decreases |hs|
  {
    hide GoodHeader, HeaderText, HeaderBytes;
    if hs == [] {
      NoBytes();
    } else {
      var init, h := hs[..|hs| - 1], hs[|hs| - 1];
      LinesBytes(init, body);
      LineBytes(h, body);
      BothBytes(HeadersText(init), HeaderText(h));
    }
  }

  lemma NoBytes()
    ensures HeaderBytes("")
  {
  }

  lemma HeadBytes(r: Req)
    requires GoodReq(r)
    ensures HeaderBytes(HeadText(r))
  {
    hide HeaderBytes, MethodString, GoodHeader, HeadersText;
    SmallBytes();
    MethodBytes(r.meth);
    TargetBytes(ReqSpacesBeforeUrl, r.target);
    LinesBytes(r.headers, r.body);
    var word, target := MethodString(r.meth), r.target;
    BothBytes(word, " ");
    BothBytes(word + " ", target);
    BothBytes(word + " " + target, " ");
    BothBytes(word + " " + target + " ", VERSION);
    BothBytes(StartLine(r.meth, target), HeadersText(r.headers));
    BothBytes(StartLine(r.meth, target) + HeadersText(r.headers), CRLF);
  }

  lemma {:induction false} BelowCount(a: Machine, n: nat, data: string)
    requires a.nread + |data| <= n
    ensures Below(a, n, data)
    decreases |data|
  {
    hide Byte;
    if data != "" {
      ByteCounts(a, data[0]);
      BelowCount(Byte(a, data[0]), n, data[1..]);
    }
  }

  /** The head of a request: the counter is reset by its last byte. */
  lemma HeadQuiet(m: Machine, r: Req, n: nat)
    requires Waiting(m) && GoodReq(r) && |HeadText(r)| <= n + 1
    ensures Below(m, n, HeadText(r)) && NoBadByte(m, HeadText(r))
  {
    hide Run, Byte, GoodReq, HeaderBytes, MachineInv;
    HeadBytes(r);
    HeaderBytesGood(m, HeadText(r));
    HeadRun(m, r);
    var j := |HeadText(r)| - 1;
    var init, last := HeadText(r)[..j], HeadText(r)[j];
    assert HeadText(r) == init + [last];
    BelowCount(m, n, init);
    RunSnoc(m, init, last);
    RunCounts(m, init);
    BelowConcat(m, n, init, [last]);
    assert [last][1..] == "";
  }

  /** A body of known length counts nothing, and its bytes are no header characters to the parser. */
  lemma {:induction false} BodyQuiet(m: Machine, body: string, n: nat)
    requires m.stop.Running? && m.ps.state.BodyIdentity? && |body| <= m.ps.clen < ULLONG_MAX && !m.ps.upgrade
    requires m.nread <= n
    ensures Below(m, n, body) && NoBadByte(m, body)
    decreases |body|
  {
    hide Run, Byte, NewMessage;
    if body != "" {
      IdentityBody(m, [body[0]]);
      RunOne(m, body[0]);
      if m.ps.clen > 1 { BodyQuiet(Byte(m, body[0]), body[1..], n); } else { assert body[1..] == ""; }
    }
  }

  lemma RequestQuiet(m: Machine, r: Req, n: nat)
    requires Waiting(m) && GoodReq(r) && |HeadText(r)| <= n + 1
    ensures Below(m, n, Text(r)) && NoBadByte(m, Text(r))
  {
    hide Run, Byte, HeadText, MachineInv, Waiting, GoodHeader, Below, NoBadByte;
    HeadQuiet(m, r, n);
    HeadRun(m, r);
    var x := Run(m, HeadText(r));
    BelowConcat(m, n, HeadText(r), BodyText(r));
    NoBadConcat(m, HeadText(r), BodyText(r));
    if BodyText(r) == "" { NothingQuiet(x, n); } else { BodyQuiet(x, BodyText(r), n); }
  }

  lemma NothingQuiet(x: Machine, n: nat)
    requires x.nread <= n
    ensures Below(x, n, "") && NoBadByte(x, "")
  {
    hide Byte, BadCut;
  }

  lemma {:induction false} PipelineQuiet(m: Machine, rs: seq<Req>, n: nat)
    requires Waiting(m) && forall r :: r in rs ==> GoodReq(r) && |HeadText(r)| <= n + 1
    ensures Below(m, n, Texts(rs)) && NoBadByte(m, Texts(rs))
    decreases |rs|
  {
    hide Run, GoodReq, Text, HeadText, Below, NoBadByte, MachineInv;
    if rs == [] {
      NothingQuiet(m, n);
    } else {
      RequestQuiet(m, rs[0], n);
      RequestRun(m, rs[0]);
      PipelineQuiet(Run(m, Text(rs[0])), rs[1..], n);
      BelowConcat(m, n, Text(rs[0]), Texts(rs[1..]));
      NoBadConcat(m, Text(rs[0]), Texts(rs[1..]));
    }
  }

  /**
   The pipelined round trip under any cuts: any number of good requests with bodies of any length and content, in
   buffers that end anywhere. Each head must leave room below the limit for the cuts or for as many bytes again: heads
   of at most 40 KiB are read back exactly under all cuts.
  */
  lemma PipelinedCuts(rs: seq<Req>, pieces: seq<string>, n: nat)
    requires rs != [] && forall r :: r in rs ==> GoodReq(r) && |HeadText(r)| <= n
    requires Pieces(pieces) && Concat(pieces) == Texts(rs) && n + Least(n, |pieces|) <= MAX_HEADER
    ensures var m := Machine(Init(Request), 0, [], Fresh, 0, Running); var x := Feed(m, pieces);
      && AllRunning(m, pieces) && x.log == AllEvents(rs) && Completed(x.log) == |rs|
      && Answered(Init(Request), rs[|rs| - 1], x.ps)
  {
    hide *;
    var m := Machine(Init(Request), 0, [], Fresh, 0, Running);
    StartWaits();
    HeadNotEmpty(rs[0]);
    PipelinedRoundTrip(rs);
    SomePiece(rs, pieces);
    PipelineQuiet(m, rs, n - 1);
    assert n - 1 + 1 + Least(n - 1, |pieces| - 1) <= MAX_HEADER by { LeastBelow(n, |pieces|); }
    QuietSplit(Init(Request), 0, [], pieces, n - 1);
  }

  lemma LeastBelow(a: nat, b: nat)
    requires a > 0 && b > 0
    ensures Least(a - 1, b - 1) < Least(a, b)
  {
  }

  lemma StartWaits()
    ensures Waiting(Machine(Init(Request), 0, [], Fresh, 0, Running)) && Valid(Init(Request), 0, [])
    ensures Init(Request).errno.OK?
  {
  }

  lemma HeadNotEmpty(r: Req)
    ensures |HeadText(r)| > 0
  {
    assert |HeadText(r)| >= |CRLF|;
  }

  lemma SomePiece(rs: seq<Req>, pieces: seq<string>)
    requires rs != [] && Concat(pieces) == Texts(rs)
    ensures pieces != [] && Concat(pieces) != ""
  {
    hide Text;
    TextNotEmpty(rs[0]);
  }
}
