/** Chunked bodies (section 4.1 of RFC 7230): sizes, data, extensions and trailers. */
module HttpChunks {
  import opened Chars
  import opened HttpTypes
  import opened HttpStep
  import opened HttpSpec
  import opened HttpInvariant
  import opened HttpBulk
  import opened HttpRuns
  import opened HttpNames
  import opened HttpHeaders
  import opened HttpStartLine
  import opened HttpBodies
  import opened HttpRequests
  import opened HttpValues
  import opened HttpLines

  // ---------- sizes ----------

  /** The characters that the hex table reads as digits; bytes from 128 on read as zero. */
  predicate IsHexDigit(c: char) { Unhex(c) >= 0 }

  predicate AllHex(s: string) { forall i :: 0 <= i < |s| ==> IsHexDigit(s[i]) }

  /** The number that continues c with the hex digits s. */
  function HexValue(c: nat, s: string): nat
    requires AllHex(s)
    decreases |s|
  {
    if s == "" then c else HexValue(c * 16 + Unhex(s[0]), s[1..])
  }

  lemma {:induction false} HexGrows(c: nat, s: string)
    requires AllHex(s)
    ensures HexValue(c, s) >= c
    decreases |s|
  {
    if s != "" { HexGrows(c * 16 + Unhex(s[0]), s[1..]); }
  }

  lemma SizeSteps(p: Parser, ch: char)
    requires p.flags.chunked && IsHexDigit(ch)
    ensures p.state.ChunkSizeStart? ==> Step(p, ch, false) == Go(p.(clen := Unhex(ch), state := ChunkSize))
    ensures p.state.ChunkSize? ==>
              Step(p, ch, false) == (var q := AddHex(p, Unhex(ch)); if q.errno.OK? then Go(q) else Reject(q, q.errno))
  {
    hide HeaderStep, ResponseLine, RequestLine, UrlHead, UrlRest, ChunkLineEnd, ChunkByte, ChunkEnd, ChunkDone,
         BodyByte, AddHex;
  }

  /** The first digit of a size. Here nread counts this byte only. */
  lemma SizeFirst(m: Machine, ch: char)
    requires MachineInv(m) && m.stop.Running? && m.ps.state.ChunkSizeStart? && m.scan.Fresh? && IsHexDigit(ch)
    ensures m.nread == 0 && Byte(m, ch) == Moved(m, m.ps.(clen := Unhex(ch), state := ChunkSize), m.log, 1)
  {
    hide Step, StateInv, Unhex, Passes, LogInv;
    assert m.ps.flags.chunked by { ChunkedHere(m.ps); }
    SizeSteps(m.ps, ch);
    GoPasses(m.ps, 1, m.log, ch, m.scan, m.ps.(clen := Unhex(ch), state := ChunkSize));
  }

  lemma ChunkedHere(p: Parser)
    requires Inv(p) && ChunkState(p.state)
    ensures p.flags.chunked
  {
    hide MethodString, NameInv, ValueInv;
  }

  /** A chunk size is accepted exactly when it is at most 2^64 - 17, and then it is read without wrapping. */
  lemma {:induction false} SizeRun(m: Machine, s: string)
    requires m.stop.Running? && m.ps.state.ChunkSize? && m.ps.flags.chunked && m.ps.errno.OK? && m.ps.clen <= MAX_CHUNK
    requires m.scan.Fresh?
    requires AllHex(s) && m.nread + |s| <= MAX_HEADER
    ensures var n := HexValue(m.ps.clen, s); var r := Run(m, s);
      if n <= MAX_CHUNK then r == Moved(m, m.ps.(clen := n), m.log, |s|)
      else r.stop.Failed? && r.ps.errno.InvalidContentLength?
    decreases |s|
  {
    hide Step, Unhex, AddHex;
    if s == "" {
      RunNothing(m);
    } else {
      var d := Unhex(s[0]);
      SizeSteps(m.ps, s[0]);
      HexExact(m.ps, d) by { HexRange(s[0]); }
      HexRange(s[0]);
      HexGrows(m.ps.clen * 16 + d, s[1..]);
      if m.ps.clen <= (ULLONG_MAX - 16) / 16 {
        GoByte(m, s[0], AddHex(m.ps, d));
        SizeRun(Byte(m, s[0]), s[1..]);
      } else {
        SizeTooLarge(m, s[0]);
        RunStopped(Byte(m, s[0]), s[1..]);
      }
    }
  }

  lemma HexRange(ch: char)
    ensures -1 <= Unhex(ch) < 16
  {
  }

  lemma SizeTooLarge(m: Machine, ch: char)
    requires m.stop.Running? && m.ps.state.ChunkSize? && m.ps.flags.chunked && m.ps.errno.OK? && m.scan.Fresh?
    requires IsHexDigit(ch) && m.nread < MAX_HEADER && m.ps.clen > (ULLONG_MAX - 16) / 16
    ensures Byte(m, ch).stop.Failed? && Byte(m, ch).ps.errno.InvalidContentLength?
  {
    hide Step, Unhex;
    SizeSteps(m.ps, ch);
  }

  // ---------- sizes as RFC 7230 has them ----------

  /** chunk-size = 1*HEXDIG, letters in any case */
  predicate IsSize(s: string) { s != "" && forall i :: 0 <= i < |s| ==> IsHex(s[i]) }

  function HexDigitValue(c: char): nat
    requires IsHex(c)
  {
    if IsNum(c) then Digit(c) else Lower(c) as int - 'a' as int + 10
  }

  /** The number that a chunk size stands for, from its last digit. */
  function SizeValue(s: string): nat
    requires forall i :: 0 <= i < |s| ==> IsHex(s[i])
    decreases |s|
  {
    if s == "" then 0 else 16 * SizeValue(s[..|s| - 1]) + HexDigitValue(s[|s| - 1])
  }

  /** The table has the digits right, and nothing else below 128. */
  lemma TableIsRight(c: char)
    ensures IsHex(c) ==> IsHexDigit(c) && Unhex(c) == HexDigitValue(c) && c < 128 as char
    ensures IsHexDigit(c) && c < 128 as char ==> IsHex(c)
  {
  }

  lemma {:induction false} HexLast(c: nat, s: string, ch: char)
    requires AllHex(s) && IsHexDigit(ch)
    ensures AllHex(s + [ch]) && HexValue(c, s + [ch]) == HexValue(c, s) * 16 + Unhex(ch)
    decreases |s|
  {
    hide Unhex;
    var t := s + [ch];
    assert AllHex(t) by { forall i | 0 <= i < |t| ensures IsHexDigit(t[i]) { assert i < |s| ==> t[i] == s[i]; } }
    if s == "" {
      assert t[1..] == "" && HexValue(c * 16 + Unhex(ch), "") == c * 16 + Unhex(ch);
    } else {
      assert t[1..] == s[1..] + [ch];
      HexLast(c * 16 + Unhex(s[0]), s[1..], ch);
    }
  }

  lemma {:induction false} SizeRead(s: string)
    requires forall i :: 0 <= i < |s| ==> IsHex(s[i])
    ensures AllHex(s) && HexValue(0, s) == SizeValue(s)
    decreases |s|
  {
    hide Unhex, IsHex, HexDigitValue;
    if s != "" {
      var init, ch := s[..|s| - 1], s[|s| - 1];
      assert s == init + [ch];
      SizeRead(init);
      TableIsRight(ch);
      HexLast(0, init, ch);
    }
  }

  /** The digits that a text begins with. */
  function HexPrefix(s: string): (k: nat)
    ensures k <= |s| && AllHex(s[..k]) && (k < |s| ==> !IsHexDigit(s[k]))
    decreases |s|
  {
    if s == "" || !IsHexDigit(s[0]) then 0
    else
      var k := 1 + HexPrefix(s[1..]);
      assert forall i :: 0 < i < k ==> s[..k][i] == s[1..][..k - 1][i - 1];
      k
  }

  lemma NoDigitSteps(p: Parser, ch: char)
    requires p.flags.chunked && !IsHexDigit(ch) && ch != CR
    ensures p.state.ChunkSizeStart? ==> Step(p, ch, false) == Reject(p, InvalidChunkSize)
    ensures p.state.ChunkSize? && ch != ';' && ch != ' ' ==> Step(p, ch, false) == Reject(p, InvalidChunkSize)
  {
    hide HeaderStep, ResponseLine, RequestLine, UrlHead, UrlRest, ChunkLineEnd, ChunkByte, ChunkEnd, ChunkDone,
         BodyByte, AddHex;
  }

  lemma NoDigit(m: Machine, ch: char)
    requires MachineInv(m) && m.stop.Running? && m.scan.Fresh? && m.nread < MAX_HEADER && !IsHexDigit(ch) && ch != CR
    requires m.ps.state.ChunkSizeStart? || (m.ps.state.ChunkSize? && ch != ';' && ch != ' ')
    ensures Byte(m, ch).stop.Failed? && Byte(m, ch).ps.errno.InvalidChunkSize?
  {
    hide Step, StateInv, Unhex;
    ChunkedHere(m.ps) by { assert ChunkState(m.ps.state); }
    NoDigitSteps(m.ps, ch);
  }

  /**
   What becomes of any text in the place of a chunk size. The parser reads on exactly if all its bytes are digits of the
   table and their number is at most 2^64 - 17; else the error says whether the digits in front of the first other byte
   already made too large a number.
  */
  lemma SizeExact(m: Machine, s: string)
    requires MachineInv(m) && m.stop.Running? && m.ps.state.ChunkSizeStart? && m.scan.Fresh?
    requires s != "" && |s| <= MAX_HEADER && CR !in s && ';' !in s && ' ' !in s
    ensures var r, k := Run(m, s), HexPrefix(s);
      if HexValue(0, s[..k]) > MAX_CHUNK then r.stop.Failed? && r.ps.errno.InvalidContentLength?
      else if k < |s| then r.stop.Failed? && r.ps.errno.InvalidChunkSize?
      else r == Moved(m, m.ps.(clen := HexValue(0, s[..k]), state := ChunkSize), m.log, |s|)
  {
    hide Run, Byte, StateInv, Unhex;
    var k := HexPrefix(s);
    assert s == s[..k] + s[k..];
    RunConcat(m, s[..k], s[k..]);
    if k == 0 {
      assert s[..0] == "" && HexValue(0, "") == 0;
      NoDigit(m, s[0]);
      RunStopped(Byte(m, s[0]), s[1..]);
      StepsOut(m, s);
    } else {
      ChunkedHere(m.ps);
      HexRange(s[0]);
      SizeFirst(m, s[0]);
      var a := Byte(m, s[0]);
      assert s[..k] == [s[0]] + s[..k][1..] && HexValue(0, s[..k]) == HexValue(Unhex(s[0]), s[..k][1..]);
      SizeRun(a, s[..k][1..]);
      RunCons(m, s[0], s[..k][1..]);
      var b := Run(m, s[..k]);
      if !b.stop.Running? {
        RunStopped(b, s[k..]);
      } else if k < |s| {
        RunKeeps(m, s[..k]);
        assert s[k] in s;
        NoDigit(b, s[k]);
        RunStopped(Byte(b, s[k]), s[k..][1..]);
        StepsOut(b, s[k..]);
      } else {
        assert s[..k] == s && s[k..] == "";
        RunNothing(b);
      }
    }
  }

  lemma StepsOut(m: Machine, s: string)
    requires s != ""
    ensures Run(m, s) == Run(Byte(m, s[0]), s[1..])
  {
    hide Byte;
  }

  /**
   An accepted text is a chunk size of RFC 7230 if and only if it holds no byte from 128 on; then it is read as the
   number it stands for. A byte from 128 on is read as the digit zero.
  */
  lemma SizeIsRfc(m: Machine, s: string)
    requires MachineInv(m) && m.stop.Running? && m.ps.state.ChunkSizeStart? && m.scan.Fresh?
    requires s != "" && |s| <= MAX_HEADER && CR !in s && ';' !in s && ' ' !in s && Run(m, s).stop.Running?
    ensures IsSize(s) <==> forall i :: 0 <= i < |s| ==> s[i] < 128 as char
    ensures IsSize(s) ==> Run(m, s).ps.clen == SizeValue(s)
  {
    hide Run, Unhex, IsHex, StateInv;
    SizeExact(m, s);
    var k := HexPrefix(s);
    assert k == |s| && s[..k] == s;
    forall i | 0 <= i < |s| ensures IsHex(s[i]) <==> s[i] < 128 as char {
      assert IsHexDigit(s[..k][i]);
      TableIsRight(s[i]);
    }
    if IsSize(s) { SizeRead(s); }
  }

  // ---------- one chunk ----------

  /** A chunk with the spelling of its size, its extension, and its data. */
  datatype Chunk = Chunk(size: string, ext: string, data: string)

  predicate GoodSize(size: string, n: nat) { size != "" && AllHex(size) && HexValue(0, size) == n && n <= MAX_CHUNK }

  function HexChar(d: nat): (c: char)
    requires d < 16
    ensures Unhex(c) == d
  {
    if d < 10 then ('0' as int + d) as char else ('a' as int + d - 10) as char
  }

  /** A size as printf's %x spells it. */
  function Hex(n: nat): string {
    if n < 16 then [HexChar(n)] else Hex(n / 16) + [HexChar(n % 16)]
  }

  lemma {:induction false} HexSnoc(c: nat, s: string, d: nat)
    requires AllHex(s) && d < 16
    ensures AllHex(s + [HexChar(d)]) && HexValue(c, s + [HexChar(d)]) == HexValue(c, s) * 16 + d
    decreases |s|
  {
    hide Unhex, HexChar;
    var t := s + [HexChar(d)];
    if s == "" {
      assert t == [HexChar(d)] && t[1..] == "";
      assert HexValue(c * 16 + d, "") == c * 16 + d;
    } else {
      assert t[1..] == s[1..] + [HexChar(d)];
      HexSnoc(c * 16 + Unhex(s[0]), s[1..], d);
      assert AllHex(t[1..]) && t[0] == s[0];
    }
  }

  /** Every size up to 2^64 - 17 is read back from its hex spelling. */
  lemma HexRead(n: nat)
    requires n <= MAX_CHUNK
    ensures GoodSize(Hex(n), n)
  {
    HexSpells(n);
  }

  lemma {:induction false} HexSpells(n: nat)
    ensures Hex(n) != "" && AllHex(Hex(n)) && HexValue(0, Hex(n)) == n
  {
    hide Unhex, HexChar;
    if n < 16 {
      assert Hex(n)[1..] == "" && HexValue(n, "") == n;
    } else {
      HexSpells(n / 16);
      HexSnoc(0, Hex(n / 16), n % 16);
    }
  }

  predicate GoodExt(ext: string) { ext != "" ==> (ext[0] == ';' || ext[0] == ' ') && CR !in ext }

  predicate GoodChunk(c: Chunk) {
    GoodSize(c.size, |c.data|) && c.data != "" && GoodExt(c.ext) && |c.size| + |c.ext| + 2 <= MAX_HEADER
  }

  function SizeLine(size: string, ext: string): string { size + ext + CRLF }

  function ChunkText(c: Chunk): string { SizeLine(c.size, c.ext) + c.data + CRLF }

  lemma ExtSteps(p: Parser, ch: char)
    requires p.flags.chunked
    ensures p.state.ChunkSize? && (ch == ';' || ch == ' ') ==> Step(p, ch, false) == Go(p.(state := ChunkParameters))
    ensures p.state.ChunkParameters? && ch != CR ==> Step(p, ch, false) == Go(p)
    ensures (p.state.ChunkSize? || p.state.ChunkParameters?) && ch == CR ==>
        Step(p, ch, false) == Go(p.(state := ChunkSizeAlmostDone))
    ensures p.state.ChunkSizeAlmostDone? && ch == LF ==> Step(p, ch, false) == ChunkLineEnd(p, LF)
  {
    hide HeaderStep, ResponseLine, RequestLine, UrlHead, UrlRest, ChunkFirst, ChunkLineEnd, ChunkByte, ChunkEnd,
         ChunkDone, BodyByte, AddHex;
  }

  lemma {:induction false} ExtRun(m: Machine, ext: string)
    requires m.stop.Running? && m.ps.flags.chunked && m.scan.Fresh? && m.nread + |ext| <= MAX_HEADER && CR !in ext
    requires m.ps.state.ChunkParameters? || (m.ps.state.ChunkSize? && GoodExt(ext))
    ensures var s := if ext == "" then m.ps.state else ChunkParameters;
        Run(m, ext) == Moved(m, m.ps.(state := s), m.log, |ext|)
    decreases |ext|
  {
    hide Step;
    if ext == "" {
      RunNothing(m);
    } else {
      ExtSteps(m.ps, ext[0]);
      GoByte(m, ext[0], m.ps.(state := ChunkParameters));
      ExtRun(Byte(m, ext[0]), ext[1..]);
    }
  }

  /** The record behind a size line: data follow, or the trailer after a size of zero. */
  function SizeRecord(p: Parser): Parser {
    if p.clen == 0 then p.(flags := p.flags.(trailing := true), state := HeaderFieldStart) else p.(state := ChunkData)
  }

  lemma SizeEndByte(m: Machine)
    requires m.stop.Running? && m.ps.flags.chunked && m.scan.Fresh? && m.nread < MAX_HEADER
    requires m.ps.state.ChunkSizeAlmostDone?
    ensures Byte(m, LF) == Machine(SizeRecord(m.ps), 0, Push(m.log, Notify(OnChunkHeader)), Fresh, m.used + 1, Running)
  {
    hide Step, Byte, Push;
    ExtSteps(m.ps, LF);
    OnePass(m, LF);
  }

  lemma SizeEnd(m: Machine)
    requires m.stop.Running? && m.ps.flags.chunked && m.scan.Fresh? && m.nread + 2 <= MAX_HEADER
    requires m.ps.state.ChunkSize? || m.ps.state.ChunkParameters?
    ensures Run(m, CRLF) == Machine(SizeRecord(m.ps), 0, Push(m.log, Notify(OnChunkHeader)), Fresh, m.used + 2, Running)
  {
    hide Step, Byte, Push;
    ExtSteps(m.ps, CR);
    OnePass(m, CR);
    SizeEndByte(Byte(m, CR));
    assert CRLF == [CR] + [LF];
    RunCons(m, CR, [LF]);
    RunOne(Byte(m, CR), LF);
  }

  /** A whole size line. */
  lemma SizeLineRun(m: Machine, size: string, ext: string, n: nat)
    requires MachineInv(m) && m.stop.Running? && m.ps.state.ChunkSizeStart? && m.scan.Fresh?
    requires GoodSize(size, n) && GoodExt(ext) && |size| + |ext| + 2 <= MAX_HEADER
    ensures var q := if n == 0 then m.ps.(clen := 0, flags := m.ps.flags.(trailing := true), state := HeaderFieldStart)
                     else m.ps.(clen := n, state := ChunkData);
      Run(m, SizeLine(size, ext)) ==
        Machine(q, 0, Push(m.log, Notify(OnChunkHeader)), Fresh, m.used + |SizeLine(size, ext)|, Running)
  {
    hide Run, Byte, Push, StateInv, Unhex;
    ChunkedHere(m.ps);
    HexRange(size[0]);
    SizeFirst(m, size[0]);
    var a := Byte(m, size[0]);
    assert HexValue(0, size) == HexValue(Unhex(size[0]), size[1..]);
    SizeRun(a, size[1..]);
    assert size == [size[0]] + size[1..];
    RunCons(m, size[0], size[1..]);
    var b := Run(m, size);
    ExtRun(b, ext);
    assert SizeLine(size, ext) == size + (ext + CRLF);
    RunConcat(m, size, ext + CRLF);
    RunConcat(b, ext, CRLF);
    SizeEnd(Run(b, ext));
  }

  lemma DataEndSteps(p: Parser)
    requires p.flags.chunked
    ensures p.state.ChunkDataAlmostDone? && p.clen == 0 ==>
              Step(p, CR, false) == Go(p.(state := ChunkDataDone)).(flush := Some(OnBody))
    ensures p.state.ChunkDataDone? ==>
              Step(p, LF, false) == Go(p.(state := ChunkSizeStart)).(note := Some(OnChunkComplete), reset := true)
  {
    hide HeaderStep, ResponseLine, RequestLine, UrlHead, UrlRest, ChunkFirst, ChunkDigit, ChunkLineEnd, ChunkByte,
         BodyByte;
  }

  /** A byte of a body state takes one pass and is not counted. */
  lemma OneBodyPass(m: Machine, ch: char)
    requires m.stop.Running? && !ParsingHeader(m.ps.state) && Step(m.ps, ch, m.scan.Skipping?).next.Advance?
    ensures var o := Step(m.ps, ch, m.scan.Skipping?);
      Byte(m, ch) == Machine(o.st, if o.reset then 0 else m.nread, LogAfter(m.ps.state, m.log, o, ch),
                             ScanAfter(m.ps, o.st, m.scan), m.used + 1, Running)
  {
    hide Step, LogAfter;
  }

  lemma DataEndByte(m: Machine)
    requires m.stop.Running? && m.ps.flags.chunked && m.scan.Fresh? && m.ps.state.ChunkDataAlmostDone? && m.ps.clen == 0
    ensures Byte(m, CR) == Machine(m.ps.(state := ChunkDataDone), m.nread, m.log, Fresh, m.used + 1, Running)
  {
    hide Step, Byte, Push;
    DataEndSteps(m.ps);
    OneBodyPass(m, CR);
  }

  lemma DataDoneByte(m: Machine)
    requires m.stop.Running? && m.ps.flags.chunked && m.scan.Fresh? && m.ps.state.ChunkDataDone?
    ensures Byte(m, LF) == Machine(m.ps.(state := ChunkSizeStart), 0, Push(m.log, Notify(OnChunkComplete)), Fresh,
        m.used + 1, Running)
  {
    hide Step, Byte, Push;
    DataEndSteps(m.ps);
    OneBodyPass(m, LF);
  }

  lemma DataEnd(m: Machine)
    requires m.stop.Running? && m.ps.flags.chunked && m.scan.Fresh? && m.ps.state.ChunkDataAlmostDone? && m.ps.clen == 0
    ensures Run(m, CRLF) == Machine(m.ps.(state := ChunkSizeStart), 0, Push(m.log, Notify(OnChunkComplete)), Fresh,
        m.used + 2, Running)
  {
    hide Run, Byte, Push;
    DataEndByte(m);
    DataDoneByte(Byte(m, CR));
    RunLineEnd(m);
  }

  function ChunkEvents(c: Chunk): seq<Event> { [Notify(OnChunkHeader), Data(OnBody, c.data), Notify(OnChunkComplete)] }

  lemma ChunkRun(m: Machine, c: Chunk)
    requires MachineInv(m) && m.stop.Running? && m.ps.state.ChunkSizeStart? && m.scan.Fresh? && GoodChunk(c)
    ensures Run(m, ChunkText(c)) ==
      Machine(m.ps.(clen := 0), 0, m.log + ChunkEvents(c), Fresh, m.used + |ChunkText(c)|, Running)
  {
    hide Run, StateInv, SizeLine, GoodSize, GoodExt;
    ChunkedHere(m.ps);
    var line := SizeLine(c.size, c.ext);
    assert ChunkText(c) == line + (c.data + CRLF);
    SizeBound(c);
    SizeLineRun(m, c.size, c.ext, |c.data|);
    RunConcat(m, line, c.data + CRLF);
    var a := Run(m, line);
    BodyRun(a, c.data);
    RunConcat(a, c.data, CRLF);
    DataEnd(Run(a, c.data));
    PushNew(m.log, Notify(OnChunkHeader));
    PushNew(a.log, Data(OnBody, c.data));
    PushNew(a.log + [Data(OnBody, c.data)], Notify(OnChunkComplete));
  }

  lemma SizeBound(c: Chunk)
    requires GoodChunk(c)
    ensures 0 < |c.data| <= MAX_CHUNK
  {
  }

  // ---------- all chunks ----------

  function ChunksText(cs: seq<Chunk>): string { if cs == [] then "" else ChunkText(cs[0]) + ChunksText(cs[1..]) }

  function ChunksEvents(cs: seq<Chunk>): seq<Event> {
    if cs == [] then [] else ChunkEvents(cs[0]) + ChunksEvents(cs[1..])
  }

  lemma {:induction false} ChunksRun(m: Machine, cs: seq<Chunk>)
    requires MachineInv(m) && m.stop.Running? && m.ps.state.ChunkSizeStart? && m.scan.Fresh? && m.nread == 0
    requires forall c :: c in cs ==> GoodChunk(c)
    ensures var x := Run(m, ChunksText(cs));
      MachineInv(x) && x == Machine(m.ps.(clen := x.ps.clen), 0, m.log + ChunksEvents(cs), Fresh,
        m.used + |ChunksText(cs)|, Running)
    decreases |cs|
  {
    hide Run, MachineInv, ChunkText, GoodChunk, ChunkEvents, ChunksText, ChunksEvents;
    ChunksUnfold(cs);
    if cs == [] {
      RunNothing(m);
      assert m.log + [] == m.log;
    } else {
      ChunkRun(m, cs[0]);
      RunKeeps(m, ChunkText(cs[0]));
      var x := Run(m, ChunkText(cs[0]));
      ChunksRun(x, cs[1..]);
      RunConcat(m, ChunkText(cs[0]), ChunksText(cs[1..]));
      assert m.log + ChunkEvents(cs[0]) + ChunksEvents(cs[1..]) == m.log + ChunksEvents(cs);
    }
  }

  lemma ChunksUnfold(cs: seq<Chunk>)
    ensures cs == [] ==> ChunksText(cs) == "" && ChunksEvents(cs) == []
    ensures cs != [] ==> ChunksText(cs) == ChunkText(cs[0]) + ChunksText(cs[1..])
    ensures cs != [] ==> ChunksEvents(cs) == ChunkEvents(cs[0]) + ChunksEvents(cs[1..])
  {
    hide ChunkText, ChunkEvents;
  }

  // ---------- the last chunk and the trailer ----------

  lemma TrailerSteps(p: Parser)
    ensures p.state.HeadersAlmostDone? && p.flags.trailing ==>
              Step(p, LF, false) == Redo(p.(state := MessageDone)).(note := Some(OnChunkComplete))
    ensures p.state.MessageDone? && !p.upgrade ==> Step(p, LF, false) == Complete(p)
  {
    hide LineStart, FieldStep, DiscardWs, ValueStart, ValueStep, ValueLws, DiscardLws, BodyStart, ResponseLine,
         RequestLine, UrlHead, UrlRest, ChunkFirst, ChunkDigit, ChunkLineEnd, ChunkByte, ChunkEnd, ChunkDone, BodyByte,
         NewMessage;
  }

  /** The empty line that ends the trailer completes the message. */
  lemma TrailerEnd(m: Machine)
    requires MachineInv(m) && m.stop.Running? && m.scan.Fresh? && m.nread + 2 <= MAX_HEADER
    requires Settle(m).ps.state.HeaderFieldStart? && Settle(m).ps.flags.trailing && !Settle(m).ps.upgrade
    ensures var s := Settle(m); var q := s.ps.(state := MessageDone);
      Run(m, CRLF) == Machine(q.(state := NewMessage(q)), m.nread + 2,
                              Push(Push(s.log, Notify(OnChunkComplete)), Notify(OnMessageComplete)), Fresh, m.used + 2,
                                Running)
  {
    hide Step, Byte, Push, NewMessage, MachineInv, Settle;
    var s := Settle(m);
    SettleShape(m);
    SettleByte(m, CR);
    CloseSteps(s.ps);
    OnePass(s, CR);
    var r := Byte(m, CR);
    TrailerByte(r);
    assert CRLF == [CR] + [LF];
    RunCons(m, CR, [LF]);
    RunOne(r, LF);
  }

  lemma TrailerByte(m: Machine)
    requires m.stop.Running? && m.scan.Fresh? && m.nread < MAX_HEADER
    requires m.ps.state.HeadersAlmostDone? && m.ps.flags.trailing && !m.ps.upgrade
    ensures var q := m.ps.(state := MessageDone);
      Byte(m, LF) == Machine(q.(state := NewMessage(q)), m.nread + 1,
                             Push(Push(m.log, Notify(OnChunkComplete)), Notify(OnMessageComplete)), Fresh, m.used + 1,
                               Running)
  {
    hide Step, Push, NewMessage;
    var q, log := m.ps.(state := MessageDone), Push(m.log, Notify(OnChunkComplete));
    TrailerSteps(m.ps);
    TrailerSteps(q);
    assert Passes(m.ps, m.nread + 1, m.log, LF, m.scan) == Passes(q, m.nread + 1, log, LF, m.scan);
    assert Passes(q, m.nread + 1, log, LF, m.scan).stop.Running?;
  }

  /** The end of a chunked body: a zero size with its extension, trailer lines, and the empty line. */
  datatype Ending = Ending(size: string, ext: string, trailer: seq<Header>)

  function EndingText(e: Ending): string { SizeLine(e.size, e.ext) + HeadersText(e.trailer) + CRLF }

  function EndingEvents(e: Ending): seq<Event> {
    [Notify(OnChunkHeader)] + HeaderEvents(e.trailer) + [Notify(OnChunkComplete), Notify(OnMessageComplete)]
  }

  predicate GoodEnding(e: Ending) {
    && GoodSize(e.size, 0) && GoodExt(e.ext) && |e.size| + |e.ext| + 2 <= MAX_HEADER
    && (forall h :: h in e.trailer ==> FreeHeader(h)) && |HeadersText(e.trailer)| + 2 <= MAX_HEADER
  }

  /** The record with the flags of the trailer's header lines. */
  function AfterTrailer(p: Parser, e: Ending): Parser { p.(flags := HeadersFlags(e.trailer, p.flags)) }

  lemma EndingRun(m: Machine, e: Ending)
    requires MachineInv(m) && m.stop.Running? && m.ps.state.ChunkSizeStart? && m.scan.Fresh? && GoodEnding(e)
    requires !m.ps.upgrade
    ensures var x := Run(m, EndingText(e));
      && x.stop.Running? && x.scan.Fresh? && x.log == m.log + EndingEvents(e) && x.used == m.used + |EndingText(e)|
      && x.ps.state == NewMessage(AfterTrailer(m.ps, e))
  {
    hide Run, StateInv, SizeLine, GoodSize, GoodExt, Settle, FreeHeader, HeadersFlags, IsName;
    var line, rest := SizeLine(e.size, e.ext), HeadersText(e.trailer) + CRLF;
    assert EndingText(e) == line + rest;
    SizeLineRun(m, e.size, e.ext, 0);
    RunKeeps(m, line);
    RunConcat(m, line, rest);
    var a := Run(m, line);
    PushNew(m.log, Notify(OnChunkHeader));
    BlockFlags(e.trailer, m.ps.flags);
    BlockFlags(e.trailer, a.ps.flags);
    FreeLines(a, e.trailer);
    RunKeeps(a, HeadersText(e.trailer));
    RunConcat(a, HeadersText(e.trailer), CRLF);
    var b := Run(a, HeadersText(e.trailer));
    SettleShape(b);
    TrailerEnd(b);
    PushNew(Settle(b).log, Notify(OnChunkComplete));
    PushNew(Settle(b).log + [Notify(OnChunkComplete)], Notify(OnMessageComplete));
    ChunkedInv(m);
    SameNewMessage(AfterTrailer(m.ps, e), Settle(b).ps.(state := MessageDone));
  }

  lemma SameNewMessage(p: Parser, q: Parser)
    requires p.kind == q.kind && p.major == q.major && p.minor == q.minor && p.flags.close == q.flags.close
    requires p.flags.keepAlive == q.flags.keepAlive && p.flags.chunked && q.flags.chunked && p.status == q.status
    requires p.flags.skipBody == q.flags.skipBody
    ensures NewMessage(p) == NewMessage(q)
  {
  }

  // ---------- the round trip ----------

  /** The concatenated data of the body events of a log. */
  function BodyOf(log: seq<Event>): string {
    if log == [] then "" else (match log[0] case Data(OnBody, text) => text case _ => "") + BodyOf(log[1..])
  }

  function DataOf(cs: seq<Chunk>): string { if cs == [] then "" else cs[0].data + DataOf(cs[1..]) }

  /**
   A chunked body of any number of non-empty chunks, in any spelling of their sizes, with extensions and a trailer, is
   consumed whole; the data of on_body are the chunks' data in order, and exactly one message completes.
  */
  lemma ChunkedRoundTrip(m: Machine, cs: seq<Chunk>, e: Ending)
    requires MachineInv(m) && m.stop.Running? && m.ps.state.ChunkSizeStart? && m.scan.Fresh? && m.nread == 0
    requires !m.ps.upgrade
    requires (forall c :: c in cs ==> GoodChunk(c)) && GoodEnding(e)
    ensures var x := Run(m, ChunksText(cs) + EndingText(e));
      && x.stop.Running? && x.scan.Fresh? && x.used == m.used + |ChunksText(cs) + EndingText(e)|
      && x.ps.state == NewMessage(AfterTrailer(m.ps, e))
      && x.log == m.log + ChunksEvents(cs) + EndingEvents(e)
      && BodyOf(ChunksEvents(cs) + EndingEvents(e)) == DataOf(cs)
      && Completed(ChunksEvents(cs) + EndingEvents(e)) == 1
  {
    hide Run, MachineInv, GoodChunk, GoodEnding, EndingText, EndingEvents, ChunksText, ChunksEvents;
    ChunksRun(m, cs);
    var x := Run(m, ChunksText(cs));
    RunConcat(m, ChunksText(cs), EndingText(e));
    EndingRun(x, e);
    ChunkedInv(m);
    BlockFlags(e.trailer, m.ps.flags);
    SameNewMessage(AfterTrailer(m.ps, e), AfterTrailer(x.ps, e));
    EndingBody(e);
    ChunksBody(cs, EndingEvents(e));
  }

  lemma ChunkedInv(m: Machine)
    requires MachineInv(m) && m.stop.Running? && m.ps.state.ChunkSizeStart?
    ensures m.ps.flags.chunked
  {
    hide StateInv;
    ChunkedHere(m.ps);
  }

  lemma {:induction false} TrailerBody(hs: seq<Header>, tail: seq<Event>)
    ensures BodyOf(HeaderEvents(hs) + tail) == BodyOf(tail) && Completed(HeaderEvents(hs) + tail) == Completed(tail)
    decreases |hs|
  {
    if hs == [] {
      assert HeaderEvents(hs) + tail == tail;
    } else {
      var h := hs[|hs| - 1];
      var tail1 := [Data(OnHeaderValue, h.value)] + tail;
      var tail2 := [Data(OnHeaderField, h.name)] + tail1;
      assert HeaderEvents(hs) + tail == HeaderEvents(hs[..|hs| - 1]) + tail2;
      TrailerBody(hs[..|hs| - 1], tail2);
      assert tail2[1..] == tail1 && tail1[1..] == tail;
    }
  }

  lemma EndingBody(e: Ending)
    ensures BodyOf(EndingEvents(e)) == "" && Completed(EndingEvents(e)) == 1
  {
    var tail := [Notify(OnChunkComplete), Notify(OnMessageComplete)];
    assert EndingEvents(e) == [Notify(OnChunkHeader)] + (HeaderEvents(e.trailer) + tail);
    assert EndingEvents(e)[1..] == HeaderEvents(e.trailer) + tail;
    TrailerBody(e.trailer, tail);
    assert tail[1..] == [tail[1]] && tail[1..][1..] == [];
    assert BodyOf(tail[1..][1..]) == "" && Completed(tail[1..][1..]) == 0;
  }

  lemma BodyCons(e: Event, rest: seq<Event>)
    ensures BodyOf([e] + rest) == (match e case Data(OnBody, text) => text case _ => "") + BodyOf(rest)
    ensures Completed([e] + rest) == (if e == Notify(OnMessageComplete) then 1 else 0) + Completed(rest)
  {
    assert ([e] + rest)[1..] == rest;
  }

  lemma ChunkBody(c: Chunk, rest: seq<Event>)
    ensures BodyOf(ChunkEvents(c) + rest) == c.data + BodyOf(rest)
    ensures Completed(ChunkEvents(c) + rest) == Completed(rest)
  {
    hide BodyOf, Completed;
    var e1, e2, e3 := Notify(OnChunkHeader), Data(OnBody, c.data), Notify(OnChunkComplete);
    assert ChunkEvents(c) + rest == [e1] + ([e2] + ([e3] + rest));
    BodyCons(e1, [e2] + ([e3] + rest));
    BodyCons(e2, [e3] + rest);
    BodyCons(e3, rest);
  }

  lemma {:induction false} ChunksBody(cs: seq<Chunk>, tail: seq<Event>)
    ensures BodyOf(ChunksEvents(cs) + tail) == DataOf(cs) + BodyOf(tail)
    ensures Completed(ChunksEvents(cs) + tail) == Completed(tail)
    decreases |cs|
  {
    hide BodyOf, Completed, ChunkEvents;
    if cs == [] {
      assert ChunksEvents(cs) + tail == tail;
    } else {
      var rest := ChunksEvents(cs[1..]) + tail;
      assert ChunksEvents(cs) + tail == ChunkEvents(cs[0]) + rest;
      ChunkBody(cs[0], rest);
      ChunksBody(cs[1..], tail);
      assert cs[0].data + (DataOf(cs[1..]) + BodyOf(tail)) == DataOf(cs) + BodyOf(tail);
    }
  }

  /** The byte 128 in the place of a size ends the body like a zero, although it is no chunk size. */
  lemma HighByteIsZero(m: Machine)
    requires MachineInv(m) && m.stop.Running? && m.ps.state.ChunkSizeStart? && m.scan.Fresh? && !m.ps.upgrade
    requires !m.ps.flags.contentLength
    ensures var x := Run(m, SizeLine([128 as char], "") + CRLF);
      && x.stop.Running? && x.log == m.log + [Notify(OnChunkHeader), Notify(OnChunkComplete), Notify(OnMessageComplete)]
      && x.ps.state == NewMessage(m.ps) && !IsSize([128 as char])
  {
    hide Run, MachineInv, NewMessage;
    var e := Ending([128 as char], "", []);
    assert GoodSize(e.size, 0) by {
      assert HexValue(0, e.size) == HexValue(0, e.size[1..]) == HexValue(0, "") == 0;
    }
    EndingRun(m, e);
    assert EndingText(e) == SizeLine(e.size, "") + "" + CRLF == SizeLine(e.size, "") + CRLF;
    assert EndingEvents(e) == [Notify(OnChunkHeader)] + [] + [Notify(OnChunkComplete), Notify(OnMessageComplete)];
  }

  // ---------- a whole request with a chunked body ----------

  /** A request head with the transfer coding anywhere among its headers. */
  datatype ChunkedHead = ChunkedHead(meth: Method, target: string, headers: seq<Header>)

  function ChunkedHeadText(d: ChunkedHead): string { StartLine(d.meth, d.target) + HeadersText(d.headers) + CRLF }

  function ChunkedHeadEvents(d: ChunkedHead): seq<Event> {
    [Notify(OnMessageBegin), Data(OnUrl, d.target)] + HeaderEvents(d.headers) + [Notify(OnHeadersComplete)]
  }

  predicate GoodChunkedHead(d: ChunkedHead) {
    && !d.meth.CONNECT? && GoodTarget(d.target) && (forall h :: h in d.headers ==> FreeHeader(h))
    && Announced(d.headers) && |ChunkedHeadText(d)| <= MAX_HEADER
  }

  /** A complete head that announces chunks and no other protocol. */
  predicate ChunkedRecord(p: Parser) {
    && !p.flags.trailing && p.flags.chunked && !p.flags.contentLength && !p.flags.skipBody && !p.meth.CONNECT?
    && !(p.flags.upgrade && p.flags.connUpgrade)
  }

  lemma ChunkedHeadSteps(p: Parser)
    requires ChunkedRecord(p)
    ensures HeadersEnd(p) == Redo(HeadDone(p)).(note := Some(OnHeadersComplete))
    ensures !p.upgrade ==> BodyStart(p) == Go(p.(state := ChunkSizeStart)).(reset := true)
  {
    hide NewMessage, NeedsEof;
  }

  lemma CloseChunkedByte(m: Machine)
    requires m.stop.Running? && m.ps.state.HeadersAlmostDone? && m.nread < MAX_HEADER && ChunkedRecord(m.ps)
    requires !m.scan.Skipping?
    ensures Byte(m, LF) ==
      Machine(HeadDone(m.ps).(state := ChunkSizeStart), 0, Push(m.log, Notify(OnHeadersComplete)), Fresh, m.used + 1,
        Running)
  {
    hide Step, HeadersEnd, BodyStart, Push;
    var p, q := m.ps, HeadDone(m.ps);
    CloseSteps(p);
    CloseSteps(q);
    ChunkedHeadSteps(p);
    ChunkedHeadSteps(q);
    var log := Push(m.log, Notify(OnHeadersComplete));
    assert Passes(p, m.nread + 1, m.log, LF, m.scan) == Passes(q, m.nread + 1, log, LF, m.scan);
    assert Passes(q, m.nread + 1, log, LF, m.scan).stop.Running?;
  }

  /** The empty line behind such a head: chunks follow. */
  lemma CloseChunked(m: Machine)
    requires MachineInv(m) && m.stop.Running? && m.scan.Fresh? && m.nread + 2 <= MAX_HEADER
    requires Settle(m).ps.state.HeaderFieldStart? && ChunkedRecord(Settle(m).ps)
    ensures var s := Settle(m);
      Run(m, CRLF) ==
        Machine(HeadDone(s.ps).(state := ChunkSizeStart), 0, Push(s.log, Notify(OnHeadersComplete)), Fresh, m.used + 2,
          Running)
  {
    hide Step, Byte, Push, MachineInv, Settle;
    var s := Settle(m);
    SettleShape(m);
    SettleByte(m, CR);
    CloseSteps(s.ps);
    OnePass(s, CR);
    CloseChunkedByte(Byte(m, CR));
    assert CRLF == [CR] + [LF];
    RunCons(m, CR, [LF]);
    RunOne(Byte(m, CR), LF);
  }

  /** The lines of the head. */
  lemma ChunkedLines(m: Machine, d: ChunkedHead)
    requires Waiting(m) && GoodChunkedHead(d)
    ensures var lines := StartLine(d.meth, d.target) + HeadersText(d.headers);
      var x := Run(m, lines);
      && MachineInv(x) && x.stop.Running? && x.scan.Fresh? && x.nread == x.used - m.used == |lines|
      && Settle(x).ps.state.HeaderFieldStart?
      && Alike(StartRecord(m.ps, d.meth).(flags := HeadersFlags(d.headers, NO_FLAGS)), Settle(x).ps)
      && Settle(x).log == m.log + [Notify(OnMessageBegin), Data(OnUrl, d.target)] + HeaderEvents(d.headers)
  {
    hide Run, MachineInv, GoodTarget, StartLine, FreeHeader, Settle, Waiting, HeaderText, Announced, Push;
    var r, first := Req(d.meth, d.target, [], None), StartLine(d.meth, d.target);
    assert GoodReq(r) by { NoHeaders(r, d); }
    StartLineRecord(m, r);
    var x := Run(m, first);
    FreeLines(x, d.headers);
    RunKeeps(x, HeadersText(d.headers));
    RunConcat(m, first, HeadersText(d.headers));
    SettleShape(Run(x, HeadersText(d.headers)));
  }

  lemma NoHeaders(r: Req, d: ChunkedHead)
    requires r == Req(d.meth, d.target, [], None) && GoodChunkedHead(d)
    ensures GoodReq(r)
  {
    hide StartLine, GoodTarget, Announced;
  }

  lemma HeadFits(d: ChunkedHead)
    requires GoodChunkedHead(d)
    ensures |ChunkedHeadText(d)| <= MAX_HEADER && !d.meth.CONNECT? && Announced(d.headers)
  {
  }

  /** The whole head: chunks follow. */
  lemma ChunkedHeadRun(m: Machine, d: ChunkedHead)
    requires Waiting(m) && m.log == [] && GoodChunkedHead(d)
    ensures var y := Run(m, ChunkedHeadText(d));
      && MachineInv(y) && y.stop.Running? && y.scan.Fresh? && y.nread == 0 && y.used == m.used + |ChunkedHeadText(d)|
      && y.ps.state.ChunkSizeStart? && !y.ps.upgrade && !y.ps.flags.contentLength
      && y.ps.kind.Request? && y.ps.major == 1 && y.ps.minor == 1 && (y.ps.flags.close <==> SeenIn(d.headers, "close"))
      && y.log == ChunkedHeadEvents(d)
  {
    hide Run, GoodChunkedHead, Settle, MachineInv, Push, NewMessage, StartLine, HeadersText, HeadersFlags, SeenIn,
         Announced;
    ChunkedLines(m, d);
    var lines := StartLine(d.meth, d.target) + HeadersText(d.headers);
    var x := Run(m, lines);
    HeadFits(d);
    BlockFlags(d.headers, NO_FLAGS);
    CloseChunked(x);
    RunConcat(m, lines, CRLF);
    Waits(m);
    RunKeeps(m, lines + CRLF);
    PushNew(Settle(x).log, Notify(OnHeadersComplete));
  }

  lemma Waits(m: Machine)
    requires Waiting(m)
    ensures MachineInv(m) && m.ps.kind.Request?
  {
  }

  /**
   A request with a chunked body, from http_parser_init on: the transfer coding may stand anywhere among the headers and
   in any case, with Connection headers beside it; the body may have any number of chunks in any spelling, extensions
   and trailer lines. One call consumes it whole, the body events carry the chunks' data, one message completes, and the
   parser waits for the next request unless the option "close" is seen, be it in the trailer.
  */
  lemma ChunkedRequest(d: ChunkedHead, cs: seq<Chunk>, e: Ending)
    requires GoodChunkedHead(d) && (forall c :: c in cs ==> GoodChunk(c)) && GoodEnding(e)
    ensures var text := ChunkedHeadText(d) + (ChunksText(cs) + EndingText(e));
      var x := Call(Init(Request), 0, [], text);
      && x.stop.Running? && x.used == |text|
      && x.ps.state == (if SeenIn(d.headers + e.trailer, "close") then Dead else StartReq)
      && x.log == ChunkedHeadEvents(d) + (ChunksEvents(cs) + EndingEvents(e))
      && BodyOf(x.log) == DataOf(cs) && Completed(x.log) == 1
  {
    hide Run, GoodChunk, GoodEnding, EndingText, EndingEvents, ChunksText, ChunksEvents, GoodChunkedHead,
         ChunkedHeadText, ChunkedHeadEvents, MachineInv, NewMessage, BodyOf, Completed, DataOf, SeenIn, HeadersFlags;
    var m := Machine(Init(Request), 0, [], Fresh, 0, Running);
    assert Waiting(m) by { InitWaits(); }
    ChunkedHeadRun(m, d);
    var y, rest := Run(m, ChunkedHeadText(d)), ChunksText(cs) + EndingText(e);
    ChunkedRoundTrip(y, cs, e);
    BlockFlags(e.trailer, y.ps.flags);
    NextState(AfterTrailer(y.ps, e));
    EitherSays(d.headers, e.trailer, "close");
    RunConcat(m, ChunkedHeadText(d), rest);
    HeadIsNoBody(d, ChunksEvents(cs) + EndingEvents(e));
    HeadNotEmpty(d);
    assert y.log + ChunksEvents(cs) + EndingEvents(e) == y.log + (ChunksEvents(cs) + EndingEvents(e));
  }

  lemma HeadNotEmpty(d: ChunkedHead)
    ensures ChunkedHeadText(d) != ""
  {
    assert |ChunkedHeadText(d)| >= |CRLF|;
  }

  lemma InitWaits()
    ensures Waiting(Machine(Init(Request), 0, [], Fresh, 0, Running))
  {
  }

  lemma EitherSays(hs: seq<Header>, ts: seq<Header>, option: string)
    ensures SeenIn(hs + ts, option) <==> SeenIn(hs, option) || SeenIn(ts, option)
  {
    hide IsConnection, Seen;
  }

  lemma NextState(p: Parser)
    requires p.kind.Request? && p.major == 1 && p.minor == 1
    ensures NewMessage(p) == if p.flags.close then Dead else StartReq
  {
  }

  lemma HeadIsNoBody(d: ChunkedHead, tail: seq<Event>)
    ensures BodyOf(ChunkedHeadEvents(d) + tail) == BodyOf(tail)
    ensures Completed(ChunkedHeadEvents(d) + tail) == Completed(tail)
  {
    hide BodyOf, Completed, HeaderEvents;
    var e1, e2, e3 := Notify(OnMessageBegin), Data(OnUrl, d.target), Notify(OnHeadersComplete);
    var hs := HeaderEvents(d.headers);
    assert ChunkedHeadEvents(d) + tail == [e1] + ([e2] + (hs + ([e3] + tail)));
    BodyCons(e1, [e2] + (hs + ([e3] + tail)));
    BodyCons(e2, hs + ([e3] + tail));
    TrailerBody(d.headers, [e3] + tail);
    BodyCons(e3, tail);
  }
}
