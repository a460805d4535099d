/** Header blocks: what the flags say behind any header lines but those of a length or of another protocol. */
module HttpLines {
  import opened Chars
  import opened HttpTypes
  import opened HttpStep
  import opened HttpSpec
  import opened HttpInvariant
  import opened HttpNames
  import opened HttpHeaders
  import opened HttpRequests
  import opened HttpValues

  /** Any header but one that gives a length or asks for another protocol. */
  predicate FreeHeader(h: Header) {
    IsName(h.name) && IsPlain(h.value) && !IsLengthName(h.name) && LowerName(h.name) != "upgrade"
  }

  /** The flags after a header line. */
  function HeaderFlags(h: Header, f: Flags): Flags {
    if IsConnection(h.name) then ListFlags(First, h.value, f)
    else if IsCoding(h.name) then f.(chunked := f.chunked || Spelled(h.value, "chunked")) else f
  }

  function HeadersFlags(hs: seq<Header>, f: Flags): Flags {
    if hs == [] then f else HeaderFlags(hs[|hs| - 1], HeadersFlags(hs[..|hs| - 1], f))
  }

  /** One of the headers is the transfer coding, in any case and with blanks behind it. */
  predicate Announced(hs: seq<Header>) { exists h :: h in hs && IsCoding(h.name) && Spelled(h.value, "chunked") }

  /** One of the headers is a Connection list in which the option is seen. */
  predicate SeenIn(hs: seq<Header>, option: string) {
    exists h :: h in hs && IsConnection(h.name) && Seen(First, h.value, option)
  }

  /** Header lines set the flags of what they say, and no others. */
  predicate Says(f: Flags, r: Flags, coding: bool, keepAlive: bool, close: bool, upgrade: bool) {
    r == f.(chunked := f.chunked || coding, keepAlive := f.keepAlive || keepAlive, close := f.close || close,
            connUpgrade := f.connUpgrade || upgrade)
  }

  predicate OptionIn(h: Header, option: string) { IsConnection(h.name) && Seen(First, h.value, option) }

  lemma OneHeaderFlags(h: Header, f: Flags)
    ensures Says(f, HeaderFlags(h, f), IsCoding(h.name) && Spelled(h.value, "chunked"), OptionIn(h, "keep-alive"),
                 OptionIn(h, "close"), OptionIn(h, "upgrade"))
  {
    hide ListFlags, Seen, Spelled, LowerName, IsName, Word;
    if IsConnection(h.name) {
      Words();
      OnlyThreeFlags(First, h.value, f);
      FlagsExactly(First, h.value, f, HMatchingKeepAlive);
      FlagsExactly(First, h.value, f, HMatchingClose);
      FlagsExactly(First, h.value, f, HMatchingConnUpgrade);
    }
  }

  /** The flags of a header block are exactly what its headers say. */
  lemma {:induction false} BlockFlags(hs: seq<Header>, f: Flags)
    ensures Says(f, HeadersFlags(hs, f), Announced(hs), SeenIn(hs, "keep-alive"), SeenIn(hs, "close"),
                 SeenIn(hs, "upgrade"))
    decreases |hs|
  {
    hide HeaderFlags, Announced, SeenIn, IsCoding, OptionIn, Spelled;
    if hs == [] {
      NoneSays("keep-alive");
      NoneSays("close");
      NoneSays("upgrade");
    } else {
      var init, h := hs[..|hs| - 1], hs[|hs| - 1];
      BlockFlags(init, f);
      OneHeaderFlags(h, HeadersFlags(init, f));
      LastSays(hs, "keep-alive");
      LastSays(hs, "close");
      LastSays(hs, "upgrade");
    }
  }

  lemma NoneSays(option: string)
    ensures !Announced([]) && !SeenIn([], option)
  {
  }

  lemma LastSays(hs: seq<Header>, option: string)
    requires hs != []
    ensures var init, h := hs[..|hs| - 1], hs[|hs| - 1];
      && (Announced(hs) <==> Announced(init) || (IsCoding(h.name) && Spelled(h.value, "chunked")))
      && (SeenIn(hs, option) <==> SeenIn(init, option) || OptionIn(h, option))
  {
    hide IsCoding, IsConnection, Seen, Spelled;
    var init, h := hs[..|hs| - 1], hs[|hs| - 1];
    assert hs == init + [h];
    assert h in hs;
  }

  /** One line, with the flags that it sets. */
  lemma FreeLine(m: Machine, h: Header)
    requires MachineInv(m) && m.stop.Running? && m.ps.state.HeaderFieldStart? && m.nread + |HeaderText(h)| <= MAX_HEADER
    requires FreeHeader(h)
    ensures AfterLine(m, h, Run(m, HeaderText(h)), m.ps.(flags := HeaderFlags(h, m.ps.flags)))
  {
    hide Run, MachineInv, AfterLine, ListFlags, Spelled, LowerName, IsName, IsPlain, HeaderText;
    if IsConnection(h.name) {
      ConnectionLine(m, h);
    } else if IsCoding(h.name) {
      CodingLine(m, h);
    } else {
      PlainLine(m, h);
      assert m.ps.(flags := m.ps.flags) == m.ps;
    }
  }

  predicate AfterFree(m: Machine, hs: seq<Header>, r: Machine) {
    AfterHeaders(m, hs, r, m.ps.(flags := HeadersFlags(hs, m.ps.flags)))
  }

  /** One more line. */
  lemma FreeLineAfter(m: Machine, hs: seq<Header>, h: Header, r: Machine)
    requires MachineInv(m) && MachineInv(r) && m.log != [] && !EndsWith(m.log, OnHeaderField)
    requires m.ps.state.HeaderFieldStart? && AfterFree(m, hs, r) && FreeHeader(h)
    requires m.nread + |HeadersText(hs + [h])| <= MAX_HEADER
    ensures AfterFree(m, hs + [h], Run(r, HeaderText(h)))
  {
    hide Run, MachineInv, Push, Settle, LowerName, IsHeaderChar, IsToken, HeaderFlags;
    assert (hs + [h])[..|hs|] == hs;
    var s := Settle(r);
    SettleKeeps(r);
    SettleShape(r);
    assert HeaderText(h)[0] == h.name[0];
    NoTokenEnds(h.name[0]);
    SettleRun(r, HeaderText(h));
    FreeLine(s, h);
    LogAfterHeader(m.log, hs, h);
  }

  lemma {:induction false} FreeLines(m: Machine, hs: seq<Header>)
    requires MachineInv(m) && m.stop.Running? && m.scan.Fresh? && m.ps.state.HeaderFieldStart?
    requires m.log != [] && !EndsWith(m.log, OnHeaderField) && m.nread + |HeadersText(hs)| <= MAX_HEADER
    requires forall h :: h in hs ==> FreeHeader(h)
    ensures AfterFree(m, hs, Run(m, HeadersText(hs)))
    decreases |hs|
  {
    hide Run, MachineInv, FreeHeader, HeaderText, HeaderFlags, Push;
    if hs == [] {
      RunNothing(m);
      assert m.log + [] == m.log;
    } else {
      var init, h := hs[..|hs| - 1], hs[|hs| - 1];
      assert hs == init + [h];
      FreeLines(m, init);
      RunKeeps(m, HeadersText(init));
      RunConcat(m, HeadersText(init), HeaderText(h));
      FreeLineAfter(m, init, h, Run(m, HeadersText(init)));
    }
  }
}
