/** Soundness of the method guess: whatever the input, the method reported is the one that was spelled. */
module HttpMethods {
  import opened Chars
  import opened HttpTypes
  import opened HttpStep
  import opened HttpSpec
  import opened HttpInvariant
  import opened HttpStartLine

  /** The correction table, read backwards. */
  lemma ReguessIsBase(m: Method, i: nat, ch: char)
    requires Reguess(m, i, ch).Some?
    ensures Base(Reguess(m, i, ch).value) == Some((m, i))
    ensures forall c :: Reguess(m, i, c) == Reguess(m, i, ch) ==> c == ch
  {
  }

  /** The letters of a guess are those of the correction, up to the one that differs. */
  lemma ReguessSpells(m: Method, i: nat, ch: char)
    requires Reguess(m, i, ch).Some?
    ensures var s, t := MethodString(m), MethodString(Reguess(m, i, ch).value);
      i < |s| && i < |t| && t[i] == ch && s[..i] == t[..i]
  {
    hide MethodString, Reguess, Base;
    ReguessIsBase(m, i, ch);
    BaseCorrects(Reguess(m, i, ch).value);
  }

  lemma FirstSpells(ch: char)
    requires FirstGuess(ch).Some?
    ensures var s := MethodString(FirstGuess(ch).value); |s| > 0 && s[0] == ch
  {
  }

  predicate AtStart(s: State) { s.StartReq? || s.StartReqOrRes? }

  predicate InWord(s: State) { s.ReqMethod? || s.ResOrRespH? }

  /** How many bytes of a method have been read. */
  function WordLength(p: Parser): nat { if p.state.ReqMethod? then p.index else 1 }

  /** The bytes w are the letters of the guess that were read. */
  predicate SpellsWord(p: Parser, w: string) {
    && (p.state.ReqMethod? ==> p.index <= |MethodString(p.meth)| && w == MethodString(p.meth)[..p.index])
    && (p.state.ResOrRespH? ==> w == "H")
  }

  /** One more letter. */
  lemma MethodLetter(p: Parser, ch: char, w: string)
    requires p.state.ReqMethod? && SpellsWord(p, w)
    ensures var o := MethodStep(p, ch);
      && (o.next.Advance? && o.st.state.ReqMethod? ==> o.st.index == p.index + 1 && SpellsWord(o.st, w + [ch]))
      && (o.next.Advance? && !o.st.state.ReqMethod? ==>
            o.st.state.ReqSpacesBeforeUrl? && ch == ' ' && w == MethodString(p.meth) && o.st.meth == p.meth)
      && !o.next.Again?
  {
    hide MethodString, Reguess;
    var s := MethodString(p.meth);
    Letters(p.meth);
    if p.index < |s| { assert s[..p.index + 1] == s[..p.index] + [s[p.index]]; }
    if p.index == |s| { assert s[..p.index] == s; }
    if Reguess(p.meth, p.index, ch).Some? {
      ReguessSpells(p.meth, p.index, ch);
      var t := MethodString(Reguess(p.meth, p.index, ch).value);
      assert t[..p.index] == s[..p.index];
      assert t[..p.index + 1] == t[..p.index] + [ch];
    }
  }

  lemma HeadLetters()
    ensures MethodString(HEAD)[..2] == "HE"
  {
  }

  /**
   A pass that leads into a method: from a start, from inside it, or from the letter both kinds of message begin with.
  */
  lemma IntoWord(p: Parser, ch: char, skip: bool, w: string)
    requires SpellsWord(p, w)
    ensures var o := Step(p, ch, skip);
      && (o.next.Again? ==> !InWord(o.st.state) && (AtStart(o.st.state) ==> AtStart(p.state)))
      && (o.next.Advance? && InWord(o.st.state) ==>
            && (AtStart(p.state) || InWord(p.state))
            && WordLength(o.st) == (if AtStart(p.state) then 1 else WordLength(p) + 1)
            && SpellsWord(o.st, if AtStart(p.state) then [ch] else w + [ch]))
  {
    hide HeaderStep, BodyStep, ResponseLine, UrlHead, UrlRest, SpellsWord;
    if p.state.ReqMethod? {
      hide RequestLine;
      LineIsMethod(p, ch);
      MethodLetter(p, ch, w);
    } else if AtStart(p.state) || p.state.ResOrRespH? {
      FromStart(p, ch, w);
    } else {
      hide RequestLine;
      ElsewhereWord(p, ch, skip);
    }
  }

  lemma LineIsMethod(p: Parser, ch: char)
    requires p.state.ReqMethod?
    ensures RequestLine(p, ch) == MethodStep(p, ch)
  {
  }

  lemma FromStart(p: Parser, ch: char, w: string)
    requires (AtStart(p.state) || p.state.ResOrRespH?) && SpellsWord(p, w)
    ensures var o := RequestLine(p, ch);
      && (o.next.Again? ==> !InWord(o.st.state) && AtStart(p.state))
      && (o.next.Advance? && InWord(o.st.state) ==>
            && WordLength(o.st) == (if AtStart(p.state) then 1 else WordLength(p) + 1)
            && SpellsWord(o.st, if AtStart(p.state) then [ch] else w + [ch]))
  {
    hide MethodString, IsAlpha, FirstGuess;
    HeadLetters();
    assert "H" + ['E'] == "HE";
    MethodFits(HEAD);
    if FirstGuess(ch).Some? {
      FirstSpells(ch);
      var s := MethodString(FirstGuess(ch).value);
      assert s[..1] == [ch];
    }
  }

  /** No other state leads into a method, nor changes it. */
  lemma ElsewhereWord(p: Parser, ch: char, skip: bool)
    requires !AtStart(p.state) && !InWord(p.state)
    ensures var o := Step(p, ch, skip);
      && o.st.meth == p.meth
      && (o.next.Again? || o.next.Advance? ==> !InWord(o.st.state)) && (o.next.Again? ==> !AtStart(o.st.state))
  {
    hide HeaderStep, BodyStep, ResponseLine, RequestLine, UrlHead, UrlRest;
    if IsHeader(p.state) {
      HeaderWord(p, ch, skip);
    } else if IsBody(p.state) {
      BodyWord(p, ch);
    } else if IsResponseLine(p.state) {
      ResponseWord(p, ch);
    } else {
      RequestWord(p, ch);
    }
  }

  /** A pass that has nothing to do with methods. */
  predicate Aside(p: Parser, o: Outcome) {
    o.st.meth == p.meth && (o.next.Again? || o.next.Advance? ==> !InWord(o.st.state))
      && (o.next.Again? ==> !AtStart(o.st.state))
  }

  lemma HeaderWord(p: Parser, ch: char, skip: bool)
    requires IsHeader(p.state)
    ensures Aside(p, HeaderStep(p, ch, skip))
  {
    hide LineStart, FieldStep, DiscardWs, ValueStart, ValueStep, ValueLws, DiscardLws, HeadersEnd, BodyStart;
    NameWord(p, ch);
    ValueWord(p, ch, skip);
    HeadersEndWord(p);
    BodyStartWord(p);
  }

  lemma NameWord(p: Parser, ch: char)
    ensures p.state.HeaderFieldStart? ==> Aside(p, LineStart(p, ch))
    ensures p.state.HeaderField? ==> Aside(p, FieldStep(p, ch))
    ensures p.state.HeaderValueDiscardWs? ==> Aside(p, DiscardWs(p, ch))
    ensures p.state.HeaderValueStart? ==> Aside(p, ValueStart(p, ch))
  {
    hide Token, FieldByte, Lower, Word;
  }

  lemma ValueWord(p: Parser, ch: char, skip: bool)
    ensures p.state.HeaderValue? ==> Aside(p, ValueStep(p, ch, skip))
    ensures p.state.HeaderValueLws? ==> Aside(p, ValueLws(p, ch))
    ensures p.state.HeaderValueDiscardLws? ==> Aside(p, DiscardLws(p, ch))
  {
    hide ValueByte, IsHeaderChar, FlagOf;
  }

  lemma HeadersEndWord(p: Parser)
    ensures Aside(p, HeadersEnd(p))
  {
  }

  lemma BodyStartWord(p: Parser)
    ensures Aside(p, BodyStart(p))
  {
    hide NeedsEof, Complete;
    CompleteWord(p);
  }

  lemma CompleteWord(p: Parser)
    ensures var o := Complete(p); o.st.meth == p.meth && o.next.Advance? && !InWord(o.st.state)
  {
    hide ShouldKeepAlive;
  }

  lemma BodyWord(p: Parser, ch: char)
    requires IsBody(p.state)
    ensures Aside(p, BodyStep(p, ch))
  {
    hide ChunkFirst, ChunkDigit, ChunkLineEnd, ChunkDone, ChunkByte, ChunkEnd, BodyByte, Complete;
    ChunkWord(p, ch);
    DataWord(p, ch);
    CompleteWord(p);
  }

  lemma DataWord(p: Parser, ch: char)
    requires !InWord(p.state)
    ensures Aside(p, ChunkByte(p)) && Aside(p, ChunkEnd(p, ch)) && Aside(p, BodyByte(p))
  {
  }

  lemma ChunkWord(p: Parser, ch: char)
    requires !InWord(p.state)
    ensures Aside(p, ChunkFirst(p, ch)) && Aside(p, ChunkDigit(p, ch)) && Aside(p, ChunkLineEnd(p, ch))
    ensures Aside(p, ChunkDone(p, ch))
  {
    hide Unhex;
  }

  lemma ResponseWord(p: Parser, ch: char)
    requires IsResponseLine(p.state)
    ensures Aside(p, ResponseLine(p, ch))
  {
    hide IsNum, Digit;
  }

  lemma RequestWord(p: Parser, ch: char)
    requires !AtStart(p.state) && !InWord(p.state)
    ensures Aside(p, RequestLine(p, ch)) && Aside(p, UrlRest(p, ch)) && Aside(p, UrlHead(p, ch))
  {
    hide ParseUrlChar, MethodStep, EitherStart, RequestStart, UrlFirst, UrlRest, UrlHead, IsNum, Digit;
    UrlWord(p, ch);
  }

  lemma UrlWord(p: Parser, ch: char)
    requires !InWord(p.state)
    ensures Aside(p, UrlFirst(p, ch)) && Aside(p, UrlRest(p, ch)) && Aside(p, UrlHead(p, ch))
  {
    hide ParseUrlChar;
    UrlCloses(p.state, ch);
    UrlCloses(ReqServerStart, ch);
  }

  // ---------- whole bytes and whole inputs ----------

  lemma {:induction false} PassesWord(p: Parser, n: nat, log: seq<Event>, ch: char, scan: Scan, w: string)
    requires Inv(p) && SpellsWord(p, w)
    ensures var r := Passes(p, n, log, ch, scan);
      r.stop.Running? && InWord(r.ps.state) ==>
        && (AtStart(p.state) || InWord(p.state))
        && WordLength(r.ps) == (if AtStart(p.state) then 1 else WordLength(p) + 1)
        && SpellsWord(r.ps, if AtStart(p.state) then [ch] else w + [ch])
    decreases Rank(p.state)
  {
    hide Step, LogAfter, Inv, SpellsWord;
    var o := Step(p, ch, scan.Skipping?);
    StepDescends(p, ch, scan.Skipping?);
    StepKeeps(p, ch, scan.Skipping?);
    IntoWord(p, ch, scan.Skipping?, w);
    if o.next.Again? {
      NoWordYet(o.st, w);
      PassesWord(o.st, if o.reset then 0 else n, LogAfter(p.state, log, o, ch), ch, scan, w);
    }
  }

  lemma NoWordYet(p: Parser, w: string)
    requires !InWord(p.state)
    ensures SpellsWord(p, w)
  {
  }

  lemma ByteWord(m: Machine, ch: char, w: string)
    requires MachineInv(m) && m.stop.Running? && SpellsWord(m.ps, w)
    ensures var r := Byte(m, ch);
      r.stop.Running? && InWord(r.ps.state) ==>
        && (AtStart(m.ps.state) || InWord(m.ps.state))
        && WordLength(r.ps) == (if AtStart(m.ps.state) then 1 else WordLength(m.ps) + 1)
        && SpellsWord(r.ps, if AtStart(m.ps.state) then [ch] else w + [ch])
  {
    hide Passes, StateInv, SpellsWord, IsToken;
    PassesWord(m.ps, Counted(m.ps.state, m.nread), m.log, ch, m.scan, w);
  }

  /** The last bytes of the input, back to the start of the message. */
  predicate WordBehind(m: Machine, data: string) {
    var r := Run(m, data);
    r.stop.Running? && InWord(r.ps.state) ==>
      var k := WordLength(r.ps);
      1 <= k <= |data| && AtStart(Run(m, data[..|data| - k]).ps.state) && SpellsWord(r.ps, data[|data| - k..])
  }

  /**
   While a method is read, the bytes since the start of the message are the first letters of the method that the parser
   reports, after any input that began outside a method.
  */
  lemma {:induction false} MethodPrefix(m: Machine, data: string)
    requires MachineInv(m) && m.stop.Running? && !InWord(m.ps.state)
    ensures WordBehind(m, data)
    decreases |data|
  {
    hide Byte, MachineInv, SpellsWord;
    if data != "" {
      var init, ch := data[..|data| - 1], data[|data| - 1];
      assert data == init + [ch];
      MethodPrefix(m, init);
      RunSnoc(m, init, ch);
      RunKeeps(m, init);
      var r, r' := Run(m, init), Run(m, data);
      if r.stop.Running? {
        if InWord(r.ps.state) {
          var k := WordLength(r.ps);
          ByteWord(r, ch, init[|init| - k..]);
          assert data[..|data| - (k + 1)] == init[..|init| - k]
              && data[|data| - (k + 1)..] == init[|init| - k..] + [ch];
        } else {
          NoWordYet(r.ps, "");
          ByteWord(r, ch, "");
          assert data[..|data| - 1] == init && data[|data| - 1..] == [ch];
        }
      } else {
        StoppedByte(r, ch);
      }
    }
  }

  lemma StoppedByte(r: Machine, ch: char)
    requires !r.stop.Running?
    ensures Byte(r, ch) == r
  {
  }

  /**
   A method that is accepted was spelled out: the blank that ends it stands behind exactly the letters of the method,
   and in front of them the parser waited for a message.
  */
  lemma MethodAccepted(m: Machine, data: string, ch: char)
    requires MachineInv(m) && m.stop.Running? && !InWord(m.ps.state)
    requires Run(m, data).stop.Running? && Run(m, data).ps.state.ReqMethod?
    requires Run(m, data + [ch]).stop.Running? && !Run(m, data + [ch]).ps.state.ReqMethod?
    ensures var r, word := Run(m, data + [ch]), MethodString(Run(m, data + [ch]).ps.meth);
      && r.ps.state.ReqSpacesBeforeUrl? && ch == ' ' && |word| <= |data| && data[|data| - |word|..] == word
      && AtStart(Run(m, data[..|data| - |word|]).ps.state)
  {
    hide Run, MachineInv, MethodString, Step, LogAfter;
    MethodPrefix(m, data);
    RunSnoc(m, data, ch);
    var a := Run(m, data);
    MethodLast(a, ch, data[|data| - WordLength(a.ps)..]);
  }

  lemma MethodLast(a: Machine, ch: char, w: string)
    requires a.stop.Running? && a.ps.state.ReqMethod? && SpellsWord(a.ps, w)
    requires var r := Byte(a, ch); r.stop.Running? && !r.ps.state.ReqMethod?
    ensures var r := Byte(a, ch);
        r.ps.state.ReqSpacesBeforeUrl? && ch == ' ' && w == MethodString(r.ps.meth) && r.ps.meth == a.ps.meth
    ensures a.ps.index == |w|
  {
    hide MethodString, MethodStep, LogAfter;
    MethodLetter(a.ps, ch, w);
    LineIsMethod(a.ps, ch);
  }

  lemma {:induction false} PassesAside(p: Parser, n: nat, log: seq<Event>, ch: char, scan: Scan)
    requires !AtStart(p.state) && !InWord(p.state)
    ensures Passes(p, n, log, ch, scan).ps.meth == p.meth
    decreases Rank(p.state)
  {
    hide Step, LogAfter;
    var o := Step(p, ch, scan.Skipping?);
    StepDescends(p, ch, scan.Skipping?);
    ElsewhereWord(p, ch, scan.Skipping?);
    if o.next.Again? { PassesAside(o.st, if o.reset then 0 else n, LogAfter(p.state, log, o, ch), ch, scan); }
  }

  /** Behind the method word nothing changes the method until the next message begins. */
  lemma MethodStays(m: Machine, ch: char)
    requires !AtStart(m.ps.state) && !InWord(m.ps.state)
    ensures Byte(m, ch).ps.meth == m.ps.meth
  {
    hide Passes, StaysInLoop;
    PassesAside(m.ps, Counted(m.ps.state, m.nread), m.log, ch, m.scan);
  }
}
