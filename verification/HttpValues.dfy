/**
 The nested automaton that reads the values of Connection and Transfer-Encoding headers (s_header_value_start and
 s_header_value): exactly which values set a flag, and how that differs from the lists of section 6.1 of RFC 7230.
*/
module HttpValues {
  import opened Chars
  import opened HttpTypes
  import opened HttpStep
  import opened HttpSpec
  import opened HttpInvariant
  import opened HttpNames
  import opened HttpHeaders
  import opened HttpRequests

  // ---------- one element of a list ----------

  function LowerText(s: string): string { seq(|s|, i requires 0 <= i < |s| => Lower(s[i])) }

  predicate IsBlank(s: string) { forall i :: 0 <= i < |s| ==> s[i] == ' ' }

  /** The word in any case, and blanks. */
  predicate Spelled(t: string, word: string) {
    |word| <= |t| && LowerText(t[..|word|]) == word && IsBlank(t[|word|..])
  }

  /** The first letters of the three options. */
  function WordOf(c: char): Option<HeaderState> {
    if c == 'k' then Some(HMatchingKeepAlive) else if c == 'c' then Some(HMatchingClose)
    else if c == 'u' then Some(HMatchingConnUpgrade) else None
  }

  predicate IsOption(h: HeaderState) { h.HMatchingKeepAlive? || h.HMatchingClose? || h.HMatchingConnUpgrade? }

  /**
   The header state after a text that begins with the first letter of the word of h; `miss` is where a mismatch leads.
  */
  function ReadWord(h: HeaderState, t: string, miss: HeaderState): HeaderState {
    if LowerText(t) < Word(h) then h else if Spelled(t, Word(h)) then Hit(h) else miss
  }

  function Strip(e: string): string
    decreases |e|
  {
    if e != "" && e[0] == ' ' then Strip(e[1..]) else e
  }

  /**
   How an element of a Connection list begins: as the first one, after a comma, in the middle of another, or unread.
  */
  datatype Place = First | Start | Inside | Over

  /** The header state after the element e. */
  function Reading(pl: Place, e: string): HeaderState {
    match pl
    case Over => HGeneral
    case Inside => HMatchingToken
    case First => if e == "" || WordOf(Lower(e[0])).None? then HMatchingToken
        else ReadWord(WordOf(Lower(e[0])).value, e, HMatchingToken)
    case Start =>
      var t := Strip(e);
      if t == "" then HMatchingTokenStart
      else if WordOf(Lower(t[0])).Some? then ReadWord(WordOf(Lower(t[0])).value, t, HMatchingToken)
      else if IsToken(Lower(t[0])) then HMatchingToken else HGeneral
  }

  /**
   How the next element begins. The comma after a proper prefix of an option is taken for a letter that does not match,
   and that in front of everything for a first letter. After an element without a first letter nothing more is read.
  */
  function NextPlace(pl: Place, e: string): Place {
    if pl.First? && e == "" then Inside
    else match Reading(pl, e)
      case HMatchingKeepAlive => Inside
      case HMatchingClose => Inside
      case HMatchingConnUpgrade => Inside
      case HMatchingTokenStart => Over
      case HGeneral => Over
      case _ => Start
  }

  /** The part of a list in front of its first comma. */
  function Element(v: string): (e: string)
    ensures |e| <= |v| && ',' !in e && e <= v && (|e| < |v| ==> v[|e|] == ',')
    decreases |v|
  {
    if v == "" || v[0] == ',' then "" else [v[0]] + Element(v[1..])
  }

  /** The flags after a list. */
  function ListFlags(pl: Place, v: string, f: Flags): Flags
    decreases |v|
  {
    var e := Element(v);
    var f' := FlagOf(f, Reading(pl, e));
    if e == v then f' else ListFlags(NextPlace(pl, e), v[|e| + 1..], f')
  }

  // ---------- the automaton reads an element like this ----------

  lemma {:induction false} RecordSnoc(q: Parser, s: string, ch: char)
    ensures ValueRecord(q, s + [ch]) == ValueByte(ValueRecord(q, s), ch)
    decreases |s|
  {
    hide ValueByte;
    if s == "" {
      assert s + [ch] == [ch] && [ch][1..] == "";
      assert ValueRecord(ValueByte(q, ch), "") == ValueByte(q, ch);
    } else {
      assert (s + [ch])[0] == s[0] && (s + [ch])[1..] == s[1..] + [ch];
      RecordSnoc(ValueByte(q, s[0]), s[1..], ch);
    }
  }

  lemma {:induction false} RecordConcat(q: Parser, s: string, t: string)
    ensures ValueRecord(q, s + t) == ValueRecord(ValueRecord(q, s), t)
    decreases |s|
  {
    hide ValueByte;
    if s == "" {
      assert s + t == t;
    } else {
      assert (s + t)[0] == s[0] && (s + t)[1..] == s[1..] + t;
      RecordConcat(ValueByte(q, s[0]), s[1..], t);
    }
  }

  lemma Words()
    ensures Word(HMatchingKeepAlive) == "keep-alive" && Word(HMatchingClose) == "close"
    ensures Word(HMatchingConnUpgrade) == "upgrade"
    ensures Word(HMatchingChunked) == "chunked"
  {
  }

  /** The words are longer than one letter and hold neither blanks nor commas. */
  lemma WordShape(h: HeaderState)
    requires IsOption(h) || h.HMatchingChunked?
    ensures var w := Word(h);
      |w| > 1 && (forall i :: 0 <= i < |w| ==> w[i] != ' ' && w[i] != ',') && MatchingValue(h) && !Hit(h).HGeneral?
  {
  }

  /** The record fits the header state that a text leads to. */
  predicate At(q: Parser, h: HeaderState, t: string) {
    q.hstate == h && (MatchingValue(h) ==> q.index + 1 == |t|) && (h.HMatchingTokenStart? ==> q.index == 0)
  }

  /** The comparison of one more letter. */
  lemma WordByte(q: Parser, h: HeaderState, t: string, ch: char)
    requires (IsOption(h) || h.HMatchingChunked?) && t != "" && At(q, h, t) && LowerText(t) < Word(h)
    ensures var miss := if h.HMatchingChunked? then HGeneral else HMatchingToken;
      var q' := ValueByte(q, ch);
      At(q', ReadWord(h, t + [ch], miss), t + [ch]) && q' == q.(hstate := q'.hstate, index := q'.index)
  {
    hide Word, Lower, Token, AddDecimal;
    WordShape(h);
    var w, t' := Word(h), t + [ch];
    assert LowerText(t') == LowerText(t) + [Lower(ch)];
    if Lower(ch) == w[|t|] {
      assert LowerText(t') <= w;
      if |t'| == |w| {
        assert LowerText(t') == w && t'[..|w|] == t' && Spelled(t', w);
      }
    } else {
      assert LowerText(t')[|t|] == Lower(ch) != w[|t|];
      assert |w| <= |t'| ==> t'[..|w|] == t';
    }
  }

  /** Behind a whole word only blanks may follow. */
  lemma AfterWord(h: HeaderState, t: string, ch: char)
    requires IsOption(h) || h.HMatchingChunked?
    ensures Spelled(t, Word(h)) ==> (Spelled(t + [ch], Word(h)) <==> ch == ' ') && !(LowerText(t + [ch]) < Word(h))
    ensures !Spelled(t, Word(h)) && !(LowerText(t) < Word(h)) ==>
        !Spelled(t + [ch], Word(h)) && !(LowerText(t + [ch]) < Word(h))
  {
    hide Word, Lower;
    WordShape(h);
    var w, t' := Word(h), t + [ch];
    assert LowerText(t') == LowerText(t) + [Lower(ch)];
    if |w| <= |t| {
      assert t'[..|w|] == t[..|w|] && t'[|w|..] == t[|w|..] + [ch];
      assert t'[|w|..][|t| - |w|] == ch;
      if Spelled(t', w) {
        forall i | 0 <= i < |t| - |w| ensures t[|w|..][i] == ' ' { assert t'[|w|..][i] == t[|w|..][i]; }
      }
    } else if LowerText(t') <= w || Spelled(t', w) {
      if Spelled(t', w) { assert t'[..|w|] == t' || |w| < |t'|; }
      assert LowerText(t') <= w;
      assert LowerText(t) == LowerText(t')[..|t|] == w[..|t|];
      assert LowerText(t) < w;
    }
  }

  /** One more byte of an option, or of what was taken for one. */
  lemma OptionByte(q: Parser, h: HeaderState, t: string, ch: char)
    requires IsOption(h) && t != "" && At(q, ReadWord(h, t, HMatchingToken), t) && ch != ','
    ensures var q' := ValueByte(q, ch);
      At(q', ReadWord(h, t + [ch], HMatchingToken), t + [ch]) && q' == q.(hstate := q'.hstate, index := q'.index)
  {
    hide Word, LowerText, Spelled, Lower;
    if LowerText(t) < Word(h) {
      WordByte(q, h, t, ch);
    } else {
      hide Match, Token, AddDecimal;
      AfterWord(h, t, ch);
    }
  }

  /** The bytes of values. */
  predicate Plain(s: string) { forall i :: 0 <= i < |s| ==> s[i] != CR && s[i] != LF && IsHeaderChar(s[i]) }

  /** The states in which the list automaton stands. */
  predicate ListState(h: HeaderState) {
    IsOption(h) || h.HConnKeepAlive? || h.HConnClose? || h.HConnUpgrade? || h.HMatchingToken? || h.HMatchingTokenStart?
      || h.HGeneral?
  }

  /** The state after a first letter behind a comma. */
  lemma StartByte(q: Parser, ch: char)
    requires At(q, HMatchingTokenStart, "") && IsHeaderChar(ch) && ch != ','
    ensures var q' := ValueByte(q, ch);
      && q' == q.(hstate := q'.hstate, index := q'.index)
      && (ch == ' ' ==> q' == q)
      && (ch != ' ' ==> At(q', if WordOf(Lower(ch)).Some? then WordOf(Lower(ch)).value
                               else if IsToken(Lower(ch)) then HMatchingToken else HGeneral, [ch]))
  {
    if !(ch == ' ') { assert Lower(ch) != ' '; }
  }

  /** A first letter is a proper prefix of its word. */
  lemma OneLetter(h: HeaderState, ch: char)
    requires WordOf(Lower(ch)) == Some(h)
    ensures IsOption(h) && LowerText([ch]) < Word(h)
  {
    Words();
    assert LowerText([ch]) == [Lower(ch)];
  }

  lemma {:induction false} StripSnoc(e: string, ch: char)
    ensures Strip(e + [ch]) == if Strip(e) == "" && ch == ' ' then "" else Strip(e) + [ch]
    decreases |e|
  {
    if e == "" {
      assert e + [ch] == [ch] && [ch][1..] == "";
      assert Strip("") == "";
    } else {
      assert (e + [ch])[0] == e[0] && (e + [ch])[1..] == e[1..] + [ch];
      StripSnoc(e[1..], ch);
    }
  }

  /** The record at the beginning of an element that is not the first. */
  predicate Stands(q: Parser, pl: Place) {
    match pl
    case First => false
    case Start => At(q, HMatchingTokenStart, "")
    case Inside => q.hstate.HMatchingToken?
    case Over => q.hstate.HGeneral?
  }

  lemma StartElementByte(q: Parser, e: string, ch: char)
    requires At(q, Reading(Start, e), Strip(e)) && IsHeaderChar(ch) && ch != ','
    ensures var q' := ValueByte(q, ch);
      At(q', Reading(Start, e + [ch]), Strip(e + [ch])) && q' == q.(hstate := q'.hstate, index := q'.index)
  {
    hide ValueByte, ReadWord, Word, Lower, Token, Strip, IsHeaderChar;
    StripSnoc(e, ch);
    var t := Strip(e);
    if t == "" {
      StartByte(q, ch);
      if ch != ' ' && WordOf(Lower(ch)).Some? {
        OneLetter(WordOf(Lower(ch)).value, ch);
        PrefixReads(WordOf(Lower(ch)).value, [ch]);
      }
      assert "" + [ch] == [ch];
    } else if WordOf(Lower(t[0])).Some? {
      OptionByte(q, WordOf(Lower(t[0])).value, t, ch);
    } else {
      StaysPut(q, ch);
    }
  }

  lemma PrefixReads(h: HeaderState, t: string)
    requires LowerText(t) < Word(h)
    ensures ReadWord(h, t, HMatchingToken) == h
  {
  }

  lemma StaysPut(q: Parser, ch: char)
    requires (q.hstate.HMatchingToken? || q.hstate.HGeneral?) && ch != ','
    ensures ValueByte(q, ch) == q
  {
    hide Lower, Match, Token;
  }

  /** No byte of an element but a comma ends it. */
  lemma {:induction false} ElementRun(q: Parser, pl: Place, e: string)
    requires Stands(q, pl) && Plain(e) && ',' !in e
    ensures var r := ValueRecord(q, e);
      && r == q.(hstate := Reading(pl, e), index := r.index)
      && (pl.Start? ==> At(r, Reading(Start, e), Strip(e)))
    decreases |e|
  {
    hide ValueByte, Reading, Strip, IsHeaderChar, At;
    if e == "" {
      NothingRead(q, pl);
    } else {
      var init, ch := e[..|e| - 1], e[|e| - 1];
      assert e == init + [ch];
      forall i | 0 <= i < |init|
        ensures init[i] != CR && init[i] != LF && IsHeaderChar(init[i])
      {
        assert init[i] == e[i];
      }
      assert IsHeaderChar(ch) && ch != ',' by { assert e[|e| - 1] in e; }
      ElementRun(q, pl, init);
      RecordSnoc(q, init, ch);
      var r := ValueRecord(q, init);
      if pl.Start? {
        StartElementByte(r, init, ch);
        AtState(ValueByte(r, ch), Reading(Start, e), Strip(e));
      } else {
        SameReading(pl, init, e);
        StaysPut(r, ch);
      }
    }
  }

  lemma AtState(q: Parser, h: HeaderState, t: string)
    requires At(q, h, t)
    ensures q.hstate == h
  {
  }

  lemma NothingRead(q: Parser, pl: Place)
    requires Stands(q, pl)
    ensures q == q.(hstate := Reading(pl, "")) && (pl.Start? ==> At(q, Reading(Start, ""), Strip("")))
  {
  }

  lemma SameReading(pl: Place, a: string, b: string)
    requires pl.Inside? || pl.Over?
    ensures Reading(pl, a) == Reading(pl, b) && (Reading(pl, a).HMatchingToken? || Reading(pl, a).HGeneral?)
  {
  }

  /** The comma behind an element. */
  lemma CommaByte(q: Parser, pl: Place, e: string)
    requires q.hstate == Reading(pl, e) && !(pl.First? && e == "") && (pl.Start? ==> At(q, Reading(Start, e), Strip(e)))
    requires pl.First? ==> At(q, Reading(First, e), e)
    ensures var q' := ValueByte(q, ',');
      && q' == q.(flags := FlagOf(q.flags, Reading(pl, e)), hstate := q'.hstate, index := q'.index)
      && Stands(q', NextPlace(pl, e))
  {
    hide Reading, Strip, Token;
    ReadingStates(pl, e);
    var h := Reading(pl, e);
    if IsOption(h) { CommaMisses(q, h); }
    assert Lower(',') == ',';
    NoComma();
  }

  lemma NoComma()
    ensures !IsToken(',')
  {
  }

  lemma ReadingStates(pl: Place, e: string)
    ensures ListState(Reading(pl, e))
  {
    hide Word, Lower, Token, Spelled, LowerText;
  }

  lemma CommaMisses(q: Parser, h: HeaderState)
    requires IsOption(h) && q.hstate == h
    ensures ValueByte(q, ',') == q.(index := q.index + 1, hstate := HMatchingToken)
  {
    WordShape(h);
    assert Lower(',') == ',';
  }

  /** The first element, from its first byte on. */
  lemma {:induction false} FirstRun(p: Parser, e: string)
    requires p.hstate.HConnection? && e != "" && Plain(e) && ',' !in e
    ensures var r := ValueRecord(ValueStart(p, e[0]).st, e[1..]);
      At(r, Reading(First, e), e) && r == p.(state := HeaderValue, hstate := r.hstate, index := r.index)
    decreases |e|
  {
    hide ValueByte, Strip, IsHeaderChar, ReadWord, Lower, Word;
    if |e| == 1 {
      assert e == [e[0]];
      FirstLetter(p, e[0]);
    } else {
      var init, ch := e[..|e| - 1], e[|e| - 1];
      assert e == init + [ch] && init[1..] + [ch] == e[1..];
      forall i | 0 <= i < |init|
        ensures init[i] != CR && init[i] != LF && IsHeaderChar(init[i])
      {
        assert init[i] == e[i];
      }
      assert ch != ',' by { assert e[|e| - 1] in e; }
      FirstRun(p, init);
      RecordSnoc(ValueStart(p, e[0]).st, init[1..], ch);
      var r := ValueRecord(ValueStart(p, init[0]).st, init[1..]);
      if WordOf(Lower(e[0])).Some? {
        OptionByte(r, WordOf(Lower(e[0])).value, init, ch);
      } else {
        StaysPut(r, ch);
      }
    }
  }

  lemma FirstLetter(p: Parser, ch: char)
    requires p.hstate.HConnection?
    ensures var q := ValueStart(p, ch).st;
      At(q, Reading(First, [ch]), [ch]) && q == p.(state := HeaderValue, hstate := q.hstate, index := q.index)
    ensures ValueStart(p, ch) == Go(ValueStart(p, ch).st).(mark := Some(OnHeaderValue))
  {
    hide Word, Lower;
    if WordOf(Lower(ch)).Some? {
      OneLetter(WordOf(Lower(ch)).value, ch);
      PrefixReads(WordOf(Lower(ch)).value, [ch]);
    }
  }

  // ---------- whole values ----------

  function Finished(q: Parser): Flags { FlagOf(q.flags, q.hstate) }

  lemma ListCons(pl: Place, v: string, f: Flags)
    ensures var e := Element(v); var f' := FlagOf(f, Reading(pl, e));
      ListFlags(pl, v, f) == if e == v then f' else ListFlags(NextPlace(pl, e), v[|e| + 1..], f')
  {
    hide Reading, NextPlace, FlagOf;
  }

  lemma RecordCons(r: Parser, rest: string)
    ensures ValueRecord(r, [','] + rest) == ValueRecord(ValueByte(r, ','), rest)
  {
    hide ValueByte;
    assert ([','] + rest)[1..] == rest;
  }

  /**
   The automaton is exact: behind any value that does not begin in the middle of nothing, the flags are those of the
   list.
  */
  lemma {:induction false} ListRun(q: Parser, pl: Place, v: string)
    requires Stands(q, pl) && Plain(v)
    ensures Finished(ValueRecord(q, v)) == ListFlags(pl, v, q.flags)
    decreases |v|
  {
    hide ValueByte, Reading, NextPlace, Stands, IsHeaderChar, At, FlagOf, ListFlags, ValueRecord, Element;
    var e := Element(v);
    ListCons(pl, v, q.flags);
    assert !pl.First? by { NotFirst(q, pl); }
    assert Plain(e) by { PlainPart(v, 0, |e|); assert v[0..|e|] == e; }
    ElementRun(q, pl, e);
    if e != v {
      var rest := v[|e| + 1..];
      PlainPart(v, |e| + 1, |v|);
      assert v == e + ([','] + rest);
      RecordConcat(q, e, [','] + rest);
      var r := ValueRecord(q, e);
      RecordCons(r, rest);
      assert rest == v[|e| + 1..|v|];
      CommaByte(r, pl, e);
      ListRun(ValueByte(r, ','), NextPlace(pl, e), rest);
    }
  }

  lemma NotFirst(q: Parser, pl: Place)
    requires Stands(q, pl)
    ensures !pl.First?
  {
  }

  lemma PlainPart(v: string, i: nat, j: nat)
    requires Plain(v) && i <= j <= |v|
    ensures Plain(v[i..j])
  {
    hide IsHeaderChar;
    forall k | 0 <= k < j - i ensures v[i..j][k] != CR && v[i..j][k] != LF && IsHeaderChar(v[i..j][k]) {
      assert v[i..j][k] == v[i + k];
    }
  }

  lemma FirstOfElement(v: string)
    requires v != "" && v[0] != ','
    ensures Element(v) != "" && Element(v)[0] == v[0]
  {
  }

  /** Behind the first element. */
  lemma SecondRun(p: Parser, v: string)
    requires p.hstate.HConnection? && v != "" && v[0] != ',' && Plain(v)
    ensures Finished(ValueRecord(ValueStart(p, v[0]).st, v[1..])) == ListFlags(First, v, p.flags)
  {
    hide ValueByte, Reading, NextPlace, IsHeaderChar, At, FlagOf, ValueStart, Stands, Plain, ListFlags, ValueRecord,
         Element;
    var e := Element(v);
    var q := ValueStart(p, v[0]).st;
    FirstOfElement(v);
    ListCons(First, v, p.flags);
    PlainPart(v, 0, |e|);
    assert v[0..|e|] == e && e[0] == v[0];
    FirstRun(p, e);
    var r := ValueRecord(q, e[1..]);
    AtState(r, Reading(First, e), e);
    if e != v {
      var rest := v[|e| + 1..];
      PlainPart(v, |e| + 1, |v|);
      assert v[1..] == e[1..] + ([','] + rest);
      RecordConcat(q, e[1..], [','] + rest);
      RecordCons(r, rest);
      assert rest == v[|e| + 1..|v|];
      CommaByte(r, First, e);
      ListRun(ValueByte(r, ','), NextPlace(First, e), rest);
    } else {
      assert e[1..] == v[1..];
    }
  }

  /** The flags of a Connection header, from the first byte of its value on; nothing else changes. */
  lemma ConnectionFlags(p: Parser, v: string)
    requires p.hstate.HConnection? && p.errno.OK? && v != "" && Plain(v)
    ensures var q := ValueStart(p, v[0]).st; var r := ValueRecord(q, v[1..]);
      && Finished(r) == ListFlags(First, v, p.flags)
      && r == p.(state := HeaderValue, hstate := r.hstate, index := r.index, flags := r.flags)
      && ValueStart(p, v[0]).next.Advance? && Accepts(q, v[1..])
  {
    hide ValueByte, Reading, NextPlace, IsHeaderChar, At, FlagOf, ValueStart, Stands;
    var q := ValueStart(p, v[0]).st;
    ListStart(p, v[0]);
    PlainPart(v, 1, |v|);
    RecordKeeps(q, v[1..]);
    if v[0] == ',' {
      CommaFirst(p);
      ListRun(q, Inside, v[1..]);
      FirstEmpty();
    } else {
      SecondRun(p, v);
    }
  }

  lemma ListStart(p: Parser, ch: char)
    requires p.hstate.HConnection? && p.errno.OK?
    ensures var o := ValueStart(p, ch); ListState(o.st.hstate) && o.next.Advance?
    ensures var q := ValueStart(p, ch).st; q == p.(state := HeaderValue, hstate := q.hstate, index := q.index)
  {
    hide Lower;
  }

  /** The header states in which no value is refused. */
  predicate CalmState(h: HeaderState) { ListState(h) || h.HMatchingChunked? || h.HChunked? }

  lemma ListByte(q: Parser, ch: char)
    requires CalmState(q.hstate)
    ensures var r := ValueByte(q, ch);
        r == q.(hstate := r.hstate, index := r.index, flags := r.flags) && CalmState(r.hstate)
  {
    hide Lower, Token, Word, AddDecimal;
  }

  lemma FirstEmpty()
    ensures NextPlace(First, "") == Inside && forall f :: FlagOf(f, Reading(First, "")) == f
  {
  }

  lemma CommaFirst(p: Parser)
    requires p.hstate.HConnection?
    ensures var q := ValueStart(p, ',').st;
        Stands(q, Inside) && q == p.(state := HeaderValue, hstate := q.hstate, index := q.index)
  {
    assert Lower(',') == ',';
  }

  /** The value loop touches nothing but these fields. */
  lemma {:induction false} RecordKeeps(q: Parser, s: string)
    requires Plain(s) && q.errno.OK? && CalmState(q.hstate)
    ensures var r := ValueRecord(q, s); r == q.(hstate := r.hstate, index := r.index, flags := r.flags) && Accepts(q, s)
    decreases |s|
  {
    hide ValueByte, IsHeaderChar;
    if s != "" {
      ListByte(q, s[0]);
      RecordKeeps(ValueByte(q, s[0]), s[1..]);
    }
  }

  // ---------- the same header in RFC 7230 ----------

  predicate IsOws(s: string) { forall i :: 0 <= i < |s| ==> s[i] == ' ' || s[i] == '\t' }

  /** An element is this option, in any case and with optional white space around it. */
  predicate Names(e: string, option: string) {
    exists i, j | 0 <= i <= j <= |e| :: LowerText(e[i..j]) == option && IsOws(e[..i]) && IsOws(e[j..])
  }

  /** A Connection header with this value lists the option (sections 6.1 and 7 of RFC 7230). */
  predicate Lists(v: string, option: string)
    decreases |v|
  {
    var e := Element(v);
    Names(e, option) || (e != v && Lists(v[|e| + 1..], option))
  }

  /** The flag of an option. */
  predicate FlagSet(f: Flags, h: HeaderState) {
    match h
    case HMatchingKeepAlive => f.keepAlive
    case HMatchingClose => f.close
    case HMatchingConnUpgrade => f.connUpgrade
    case _ => false
  }

  lemma OneFlag(f: Flags, h: HeaderState, r: HeaderState)
    requires IsOption(h) && ListState(r)
    ensures FlagSet(FlagOf(f, r), h) <==> FlagSet(f, h) || r == Hit(h)
  {
  }

  lemma {:induction false} StripIs(e: string)
    ensures var n := |e| - |Strip(e)|;
        n >= 0 && e[n..] == Strip(e) && IsBlank(e[..n]) && (Strip(e) != "" ==> Strip(e)[0] != ' ')
    decreases |e|
  {
    if e != "" && e[0] == ' ' {
      StripIs(e[1..]);
      var n := |e| - |Strip(e)|;
      assert e[..n] == [e[0]] + e[1..][..n - 1];
    }
  }

  /** The text that is compared with a word: behind the blanks, if blanks are skipped. */
  function Compared(pl: Place, e: string): string { if pl.Start? then Strip(e) else e }

  /** An element is recognised when its text is the word and blanks. */
  lemma HitMeans(pl: Place, e: string, h: HeaderState)
    requires IsOption(h)
    ensures Reading(pl, e) == Hit(h) <==> (pl.First? || pl.Start?) && Spelled(Compared(pl, e), Word(h))
  {
    hide LowerText, Token, Spelled, Strip, ReadWord, Word;
    var t := Compared(pl, e);
    HitIs(h);
    if t == "" {
      assert !Spelled(t, Word(h)) by { if Spelled(t, Word(h)) { FirstOfWord(h, t); } }
    } else if pl.First? || pl.Start? {
      if Spelled(t, Word(h)) { FirstOfWord(h, t); }
      if WordOf(Lower(t[0])).Some? { ReadWordHits(WordOf(Lower(t[0])).value, t, h); }
    }
  }

  lemma HitIs(h: HeaderState)
    requires IsOption(h)
    ensures Hit(h) != HGeneral && Hit(h) != HMatchingToken && Hit(h) != HMatchingTokenStart
  {
  }

  lemma ReadWordHits(g: HeaderState, t: string, h: HeaderState)
    requires t != "" && WordOf(Lower(t[0])) == Some(g) && IsOption(h)
    ensures ReadWord(g, t, HMatchingToken) == Hit(h) <==> Spelled(t, Word(h))
  {
    hide LowerText, Word;
    if Spelled(t, Word(h)) {
      FirstOfWord(h, t);
      NotBoth(h, t);
    }
  }

  lemma FirstOfWord(h: HeaderState, t: string)
    requires IsOption(h) && Spelled(t, Word(h))
    ensures t != "" && WordOf(Lower(t[0])) == Some(h)
  {
    Words();
    assert LowerText(t[..|Word(h)|])[0] == Lower(t[0]);
  }

  lemma NotBoth(h: HeaderState, t: string)
    requires Spelled(t, Word(h))
    ensures !(LowerText(t) < Word(h))
  {
  }

  lemma BlankIsOws(s: string)
    requires IsBlank(s)
    ensures IsOws(s)
  {
  }

  /** What the parser takes for an option is one. */
  lemma HitNames(pl: Place, e: string, h: HeaderState)
    requires IsOption(h) && Reading(pl, e) == Hit(h)
    ensures Names(e, Word(h))
  {
    hide Reading, Word, Strip, LowerText;
    HitMeans(pl, e, h);
    var t, w := Compared(pl, e), Word(h);
    StripIs(e);
    var n := |e| - |t|;
    assert e[n..] == t && IsBlank(e[..n]);
    assert e[n..n + |w|] == t[..|w|] && e[n + |w|..] == t[|w|..];
    BlankIsOws(e[..n]);
    BlankIsOws(e[n + |w|..]);
  }

  /** Soundness: a flag that a value sets stands for an option that the value lists. */
  lemma {:induction false} FlagsSound(pl: Place, v: string, f: Flags, h: HeaderState)
    requires IsOption(h) && FlagSet(ListFlags(pl, v, f), h)
    ensures FlagSet(f, h) || Lists(v, Word(h))
    decreases |v|
  {
    hide Reading, NextPlace, Names, Word, FlagSet, FlagOf;
    var e := Element(v);
    ReadingStates(pl, e);
    OneFlag(f, h, Reading(pl, e));
    if Reading(pl, e) == Hit(h) {
      HitNames(pl, e, h);
    } else if e != v {
      FlagsSound(NextPlace(pl, e), v[|e| + 1..], FlagOf(f, Reading(pl, e)), h);
    }
  }

  /** A proper prefix of an option. */
  predicate BeginsOption(t: string) {
    LowerText(t) < Word(HMatchingKeepAlive) || LowerText(t) < Word(HMatchingClose)
      || LowerText(t) < Word(HMatchingConnUpgrade)
  }

  /** An element behind which the parser finds the next one. */
  predicate Passable(pl: Place, e: string) {
    var t := Compared(pl, e);
    t != "" && !BeginsOption(t) && (pl.Start? ==> IsToken(Lower(t[0])))
  }

  /** How the next element begins, told from the text alone. */
  function Behind(pl: Place, e: string): Place {
    var t := Compared(pl, e);
    match pl
    case Over => Over
    case Inside => Start
    case First => if BeginsOption(t) then Inside else Start
    case Start => if t == "" || !IsToken(Lower(t[0])) then Over else if BeginsOption(t) then Inside else Start
  }

  lemma BehindIsNext(pl: Place, e: string)
    ensures NextPlace(pl, e) == Behind(pl, e)
  {
    hide Token, Spelled, LowerText, Lower, BeginsOption, ReadWord, Word, WordOf;
    var t := Compared(pl, e);
    if (pl.First? || pl.Start?) && t != "" {
      if WordOf(Lower(t[0])).Some? {
        LetterIsToken(t[0]);
        WordOption(Lower(t[0]));
        ReadWordStays(WordOf(Lower(t[0])).value, t);
      } else {
        NoOption(t);
      }
    } else {
      EmptyBegins();
    }
  }

  lemma WordOption(c: char)
    requires WordOf(c).Some?
    ensures IsOption(WordOf(c).value)
  {
  }

  /** Only a proper prefix of the word leaves the parser in the middle of it. */
  lemma ReadWordStays(h: HeaderState, t: string)
    requires t != "" && WordOf(Lower(t[0])) == Some(h)
    ensures var r := ReadWord(h, t, HMatchingToken);
      && (IsOption(r) <==> BeginsOption(t)) && !r.HMatchingTokenStart? && !r.HGeneral? && (IsOption(r) ==> r == h)
  {
    hide LowerText, Spelled, Lower;
    BeginsFirst(t);
    assert LowerText(t) < Word(h) <==> BeginsOption(t);
  }

  lemma NoOption(t: string)
    requires t != "" && WordOf(Lower(t[0])).None?
    ensures !BeginsOption(t)
  {
    hide LowerText, Lower;
    BeginsFirst(t);
  }

  /** The next element is compared with the options if and only if this one is passable. */
  lemma PassableExact(pl: Place, e: string)
    requires pl.First? || pl.Start?
    ensures Behind(pl, e).Start? <==> Passable(pl, e)
  {
    hide Token, Strip, Word;
    if Compared(pl, e) == "" { EmptyBegins(); }
  }

  lemma EmptyBegins()
    ensures BeginsOption("")
  {
    Words();
  }

  lemma LetterIsToken(ch: char)
    requires WordOf(Lower(ch)).Some?
    ensures IsToken(Lower(ch))
  {
  }

  lemma BeginsFirst(t: string)
    requires t != ""
    ensures forall h :: IsOption(h) && LowerText(t) < Word(h) ==> WordOf(Lower(t[0])) == Some(h)
  {
    Words();
    forall h | IsOption(h) && LowerText(t) < Word(h) ensures WordOf(Lower(t[0])) == Some(h) {
      assert LowerText(t)[0] == Word(h)[0] == Lower(t[0]);
    }
  }

  /** An element without a tab, behind which the parser finds the next one. */
  predicate Regular(pl: Place, e: string) { Passable(pl, e) && '\t' !in e }

  predicate AllRegular(pl: Place, v: string)
    decreases |v|
  {
    var e := Element(v);
    Regular(pl, e) && (e != v ==> AllRegular(Start, v[|e| + 1..]))
  }

  /** A regular element is recognised when it is the option. */
  lemma RegularHits(pl: Place, e: string, h: HeaderState)
    requires IsOption(h) && (pl.Start? || (pl.First? && e != "" && e[0] != ' ')) && '\t' !in e
    ensures Reading(pl, e) == Hit(h) <==> Names(e, Word(h))
  {
    hide Reading, Word, Strip, Spelled;
    HitMeans(pl, e, h);
    if Reading(pl, e) == Hit(h) { HitNames(pl, e, h); }
    if Names(e, Word(h)) {
      var i, j :| 0 <= i <= j <= |e| && LowerText(e[i..j]) == Word(h) && IsOws(e[..i]) && IsOws(e[j..]);
      NamedSpelled(pl, e, h, i, j);
    }
  }

  lemma NamedSpelled(pl: Place, e: string, h: HeaderState, i: nat, j: nat)
    requires IsOption(h) && (pl.Start? || (pl.First? && e != "" && e[0] != ' ')) && '\t' !in e
    requires i <= j <= |e| && LowerText(e[i..j]) == Word(h) && IsOws(e[..i]) && IsOws(e[j..])
    ensures Spelled(Compared(pl, e), Word(h))
  {
    hide Word, Strip;
    WordShape(h);
    var t, w := Compared(pl, e), Word(h);
    assert Lower(e[i]) == w[0] != ' ' by { assert LowerText(e[i..j])[0] == Lower(e[i..j][0]); }
    assert e[i] != ' ';
    StripIs(e);
    var n := |e| - |t|;
    NoTab(e, i);
    FirstLetterAt(e, n, i);
    assert t[..|w|] == e[i..j] && t[|w|..] == e[j..];
  }

  lemma NoTab(e: string, i: nat)
    requires i <= |e| && IsOws(e[..i]) && '\t' !in e
    ensures IsBlank(e[..i])
  {
    forall k | 0 <= k < i ensures e[..i][k] == ' ' { assert e[..i][k] == e[k] != '\t'; }
  }

  /** There is one first letter behind the blanks. */
  lemma FirstLetterAt(e: string, n: nat, i: nat)
    requires n <= |e| && IsBlank(e[..n]) && (n < |e| ==> e[n] != ' ')
    requires i < |e| && IsBlank(e[..i]) && e[i] != ' '
    ensures n == i
  {
    assert forall k :: 0 <= k < n ==> e[..n][k] == e[k];
    assert forall k :: 0 <= k < i ==> e[..i][k] == e[k];
  }

  /** Completeness: in a list of regular elements every option is found, and nothing else is. */
  lemma {:induction false} FlagsComplete(pl: Place, v: string, f: Flags, h: HeaderState)
    requires IsOption(h) && (pl.Start? || (pl.First? && v != "" && v[0] != ' ')) && AllRegular(pl, v)
    ensures FlagSet(ListFlags(pl, v, f), h) <==> FlagSet(f, h) || Lists(v, Word(h))
    decreases |v|
  {
    hide Reading, NextPlace, Names, Word, FlagSet, FlagOf, Passable, Behind;
    var e := Element(v);
    if pl.First? { NotEmptyElement(e); }
    ReadingStates(pl, e);
    RegularHits(pl, e, h);
    OneFlag(f, h, Reading(pl, e));
    PassableExact(pl, e);
    BehindIsNext(pl, e);
    if e != v {
      FlagsComplete(Start, v[|e| + 1..], FlagOf(f, Reading(pl, e)), h);
    }
  }

  lemma NotEmptyElement(e: string)
    requires Passable(First, e)
    ensures e != ""
  {
  }

  // ---------- which flags a list sets, and when these are the ones of RFC 7230 ----------

  /** The list holds an element that spells the option, in a place where the parser compares elements with options. */
  predicate Seen(pl: Place, v: string, option: string)
    decreases |v|
  {
    var e := Element(v);
    ((pl.First? || pl.Start?) && Spelled(Compared(pl, e), option))
    || (e != v && Seen(Behind(pl, e), v[|e| + 1..], option))
  }

  /** A list sets the flags of exactly the options that are seen in it. */
  lemma {:induction false} FlagsExactly(pl: Place, v: string, f: Flags, h: HeaderState)
    requires IsOption(h)
    ensures FlagSet(ListFlags(pl, v, f), h) <==> FlagSet(f, h) || Seen(pl, v, Word(h))
    decreases |v|
  {
    hide Reading, NextPlace, Behind, Spelled, Compared, Word, FlagSet, FlagOf;
    var e := Element(v);
    ReadingStates(pl, e);
    OneFlag(f, h, Reading(pl, e));
    HitMeans(pl, e, h);
    BehindIsNext(pl, e);
    if e != v {
      FlagsExactly(Behind(pl, e), v[|e| + 1..], FlagOf(f, Reading(pl, e)), h);
    }
  }

  /** What is seen is listed. */
  lemma SeenIsListed(pl: Place, v: string, h: HeaderState)
    requires IsOption(h) && Seen(pl, v, Word(h))
    ensures Lists(v, Word(h))
  {
    hide Seen, Lists, ListFlags, Word;
    FlagsExactly(pl, v, NO_FLAGS, h);
    FlagsSound(pl, v, NO_FLAGS, h);
  }

  /** The flags f with those of the options that a list names in the sense of RFC 7230. */
  function RfcFlags(v: string, f: Flags): Flags {
    f.(keepAlive := f.keepAlive || Lists(v, "keep-alive"), close := f.close || Lists(v, "close"),
       connUpgrade := f.connUpgrade || Lists(v, "upgrade"))
  }

  /** An option that the value lists, but not where the parser looks for it. */
  predicate Hidden(v: string, option: string) { Lists(v, option) && !Seen(First, v, option) }

  lemma {:induction false} OnlyThreeFlags(pl: Place, v: string, f: Flags)
    ensures var r := ListFlags(pl, v, f);
      r == f.(keepAlive := r.keepAlive, close := r.close, connUpgrade := r.connUpgrade)
    decreases |v|
  {
    hide Reading, NextPlace, FlagOf;
    var e := Element(v);
    ReadingStates(pl, e);
    OneChanges(f, Reading(pl, e));
    if e != v {
      OnlyThreeFlags(NextPlace(pl, e), v[|e| + 1..], FlagOf(f, Reading(pl, e)));
    }
  }

  lemma OneChanges(f: Flags, r: HeaderState)
    requires ListState(r)
    ensures var q := FlagOf(f, r);
      q == f.(keepAlive := q.keepAlive, close := q.close, connUpgrade := q.connUpgrade)
  {
    match r
    case HConnKeepAlive =>
    case HConnClose =>
    case HConnUpgrade =>
    case _ =>
  }

  /** The parser reads a list as RFC 7230 does if and only if no option is hidden whose flag is not set already. */
  lemma AgreesWithRfc(v: string, f: Flags)
    ensures ListFlags(First, v, f) == RfcFlags(v, f) <==>
        forall h :: IsOption(h) && Hidden(v, Word(h)) ==> FlagSet(f, h)
  {
    hide Seen, Lists, ListFlags, Word;
    Words();
    OnlyThreeFlags(First, v, f);
    forall h | IsOption(h)
      ensures FlagSet(ListFlags(First, v, f), h) <==> FlagSet(f, h) || Seen(First, v, Word(h))
      ensures Seen(First, v, Word(h)) ==> Lists(v, Word(h))
      ensures FlagSet(RfcFlags(v, f), h) <==> FlagSet(f, h) || Lists(v, Word(h))
    {
      FlagsExactly(First, v, f, h);
      if Seen(First, v, Word(h)) { SeenIsListed(First, v, h); }
    }
    SameFlags(ListFlags(First, v, f), RfcFlags(v, f));
  }

  lemma SameFlags(a: Flags, b: Flags)
    requires a == b.(keepAlive := a.keepAlive, close := a.close, connUpgrade := a.connUpgrade)
    ensures a == b <==> forall h :: IsOption(h) ==> (FlagSet(a, h) <==> FlagSet(b, h))
  {
    if a != b {
      assert !(FlagSet(a, HMatchingKeepAlive) <==> FlagSet(b, HMatchingKeepAlive))
          || !(FlagSet(a, HMatchingClose) <==> FlagSet(b, HMatchingClose))
          || !(FlagSet(a, HMatchingConnUpgrade) <==> FlagSet(b, HMatchingConnUpgrade));
    }
  }

  lemma ElementOf(e: string, rest: string)
    requires ',' !in e
    ensures Element(e) == e && Element(e + [','] + rest) == e
    decreases |e|
  {
    if e != "" {
      ElementOf(e[1..], rest);
      assert (e + [','] + rest)[1..] == e[1..] + [','] + rest;
    }
  }

  lemma ListStep(pl: Place, e: string, rest: string, f: Flags)
    requires ',' !in e
    ensures ListFlags(pl, e + [','] + rest, f) == ListFlags(NextPlace(pl, e), rest, FlagOf(f, Reading(pl, e)))
  {
    hide Reading, NextPlace;
    ElementOf(e, rest);
    assert (e + [','] + rest)[|e| + 1..] == rest;
  }

  /** What a list of two elements shows: the option in the first one, or behind a passable one in the second. */
  lemma NextRecognised(pl: Place, e: string, o: string, f: Flags, h: HeaderState)
    requires (pl.First? || pl.Start?) && ',' !in e && ',' !in o && IsOption(h) && Spelled(Strip(o), Word(h))
    ensures FlagSet(ListFlags(pl, e + [','] + o, f), h) <==>
        FlagSet(f, h) || Spelled(Compared(pl, e), Word(h)) || Passable(pl, e)
  {
    hide Passable, Word, FlagSet, ListFlags, Behind, Spelled, Strip;
    FlagsExactly(pl, e + [','] + o, f, h);
    ElementOf(e, o);
    ElementOf(o, "");
    assert (e + [','] + o)[|e| + 1..] == o;
    PassableExact(pl, e);
    NotFirstBehind(pl, e);
  }

  lemma NotFirstBehind(pl: Place, e: string)
    ensures !Behind(pl, e).First?
  {
  }

  lemma CloseFlag(f: Flags, r: HeaderState)
    requires ListState(r)
    ensures FlagOf(f, r).close <==> f.close || r.HConnClose?
  {
    hide ListState;
    OneFlag(f, HMatchingClose, r);
  }

  lemma CloseSpelled()
    ensures Strip("close") == "close" && Spelled("close", "close") && Hit(HMatchingClose) == HConnClose
    ensures !Spelled("close\t", "close")
  {
    assert LowerText("close") == "close" && "close"[..5] == "close";
    assert "close\t"[5..][0] == '\t';
  }

  /**
   Each of these lists "close" behind an element that hides it: a tab, nothing at all, or a proper prefix of an option.
  */
  lemma HiddenOptions(f: Flags)
    requires !f.close
    ensures var v := "x" + [','] + ("\t" + [','] + "close"); Lists(v, "close") && !ListFlags(First, v, f).close
    ensures var v := "" + [','] + "close"; Lists(v, "close") && !ListFlags(First, v, f).close
    ensures var v := "k" + [','] + "close"; Lists(v, "close") && !ListFlags(First, v, f).close
  {
    hide ListFlags, Lists, Word, Names;
    Hiders();
    ListStep(First, "x", "\t" + [','] + "close", f);
    Hides(Start, "\t", f);
    Hides(First, "", f);
    Hides(First, "k", f);
    NamedAlone();
    ListsLast("close");
    ListsNext("\t", "close");
    ListsNext("x", "\t" + [','] + "close");
    ListsNext("", "close");
    ListsNext("k", "close");
  }

  lemma Hides(pl: Place, e: string, f: Flags)
    requires (pl.First? || pl.Start?) && ',' !in e && !Passable(pl, e) && !Reading(pl, e).HConnClose? && !f.close
    ensures !ListFlags(pl, e + [','] + "close", f).close
  {
    hide ListFlags, Word, Passable, Reading, Spelled;
    Words();
    CloseSpelled();
    HitMeans(pl, e, HMatchingClose);
    NextRecognised(pl, e, "close", f, HMatchingClose);
  }

  lemma NamedAlone()
    ensures Names("close", "close")
  {
    assert "close"[0..5] == "close" && LowerText("close") == "close";
    assert IsOws("close"[..0]) && IsOws("close"[5..]);
  }

  lemma Hiders()
    ensures forall f :: FlagOf(f, Reading(First, "x")) == f
    ensures NextPlace(First, "x") == Start && !Passable(Start, "\t") && !Passable(First, "") && !Passable(First, "k")
    ensures !Reading(Start, "\t").HConnClose? && !Reading(First, "").HConnClose? && !Reading(First, "k").HConnClose?
  {
    assert FlagOf(NO_FLAGS, Reading(First, "x")) == NO_FLAGS && NextPlace(First, "x") == Start
        && Reading(First, "x").HMatchingToken?;
    TabHides();
    LetterHides();
  }

  lemma TabHides()
    ensures !Passable(Start, "\t") && !Reading(Start, "\t").HConnClose?
  {
    assert Strip("\t") == "\t";
  }

  lemma LetterHides()
    ensures !Passable(First, "k") && !Reading(First, "k").HConnClose? && !Passable(First, "")
    ensures !Reading(First, "").HConnClose?
  {
    Words();
    assert LowerText("k") == "k";
  }

  /** A tab in front of the option itself or behind it hides it too. */
  lemma HiddenByTab(f: Flags)
    requires !f.close
    ensures Lists("x" + [','] + "\tclose", "close") && !ListFlags(First, "x" + [','] + "\tclose", f).close
    ensures Lists("close\t", "close") && !ListFlags(First, "close\t", f).close
  {
    hide ListFlags, Lists, Reading, NextPlace, Names, FlagOf;
    Hiders();
    ListStep(First, "x", "\tclose", f);
    TabFirst(f);
    TabLast(f);
    NamedWithTab();
    ListsLast("\tclose");
    ListsLast("close\t");
    ListsNext("x", "\tclose");
  }

  lemma NamedWithTab()
    ensures Names("\tclose", "close") && Names("close\t", "close")
  {
    assert "\tclose"[1..6] == "close" == "close\t"[0..5] && LowerText("close") == "close";
    assert IsOws("\tclose"[..1]) && IsOws("\tclose"[6..]) && IsOws("close\t"[..0]) && IsOws("close\t"[5..]);
  }

  lemma ListsLast(e: string)
    requires ',' !in e && Names(e, "close")
    ensures Lists(e, "close")
  {
    ElementOf(e, "");
  }

  lemma ListsNext(e: string, rest: string)
    requires ',' !in e && Lists(rest, "close")
    ensures Lists(e + [','] + rest, "close")
  {
    hide Names;
    ElementOf(e, rest);
    assert (e + [','] + rest)[|e| + 1..] == rest;
  }

  lemma TabFirst(f: Flags)
    requires !f.close
    ensures !ListFlags(Start, "\tclose", f).close
  {
    hide Word, Reading, FlagOf, NextPlace;
    assert ',' !in "\tclose";
    ElementOf("\tclose", "");
    TabReads();
    ReadingStates(Start, "\tclose");
    CloseFlag(f, Reading(Start, "\tclose"));
  }

  lemma TabReads()
    ensures Reading(Start, "\tclose").HGeneral?
  {
    hide Word, Spelled, LowerText;
    assert Strip("\tclose") == "\tclose";
  }

  lemma TabLast(f: Flags)
    requires !f.close
    ensures !ListFlags(First, "close\t", f).close
  {
    hide Word, Reading, FlagOf, NextPlace, Spelled;
    Words();
    assert ',' !in "close\t";
    ElementOf("close\t", "");
    CloseSpelled();
    HitMeans(First, "close\t", HMatchingClose);
    ReadingStates(First, "close\t");
    CloseFlag(f, Reading(First, "close\t"));
  }

  // ---------- Transfer-Encoding ----------

  /** The header state after a Transfer-Encoding value. */
  function CodingState(v: string): HeaderState
    requires v != ""
  {
    if Lower(v[0]) == 'c' then ReadWord(HMatchingChunked, v, HGeneral) else HGeneral
  }

  lemma CodingStart(p: Parser, ch: char)
    requires p.hstate.HTransferEncoding?
    ensures var o := ValueStart(p, ch); var q := o.st;
      At(q, CodingState([ch]), [ch]) && q == p.(state := HeaderValue, hstate := q.hstate, index := q.index)
        && o.next.Advance?
    ensures CalmState(ValueStart(p, ch).st.hstate)
  {
    hide Lower, Spelled, Word;
    Words();
    assert LowerText([ch]) == [Lower(ch)];
  }

  lemma CodingByte(q: Parser, t: string, ch: char)
    requires t != "" && At(q, CodingState(t), t)
    ensures var q' := ValueByte(q, ch);
      At(q', CodingState(t + [ch]), t + [ch]) && q' == q.(hstate := q'.hstate, index := q'.index)
  {
    hide Word, LowerText, Spelled, Lower;
    if Lower(t[0]) == 'c' {
      if LowerText(t) < Word(HMatchingChunked) {
        WordByte(q, HMatchingChunked, t, ch);
      } else {
        hide Match, Token, AddDecimal;
        AfterWord(HMatchingChunked, t, ch);
      }
    }
  }

  lemma {:induction false} CodingRun(p: Parser, v: string)
    requires p.hstate.HTransferEncoding? && v != ""
    ensures var q := ValueStart(p, v[0]).st; var r := ValueRecord(q, v[1..]);
      At(r, CodingState(v), v) && r == p.(state := HeaderValue, hstate := r.hstate, index := r.index)
    decreases |v|
  {
    hide ValueByte, CodingState, ValueStart, At;
    CodingStart(p, v[0]);
    if |v| == 1 {
      assert v == [v[0]];
    } else {
      var init, ch := v[..|v| - 1], v[|v| - 1];
      assert v == init + [ch] && init[1..] + [ch] == v[1..];
      CodingRun(p, init);
      RecordSnoc(ValueStart(p, v[0]).st, init[1..], ch);
      CodingByte(ValueRecord(ValueStart(p, v[0]).st, init[1..]), init, ch);
    }
  }

  /** A Transfer-Encoding header sets the chunked flag exactly when its value is this one word and blanks. */
  lemma TransferFlags(p: Parser, v: string)
    requires p.hstate.HTransferEncoding? && p.errno.OK? && v != "" && Plain(v)
    ensures var q := ValueStart(p, v[0]).st; var r := ValueRecord(q, v[1..]);
      && Finished(r) == p.flags.(chunked := p.flags.chunked || Spelled(v, "chunked"))
      && r == p.(state := HeaderValue, hstate := r.hstate, index := r.index)
      && ValueStart(p, v[0]).next.Advance? && Accepts(q, v[1..])
  {
    hide ValueByte, ValueStart, IsHeaderChar, LowerText;
    CodingStart(p, v[0]);
    CodingRun(p, v);
    PlainPart(v, 1, |v|);
    assert v[1..|v|] == v[1..];
    RecordKeeps(ValueStart(p, v[0]).st, v[1..]);
    CodingHit(v);
  }

  lemma CodingHit(v: string)
    requires v != ""
    ensures CodingState(v).HChunked? <==> Spelled(v, "chunked")
    ensures CodingState(v).HChunked? || CodingState(v).HGeneral? || CodingState(v).HMatchingChunked?
  {
    Words();
    if Spelled(v, "chunked") { assert LowerText(v[..7])[0] == Lower(v[0]); }
  }

  // ---------- whole header lines ----------

  predicate IsConnection(name: string) {
    IsName(name) && (LowerName(name) == "connection" || LowerName(name) == "proxy-connection")
  }

  predicate IsCoding(name: string) { IsName(name) && LowerName(name) == "transfer-encoding" }

  /** Without a value there is nothing to set. */
  lemma NothingFlags(f: Flags, h: HeaderState)
    requires h.HConnection? || h.HTransferEncoding?
    ensures FlagOf(f, h) == f && ListFlags(First, "", f) == f && !Spelled("", "chunked")
  {
    FirstEmpty();
  }

  /** A Connection header line sets exactly the flags of its list. */
  lemma ConnectionLine(m: Machine, h: Header)
    requires MachineInv(m) && m.stop.Running? && m.ps.state.HeaderFieldStart? && m.nread + |HeaderText(h)| <= MAX_HEADER
    requires IsConnection(h.name) && IsPlain(h.value)
    ensures AfterLine(m, h, Run(m, HeaderText(h)), m.ps.(flags := ListFlags(First, h.value, m.ps.flags)))
  {
    hide Run, MachineInv, Push, NameRecord, LowerName, IsHeaderChar, IsToken, ValueStart, Accepts, ValueRecord,
         ListFlags, FlagOf;
    var head, v := h.name + ": ", h.value;
    assert HeaderText(h) == head + (v + CRLF);
    NameAndColon(m, h.name);
    NameAlike(m.ps, h.name);
    NamesRecognised(m.ps, h.name);
    RunKeeps(m, head);
    RunConcat(m, head, v + CRLF);
    var r := Run(m, head);
    if v == "" {
      NothingFlags(m.ps.flags, r.ps.hstate);
      assert v + CRLF == CRLF;
      EmptyLine(r);
    } else {
      ErrnoOk(r);
      ConnectionFlags(r.ps, v);
      ValueLine(r, v);
    }
  }

  /** A Connection header line is read as RFC 7230 reads it if and only if it hides no option whose flag is not set. */
  lemma ConnectionAgrees(m: Machine, h: Header)
    requires MachineInv(m) && m.stop.Running? && m.ps.state.HeaderFieldStart? && m.nread + |HeaderText(h)| <= MAX_HEADER
    requires IsConnection(h.name) && IsPlain(h.value)
    ensures Settle(Run(m, HeaderText(h))).ps.flags == RfcFlags(h.value, m.ps.flags) <==>
        forall o :: IsOption(o) && Hidden(h.value, Word(o)) ==> FlagSet(m.ps.flags, o)
  {
    hide Run, MachineInv, IsConnection, IsPlain, HeaderText, RfcFlags, Hidden, Word, FlagSet, IsOption, ListFlags,
         Settle;
    ConnectionLine(m, h);
    AgreesWithRfc(h.value, m.ps.flags);
  }

  /** A Transfer-Encoding header line. */
  lemma CodingLine(m: Machine, h: Header)
    requires MachineInv(m) && m.stop.Running? && m.ps.state.HeaderFieldStart? && m.nread + |HeaderText(h)| <= MAX_HEADER
    requires IsCoding(h.name) && IsPlain(h.value)
    ensures AfterLine(m, h, Run(m, HeaderText(h)),
                      m.ps.(flags := m.ps.flags.(chunked := m.ps.flags.chunked || Spelled(h.value, "chunked"))))
  {
    hide Run, MachineInv, Push, NameRecord, LowerName, IsHeaderChar, IsToken, ValueStart, Accepts, ValueRecord, Spelled,
         FlagOf;
    var head, v := h.name + ": ", h.value;
    assert HeaderText(h) == head + (v + CRLF);
    NameAndColon(m, h.name);
    NameAlike(m.ps, h.name);
    NamesRecognised(m.ps, h.name);
    RunKeeps(m, head);
    RunConcat(m, head, v + CRLF);
    var r := Run(m, head);
    if v == "" {
      NothingFlags(m.ps.flags, r.ps.hstate);
      assert v + CRLF == CRLF;
      EmptyLine(r);
    } else {
      ErrnoOk(r);
      TransferFlags(r.ps, v);
      ValueLine(r, v);
    }
  }

  /**
   In a list of codings the parser does not look for the last one, which section 3.3.1 of RFC 7230 makes the framing:
   the line changes nothing but the header automaton.
  */
  lemma CodingListMissed(m: Machine, name: string)
    requires MachineInv(m) && m.stop.Running? && m.ps.state.HeaderFieldStart? && IsCoding(name)
    requires m.nread + |name| + 16 <= MAX_HEADER
    ensures var h := Header(name, "gzip" + [','] + "chunked"); AfterLine(m, h, Run(m, HeaderText(h)), m.ps)
  {
    hide Run, MachineInv, AfterLine, Spelled, IsCoding;
    var h := Header(name, "gzip" + [','] + "chunked");
    GzipFirst();
    CodingLine(m, h);
    assert m.ps.flags.(chunked := m.ps.flags.chunked) == m.ps.flags;
  }

  lemma GzipFirst()
    ensures var v := "gzip" + [','] + "chunked"; IsPlain(v) && !Spelled(v, "chunked")
  {
    assert LowerText(("gzip" + [','] + "chunked")[..7])[0] == Lower('g') == 'g';
  }
}
