/**
 The nested automaton that recognises header names while they are read (s_header_field): it finds exactly the five names
 the parser cares about, in any spelling of their letters.
 */
module HttpNames {
  import opened Chars
  import opened HttpTypes
  import opened HttpStep

  predicate IsName(name: string) { name != "" && forall i :: 0 <= i < |name| ==> IsToken(name[i]) }

  /** The name in the token table's lower case. */
  function LowerName(name: string): string { seq(|name|, i requires 0 <= i < |name| => Token(name[i])) }

  /** The record after a whole header name that starts a line. */
  function NameRecord(p: Parser, name: string): Parser
    requires name != ""
    decreases |name|
  {
    if |name| == 1 then FieldStart(p, Token(name[0]))
    else FieldByte(NameRecord(p, name[..|name| - 1]), Token(name[|name| - 1]))
  }

  /** No word the automaton looks for begins with w. */
  predicate NoWord(w: string) {
    && !(w <= Word(HMatchingConnection)) && !(w <= Word(HMatchingProxyConnection))
    && !(w <= Word(HMatchingContentLength))
    && !(w <= Word(HMatchingTransferEncoding)) && !(w <= Word(HMatchingUpgrade))
  }

  /** What a header state says about the lower-cased name w read so far. */
  predicate Means(h: HeaderState, index: nat, w: string) {
    if MatchingName(h) then
      index == |w| - 1 && w < Word(h) && (h.HMatchingConnection? || h.HMatchingContentLength? ==> |w| >= 4)
    else match h
      case HGeneral => NoWord(w)
      case HC => w == ['c'] && index == 0
      case HCo => w == ['c', 'o'] && index == 1
      case HCon => w == ['c', 'o', 'n'] && index == 2
      case HConnection => w == Word(HMatchingConnection) || w == Word(HMatchingProxyConnection)
      case HContentLength => w == Word(HMatchingContentLength)
      case HTransferEncoding => w == Word(HMatchingTransferEncoding)
      case HUpgrade => w == Word(HMatchingUpgrade)
      case _ => false
  }

  /** The letters that tell the words apart. */
  lemma Letters()
    ensures var x := Word(HMatchingConnection); |x| == 10 && x[0] == 'c' && x[1] == 'o' && x[2] == 'n' && x[3] == 'n'
    ensures var x := Word(HMatchingContentLength); |x| == 14 && x[0] == 'c' && x[1] == 'o' && x[2] == 'n' && x[3] == 't'
    ensures var x := Word(HMatchingProxyConnection); |x| == 16 && x[0] == 'p'
    ensures var x := Word(HMatchingTransferEncoding); |x| == 17 && x[0] == 't'
    ensures var x := Word(HMatchingUpgrade); |x| == 7 && x[0] == 'u'
  {
  }

  lemma FirstMeans(p: Parser, c: char)
    ensures var q := FieldStart(p, c); Means(q.hstate, q.index, [c])
  {
    hide Word;
    Letters();
  }

  /** A word that w properly begins is the only word that w begins. */
  lemma MissMeans(h: HeaderState, w: string, c: char)
    requires w != "" && MatchingName(h) && Means(h, |w| - 1, w) && c != Word(h)[|w|]
    ensures NoWord(w + [c])
  {
    hide Word;
    Letters();
    assert (w + [c])[0] == w[0] == Word(h)[0];
    assert (w + [c])[|w|] == c;
    if |w| >= 4 {
      assert (w + [c])[3] == w[3] == Word(h)[3];
    }
  }

  lemma MatchMeans(p: Parser, w: string, c: char)
    requires MatchingName(p.hstate) && Means(p.hstate, p.index, w) && w != ""
    ensures var q := Match(p, c, HGeneral); Means(q.hstate, q.index, w + [c])
  {
    hide Word, NoWord;
    Letters();
    var x := Word(p.hstate);
    if c != x[|w|] {
      MissMeans(p.hstate, w, c);
    } else {
      assert w + [c] <= x;
      if |w| == |x| - 1 { assert w + [c] == x; }
    }
  }

  lemma ShortMeans(p: Parser, w: string, c: char)
    requires (p.hstate.HC? || p.hstate.HCo? || p.hstate.HCon?) && Means(p.hstate, p.index, w)
    ensures var q := FieldByte(p, c); Means(q.hstate, q.index, w + [c])
  {
    hide Word;
    Letters();
    assert (w + [c])[0] == 'c' && (w + [c])[|w|] == c;
  }

  /** A complete word, or a name that begins no word, has no continuation. */
  lemma LongMeans(p: Parser, w: string, c: char)
    requires !MatchingName(p.hstate) && !p.hstate.HC? && !p.hstate.HCo? && !p.hstate.HCon?
    requires Means(p.hstate, p.index, w) && w != ""
    ensures FieldByte(p, c).hstate.HGeneral? && NoWord(w + [c])
  {
    hide Word;
    Letters();
    assert w <= w + [c] && (w + [c])[0] == w[0];
    if |w| >= 4 { assert (w + [c])[3] == w[3]; }
  }

  lemma ByteMeans(p: Parser, w: string, c: char)
    requires Means(p.hstate, p.index, w) && w != ""
    ensures var q := FieldByte(p, c); Means(q.hstate, q.index, w + [c])
  {
    hide Word, NoWord, Match;
    if MatchingName(p.hstate) {
      MatchMeans(p, w, c);
    } else if p.hstate.HC? || p.hstate.HCo? || p.hstate.HCon? {
      ShortMeans(p, w, c);
    } else {
      LongMeans(p, w, c);
    }
  }

  lemma {:induction false} NameMeans(p: Parser, name: string)
    requires name != ""
    ensures var q := NameRecord(p, name); Means(q.hstate, q.index, LowerName(name))
    decreases |name|
  {
    hide Means, FieldByte, FieldStart, Token;
    if |name| == 1 {
      FirstMeans(p, Token(name[0]));
      assert LowerName(name) == [Token(name[0])];
    } else {
      var init, c := name[..|name| - 1], Token(name[|name| - 1]);
      NameMeans(p, init);
      ByteMeans(NameRecord(p, init), LowerName(init), c);
      assert LowerName(name) == LowerName(init) + [c];
    }
  }

  /** The automaton is exact: each header state of interest is reached by its names and by no others. */
  lemma NamesRecognised(p: Parser, name: string)
    requires name != ""
    ensures var h, w := NameRecord(p, name).hstate, LowerName(name);
      && FieldState(h)
      && (h.HConnection? <==> w == "connection" || w == "proxy-connection")
      && (h.HContentLength? <==> w == "content-length")
      && (h.HTransferEncoding? <==> w == "transfer-encoding")
      && (h.HUpgrade? <==> w == "upgrade")
  {
    hide LowerName, NameRecord, Word;
    NameMeans(p, name);
    Letters();
    Spellings();
  }

  lemma Spellings()
    ensures Word(HMatchingConnection) == "connection" && Word(HMatchingProxyConnection) == "proxy-connection"
    ensures Word(HMatchingContentLength) == "content-length" && Word(HMatchingTransferEncoding) == "transfer-encoding"
    ensures Word(HMatchingUpgrade) == "upgrade"
  {
  }
}
