/** Content-Length and chunk sizes: which numbers are accepted, and as what. */
module HttpLengths {
  import opened Chars
  import opened HttpTypes
  import opened HttpStep
  import opened HttpSpec
  import opened HttpInvariant
  import opened HttpHeaders

  /** The number that continues c with the digits of s; blanks are skipped. */
  function DecValue(c: nat, s: string): nat
    decreases |s|
  {
    if s == "" then c else if IsNum(s[0]) then DecValue(c * 10 + Digit(s[0]), s[1..]) else DecValue(c, s[1..])
  }

  predicate DigitsAndBlanks(s: string) { forall i :: 0 <= i < |s| ==> IsNum(s[i]) || s[i] == ' ' }

  lemma {:induction false} DecGrows(c: nat, s: string)
    ensures DecValue(c, s) >= c
    decreases |s|
  {
    if s != "" {
      if IsNum(s[0]) { DecGrows(c * 10 + Digit(s[0]), s[1..]); } else { DecGrows(c, s[1..]); }
    }
  }

  lemma LengthByte(q: Parser, ch: char)
    requires q.hstate.HContentLength? && q.errno.OK? && q.clen <= MAX_LENGTH && (IsNum(ch) || ch == ' ')
    ensures ch != CR && ch != LF && IsHeaderChar(ch)
    ensures var v := DecValue(q.clen, [ch]); var r := ValueByte(q, ch);
      && (r.errno.OK? <==> v <= MAX_LENGTH)
      && (r.errno.OK? ==> r == q.(clen := v))
      && (!r.errno.OK? ==> r.errno.InvalidContentLength?)
  {
    hide Lower, Token, Word, Match;
    assert [ch][1..] == "" && DecValue(q.clen, [ch]) == if IsNum(ch) then q.clen * 10 + Digit(ch) else q.clen by {
      var v := if IsNum(ch) then q.clen * 10 + Digit(ch) else q.clen;
      assert DecValue(v, "") == v;
    }
    if IsNum(ch) { DecimalExact(q, Digit(ch)); }
  }

  /** A Content-Length is accepted exactly when its value is at most 2^64 - 7, and then it is read as that value. */
  lemma {:induction false} LengthAccepted(q: Parser, s: string)
    requires q.hstate.HContentLength? && q.errno.OK? && q.clen <= MAX_LENGTH && DigitsAndBlanks(s)
    ensures Accepts(q, s) <==> DecValue(q.clen, s) <= MAX_LENGTH
    ensures Accepts(q, s) ==> ValueRecord(q, s) == q.(clen := DecValue(q.clen, s))
    decreases |s|
  {
    hide IsHeaderChar, ValueByte;
    if s != "" {
      LengthByte(q, s[0]);
      var c := DecValue(q.clen, [s[0]]);
      assert DecValue(q.clen, s) == DecValue(c, s[1..]) by { OneDigit(q.clen, s); }
      DecGrows(c, s[1..]);
      if c <= MAX_LENGTH { LengthAccepted(q.(clen := c), s[1..]); }
    }
  }

  lemma OneDigit(c: nat, s: string)
    requires s != ""
    ensures DecValue(c, s) == DecValue(DecValue(c, [s[0]]), s[1..])
  {
    assert [s[0]][1..] == "";
    var v := if IsNum(s[0]) then c * 10 + Digit(s[0]) else c;
    assert DecValue(v, "") == v;
  }

  /** A longer number is rejected with InvalidContentLength. */
  lemma {:induction false} LengthRejected(m: Machine, s: string)
    requires m.stop.Running? && m.ps.state.HeaderValue? && m.ps.hstate.HContentLength? && m.ps.errno.OK?
    requires !m.scan.Skipping?
    requires m.ps.clen <= MAX_LENGTH && DigitsAndBlanks(s) && DecValue(m.ps.clen, s) > MAX_LENGTH
    requires m.nread + |s| <= MAX_HEADER
    ensures Run(m, s).stop.Failed? && Run(m, s).ps.errno.InvalidContentLength?
    decreases |s|
  {
    hide IsHeaderChar, ValueByte, Step, Byte;
    if s == "" {
      assert false;
    } else {
      LengthByte(m.ps, s[0]);
      OneDigit(m.ps.clen, s);
      LengthStep(m, s[0]);
      if Byte(m, s[0]).stop.Running? {
        LengthRejected(Byte(m, s[0]), s[1..]);
      } else {
        RunStopped(Byte(m, s[0]), s[1..]);
      }
    }
  }

  lemma LengthStep(m: Machine, ch: char)
    requires m.stop.Running? && m.ps.state.HeaderValue? && m.ps.hstate.HContentLength? && m.ps.errno.OK?
    requires !m.scan.Skipping?
    requires m.ps.clen <= MAX_LENGTH && (IsNum(ch) || ch == ' ') && m.nread < MAX_HEADER
    ensures var q, r := ValueByte(m.ps, ch), Byte(m, ch);
      if q.errno.OK? then r.stop.Running? && r.ps == q && r.nread == m.nread + 1 && !r.scan.Skipping?
      else r.stop.Failed? && r.ps.errno == q.errno
  {
    hide LineStart, FieldStep, DiscardWs, ValueStart, ValueLws, DiscardLws, HeadersEnd, BodyStart, BodyStep,
         ResponseLine, RequestLine, UrlHead, UrlRest, ValueByte, IsHeaderChar, LogAfter;
    LengthByte(m.ps, ch);
  }

  // ---------- printing ----------

  function DigitChar(d: nat): (c: char)
    requires d < 10
    ensures IsNum(c) && Digit(c) == d
  {
    ('0' as int + d) as char
  }

  /** The decimal spelling that Lua's %s gives a length. */
  function Decimal(n: nat): string {
    if n < 10 then [DigitChar(n)] else Decimal(n / 10) + [DigitChar(n % 10)]
  }

  lemma {:induction false} DecSnoc(c: nat, s: string, ch: char)
    requires IsNum(ch)
    ensures DecValue(c, s + [ch]) == DecValue(c, s) * 10 + Digit(ch)
    decreases |s|
  {
    if s == "" {
      assert s + [ch] == [ch] && [ch][1..] == "";
      assert DecValue(c * 10 + Digit(ch), "") == c * 10 + Digit(ch);
    } else {
      assert (s + [ch])[1..] == s[1..] + [ch];
      if IsNum(s[0]) { DecSnoc(c * 10 + Digit(s[0]), s[1..], ch); } else { DecSnoc(c, s[1..], ch); }
    }
  }

  lemma {:induction false} DecimalRead(n: nat)
    ensures DecValue(0, Decimal(n)) == n && Decimal(n) != "" && forall i :: 0 <= i < |Decimal(n)| ==>
        IsNum(Decimal(n)[i])
  {
    if n < 10 {
      assert Decimal(n)[1..] == "" && DecValue(n, "") == n;
    } else {
      DecimalRead(n / 10);
      DecSnoc(0, Decimal(n / 10), DigitChar(n % 10));
    }
  }
}
