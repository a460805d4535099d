/** The request line: the guessed method, the target, the version. */
module HttpStartLine {
  import opened Chars
  import opened HttpTypes
  import opened HttpStep
  import opened HttpSpec
  import opened HttpInvariant
  import opened HttpRuns

  // ---------- methods ----------

  /** The method whose spelling the parser was following before letter k told the two apart. */
  function Base(m: Method): Option<(Method, nat)> {
    match m
    case PUT => Some((POST, 1)) case PATCH => Some((POST, 1)) case PROPFIND => Some((POST, 1))
    case PROPPATCH => Some((PROPFIND, 4)) case PURGE => Some((PUT, 2))
    case CHECKOUT => Some((CONNECT, 1)) case COPY => Some((CONNECT, 2))
    case MOVE => Some((MKCOL, 1)) case MERGE => Some((MKCOL, 1)) case MSEARCH => Some((MKCOL, 1))
    case MKACTIVITY => Some((MKCOL, 2)) case MKCALENDAR => Some((MKCOL, 3))
    case SEARCH => Some((SUBSCRIBE, 1)) case REBIND => Some((REPORT, 2)) case LINK => Some((LOCK, 1))
    case UNSUBSCRIBE => Some((UNLOCK, 2)) case UNBIND => Some((UNLOCK, 2)) case UNLINK => Some((UNLOCK, 3))
    case _ => None
  }

  /** How many corrections lead to a method. */
  function Corrections(m: Method): nat {
    match m case PROPPATCH => 2 case PURGE => 2 case _ => if Base(m).Some? then 1 else 0
  }

  lemma BaseIsCloser(m: Method)
    requires Base(m).Some?
    ensures Corrections(Base(m).value.0) < Corrections(m)
  {
  }

  /** The parser's guess after i letters of method m. */
  function Guess(m: Method, i: nat): Method
    decreases Corrections(m)
  {
    if Base(m).None? then m
    else
      BaseIsCloser(m);
      if i <= Base(m).value.1 then Guess(Base(m).value.0, i) else m
  }

  /** The letter at which a method leaves the spelling of its base. */
  function BaseLetter(m: Method): char {
    match m
    case PUT => 'U' case PATCH => 'A' case PROPFIND => 'R' case PROPPATCH => 'P' case PURGE => 'R'
    case CHECKOUT => 'H' case COPY => 'P' case MOVE => 'O' case MERGE => 'E' case MSEARCH => '-'
    case MKACTIVITY => 'A' case MKCALENDAR => 'A' case SEARCH => 'E' case REBIND => 'B' case LINK => 'I'
    case UNSUBSCRIBE => 'S' case UNBIND => 'B' case UNLINK => 'I' case _ => ' '
  }

  lemma BaseReguess(m: Method)
    requires Base(m).Some?
    ensures var (b, k) := Base(m).value; var c := BaseLetter(m);
      Reguess(b, k, c) == Some(m) && ('A' <= c <= 'Z' || c == '-') && Guess(b, k) == b
  {
  }

  /** Method t is the base of s, and k the place where they part. */
  predicate Parts(s: string, t: string, k: nat, c: char) {
    1 <= k < |s| && k < |t| && s[..k] == t[..k] && s[k] == c != t[k]
  }

  lemma PostLetters(m: Method)
    requires m.PUT? || m.PATCH? || m.PROPFIND? || m.PURGE? || m.SEARCH? || m.LINK?
    ensures var (b, k) := Base(m).value; Parts(MethodString(m), MethodString(b), k, BaseLetter(m))
  {
    var (b, k) := Base(m).value;
    SamePrefix(MethodString(m), MethodString(b), k);
  }

  lemma MoveLetters(m: Method)
    requires m.MOVE? || m.MERGE? || m.MSEARCH? || m.MKACTIVITY? || m.MKCALENDAR?
    ensures var (b, k) := Base(m).value; Parts(MethodString(m), MethodString(b), k, BaseLetter(m))
  {
    var (b, k) := Base(m).value;
    SamePrefix(MethodString(m), MethodString(b), k);
  }

  lemma CopyLetters(m: Method)
    requires m.CHECKOUT? || m.COPY? || m.UNSUBSCRIBE? || m.UNBIND? || m.UNLINK? || m.REBIND? || m.PROPPATCH?
    ensures var (b, k) := Base(m).value; Parts(MethodString(m), MethodString(b), k, BaseLetter(m))
  {
    var (b, k) := Base(m).value;
    SamePrefix(MethodString(m), MethodString(b), k);
  }

  lemma SamePrefix(s: string, t: string, k: nat)
    requires 1 <= k <= 4 && k < |s| && k < |t|
    requires s[0] == t[0] && (k > 1 ==> s[1] == t[1]) && (k > 2 ==> s[2] == t[2]) && (k > 3 ==> s[3] == t[3])
    ensures s[..k] == t[..k]
  {
    assert forall i :: 0 <= i < k ==> s[..k][i] == t[..k][i];
  }

  /** Where a method leaves the spelling of its base, the parser's table has the correction. */
  lemma BaseCorrects(m: Method)
    requires Base(m).Some?
    ensures var (b, k) := Base(m).value; var s, t := MethodString(m), MethodString(b);
      && 1 <= k < |s| && k < |t| && s[..k] == t[..k] && s[k] != t[k] && ('A' <= s[k] <= 'Z' || s[k] == '-')
      && Reguess(b, k, s[k]) == Some(m) && Guess(b, k) == b
  {
    hide MethodString, Reguess, Guess;
    BaseReguess(m);
    if m.MOVE? || m.MERGE? || m.MSEARCH? || m.MKACTIVITY? || m.MKCALENDAR? {
      MoveLetters(m);
    } else if m.CHECKOUT? || m.COPY? || m.UNSUBSCRIBE? || m.UNBIND? || m.UNLINK? || m.REBIND? || m.PROPPATCH? {
      CopyLetters(m);
    } else {
      PostLetters(m);
    }
  }

  /** The letters read so far are a prefix of the guessed method. */
  lemma {:induction false} GuessPrefix(m: Method, i: nat)
    requires 1 <= i <= |MethodString(m)|
    ensures i <= |MethodString(Guess(m, i))| && MethodString(Guess(m, i))[..i] == MethodString(m)[..i]
    decreases Corrections(m)
  {
    hide MethodString, Reguess, Corrections;
    if Base(m).Some? {
      BaseIsCloser(m);
      BaseCorrects(m);
      var (b, k) := Base(m).value;
      if i <= k {
        GuessPrefix(b, i);
        assert MethodString(b)[..k][..i] == MethodString(b)[..i] && MethodString(m)[..k][..i] == MethodString(m)[..i];
      }
    }
  }

  /** The next letter confirms the guess or corrects it. */
  lemma {:induction false} GuessNext(m: Method, i: nat)
    requires 1 <= i < |MethodString(m)|
    ensures var g, c := Guess(m, i), MethodString(m)[i];
      if CharAt(MethodString(g), i) == c then Guess(m, i + 1) == g
      else ('A' <= c <= 'Z' || c == '-') && Reguess(g, i, c) == Some(Guess(m, i + 1))
    decreases Corrections(m)
  {
    hide MethodString, Reguess, Corrections, Base;
    if Base(m).Some? {
      BaseIsCloser(m);
      BaseCorrects(m);
      var (b, k) := Base(m).value;
      if i < k {
        GuessNext(b, i);
        assert MethodString(b)[..k][i] == MethodString(m)[..k][i];
      }
    }
  }

  lemma {:induction false} FirstLetter(m: Method)
    ensures 0 < |MethodString(m)| && FirstGuess(MethodString(m)[0]) == Some(Guess(m, 1))
    decreases Corrections(m)
  {
    if Base(m).Some? {
      hide MethodString, Reguess, Corrections, FirstGuess;
      BaseIsCloser(m);
      BaseCorrects(m);
      var (b, k) := Base(m).value;
      FirstLetter(b);
      assert MethodString(b)[..k][0] == MethodString(m)[..k][0];
    }
  }

  predicate Common(m: Method) {
    m.DELETE? || m.GET? || m.HEAD? || m.POST? || m.PUT? || m.CONNECT? || m.OPTIONS? || m.TRACE? || m.COPY? || m.LOCK?
    || m.MKCOL? || m.MOVE? || m.PROPFIND? || m.PROPPATCH? || m.SEARCH? || m.UNLOCK?
  }

  lemma CommonLetters(m: Method)
    requires Common(m)
    ensures forall i :: 0 <= i < |MethodString(m)| ==> MethodString(m)[i] != ' ' && MethodString(m)[i] != '\0'
  {
  }

  lemma OtherLetters(m: Method)
    requires !Common(m)
    ensures forall i :: 0 <= i < |MethodString(m)| ==> MethodString(m)[i] != ' ' && MethodString(m)[i] != '\0'
  {
  }

  lemma Letters(m: Method)
    ensures forall i :: 0 <= i < |MethodString(m)| ==> MethodString(m)[i] != ' ' && MethodString(m)[i] != '\0'
  {
    hide MethodString;
    if Common(m) { CommonLetters(m); } else { OtherLetters(m); }
  }

  // ---------- running over a method ----------

  lemma StartStep(p: Parser, ch: char)
    requires p.state.StartReq? && FirstGuess(ch).Some?
    ensures Step(p, ch, false) ==
      Go(p.(flags := NO_FLAGS, clen := ULLONG_MAX, meth := FirstGuess(ch).value, index := 1, state := ReqMethod))
        .(note := Some(OnMessageBegin))
  {
    hide HeaderStep, BodyStep, ResponseLine, UrlHead, UrlRest, MethodStep, UrlFirst, EitherStart;
  }

  lemma LetterStep(p: Parser, m: Method)
    requires p.state.ReqMethod? && 1 <= p.index < |MethodString(m)| && p.meth == Guess(m, p.index)
    ensures Step(p, MethodString(m)[p.index], false) == Go(p.(meth := Guess(m, p.index + 1), index := p.index + 1))
  {
    hide HeaderStep, BodyStep, ResponseLine, UrlHead, UrlRest, UrlFirst, EitherStart, RequestStart, MethodString,
         Reguess, Guess;
    GuessNext(m, p.index);
    Letters(m);
  }

  lemma MethodEndStep(p: Parser)
    requires p.state.ReqMethod? && p.index == |MethodString(p.meth)|
    ensures Step(p, ' ', false) == Go(p.(index := p.index + 1, state := ReqSpacesBeforeUrl))
  {
    hide HeaderStep, BodyStep, ResponseLine, UrlHead, UrlRest, UrlFirst, EitherStart, RequestStart, MethodString,
         Reguess;
  }

  /** The record while method m is being read. */
  function MethodRecord(p: Parser, m: Method, i: nat): Parser {
    p.(flags := NO_FLAGS, clen := ULLONG_MAX, meth := Guess(m, i), index := i, state := ReqMethod)
  }

  lemma FirstMethodByte(x: Machine, m: Method)
    requires x.stop.Running? && x.ps.state.StartReq? && x.scan.Fresh? && x.nread < MAX_HEADER
    ensures |MethodString(m)| > 0
    ensures Byte(x, MethodString(m)[0]) == Moved(x, MethodRecord(x.ps, m, 1), Push(x.log, Notify(OnMessageBegin)), 1)
  {
    hide Step, Byte, MethodString, Guess, Push, FirstGuess;
    FirstLetter(m);
    StartStep(x.ps, MethodString(m)[0]);
    OnePass(x, MethodString(m)[0]);
  }

  lemma NextMethodByte(r: Machine, m: Method)
    requires r.stop.Running? && r.ps.state.ReqMethod? && 1 <= r.ps.index < |MethodString(m)|
    requires r.ps.meth == Guess(m, r.ps.index)
    requires r.scan.Fresh? && r.nread < MAX_HEADER
    ensures var i := r.ps.index;
      Byte(r, MethodString(m)[i]) == Moved(r, r.ps.(meth := Guess(m, i + 1), index := i + 1), r.log, 1)
  {
    hide Step, Byte, MethodString, Guess;
    LetterStep(r.ps, m);
    GoByte(r, MethodString(m)[r.ps.index], r.ps.(meth := Guess(m, r.ps.index + 1), index := r.ps.index + 1));
  }

  lemma LastMethodByte(r: Machine)
    requires r.stop.Running? && r.ps.state.ReqMethod? && r.ps.index == |MethodString(r.ps.meth)| && r.scan.Fresh?
    requires r.nread < MAX_HEADER
    ensures Byte(r, ' ') == Moved(r, r.ps.(index := r.ps.index + 1, state := ReqSpacesBeforeUrl), r.log, 1)
  {
    hide Step, Byte, MethodString;
    MethodEndStep(r.ps);
    GoByte(r, ' ', r.ps.(index := r.ps.index + 1, state := ReqSpacesBeforeUrl));
  }

  lemma {:induction false} MethodRun(x: Machine, m: Method, i: nat)
    requires x.stop.Running? && x.ps.state.StartReq? && x.scan.Fresh? && 1 <= i <= |MethodString(m)|
    requires x.nread + i <= MAX_HEADER
    ensures Run(x, MethodString(m)[..i]) == Moved(x, MethodRecord(x.ps, m, i), Push(x.log, Notify(OnMessageBegin)), i)
    decreases i
  {
    hide Byte, Run, MethodString, Guess, Push;
    var s := MethodString(m);
    if i == 1 {
      FirstMethodByte(x, m);
      RunOne(x, s[0]);
      assert s[..1] == [s[0]];
    } else {
      MethodRun(x, m, i - 1);
      assert s[..i] == s[..i - 1] + [s[i - 1]];
      RunSnoc(x, s[..i - 1], s[i - 1]);
      NextMethodByte(Run(x, s[..i - 1]), m);
    }
  }

  /** Reading a method and the blank after it. */
  lemma MethodWordRun(x: Machine, m: Method)
    requires x.stop.Running? && x.ps.state.StartReq? && x.scan.Fresh? && x.nread + |MethodString(m)| + 1 <= MAX_HEADER
    ensures Run(x, MethodString(m) + " ") ==
      Moved(x, x.ps.(flags := NO_FLAGS, clen := ULLONG_MAX, meth := m, index := |MethodString(m)| + 1,
        state := ReqSpacesBeforeUrl),
            Push(x.log, Notify(OnMessageBegin)), |MethodString(m)| + 1)
  {
    hide Byte, Run, MethodString, Guess, Push;
    var s := MethodString(m);
    FirstLetter(m);
    MethodRun(x, m, |s|);
    assert s[..|s|] == s;
    GuessWhole(m);
    RunSnoc(x, s, ' ');
    LastMethodByte(Run(x, s));
  }

  lemma GuessWhole(m: Method)
    ensures Guess(m, |MethodString(m)|) == m
  {
    if Base(m).Some? { hide MethodString, Reguess; BaseCorrects(m); }
  }

  // ---------- targets ----------

  function UrlFold(s: State, t: string): State
    decreases |t|
  {
    if t == "" then s else UrlFold(ParseUrlChar(s, t[0]), t[1..])
  }

  /** A target that may end a request line: not for CONNECT, and complete where white space follows. */
  predicate GoodTarget(t: string) {
    t != "" && t[0] != ' ' && var s := UrlFold(ReqSpacesBeforeUrl, t); IsUrlState(s) && !IsUrlHead(s)
  }

  lemma {:induction false} DeadStays(t: string)
    ensures UrlFold(Dead, t) == Dead
    decreases |t|
  {
    if t != "" { DeadStays(t[1..]); }
  }

  lemma UrlByteStep(p: Parser, ch: char)
    requires IsUrlState(p.state) || (p.state.ReqSpacesBeforeUrl? && !p.meth.CONNECT? && ch != ' ')
    requires !ParseUrlChar(p.state, ch).Dead?
    ensures IsUrlState(ParseUrlChar(p.state, ch))
    ensures Step(p, ch, false) ==
      Go(p.(state := ParseUrlChar(p.state, ch))).(mark := if p.state.ReqSpacesBeforeUrl? then Some(OnUrl) else None)
  {
    hide HeaderStep, BodyStep, ResponseLine, MethodStep, EitherStart, RequestStart, IsUserinfoChar, IsAlpha, IsUrlChar;
    UrlCloses(p.state, ch);
  }

  lemma {:induction false} UrlRun(x: Machine, t: string)
    requires MachineInv(x) && x.stop.Running? && x.scan.Fresh? && x.nread + |t| <= MAX_HEADER && t != ""
    requires IsUrlState(x.ps.state) || (x.ps.state.ReqSpacesBeforeUrl? && !x.ps.meth.CONNECT? && t[0] != ' ')
    requires !UrlFold(x.ps.state, t).Dead?
    ensures Run(x, t) == Moved(x, x.ps.(state := UrlFold(x.ps.state, t)), Push(x.log, Data(OnUrl, t)), |t|)
    ensures IsUrlState(UrlFold(x.ps.state, t))
    decreases |t|
  {
    hide Byte, Step, ParseUrlChar, Push, StateInv;
    var s := ParseUrlChar(x.ps.state, t[0]);
    if s.Dead? { DeadStays(t[1..]); }
    UrlByteStep(x.ps, t[0]);
    OnePass(x, t[0]);
    ByteKeeps(x, t[0]);
    var r := Byte(x, t[0]);
    assert r == Moved(x, x.ps.(state := s), Push(x.log, Data(OnUrl, [t[0]])), 1);
    if t[1..] == "" {
      assert t == [t[0]];
      RunOne(x, t[0]);
    } else {
      UrlRun(r, t[1..]);
      PushTwice(x.log, OnUrl, [t[0]], t[1..]);
      assert t == [t[0]] + t[1..];
    }
  }

  lemma UrlEndStep(p: Parser)
    requires IsUrlState(p.state) && !IsUrlHead(p.state)
    ensures Step(p, ' ', false) == Go(p.(state := ReqHttpStart)).(flush := Some(OnUrl))
  {
    hide HeaderStep, BodyStep, ResponseLine, RequestLine, UrlHead, UrlStep;
  }

  /** Every path of URL characters, with a query and a fragment or without, is a good target. */
  lemma {:induction false} PathFold(s: State, t: string)
    requires s.ReqPath? || s.ReqQueryStringStart? || s.ReqQueryString? || s.ReqFragmentStart? || s.ReqFragment?
    requires forall i :: 0 <= i < |t| ==> IsUrlChar(t[i]) || t[i] == '?' || t[i] == '#'
    ensures var r := UrlFold(s, t);
        r.ReqPath? || r.ReqQueryStringStart? || r.ReqQueryString? || r.ReqFragmentStart? || r.ReqFragment?
    decreases |t|
  {
    hide IsAlpha, IsUserinfoChar;
    if t != "" { PathFold(ParseUrlChar(s, t[0]), t[1..]); }
  }

  lemma PathIsGood(t: string)
    requires t != "" && t[0] == '/' && forall i :: 0 <= i < |t| ==> IsUrlChar(t[i]) || t[i] == '?' || t[i] == '#'
    ensures GoodTarget(t)
  {
    PathFold(ReqPath, t[1..]);
  }

  // ---------- the request line ----------

  function StartLine(m: Method, target: string): string { MethodString(m) + " " + target + " " + VERSION }

  /** The record behind the request line. */
  function StartRecord(p: Parser, m: Method): Parser {
    p.(flags := NO_FLAGS, clen := ULLONG_MAX, meth := m, index := |MethodString(m)| + 1, major := 1, minor := 1,
       state := HeaderFieldStart)
  }

  lemma TargetRun(x: Machine, target: string)
    requires MachineInv(x) && x.stop.Running? && x.scan.Fresh? && x.ps.state.ReqSpacesBeforeUrl? && !x.ps.meth.CONNECT?
    requires GoodTarget(target) && x.nread + |target| + 1 <= MAX_HEADER
    ensures Run(x, target + " ") == Moved(x, x.ps.(state := ReqHttpStart), Push(x.log, Data(OnUrl, target)),
        |target| + 1)
  {
    hide Run, Push, MachineInv, Byte;
    assert target != "" by { NotEmptyTarget(target); }
    UrlRun(x, target);
    RunKeeps(x, target);
    RunSnoc(x, target, ' ');
    UrlEndByte(Run(x, target));
    PushTwice(x.log, OnUrl, target, "");
    assert target + "" == target;
  }

  lemma NotEmptyTarget(t: string)
    requires GoodTarget(t)
    ensures t != "" && t[0] != ' ' && !UrlFold(ReqSpacesBeforeUrl, t).Dead?
    ensures var s := UrlFold(ReqSpacesBeforeUrl, t); IsUrlState(s) && !IsUrlHead(s)
  {
    hide ParseUrlChar;
  }

  lemma UrlEndByte(b: Machine)
    requires b.stop.Running? && b.scan.Fresh? && b.nread < MAX_HEADER
    requires IsUrlState(b.ps.state) && !IsUrlHead(b.ps.state)
    ensures Byte(b, ' ') == Moved(b, b.ps.(state := ReqHttpStart), Push(b.log, Data(OnUrl, "")), 1)
  {
    hide Step, Byte, Push;
    UrlEndStep(b.ps);
    OnePass(b, ' ');
  }

  lemma StartLineRun(x: Machine, m: Method, target: string)
    requires MachineInv(x) && x.stop.Running? && x.scan.Fresh? && x.ps.state.StartReq? && !m.CONNECT?
    requires GoodTarget(target)
    requires x.nread + |StartLine(m, target)| <= MAX_HEADER
    ensures Run(x, StartLine(m, target)) ==
      Moved(x, StartRecord(x.ps, m), Push(Push(x.log, Notify(OnMessageBegin)), Data(OnUrl, target)),
        |StartLine(m, target)|)
  {
    hide Run, MethodString, Push, MachineInv, GoodTarget;
    var word := MethodString(m) + " ";
    assert StartLine(m, target) == word + ((target + " ") + VERSION);
    MethodWordRun(x, m);
    RunKeeps(x, word);
    RunConcat(x, word, (target + " ") + VERSION);
    var a := Run(x, word);
    TargetRun(a, target);
    RunConcat(a, target + " ", VERSION);
    VersionSpelling();
    VersionRun(Run(a, target + " "));
  }
}
