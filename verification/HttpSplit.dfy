/**
 Cutting the input into buffers. Two things depend on the cuts, and both are characterised exactly by the run over the
 whole input: a byte that IS_HEADER_CHAR rejects is noticed at the start of a buffer, but not where a memchr jump passes
 over it; and the header size counter is one too large for each end of a buffer inside a header name or value.
*/
module HttpSplit {
  import opened Chars
  import opened HttpTypes
  import opened HttpStep
  import opened HttpSpec
  import opened HttpInvariant
  import opened HttpBulk

  /** A byte that a new buffer would reject in this state although a running memchr jump accepts it. */
  predicate BadCut(p: Parser, ch: char) {
    p.state.HeaderValue? && p.hstate.HGeneral? && !p.lenient && !IsHeaderChar(ch)
  }

  /** Two running machines that are equal but for the scan, the bytes used and a surplus of e in the counter of b. */
  predicate Related(a: Machine, b: Machine, e: nat) {
    && a.stop.Running? && b.stop.Running? && a.ps == b.ps && a.log == b.log
    && b.nread == a.nread + e && (e > 0 ==> a.nread > 0)
  }

  /** The jump of b, if any, began later. */
  predicate ScanLike(x: Scan, y: Scan) {
    (x.Fresh? <==> y.Fresh?) && (x.Skipping? <==> y.Skipping?) && RunOf(y) <= RunOf(x)
  }

  predicate Overflown(m: Machine) { m.stop.Failed? && m.ps.errno.HeaderOverflow? }

  /** A reset of the counter also clears its surplus. */
  function Surplus(e: nat, a: Machine): nat { if a.nread == 0 then 0 else e }

  // ---------- one byte ----------

  /** Whether a jump is under way makes a difference only for a byte that would be a bad cut. */
  lemma SkipMatters(p: Parser, ch: char)
    requires Inv(p)
    ensures !BadCut(p, ch) && (p.state.HeaderValue? ==> p.hstate.HGeneral?) ==> Step(p, ch, true) == Step(p, ch, false)
    ensures BadCut(p, ch) ==> Step(p, ch, false) == Reject(p, InvalidHeaderToken)
  {
    if !p.state.HeaderValue? {
      SkipElsewhere(p, ch, true);
    } else if p.hstate.HGeneral? {
      hide LineStart, FieldStep, DiscardWs, ValueStart, ValueLws, DiscardLws, HeadersEnd, BodyStart, BodyStep,
           ValueByte, ResponseLine, RequestLine, UrlHead, UrlRest, IsHeaderChar;
    }
  }

  /** What a pass that examines the byte again leads to. */
  lemma PassGoesOn(p: Parser, ch: char, skip: bool)
    requires Inv(p)
    ensures var o := Step(p, ch, skip);
      o.next.Again? ==>
        && Inv(o.st) && !BadCut(o.st, ch) && !o.st.state.HeaderValue? && !o.st.state.ChunkSizeStart?
        && Rank(o.st.state) < Rank(p.state)
  {
    hide Step, Inv, IsHeaderChar;
    StepDescends(p, ch, skip);
    StepKeeps(p, ch, skip);
  }

  lemma ScanAlike(p: Parser, q: Parser, s1: Scan, s2: Scan)
    requires (s2.Skipping? ==> s1.Skipping?) && RunOf(s2) <= RunOf(s1)
    ensures ScanLike(ScanAfter(p, q, s1), ScanAfter(p, q, s2))
  {
  }

  lemma FreshAlike()
    ensures ScanLike(Fresh, Fresh)
  {
  }

  /** The same passes, one with a counter that has a surplus, and which may have just begun a buffer. */
  predicate SamePasses(a: Machine, b: Machine, n: nat, e: nat) {
    && a.ps == b.ps && a.log == b.log && a.used == b.used && a.stop == b.stop
    && b.nread == a.nread + Surplus(e, a) && ScanLike(a.scan, b.scan) && (a.nread == 0 || a.nread == n)
  }

  /** A byte that takes one pass. */
  lemma OneAlike(p: Parser, n: nat, e: nat, log: seq<Event>, ch: char, s1: Scan, s2: Scan)
    requires (e > 0 ==> n > 0) && (p.state.ChunkSizeStart? ==> n == 1 && e == 0)
    requires (s2.Skipping? ==> s1.Skipping?) && RunOf(s2) <= RunOf(s1)
    requires Step(p, ch, s1.Skipping?) == Step(p, ch, s2.Skipping?) && !Step(p, ch, s1.Skipping?).next.Again?
    ensures SamePasses(Passes(p, n, log, ch, s1), Passes(p, n + e, log, ch, s2), n, e)
  {
    hide Step, LogAfter, ScanAfter, ScanLike;
    ScanAlike(p, Step(p, ch, s1.Skipping?).st, s1, s2);
    FreshAlike();
  }

  lemma {:induction false} PassesAlike(p: Parser, n: nat, e: nat, log: seq<Event>, ch: char, s1: Scan, s2: Scan)
    requires Inv(p) && (e > 0 ==> n > 0) && (p.state.ChunkSizeStart? ==> n == 1 && e == 0)
    requires (s2.Skipping? ==> s1.Skipping?) && RunOf(s2) <= RunOf(s1)
    requires s1.Skipping? != s2.Skipping? ==> !BadCut(p, ch) && (p.state.HeaderValue? ==> p.hstate.HGeneral?)
    ensures SamePasses(Passes(p, n, log, ch, s1), Passes(p, n + e, log, ch, s2), n, e)
    decreases Rank(p.state)
  {
    hide Step, LogAfter, Inv, Passes, ScanLike, BadCut;
    SkipMatters(p, ch);
    var o := Step(p, ch, s1.Skipping?);
    assert o == Step(p, ch, s2.Skipping?);
    if o.next.Again? {
      PassGoesOn(p, ch, s1.Skipping?);
      ChunkAdvances(p, ch, s1.Skipping?);
      PassAgain(p, n, log, ch, s1);
      PassAgain(p, n + e, log, ch, s2);
      PassesAlike(o.st, if o.reset then 0 else n, if o.reset then 0 else e, LogAfter(p.state, log, o, ch), ch, s1, s2);
    } else {
      OneAlike(p, n, e, log, ch, s1, s2);
    }
  }

  lemma ChunkAdvances(p: Parser, ch: char, skip: bool)
    requires Inv(p) && Step(p, ch, skip).next.Again?
    ensures !p.state.ChunkSizeStart?
  {
    hide Inv, Step;
    StepDescends(p, ch, skip);
  }

  /** Machine b begins a buffer, or it stands where a stands. */
  predicate Alongside(a: Machine, b: Machine) { b.scan.Fresh? || ScanLike(a.scan, b.scan) }

  /** The size check of b for byte ch, in terms of a, holds. `begins` says that a buffer begins with this byte. */
  predicate Fits(a: Machine, e: nat, begins: bool, ch: char) {
    ParsingHeader(a.ps.state) && (begins || a.scan.Fresh? || !StaysInLoop(a.ps.state, ch)) ==>
      a.nread + 1 + e <= MAX_HEADER
  }

  /** One byte, read by a machine inside a buffer and by one that may have just begun a buffer. */
  lemma ByteAlike(a: Machine, b: Machine, e: nat, ch: char)
    requires MachineInv(a) && MachineInv(b) && Related(a, b, e) && Alongside(a, b) && !Lost(a)
    ensures var a', b' := Byte(a, ch), Byte(b, ch);
      if !Fits(a, e, b.scan.Fresh?, ch) then Overflown(b')
      else if a.scan.Skipping? && !b.scan.Skipping? && BadCut(a.ps, ch)
        then b'.stop.Failed? && b'.ps.errno.InvalidHeaderToken?
      else
        && a'.stop == b'.stop && a'.used - a.used == b'.used - b.used
        && (a'.stop.Running? ==> Related(a', b', Surplus(e, a')) && ScanLike(a'.scan, b'.scan))
  {
    hide Step, StateInv, IsHeaderChar, LogAfter, StaysInLoop;
    SkipMatters(a.ps, ch);
    if Fits(a, e, b.scan.Fresh?, ch) && (a.scan.Skipping? == b.scan.Skipping? || !BadCut(a.ps, ch)) {
      PassesAlike(a.ps, Counted(a.ps.state, a.nread), e, a.log, ch, a.scan, b.scan);
    }
  }

  // ---------- one buffer ----------

  /** All size checks of one buffer hold, the one at its end included, if the count begins with a surplus of e. */
  predicate CountsFit(a: Machine, e: nat, begins: bool, data: string)
    decreases |data|
  {
    if data == "" then a.scan.Fresh? || a.nread + e + 1 <= MAX_HEADER
    else
      var a' := Byte(a, data[0]);
      Fits(a, e, begins, data[0]) && CountsFit(a', Surplus(e, a'), false, data[1..])
  }

  /** The surplus behind a buffer. */
  function SurplusAfter(a: Machine, e: nat, data: string): nat
    decreases |data|
  {
    if data == "" then e + (if a.scan.Fresh? then 0 else 1)
    else var a' := Byte(a, data[0]); SurplusAfter(a', Surplus(e, a'), data[1..])
  }

  /** Inside a header loop with a full counter: the size check behind the loop cannot succeed. */
  predicate Doomed(m: Machine) { m.stop.Running? && !m.scan.Fresh? && m.nread >= MAX_HEADER }

  lemma DoomedByte(m: Machine, ch: char)
    requires MachineInv(m) && Doomed(m)
    ensures var r := Byte(m, ch); (r.stop.Running? ==> Doomed(r)) && (!Lost(m) && Checked(m, ch) ==> Overflown(r))
  {
    ByteKeeps(m, ch);
    hide Step, StateInv, LogAfter, IsToken;
    if !Lost(m) && StaysInLoop(m.ps.state, ch) {
      LoopStays(m.ps, ch, m.scan.Skipping?);
    }
  }

  lemma {:induction false} DoomedRun(m: Machine, e: nat, data: string)
    requires MachineInv(m) && Doomed(m)
    ensures !EndBuffer(Run(m, data)).stop.Running?
    ensures !(Run(m, data).stop.Running? && CountsFit(m, e, false, data))
    ensures Run(m, data).stop.Running? ==> Doomed(Run(m, data))
    decreases |data|
  {
    hide Byte, MachineInv, StaysInLoop;
    if data != "" {
      var r := Byte(m, data[0]);
      DoomedByte(m, data[0]);
      ByteKeeps(m, data[0]);
      if r.stop.Running? { DoomedRun(r, Surplus(e, r), data[1..]); } else { RunStopped(r, data[1..]); }
    }
  }

  lemma LostIsDoomed(a: Machine, b: Machine, e: nat)
    requires MachineInv(a) && Related(a, b, e) && Lost(a) && ScanLike(a.scan, b.scan)
    ensures Doomed(a) && Doomed(b)
  {
    hide StateInv;
  }

  /** The rest of a buffer, for a machine that has read as much of it as the other and begun earlier. */
  predicate Agree(a: Machine, b: Machine, e: nat, begins: bool, data: string) {
    var a1, b1, n := Run(a, data), EndBuffer(Run(b, data)), SurplusAfter(a, e, data);
    && (b1.stop.Running? <==> a1.stop.Running? && CountsFit(a, e, begins, data))
    && (b1.stop.Running? ==> Related(a1, b1, n) && a1.used - a.used == b1.used - b.used && (!a1.scan.Fresh? ==> n > 0))
    && (a1.stop.Running? && !Doomed(a1) && !b1.stop.Running? ==> Overflown(b1))
  }

  lemma {:induction false} RunAlike(a: Machine, b: Machine, e: nat, data: string)
    requires MachineInv(a) && MachineInv(b) && Related(a, b, e) && ScanLike(a.scan, b.scan)
    ensures Agree(a, b, e, false, data)
    decreases |data|
  {
    hide Byte, StateInv, StaysInLoop, Fits;
    if data != "" {
      if Lost(a) {
        LostIsDoomed(a, b, e);
        DoomedRun(a, e, data);
        DoomedRun(b, e, data);
      } else {
        ByteAlike(a, b, e, data[0]);
        FitsAlike(a, e, b.scan.Fresh?, data[0]);
        ByteKeeps(a, data[0]);
        ByteKeeps(b, data[0]);
        var a', b' := Byte(a, data[0]), Byte(b, data[0]);
        if !b'.stop.Running? { RunStopped(b', data[1..]); }
        if !a'.stop.Running? { RunStopped(a', data[1..]); }
        if a'.stop.Running? && b'.stop.Running? { RunAlike(a', b', Surplus(e, a'), data[1..]); }
      }
    }
  }

  /** Inside a buffer the second machine stands where the first stands, so it does not matter which begins. */
  lemma FitsAlike(a: Machine, e: nat, begins: bool, ch: char)
    requires begins ==> a.scan.Fresh?
    ensures Fits(a, e, begins, ch) <==> Fits(a, e, false, ch)
  {
  }

  /** The next call on a machine that finished one. */
  function NextCall(m: Machine, data: string): Machine { Call(m.ps, m.nread, m.log, data) }

  /** Machine b at the end of a call, and a machine that has read the same input without interruption. */
  predicate Between(a: Machine, b: Machine, e: nat) {
    MachineInv(a) && Valid(b.ps, b.nread, b.log) && Related(a, b, e) && (!a.scan.Fresh? ==> e > 0)
  }

  /** One call, seen from a machine that reads the whole input without interruption. */
  predicate CallAgrees(a: Machine, b: Machine, e: nat, data: string)
    requires data != ""
  {
    var a1, b1, n := Run(a, data), NextCall(b, data), SurplusAfter(a, e, data);
    && MachineInv(a1)
    && (b1.stop.Running? <==> a1.stop.Running? && !BadCut(a.ps, data[0]) && CountsFit(a, e, true, data))
    && (b1.stop.Running? ==> Between(a1, b1, n) && a1.used - a.used == b1.used)
    && (a1.stop.Running? && !Doomed(a1) && !b1.stop.Running? ==>
          if BadCut(a.ps, data[0]) && Fits(a, e, true, data[0]) then b1.stop.Failed? && b1.ps.errno.InvalidHeaderToken?
          else Overflown(b1))
  }

  lemma CallAlike(a: Machine, b: Machine, e: nat, data: string)
    requires Between(a, b, e) && data != ""
    ensures CallAgrees(a, b, e, data)
  {
    hide Byte, Inv, BadCut, StaysInLoop, Fits, LogInv;
    assert b.ps.errno.OK? by { ErrnoOk(a); }
    var b0 := Machine(b.ps, b.nread, b.log, Fresh, 0, Running);
    CallKeeps(b.ps, b.nread, b.log, data);
    RunKeeps(a, data);
    assert !Lost(a);
    var a', b' := Byte(a, data[0]), Byte(b0, data[0]);
    ByteAlike(a, b0, e, data[0]);
    ByteKeeps(a, data[0]);
    ByteKeeps(b0, data[0]);
    if !b'.stop.Running? { RunStopped(b', data[1..]); }
    if !a'.stop.Running? { RunStopped(a', data[1..]); }
    if BadCut(a.ps, data[0]) && !a.scan.Skipping? { CaughtAnyway(a, data); }
    if a'.stop.Running? && b'.stop.Running? { RunAlike(a', b', Surplus(e, a'), data[1..]); }
  }

  /** A byte that is no header character is rejected when no jump is under way. */
  lemma CaughtAnyway(a: Machine, data: string)
    requires MachineInv(a) && a.stop.Running? && !a.scan.Skipping? && data != "" && BadCut(a.ps, data[0])
    ensures !Run(a, data).stop.Running? && !Byte(a, data[0]).stop.Running?
  {
    hide Step, StateInv, LogAfter;
    SkipMatters(a.ps, data[0]);
    RunStopped(Byte(a, data[0]), data[1..]);
  }
  // ---------- theorems ----------

  /**
   What a run over the whole input says about cutting it into these pieces: no piece begins with a bad cut, and all size
   checks hold although the counter has a surplus of one for each end of a buffer inside a header name or value since
   the last reset.
  */
  predicate CutsFit(a: Machine, e: nat, pieces: seq<string>)
    requires Pieces(pieces)
    decreases |pieces|
  {
    pieces == [] ||
    (!BadCut(a.ps, pieces[0][0]) && CountsFit(a, e, true, pieces[0])
     && CutsFit(Run(a, pieces[0]), SurplusAfter(a, e, pieces[0]), pieces[1..]))
  }

  /** The surplus behind all pieces. */
  function SurplusOf(a: Machine, e: nat, pieces: seq<string>): nat
    decreases |pieces|
  {
    if pieces == [] then e else SurplusOf(Run(a, pieces[0]), SurplusAfter(a, e, pieces[0]), pieces[1..])
  }

  /** A sequence of calls. */
  function Feed(m: Machine, pieces: seq<string>): Machine
    decreases |pieces|
  {
    if pieces == [] then m else Feed(NextCall(m, pieces[0]), pieces[1..])
  }

  function Concat(pieces: seq<string>): string { if pieces == [] then "" else pieces[0] + Concat(pieces[1..]) }

  predicate Pieces(pieces: seq<string>) { forall i :: 0 <= i < |pieces| ==> pieces[i] != "" }

  /** Every call is accepted, and none ends in an upgrade. */
  predicate AllRunning(m: Machine, pieces: seq<string>)
    decreases |pieces|
  {
    m.stop.Running? && (pieces == [] || AllRunning(NextCall(m, pieces[0]), pieces[1..]))
  }

  lemma {:induction false} FeedRunning(m: Machine, pieces: seq<string>)
    requires AllRunning(m, pieces)
    ensures Feed(m, pieces).stop.Running?
    decreases |pieces|
  {
    if pieces != [] { FeedRunning(NextCall(m, pieces[0]), pieces[1..]); }
  }

  predicate FeedAgrees(a: Machine, b: Machine, e: nat, pieces: seq<string>)
    requires Pieces(pieces)
  {
    var r, f := Run(a, Concat(pieces)), Feed(b, pieces);
    && (AllRunning(b, pieces) <==> r.stop.Running? && CutsFit(a, e, pieces))
    && (AllRunning(b, pieces) ==> Between(r, f, SurplusOf(a, e, pieces)))
  }

  lemma {:induction false} FeedAlike(a: Machine, b: Machine, e: nat, pieces: seq<string>)
    requires Between(a, b, e) && Pieces(pieces)
    ensures FeedAgrees(a, b, e, pieces)
    decreases |pieces|
  {
    hide Run, Call, Between, BadCut, CountsFit;
    assert a.stop.Running? && b.stop.Running? by { BothRunning(a, b, e); }
    if pieces == [] {
      RunEmpty(a);
    } else {
      var A, rest := pieces[0], pieces[1..];
      var a1, b1 := Run(a, A), NextCall(b, A);
      RunConcat(a, A, Concat(rest));
      CallAlike(a, b, e, A);
      if !a1.stop.Running? { RunStopped(a1, Concat(rest)); }
      assert AllRunning(b, pieces) <==> AllRunning(b1, rest);
      assert CutsFit(a, e, pieces) <==>
          !BadCut(a.ps, A[0]) && CountsFit(a, e, true, A) && CutsFit(a1, SurplusAfter(a, e, A), rest);
      if b1.stop.Running? {
        FeedAlike(a1, b1, SurplusAfter(a, e, A), rest);
      } else {
        assert !AllRunning(b1, rest);
      }
    }
  }

  lemma BothRunning(a: Machine, b: Machine, e: nat)
    requires Between(a, b, e)
    ensures a.stop.Running? && b.stop.Running?
  {
  }

  lemma RunEmpty(m: Machine)
    ensures Run(m, "") == m
  {
  }

  lemma Begins(p: Parser, nread: nat, log: seq<Event>)
    requires Valid(p, nread, log) && p.errno.OK?
    ensures var m := Machine(p, nread, log, Fresh, 0, Running); Between(m, m, 0)
  {
    hide StateInv;
  }

  /** The end of the last buffer: its size check is one of those that fit. */
  lemma {:induction false} LastFits(a: Machine, e: nat, pieces: seq<string>)
    requires Pieces(pieces) && pieces != [] && CutsFit(a, e, pieces)
    ensures var r := Run(a, Concat(pieces)); r.scan.Fresh? || r.nread + 1 <= MAX_HEADER
    decreases |pieces|
  {
    hide Run, BadCut;
    RunConcat(a, pieces[0], Concat(pieces[1..]));
    if pieces[1..] == [] {
      RunEmpty(Run(a, pieces[0]));
      EndFits(a, e, true, pieces[0]);
    } else {
      LastFits(Run(a, pieces[0]), SurplusAfter(a, e, pieces[0]), pieces[1..]);
    }
  }

  lemma {:induction false} EndFits(a: Machine, e: nat, begins: bool, data: string)
    requires CountsFit(a, e, begins, data)
    ensures var r := Run(a, data); r.scan.Fresh? || r.nread + 1 <= MAX_HEADER
    decreases |data|
  {
    hide Byte, Fits;
    if data != "" { EndFits(Byte(a, data[0]), Surplus(e, Byte(a, data[0])), false, data[1..]); }
  }

  /**
   Any number of cuts. Every call on a piece is accepted if and only if the whole input is accepted in one call and the
   cuts fit. Then the record, the events and their data are the same; the counter is the same but for the surplus.
  */
  lemma SplitMany(p: Parser, nread: nat, log: seq<Event>, pieces: seq<string>)
    requires Valid(p, nread, log) && p.errno.OK? && Pieces(pieces) && pieces != []
    ensures var m := Machine(p, nread, log, Fresh, 0, Running);
      var whole, cut := Call(p, nread, log, Concat(pieces)), Feed(m, pieces);
      && (AllRunning(m, pieces) <==> whole.stop.Running? && CutsFit(m, 0, pieces))
      && (AllRunning(m, pieces) ==>
            && cut.stop.Running? && cut.ps == whole.ps && cut.log == whole.log
            && cut.nread + SurplusOf(m, 0, [Concat(pieces)]) == whole.nread + SurplusOf(m, 0, pieces))
  {
    hide Run, StateInv, CutsFit, Between, BadCut, CountsFit, SurplusAfter;
    var m := Machine(p, nread, log, Fresh, 0, Running);
    Begins(p, nread, log);
    FeedAlike(m, m, 0, pieces);
    assert Concat(pieces) != "" by { assert Concat(pieces) == pieces[0] + Concat(pieces[1..]); }
    if CutsFit(m, 0, pieces) { LastFits(m, 0, pieces); }
    if AllRunning(m, pieces) {
      FeedRunning(m, pieces);
      Whole(m, Concat(pieces));
      BetweenMeans(Run(m, Concat(pieces)), Feed(m, pieces), SurplusOf(m, 0, pieces));
    }
  }

  lemma BetweenMeans(a: Machine, b: Machine, e: nat)
    requires Between(a, b, e)
    ensures a.ps == b.ps && a.log == b.log && b.nread == a.nread + e
  {
  }

  /** The whole input as its only piece. */
  lemma Whole(m: Machine, data: string)
    requires data != "" && Run(m, data).stop.Running?
    ensures SurplusOf(m, 0, [data]) == if Run(m, data).scan.Fresh? then 0 else 1
  {
    hide Run, SurplusAfter;
    assert [data][1..] == [];
    assert SurplusOf(m, 0, [data]) == SurplusOf(Run(m, data), SurplusAfter(m, 0, data), []) == SurplusAfter(m, 0, data);
    NoSurplus(m, data);
  }

  lemma {:induction false} NoSurplus(m: Machine, data: string)
    ensures SurplusAfter(m, 0, data) == if Run(m, data).scan.Fresh? then 0 else 1
    decreases |data|
  {
    hide Byte;
    if data != "" { NoSurplus(Byte(m, data[0]), data[1..]); }
  }

  /**
   One cut of an input that is accepted whole. The first call is accepted if and only if its size check at the end
   holds. The second is accepted, with the same record and events, if and only if it does not begin with a bad cut and
   its size checks hold with the surplus of the cut; otherwise the error says which of the two it was.
  */
  lemma SplitOnce(p: Parser, nread: nat, log: seq<Event>, A: string, B: string)
    requires Valid(p, nread, log) && p.errno.OK? && A != "" && B != "" && Call(p, nread, log, A + B).stop.Running?
    ensures var m, whole := Machine(p, nread, log, Fresh, 0, Running), Call(p, nread, log, A + B);
      var a, e, first := Run(m, A), SurplusAfter(m, 0, A), Call(p, nread, log, A);
      var second := NextCall(first, B);
      && e == (if a.scan.Fresh? then 0 else 1)
      && (first.stop.Running? <==> a.nread + e <= MAX_HEADER) && (!first.stop.Running? ==> Overflown(first))
      && (first.stop.Running? ==>
            && (second.stop.Running? <==> !BadCut(a.ps, B[0]) && CountsFit(a, e, true, B))
            && (second.stop.Running? ==>
                  second.ps == whole.ps && second.log == whole.log && first.used + second.used == whole.used)
            && (!second.stop.Running? ==>
                  if BadCut(a.ps, B[0]) && Fits(a, e, true, B[0])
                      then second.stop.Failed? && second.ps.errno.InvalidHeaderToken?
                  else Overflown(second)))
  {
    hide Byte, StateInv, IsHeaderChar, BadCut, CountsFit, SurplusAfter, Fits;
    var m := Machine(p, nread, log, Fresh, 0, Running);
    var a := Run(m, A);
    RunConcat(m, A, B);
    RunKeeps(m, A);
    if !a.stop.Running? { RunStopped(a, B); }
    NoSurplus(m, A);
    var first := EndBuffer(a);
    if first.stop.Running? {
      Begins(p, nread, log);
      CallKeeps(p, nread, log, A);
      CallAlike(a, first, SurplusAfter(m, 0, A), B);
      WholeIsNotDoomed(Run(a, B));
    }
  }

  lemma WholeIsNotDoomed(r: Machine)
    requires EndBuffer(r).stop.Running?
    ensures r.stop.Running? && !Doomed(r)
  {
  }

  // ---------- when only the place of a cut matters ----------

  /** The counter stays within n along this input. */
  predicate Below(a: Machine, n: nat, data: string)
    decreases |data|
  {
    a.nread <= n && (data == "" || Below(Byte(a, data[0]), n, data[1..]))
  }

  function Least(a: nat, b: nat): nat { if a <= b then a else b }

  /** Outside the header no byte of a name or value is read. */
  lemma {:induction false} NotCounted(p: Parser, n: nat, log: seq<Event>, ch: char, s: Scan)
    requires !ParsingHeader(p.state)
    ensures Passes(p, n, log, ch, s).scan.Fresh?
    decreases Rank(p.state)
  {
    hide Step, LogAfter, Rank;
    OutsideStays(p, ch, s.Skipping?);
    StepDescends(p, ch, s.Skipping?);
    var o := Step(p, ch, s.Skipping?);
    if o.next.Again? { NotCounted(o.st, if o.reset then 0 else n, LogAfter(p.state, log, o, ch), ch, s); }
  }

  lemma OutsideStays(p: Parser, ch: char, skip: bool)
    requires !ParsingHeader(p.state)
    ensures var o := Step(p, ch, skip); !o.st.state.HeaderField? && !o.st.state.HeaderValue?
    ensures var o := Step(p, ch, skip); o.next.Again? ==> !ParsingHeader(o.st.state)
  {
    hide HeaderStep, ResponseLine, RequestLine, UrlHead, UrlRest, ChunkFirst, ChunkDigit, ChunkLineEnd;
  }

  /** A byte counts once or resets the counter; after a byte of a name or value it has counted. */
  lemma ByteCount(a: Machine, e: nat, ch: char)
    requires MachineInv(a) && Byte(a, ch).stop.Running? && e <= a.nread
    ensures var a' := Byte(a, ch); var e' := Surplus(e, a');
      && e' <= a'.nread <= a.nread + 1 && (!a'.scan.Fresh? ==> e' < a'.nread)
  {
    hide Step, LogAfter, StateInv;
    var n := Counted(a.ps.state, a.nread);
    PassesAlike(a.ps, n, 0, a.log, ch, a.scan, a.scan);
    ByteKeeps(a, ch);
    if !ParsingHeader(a.ps.state) { NotCounted(a.ps, n, a.log, ch, a.scan); }
  }

  /**
   The surplus is at most the number c of buffers that have ended, and at most the counter. So all size checks of a
   buffer hold when the greatest count of the run leaves that much room.
  */
  lemma {:induction false} SmallCountsFit(a: Machine, e: nat, begins: bool, data: string, n: nat, c: nat)
    requires MachineInv(a) && Run(a, data).stop.Running? && Below(a, n, data)
    requires e <= c && e <= a.nread && (data == "" && !a.scan.Fresh? ==> e < a.nread)
    requires n + 1 + Least(n, c) <= MAX_HEADER
    ensures CountsFit(a, e, begins, data)
    ensures SurplusAfter(a, e, data) <= c + 1 && SurplusAfter(a, e, data) <= Run(a, data).nread
    decreases |data|
  {
    hide Byte, MachineInv, StaysInLoop;
    if data != "" {
      var a' := Byte(a, data[0]);
      if !a'.stop.Running? { RunStopped(a', data[1..]); }
      ByteKeeps(a, data[0]);
      ByteCount(a, e, data[0]);
      SmallCountsFit(a', Surplus(e, a'), false, data[1..], n, c);
    }
  }

  lemma {:induction false} BelowConcat(a: Machine, n: nat, A: string, B: string)
    ensures Below(a, n, A + B) <==> Below(a, n, A) && Below(Run(a, A), n, B)
    decreases |A|
  {
    hide Byte;
    if A == "" {
      assert A + B == B;
    } else {
      assert (A + B)[0] == A[0] && (A + B)[1..] == A[1..] + B;
      BelowConcat(Byte(a, A[0]), n, A[1..], B);
    }
  }

  /** No piece begins with a bad cut. */
  predicate NoBadCut(a: Machine, pieces: seq<string>)
    requires Pieces(pieces)
    decreases |pieces|
  {
    pieces == [] || (!BadCut(a.ps, pieces[0][0]) && NoBadCut(Run(a, pieces[0]), pieces[1..]))
  }

  /** With room for the cuts, or for as many bytes again, only bad cuts matter. */
  lemma {:induction false} SmallCutsFit(a: Machine, e: nat, pieces: seq<string>, n: nat, c: nat)
    requires MachineInv(a) && Pieces(pieces) && Run(a, Concat(pieces)).stop.Running? && Below(a, n, Concat(pieces))
    requires e <= c && e <= a.nread && (pieces != [] ==> n + 1 + Least(n, c + |pieces| - 1) <= MAX_HEADER)
    ensures CutsFit(a, e, pieces) <==> NoBadCut(a, pieces)
    decreases |pieces|
  {
    hide Run, MachineInv, BadCut, CountsFit, SurplusAfter, Below;
    if pieces != [] {
      var A, rest := pieces[0], pieces[1..];
      RunConcat(a, A, Concat(rest));
      BelowConcat(a, n, A, Concat(rest));
      RunKeeps(a, A);
      if !Run(a, A).stop.Running? { RunStopped(Run(a, A), Concat(rest)); }
      SmallCountsFit(a, e, true, A, n, c);
      SmallCutsFit(Run(a, A), SurplusAfter(a, e, A), rest, n, c + 1);
    }
  }

  /** Every byte counts at most once. */
  lemma ByteCounts(a: Machine, ch: char)
    ensures Byte(a, ch).nread <= a.nread + 1
  {
    hide Step, LogAfter;
    if a.stop.Running? { PassesCount(a.ps, Counted(a.ps.state, a.nread), a.log, ch, a.scan); }
  }

  lemma {:induction false} PassesCount(p: Parser, n: nat, log: seq<Event>, ch: char, s: Scan)
    ensures Passes(p, n, log, ch, s).nread <= n
    decreases Rank(p.state)
  {
    hide Step, LogAfter;
    var o := Step(p, ch, s.Skipping?);
    StepDescends(p, ch, s.Skipping?);
    if o.next.Again? { PassesCount(o.st, if o.reset then 0 else n, LogAfter(p.state, log, o, ch), ch, s); }
  }

  lemma {:induction false} RunCounts(a: Machine, data: string)
    ensures Run(a, data).nread <= a.nread + |data|
    decreases |data|
  {
    hide Byte;
    if data != "" {
      ByteCounts(a, data[0]);
      RunCounts(Byte(a, data[0]), data[1..]);
    }
  }
}
