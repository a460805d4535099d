/** In every canonical log the parser can produce, header names and header values take turns. */
module HttpShape {
  import opened Chars
  import opened HttpTypes
  import opened HttpStep
  import opened HttpSpec
  import opened HttpInvariant
  import opened HttpRequests

  /** Where a log stands: between headers, behind a name, or out of order. */
  datatype Phase = Ready | Named | Disorder

  function PhaseOf(log: seq<Event>): Phase {
    if log == [] then Ready
    else
      var before, e := PhaseOf(log[..|log| - 1]), log[|log| - 1];
      if e.Data? && e.kind.OnHeaderField? then (if before.Ready? then Named else Disorder)
      else if e.Data? && e.kind.OnHeaderValue? then (if before.Named? then Ready else Disorder)
      else before
  }

  /** The headers of a log whose names and values take turns. */
  function Pairs(log: seq<Event>): seq<Header> {
    if |log| < 1 then []
    else
      var init, e := log[..|log| - 1], log[|log| - 1];
      if e.Data? && e.kind.OnHeaderValue? then Pairs(init) + [Header(LastName(init), e.text)] else Pairs(init)
  }

  /** The last header name of a log. */
  function LastName(log: seq<Event>): string {
    if log == [] then ""
    else
      var e := log[|log| - 1];
      if e.Data? && e.kind.OnHeaderField? then e.text else LastName(log[..|log| - 1])
  }

  predicate ReadsName(s: State) { s.HeaderField? || AfterName(s) }

  /** The log that goes with a state. */
  predicate ShapeInv(s: State, log: seq<Event>) {
    && PhaseOf(log) == (if ReadsName(s) then Named else Ready)
    && (ReadsName(s) ==> EndsWith(log, OnHeaderField))
    && (s.HeaderValue? || AfterValue(s) ==> EndsWith(log, OnHeaderValue))
  }

  /** How a pass moves between names and values. */
  predicate ShapeOk(s: State, o: Outcome) {
    var span, t := Span(s, o), o.st.state;
    o.next.Advance? || o.next.Again? ==>
      if span == Some(OnHeaderField)
          then (s.HeaderFieldStart? || s.HeaderField?) && ReadsName(t) && o.note.None? && o.next.Advance?
      else if span == Some(OnHeaderValue) then
        (AfterName(s) || s.HeaderValueStart? || s.HeaderValue?) && !ReadsName(t) && o.note.None?
        && (o.next.Advance? || o.flush.Some?) && (!AfterName(s) && o.flush.Some? ==> s.HeaderValue?)
      else
        (ReadsName(s) <==> ReadsName(t)) && (ReadsName(t) ==> span.None? && o.note.None?) && !t.HeaderField?
          && !t.HeaderValue? && (AfterValue(t) ==> AfterValue(s) && o.note.None?)
        && (AfterValue(s) && span.Some? ==> false)
  }

  lemma NameShapes(p: Parser, ch: char)
    ensures p.state.HeaderFieldStart? ==> ShapeOk(p.state, LineStart(p, ch))
    ensures p.state.HeaderField? ==> ShapeOk(p.state, FieldStep(p, ch))
    ensures p.state.HeaderValueDiscardWs? ==> ShapeOk(p.state, DiscardWs(p, ch))
    ensures p.state.HeaderValueStart? ==> ShapeOk(p.state, ValueStart(p, ch))
  {
    hide Token, FieldStart, FieldByte, Lower, FlagOf;
  }

  lemma ValueShapes(p: Parser, ch: char, skip: bool)
    ensures p.state.HeaderValue? ==> ShapeOk(p.state, ValueStep(p, ch, skip))
    ensures p.state.HeaderValueLws? ==> ShapeOk(p.state, ValueLws(p, ch))
    ensures p.state.HeaderValueDiscardLws? ==> ShapeOk(p.state, DiscardLws(p, ch))
    ensures p.state.HeadersAlmostDone? ==> ShapeOk(p.state, HeadersEnd(p))
  {
    hide ValueByte, IsHeaderChar, FlagOf;
  }

  lemma HeaderShapes(p: Parser, ch: char, skip: bool)
    requires IsHeader(p.state)
    ensures ShapeOk(p.state, HeaderStep(p, ch, skip))
  {
    hide LineStart, FieldStep, DiscardWs, ValueStart, ValueStep, ValueLws, DiscardLws, HeadersEnd;
    NameShapes(p, ch);
    ValueShapes(p, ch, skip);
  }

  lemma ChunkShapes(p: Parser, ch: char)
    ensures p.state.ChunkSizeStart? ==> ShapeOk(p.state, ChunkFirst(p, ch))
    ensures p.state.ChunkSize? ==> ShapeOk(p.state, ChunkDigit(p, ch))
    ensures p.state.ChunkSizeAlmostDone? ==> ShapeOk(p.state, ChunkLineEnd(p, ch))
  {
    hide AddHex, Unhex;
  }

  lemma DataShapes(p: Parser, ch: char)
    ensures p.state.ChunkData? ==> ShapeOk(p.state, ChunkByte(p))
    ensures p.state.ChunkDataAlmostDone? ==> ShapeOk(p.state, ChunkEnd(p, ch))
    ensures p.state.ChunkDataDone? ==> ShapeOk(p.state, ChunkDone(p, ch))
    ensures p.state.BodyIdentity? ==> ShapeOk(p.state, BodyByte(p))
  {
  }

  lemma BodyShapes(p: Parser, ch: char)
    requires IsBody(p.state)
    ensures ShapeOk(p.state, BodyStep(p, ch))
  {
    hide ChunkFirst, ChunkDigit, ChunkLineEnd, ChunkByte, ChunkEnd, ChunkDone, BodyByte, NewMessage;
    ChunkShapes(p, ch);
    DataShapes(p, ch);
  }

  lemma ResponseShapes(p: Parser, ch: char)
    requires IsResponseLine(p.state)
    ensures ShapeOk(p.state, ResponseLine(p, ch))
  {
    hide ResponseStart, StatusDigit, StatusText;
    StatusShapes(p, ch);
  }

  lemma StatusShapes(p: Parser, ch: char)
    ensures p.state.StartRes? ==> ShapeOk(p.state, ResponseStart(p, ch))
    ensures p.state.ResStatusCode? ==> ShapeOk(p.state, StatusDigit(p, ch))
    ensures p.state.ResStatus? ==> ShapeOk(p.state, StatusText(p, ch))
  {
  }

  lemma UrlShapes(p: Parser, ch: char)
    ensures IsUrlState(p.state) ==> ShapeOk(p.state, UrlHead(p, ch)) && ShapeOk(p.state, UrlRest(p, ch))
    ensures p.state.ReqSpacesBeforeUrl? ==> ShapeOk(p.state, UrlFirst(p, ch))
  {
    hide ParseUrlChar;
    UrlCloses(p.state, ch);
    UrlCloses(ReqServerStart, ch);
  }

  /** States in which a pass has nothing to do with names, values or data. */
  predicate Aside(s: State) { !ReadsName(s) && !s.HeaderValue? && !AfterValue(s) && OpenOf(s).None? }

  lemma AsideShapes(s: State, o: Outcome)
    requires Aside(s) && (o.next.Advance? ==> Aside(o.st.state)) && !o.next.Again? && o.mark.None? && o.flush.None?
    ensures ShapeOk(s, o)
  {
    hide AfterName, AfterValue, OpenOf;
  }

  lemma VersionShapes(p: Parser, ch: char)
    requires IsHttpWord(p.state) || IsReqVersion(p.state)
    ensures ShapeOk(p.state, RequestLine(p, ch))
  {
    hide EitherStart, RequestStart, MethodStep, UrlFirst, IsNum, Digit, ShapeOk;
    AsideShapes(p.state, RequestLine(p, ch));
  }

  lemma RequestShapes(p: Parser, ch: char)
    requires !IsResponseLine(p.state) && !IsHeader(p.state) && !IsBody(p.state) && !IsUrlState(p.state)
    ensures ShapeOk(p.state, RequestLine(p, ch))
  {
    hide MethodString, Reguess, FirstGuess, IsAlpha, UrlFirst;
    if IsHttpWord(p.state) || IsReqVersion(p.state) { VersionShapes(p, ch); } else { UrlShapes(p, ch); }
  }

  lemma StepShapes(p: Parser, ch: char, skip: bool)
    ensures ShapeOk(p.state, Step(p, ch, skip))
  {
    hide HeaderStep, BodyStep, ResponseLine, RequestLine, UrlHead, UrlRest, ShapeOk;
    if IsHeader(p.state) {
      HeaderShapes(p, ch, skip);
    } else if IsBody(p.state) {
      BodyShapes(p, ch);
    } else if IsResponseLine(p.state) {
      ResponseShapes(p, ch);
    } else if IsUrlState(p.state) {
      UrlShapes(p, ch);
    } else {
      RequestShapes(p, ch);
    }
  }

  // ---------- whole inputs ----------

  lemma PushPhase(log: seq<Event>, k: DataKind, x: string)
    ensures EndsWith(Push(log, Data(k, x)), k)
    ensures PhaseOf(Push(log, Data(k, x))) ==
      if EndsWith(log, k) then PhaseOf(log)
      else if k.OnHeaderField? then (if PhaseOf(log).Ready? then Named else Disorder)
      else if k.OnHeaderValue? then (if PhaseOf(log).Named? then Ready else Disorder)
      else PhaseOf(log)
  {
    var l := Push(log, Data(k, x));
    assert l[..|l| - 1] == if EndsWith(log, k) then log[..|log| - 1] else log;
  }

  lemma NotePhase(log: seq<Event>, n: Note)
    ensures PhaseOf(Push(log, Notify(n))) == PhaseOf(log)
  {
    assert (log + [Notify(n)])[..|log|] == log;
  }

  lemma EndPhase(log: seq<Event>)
    ensures PhaseOf(log).Named? ==> !EndsWith(log, OnHeaderValue)
    ensures PhaseOf(log).Ready? ==> !EndsWith(log, OnHeaderField)
  {
  }

  lemma ShapeKeeps(s: State, o: Outcome, log: seq<Event>, ch: char)
    requires ShapeOk(s, o) && SpanOk(s, o) && ShapeInv(s, log) && (o.next.Advance? || o.next.Again?)
    ensures ShapeInv(o.st.state, LogAfter(s, log, o, ch))
  {
    hide Push, PhaseOf, IsUrlState;
    var span := Span(s, o);
    if span.Some? {
      PushPhase(log, span.value, "");
      PushPhase(log, span.value, [ch]);
      EndPhase(log);
    }
    if o.note.Some? {
      NotePhase(log, o.note.value);
      NotePhase(LogAfter(s, log, o.(note := None), ch), o.note.value);
    }
  }

  lemma {:induction false} PassesShape(p: Parser, nread: nat, log: seq<Event>, ch: char, scan: Scan)
    requires ShapeInv(p.state, log)
    ensures var r := Passes(p, nread, log, ch, scan); r.stop.Running? ==> ShapeInv(r.ps.state, r.log)
    decreases Rank(p.state)
  {
    hide Step, LogAfter, ShapeInv, ShapeOk, SpanOk;
    var o := Step(p, ch, scan.Skipping?);
    StepDescends(p, ch, scan.Skipping?);
    StepShapes(p, ch, scan.Skipping?);
    StepSpans(p, ch, scan.Skipping?);
    if o.next.Advance? || o.next.Again? {
      ShapeKeeps(p.state, o, log, ch);
    }
    if o.next.Again? {
      PassesShape(o.st, if o.reset then 0 else nread, LogAfter(p.state, log, o, ch), ch, scan);
    }
  }

  lemma LostShape(s: State, log: seq<Event>, log': seq<Event>)
    requires s.HeaderValue? && ShapeInv(s, log) && EndsWith(log', OnHeaderValue)
    requires EndsWith(log, OnHeaderValue) ==> PhaseOf(log') == PhaseOf(log)
    ensures ShapeInv(s, log')
  {
  }

  /** After any accepted input, header names and values have taken turns. */
  lemma {:induction false} RunShape(m: Machine, data: string)
    requires ShapeInv(m.ps.state, m.log)
    ensures var r := Run(m, data); m.stop.Running? && r.stop.Running? ==> ShapeInv(r.ps.state, r.log)
    decreases |data|
  {
    hide Passes, ShapeInv;
    if data != "" && m.stop.Running? {
      var r := Byte(m, data[0]);
      if Lost(m) {
        PushPhase(m.log, OnHeaderValue, [data[0]]);
        LostShape(m.ps.state, m.log, Push(m.log, Data(OnHeaderValue, [data[0]])));
      } else {
        PassesShape(m.ps, Counted(m.ps.state, m.nread), m.log, data[0], m.scan);
      }
      if r.stop.Running? { RunShape(r, data[1..]); } else { RunStopped(r, data[1..]); }
    }
  }

  lemma CallShape(p: Parser, nread: nat, log: seq<Event>, data: string)
    requires ShapeInv(p.state, log)
    ensures var m := Call(p, nread, log, data); m.stop.Running? ==> ShapeInv(m.ps.state, m.log)
  {
    hide Run, Push;
    RunShape(Machine(p, nread, log, Fresh, 0, Running), data);
    NotePhase(log, OnMessageComplete);
  }

  lemma InitShape(kind: Type)
    ensures ShapeInv(Init(kind).state, [])
  {
  }
}
