/**
 The data marks of http_parser_execute. A mark is a position in the buffer from which bytes are still to be reported;
 the callbacks see whole spans. This module relates spans, marks and buffers to the canonical log of the byte machine.
 */
module HttpMarks {
  import opened HttpTypes
  import opened HttpStep
  import opened HttpSpec
  import opened HttpInvariant

  /** The five mark pointers: at most one of them is set. */
  datatype Mark = NoMark | At(kind: DataKind, pos: nat)

  /** The canonical log once the span from the mark to position p has been reported. */
  function Pending(calls: seq<Event>, mark: Mark, data: string, p: nat): seq<Event>
    requires p <= |data|
  {
    if mark.NoMark? || mark.pos >= p then Canonical(calls)
    else Push(Canonical(calls), Data(mark.kind, data[mark.pos..p]))
  }

  /** The mark that is set in front of byte p. Only a body mark outlives the states that set it. */
  predicate MarkInv(mark: Mark, s: State, p: nat) {
    match mark
    case NoMark => OpenOf(s).None?
    case At(k, pos) =>
      pos <= p && if OpenOf(s).Some? then OpenOf(s) == Some(k) else k.OnBody? && HoldsBody(s) && pos < p
  }

  function MarkAfter(mark: Mark, o: Outcome, p: nat): Mark {
    var mark' := if o.mark.Some? && mark.NoMark? then At(o.mark.value, p) else mark;
    if mark'.At? && o.flush == Some(mark'.kind) then NoMark else mark'
  }

  /** The callbacks of one pass over byte p. */
  function CallsAfter(calls: seq<Event>, mark: Mark, o: Outcome, data: string, p: nat): seq<Event>
    requires p < |data|
  {
    var mark' := if o.mark.Some? && mark.NoMark? then At(o.mark.value, p) else mark;
    var end := if o.inclusive then p + 1 else p;
    var calls' := if mark'.At? && o.flush == Some(mark'.kind) && mark'.pos <= end
                  then calls + [Data(mark'.kind, data[mark'.pos..end])] else calls;
    if o.note.Some? then calls' + [Notify(o.note.value)] else calls'
  }

  /** The report of a span that ends before byte p, or with it. */
  lemma FlushLog(calls: seq<Event>, k: DataKind, pos: nat, data: string, p: nat)
    requires pos <= p < |data|
    ensures var log := Pending(calls, At(k, pos), data, p);
      && Canonical(calls + [Data(k, data[pos..p])]) == Push(log, Data(k, ""))
      && (pos < p ==> Canonical(calls + [Data(k, data[pos..p])]) == log)
      && Canonical(calls + [Data(k, data[pos..p + 1])]) == Push(log, Data(k, [data[p]]))
      && Pending(calls, At(k, pos), data, p + 1) == Push(log, Data(k, [data[p]]))
  {
    hide Push, Canonical;
    CanonicalSnoc(calls, Data(k, data[pos..p]));
    CanonicalSnoc(calls, Data(k, data[pos..p + 1]));
    assert data[pos..p + 1] == data[pos..p] + [data[p]];
    PushTwice(Canonical(calls), k, data[pos..p], "");
    PushTwice(Canonical(calls), k, data[pos..p], [data[p]]);
    assert data[pos..p] + "" == data[pos..p];
    if pos == p {
      assert data[pos..p] == "" && data[pos..p + 1] == [data[p]];
    }
  }

  predicate InStep(s: State, o: Outcome, calls: seq<Event>, mark: Mark, data: string, p: nat)
    requires p < |data|
  {
    var log' := LogAfter(s, Pending(calls, mark, data, p), o, data[p]);
    var calls', mark' := CallsAfter(calls, mark, o, data, p), MarkAfter(mark, o, p);
    && (o.next.Again? ==> log' == Pending(calls', mark', data, p) && MarkInv(mark', o.st.state, p))
    && (o.next.Advance? ==> log' == Pending(calls', mark', data, p + 1) && MarkInv(mark', o.st.state, p + 1))
    && (o.next.Exit? && mark'.NoMark? ==> log' == Canonical(calls'))
  }

  lemma NoSpanLog(s: State, o: Outcome, calls: seq<Event>, mark: Mark, data: string, p: nat)
    requires SpanOk(s, o) && p < |data| && MarkInv(mark, s, p) && Span(s, o).None?
    ensures InStep(s, o, calls, mark, data, p)
  {
    hide Push, Canonical, OpenOf, HoldsBody, InBody;
    if mark.At? {
      FlushLog(calls, mark.kind, mark.pos, data, p);
    } else if o.note.Some? {
      CanonicalSnoc(calls, Notify(o.note.value));
    }
  }

  lemma SpanLog(s: State, o: Outcome, calls: seq<Event>, mark: Mark, data: string, p: nat)
    requires SpanOk(s, o) && p < |data| && MarkInv(mark, s, p) && Span(s, o).Some? && o.flush.None?
    ensures InStep(s, o, calls, mark, data, p)
  {
    hide Push, Canonical, OpenOf, HoldsBody, InBody;
    var mark' := MarkAfter(mark, o, p);
    FlushLog(calls, mark'.kind, mark'.pos, data, p);
  }

  lemma FlushedLog(s: State, o: Outcome, calls: seq<Event>, mark: Mark, data: string, p: nat)
    requires p < |data| && o.flush.Some? && o.flush == Span(s, o) && (o.inclusive ==> o.next.Again?) && o.note.None?
    requires match mark case NoMark => o.mark == o.flush case At(k, pos) => o.flush == Some(k) && pos <= p
    requires o.next.Advance? || o.next.Again? ==> OpenOf(o.st.state).None?
    ensures (o.next.Advance? || o.next.Again? ==> InStep(s, o, calls, mark, data, p)) && MarkAfter(mark, o, p).NoMark?
  {
    hide Push, Canonical, IsUrlState, HoldsBody;
    var mark1 := if o.mark.Some? && mark.NoMark? then At(o.mark.value, p) else mark;
    FlushLog(calls, mark1.kind, mark1.pos, data, p);
  }

  /** One pass keeps marks, callbacks and canonical log in step. */
  lemma PassLog(s: State, o: Outcome, calls: seq<Event>, mark: Mark, data: string, p: nat)
    requires SpanOk(s, o) && p < |data| && MarkInv(mark, s, p)
    ensures InStep(s, o, calls, mark, data, p) && (o.next.Exit? ==> MarkAfter(mark, o, p).NoMark?)
  {
    hide InStep, IsUrlState;
    if Span(s, o).None? {
      NoSpanLog(s, o, calls, mark, data, p);
    } else if o.flush.None? {
      SpanLog(s, o, calls, mark, data, p);
    } else if o.next.Advance? || o.next.Again? {
      FlushedLog(s, o, calls, mark, data, p);
    } else {
      OtherwiseInStep(s, o, calls, mark, data, p);
    }
  }

  lemma OtherwiseInStep(s: State, o: Outcome, calls: seq<Event>, mark: Mark, data: string, p: nat)
    requires p < |data| && !o.next.Again? && !o.next.Advance? && !o.next.Exit?
    ensures InStep(s, o, calls, mark, data, p)
  {
  }
  lemma NotesSnoc(calls: seq<Event>, e: Event)
    ensures Notes(calls + [e]) == Notes(calls) + NotesOf(e)
  {
    assert (calls + [e])[..|calls|] == calls;
  }

  lemma PendingNotes(calls: seq<Event>, mark: Mark, data: string, p: nat)
    requires p <= |data|
    ensures Notes(Pending(calls, mark, data, p)) == Notes(calls)
  {
    hide Push, Canonical, Notes;
    NotesCanonical(calls);
    if mark.At? && mark.pos < p { NotesPush(Canonical(calls), Data(mark.kind, data[mark.pos..p])); }
  }

  /** A pass adds the same notification to the callbacks and to the log, also when it rejects the byte. */
  lemma PassNotes(s: State, o: Outcome, calls: seq<Event>, mark: Mark, data: string, p: nat)
    requires p < |data|
    ensures Notes(LogAfter(s, Pending(calls, mark, data, p), o, data[p])) == Notes(CallsAfter(calls, mark, o, data, p))
  {
    hide Push, Pending, Notes;
    var log := Pending(calls, mark, data, p);
    PendingNotes(calls, mark, data, p);
    var o1 := o.(note := None);
    LogNotes(s, log, o1, data[p]);
    CallNotes(calls, mark, o1, data, p);
    if o.note.Some? {
      NotesPush(LogAfter(s, log, o1, data[p]), Notify(o.note.value));
      NotesSnoc(CallsAfter(calls, mark, o1, data, p), Notify(o.note.value));
    }
  }

  lemma LogNotes(s: State, log: seq<Event>, o: Outcome, ch: char)
    requires o.note.None?
    ensures Notes(LogAfter(s, log, o, ch)) == Notes(log)
  {
    hide Push, Notes;
    var span := Span(s, o);
    if span.Some? {
      NotesPush(log, Data(span.value, if o.inclusive then [ch] else ""));
      NotesPush(log, Data(span.value, [ch]));
    }
  }

  lemma CallNotes(calls: seq<Event>, mark: Mark, o: Outcome, data: string, p: nat)
    requires p < |data| && o.note.None?
    ensures Notes(CallsAfter(calls, mark, o, data, p)) == Notes(calls)
  {
    hide Notes;
    var mark1 := if o.mark.Some? && mark.NoMark? then At(o.mark.value, p) else mark;
    var end := if o.inclusive then p + 1 else p;
    if mark1.At? && mark1.pos <= end { NotesSnoc(calls, Data(mark1.kind, data[mark1.pos..end])); }
  }
}
