/**
 The reference semantics of http_parser_execute: a fold of one-byte steps. Its log is canonical: adjacent data
 events of the same kind are one event, so it does not depend on how the input was cut into buffers.
 */
module HttpSpec {
  import opened Chars
  import opened HttpTypes
  import opened HttpStep

  datatype Event = Notify(note: Note) | Data(kind: DataKind, text: string)

  // ---------- logs ----------

  predicate EndsWith(log: seq<Event>, k: DataKind) {
    |log| > 0 && log[|log| - 1].Data? && log[|log| - 1].kind == k
  }

  /** Appends an event; data of the kind that the log already ends with extends that event. */
  function Push(log: seq<Event>, e: Event): seq<Event> {
    if e.Data? && EndsWith(log, e.kind)
    then log[..|log| - 1] + [Data(e.kind, log[|log| - 1].text + e.text)]
    else log + [e]
  }

  /** The canonical form of a list of callbacks as they happened. */
  function Canonical(calls: seq<Event>): seq<Event> {
    if calls == [] then [] else Push(Canonical(calls[..|calls| - 1]), calls[|calls| - 1])
  }

  lemma PushTwice(log: seq<Event>, k: DataKind, a: string, b: string)
    ensures Push(Push(log, Data(k, a)), Data(k, b)) == Push(log, Data(k, a + b))
    ensures EndsWith(Push(log, Data(k, a)), k)
  {
    var l1 := Push(log, Data(k, a));
    assert l1[..|l1| - 1] == if EndsWith(log, k) then log[..|log| - 1] else log;
    if EndsWith(log, k) {
      assert (log[|log| - 1].text + a) + b == log[|log| - 1].text + (a + b);
    }
  }

  lemma PushNothing(log: seq<Event>, k: DataKind)
    requires EndsWith(log, k)
    ensures Push(log, Data(k, "")) == log
  {
    assert log[|log| - 1].text + "" == log[|log| - 1].text;
    assert log == log[..|log| - 1] + [log[|log| - 1]];
  }

  lemma CanonicalSnoc(calls: seq<Event>, e: Event)
    ensures Canonical(calls + [e]) == Push(Canonical(calls), e)
  {
    assert (calls + [e])[..|calls|] == calls;
  }

  /** The notifications of a log, without the data between them. */
  function Notes(log: seq<Event>): seq<Note> {
    if log == [] then [] else Notes(log[..|log| - 1]) + NotesOf(log[|log| - 1])
  }

  function NotesOf(e: Event): seq<Note> { if e.Notify? then [e.note] else [] }

  lemma NotesPush(log: seq<Event>, e: Event)
    ensures Notes(Push(log, e)) == Notes(log) + NotesOf(e)
  {
    var l := Push(log, e);
    assert l[..|l| - 1] == if e.Data? && EndsWith(log, e.kind) then log[..|log| - 1] else log;
  }

  lemma {:induction false} NotesCanonical(calls: seq<Event>)
    ensures Notes(Canonical(calls)) == Notes(calls)
    decreases |calls|
  {
    hide Push;
    if calls != [] {
      NotesCanonical(calls[..|calls| - 1]);
      NotesPush(Canonical(calls[..|calls| - 1]), calls[|calls| - 1]);
    }
  }

  // ---------- the byte machine ----------

  /**
   Where the inner header loops stand: outside; inside; or inside and carried by a memchr jump, which has passed `run`
   bytes so far.
  */
  datatype Scan = Fresh | Scanning | Skipping(run: nat)

  datatype Stop = Running | Failed | Upgraded | Aborted

  datatype Machine = Machine(ps: Parser, nread: nat, log: seq<Event>, scan: Scan, used: nat, stop: Stop)

  /** The data span that the current byte may belong to: the one still open, or the one this pass marks. */
  function Span(s: State, o: Outcome): Option<DataKind> {
    if OpenOf(s).Some? then OpenOf(s) else o.mark
  }

  /** The log after one pass over byte ch, as seen from a buffer that holds this byte only. */
  function LogAfter(s: State, log: seq<Event>, o: Outcome, ch: char): seq<Event> {
    var span := Span(s, o);
    var log' :=
      if span.None? then log
      else if o.flush == span then Push(log, Data(span.value, if o.inclusive then [ch] else ""))
      else if o.next.Advance? then Push(log, Data(span.value, [ch]))
      else log;
    if o.note.Some? then Push(log', Notify(o.note.value)) else log'
  }

  function ScanAfter(before: Parser, after: Parser, scan: Scan): Scan {
    if before.state != after.state then Fresh
    else if before.state.HeaderField? then Scanning
    else if !before.state.HeaderValue? then Fresh
    else if !before.hstate.HGeneral? then Scanning
    else Skipping(if scan.Skipping? then scan.run + 1 else 1)
  }

  /** All passes of the switch over one byte. */
  function Passes(p: Parser, nread: nat, log: seq<Event>, ch: char, scan: Scan): Machine
    decreases Rank(p.state)
  {
    var o := Step(p, ch, scan.Skipping?);
    StepDescends(p, ch, scan.Skipping?);
    var log' := LogAfter(p.state, log, o, ch);
    var nread' := if o.reset then 0 else nread;
    if p.state.ChunkSizeStart? && nread != 1 then Machine(p, nread, log, Fresh, 0, Aborted)
    else match o.next
      case Again => Passes(o.st, nread', log', ch, scan)
      case Advance => Machine(o.st, nread', log', ScanAfter(p, o.st, scan), 1, Running)
      case Fail => Machine(o.st, nread', log', Fresh, 0, Failed)
      case Exit => Machine(o.st, nread', log', Fresh, 1, Upgraded)
      case Fault => Machine(o.st, nread', log', Fresh, 0, Aborted)
  }

  /** A pass that examines the byte again. */
  lemma PassAgain(p: Parser, nread: nat, log: seq<Event>, ch: char, scan: Scan)
    requires Step(p, ch, scan.Skipping?).next.Again? && !p.state.ChunkSizeStart?
    ensures var o := Step(p, ch, scan.Skipping?);
      Passes(p, nread, log, ch, scan) == Passes(o.st, if o.reset then 0 else nread, LogAfter(p.state, log, o, ch), ch,
        scan)
  {
    hide Step, LogAfter;
  }

  function Counted(s: State, nread: nat): nat { if ParsingHeader(s) then nread + 1 else nread }

  /** A byte that does not end the loop over a header name or value. */
  predicate StaysInLoop(s: State, ch: char) {
    (s.HeaderField? && IsToken(ch)) || (s.HeaderValue? && ch != CR && ch != LF)
  }

  /** The header size is not checked inside the loops over names and values. */
  predicate Checked(m: Machine, ch: char) {
    ParsingHeader(m.ps.state) && (m.scan.Fresh? || !StaysInLoop(m.ps.state, ch))
  }

  /** A jump that found no line end among the bytes it searched goes on to the end of the buffer. */
  predicate Lost(m: Machine) { m.ps.state.HeaderValue? && m.scan.Skipping? && m.scan.run >= MAX_HEADER }

  /** The header size check fails. The line end after a value has changed the state by then. */
  function TooLarge(m: Machine, nread: nat, atEnd: bool): Machine {
    var s := if m.ps.state.HeaderValue? && !m.scan.Fresh? && !atEnd then HeaderAlmostDone else m.ps.state;
    Machine(m.ps.(errno := HeaderOverflow, state := s), nread, m.log, Fresh, m.used, Failed)
  }

  /** One byte: count it, check the header size, then run the switch. A stopped machine stays as it is. */
  function Byte(m: Machine, ch: char): Machine {
    if !m.stop.Running? then m
    else if Lost(m) then
      Machine(m.ps, m.nread + 1, Push(m.log, Data(OnHeaderValue, [ch])), Skipping(m.scan.run + 1), m.used + 1, Running)
    else
      var n := Counted(m.ps.state, m.nread);
      if n > MAX_HEADER && Checked(m, ch) then TooLarge(m, n, false)
      else
        var r := Passes(m.ps, n, m.log, ch, m.scan);
        r.(used := m.used + r.used)
  }

  function Run(m: Machine, data: string): Machine
    decreases |data|
  {
    if data == "" then m else Run(Byte(m, data[0]), data[1..])
  }

  /** The end of a buffer: the header loops count one byte more when the buffer runs out inside them. */
  function EndBuffer(m: Machine): Machine {
    if !m.stop.Running? || m.scan.Fresh? then m
    else if m.nread + 1 > MAX_HEADER then TooLarge(m, m.nread + 1, true)
    else m.(nread := m.nread + 1, scan := Fresh)
  }

  /** The end of the input: http_parser_execute called with length zero. */
  function EndOfInput(p: Parser, nread: nat, log: seq<Event>): Machine {
    if p.state.BodyIdentityEof? then Machine(p, nread, Push(log, Notify(OnMessageComplete)), Fresh, 0, Running)
    else if p.state.Dead? || p.state.StartReqOrRes? || p.state.StartRes? || p.state.StartReq? then
      Machine(p, nread, log, Fresh, 0, Running)
    else Machine(p.(errno := InvalidEofState), nread, log, Fresh, 1, Failed)
  }

  /** The specification of one call of http_parser_execute. */
  function Call(p: Parser, nread: nat, log: seq<Event>, data: string): Machine {
    if !p.errno.OK? then Machine(p, nread, log, Fresh, 0, Failed)
    else if data == "" then EndOfInput(p, nread, log)
    else EndBuffer(Run(Machine(p, nread, log, Fresh, 0, Running), data))
  }

  // ---------- folding ----------

  lemma {:induction false} RunConcat(m: Machine, a: string, b: string)
    ensures Run(m, a + b) == Run(Run(m, a), b)
    decreases |a|
  {
    hide Byte;
    if a == "" {
      assert a + b == b;
    } else {
      assert (a + b)[0] == a[0] && (a + b)[1..] == a[1..] + b;
      RunConcat(Byte(m, a[0]), a[1..], b);
    }
  }

  lemma RunSnoc(m: Machine, a: string, ch: char)
    ensures Run(m, a + [ch]) == Byte(Run(m, a), ch)
  {
    hide Byte;
    RunConcat(m, a, [ch]);
    assert [ch][1..] == "";
    assert Run(Run(m, a), [ch]) == Run(Byte(Run(m, a), ch), "");
  }

  lemma {:induction false} RunStopped(m: Machine, data: string)
    requires !m.stop.Running?
    ensures Run(m, data) == m
    decreases |data|
  {
    hide Passes;
    if data != "" { RunStopped(m, data[1..]); }
  }

  /** A running machine has used every byte; a stopped one no more than there were. */
  lemma {:induction false} RunUsed(m: Machine, data: string)
    ensures var r := Run(m, data);
        m.used <= r.used <= m.used + |data| && (r.stop.Running? ==> r.used == m.used + |data|)
    decreases |data|
  {
    hide Passes;
    if !m.stop.Running? {
      RunStopped(m, data);
    } else if data != "" {
      PassesUsed(m.ps, Counted(m.ps.state, m.nread), m.log, data[0], m.scan);
      var r := Byte(m, data[0]);
      if r.stop.Running? { RunUsed(r, data[1..]); } else { RunStopped(r, data[1..]); }
    }
  }

  lemma {:induction false} PassesUsed(p: Parser, nread: nat, log: seq<Event>, ch: char, scan: Scan)
    ensures var r := Passes(p, nread, log, ch, scan); r.used <= 1 && (r.stop.Running? ==> r.used == 1)
    decreases Rank(p.state)
  {
    hide Step, LogAfter;
    var o := Step(p, ch, scan.Skipping?);
    StepDescends(p, ch, scan.Skipping?);
    if o.next.Again? {
      PassesUsed(o.st, if o.reset then 0 else nread, LogAfter(p.state, log, o, ch), ch, scan);
    }
  }
}
