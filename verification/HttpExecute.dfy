/** http_parser_execute as a class over struct http_parser, proved against the byte machine. */
module HttpExecute {
  import opened Chars
  import opened HttpTypes
  import opened HttpStep
  import opened HttpSpec
  import opened HttpInvariant
  import opened HttpMarks
  import opened HttpBulk
  import opened HttpTurns

  /** Buffers whose length cannot wrap the 32-bit counter nread. */
  const MAX_BUFFER: nat := 0x1_0000_0000 - MAX_HEADER - 2

  /** What one turn of the switch tells the loops around it. */
  datatype Turn = NextByte | SameByte | Return

  /** memchr: the first c among the `limit` bytes from `from`. */
  method Memchr(data: string, from: nat, limit: nat, c: char) returns (r: Option<nat>)
    requires from + limit <= |data|
    ensures r.Some? ==> from <= r.value < from + limit && data[r.value] == c && c !in data[from..r.value]
    ensures r.None? ==> c !in data[from..from + limit]
  {
    var i := from;
    while i < from + limit
      invariant from <= i <= from + limit && c !in data[from..i]
    {
      if data[i] == c { return Some(i); }
      assert data[from..i + 1] == data[from..i] + [data[i]];
      i := i + 1;
    }
    return None;
  }

  lemma LoopValueInv(m0: Machine, data: string, from: nat, p: nat, q: Parser, calls: seq<Event>, mark: Mark, scan: Scan)
    requires InLoopAt(m0, data, from, p, OnHeaderValue, q, calls, mark, scan) && q.state.HeaderValue?
    ensures Inv(q) && !q.hstate.HConnection? && !q.hstate.HTransferEncoding?
  {
    hide Looped, Run, Pending;
  }

  lemma GeneralByte(q: Parser, ch: char)
    requires q.hstate.HGeneral?
    ensures ValueByte(q, ch) == q
  {
  }

  /** How far the searches of a jump from p look. */
  function Horizon(data: string, p: nat): nat
    requires p <= |data|
  {
    if |data| - p < MAX_HEADER then |data| else p + MAX_HEADER
  }

  /** What the two searches of the jump establish. */
  lemma JumpClear(data: string, p: nat, limit: nat, cr: Option<nat>, lf: Option<nat>, far: nat)
    requires p + limit <= |data| && limit > 0 && data[p] != CR && data[p] != LF
    requires match cr
      case Some(i) => p <= i < p + limit && data[i] == CR && CR !in data[p..i]
      case None => CR !in data[p..p + limit]
    requires match lf
      case Some(i) => p <= i < p + limit && data[i] == LF && LF !in data[p..i]
      case None => LF !in data[p..p + limit]
    requires far == if cr.Some? then (if lf.Some? && cr.value >= lf.value then lf.value else cr.value)
                    else if lf.Some? then lf.value else p + limit
    ensures p < far <= p + limit && NoLineEnd(data[p + 1..far])
  {
    assert forall i :: p <= i < far ==> data[i] != CR && data[i] != LF by {
      forall i | p <= i < far ensures data[i] != CR && data[i] != LF {
        var endc := if cr.Some? then cr.value else p + limit;
        var endl := if lf.Some? then lf.value else p + limit;
        assert data[p..endc][i - p] == data[i] && data[p..endl][i - p] == data[i];
      }
    }
  }

  /**
   The jump over an uninteresting value: to the nearest line end within MAX_HEADER bytes, or else to the end of the
   buffer, which may lie beyond line ends that the bounded searches did not reach.
  */
  method Jump(data: string, p: nat) returns (next: nat)
    requires p < |data| && data[p] != CR && data[p] != LF
    ensures p < next <= |data|
    ensures next < |data| ==>
        next < Horizon(data, p) && (data[next] == CR || data[next] == LF) && NoLineEnd(data[p + 1..next])
    ensures next == |data| ==> NoLineEnd(data[p + 1..Horizon(data, p)])
  {
    var limit := if |data| - p < MAX_HEADER then |data| - p else MAX_HEADER;
    var cr := Memchr(data, p, limit, CR);
    var lf := Memchr(data, p, limit, LF);
    next := |data|;
    if cr.Some? {
      next := if lf.Some? && cr.value >= lf.value then lf.value else cr.value;
    } else if lf.Some? {
      next := lf.value;
    }
    JumpClear(data, p, limit, cr, lf, if cr.Some? || lf.Some? then next else p + limit);
  }

  /** What a jump has passed: no line end within the horizon. */
  lemma JumpReach(data: string, p: nat, next: nat)
    requires p < next <= |data|
    requires if next < |data| then next < Horizon(data, p) && NoLineEnd(data[p + 1..next])
        else NoLineEnd(data[p + 1..Horizon(data, p)])
    ensures forall i :: p < i < next && i < p + MAX_HEADER ==> data[i] != CR && data[i] != LF
    ensures next < |data| ==> next - p < MAX_HEADER
  {
    var t := if next < |data| then data[p + 1..next] else data[p + 1..Horizon(data, p)];
    forall i | p < i < next && i < p + MAX_HEADER ensures data[i] != CR && data[i] != LF {
      assert t[i - (p + 1)] == data[i];
    }
  }

  class HttpParser {
    var kind: Type
    var flags: Flags
    var state: State
    var hstate: HeaderState
    var index: nat
    var lenient: bool
    var nread: nat
    var clen: nat
    var major: nat
    var minor: nat
    var status: nat
    var meth: Method
    var errno: Errno
    var upgrade: bool
    var calls: seq<Event>  // the callbacks that ran, oldest first

    function Rec(): Parser
      reads this
    {
      Parser(kind, flags, state, hstate, index, lenient, clen, major, minor, status, meth, errno, upgrade)
    }

    /** http_parser_init */
    constructor (kind: Type)
      ensures Rec() == Init(kind) && nread == 0 && calls == []
      ensures Valid(Rec(), nread, Canonical(calls))
    {
      this.kind, flags, hstate, index, lenient, nread, clen := kind, NO_FLAGS, HGeneral, 0, false, 0, 0;
      state := match kind case Request => StartReq case Response => StartRes case Both => StartReqOrRes;
      major, minor, status, meth, errno, upgrade, calls := 0, 0, 0, DELETE, OK, false, [];
      new;
      InitValid(kind);
    }

    method Load(p: Parser)
      modifies this
      ensures Rec() == p && nread == old(nread) && calls == old(calls)
    {
      kind, flags, state, hstate, index, lenient := p.kind, p.flags, p.state, p.hstate, p.index, p.lenient;
      LoadNumbers(p);
    }

    method LoadNumbers(p: Parser)
      modifies this`clen, this`major, this`minor, this`status, this`meth, this`errno, this`upgrade
      ensures clen == p.clen && major == p.major && minor == p.minor && status == p.status && meth == p.meth
      ensures errno == p.errno && upgrade == p.upgrade
    {
      clen, major, minor, status, meth, errno, upgrade := p.clen, p.major, p.minor, p.status, p.meth, p.errno,
        p.upgrade;
    }

    /** The MARK, CALLBACK_DATA and CALLBACK_NOTIFY macros of one pass over byte p. A second mark is never set. */
    method Callbacks(data: string, p: nat, mark: Mark, o: Outcome) returns (mark': Mark)
      requires p < |data| && SpanOk(state, o) && MarkInv(mark, state, p)
      modifies this`calls
      ensures calls == CallsAfter(old(calls), mark, o, data, p) && mark' == MarkAfter(mark, o, p)
    {
      mark' := mark;
      if o.mark.Some? && mark'.NoMark? {
        mark' := At(o.mark.value, p);
      }
      assert o.mark.Some? ==> mark'.kind == o.mark.value;
      if mark'.At? && o.flush == Some(mark'.kind) {
        var end := if o.inclusive then p + 1 else p;
        calls := calls + [Data(mark'.kind, data[mark'.pos..end])];
        mark' := NoMark;
      }
      if o.note.Some? {
        calls := calls + [Notify(o.note.value)];
      }
    }

    /** One pass of the switch over byte p, for the states whose C code looks at this byte only. */
    method Pass(data: string, p: nat, mark: Mark, ghost m0: Machine, ghost glog: seq<Event>)
      returns (mark': Mark, turn: Turn, n: nat, ghost glog': seq<Event>)
      requires Mid(m0, data, p, Rec(), nread, calls, mark, glog) && p < |data|
      requires (state.HeaderField? ==> !IsToken(data[p])) && !state.HeaderValue?
      modifies this
      ensures turn.SameByte? ==> Mid(m0, data, p, Rec(), nread, calls, mark', glog') && Rank(state) < Rank(old(state))
      ensures turn.SameByte? ==> !state.HeaderField? && !state.HeaderValue?
      ensures turn.NextByte? ==> Before(m0, data, p + 1, Rec(), nread, calls, mark')
      ensures turn.Return? ==> Stopped(m0, data, n, Rec(), nread, calls) && n <= p + 1
    {
      hide Step, Run, Mid, Stopped, Before, EndBuffer, MachineInv, MarkInv, SpanOk, CallsAfter, MarkAfter, LogAfter,
           Pending;
      var o := Step(Rec(), data[p], false);
      PassOn(m0, data, p, Rec(), nread, calls, mark, glog);
      SkipElsewhere(Rec(), data[p], Run(m0, data[..p]).scan.Skipping?);
      if state.HeaderField? { FieldEnds(Rec(), data[p]); }
      glog' := LogAfter(state, glog, o, data[p]);
      mark' := Callbacks(data, p, mark, o);
      Load(o.st);
      if o.reset {
        nread := 0;
      }
      match o.next {
        case Advance => turn, n := NextByte, p;
        case Again => turn, n := SameByte, p;
        case Fail => turn, n := Return, p;
        case Exit => turn, n := Return, p + 1;
        case Fault => assert false;
      }
    }

    static lemma FieldEnds(p: Parser, ch: char)
      requires p.state.HeaderField? && !IsToken(ch)
      ensures ScanAfter(p, Step(p, ch, false).st, Fresh).Fresh? || Step(p, ch, false).next.Fail?
    {
      hide LineStart, DiscardWs, ValueStart, ValueStep, ValueLws, DiscardLws, HeadersEnd, BodyStart, Token, FieldByte,
           BodyStep, ResponseLine, RequestLine, UrlHead, UrlRest;
    }

    /** The loop over the bytes of a header name (s_header_field). */
    method FieldLoop(data: string, start: nat, mark: Mark, ghost m0: Machine)
      returns (p: nat, mark': Mark, turn: Turn, n: nat)
      requires start < |data| <= MAX_BUFFER && 0 < nread <= MAX_HEADER && state.HeaderField?
      requires Before(m0, data, start, Rec(), nread - 1, calls, mark)
      modifies this
      ensures turn.NextByte? ==> start <= p < |data| && Before(m0, data, p + 1, Rec(), nread, calls, mark')
      ensures turn.Return? ==> Stopped(m0, data, n, Rec(), nread, calls) && n <= |data|
      ensures !turn.SameByte?
    {
      hide Step, Run, Mid, Stopped, Before, EndBuffer, MachineInv, MarkInv, Pending, StateInv, Token;
      LoopEnter(m0, data, start, OnHeaderField, Rec(), nread - 1, calls, mark);
      ghost var m := Run(m0, data[..start]);
      ghost var scan := Fresh;
      p, mark' := start, mark;
      while p < |data| && IsToken(data[p])
        invariant start <= p <= |data| && InLoopAt(m0, data, start, p, OnHeaderField, Rec(), calls, mark, scan)
        invariant state.HeaderField? && !scan.Skipping? && nread == old(nread) && calls == old(calls)
      {
        FieldLoopOn(m0, data, start, p, Rec(), calls, mark, scan);
        var q := FieldByte(Rec(), Token(data[p]));
        index, hstate := q.index, q.hstate;
        scan := Scanning;
        p := p + 1;
      }
      p, mark', turn, n := FieldEnd(data, start, p, mark, m0, scan);
    }

    /** What follows the loop: the bytes are counted, and the byte that ended it is looked at. */
    method FieldEnd(data: string, start: nat, end: nat, mark: Mark, ghost m0: Machine, ghost scan: Scan)
      returns (p: nat, mark': Mark, turn: Turn, n: nat)
      requires start <= end <= |data| && start < |data| && state.HeaderField? && !scan.Skipping?
      requires end < |data| ==> !IsToken(data[end])
      requires InLoopAt(m0, data, start, end, OnHeaderField, Rec(), calls, mark, scan)
      requires nread == Run(m0, data[..start]).nread + 1
      modifies this
      ensures turn.NextByte? ==> start <= p < |data| && Before(m0, data, p + 1, Rec(), nread, calls, mark')
      ensures turn.Return? ==> Stopped(m0, data, n, Rec(), nread, calls) && n <= |data|
      ensures !turn.SameByte?
    {
      hide Step, Run, Mid, Stopped, Before, EndBuffer, MachineInv, MarkInv, Pending, StateInv, IsToken, InLoopAt;
      p, mark' := end, mark;
      nread := nread + (p - start);
      if nread > MAX_HEADER {
        LoopOverflow(m0, data, start, p, OnHeaderField, Rec(), calls, mark, scan);
        errno := HeaderOverflow;
        turn, n := Return, p;
        return;
      }
      if p == |data| {
        LoopEnd(m0, data, start, OnHeaderField, Rec(), calls, mark, scan);
        p := p - 1;
        turn, n := NextByte, p;
        return;
      }
      LoopStop(m0, data, start, p, OnHeaderField, Rec(), calls, mark, scan);
      ghost var glog := Run(m0, data[..p]).log;
      mark', turn, n, glog := Pass(data, p, mark, m0, glog);
    }

    /** The scan of s_header_value: up to a line end, the end of the buffer, or a rejected byte. */
    method ScanValue(data: string, start: nat, mark: Mark, ghost m0: Machine)
      returns (p: nat, h: HeaderState, ok: bool, ghost scan: Scan)
      requires start < |data| && state.HeaderValue?
      requires InLoopAt(m0, data, start, start, OnHeaderValue, Rec(), calls, mark, Fresh)
      modifies this`hstate, this`index, this`flags, this`clen, this`errno
      ensures start <= p <= |data|
      ensures ok ==> p == |data| || data[p] == CR || data[p] == LF
      ensures ok ==> InLoopAt(m0, data, start, p, OnHeaderValue, Rec().(hstate := h), calls, mark, scan)
      ensures ok && p < |data| ==> RunOf(scan) < MAX_HEADER
      ensures !ok ==> Stopped(m0, data, p, Rec(), nread, calls)
    {
      hide Run, Step, Stopped, InLoopAt, ValueByte, IsHeaderChar, StateInv;
      p, h, ok, scan := start, hstate, true, Fresh;
      while p < |data| && data[p] != CR && data[p] != LF
        invariant start <= p <= |data| && state.HeaderValue? && lenient == old(lenient)
        invariant InLoopAt(m0, data, start, p, OnHeaderValue, Rec().(hstate := h), calls, mark, scan)
        invariant scan.Skipping? && p < |data| ==> (data[p] == CR || data[p] == LF) && scan.run < MAX_HEADER
      {
        LoopValueInv(m0, data, start, p, Rec().(hstate := h), calls, mark, scan);
        if !lenient && !IsHeaderChar(data[p]) {
          RejectValue(data, start, p, mark, m0, h, scan);
          ok := false;
          return;
        }
        if h.HGeneral? {
          p, scan := JumpStep(data, start, p, mark, m0, h, scan);
        } else {
          h, ok, scan := ByteStep(data, start, p, mark, m0, h, scan);
          if !ok {
            return;
          }
          p := p + 1;
        }
      }
    }

    /** A byte that is not allowed in a value. */
    method RejectValue(data: string, start: nat, p: nat, mark: Mark, ghost m0: Machine, h: HeaderState,
            ghost scan: Scan)
      requires start <= p < |data| && state.HeaderValue? && data[p] != CR && data[p] != LF && !scan.Skipping?
      requires InLoopAt(m0, data, start, p, OnHeaderValue, Rec().(hstate := h), calls, mark, scan)
      requires !h.HConnection? && !h.HTransferEncoding? && !lenient && !IsHeaderChar(data[p])
      modifies this`errno
      ensures Stopped(m0, data, p, Rec(), nread, calls)
    {
      hide Run, Step, Stopped, InLoopAt, ValueByte, IsHeaderChar;
      ghost var q := Rec().(hstate := h);
      ValueRejects(q, data[p]);
      LoopFail(m0, data, start, p, OnHeaderValue, q, calls, mark, scan, Rec().(errno := InvalidHeaderToken));
      errno := InvalidHeaderToken;
    }

    /** The jump over a value that is not looked at. */
    method JumpStep(data: string, start: nat, p: nat, mark: Mark, ghost m0: Machine, h: HeaderState, ghost scan: Scan)
      returns (next: nat, ghost scan': Scan)
      requires start <= p < |data| && state.HeaderValue? && data[p] != CR && data[p] != LF && !scan.Skipping?
      requires InLoopAt(m0, data, start, p, OnHeaderValue, Rec().(hstate := h), calls, mark, scan)
      requires h.HGeneral? && (lenient || IsHeaderChar(data[p])) && errno.OK?
      ensures p < next <= |data| && scan' == Skipping(next - p)
      ensures InLoopAt(m0, data, start, next, OnHeaderValue, Rec().(hstate := h), calls, mark, scan')
      ensures next < |data| ==> (data[next] == CR || data[next] == LF) && next - p < MAX_HEADER
    {
      hide Run, InLoopAt, ValueByte, IsHeaderChar;
      ghost var q := Rec().(hstate := h);
      next := Jump(data, p);
      JumpReach(data, p, next);
      GeneralByte(q, data[p]);
      ValueLoopOn(m0, data, start, p, q, calls, mark, scan);
      JumpOn(m0, data, start, p, next, q, calls, mark);
      scan' := Skipping(next - p);
    }

    /** One byte of a value that is looked at. */
    method ByteStep(data: string, start: nat, p: nat, mark: Mark, ghost m0: Machine, h: HeaderState, ghost scan: Scan)
      returns (h': HeaderState, ok: bool, ghost scan': Scan)
      requires start <= p < |data| && state.HeaderValue? && data[p] != CR && data[p] != LF && !scan.Skipping?
      requires InLoopAt(m0, data, start, p, OnHeaderValue, Rec().(hstate := h), calls, mark, scan)
      requires !h.HGeneral? && !h.HConnection? && !h.HTransferEncoding? && (lenient || IsHeaderChar(data[p]))
      requires errno.OK?
      modifies this`hstate, this`index, this`flags, this`clen, this`errno
      ensures ok ==> InLoopAt(m0, data, start, p + 1, OnHeaderValue, Rec().(hstate := h'), calls, mark, scan')
      ensures ok ==> !scan'.Skipping?
      ensures !ok ==> Stopped(m0, data, p, Rec(), nread, calls)
    {
      hide Run, Step, Stopped, InLoopAt, ValueByte, IsHeaderChar;
      ghost var q := Rec().(hstate := h);
      ValueRejects(q, data[p]);
      var v := ValueByte(Rec().(hstate := h), data[p]);
      h', ok, scan' := v.hstate, v.errno.OK?, Scanning;
      if !ok {
        LoopFail(m0, data, start, p, OnHeaderValue, q, calls, mark, scan, v);
        hstate, index, flags, clen, errno := v.hstate, v.index, v.flags, v.clen, v.errno;
        return;
      }
      ValueLoopOn(m0, data, start, p, q, calls, mark, scan);
      index, flags, clen := v.index, v.flags, v.clen;
    }

    /** The bytes of a header value and the line end after it (s_header_value). */
    method ValueLoop(data: string, start: nat, mark: Mark, ghost m0: Machine)
      returns (p: nat, mark': Mark, turn: Turn, n: nat, ghost glog: seq<Event>)
      requires start < |data| <= MAX_BUFFER && 0 < nread <= MAX_HEADER && state.HeaderValue?
      requires Before(m0, data, start, Rec(), nread - 1, calls, mark)
      modifies this
      ensures turn.NextByte? ==> start <= p < |data| && Before(m0, data, p + 1, Rec(), nread, calls, mark')
      ensures turn.SameByte? ==>
          start <= p < |data| && Mid(m0, data, p, Rec(), nread, calls, mark', glog) && state.HeaderAlmostDone?
      ensures turn.Return? ==> Stopped(m0, data, n, Rec(), nread, calls) && n <= |data|
    {
      hide Step, Run, Mid, Stopped, Before, InLoopAt, StateInv, Pending, Looped, MarkInv;
      LoopEnter(m0, data, start, OnHeaderValue, Rec(), nread - 1, calls, mark);
      var h, ok;
      ghost var scan;
      glog, mark' := [], mark;
      p, h, ok, scan := ScanValue(data, start, mark, m0);
      if !ok {
        turn, n := Return, p;
        return;
      }
      p, mark', turn, n, glog := ValueEnd(data, start, p, mark, m0, h, scan);
    }

    /** What follows the scan: the callback at a line end, the count, the size check, and the byte itself. */
    method ValueEnd(data: string, start: nat, end: nat, mark: Mark, ghost m0: Machine, h: HeaderState, ghost scan: Scan)
      returns (p: nat, mark': Mark, turn: Turn, n: nat, ghost glog: seq<Event>)
      requires start <= end <= |data| && start < |data| && state.HeaderValue?
      requires end < |data| ==> (data[end] == CR || data[end] == LF) && RunOf(scan) < MAX_HEADER
      requires InLoopAt(m0, data, start, end, OnHeaderValue, Rec().(hstate := h), calls, mark, scan)
      requires nread == Run(m0, data[..start]).nread + 1
      modifies this
      ensures turn.NextByte? ==> start <= p < |data| && Before(m0, data, p + 1, Rec(), nread, calls, mark')
      ensures turn.SameByte? ==>
          start <= p < |data| && Mid(m0, data, p, Rec(), nread, calls, mark', glog) && state.HeaderAlmostDone?
      ensures turn.Return? ==> Stopped(m0, data, n, Rec(), nread, calls) && n <= |data|
    {
      hide Step, Run, Mid, Stopped, Before, InLoopAt, Notes;
      LoopMark(m0, data, start, end, OnHeaderValue, Rec().(hstate := h), calls, mark, scan);
      glog, p, mark' := [], end, mark;
      ghost var q, c := Rec().(hstate := h), calls;
      hstate := h;
      if p < |data| {
        state := HeaderAlmostDone;
      }
      if p < |data| && data[p] == CR {
        calls := calls + [Data(OnHeaderValue, data[mark.pos..p])];
        mark' := NoMark;
      }
      nread := nread + (p - start);
      if nread > MAX_HEADER {
        errno := HeaderOverflow;
        ValueOverflow(m0, data, start, p, q, c, mark, scan, Rec(), nread, calls);
        turn, n := Return, p;
        return;
      }
      if p == |data| {
        LoopEnd(m0, data, start, OnHeaderValue, q, c, mark, scan);
        p := p - 1;
        turn, n := NextByte, p;
        return;
      }
      if data[p] == LF {
        calls := calls + [Data(OnHeaderValue, data[mark.pos..p])];
        mark' := NoMark;
      }
      glog := ValueLineEnd(m0, data, start, p, q, c, mark, scan);
      turn, n := if data[p] == CR then NextByte else SameByte, p;
    }

    static lemma ValueOverflow(m0: Machine, data: string, from: nat, p: nat, q: Parser, calls: seq<Event>, mark: Mark,
            scan: Scan, e: Parser, r: nat, calls': seq<Event>)
      requires InLoopAt(m0, data, from, p, OnHeaderValue, q, calls, mark, scan) && q.state.HeaderValue?
      requires p < |data| ==> (data[p] == CR || data[p] == LF) && RunOf(scan) < MAX_HEADER
      requires Run(m0, data[..from]).nread + 1 + (p - from) > MAX_HEADER
      requires e.errno.HeaderOverflow? && e.state == OverflowState(data, p, q)
      requires mark.At? && mark.pos <= p <= |data|
      requires calls' == calls || calls' == calls + [Data(OnHeaderValue, data[mark.pos..p])]
      ensures Stopped(m0, data, p, e, r, calls')
    {
      hide Run, InLoopAt, Stopped, Notes;
      LoopOverflow(m0, data, from, p, OnHeaderValue, q, calls, mark, scan);
      if calls' != calls { NotesSnoc(calls, Data(OnHeaderValue, data[mark.pos..p])); }
    }

    static lemma LoopMark(m0: Machine, data: string, from: nat, p: nat, k: DataKind, q: Parser, calls: seq<Event>,
            mark: Mark, scan: Scan)
      requires InLoopAt(m0, data, from, p, k, q, calls, mark, scan)
      ensures mark.At? && mark.kind == k && mark.pos <= from
    {
      hide Run, Looped;
    }

    /** The strides over the bytes of a body (s_body_identity, s_chunk_data, s_body_identity_eof). */
    method BodyLoop(data: string, start: nat, mark: Mark, ghost m0: Machine)
      returns (p: nat, mark': Mark, turn: Turn, n: nat, ghost glog: seq<Event>)
      requires start < |data| && InBody(state) && Before(m0, data, start, Rec(), nread, calls, mark)
      modifies this
      ensures turn.NextByte? ==> start <= p < |data| && Before(m0, data, p + 1, Rec(), nread, calls, mark')
      ensures turn.SameByte? ==>
          start <= p < |data| && Mid(m0, data, p, Rec(), nread, calls, mark', glog) && state.MessageDone?
      ensures turn.Return? ==> false
    {
      hide Step, Run, Mid, Stopped, Before, EndBuffer, MachineInv, StateInv, Pending;
      glog, n := [], start;
      mark' := if mark.NoMark? then At(OnBody, start) else mark;
      if state.BodyIdentityEof? {
        EofTurn(m0, data, start, Rec(), nread, calls, mark);
        p := |data| - 1;
        turn := NextByte;
        return;
      }
      BodyLengths(m0, data, start, Rec(), nread, calls, mark);
      assert clen != 0 && clen != ULLONG_MAX;
      var toRead := if clen < |data| - start then clen else |data| - start;
      if toRead < clen || state.ChunkData? {
        StrideTurn(m0, data, start, toRead, Rec(), nread, calls, mark);
      } else {
        glog := LastStride(m0, data, start, toRead, Rec(), nread, calls, mark);
      }
      clen := clen - toRead;
      p := start + toRead - 1;
      turn := NextByte;
      if clen == 0 {
        if state.ChunkData? {
          state := ChunkDataAlmostDone;
        } else {
          state := MessageDone;
          calls := calls + [Data(OnBody, data[mark'.pos..p + 1])];
          mark' := NoMark;
          turn := SameByte;
        }
      }
    }

    /** The body of the C loop: count a header byte, then run the switch until the byte, or the stride, is done. */
    method Advance(data: string, start: nat, mark: Mark, ghost m0: Machine)
      returns (p: nat, mark': Mark, stopped: bool, n: nat)
      requires start < |data| <= MAX_BUFFER && Before(m0, data, start, Rec(), nread, calls, mark)
      modifies this
      ensures !stopped ==> start <= p < |data| && Before(m0, data, p + 1, Rec(), nread, calls, mark')
      ensures stopped ==> Stopped(m0, data, n, Rec(), nread, calls) && n <= |data|
    {
      hide Run, Mid, Stopped, Before, Step, Pending;
      p, mark', n, stopped := start, mark, start, true;
      ghost var nread0 := nread;
      CountBound(m0, data, p, Rec(), nread, calls, mark);
      if ParsingHeader(state) {
        nread := nread + 1;
        if nread > MAX_HEADER {
          TooLong(m0, data, p, Rec(), nread0, calls, mark);
          errno := HeaderOverflow;
          return;
        }
      }
      var turn := SameByte;
      ghost var glog := Run(m0, data[..p]).log;
      if state.HeaderField? {
        p, mark', turn, n := FieldLoop(data, p, mark, m0);
      } else if state.HeaderValue? {
        p, mark', turn, n, glog := ValueLoop(data, p, mark, m0);
      } else if InBody(state) {
        p, mark', turn, n, glog := BodyLoop(data, p, mark, m0);
      } else {
        Enter(m0, data, p, Rec(), nread0, calls, mark);
      }
      while turn.SameByte?
        invariant !turn.Return? ==> start <= p < |data|
        invariant turn.SameByte? ==> Mid(m0, data, p, Rec(), nread, calls, mark', glog)
        invariant turn.SameByte? ==> !state.HeaderField? && !state.HeaderValue?
        invariant turn.NextByte? ==> Before(m0, data, p + 1, Rec(), nread, calls, mark')
        invariant turn.Return? ==> Stopped(m0, data, n, Rec(), nread, calls) && n <= |data|
        decreases if turn.SameByte? then 1 + Rank(state) else 0
      {
        mark', turn, n, glog := Pass(data, p, mark', m0, glog);
      }
      stopped := turn.Return?;
    }

    /** http_parser_execute for a non-empty buffer. */
    method Scan(data: string) returns (n: nat)
      requires 0 < |data| <= MAX_BUFFER && errno.OK? && Valid(Rec(), nread, Canonical(calls))
      modifies this
      ensures Meets(Call(old(Rec()), old(nread), old(Canonical(calls)), data), Rec(), nread, Canonical(calls), n)
      ensures n <= |data|
    {
      hide Run, Stopped, Before, Valid, Meets, Call;
      ghost var q0, nr0, c0 := Rec(), nread, calls;
      ghost var m0 := StartOf(q0, nr0, c0);
      Begin(data, q0, nr0, c0);
      var mark := FirstMark(state);
      var p := 0;
      while p < |data|
        invariant p <= |data| && Before(m0, data, p, Rec(), nread, calls, mark)
        decreases |data| - p
      {
        var stopped;
        p, mark, stopped, n := Advance(data, p, mark, m0);
        if stopped {
          StopMeets(data, q0, nr0, c0, Rec(), nread, calls, n);
          return;
        }
        p := p + 1;
      }
      FinishMeets(data, q0, nr0, c0, Rec(), nread, calls, mark);
      if mark.At? {
        calls := calls + [Data(mark.kind, data[mark.pos..])];
      }
      return |data|;
    }

    /** http_parser_execute */
    method Execute(data: string) returns (n: nat)
      requires |data| <= MAX_BUFFER && Valid(Rec(), nread, Canonical(calls))
      modifies this
      ensures Meets(Call(old(Rec()), old(nread), old(Canonical(calls)), data), Rec(), nread, Canonical(calls), n)
      ensures data != "" ==> n <= |data|
      ensures data != "" && errno.OK? && Call(old(Rec()), old(nread), old(Canonical(calls)), data).stop.Running? ==>
          n == |data|
      ensures Valid(Rec(), nread, Canonical(calls))
    {
      hide Run, Inv;
      CallKeeps(Rec(), nread, Canonical(calls), data);
      RunUsed(StartOf(Rec(), nread, calls), data);
      if !errno.OK? {
        return 0;
      }
      if |data| == 0 {
        if state.BodyIdentityEof? {
          CanonicalSnoc(calls, Notify(OnMessageComplete));
          calls := calls + [Notify(OnMessageComplete)];
          return 0;
        } else if state.Dead? || state.StartReqOrRes? || state.StartRes? || state.StartReq? {
          return 0;
        }
        errno := InvalidEofState;
        return 1;
      }
      n := Scan(data);
    }
  }
}
