/**
 The consumer of wrk: header_field, header_value and response_body pack what the parser reports into growable buffers,
 with NUL separators between names and values; response_complete and script_response unpack them for Lua.
*/
module WrkResponse {
  import opened HttpTypes
  import opened HttpStep
  import opened HttpSpec
  import opened HttpRequests
  import opened HttpChunks
  import opened HttpShape
  import opened HttpInvariant
  import opened HttpSplit
  import opened HttpExecute

  // ---------- what the buffers hold ----------

  /** The kind of header callback that came last. */
  datatype Side = FIELD | VALUE

  datatype Packed = Packed(text: string, side: Side)

  const NUL: string := ['\0']

  function Pack1(p: Packed, e: Event): Packed {
    if e.Data? && e.kind.OnHeaderField? then Packed(p.text + (if p.side.VALUE? then NUL else "") + e.text, FIELD)
    else if e.Data? && e.kind.OnHeaderValue? then Packed(p.text + (if p.side.FIELD? then NUL else "") + e.text, VALUE)
    else p
  }

  /** The header buffer after a list of callbacks. */
  function Pack(calls: seq<Event>): Packed {
    if calls == [] then Packed("", FIELD) else Pack1(Pack(calls[..|calls| - 1]), calls[|calls| - 1])
  }

  /** Splitting a data callback in two changes nothing. */
  lemma PackPush(log: seq<Event>, e: Event)
    ensures Pack(Push(log, e)) == Pack1(Pack(log), e)
  {
    var l := Push(log, e);
    if e.Data? && EndsWith(log, e.kind) {
      var init, last := log[..|log| - 1], log[|log| - 1];
      assert l[..|l| - 1] == init && l[|l| - 1] == Data(e.kind, last.text + e.text);
      var p := Pack(init);
      var sep := if e.kind.OnHeaderField? then (if p.side.VALUE? then NUL else "")
          else (if p.side.FIELD? then NUL else "");
      assert p.text + sep + (last.text + e.text) == p.text + sep + last.text + "" + e.text;
    } else {
      assert l[..|l| - 1] == log;
    }
  }

  lemma {:induction false} PackCanonical(calls: seq<Event>)
    ensures Pack(Canonical(calls)) == Pack(calls)
    decreases |calls|
  {
    if calls != [] {
      PackCanonical(calls[..|calls| - 1]);
      PackPush(Canonical(calls[..|calls| - 1]), calls[|calls| - 1]);
    }
  }

  lemma {:induction false} BodyConcat(a: seq<Event>, b: seq<Event>)
    ensures BodyOf(a + b) == BodyOf(a) + BodyOf(b)
    decreases |a|
  {
    if a == [] {
      assert a + b == b;
    } else {
      assert (a + b)[1..] == a[1..] + b;
      BodyConcat(a[1..], b);
    }
  }

  lemma BodyPush(log: seq<Event>, e: Event)
    ensures BodyOf(Push(log, e)) == BodyOf(log) + BodyOf([e])
  {
    BodyConcat(log, [e]);
    if e.Data? && EndsWith(log, e.kind) {
      var init, last := log[..|log| - 1], log[|log| - 1];
      var merged := Data(e.kind, last.text + e.text);
      assert log == init + [last];
      BodyConcat(init, [last]);
      BodyConcat(init, [merged]);
      assert [last][1..] == [] && [e][1..] == [] && [merged][1..] == [];
    }
  }

  lemma {:induction false} BodyCanonical(calls: seq<Event>)
    ensures BodyOf(Canonical(calls)) == BodyOf(calls)
    decreases |calls|
  {
    if calls != [] {
      var init, e := calls[..|calls| - 1], calls[|calls| - 1];
      assert calls == init + [e];
      BodyCanonical(init);
      BodyPush(Canonical(init), e);
      BodyConcat(init, [e]);
    }
  }

  // ---------- what they should hold ----------

  function Encode(hs: seq<Header>): string {
    if hs == [] then "" else var h := hs[|hs| - 1]; Encode(hs[..|hs| - 1]) + h.name + NUL + h.value + NUL
  }

  /** The packed text of an orderly log. */
  lemma {:induction false} PackedPairs(log: seq<Event>)
    ensures match PhaseOf(log)
      case Named => Pack(log) == Packed(Encode(Pairs(log)) + LastName(log), FIELD)
      case Ready => (if Pairs(log) == [] then Pack(log) == Packed("", FIELD)
                     else Pack(log).side.VALUE? && Pack(log).text + NUL == Encode(Pairs(log)))
      case Disorder => true
    decreases |log|
  {
    if log != [] {
      var init, e := log[..|log| - 1], log[|log| - 1];
      PackedPairs(init);
      if e.Data? && e.kind.OnHeaderField? && PhaseOf(init).Ready? {
        assert "" + e.text == e.text;
      }
      if e.Data? && e.kind.OnHeaderValue? && PhaseOf(init).Named? {
        var hs := Pairs(log);
        assert hs[..|hs| - 1] == Pairs(init);
      }
    }
  }

  // ---------- order of the callbacks ----------

  predicate IsHeaderCall(e: Event, k: DataKind) { e.Data? && e.kind == k }

  predicate HasField(calls: seq<Event>) { exists e :: e in calls && IsHeaderCall(e, OnHeaderField) }

  /** No header value comes before every header name. */
  predicate InOrder(calls: seq<Event>) {
    forall i :: 0 <= i < |calls| && IsHeaderCall(calls[i], OnHeaderValue) ==> HasField(calls[..i])
  }

  lemma PushOrder(log: seq<Event>, e: Event)
    ensures HasField(Push(log, e)) <==> HasField(log) || IsHeaderCall(e, OnHeaderField)
    ensures PhaseOf(Push(log, e)).Disorder? <== PhaseOf(log).Disorder?
  {
    hide HasField;
    if e.Data? && EndsWith(log, e.kind) {
      var init, last := log[..|log| - 1], log[|log| - 1];
      assert log == init + [last];
      HasFieldSnoc(init, last);
      HasFieldSnoc(init, Data(e.kind, last.text + e.text));
      PushPhase(log, e.kind, e.text);
    } else {
      assert (log + [e])[..|log|] == log;
      HasFieldSnoc(log, e);
    }
  }

  lemma {:induction false} FieldSeen(log: seq<Event>)
    ensures PhaseOf(log).Named? || (PhaseOf(log).Ready? && EndsWith(log, OnHeaderValue)) ==> HasField(log)
    decreases |log|
  {
    if log != [] {
      var init, e := log[..|log| - 1], log[|log| - 1];
      FieldSeen(init);
      if IsHeaderCall(e, OnHeaderField) { assert e in log; }
      if HasField(init) {
        var f :| f in init && IsHeaderCall(f, OnHeaderField);
        assert f in log;
      }
    }
  }

  lemma {:induction false} FieldOfCalls(calls: seq<Event>)
    ensures HasField(Canonical(calls)) <==> HasField(calls)
    decreases |calls|
  {
    if calls != [] {
      var init, e := calls[..|calls| - 1], calls[|calls| - 1];
      FieldOfCalls(init);
      PushOrder(Canonical(init), e);
      HasFieldSnoc(init, e);
      assert calls == init + [e];
    }
  }

  /** After a header name there is a pair, or it is the last name. */
  lemma {:induction false} FieldPaired(log: seq<Event>)
    requires HasField(log) && !PhaseOf(log).Disorder?
    ensures PhaseOf(log).Named? || Pairs(log) != []
    decreases |log|
  {
    hide HasField;
    if log == [] {
      assert HasField([]) ==> false by { NoField(); }
    } else {
      var init, e := log[..|log| - 1], log[|log| - 1];
      assert log == init + [e];
      HasFieldSnoc(init, e);
      if HasField(init) { FieldPaired(init); }
    }
  }

  lemma NoField()
    ensures !HasField([])
  {
  }

  /** A list of callbacks with an orderly canonical form is in order. */
  lemma {:induction false} OrderOfCalls(calls: seq<Event>)
    requires !PhaseOf(Canonical(calls)).Disorder?
    ensures InOrder(calls)
    decreases |calls|
  {
    hide Push, PhaseOf, HasField;
    if calls != [] {
      var init, e := calls[..|calls| - 1], calls[|calls| - 1];
      PushOrder(Canonical(init), e);
      OrderOfCalls(init);
      FieldOfCalls(init);
      if IsHeaderCall(e, OnHeaderValue) {
        FieldSeen(Canonical(init));
        PushPhase(Canonical(init), OnHeaderValue, e.text);
        assert HasField(init);
      }
      forall i | 0 <= i < |calls| && IsHeaderCall(calls[i], OnHeaderValue) ensures HasField(calls[..i]) {
        if i < |init| {
          assert calls[..i] == init[..i] && calls[i] == init[i];
        }
      }
    }
  }

  lemma HasFieldSnoc(calls: seq<Event>, e: Event)
    ensures HasField(calls + [e]) <==> HasField(calls) || IsHeaderCall(e, OnHeaderField)
  {
    var l := calls + [e];
    if HasField(calls) {
      var f :| f in calls && IsHeaderCall(f, OnHeaderField);
      assert f in l;
    }
    if IsHeaderCall(e, OnHeaderField) { assert e in l; }
    if HasField(l) {
      var f :| f in l && IsHeaderCall(f, OnHeaderField);
      assert f in calls || f == e;
    }
  }

  // ---------- from one response to the next ----------

  /** What a connection keeps behind a response: body bytes, and the text in a used header buffer up to the next NUL. */
  datatype Kept = Kept(body: string, left: Option<string>)

  datatype Delivery = Nothing | Given(pairs: seq<Header>, text: string)

  function UpToNul(s: string): (r: string)
    ensures '\0' !in r
    decreases |s|
  {
    if s == "" || s[0] == '\0' then "" else [s[0]] + UpToNul(s[1..])
  }

  /** What script_response leaves in the header buffer, from its second byte on. */
  function Stale(hs: seq<Header>): string {
    var t := Encode(hs); if t == "" then "" else UpToNul(t[1..])
  }

  /**
   What Lua gets for a response with these headers and this body, and what is kept. A response without headers is not
   delivered as long as there is no header buffer; later it is delivered with a left-over of an earlier response.
  */
  function Deliver(k: Kept, hs: seq<Header>, body: string): (Delivery, Kept) {
    if hs != [] then (Given(hs, k.body + body), Kept("", Some(Stale(hs))))
    else if k.left.Some? then (Given([Header("", k.left.value)], k.body + body), k.(body := ""))
    else (Nothing, k.(body := k.body + body))
  }

  /** Lua gets just what the response holds if and only if the response has a header and no body was kept before it. */
  lemma DeliveredExactly(k: Kept, hs: seq<Header>, body: string)
    ensures Deliver(k, hs, body).0 == Given(hs, body) <==> hs != [] && k.body == ""
  {
    if hs != [] { assert k.body + body == body ==> |k.body| == 0; }
  }

  /** A response without its events: headers and body. */
  datatype Reply = Reply(headers: seq<Header>, body: string)

  function TextOf(d: Delivery): string { if d.Given? then d.text else "" }

  /** The texts that Lua gets for these responses, one after the other, and what is kept behind them. */
  function DeliverAll(k: Kept, rs: seq<Reply>): (string, Kept)
    decreases |rs|
  {
    if rs == [] then ("", k)
    else
      var (d, k') := Deliver(k, rs[0].headers, rs[0].body);
      var (text, k'') := DeliverAll(k', rs[1..]);
      (TextOf(d) + text, k'')
  }

  function Bodies(rs: seq<Reply>): string { if rs == [] then "" else rs[0].body + Bodies(rs[1..]) }

  lemma DeliveryConserves(k: Kept, hs: seq<Header>, body: string)
    ensures var (d, k') := Deliver(k, hs, body); TextOf(d) + k'.body == k.body + body
  {
  }

  /**
   Over any number of responses no byte of a body is lost or delivered twice, though it may come with a later response.
  */
  lemma {:induction false} BodiesConserved(k: Kept, rs: seq<Reply>)
    ensures var (text, k') := DeliverAll(k, rs); text + k'.body == k.body + Bodies(rs)
    decreases |rs|
  {
    hide Deliver, TextOf;
    if rs == [] {
      assert "" + k.body == k.body + "";
    } else {
      var r, rest := rs[0], rs[1..];
      var (d, k') := Deliver(k, r.headers, r.body);
      var (text, k'') := DeliverAll(k', rest);
      BodiesConserved(k', rest);
      DeliveryConserves(k, r.headers, r.body);
      assert TextOf(d) + text + k''.body == TextOf(d) + (text + k''.body);
      assert TextOf(d) + (k'.body + Bodies(rest)) == TextOf(d) + k'.body + Bodies(rest);
      assert k.body + r.body + Bodies(rest) == k.body + (r.body + Bodies(rest));
    }
  }

  // ---------- buffers ----------

  /** The growable buffer of script.c. A NULL buffer has length zero. */
  class Buffer {
    var data: array<char>
    var used: nat  // cursor - buffer

    ghost predicate Valid()
      reads this
    {
      used <= data.Length
    }

    /** There is room for one more byte. */
    predicate Room()
      reads this
    {
      used < data.Length
    }

    ghost function Contents(): string
      requires Valid()
      reads this, data
    {
      data[..used]
    }

    /** An unused header buffer: none at all, or one in which this text ends with NUL, from the second byte on. */
    ghost predicate Left(left: Option<string>)
      reads this, data
    {
      match left
      case None => data.Length == 0
      case Some(t) => |t| + 2 <= data.Length && data[1..|t| + 2] == t + NUL && '\0' !in t
    }

    constructor ()
      ensures Valid() && Contents() == "" && data.Length == 0 && fresh(data)
    {
      data := new char[0];
      used := 0;
    }

    /** buffer_append: grows by 1024 until the text fits with room for a separator. */
    method Append(text: string)
      requires Valid()
      modifies this, data
      ensures Valid() && Room() && Contents() == old(Contents()) + text
      ensures data == old(data) || fresh(data)
    {
      var length := data.Length;
      while used + |text| + 1 >= length
        invariant length >= data.Length
        decreases used + |text| + 1 - length
      {
        length := length + 1024;
      }
      if length > data.Length {
        var grown := new char[length];
        forall i | 0 <= i < data.Length { grown[i] := data[i]; }
        assert grown[..used] == data[..used];
        data := grown;
      }
      forall i | 0 <= i < |text| { data[used + i] := text[i]; }
      assert data[..used] == old(data[..used]);
      used := used + |text|;
      assert data[..used] == old(data[..used]) + text;
    }

    /** `*cursor++ = 0`, which checks nothing. */
    method Separate()
      requires Valid() && Room()
      modifies this, data
      ensures Valid() && data == old(data) && Contents() == old(Contents()) + NUL
      ensures data[used..] == old(data[used + 1..])
    {
      data[used] := '\0';
      used := used + 1;
      assert data[..used] == old(data[..used]) + NUL;
    }

    /** buffer_reset */
    method Reset()
      requires Valid()
      modifies this
      ensures Valid() && Contents() == "" && data == old(data)
    {
      used := 0;
    }

    /** buffer_pushlstring: the text up to the next NUL, and the position behind it. It does not look at the cursor. */
    method PushString(from: nat, ghost text: string, ghost rest: string) returns (word: string, next: nat)
      requires from <= data.Length && data[from..] == text + NUL + rest && '\0' !in text
      ensures word == text && next == from + |text| + 1 <= data.Length && data[next..] == rest
    {
      ghost var c := data[from..];
      var end := from;
      while data[end] != '\0'
        invariant from <= end <= from + |text| && from + |text| < data.Length
        decreases from + |text| - end
      {
        assert data[end] == c[end - from];
        end := end + 1;
      }
      assert data[end] == c[end - from];
      word := data[from..end];
      next := end + 1;
      assert forall i :: from <= i < end ==> data[i] == c[i - from] == text[i - from];
      assert word == text;
      assert data[next..] == c[|text| + 1..] == rest;
    }

    /** The loop of script_response: it stops when the cursor is reached or passed. */
    method Unpack(ghost hs: seq<Header>) returns (pairs: seq<Header>)
      requires Valid() && Encode(hs) <= data[..] && Ends(hs, used)
      requires forall h :: h in hs ==> '\0' !in h.name && '\0' !in h.value
      ensures pairs == hs
    {
      hide Encode, EncodeFrom, Ends;
      pairs := [];
      var c: nat := 0;
      ghost var tail := data[|Encode(hs)|..];
      Unpacking(hs, data[..], tail);
      while c < used
        invariant |pairs| <= |hs| && pairs == hs[..|pairs|] && c == |Encode(pairs)| <= data.Length
        invariant data[c..] == EncodeFrom(hs, |pairs|) + tail
        decreases |hs| - |pairs|
      {
        ghost var k := |pairs|;
        StopsBehind(hs, used, k);
        ghost var rest := EncodeFrom(hs, k + 1) + tail;
        NextHeader(hs, k, tail);
        var name, value;
        name, c := PushString(c, hs[k].name, hs[k].value + NUL + rest);
        value, c := PushString(c, hs[k].value, rest);
        pairs := pairs + [Header(name, value)];
        assert pairs == hs[..k + 1];
      }
      StopsBehind(hs, used, |pairs|);
    }
  }

  lemma Unpacking(hs: seq<Header>, data: string, tail: string)
    requires Encode(hs) <= data && tail == data[|Encode(hs)|..]
    ensures data[0..] == EncodeFrom(hs, 0) + tail && Encode([]) == "" && hs[..0] == []
  {
    hide EncodeFrom;
    EncodeTail(hs, 0);
    assert hs[..0] == [];
    assert data == Encode(hs) + tail;
  }

  lemma NextHeader(hs: seq<Header>, k: nat, tail: string)
    requires k < |hs|
    ensures EncodeFrom(hs, k) + tail == hs[k].name + NUL + (hs[k].value + NUL + (EncodeFrom(hs, k + 1) + tail))
    ensures |Encode(hs[..k + 1])| == |Encode(hs[..k])| + |hs[k].name| + |hs[k].value| + 2
  {
    assert hs[..k + 1][..k] == hs[..k];
  }

  /** The cursor stands inside the last pair, or behind it. */
  predicate Ends(hs: seq<Header>, used: nat) {
    if hs == [] then used == 0 else |Encode(hs[..|hs| - 1])| < used <= |Encode(hs)|
  }

  lemma {:induction false} EncodeGrows(hs: seq<Header>, k: nat)
    requires k <= |hs|
    ensures |Encode(hs[..k])| <= |Encode(hs)|
    decreases |hs|
  {
    if k == |hs| {
      assert hs[..k] == hs;
    } else {
      EncodeGrows(hs[..|hs| - 1], k);
      assert hs[..|hs| - 1][..k] == hs[..k];
    }
  }

  /** The position behind k pairs is in front of the cursor exactly when there are more. */
  lemma StopsBehind(hs: seq<Header>, used: nat, k: nat)
    requires Ends(hs, used) && k <= |hs|
    ensures |Encode(hs[..k])| < used <==> k < |hs|
  {
    if k == |hs| {
      assert hs[..k] == hs;
    } else {
      EncodeGrows(hs[..|hs| - 1], k);
      assert hs[..|hs| - 1][..k] == hs[..k];
    }
  }

  // ---------- the connection's callbacks ----------

  class Connection {
    const headers: Buffer
    const body: Buffer
    var state: Side

    ghost predicate Valid()
      reads this, headers, body
    {
      headers.Valid() && body.Valid() && headers != body && headers.data != body.data
    }

    /**
     What the buffers hold: what was kept, and the packed headers and the body of the callbacks since the last
     response.
    */
    ghost predicate Holds(k: Kept, calls: seq<Event>)
      reads this, headers, body, headers.data, body.data
    {
      && Valid() && Pack(calls) == Packed(headers.Contents(), state) && body.Contents() == k.body + BodyOf(calls)
      && if HasField(calls) then headers.Room() else headers.Left(k.left)
    }

    constructor ()
      ensures Holds(Kept("", None), []) && fresh(headers) && fresh(body) && fresh(headers.data) && fresh(body.data)
    {
      headers := new Buffer();
      body := new Buffer();
      state := FIELD;
    }

    /** header_field */
    method HeaderField(at: string)
      requires Valid() && (state.VALUE? ==> headers.Room())
      modifies this, headers, headers.data
      ensures Valid() && headers.Room() && (headers.data == old(headers.data) || fresh(headers.data))
      ensures headers.Contents() == old(headers.Contents()) + (if old(state).VALUE? then NUL else "") + at
      ensures state.FIELD?
    {
      if state.VALUE? {
        headers.Separate();
        state := FIELD;
      }
      headers.Append(at);
    }

    /** header_value */
    method HeaderValue(at: string)
      requires Valid() && (state.FIELD? ==> headers.Room())
      modifies this, headers, headers.data
      ensures Valid() && headers.Room() && (headers.data == old(headers.data) || fresh(headers.data))
      ensures headers.Contents() == old(headers.Contents()) + (if old(state).FIELD? then NUL else "") + at
      ensures state.VALUE?
    {
      if state.FIELD? {
        headers.Separate();
        state := VALUE;
      }
      headers.Append(at);
    }

    /** One callback. */
    method Handle(ghost k: Kept, ghost calls: seq<Event>, e: Event)
      requires Holds(k, calls) && InOrder(calls + [e])
      modifies this, headers, body, headers.data, body.data
      ensures Holds(k, calls + [e])
      ensures headers.data == old(headers.data) || fresh(headers.data)
      ensures body.data == old(body.data) || fresh(body.data)
    {
      hide InOrder, HasField, Pack, BodyOf;
      OneMore(calls, e);
      if IsHeaderCall(e, OnHeaderField) {
        HeaderField(e.text);
      } else if IsHeaderCall(e, OnHeaderValue) {
        HeaderValue(e.text);
      } else if IsHeaderCall(e, OnBody) {
        body.Append(e.text);
        assert k.body + BodyOf(calls) + e.text == k.body + (BodyOf(calls) + e.text);
      }
    }

    /** The callbacks of one response, one after the other. Every separator is written inside the buffer. */
    method Receive(ghost k: Kept, calls: seq<Event>)
      requires Holds(k, []) && InOrder(calls)
      modifies this, headers, body, headers.data, body.data
      ensures Holds(k, calls)
      ensures headers.data == old(headers.data) || fresh(headers.data)
      ensures body.data == old(body.data) || fresh(body.data)
    {
      hide Holds, HasField;
      var i := 0;
      while i < |calls|
        invariant i <= |calls| && Holds(k, calls[..i])
        invariant headers.data == old(headers.data) || fresh(headers.data)
        invariant body.data == old(body.data) || fresh(body.data)
      {
        assert calls[..i + 1] == calls[..i] + [calls[i]];
        OrderPrefix(calls, i + 1);
        Handle(k, calls[..i], calls[i]);
        i := i + 1;
      }
      assert calls[..i] == calls;
    }

    /** The end of response_complete: script_response unpacks the headers and resets the buffers. */
    method Respond(ghost k: Kept, ghost hs: seq<Header>) returns (pairs: seq<Header>, text: string)
      requires Valid() && hs != [] && Encode(hs) <= headers.data[..] && Ends(hs, headers.used)
      requires forall h :: h in hs ==> '\0' !in h.name && '\0' !in h.value
      modifies this, headers, body
      ensures pairs == hs && text == old(body.Contents()) && Valid() && headers.data == old(headers.data)
      ensures body.data == old(body.data)
      ensures headers.Contents() == "" && body.Contents() == "" && state.FIELD?
    {
      pairs := headers.Unpack(hs);
      text := body.data[..body.used];
      headers.Reset();
      body.Reset();
      state := FIELD;
    }

    /** The separator behind the last value, and what follows it. */
    method Flush(ghost k: Kept, ghost hs: seq<Header>) returns (pairs: seq<Header>, text: string)
      requires Valid() && headers.Room()
      requires if hs == [] then k.left.Some? && headers.Left(k.left) && headers.used == 0
          else headers.Contents() + NUL == Encode(hs)
      requires forall h :: h in hs ==> '\0' !in h.name && '\0' !in h.value
      modifies this, headers, body, headers.data
      ensures pairs == (if hs == [] then [Header("", k.left.value)] else hs) && text == old(body.Contents())
      ensures Valid() && headers.data == old(headers.data) && body.data == old(body.data)
      ensures headers.Contents() == "" && body.Contents() == "" && state.FIELD?
      ensures headers.Left(Some(if hs == [] then k.left.value else Stale(hs)))
    {
      hide UpToNul, Encode, Ends, Stale;
      headers.Separate();
      ghost var shown := hs;
      if hs == [] {
        shown := [Header("", k.left.value)];
        Shown(headers.data[..], k.left.value);
      } else {
        Packs(headers.data[..], headers.used, hs);
      }
      pairs, text := Respond(k, shown);
    }

    /** response_complete: nothing without a header buffer; else what it holds goes to Lua. */
    method Complete(ghost k: Kept, ghost calls: seq<Event>) returns (d: Delivery)
      requires Holds(k, calls) && PhaseOf(Canonical(calls)).Ready?
      requires forall h :: h in Pairs(Canonical(calls)) ==> '\0' !in h.name && '\0' !in h.value
      modifies this, headers, body, headers.data
      ensures var r := Deliver(k, Pairs(Canonical(calls)), BodyOf(calls)); d == r.0 && Holds(r.1, [])
      ensures headers.data == old(headers.data) && body.data == old(body.data)
    {
      hide Canonical, PhaseOf, HasField, Pairs, BodyOf, InOrder, Encode, Stale;
      ghost var hs := Pairs(Canonical(calls));
      Unpackable(calls);
      NothingHeld();
      if headers.data.Length > 0 {
        var pairs, text := Flush(k, hs);
        d := Given(pairs, text);
      } else {
        d := Nothing;
      }
    }
  }

  /** One callback more. */
  lemma OneMore(calls: seq<Event>, e: Event)
    requires InOrder(calls + [e])
    ensures Pack(calls + [e]) == Pack1(Pack(calls), e)
    ensures BodyOf(calls + [e]) == BodyOf(calls) + (if IsHeaderCall(e, OnBody) then e.text else "")
    ensures HasField(calls + [e]) <==> HasField(calls) || IsHeaderCall(e, OnHeaderField)
    ensures IsHeaderCall(e, OnHeaderValue) ==> HasField(calls)
    ensures Pack(calls).side.VALUE? ==> HasField(calls)
  {
    var all := calls + [e];
    assert all[..|calls|] == calls && all[|calls|] == e;
    HasFieldSnoc(calls, e);
    BodyConcat(calls, [e]);
    assert [e][1..] == [] && BodyOf([]) == "";
    PackSide(calls, all);
  }

  lemma OrderPrefix(calls: seq<Event>, i: nat)
    requires InOrder(calls) && i <= |calls|
    ensures InOrder(calls[..i])
  {
    forall j | 0 <= j < i && IsHeaderCall(calls[..i][j], OnHeaderValue) ensures HasField(calls[..i][..j]) {
      assert calls[..i][..j] == calls[..j];
    }
  }

  /** What the packed text of an orderly list of callbacks is. */
  lemma Unpackable(calls: seq<Event>)
    requires PhaseOf(Canonical(calls)).Ready?
    ensures var hs := Pairs(Canonical(calls));
      && (HasField(calls) <==> hs != [])
      && if hs == [] then Pack(calls) == Packed("", FIELD)
          else Pack(calls).side.VALUE? && Pack(calls).text + NUL == Encode(hs)
  {
    hide PhaseOf, HasField, Pack, Pairs, Canonical, Encode;
    var log := Canonical(calls);
    PackCanonical(calls);
    PackedPairs(log);
    FieldOfCalls(calls);
    if Pairs(log) != [] { PairsSeen(log); }
    if HasField(log) { FieldPaired(log); }
  }

  lemma NothingHeld()
    ensures Pack([]) == Packed("", FIELD) && BodyOf([]) == "" && !HasField([])
  {
  }

  /** A buffer that holds the packed headers, and what it leaves. */
  lemma Packs(data: string, used: nat, hs: seq<Header>)
    requires used <= |data| && hs != [] && data[..used] == Encode(hs)
    ensures Encode(hs) <= data && Ends(hs, used)
    ensures var t := Stale(hs); |t| + 2 <= |data| && data[1..|t| + 2] == t + NUL && '\0' !in t
  {
    hide UpToNul, Encode;
    LastIsNul(hs);
    var rest := Encode(hs)[1..];
    assert rest[|rest| - 1] == '\0';
    NulEnds(rest);
    var t := Stale(hs);
    assert t == UpToNul(rest) && rest == data[1..used];
    SliceOf(data, used, |t| + 1);
  }

  lemma SliceOf(data: string, used: nat, n: nat)
    requires 1 + n <= used <= |data|
    ensures data[1..used][..n] == data[1..n + 1]
  {
  }

  lemma LastIsNul(hs: seq<Header>)
    requires hs != []
    ensures var t := Encode(hs); |t| >= 2 && t[|t| - 1] == '\0' && |Encode(hs[..|hs| - 1])| < |t|
  {
  }

  /** A text with a NUL goes up to it. */
  lemma {:induction false} NulEnds(s: string)
    requires '\0' in s
    ensures var t := UpToNul(s); |t| < |s| && s[..|t| + 1] == t + NUL
    decreases |s|
  {
    if s[0] != '\0' {
      NulEnds(s[1..]);
      var t := UpToNul(s[1..]);
      assert s[..|t| + 2] == [s[0]] + s[1..][..|t| + 1];
    }
  }

  /** A buffer without packed headers shows the text that was left in it. */
  lemma Shown(data: string, t: string)
    requires |t| + 2 <= |data| && data[0] == '\0' && data[1..|t| + 2] == t + NUL
    ensures var hs := [Header("", t)]; Encode(hs) <= data && Ends(hs, 1)
  {
    var hs := [Header("", t)];
    assert hs[..0] == [];
    assert Encode(hs) == Encode([]) + "" + NUL + t + NUL == NUL + (t + NUL);
    assert data[..|t| + 2] == [data[0]] + data[1..|t| + 2];
  }

  lemma {:induction false} PackSide(calls: seq<Event>, all: seq<Event>)
    requires InOrder(all) && calls <= all
    ensures Pack(calls).side.VALUE? ==> HasField(calls)
    decreases |calls|
  {
    hide HasField;
    if calls != [] {
      var init, e := calls[..|calls| - 1], calls[|calls| - 1];
      PackSide(init, all);
      HasFieldSnoc(init, e);
      assert calls == init + [e] && all[..|init|] == init && all[|init|] == e;
    }
  }

  /** The part of an encoding that starts with header k. */
  function EncodeFrom(hs: seq<Header>, k: nat): string
    requires k <= |hs|
    decreases |hs| - k
  {
    if k == |hs| then "" else hs[k].name + NUL + (hs[k].value + NUL + EncodeFrom(hs, k + 1))
  }

  /** The encoding of one header. */
  function EncodeOne(h: Header): string { h.name + NUL + (h.value + NUL) }

  lemma EncodeSnoc(hs: seq<Header>, k: nat)
    requires k < |hs|
    ensures Encode(hs[..k + 1]) == Encode(hs[..k]) + EncodeOne(hs[k])
    ensures EncodeFrom(hs, k) == EncodeOne(hs[k]) + EncodeFrom(hs, k + 1)
  {
    hide EncodeFrom;
    var t, h := hs[..k + 1], hs[k];
    assert t[|t| - 1] == h && t[..|t| - 1] == hs[..k];
    assert Encode(t) == Encode(hs[..k]) + h.name + NUL + h.value + NUL;
    EncodeFirst(hs, k);
  }

  lemma EncodeFirst(hs: seq<Header>, k: nat)
    requires k < |hs|
    ensures EncodeFrom(hs, k) == EncodeOne(hs[k]) + EncodeFrom(hs, k + 1)
  {
    var h, rest := hs[k], EncodeFrom(hs, k + 1);
    assert EncodeFrom(hs, k) == h.name + NUL + (h.value + NUL + rest);
  }

  lemma {:induction false} EncodeTail(hs: seq<Header>, k: nat)
    requires k <= |hs|
    ensures Encode(hs) == Encode(hs[..k]) + EncodeFrom(hs, k)
    decreases |hs| - k
  {
    hide Encode, EncodeOne, EncodeFrom;
    if k == |hs| {
      assert hs[..k] == hs && EncodeFrom(hs, k) == "" by { EncodeEnd(hs); }
    } else {
      EncodeTail(hs, k + 1);
      EncodeSnoc(hs, k);
      assert Encode(hs[..k]) + EncodeOne(hs[k]) + EncodeFrom(hs,
          k + 1) == Encode(hs[..k]) + (EncodeOne(hs[k]) + EncodeFrom(hs, k + 1));
    }
  }

  lemma EncodeEnd(hs: seq<Header>)
    ensures hs[..|hs|] == hs && EncodeFrom(hs, |hs|) == ""
  {
  }

  lemma {:induction false} PairsSeen(log: seq<Event>)
    requires !PhaseOf(log).Disorder? && Pairs(log) != []
    ensures HasField(log)
    decreases |log|
  {
    var init, e := log[..|log| - 1], log[|log| - 1];
    if IsHeaderCall(e, OnHeaderValue) {
      FieldSeen(init);
    } else {
      PairsSeen(init);
    }
    var f :| f in init && IsHeaderCall(f, OnHeaderField);
    assert f in log;
  }

  // ---------- from the socket to Lua ----------

  lemma {:induction false} FeedSnoc(m: Machine, pieces: seq<string>, x: string)
    ensures Feed(m, pieces + [x]) == NextCall(Feed(m, pieces), x)
    ensures AllRunning(m, pieces + [x]) <==> AllRunning(m, pieces) && NextCall(Feed(m, pieces), x).stop.Running?
    decreases |pieces|
  {
    hide Call;
    if pieces == [] {
      assert (pieces + [x])[1..] == [];
      assert AllRunning(NextCall(m, x), []) <==> NextCall(m, x).stop.Running?;
    } else {
      assert (pieces + [x])[1..] == pieces[1..] + [x];
      FeedSnoc(NextCall(m, pieces[0]), pieces[1..], x);
    }
  }

  lemma {:induction false} FeedShape(m: Machine, pieces: seq<string>)
    requires ShapeInv(m.ps.state, m.log) && AllRunning(m, pieces)
    ensures var r := Feed(m, pieces); ShapeInv(r.ps.state, r.log)
    decreases |pieces|
  {
    hide Call, ShapeInv;
    if pieces != [] {
      CallShape(m.ps, m.nread, m.log, pieces[0]);
      FeedShape(NextCall(m, pieces[0]), pieces[1..]);
    }
  }

  /** A response parser before its first byte. */
  function FirstCall(): Machine { Machine(Init(Response), 0, [], Fresh, 0, Running) }

  /** The events of a response that arrives in one piece. */
  function WholeLog(data: string): seq<Event> { Call(Init(Response), 0, [], data).log }

  /** The events of exactly one complete message. */
  predicate OneMessage(log: seq<Event>) {
    log != [] && log[|log| - 1] == Notify(OnMessageComplete) && Completed(log) == 1
  }

  /**
   The reads of one response are all accepted, if the response is accepted in one piece, exactly when its cuts fit. They
   lead to the log of the whole response, in which names and values have taken turns.
  */
  lemma CutsDeliver(pieces: seq<string>)
    requires Pieces(pieces) && pieces != [] && Call(Init(Response), 0, [], Concat(pieces)).stop.Running?
    ensures AllRunning(FirstCall(), pieces) <==> CutsFit(FirstCall(), 0, pieces)
    ensures AllRunning(FirstCall(), pieces) ==>
              var r := Feed(FirstCall(), pieces); r.log == WholeLog(Concat(pieces)) && PhaseOf(r.log) != Disorder
    ensures OneMessage(WholeLog(Concat(pieces))) && AllRunning(FirstCall(), pieces) ==>
        PhaseOf(WholeLog(Concat(pieces))).Ready?
  {
    hide Call, AllRunning, CutsFit, Feed, SurplusOf;
    InitValid(Response);
    SplitMany(Init(Response), 0, [], pieces);
    InitShape(Response);
    if AllRunning(FirstCall(), pieces) { FeedShape(FirstCall(), pieces); }
  }

  /** Every read that comes before others is accepted too. */
  lemma {:induction false} PrefixRunning(m: Machine, pieces: seq<string>, i: nat)
    requires AllRunning(m, pieces) && i <= |pieces|
    ensures AllRunning(m, pieces[..i]) && Feed(m, pieces[..i]).stop.Running?
    ensures i < |pieces| ==> NextCall(Feed(m, pieces[..i]), pieces[i]).stop.Running?
    ensures i < |pieces| ==> Feed(m, pieces[..i + 1]) == NextCall(Feed(m, pieces[..i]), pieces[i])
    decreases |pieces| - i
  {
    hide Call, Feed, AllRunning;
    if i == |pieces| {
      assert pieces[..i] == pieces;
      FeedRunning(m, pieces);
    } else {
      PrefixRunning(m, pieces, i + 1);
      assert pieces[..i + 1] == pieces[..i] + [pieces[i]];
      FeedSnoc(m, pieces[..i], pieces[i]);
      FeedRunning(m, pieces[..i]);
    }
  }

  lemma RunningOk(m: Machine, data: string)
    requires Valid(m.ps, m.nread, m.log) && data != "" && NextCall(m, data).stop.Running?
    ensures NextCall(m, data).ps.errno.OK?
  {
    hide Run, Inv;
    CallKeeps(m.ps, m.nread, m.log, data);
    RunKeeps(Machine(m.ps, m.nread, m.log, Fresh, 0, Running), data);
    EndKeeps(Run(Machine(m.ps, m.nread, m.log, Fresh, 0, Running), data));
    ErrnoOk(EndBuffer(Run(Machine(m.ps, m.nread, m.log, Fresh, 0, Running), data)));
  }

  /**
   One response, read in pieces of any sizes whose cuts fit: the parser accepts them all, every separator is written
   inside the header buffer, and Lua gets the headers and the body that the response holds when it is read at once, with
   what the connection kept of earlier responses.
  */
  method ReadResponse(connection: Connection, ghost k: Kept, pieces: seq<string>) returns (d: Delivery)
    requires connection.Holds(k, [])
    requires pieces != [] && forall i :: 0 <= i < |pieces| ==> 0 < |pieces[i]| <= MAX_BUFFER
    requires CutsFit(FirstCall(), 0, pieces)
    requires Call(Init(Response), 0, [], Concat(pieces)).stop.Running? && OneMessage(WholeLog(Concat(pieces)))
    requires forall h :: h in Pairs(WholeLog(Concat(pieces))) ==> '\0' !in h.name && '\0' !in h.value
    modifies connection, connection.headers, connection.body, connection.headers.data, connection.body.data
    ensures var log := WholeLog(Concat(pieces));
      var r := Deliver(k, Pairs(log), BodyOf(log)); d == r.0 && connection.Holds(r.1, [])
  {
    hide Call, Valid, Feed, AllRunning, CutsFit, OneMessage, Connection.Holds, Pairs, BodyOf, PhaseOf, InOrder, Deliver;
    CutsDeliver(pieces);
    var parser := new HttpParser(Response);
    var i := 0;
    assert Feed(FirstCall(), pieces[..0]) == FirstCall() by { FeedNothing(FirstCall()); }
    while i < |pieces|
      invariant i <= |pieces| && AllRunning(FirstCall(), pieces)
      invariant var r := Feed(FirstCall(), pieces[..i]);
        parser.Rec() == r.ps && parser.nread == r.nread && Canonical(parser.calls) == r.log
      invariant Valid(parser.Rec(), parser.nread, Canonical(parser.calls))
      modifies parser
    {
      PrefixRunning(FirstCall(), pieces, i);
      RunningOk(Feed(FirstCall(), pieces[..i]), pieces[i]);
      var n := parser.Execute(pieces[i]);
      i := i + 1;
    }
    assert pieces[..i] == pieces;
    OrderOfCalls(parser.calls);
    BodyCanonical(parser.calls);
    connection.Receive(k, parser.calls);
    d := connection.Complete(k, parser.calls);
  }

  lemma FeedNothing(m: Machine)
    ensures Feed(m, []) == m
  {
  }
}
