/**
 Forge's master and its workers (src/master.c, src/net.c, src/worker.c) as a system of steps. The master accepts sockets
 and sends each over a channel to one worker; the workers register, serve and close them. The kernel counts, for each
 socket, the descriptors and messages that refer to it.
*/
module Handoff {

  const RECV_BUF: nat := 8192

  /** A forge_conn_t, with its buffer reduced to the number of bytes in it. */
  datatype Conn = Conn(sock: nat, rlen: nat, keepAlive: bool)

  // ---------- handle_read ----------

  /** What became of a request: incomplete, not a GET, or served with the given outcome. */
  datatype Request = Incomplete | NotGet | Served(keepAlive: bool, sent: bool)

  /** What read() delivers. */
  datatype Input = Bytes(n: nat, request: Request) | EndOfFile | WouldBlock | Failed

  /**
   read() delivers at most what was asked for, and does not report zero bytes otherwise than as the end of the file.
  */
  predicate Possible(c: Conn, i: Input) { i.Bytes? ==> 0 < i.n <= RECV_BUF - c.rlen - 1 }

  /** The connection after handle_read, before it is closed if it is not to be kept alive. */
  function AfterRead(c: Conn, i: Input): Conn {
    match i
    case Bytes(n, request) =>
      if c.rlen + n >= RECV_BUF - 1 then c.(rlen := c.rlen + n, keepAlive := false)
      else (match request
            case Incomplete => c.(rlen := c.rlen + n)
            case NotGet => c.(rlen := c.rlen + n, keepAlive := false)
            case Served(ka, sent) => c.(rlen := 0, keepAlive := ka && sent))
    case WouldBlock => c
    case EndOfFile => c.(keepAlive := false)
    case Failed => c.(keepAlive := false)
  }

  /** A connection that may stay registered: there is room for another read. */
  predicate Ready(c: Conn) { c.keepAlive && c.rlen < RECV_BUF - 1 }

  class Connection {
    var rbuf: array<char>
    var rlen: nat
    var keepAlive: bool

    ghost predicate Valid()
      reads this
    {
      rbuf.Length == RECV_BUF && rlen < RECV_BUF - 1 && keepAlive
    }

    constructor ()
      ensures Valid() && rlen == 0 && fresh(rbuf)
    {
      rbuf := new char[RECV_BUF];
      rlen := 0;
      keepAlive := true;
    }

    /** read(c->fd, c->rbuf + c->rlen, RECV_BUF - c->rlen - 1), which brings `data`. */
    method Fill(data: string)
      requires Valid() && |data| <= RECV_BUF - rlen - 1
      modifies rbuf
      ensures rbuf[..rlen + |data|] == old(rbuf[..rlen]) + data
    {
      forall i | 0 <= i < |data| { rbuf[rlen + i] := data[i]; }
    }

    /** handle_read, up to conn_close. Its loop has no second iteration: every branch leaves it. */
    method HandleRead(input: Input, data: string, sock: nat) returns (close: bool)
      requires Valid() && Possible(Conn(sock, rlen, keepAlive), input) && (input.Bytes? ==> |data| == input.n)
      modifies this`rlen, this`keepAlive, rbuf
      ensures Conn(sock, rlen, keepAlive) == AfterRead(old(Conn(sock, rlen, keepAlive)), input)
      ensures close == !keepAlive && rbuf == old(rbuf)
      ensures !close ==> Valid() && (rlen > old(rlen) ==> rbuf[..rlen] == old(rbuf[..rlen]) + data)
    {
      match input {
        case Bytes(n, request) =>
          Fill(data);
          rlen := rlen + n;
          if rlen >= RECV_BUF - 1 {
            keepAlive := false;
          } else if request.Incomplete? {
          } else if request.NotGet? {
            keepAlive := false;
          } else {
            keepAlive := request.keepAlive;
            if !request.sent {
              keepAlive := false;
            }
            rlen := 0;
          }
        case EndOfFile =>
          keepAlive := false;
        case WouldBlock =>
        case Failed =>
          keepAlive := false;
      }
      close := !keepAlive;
    }
  }

  // ---------- the system ----------

  /** One entry of a worker's epoll batch. */
  datatype Event = Control | OnConn(ptr: nat, hangup: bool, input: bool)

  /** A worker: its allocated and registered connections by address, and the rest of the batch it works on. */
  datatype Worker = Worker(conns: map<nat, Conn>, batch: seq<Event>)

  datatype Master = Idle | Accepted(sock: nat, target: nat) | Sent(sock: nat)

  /** Sockets are numbered in the order in which they are accepted; refs holds the kernel's count of each. */
  datatype System = System(next: nat, attempts: seq<nat>, master: Master, queues: seq<seq<nat>>, workers: seq<Worker>,
    refs: seq<int>)

  /** What a worker does with a message: registers the socket at a new address, or gives it up. */
  datatype Receipt = Registered(ptr: nat) | NoMemory | NotAdded | Lost

  datatype Move =
    | Accept
    | Send(ok: bool)
    | CloseCopy
    | Poll(w: nat, events: seq<Event>)
    | Receive(w: nat, receipt: Receipt)
    | NoMessage(w: nat)
    | Handle(w: nat, input: Input)

  function Bump(refs: seq<int>, s: nat, d: int): seq<int> { if s < |refs| then refs[s := refs[s] + d] else refs }

  /** epoll reports registered connections, and each at most once. */
  predicate Reportable(w: Worker, events: seq<Event>) {
    && (forall i :: 0 <= i < |events| && events[i].OnConn? ==> events[i].ptr in w.conns)
    && (forall i, j :: 0 <= i < j < |events| && events[i].OnConn? && events[j].OnConn? ==>
                         events[i].ptr != events[j].ptr)
  }

  function SetWorker(s: System, w: nat, to: Worker): System
    requires w < |s.workers|
  {
    s.(workers := s.workers[w := to])
  }

  /** conn_close: the descriptor is closed and the connection is freed. */
  function CloseConn(s: System, w: nat, ptr: nat): System
    requires w < |s.workers| && ptr in s.workers[w].conns && s.workers[w].batch != []
  {
    var k := s.workers[w];
    SetWorker(s, w, Worker(k.conns - {ptr}, k.batch[1..])).(refs := Bump(s.refs, k.conns[ptr].sock, -1))
  }

  /** The control branch of the batch loop, for one message. A lost descriptor ends the branch. */
  function ReceiveOne(s: System, w: nat, receipt: Receipt): System
    requires w < |s.workers| && w < |s.queues| && s.queues[w] != [] && s.workers[w].batch != []
  {
    var k, sock := s.workers[w], s.queues[w][0];
    var t := s.(queues := s.queues[w := s.queues[w][1..]]);
    match receipt
    case Registered(ptr) => SetWorker(t, w, k.(conns := k.conns[ptr := Conn(sock, 0, true)]))
    case Lost => SetWorker(t, w, k.(batch := k.batch[1..])).(refs := Bump(s.refs, sock, -1))
    case _ => t.(refs := Bump(s.refs, sock, -1))
  }

  /** The connection branch of the batch loop. */
  function HandleOne(s: System, w: nat, e: Event, input: Input): System
    requires w < |s.workers| && s.workers[w].batch != [] && e.OnConn? && e.ptr in s.workers[w].conns
  {
    var k := s.workers[w];
    if e.hangup then CloseConn(s, w, e.ptr)
    else if !e.input then SetWorker(s, w, k.(batch := k.batch[1..]))
    else
      var c := AfterRead(k.conns[e.ptr], input);
      if !c.keepAlive then CloseConn(s, w, e.ptr)
      else SetWorker(s, w, Worker(k.conns[e.ptr := c], k.batch[1..]))
  }

  /** Whether a move can happen. That a handled connection is allocated is not asked here: it is proved. */
  predicate Enabled(s: System, m: Move) {
    match m
    case Accept => s.master.Idle?
    case Send(ok) => s.master.Accepted?
    case CloseCopy => s.master.Sent?
    case Poll(w, events) => w < |s.workers| && s.workers[w].batch == [] && Reportable(s.workers[w], events)
    case Receive(w, receipt) =>
      w < |s.workers| && w < |s.queues| && s.queues[w] != [] && s.workers[w].batch != []
        && s.workers[w].batch[0].Control?
      && (receipt.Registered? ==> receipt.ptr !in s.workers[w].conns)
    case NoMessage(w) => w < |s.workers| && s.workers[w].batch != [] && s.workers[w].batch[0].Control?
    case Handle(w, input) =>
      w < |s.workers| && s.workers[w].batch != [] && s.workers[w].batch[0].OnConn?
      && var ptr := s.workers[w].batch[0].ptr;
         (ptr in s.workers[w].conns ==> Possible(s.workers[w].conns[ptr], input))
  }

  function Next(s: System, m: Move): System
    requires Enabled(s, m) && Inv(s)
  {
    match m
    case Accept =>
      s.(master := Accepted(|s.refs|, s.next), next := (s.next + 1) % |s.workers|,
         attempts := s.attempts[s.next := s.attempts[s.next] + 1], refs := s.refs + [1])
    case Send(ok) =>
      var Accepted(sock, target) := s.master;
      if ok then s.(master := Sent(sock), queues := s.queues[target := s.queues[target] + [sock]],
          refs := Bump(s.refs, sock, 1))
      else s.(master := Sent(sock))
    case CloseCopy => s.(master := Idle, refs := Bump(s.refs, s.master.sock, -1))
    case Poll(w, events) => SetWorker(s, w, s.workers[w].(batch := events))
    case Receive(w, receipt) => ReceiveOne(s, w, receipt)
    case NoMessage(w) => SetWorker(s, w, s.workers[w].(batch := s.workers[w].batch[1..]))
    case Handle(w, input) => HandleOne(s, w, s.workers[w].batch[0], input)
  }

  // ---------- the invariant ----------

  /** Worker w serves socket k. */
  predicate Serves(w: Worker, k: nat) { exists ptr :: ptr in w.conns && w.conns[ptr].sock == k }

  predicate MasterHolds(m: Master, k: nat) { !m.Idle? && m.sock == k }

  function One(b: bool): int { if b then 1 else 0 }

  /** The master's descriptor, the message and the worker's descriptor. Socket k can only be with worker k mod n. */
  function Holders(s: System, k: nat): int
    requires |s.workers| > 0 && |s.queues| == |s.workers|
  {
    var w := k % |s.workers|;
    One(MasterHolds(s.master, k)) + One(k in s.queues[w]) + One(Serves(s.workers[w], k))
  }

  /** How many of the first n sockets went to worker w of k. */
  function TurnsOf(n: nat, k: nat, w: nat): nat
    requires k > 0
  {
    if n == 0 then 0 else TurnsOf(n - 1, k, w) + (if (n - 1) % k == w then 1 else 0)
  }

  predicate MasterInv(s: System) {
    && |s.workers| > 0 && |s.queues| == |s.workers| == |s.attempts| && s.next == |s.refs| % |s.workers|
    && (forall w :: 0 <= w < |s.workers| ==> s.attempts[w] == TurnsOf(|s.refs|, |s.workers|, w))
    && (!s.master.Idle? ==> s.master.sock < |s.refs|)
    && (s.master.Accepted? ==> s.master.sock == |s.refs| - 1 && s.master.target == s.master.sock % |s.workers|)
  }

  /** Messages wait in the order of acceptance, and only those for this worker. */
  predicate QueueInv(s: System, w: nat)
    requires |s.workers| > 0 && w < |s.queues|
  {
    && (forall i, j :: 0 <= i < j < |s.queues[w]| ==> s.queues[w][i] < s.queues[w][j])
    && (forall i :: 0 <= i < |s.queues[w]| ==>
                      s.queues[w][i] < |s.refs| && s.queues[w][i] % |s.workers| == w
                        && !(s.master.Accepted? && s.queues[w][i] == s.master.sock))
  }

  /** No two connections have one socket. */
  predicate Injective(conns: map<nat, Conn>) {
    forall p, q :: p in conns && q in conns && conns[p].sock == conns[q].sock ==> p == q
  }

  /**
   A worker's connections: different sockets, all its own and received earlier than what is waiting; all can read more.
  */
  predicate ConnsInv(s: System, w: nat)
    requires |s.workers| > 0 && w < |s.workers| && w < |s.queues|
  {
    var conns := s.workers[w].conns;
    && Injective(conns)
    && (forall p :: p in conns ==>
          && Ready(conns[p]) && conns[p].sock < |s.refs| && conns[p].sock % |s.workers| == w
          && !(s.master.Accepted? && conns[p].sock == s.master.sock)
          && (s.queues[w] != [] ==> conns[p].sock < s.queues[w][0]))
  }

  predicate Inv(s: System) {
    && MasterInv(s)
    && (forall w :: 0 <= w < |s.workers| ==> QueueInv(s, w) && ConnsInv(s, w) && Reportable(s.workers[w],
        s.workers[w].batch))
    && (forall k :: 0 <= k < |s.refs| ==> s.refs[k] == Holders(s, k))
  }
  // ---------- every step keeps it ----------

  lemma AcceptKeeps(s: System)
    requires Inv(s) && s.master.Idle?
    ensures Inv(Next(s, Accept))
  {
    var t, n := Next(s, Accept), |s.refs|;
    NextTurn(n, |s.workers|);
    forall w | 0 <= w < |t.workers| ensures t.attempts[w] == TurnsOf(|t.refs|, |t.workers|, w) {
    }
    forall w | 0 <= w < |t.workers| ensures QueueInv(t, w) && ConnsInv(t, w) {
      assert QueueInv(s, w) && ConnsInv(s, w);
    }
    forall k | 0 <= k < |t.refs| ensures t.refs[k] == Holders(t, k) {
      var w := k % |s.workers|;
      assert QueueInv(s, w) && ConnsInv(s, w);
      if k < n { assert s.refs[k] == Holders(s, k); }
    }
  }

  lemma NextTurn(n: nat, k: nat)
    requires k > 0
    ensures (n % k + 1) % k == (n + 1) % k
  {
    DivStep(n, k);
    if n % k < k - 1 { Quotient(n % k + 1, k, 0, n % k + 1); } else { Quotient(k, k, 1, 0); }
  }

  /** One worker's part of the invariant. */
  predicate WorkerInv(s: System, w: nat)
    requires |s.workers| > 0 && w < |s.workers| && w < |s.queues|
  {
    QueueInv(s, w) && ConnsInv(s, w) && Reportable(s.workers[w], s.workers[w].batch)
  }

  lemma SendWorker(s: System, ok: bool, w: nat)
    requires Inv(s) && s.master.Accepted? && w < |s.workers|
    ensures WorkerInv(Next(s, Send(ok)), w)
  {
    hide Holders, Serves, TurnsOf;
    assert QueueInv(s, w) && ConnsInv(s, w) && Reportable(s.workers[w], s.workers[w].batch);
  }

  lemma SendRefs(s: System, ok: bool, k: nat)
    requires Inv(s) && s.master.Accepted? && k < |s.refs|
    ensures Next(s, Send(ok)).refs[k] == Holders(Next(s, Send(ok)), k)
  {
    hide TurnsOf, Serves, Reportable;
    var t, w := Next(s, Send(ok)), k % |s.workers|;
    assert s.refs[k] == Holders(s, k) && QueueInv(s, w);
    if ok && w == s.master.target {
      assert k in t.queues[w] <==> k in s.queues[w] || k == s.master.sock;
    }
  }

  lemma SendKeeps(s: System, ok: bool)
    requires Inv(s) && s.master.Accepted?
    ensures Inv(Next(s, Send(ok)))
  {
    hide Holders, TurnsOf, QueueInv, ConnsInv, Reportable;
    var t := Next(s, Send(ok));
    forall w | 0 <= w < |t.workers|
      ensures QueueInv(t, w) && ConnsInv(t, w) && Reportable(t.workers[w], t.workers[w].batch)
    {
      SendWorker(s, ok, w);
    }
    forall k | 0 <= k < |t.refs| ensures t.refs[k] == Holders(t, k) {
      SendRefs(s, ok, k);
    }
  }

  lemma CloseCopyWorker(s: System, w: nat)
    requires Inv(s) && s.master.Sent? && w < |s.workers|
    ensures WorkerInv(Next(s, CloseCopy), w)
  {
    hide Holders, Serves, TurnsOf;
    assert QueueInv(s, w) && ConnsInv(s, w) && Reportable(s.workers[w], s.workers[w].batch);
  }

  lemma CloseCopyRefs(s: System, k: nat)
    requires Inv(s) && s.master.Sent? && k < |s.refs|
    ensures Next(s, CloseCopy).refs[k] == Holders(Next(s, CloseCopy), k)
  {
    hide TurnsOf, Serves, Reportable, QueueInv, ConnsInv;
    assert s.refs[k] == Holders(s, k);
  }

  lemma CloseCopyKeeps(s: System)
    requires Inv(s) && s.master.Sent?
    ensures Inv(Next(s, CloseCopy))
  {
    hide Holders, TurnsOf, QueueInv, ConnsInv, Reportable;
    var t := Next(s, CloseCopy);
    forall w | 0 <= w < |t.workers|
      ensures QueueInv(t, w) && ConnsInv(t, w) && Reportable(t.workers[w], t.workers[w].batch)
    {
      CloseCopyWorker(s, w);
    }
    forall k | 0 <= k < |t.refs| ensures t.refs[k] == Holders(t, k) {
      CloseCopyRefs(s, k);
    }
  }

  /** Steps of one worker that leave its connections and messages alone. */
  lemma BatchKeeps(s: System, w: nat, batch: seq<Event>)
    requires Inv(s) && w < |s.workers| && Reportable(s.workers[w], batch)
    ensures Inv(SetWorker(s, w, s.workers[w].(batch := batch)))
  {
    var t := SetWorker(s, w, s.workers[w].(batch := batch));
    forall v | 0 <= v < |t.workers|
      ensures QueueInv(t, v) && ConnsInv(t, v) && Reportable(t.workers[v], t.workers[v].batch)
    {
      hide Holders, Serves, TurnsOf;
      assert QueueInv(s, v) && ConnsInv(s, v) && Reportable(s.workers[v], s.workers[v].batch);
    }
    forall k | 0 <= k < |t.refs| ensures t.refs[k] == Holders(t, k) {
      assert s.refs[k] == Holders(s, k);
      assert Serves(t.workers[k % |s.workers|], k) == Serves(s.workers[k % |s.workers|], k);
    }
  }

  /** The first message of a queue: no other holder has it at the worker's end. */
  lemma HeadFacts(s: System, w: nat)
    requires Inv(s) && w < |s.workers| && s.queues[w] != []
    ensures var sock := s.queues[w][0];
      sock < |s.refs| && sock % |s.workers| == w && sock !in s.queues[w][1..] && !Serves(s.workers[w], sock)
  {
    assert QueueInv(s, w) && ConnsInv(s, w);
  }

  lemma ReceiveShape(s: System, w: nat, receipt: Receipt, v: nat)
    requires Inv(s) && Enabled(s, Receive(w, receipt)) && v < |s.workers|
    ensures var t := Next(s, Receive(w, receipt));
      QueueInv(t, v) && ConnsInv(t, v) && Reportable(t.workers[v], t.workers[v].batch)
  {
    assert QueueInv(s, v) && ConnsInv(s, v) && Reportable(s.workers[v], s.workers[v].batch);
    ReceiveQueue(s, w, receipt, v);
    ReceiveConns(s, w, receipt, v);
    hide Holders, MasterInv, Serves, QueueInv, ConnsInv, Inv;
  }

  /** A queue that loses at most its first message keeps its order. */
  lemma QueueShrinks(s: System, t: System, v: nat)
    requires |s.workers| == |t.workers| > v && |s.queues| == |t.queues| == |s.workers| && QueueInv(s, v)
    requires t.master == s.master && |t.refs| == |s.refs|
    requires t.queues[v] == s.queues[v] || (s.queues[v] != [] && t.queues[v] == s.queues[v][1..])
    ensures QueueInv(t, v)
  {
    var k := if t.queues[v] == s.queues[v] then 0 else 1;
    forall i | 0 <= i < |t.queues[v]| ensures t.queues[v][i] == s.queues[v][i + k] {}
  }

  lemma ReceiveQueue(s: System, w: nat, receipt: Receipt, v: nat)
    requires Inv(s) && Enabled(s, Receive(w, receipt)) && v < |s.workers|
    ensures QueueInv(Next(s, Receive(w, receipt)), v)
  {
    assert QueueInv(s, v) && |s.queues| == |s.workers|;
    hide Holders, MasterInv, Serves, ConnsInv, Inv, Reportable, QueueInv;
    QueueShrinks(s, Next(s, Receive(w, receipt)), v);
  }

  lemma ReceiveConns(s: System, w: nat, receipt: Receipt, v: nat)
    requires Inv(s) && Enabled(s, Receive(w, receipt)) && v < |s.workers|
    ensures ConnsInv(Next(s, Receive(w, receipt)), v)
  {
    assert ConnsInv(s, v) && QueueInv(s, w);
    hide Holders, MasterInv, Serves, Inv, Reportable, QueueInv;
    if v == w {
      WaitsLonger(s, w);
      ReceiveOwn(s, w, receipt);
    }
  }

  lemma Registers(conns: map<nat, Conn>, ptr: nat, c: Conn)
    requires Injective(conns) && ptr !in conns && forall p :: p in conns ==> conns[p].sock < c.sock
    ensures Injective(conns[ptr := c])
  {
  }

  lemma ReceiveOwn(s: System, w: nat, receipt: Receipt)
    requires Inv(s) && Enabled(s, Receive(w, receipt)) && ConnsInv(s, w)
    requires var sock := s.queues[w][0];
      && sock < |s.refs| && sock % |s.workers| == w && !(s.master.Accepted? && sock == s.master.sock)
      && (|s.queues[w]| > 1 ==> sock < s.queues[w][1] == s.queues[w][1..][0])
    ensures ConnsInv(Next(s, Receive(w, receipt)), w)
  {
    hide Holders, MasterInv, Serves, Inv, Reportable, QueueInv, Injective;
    var t, sock := Next(s, Receive(w, receipt)), s.queues[w][0];
    var was := s.workers[w].conns;
    if receipt.Registered? {
      Registers(was, receipt.ptr, Conn(sock, 0, true));
    }
  }

  lemma WaitsLonger(s: System, w: nat)
    requires |s.workers| > 0 && w < |s.queues| && QueueInv(s, w) && s.queues[w] != []
    ensures var sock := s.queues[w][0];
      && sock < |s.refs| && sock % |s.workers| == w && !(s.master.Accepted? && sock == s.master.sock)
      && (|s.queues[w]| > 1 ==> sock < s.queues[w][1] == s.queues[w][1..][0])
  {
  }

  lemma ReceiveCounts(s: System, w: nat, receipt: Receipt, k: nat)
    requires Inv(s) && Enabled(s, Receive(w, receipt)) && k < |s.refs|
    ensures var t := Next(s, Receive(w, receipt)); t.refs[k] == Holders(t, k)
  {
    HeadFacts(s, w);
    assert s.refs[k] == Holders(s, k);
    hide QueueInv, ConnsInv, Reportable, Serves, TurnsOf;
    var t, sock := Next(s, Receive(w, receipt)), s.queues[w][0];
    if k % |s.workers| == w {
      assert s.queues[w] == [sock] + t.queues[w];
      assert k in s.queues[w] <==> k == sock || k in t.queues[w];
      ReceiveServes(s, w, receipt, k);
    }
  }

  lemma ReceiveKeeps(s: System, w: nat, receipt: Receipt)
    requires Inv(s) && Enabled(s, Receive(w, receipt))
    ensures Inv(Next(s, Receive(w, receipt)))
  {
    hide Holders, QueueInv, ConnsInv, Reportable, Serves, TurnsOf;
    var t := Next(s, Receive(w, receipt));
    forall v | 0 <= v < |t.workers|
      ensures QueueInv(t, v) && ConnsInv(t, v) && Reportable(t.workers[v], t.workers[v].batch)
    {
      ReceiveShape(s, w, receipt, v);
    }
    forall k | 0 <= k < |t.refs| ensures t.refs[k] == Holders(t, k) {
      ReceiveCounts(s, w, receipt, k);
    }
  }

  lemma ReceiveServes(s: System, w: nat, receipt: Receipt, k: nat)
    requires Inv(s) && Enabled(s, Receive(w, receipt))
    ensures Serves(Next(s, Receive(w, receipt)).workers[w], k) <==>
            Serves(s.workers[w], k) || (receipt.Registered? && k == s.queues[w][0])
  {
    var a, b := s.workers[w], Next(s, Receive(w, receipt)).workers[w];
    if Serves(a, k) {
      var p :| p in a.conns && a.conns[p].sock == k;
      assert p in b.conns && b.conns[p].sock == k;
    }
    if receipt.Registered? { assert receipt.ptr in b.conns && b.conns[receipt.ptr].sock == s.queues[w][0]; }
  }

  /** The connection at the head of a batch has not been freed. */
  lemma HandledIsAllocated(s: System, w: nat)
    requires Inv(s) && w < |s.workers| && s.workers[w].batch != [] && s.workers[w].batch[0].OnConn?
    ensures s.workers[w].batch[0].ptr in s.workers[w].conns && Ready(s.workers[w].conns[s.workers[w].batch[0].ptr])
  {
    assert ConnsInv(s, w) && Reportable(s.workers[w], s.workers[w].batch);
  }

  lemma CloseShape(s: System, w: nat, ptr: nat, v: nat)
    requires Inv(s) && w < |s.workers| && s.workers[w].batch != [] && s.workers[w].batch[0].OnConn? && v < |s.workers|
    requires ptr == s.workers[w].batch[0].ptr && ptr in s.workers[w].conns
    ensures var t := CloseConn(s, w, ptr);
      QueueInv(t, v) && ConnsInv(t, v) && Reportable(t.workers[v], t.workers[v].batch)
  {
    assert QueueInv(s, v) && ConnsInv(s, v) && Reportable(s.workers[v], s.workers[v].batch);
    hide Holders, Serves, TurnsOf, MasterInv, Inv;
  }

  lemma CloseServes(s: System, w: nat, ptr: nat, k: nat)
    requires Inv(s) && w < |s.workers| && s.workers[w].batch != [] && ptr in s.workers[w].conns
    ensures Serves(CloseConn(s, w, ptr).workers[w], k) <==> Serves(s.workers[w], k) && k != s.workers[w].conns[ptr].sock
  {
    assert ConnsInv(s, w);
    var a, b := s.workers[w], CloseConn(s, w, ptr).workers[w];
    if Serves(a, k) && k != a.conns[ptr].sock {
      var p :| p in a.conns && a.conns[p].sock == k;
      assert p in b.conns && b.conns[p].sock == k;
    }
    if Serves(b, k) {
      var p :| p in b.conns && b.conns[p].sock == k;
      assert p in a.conns && a.conns[p].sock == k;
    }
  }

  lemma CloseKeeps(s: System, w: nat)
    requires Inv(s) && w < |s.workers| && s.workers[w].batch != [] && s.workers[w].batch[0].OnConn?
    requires s.workers[w].batch[0].ptr in s.workers[w].conns
    ensures Inv(CloseConn(s, w, s.workers[w].batch[0].ptr))
  {
    var ptr := s.workers[w].batch[0].ptr;
    var t, sock := CloseConn(s, w, ptr), s.workers[w].conns[ptr].sock;
    assert ConnsInv(s, w);
    assert Serves(s.workers[w], sock);
    hide QueueInv, Reportable, Serves, TurnsOf;
    forall v | 0 <= v < |t.workers|
      ensures QueueInv(t, v) && ConnsInv(t, v) && Reportable(t.workers[v], t.workers[v].batch)
    {
      CloseShape(s, w, ptr, v);
    }
    forall k | 0 <= k < |t.refs| ensures t.refs[k] == Holders(t, k) {
      assert s.refs[k] == Holders(s, k);
      CloseServes(s, w, ptr, k);
    }
  }

  lemma ReadKeeps(s: System, w: nat, input: Input)
    requires Inv(s) && w < |s.workers| && s.workers[w].batch != [] && s.workers[w].batch[0].OnConn?
    requires s.workers[w].batch[0].ptr in s.workers[w].conns
    requires var c := s.workers[w].conns[s.workers[w].batch[0].ptr]; Possible(c, input) && AfterRead(c, input).keepAlive
    ensures var k, ptr := s.workers[w], s.workers[w].batch[0].ptr;
      Inv(SetWorker(s, w, Worker(k.conns[ptr := AfterRead(k.conns[ptr], input)], k.batch[1..])))
  {
    hide TurnsOf, AfterRead, Possible, QueueInv, ConnsInv, Reportable, Serves;
    var k, ptr := s.workers[w], s.workers[w].batch[0].ptr;
    var c := AfterRead(k.conns[ptr], input);
    var t := SetWorker(s, w, Worker(k.conns[ptr := c], k.batch[1..]));
    HandledIsAllocated(s, w);
    ReadReady(k.conns[ptr], input);
    forall v | 0 <= v < |t.workers|
      ensures QueueInv(t, v) && ConnsInv(t, v) && Reportable(t.workers[v], t.workers[v].batch)
    {
      ReadShape(s, w, ptr, c, v);
    }
    forall j | 0 <= j < |t.refs| ensures t.refs[j] == Holders(t, j) {
      assert s.refs[j] == Holders(s, j);
      SameServed(k, t.workers[w], j, ptr);
    }
  }

  lemma ReadShape(s: System, w: nat, ptr: nat, c: Conn, v: nat)
    requires Inv(s) && w < |s.workers| && s.workers[w].batch != [] && v < |s.workers|
    requires ptr in s.workers[w].conns && Ready(c) && c.sock == s.workers[w].conns[ptr].sock
    ensures var t := SetWorker(s, w, Worker(s.workers[w].conns[ptr := c], s.workers[w].batch[1..]));
      QueueInv(t, v) && ConnsInv(t, v) && Reportable(t.workers[v], t.workers[v].batch)
  {
    assert QueueInv(s, v) && ConnsInv(s, v) && Reportable(s.workers[v], s.workers[v].batch);
    hide Holders, Serves, TurnsOf, MasterInv, Inv;
  }

  lemma ReadReady(c: Conn, input: Input)
    requires Possible(c, input) && c.rlen < RECV_BUF - 1 && AfterRead(c, input).keepAlive
    ensures Ready(AfterRead(c, input)) && AfterRead(c, input).sock == c.sock
  {
  }

  lemma SameServed(a: Worker, b: Worker, j: nat, ptr: nat)
    requires ptr in a.conns && ptr in b.conns && b.conns == a.conns[ptr := b.conns[ptr]]
    requires b.conns[ptr].sock == a.conns[ptr].sock
    ensures Serves(a, j) <==> Serves(b, j)
  {
    if Serves(a, j) {
      var p :| p in a.conns && a.conns[p].sock == j;
      assert p in b.conns && b.conns[p].sock == j;
    }
    if Serves(b, j) {
      var p :| p in b.conns && b.conns[p].sock == j;
      assert p in a.conns && a.conns[p].sock == j;
    }
  }

  /** Every step of the master and of any worker keeps the invariant. */
  lemma StepKeeps(s: System, m: Move)
    requires Inv(s) && Enabled(s, m)
    ensures Inv(Next(s, m))
  {
    hide Inv;
    match m
    case Accept => AcceptKeeps(s);
    case Send(ok) => SendKeeps(s, ok);
    case CloseCopy => CloseCopyKeeps(s);
    case Poll(w, events) => BatchKeeps(s, w, events);
    case Receive(w, receipt) => ReceiveKeeps(s, w, receipt);
    case NoMessage(w) =>
      StillReportable(s, w);
      BatchKeeps(s, w, s.workers[w].batch[1..]);
    case Handle(w, input) =>
      HandledIsAllocated(s, w);
      StillReportable(s, w);
      var e := s.workers[w].batch[0];
      if e.hangup {
        CloseKeeps(s, w);
      } else if !e.input {
        BatchKeeps(s, w, s.workers[w].batch[1..]);
      } else if AfterRead(s.workers[w].conns[e.ptr], input).keepAlive {
        ReadKeeps(s, w, input);
      } else {
        CloseKeeps(s, w);
      }
  }

  lemma StillReportable(s: System, w: nat)
    requires Inv(s) && w < |s.workers| && s.workers[w].batch != []
    ensures Reportable(s.workers[w], s.workers[w].batch[1..])
  {
    assert Reportable(s.workers[w], s.workers[w].batch);
  }

  // ---------- whole runs ----------

  function Start(n: nat): System {
    System(0, seq(n, _ => 0), Idle, seq(n, _ => []), seq(n, _ => Worker(map[], [])), [])
  }

  lemma StartKeeps(n: nat)
    requires n > 0
    ensures Inv(Start(n))
  {
  }

  ghost predicate Moves(s: System, m: Move, t: System) { Inv(s) ==> Enabled(s, m) && t == Next(s, m) }

  /** One move at a time from the start; every move is enabled where it happens. */
  ghost predicate Run(trace: seq<System>, moves: seq<Move>) {
    && |trace| == |moves| + 1 && trace[0].workers != [] && trace[0] == Start(|trace[0].workers|)
    && forall i :: 0 <= i < |moves| ==> Moves(trace[i], moves[i], trace[i + 1])
  }

  lemma {:induction false} RunKeeps(trace: seq<System>, moves: seq<Move>, i: nat)
    requires Run(trace, moves) && i < |trace|
    ensures Inv(trace[i]) && |trace[i].workers| == |trace[0].workers|
    decreases i
  {
    hide Inv, Next, Enabled;
    if i == 0 {
      StartKeeps(|trace[0].workers|);
    } else {
      RunKeeps(trace, moves, i - 1);
      assert Moves(trace[i - 1], moves[i - 1], trace[i - 1 + 1]);
      StepKeeps(trace[i - 1], moves[i - 1]);
      SameWorkers(trace[i - 1], moves[i - 1]);
    }
  }

  lemma SameWorkers(s: System, m: Move)
    requires Inv(s) && Enabled(s, m)
    ensures |Next(s, m).workers| == |s.workers|
  {
  }

  // ---------- what follows ----------

  lemma {:induction false} TurnsAre(n: nat, k: nat, w: nat)
    requires w < k
    ensures TurnsOf(n, k, w) == n / k + (if w < n % k then 1 else 0)
    decreases n
  {
    if n > 0 {
      TurnsAre(n - 1, k, w);
      DivStep(n - 1, k);
    }
  }

  lemma DivStep(n: nat, k: nat)
    requires k > 0
    ensures if n % k == k - 1 then (n + 1) / k == n / k + 1 && (n + 1) % k == 0
            else (n + 1) / k == n / k && (n + 1) % k == n % k + 1
  {
    var q, r := n / k, n % k;
    assert n == q * k + r;
    if r == k - 1 {
      assert n + 1 == (q + 1) * k;
      Quotient(n + 1, k, q + 1, 0);
    } else {
      Quotient(n + 1, k, q, r + 1);
    }
  }

  lemma Quotient(n: nat, k: nat, q: nat, r: nat)
    requires r < k && n == q * k + r
    ensures n / k == q && n % k == r
  {
    if n / k < q {
      Times(n / k + 1, q, k);
    } else if n / k > q {
      Times(q + 1, n / k, k);
    }
  }

  lemma Times(a: nat, b: nat, k: nat)
    requires a <= b
    ensures a * k <= b * k
  {
  }

  /** The numbers of sockets that any two workers were given differ by at most one. */
  lemma FairDispatch(s: System, v: nat, w: nat)
    requires Inv(s) && v < |s.workers| && w < |s.workers|
    ensures s.attempts[v] <= s.attempts[w] + 1
  {
    TurnsAre(|s.refs|, |s.workers|, v);
    TurnsAre(|s.refs|, |s.workers|, w);
  }

  /**
   A socket is never with two workers, nor at the same time in a message and with a worker, and no worker has it twice;
   the kernel's count of a socket is the number of its holders, so it is closed exactly when nobody holds it.
  */
  lemma OneHolder(s: System, k: nat, v: nat, w: nat)
    requires Inv(s) && k < |s.refs| && v < |s.workers| && w < |s.workers|
    ensures (k in s.queues[v] || Serves(s.workers[v], k)) && (k in s.queues[w] || Serves(s.workers[w], k)) ==> v == w
    ensures !(k in s.queues[v] && Serves(s.workers[v], k))
    ensures Injective(s.workers[v].conns)
    ensures s.refs[k] == One(MasterHolds(s.master, k)) + One(exists u :: 0 <= u < |s.workers| && k in s.queues[u])
                         + One(exists u :: 0 <= u < |s.workers| && Serves(s.workers[u], k))
  {
    var u := k % |s.workers|;
    forall x | 0 <= x < |s.workers| ensures (k in s.queues[x] ==> x == u) && (Serves(s.workers[x], k) ==> x == u) {
      assert QueueInv(s, x) && ConnsInv(s, x);
    }
    assert QueueInv(s, v) && ConnsInv(s, v);
    assert s.refs[k] == Holders(s, k);
    if k in s.queues[u] { assert exists x :: 0 <= x < |s.workers| && k in s.queues[x]; }
    if Serves(s.workers[u], k) { assert exists x :: 0 <= x < |s.workers| && Serves(s.workers[x], k); }
  }
}
