/**
 The timers of the ae event loop (ae.c): a linked list with lazy deletion, whose callbacks create and delete timers
 while the list is walked. It is proved to behave as a finite map from the ids of live timers to the times they are due.
*/
module AeTimers {

  /** AE_NOMORE and AE_DELETED_EVENT_ID */
  const NOMORE: int := -1
  const DELETED: int := -1

  /** The time a poll may take. */
  datatype Wait = Forever | Sleep(ms: nat)

  datatype Time = Time(sec: int, ms: int)

  /** What a callback does: it creates and deletes timers, reading the clock for each creation. */
  datatype Action = Create(now: Time, delay: int) | Delete(id: int)

  /**
   One visit of a timer, as its surroundings see it: the clock, what the callback does and returns, and the clock after
   it.
  */
  datatype Reply = Reply(now: Time, actions: seq<Action>, retval: int, after: Time)

  function Total(t: Time): int { t.sec * 1000 + t.ms }

  predicate Normal(t: Time) { 0 <= t.ms < 1000 }

  /** C's division and remainder by 1000, which truncate. */
  function Div1000(x: int): int { if x >= 0 then x / 1000 else -(-x / 1000) }

  function Mod1000(x: int): int { x - 1000 * Div1000(x) }

  /** aeAddMillisecondsToNow: exactly `delay` milliseconds later. */
  function Later(now: Time, delay: int): (t: Time)
    ensures Total(t) == Total(now) + delay
    ensures Normal(now) && delay >= 0 ==> Normal(t)
  {
    var sec, ms := now.sec + Div1000(delay), now.ms + Mod1000(delay);
    if ms >= 1000 then Time(sec + 1, ms - 1000) else Time(sec, ms)
  }

  /** The test of processTimeEvents. */
  predicate Due(t: Time, now: Time) { now.sec > t.sec || (now.sec == t.sec && now.ms >= t.ms) }

  predicate Earlier(a: Time, b: Time) { a.sec < b.sec || (a.sec == b.sec && a.ms < b.ms) }

  /** A time that is not earlier than the one kept is not earlier than one that replaces it. */
  lemma NotEarlier(t: Time, kept: Time, next: Time)
    ensures !Earlier(next, next)
    ensures !Earlier(t, kept) && Earlier(next, kept) ==> !Earlier(t, next)
    ensures Earlier(next, kept) <==> next.sec < kept.sec || (next.sec == kept.sec && next.ms < kept.ms)
  {
  }

  // ---------- what timers mean ----------

  datatype Store = Store(live: map<nat, Time>, nextId: nat)

  predicate StoreInv(s: Store) { forall b :: b in s.live ==> b < s.nextId }

  function Act(s: Store, a: Action): Store {
    match a
    case Create(now, delay) => Store(s.live[s.nextId := Later(now, delay)], s.nextId + 1)
    case Delete(id) => if id >= 0 then s.(live := s.live - {id}) else s
  }

  function ActAll(s: Store, actions: seq<Action>): Store {
    if actions == [] then s else Act(ActAll(s, actions[..|actions| - 1]), actions[|actions| - 1])
  }

  lemma ActNothing(s: Store)
    ensures ActAll(s, []) == s
  {
  }

  lemma ActNext(s: Store, actions: seq<Action>, k: nat)
    requires k < |actions|
    ensures ActAll(s, actions[..k + 1]) == Act(ActAll(s, actions[..k]), actions[k])
  {
    assert actions[..k + 1][..k] == actions[..k];
  }

  predicate Fires(s: Store, id: nat, e: Reply) { id in s.live && Due(s.live[id], e.now) }

  /**
   One visit: a live and due timer runs its callback, and is then set anew or removed unless the callback removed it.
  */
  function Visit(s: Store, id: nat, e: Reply): Store {
    if Fires(s, id, e) then Settled(ActAll(s, e.actions), id, e) else s
  }

  function Settled(s: Store, id: nat, e: Reply): Store {
    if id !in s.live then s
    else if e.retval == NOMORE then s.(live := s.live - {id})
    else s.(live := s.live[id := Later(e.after, e.retval)])
  }

  /** The first j visits of a pass over the timers `ids`. */
  function Pass(s: Store, ids: seq<nat>, env: nat -> Reply, j: nat): Store
    requires j <= |ids|
  {
    if j == 0 then s else Visit(Pass(s, ids, env, j - 1), ids[j - 1], env(j - 1))
  }

  /** The timers that fire in the first j visits. */
  function Fired(s: Store, ids: seq<nat>, env: nat -> Reply, j: nat): seq<nat>
    requires j <= |ids|
  {
    if j == 0 then []
    else Fired(s, ids, env,
      j - 1) + (if Fires(Pass(s, ids, env, j - 1), ids[j - 1], env(j - 1)) then [ids[j - 1]] else [])
  }

  /** The clock went back: every timer becomes due at the next second. */
  function Skewed(s: Store): Store { s.(live := map b | b in s.live :: Time(0, s.live[b].ms)) }

  lemma NextVisit(s: Store, ids: seq<nat>, env: nat -> Reply, j: nat)
    requires j < |ids|
    ensures Pass(s, ids, env, j + 1) == Visit(Pass(s, ids, env, j), ids[j], env(j))
    ensures Fired(s, ids, env, j + 1) == Fired(s, ids, env,
        j) + (if Fires(Pass(s, ids, env, j), ids[j], env(j)) then [ids[j]] else [])
  {
  }

  lemma NoVisit(s: Store, ids: seq<nat>, env: nat -> Reply)
    ensures Pass(s, ids, env, 0) == s && Fired(s, ids, env, 0) == []
  {
  }

  predicate Below(ids: seq<nat>, n: nat) { forall i :: 0 <= i < |ids| ==> ids[i] < n }

  predicate Descending(ids: seq<nat>) { forall i, j :: 0 <= i < j < |ids| ==> ids[i] > ids[j] }

  // ---------- theorems about passes ----------

  /** Callbacks neither revive a timer nor move the time of one that they leave alive. */
  lemma {:induction false} ActsKeep(s: Store, actions: seq<Action>, b: nat)
    requires StoreInv(s)
    ensures var r := ActAll(s, actions);
      && StoreInv(r) && r.nextId >= s.nextId
      && (b < s.nextId && b in r.live ==> b in s.live && r.live[b] == s.live[b])
      && (b in s.live && Delete(b) !in actions ==> b in r.live)
    decreases |actions|
  {
    if actions != [] { ActsKeep(s, actions[..|actions| - 1], b); }
  }

  lemma VisitKeeps(s: Store, id: nat, e: Reply, b: nat)
    requires StoreInv(s)
    ensures var r := Visit(s, id, e);
      && StoreInv(r) && r.nextId >= s.nextId
      && (b < s.nextId && b in r.live ==> b in s.live && (r.live[b] == s.live[b] || (b == id && Fires(s, id, e))))
      && (b in s.live && b !in r.live ==>
            Fires(s, id, e) && (Delete(b) in e.actions || (b == id && e.retval == NOMORE)))
  {
    hide ActAll, Later;
    ActsKeep(s, e.actions, b);
    ActsKeep(s, e.actions, id);
  }

  /** A timer that has not been visited yet still has the time it had at the beginning, if it is alive. */
  lemma {:induction false} NotVisitedYet(s: Store, ids: seq<nat>, env: nat -> Reply, j: nat, b: nat)
    requires StoreInv(s) && j <= |ids| && b < s.nextId && b !in ids[..j]
    ensures var r := Pass(s, ids, env, j);
      StoreInv(r) && r.nextId >= s.nextId && (b in r.live ==> b in s.live && r.live[b] == s.live[b])
    decreases j
  {
    hide Visit, Fires;
    if j > 0 {
      assert ids[..j] == ids[..j - 1] + [ids[j - 1]];
      NotVisitedYet(s, ids, env, j - 1, b);
      VisitKeeps(Pass(s, ids, env, j - 1), ids[j - 1], env(j - 1), b);
    }
  }

  lemma {:induction false} FiredBounds(s: Store, ids: seq<nat>, env: nat -> Reply, j: nat)
    requires j <= |ids| && Descending(ids)
    ensures var f := Fired(s, ids, env, j);
      Descending(f) && forall b :: b in f ==> b in ids && (j < |ids| ==> b > ids[j])
    decreases j
  {
    hide Pass, Fires;
    if j > 0 {
      FiredBounds(s, ids, env, j - 1);
      assert ids[j - 1] in ids;
      var f := Fired(s, ids, env, j - 1);
      assert forall i :: 0 <= i < |f| ==> f[i] in f;
    }
  }

  lemma {:induction false} FiredLater(s: Store, ids: seq<nat>, env: nat -> Reply, k: nat, n: nat)
    requires k < n <= |ids| && Descending(ids)
    ensures ids[k] in Fired(s, ids, env, n) <==> Fires(Pass(s, ids, env, k), ids[k], env(k))
    decreases n
  {
    hide Pass, Fires;
    if n == k + 1 {
      FiredBounds(s, ids, env, k);
    } else {
      FiredLater(s, ids, env, k, n - 1);
    }
  }

  /**
   One pass fires each timer at most once, from the newest to the oldest. It fires exactly the timers that were live at
   the beginning, are due by the time they had then, and have not been deleted by a callback before their turn; never
   one that was created during the pass.
  */
  lemma EachDueTimerOnce(s: Store, ids: seq<nat>, env: nat -> Reply, k: nat)
    requires StoreInv(s) && Descending(ids) && k < |ids| && Below(ids, s.nextId)
    ensures var f := Fired(s, ids, env, |ids|);
      && Descending(f) && (forall b :: b in f ==> b in ids && b < s.nextId)
      && (ids[k] in f <==> ids[k] in s.live && ids[k] in Pass(s, ids, env, k).live && Due(s.live[ids[k]], env(k).now))
  {
    hide Pass, Fired;
    FiredBounds(s, ids, env, |ids|);
    FiredLater(s, ids, env, k, |ids|);
    NotVisitedYet(s, ids, env, k, ids[k]);
  }

  /** The callback of visit i deletes timer b, or b is the one that fires and asks not to be called again. */
  predicate Ends(s: Store, ids: seq<nat>, env: nat -> Reply, i: nat, b: nat)
    requires i < |ids|
  {
    Fires(Pass(s, ids, env, i), ids[i], env(i))
      && (Delete(b) in env(i).actions || (b == ids[i] && env(i).retval == NOMORE))
  }

  /** A timer alive after j visits, old or new, is lost by no pass unless a callback ends it. */
  lemma {:induction false} NothingIsLost(s: Store, ids: seq<nat>, env: nat -> Reply, j: nat, n: nat, b: nat)
    requires StoreInv(s) && j <= n <= |ids| && b in Pass(s, ids, env, j).live
    requires forall i :: j <= i < n ==> !Ends(s, ids, env, i, b)
    ensures b in Pass(s, ids, env, n).live
    ensures b !in ids[j..n] ==> Pass(s, ids, env, n).live[b] == Pass(s, ids, env, j).live[b]
    decreases n - j
  {
    hide Visit, Fires;
    if j < n {
      NothingIsLost(s, ids, env, j, n - 1, b);
      assert ids[j..n] == ids[j..n - 1] + [ids[n - 1]];
      PassInv(s, ids, env, n - 1);
      VisitKeeps(Pass(s, ids, env, n - 1), ids[n - 1], env(n - 1), b);
      assert !Ends(s, ids, env, n - 1, b);
    }
  }

  lemma {:induction false} PassInv(s: Store, ids: seq<nat>, env: nat -> Reply, j: nat)
    requires StoreInv(s) && j <= |ids|
    ensures StoreInv(Pass(s, ids, env, j)) && Pass(s, ids, env, j).nextId >= s.nextId
    decreases j
  {
    hide Visit;
    if j > 0 {
      PassInv(s, ids, env, j - 1);
      VisitKeeps(Pass(s, ids, env, j - 1), ids[j - 1], env(j - 1), 0);
    }
  }

  // ---------- the linked list ----------

  /** A list node without its link. `born` is the id it was created with. */
  datatype Cell = Cell(born: nat, id: int, when: Time)

  predicate HasLive(cells: seq<Cell>, b: nat) {
    exists i :: 0 <= i < |cells| && cells[i].born == b && cells[i].id != DELETED
  }

  /**
   Ids fall strictly from the head, a node has its id until it is marked, and the unmarked nodes are the map `live`.
  */
  predicate Sound(cells: seq<Cell>, nextId: nat, live: map<nat, Time>) {
    && (forall i, j :: 0 <= i < j < |cells| ==> cells[i].born > cells[j].born)
    && (forall i :: 0 <= i < |cells| ==>
                      cells[i].born < nextId && (cells[i].id == cells[i].born || cells[i].id == DELETED))
    && (forall i :: 0 <= i < |cells| && cells[i].id != DELETED ==>
                      cells[i].born in live && live[cells[i].born] == cells[i].when)
    && (forall b :: b in live ==> HasLive(cells, b))
  }

  lemma SoundCreate(cells: seq<Cell>, nextId: nat, live: map<nat, Time>, when: Time)
    requires Sound(cells, nextId, live)
    ensures Sound([Cell(nextId, nextId, when)] + cells, nextId + 1, live[nextId := when])
  {
    var after, l := [Cell(nextId, nextId, when)] + cells, live[nextId := when];
    forall b | b in l ensures HasLive(after, b) {
      if b == nextId {
        assert after[0].born == b;
      } else {
        assert HasLive(cells, b);
        var i :| 0 <= i < |cells| && cells[i].born == b && cells[i].id != DELETED;
        assert after[i + 1] == cells[i];
      }
    }
  }

  lemma SoundMark(cells: seq<Cell>, nextId: nat, live: map<nat, Time>, i: nat)
    requires Sound(cells, nextId, live) && i < |cells|
    ensures Sound(cells[i := cells[i].(id := DELETED)], nextId, live - {cells[i].born})
  {
    var after, l := cells[i := cells[i].(id := DELETED)], live - {cells[i].born};
    forall b | b in l ensures HasLive(after, b) {
      assert HasLive(cells, b);
      var k :| 0 <= k < |cells| && cells[k].born == b && cells[k].id != DELETED;
      assert after[k] == cells[k];
    }
  }

  lemma LiveWithout(cells: seq<Cell>, i: nat, b: nat)
    requires i < |cells| && cells[i].id == DELETED && HasLive(cells, b)
    ensures HasLive(cells[..i] + cells[i + 1..], b)
  {
    var after := cells[..i] + cells[i + 1..];
    var k :| 0 <= k < |cells| && cells[k].born == b && cells[k].id != DELETED;
    assert after[if k < i then k else k - 1] == cells[k];
  }

  lemma SoundUnlink(cells: seq<Cell>, nextId: nat, live: map<nat, Time>, i: nat)
    requires Sound(cells, nextId, live) && i < |cells| && cells[i].id == DELETED
    ensures Sound(cells[..i] + cells[i + 1..], nextId, live)
  {
    hide HasLive;
    var after := cells[..i] + cells[i + 1..];
    assert forall k :: 0 <= k < |after| ==> after[k] == cells[if k < i then k else k + 1];
    forall b | b in live ensures HasLive(after, b) {
      LiveWithout(cells, i, b);
    }
  }

  lemma SoundSet(cells: seq<Cell>, nextId: nat, live: map<nat, Time>, i: nat, when: Time)
    requires Sound(cells, nextId, live) && i < |cells|
    ensures Sound(cells[i := cells[i].(when := when)], nextId,
        if cells[i].id == DELETED then live else live[cells[i].born := when])
  {
    var after := cells[i := cells[i].(when := when)];
    var l := if cells[i].id == DELETED then live else live[cells[i].born := when];
    forall b | b in l ensures HasLive(after, b) {
      if b == cells[i].born && cells[i].id != DELETED {
        assert after[i].born == b;
      } else {
        assert HasLive(cells, b);
        var k :| 0 <= k < |cells| && cells[k].born == b && cells[k].id != DELETED;
        assert after[k].born == b && after[k].id != DELETED;
      }
    }
  }

  /** A marked node is not in the map: ids occur once. */
  lemma MarkedIsDead(cells: seq<Cell>, nextId: nat, live: map<nat, Time>, i: nat)
    requires Sound(cells, nextId, live) && i < |cells|
    ensures cells[i].born in live <==> cells[i].id != DELETED
  {
    if cells[i].born in live {
      assert HasLive(cells, cells[i].born);
    }
  }

  class TimeEvent {
    ghost const born: nat
    var id: int
    var when: Time
    var next: TimeEvent?

    constructor (id: nat, when: Time, next: TimeEvent?)
      ensures View() == Cell(id, id, when) && this.when == when && this.next == next
    {
      born, this.id, this.when, this.next := id, id, when, next;
    }

    ghost function View(): Cell
      reads this
    {
      Cell(born, id, when)
    }
  }

  ghost function NodeAt(nodes: seq<TimeEvent>, i: nat): TimeEvent? { if i < |nodes| then nodes[i] else null }

  /** The list is acyclic. */
  ghost predicate Different(nodes: seq<TimeEvent>) { forall i, j :: 0 <= i < j < |nodes| ==> nodes[i] != nodes[j] }

  class EventLoop {
    var head: TimeEvent?
    var nextId: nat
    var lastTime: int
    ghost var nodes: seq<TimeEvent>
    ghost var live: map<nat, Time>

    /** The nodes are linked in order. */
    ghost predicate Linked()
      reads this, nodes
    {
      && head == NodeAt(nodes, 0)
      && (forall i :: 0 <= i < |nodes| ==> nodes[i].next == NodeAt(nodes, i + 1))
    }

    ghost function Cells(): (cells: seq<Cell>)
      reads this, nodes
      ensures |cells| == |nodes| && forall i :: 0 <= i < |cells| ==> cells[i] == nodes[i].View()
    {
      seq(|nodes|, i reads this, nodes requires 0 <= i < |nodes| => nodes[i].View())
    }

    twostate lemma SameLinks()
      requires old(Linked()) && nodes == old(nodes) && head == old(head) && forall n :: n in nodes ==>
          n.next == old(n.next)
      ensures Linked()
    {
    }

    twostate lemma SameList()
      requires old(Valid()) && nodes == old(nodes) && head == old(head) && nextId == old(nextId) && live == old(live)
      requires forall n :: n in nodes ==> n.next == old(n.next) && n.View() == old(n.View())
      ensures Valid()
    {
      SameLinks();
      assert Cells() == old(Cells());
    }

    twostate lemma Prepended(new te: TimeEvent)
      requires old(Linked()) && nodes == [te] + old(nodes) && head == te && te.next == old(head)
      requires forall n :: n in old(nodes) ==> n.next == old(n.next) && n.View() == old(n.View())
      ensures Linked() && Cells() == [te.View()] + old(Cells())
    {
    }

    /** The links around a node that was taken out. */
    twostate lemma Unlinked(i: nat)
      requires old(Linked()) && i < |old(nodes)| && nodes == old(nodes[..i] + nodes[i + 1..])
      requires forall k :: 0 <= k < |old(nodes)| && k + 1 != i ==> old(nodes)[k].next == old(nodes[k].next)
      requires if i == 0 then head == NodeAt(old(nodes), 1)
               else head == old(head) && old(nodes)[i - 1].next == NodeAt(old(nodes), i + 1)
      ensures Linked()
    {
      forall k | 0 <= k < |nodes| ensures nodes[k].next == NodeAt(nodes, k + 1) {
        assert nodes[k] == old(nodes)[if k < i then k else k + 1];
      }
    }

    twostate lemma CellsCut(i: nat)
      requires i < |old(nodes)| && nodes == old(nodes[..i] + nodes[i + 1..]) && Different(old(nodes))
      requires forall n :: n in old(nodes) ==> n.View() == old(n.View())
      ensures Cells() == old(Cells())[..i] + old(Cells())[i + 1..] && Different(nodes)
    {
    }

    ghost predicate Valid()
      reads this, nodes
    {
      Linked() && Different(nodes) && Sound(Cells(), nextId, live)
    }

    lemma NextIs(i: nat)
      requires Linked() && i < |nodes|
      ensures nodes[i].next == NodeAt(nodes, i + 1) && head == nodes[0]
    {
    }

    ghost function Meaning(): Store
      reads this
    {
      Store(live, nextId)
    }

    ghost function Ids(): (ids: seq<nat>)
      reads this
      ensures |ids| == |nodes| && forall i :: 0 <= i < |ids| ==> ids[i] == nodes[i].born
    {
      seq(|nodes|, i reads this requires 0 <= i < |nodes| => nodes[i].born)
    }

    /** aeCreateEventLoop, as far as timers are concerned */
    constructor (now: int)
      ensures Valid() && nodes == [] && Meaning() == Store(map[], 0) && lastTime == now
    {
      head, nextId, lastTime, nodes, live := null, 0, now, [], map[];
    }

    /** aeCreateTimeEvent */
    method CreateTimeEvent(now: Time, delay: int) returns (id: nat)
      requires Valid()
      modifies this
      ensures Valid() && id == old(nextId) && Meaning() == Act(old(Meaning()), Create(now, delay))
      ensures lastTime == old(lastTime)
      ensures |nodes| == 1 + |old(nodes)| && nodes[1..] == old(nodes) && fresh(nodes[0])
    {
      hide Sound, Later, Cells, Linked;
      id := nextId;
      var when := Later(now, delay);
      ghost var was := Cells();
      SoundCreate(was, nextId, live, when);
      nextId := nextId + 1;
      var te := new TimeEvent(id, when, head);
      head := te;
      nodes := [te] + nodes;
      live := live[id := when];
      Prepended(te);
    }

    /** te->id = AE_DELETED_EVENT_ID */
    method Mark(te: TimeEvent, ghost i: nat)
      requires Valid() && i < |nodes| && nodes[i] == te
      modifies te`id, this`live
      ensures Valid() && live == old(live) - {te.born}
    {
      hide Sound, Linked, Cells;
      ghost var was := Cells();
      SoundMark(was, nextId, live, i);
      te.id := DELETED;
      live := live - {te.born};
      assert Cells() == was[i := was[i].(id := DELETED)];
      SameLinks();

    }

    /** aeDeleteTimeEvent: marks the timer with this id. */
    method DeleteTimeEvent(id: int) returns (ok: bool)
      requires Valid()
      modifies nodes, this`live
      ensures Valid() && nodes == old(nodes) && Meaning() == Act(old(Meaning()), Delete(id))
      ensures id >= 0 ==> (ok <==> id in old(live))
    {
      hide Sound;
      var te := head;
      ghost var i := 0;
      ghost var cells := Cells();
      while te != null
        invariant Valid() && Cells() == cells && live == old(live) && i <= |nodes|
        invariant te == (if i < |nodes| then nodes[i] else null)
        invariant forall k :: 0 <= k < i ==> cells[k].id != id
        decreases |nodes| - i
      {
        if te.id == id {
          IdFound(cells, nextId, live, i);
          Mark(te, i);
          return true;
        }
        te := te.next;
        i := i + 1;
      }
      IdMissing(cells, nextId, live, id);
      return false;
    }

    static lemma IdFound(cells: seq<Cell>, nextId: nat, live: map<nat, Time>, i: nat)
      requires Sound(cells, nextId, live) && i < |cells|
      ensures cells[i].id >= 0 ==> cells[i].id == cells[i].born && cells[i].born in live
      ensures cells[i].id < 0 ==> live - {cells[i].born} == live
    {
      MarkedIsDead(cells, nextId, live, i);
    }

    static lemma IdMissing(cells: seq<Cell>, nextId: nat, live: map<nat, Time>, id: int)
      requires Sound(cells, nextId, live) && forall k :: 0 <= k < |cells| ==> cells[k].id != id
      ensures id >= 0 ==> id !in live && live - {id} == live
    {
      if id >= 0 {
        hide HasLive;
        NotLive(cells, id);
      }
    }

    static lemma NotLive(cells: seq<Cell>, b: nat)
      requires forall k :: 0 <= k < |cells| ==>
          cells[k].id != b && (cells[k].id == cells[k].born || cells[k].id == DELETED)
      ensures !HasLive(cells, b)
    {
    }

    /** One action of a timeProc. */
    method Do(a: Action)
      requires Valid()
      modifies this, nodes
      ensures Valid() && Meaning() == Act(old(Meaning()), a) && lastTime == old(lastTime)
      ensures nodes == old(nodes) || (|nodes| == 1 + |old(nodes)| && nodes[1..] == old(nodes) && fresh(nodes[0]))
    {
      hide Valid, Act;
      match a {
        case Create(now, delay) => var id := CreateTimeEvent(now, delay);
        case Delete(id) => var ok := DeleteTimeEvent(id);
      }
    }

    /** What a timeProc does with the loop. */
    method Callback(actions: seq<Action>)
      requires Valid()
      modifies this, nodes
      ensures Valid() && Meaning() == ActAll(old(Meaning()), actions) && lastTime == old(lastTime)
      ensures |nodes| >= |old(nodes)| && nodes[|nodes| - |old(nodes)|..] == old(nodes)
      ensures forall i :: 0 <= i < |nodes| - |old(nodes)| ==> fresh(nodes[i])
    {
      hide Valid, Act, ActAll;
      var k := 0;
      ActNothing(Meaning());
      while k < |actions|
        invariant k <= |actions| && Valid() && Meaning() == ActAll(old(Meaning()), actions[..k])
        invariant lastTime == old(lastTime)
        invariant |nodes| >= |old(nodes)| && nodes[|nodes| - |old(nodes)|..] == old(nodes)
        invariant forall i :: 0 <= i < |nodes| - |old(nodes)| ==> fresh(nodes[i])
      {
        ActNext(old(Meaning()), actions, k);
        Do(actions[k]);
        k := k + 1;
      }
      assert actions[..k] == actions;
    }

    /** The list without node i is as sound as the list with it. */
    twostate lemma TookOut(i: nat)
      requires old(Valid()) && i < |old(nodes)| && old(nodes[i].id) == DELETED
      requires nodes == old(nodes[..i] + nodes[i + 1..])
      requires nextId == old(nextId) && live == old(live) && Linked()
      requires forall n :: n in old(nodes) ==> n.View() == old(n.View())
      ensures Valid()
    {
      hide Sound, Linked, Different;
      CellsCut(i);
      SoundUnlink(old(Cells()), nextId, live, i);
    }

    /** Makes the node in front of node i point behind it. */
    method LinkPast(prev: TimeEvent, te: TimeEvent, ghost i: nat)
      requires Linked() && Different(nodes) && 0 < i < |nodes| && nodes[i] == te && nodes[i - 1] == prev
      modifies prev`next
      ensures prev.next == NodeAt(nodes, i + 1)
      ensures forall k :: 0 <= k < |nodes| && k + 1 != i ==> nodes[k].next == old(nodes[k].next)
    {
      prev.next := te.next;
    }

    /** Takes a marked node out of the list. */
    method Unlink(prev: TimeEvent?, te: TimeEvent, ghost i: nat)
      requires Valid() && i < |nodes| && nodes[i] == te && te.id == DELETED
      requires prev == if i == 0 then null else nodes[i - 1]
      modifies this`head, this`nodes, if prev == null then {} else {prev}
      ensures Valid() && nodes == old(nodes[..i] + nodes[i + 1..])
    {
      NextIs(i);
      hide Sound, Cells, Linked, Different;
      if prev == null {
        head := te.next;
      } else {
        LinkPast(prev, te, i);
      }
      nodes := nodes[..i] + nodes[i + 1..];
      Unlinked(i);
      TookOut(i);
    }

    /** Sets a timer anew; a timer that is marked stays so. */
    method Reschedule(te: TimeEvent, when: Time, ghost i: nat)
      requires Valid() && i < |nodes| && nodes[i] == te
      modifies te`when, this`live
      ensures Valid() && live == if te.id == DELETED then old(live) else old(live)[te.born := when]
    {
      hide Sound, Linked, Cells;
      ghost var was := Cells();
      SoundSet(was, nextId, live, i, when);
      te.when := when;
      if te.id != DELETED {
        live := live[te.born := when];
      }
      assert Cells() == was[i := was[i].(when := when)];
      SameLinks();
    }

    /** The turn of one live timer in processTimeEvents. */
    method Turn(te: TimeEvent, e: Reply, ghost i: nat) returns (due: bool)
      requires Valid() && i < |nodes| && nodes[i] == te && te.id != DELETED
      modifies this, nodes
      ensures Valid() && lastTime == old(lastTime)
      ensures Meaning() == Visit(old(Meaning()), te.born, e) && due == Fires(old(Meaning()), te.born, e)
      ensures |nodes| >= |old(nodes)| && nodes[|nodes| - |old(nodes)|..] == old(nodes)
      ensures forall k :: 0 <= k < |nodes| - |old(nodes)| ==> fresh(nodes[k])
    {
      hide Valid, ActAll, Settled;
      LiveTime(i);
      due := Due(te.when, e.now);
      if due {
        Callback(e.actions);
        ghost var k := |nodes| - |old(nodes)| + i;
        assert nodes[k] == old(nodes)[i] by { assert nodes[|nodes| - |old(nodes)|..][i] == old(nodes)[i]; }
        Settle(te, e, k);
      }
    }

    /** What processTimeEvents does with a timer whose callback has returned. */
    method Settle(te: TimeEvent, e: Reply, ghost k: nat)
      requires Valid() && k < |nodes| && nodes[k] == te
      modifies te`id, te`when, this`live
      ensures Valid() && Meaning() == Settled(old(Meaning()), te.born, e)
    {
      hide Valid, Later;
      LiveTime(k);
      if e.retval != NOMORE {
        Reschedule(te, Later(e.after, e.retval), k);
      } else {
        Mark(te, k);
      }
    }

    lemma LiveTime(i: nat)
      requires Valid() && i < |nodes|
      ensures nodes[i].id != DELETED <==> nodes[i].born in live
      ensures nodes[i].id != DELETED ==> live[nodes[i].born] == nodes[i].when && nodes[i].id == nodes[i].born < nextId
    {
      MarkedIsDead(Cells(), nextId, live, i);
    }

    /** The clock went back: all timers, marked or not, become due. */
    method Skew()
      requires Valid()
      modifies nodes, this`live
      ensures Valid() && nodes == old(nodes) && Meaning() == Skewed(old(Meaning()))
    {
      hide Linked, Sound, Cells;
      ghost var was := Cells();
      var te := head;
      ghost var i := 0;
      HeadIs();
      while te != null
        modifies nodes
        invariant i <= |nodes| && te == NodeAt(nodes, i) && Linked() && Different(nodes)
        invariant forall k :: 0 <= k < |nodes| ==> nodes[k].View() == if k < i then SkewCell(was[k]) else was[k]
        decreases |nodes| - i
      {
        NextIs(i);
        label L:
        te.when := Time(0, te.when.ms);
        SameLinks@L();
        te := te.next;
        i := i + 1;
      }
      SoundSkew(was, nextId, live);
      label M:
      live := Skewed(Meaning()).live;
      SameLinks@M();
      assert Cells() == SkewCells(was);
    }

    lemma StartOfPass()
      requires Valid()
      ensures head == NodeAt(nodes, 0)
    {
    }

    lemma AfterNode(i: nat)
      requires Valid() && i < |nodes|
      ensures nodes[i].next == NodeAt(nodes, i + 1) && nodes[i].born < nextId
    {
      hide Sound;
      SoundBound(Cells(), nextId, live, i);
    }

    /** The clock-skew test of processTimeEvents. */
    method CheckClock(now: int)
      requires Valid()
      modifies nodes, this`live, this`lastTime
      ensures Valid() && lastTime == now && nodes == old(nodes) && Ids() == old(Ids())
      ensures Meaning() == if now < old(lastTime) then Skewed(old(Meaning())) else old(Meaning())
    {
      hide Valid, Skewed;
      if now < lastTime {
        Skew();
      }
      label L:
      lastTime := now;
      SameList@L();
      assert Ids() == old(Ids());
    }

    lemma HeadIs()
      requires Linked()
      ensures head == NodeAt(nodes, 0)
    {
    }

    /**
     The loop body of processTimeEvents at node te, with the nodes `rest` still to come. The id of te never exceeds the
     greatest id at the start of the pass, so that branch is not modelled.
    */
    method Step(prev: TimeEvent?, te: TimeEvent, e: Reply, maxId: int, ghost i: nat, ghost rest: seq<TimeEvent>)
      returns (prev': TimeEvent?, te': TimeEvent?, due: bool, ghost i': nat)
      requires Valid() && i < |nodes| && nodes[i..] == rest && te == nodes[i]
      requires prev == (if i == 0 then null else nodes[i - 1])
      requires te.id <= maxId
      modifies this, nodes
      ensures Valid() && lastTime == old(lastTime)
      ensures i' <= |nodes| && nodes[i'..] == rest[1..] && te' == NodeAt(nodes, i')
      ensures prev' == if i' == 0 then null else nodes[i' - 1]
      ensures Meaning() == Visit(old(Meaning()), te.born, e) && due == Fires(old(Meaning()), te.born, e)
      ensures forall k :: 0 <= k < |nodes| ==> nodes[k] in old(nodes) || fresh(nodes[k])
    {
      hide Valid, Visit, Fires;
      LiveTime(i);
      AfterNode(i);
      if te.id == DELETED {
        NotFired(Meaning(), te.born, e);
        prev', te', due, i' := prev, te.next, false, i;
        Unlink(prev, te, i);
      } else {
        due := Turn(te, e, i);
        i' := |nodes| - |old(nodes)| + i;
        assert nodes[i'..] == rest by { assert nodes[|nodes| - |old(nodes)|..][i..] == rest; }
        assert nodes[i'] == te;
        AfterNode(i');
        prev', te', i' := te, te.next, i' + 1;
      }
    }

    /**
     processTimeEvents: one pass over the list as it was at the start. Reply number t is what the surroundings of the
     loop do at the t-th node.
    */
    method ProcessTimeEvents(now: int, env: nat -> Reply) returns (processed: nat, ghost fired: seq<nat>)
      requires Valid()
      modifies this, nodes
      ensures Valid() && lastTime == now
      ensures var s := if now < old(lastTime) then Skewed(old(Meaning())) else old(Meaning());
        var n := |old(nodes)|;
        Meaning() == Pass(s, old(Ids()), env, n) && fired == Fired(s, old(Ids()), env, n) && processed == |fired|
    {
      hide Valid, Visit, Fires, Ids, Skewed, Descending, StoreInv, Below, Pass, Fired, Linked, Sound, Cells;
      CheckClock(now);
      ghost var ns, ids, s := nodes, Ids(), Meaning();
      assert ids == old(Ids());
      IdsBound();
      StartOfPass();
      var prev: TimeEvent?, te, maxId := null, head, nextId - 1;
      processed, fired := 0, [];
      NoVisit(s, ids, env);
      ghost var i: nat, rest := 0, ns;
      var turn := 0;
      while te != null
        invariant Valid() && lastTime == now
        invariant 0 <= turn <= |ns| && i <= |nodes| && nodes[i..] == rest == ns[turn..]
        invariant te == NodeAt(nodes, i) && prev == if i == 0 then null else nodes[i - 1]
        invariant Meaning() == Pass(s, ids, env, turn) && fired == Fired(s, ids, env, turn) && processed == |fired|
        invariant forall k :: 0 <= k < |nodes| ==> nodes[k] in old(nodes) || fresh(nodes[k])
        decreases |ns| - turn
      {
        FirstOfRest(nodes, i, ns, turn, ids, s.nextId);
        NextVisit(s, ids, env, turn);
        LiveTime(i);
        var due;
        prev, te, due, i := Step(prev, te, env(turn), maxId, i, rest);
        if due {
          processed := processed + 1;
          fired := fired + [ids[turn]];
        }
        rest := rest[1..];
        turn := turn + 1;
      }
      assert |rest| == 0;
    }

    static lemma FirstOfRest(nodes: seq<TimeEvent>, i: nat, ns: seq<TimeEvent>, turn: nat, ids: seq<nat>, n: nat)
      requires i < |nodes| && turn <= |ns| && nodes[i..] == ns[turn..] && Below(ids, n) && |ids| == |ns|
      requires forall k :: 0 <= k < |ids| ==> ids[k] == ns[k].born
      ensures turn < |ns| && nodes[i] == ns[turn] && nodes[i].born == ids[turn] < n
    {
      assert nodes[i..][0] == ns[turn..][0];
    }

    /** aeSearchNearestTimer */
    method SearchNearestTimer() returns (nearest: TimeEvent?)
      requires Valid()
      ensures nearest == null <==> nodes == []
      ensures nearest != null ==> nearest in nodes && forall n :: n in nodes ==> !Earlier(n.when, nearest.when)
    {
      hide Sound, Cells, Different, Earlier, Linked;
      HeadIs();
      var te := head;
      nearest := null;
      ghost var i: nat, best: nat := 0, 0;
      while te != null
        invariant i <= |nodes| && te == NodeAt(nodes, i)
        invariant if i == 0 then nearest == null && best == 0 else best < i && nearest == nodes[best]
        invariant forall k :: 0 <= k < i ==> !Earlier(nodes[k].when, nodes[best].when)
        decreases |nodes| - i
      {
        ghost var was := best;
        if nearest == null || te.when.sec < nearest.when.sec
           || (te.when.sec == nearest.when.sec && te.when.ms < nearest.when.ms) {
          nearest := te;
          best := i;
        }
        forall k | 0 <= k < i + 1 ensures !Earlier(nodes[k].when, nodes[best].when) {
          NotEarlier(nodes[k].when, nodes[was].when, te.when);
        }
        NextIs(i);
        te := te.next;
        i := i + 1;
      }
    }

    /**
     Whether aeProcessEvents polls, and for how long when no file event fires: not at all with AE_DONT_WAIT, for ever
     without timers to wait for, and otherwise not past the time at which the first timer is due, and exactly up to it
     if none is due yet.
    */
    method Timeout(now: Time, timeEvents: bool, fileEvents: bool, dontWait: bool, maxfd: int)
      returns (polls: bool, wait: Wait)
      requires Valid() && Normal(now) && forall n :: n in nodes ==> Normal(n.when)
      ensures polls <==> (fileEvents && maxfd != -1) || (timeEvents && (maxfd != -1 || !dontWait))
      ensures polls && dontWait ==> wait == Sleep(0)
      ensures polls && !dontWait ==> (wait.Forever? <==> !timeEvents || nodes == [])
      ensures polls && !dontWait && wait.Sleep? ==>
                && (forall n, t :: n in nodes && Normal(t) && Total(now) <= Total(t) < Total(now) + wait.ms ==>
                                     !Due(n.when, t))
                && (wait.ms > 0 ==> exists n :: n in nodes && Total(n.when) == Total(now) + wait.ms)
                && (wait.ms == 0 ==> exists n :: n in nodes && Due(n.when, now))
    {
      wait := Forever;
      if !timeEvents && !fileEvents {
        return false, Forever;
      }
      polls := maxfd != -1 || (timeEvents && !dontWait);
      if polls {
        var shortest: TimeEvent? := null;
        if timeEvents && !dontWait {
          shortest := SearchNearestTimer();
        }
        if shortest != null {
          var ms := (shortest.when.sec - now.sec) * 1000 + shortest.when.ms - now.ms;
          wait := Sleep(if ms > 0 then ms else 0);
        } else if dontWait {
          wait := Sleep(0);
        }
      }
    }

    lemma IdsBound()
      requires Valid()
      ensures Below(Ids(), nextId) && Descending(Ids()) && StoreInv(Meaning()) && forall b :: b in live ==> b in Ids()
    {
      hide Linked;
      assert Sound(Cells(), nextId, live);
      forall i, j | 0 <= i < j < |nodes| ensures nodes[i].born > nodes[j].born {
        assert Cells()[i].born > Cells()[j].born;
      }
      forall i | 0 <= i < |nodes| ensures nodes[i].born < nextId {
        SoundBound(Cells(), nextId, live, i);
      }
      forall b | b in live ensures b < nextId && b in Ids() {
        assert HasLive(Cells(), b);
        var i :| 0 <= i < |Cells()| && Cells()[i].born == b && Cells()[i].id != DELETED;
        assert Ids()[i] == b;
      }
    }
  }

  lemma NotFired(s: Store, id: nat, e: Reply)
    requires id !in s.live
    ensures Visit(s, id, e) == s && !Fires(s, id, e)
  {
  }

  lemma SoundBound(cells: seq<Cell>, nextId: nat, live: map<nat, Time>, i: nat)
    requires Sound(cells, nextId, live) && i < |cells|
    ensures cells[i].born < nextId
  {
  }

  function SkewCell(c: Cell): Cell { c.(when := Time(0, c.when.ms)) }

  function SkewCells(cells: seq<Cell>): seq<Cell> { seq(|cells|, i requires 0 <= i < |cells| => SkewCell(cells[i])) }

  lemma SoundSkew(cells: seq<Cell>, nextId: nat, live: map<nat, Time>)
    requires Sound(cells, nextId, live)
    ensures Sound(SkewCells(cells), nextId, Skewed(Store(live, nextId)).live)
  {
    var after, l := SkewCells(cells), Skewed(Store(live, nextId)).live;
    forall b | b in l ensures HasLive(after, b) {
      assert HasLive(cells, b);
      var k :| 0 <= k < |cells| && cells[k].born == b && cells[k].id != DELETED;
      assert after[k] == SkewCell(cells[k]);
    }
  }
}
