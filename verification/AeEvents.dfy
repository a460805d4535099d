/**
 The file events of the ae event loop (ae.c) and its epoll and select back ends: after any operations, the greatest
 registered descriptor is known and the kernel's interest is exactly the table of masks.
*/
module AeEvents {

  datatype Mask = Mask(readable: bool, writable: bool)

  const NONE := Mask(false, false)

  function Or(a: Mask, b: Mask): Mask { Mask(a.readable || b.readable, a.writable || b.writable) }

  /** a & ~b */
  function Minus(a: Mask, b: Mask): Mask { Mask(a.readable && !b.readable, a.writable && !b.writable) }

  function And(a: Mask, b: Mask): Mask { Mask(a.readable && b.readable, a.writable && b.writable) }

  /** Handlers and client data are opaque numbers. */
  datatype FileEvent = FileEvent(mask: Mask, rproc: int, wproc: int, data: int)

  datatype FiredEvent = FiredEvent(fd: nat, mask: Mask)

  // ---------- the kernel ----------

  datatype Op = Add | Mod | Del

  /** An epoll instance. epoll_ctl refuses to add a known descriptor and to change or delete an unknown one. */
  class Epoll {
    var interest: map<nat, Mask>

    constructor ()
      ensures interest == map[]
    {
      interest := map[];
    }

    method Ctl(op: Op, fd: nat, events: Mask, healthy: bool) returns (ok: bool)
      modifies this
      ensures ok == (healthy && (op.Add? <==> fd !in old(interest)))
      ensures interest == if !ok then old(interest) else if op.Del? then old(interest) - {fd}
          else old(interest)[fd := events]
    {
      ok := healthy && (op.Add? <==> fd !in interest);
      if ok {
        interest := if op.Del? then interest - {fd} else interest[fd := events];
      }
    }
  }

  const FD_SETSIZE: nat := 1024

  /** One entry that epoll_wait returns. */
  datatype Report = Report(fd: nat, input: bool, output: bool, err: bool, hup: bool)

  /** What a poll makes of a descriptor: what it is ready for among what is asked; a broken one counts as writable. */
  function Seen(mask: Mask, ready: Mask, broken: bool): Mask {
    if mask == NONE then NONE else Or(And(mask, ready), Mask(false, broken))
  }

  /** What epoll_wait returns: the descriptors of interest that are ready, and what for, and those that are broken. */
  ghost predicate EpollReports(batch: seq<Report>, interest: map<nat, Mask>, ready: nat -> Mask, broken: nat -> bool) {
    && (forall r :: r in batch ==>
          r.fd in interest && Mask(r.input, r.output) == And(interest[r.fd], ready(r.fd))
            && (r.err || r.hup <==> broken(r.fd)))
    && (forall fd :: fd in interest && (And(interest[fd], ready(fd)) != NONE || broken(fd)) ==>
                       exists r :: r in batch && r.fd == fd)
  }

  /** The two fd_sets of the select back end. */
  class Select {
    var rfds: set<nat>
    var wfds: set<nat>

    constructor ()
      ensures rfds == {} && wfds == {}
    {
      rfds, wfds := {}, {};
    }
  }

  datatype Api = UseEpoll(epoll: Epoll) | UseSelect(select: Select)

  // ---------- the tables, as values ----------

  function MaskAt(masks: seq<Mask>, fd: nat): Mask { if fd < |masks| then masks[fd] else NONE }

  /** maxfd is the greatest descriptor with a mask, or -1. */
  predicate IsMax(masks: seq<Mask>, maxfd: int) {
    && -1 <= maxfd < |masks| && (maxfd >= 0 ==> masks[maxfd] != NONE)
    && forall fd :: maxfd < fd < |masks| ==> masks[fd] == NONE
  }

  ghost predicate EpollMirrors(interest: map<nat, Mask>, masks: seq<Mask>) {
    forall fd: nat :: if MaskAt(masks, fd) == NONE then fd !in interest
        else fd in interest && interest[fd] == MaskAt(masks, fd)
  }

  ghost predicate SelectMirrors(rfds: set<nat>, wfds: set<nat>, masks: seq<Mask>) {
    forall fd: nat :: (fd in rfds <==> MaskAt(masks, fd).readable) && (fd in wfds <==> MaskAt(masks, fd).writable)
  }

  /** The events of a poll: every registered descriptor that is ready or broken, with what it is ready for. */
  ghost predicate Reports(fired: seq<FiredEvent>, masks: seq<Mask>, ready: nat -> Mask, broken: nat -> bool) {
    forall fd: nat, m: Mask :: m != NONE ==>
      (FiredEvent(fd, m) in fired <==> m == Seen(MaskAt(masks, fd), ready(fd), broken(fd)))
  }

  /** Taking this mask from descriptor fd changes nothing. */
  predicate Keeps(masks: seq<Mask>, fd: nat, mask: Mask) { fd >= |masks| || Minus(masks[fd], mask) == masks[fd] }

  lemma MaxAfterAdd(masks: seq<Mask>, maxfd: int, fd: nat, mask: Mask)
    requires IsMax(masks, maxfd) && fd < |masks|
    ensures var m := Or(masks[fd], mask);
      IsMax(masks[fd := m], if fd > maxfd then fd else maxfd) <==> m != NONE || fd < maxfd
  {
    var m := Or(masks[fd], mask);
    if m == NONE {
      assert masks[fd := m] == masks;
    }
  }

  lemma EpollAfterAdd(interest: map<nat, Mask>, masks: seq<Mask>, fd: nat, mask: Mask)
    requires EpollMirrors(interest, masks) && fd < |masks|
    ensures var m := Or(masks[fd], mask); EpollMirrors(interest[fd := m], masks[fd := m]) <==> m != NONE
  {
    var m := Or(masks[fd], mask);
    var after := masks[fd := m];
    assert MaskAt(after, fd) == m;
    assert forall k: nat :: k != fd ==> MaskAt(after, k) == MaskAt(masks, k);
  }

  lemma EpollAfterDelete(interest: map<nat, Mask>, masks: seq<Mask>, fd: nat, mask: Mask)
    requires EpollMirrors(interest, masks) && fd < |masks| && masks[fd] != NONE
    ensures var m := Minus(masks[fd], mask);
      EpollMirrors(if m == NONE then interest - {fd} else interest[fd := m], masks[fd := m])
  {
    var after := masks[fd := Minus(masks[fd], mask)];
    assert MaskAt(after, fd) == Minus(masks[fd], mask);
    assert forall k: nat :: k != fd ==> MaskAt(after, k) == MaskAt(masks, k);
  }

  lemma EpollUnchanged(interest: map<nat, Mask>, masks: seq<Mask>, fd: nat, m: Mask)
    requires EpollMirrors(interest, masks) && fd < |masks|
    ensures EpollMirrors(interest, masks[fd := m]) <==> m == masks[fd]
  {
    var after := masks[fd := m];
    assert MaskAt(after, fd) == m && MaskAt(masks, fd) == masks[fd];
    assert forall k: nat :: k != fd ==> MaskAt(after, k) == MaskAt(masks, k);
  }

  lemma SelectAfterDelete(rfds: set<nat>, wfds: set<nat>, masks: seq<Mask>, fd: nat, mask: Mask)
    requires SelectMirrors(rfds, wfds, masks) && fd < |masks|
    ensures SelectMirrors(rfds - (if mask.readable then {fd} else {}), wfds - (if mask.writable then {fd} else {}),
                          masks[fd := Minus(masks[fd], mask)])
  {
    assert MaskAt(masks, fd) == masks[fd];
  }

  lemma SelectAfterAdd(rfds: set<nat>, wfds: set<nat>, masks: seq<Mask>, fd: nat, mask: Mask)
    requires SelectMirrors(rfds, wfds, masks) && fd < |masks|
    ensures SelectMirrors(rfds + (if mask.readable then {fd} else {}), wfds + (if mask.writable then {fd} else {}),
                          masks[fd := Or(masks[fd], mask)])
  {
    assert MaskAt(masks, fd) == masks[fd];
  }

  lemma SameMasks(a: seq<Mask>, b: seq<Mask>, maxfd: int)
    requires IsMax(a, maxfd) && maxfd < |b| && (forall k :: 0 <= k <= maxfd ==> b[k] == a[k])
    requires forall k :: maxfd < k < |b| ==> b[k] == NONE
    ensures IsMax(b, maxfd) && forall fd: nat :: MaskAt(a, fd) == MaskAt(b, fd)
  {
  }

  lemma SameInterest(interest: map<nat, Mask>, a: seq<Mask>, b: seq<Mask>)
    requires EpollMirrors(interest, a) && forall fd: nat :: MaskAt(a, fd) == MaskAt(b, fd)
    ensures EpollMirrors(interest, b)
  {
  }

  lemma SameSets(rfds: set<nat>, wfds: set<nat>, a: seq<Mask>, b: seq<Mask>)
    requires SelectMirrors(rfds, wfds, a) && forall fd: nat :: MaskAt(a, fd) == MaskAt(b, fd)
    ensures SelectMirrors(rfds, wfds, b)
  {
  }

  class EventLoop {
    var events: array<FileEvent>
    var maxfd: int
    var setsize: nat
    const api: Api

    ghost function Masks(): (masks: seq<Mask>)
      reads this, events
      ensures |masks| == events.Length && forall i :: 0 <= i < |masks| ==> masks[i] == events[i].mask
    {
      seq(events.Length, i reads this, events requires 0 <= i < events.Length => events[i].mask)
    }

    ghost function Kernel(): set<object>
    {
      match api case UseEpoll(e) => {e} case UseSelect(s) => {s}
    }

    /** The interest of the kernel is the mask table. */
    ghost predicate Mirrored()
      reads this, events, Kernel()
    {
      match api
      case UseEpoll(e) => EpollMirrors(e.interest, Masks())
      case UseSelect(s) => SelectMirrors(s.rfds, s.wfds, Masks())
    }

    ghost predicate Shaped()
      reads this, events
    {
      setsize == events.Length && (api.UseSelect? ==> setsize <= FD_SETSIZE)
    }

    ghost predicate Valid()
      reads this, events, Kernel()
    {
      Shaped() && IsMax(Masks(), maxfd) && Mirrored()
    }

    /** aeCreateEventLoop with a fresh back end. The new slots hold anything until their masks are cleared. */
    constructor (size: nat, api: Api, garbage: nat -> FileEvent)
      requires match api
        case UseEpoll(e) => e.interest == map[]
        case UseSelect(s) => s.rfds == {} && s.wfds == {} && size <= FD_SETSIZE
      ensures Valid() && this.api == api && setsize == size && maxfd == -1 && fresh(events)
      ensures forall fd :: 0 <= fd < size ==> Masks()[fd] == NONE
    {
      events := new FileEvent[size](i requires 0 <= i < size => garbage(i));
      setsize, maxfd, this.api := size, -1, api;
      new;
      var i := 0;
      while i < setsize
        invariant 0 <= i <= setsize == size == events.Length && fresh(events) && maxfd == -1 && this.api == api
        invariant forall k :: 0 <= k < i ==> events[k].mask == NONE
        modifies events
      {
        events[i] := events[i].(mask := NONE);
        i := i + 1;
      }
    }

    /** aeApiAddEvent: `healthy` says whether the kernel has the means to serve the call. */
    method ApiAddEvent(fd: nat, mask: Mask, healthy: bool) returns (ok: bool)
      requires Valid() && fd < setsize
      modifies Kernel()
      ensures ok == (healthy || api.UseSelect?)
      ensures match api
        case UseEpoll(e) => e.interest == if ok then old(e.interest)[fd := Or(Masks()[fd], mask)] else old(e.interest)
        case UseSelect(s) => s.rfds == old(s.rfds) + (if mask.readable then {fd} else {})
                             && s.wfds == old(s.wfds) + (if mask.writable then {fd} else {})
    {
      match api {
        case UseEpoll(e) =>
          var op := if events[fd].mask == NONE then Add else Mod;
          assert MaskAt(Masks(), fd) == events[fd].mask;
          ok := e.Ctl(op, fd, Or(events[fd].mask, mask), healthy);
        case UseSelect(s) =>
          if mask.readable { s.rfds := s.rfds + {fd}; }
          if mask.writable { s.wfds := s.wfds + {fd}; }
          ok := true;
      }
    }

    /**
     aeApiDelEvent. epoll_ctl is never asked to change or delete a descriptor it does not know; its result is not
     looked at.
    */
    method ApiDelEvent(fd: nat, mask: Mask, healthy: bool)
      requires Valid() && fd < setsize && events[fd].mask != NONE
      modifies Kernel()
      ensures match api
        case UseEpoll(e) =>
          var left := Minus(Masks()[fd], mask);
          e.interest == if !healthy then old(e.interest) else if left == NONE then old(e.interest) - {fd}
            else old(e.interest)[fd := left]
        case UseSelect(s) => s.rfds == old(s.rfds) - (if mask.readable then {fd} else {})
                             && s.wfds == old(s.wfds) - (if mask.writable then {fd} else {})
    {
      match api {
        case UseEpoll(e) =>
          var left := Minus(events[fd].mask, mask);
          assert MaskAt(Masks(), fd) == events[fd].mask;
          var ok := e.Ctl(if left != NONE then Mod else Del, fd, left, healthy);
        case UseSelect(s) =>
          if mask.readable { s.rfds := s.rfds - {fd}; }
          if mask.writable { s.wfds := s.wfds - {fd}; }
      }
    }

    /**
     aeCreateFileEvent. The loop stays valid exactly when the descriptor ends up with a mask, or when the empty mask
     changes nothing: under select, below maxfd.
    */
    method CreateFileEvent(fd: nat, mask: Mask, proc: int, data: int, healthy: bool) returns (ok: bool)
      requires Valid()
      modifies this`maxfd, events, Kernel()
      ensures ok == (fd < setsize && (healthy || api.UseSelect?))
      ensures Masks() == if ok then old(Masks())[fd := Or(old(Masks())[fd], mask)] else old(Masks())
      ensures !ok ==> Valid()
      ensures ok ==> (Valid() <==> mask != NONE || old(Masks())[fd] != NONE || (api.UseSelect? && fd < old(maxfd)))
      ensures ok ==> events[fd] == FileEvent(Or(old(events[fd].mask), mask),
                                             if mask.readable then proc else old(events[fd].rproc),
                                             if mask.writable then proc else old(events[fd].wproc), data)
      ensures forall k :: 0 <= k < setsize && (k != fd || !ok) ==> events[k] == old(events[k])
    {
      hide IsMax, EpollMirrors, SelectMirrors, Masks;
      if fd >= setsize {
        return false;
      }
      ok := ApiAddEvent(fd, mask, healthy);
      if !ok {
        return;
      }
      ghost var was := Masks();
      events[fd] := events[fd].(mask := Or(events[fd].mask, mask), data := data);
      if mask.readable { events[fd] := events[fd].(rproc := proc); }
      if mask.writable { events[fd] := events[fd].(wproc := proc); }
      assert Masks() == was[fd := Or(was[fd], mask)];
      MaxAfterAdd(was, maxfd, fd, mask);
      if fd > maxfd {
        maxfd := fd;
      }
      match api {
        case UseEpoll(e) => EpollAfterAdd(old(e.interest), was, fd, mask);
        case UseSelect(s) => SelectAfterAdd(old(s.rfds), old(s.wfds), was, fd, mask);
      }
    }

    /** aeDeleteFileEvent. The loop stays valid unless the kernel fails to take back what is taken from the mask. */
    method DeleteFileEvent(fd: nat, mask: Mask, healthy: bool)
      requires Valid()
      modifies this`maxfd, events, Kernel()
      ensures Shaped() && IsMax(Masks(), maxfd)
      ensures Valid() <==> healthy || api.UseSelect? || Keeps(old(Masks()), fd, mask)
      ensures Masks() == if fd < setsize then old(Masks())[fd := Minus(old(Masks())[fd], mask)] else old(Masks())
      ensures forall k :: 0 <= k < setsize ==> events[k] == old(events[k]).(mask := events[k].mask)
    {
      hide EpollMirrors, SelectMirrors, Masks;
      if fd >= setsize {
        return;
      }
      if events[fd].mask == NONE {
        assert Masks() == Masks()[fd := Minus(Masks()[fd], mask)];
        return;
      }
      ghost var was := Masks();
      ApiDelEvent(fd, mask, healthy);
      events[fd] := events[fd].(mask := Minus(events[fd].mask, mask));
      assert Masks() == was[fd := Minus(was[fd], mask)];
      if fd == maxfd && events[fd].mask == NONE {
        var j := maxfd - 1;
        while j >= 0
          modifies {}
          invariant -1 <= j < maxfd && forall k :: j < k < events.Length ==> events[k].mask == NONE
        {
          if events[j].mask != NONE {
            break;
          }
          j := j - 1;
        }
        maxfd := j;
      }
      match api {
        case UseEpoll(e) =>
          EpollAfterDelete(old(e.interest), was, fd, mask);
          EpollUnchanged(old(e.interest), was, fd, Minus(was[fd], mask));
        case UseSelect(s) => SelectAfterDelete(old(s.rfds), old(s.wfds), was, fd, mask);
      }
      assert Masks() == was[fd := Minus(was[fd], mask)];
      assert IsMax(Masks(), maxfd);
    }

    /** aeResizeSetSize: the table moves to a new array, whose new slots are cleared. */
    method ResizeSetSize(size: nat, garbage: nat -> FileEvent) returns (ok: bool)
      requires Valid()
      modifies this`events, this`setsize
      ensures Valid() && ok == (size == old(setsize) || (maxfd < size && !(api.UseSelect? && size >= FD_SETSIZE)))
      ensures setsize == if ok then size else old(setsize)
      ensures forall fd: nat :: MaskAt(Masks(), fd) == old(MaskAt(Masks(), fd))
      ensures forall k :: 0 <= k <= maxfd ==> events[k] == old(events[k])
      ensures events == old(events) || fresh(events)
    {
      hide EpollMirrors, SelectMirrors, Masks;
      if size == setsize {
        return true;
      }
      if maxfd >= size {
        return false;
      }
      if api.UseSelect? && size >= FD_SETSIZE {
        return false;
      }
      var grown := new FileEvent[size](i requires 0 <= i < size reads this`events,
          events => if i < events.Length then events[i] else garbage(i));
      ghost var was, slots := Masks(), events[..];
      events := grown;
      setsize := size;
      var i := maxfd + 1;
      while i < setsize
        modifies events
        invariant maxfd + 1 <= i <= setsize == size && fresh(events) && events == grown
        invariant forall k :: 0 <= k <= maxfd ==> events[k] == slots[k]
        invariant forall k :: maxfd < k < i ==> events[k].mask == NONE
      {
        events[i] := events[i].(mask := NONE);
        i := i + 1;
      }
      SameMasks(was, Masks(), maxfd);
      match api {
        case UseEpoll(e) => SameInterest(e.interest, was, Masks());
        case UseSelect(s) => SameSets(s.rfds, s.wfds, was, Masks());
      }
      ok := true;
    }

    /** aeApiPoll over epoll: errors and hang-ups count as writable. */
    method PollEpoll(batch: seq<Report>) returns (fired: seq<FiredEvent>)
      ensures |fired| == |batch|
      ensures forall j :: 0 <= j < |batch| ==>
                            var r := batch[j]; fired[j] == FiredEvent(r.fd, Mask(r.input, r.output || r.err || r.hup))
    {
      fired := [];
      var j := 0;
      while j < |batch|
        invariant j == |fired| <= |batch|
        invariant forall k :: 0 <= k < j ==>
                                var r := batch[k];
                                    fired[k] == FiredEvent(r.fd, Mask(r.input, r.output || r.err || r.hup))
      {
        var r := batch[j];
        var mask := NONE;
        if r.input { mask := Or(mask, Mask(true, false)); }
        if r.output { mask := Or(mask, Mask(false, true)); }
        if r.err { mask := Or(mask, Mask(false, true)); }
        if r.hup { mask := Or(mask, Mask(false, true)); }
        fired := fired + [FiredEvent(r.fd, mask)];
        j := j + 1;
      }
    }

    /** Through epoll, a valid loop sees exactly what its masks ask for, and what is broken. */
    lemma EpollSees(batch: seq<Report>, fired: seq<FiredEvent>, ready: nat -> Mask, broken: nat -> bool)
      requires Valid() && api.UseEpoll? && EpollReports(batch, api.epoll.interest, ready, broken) && |fired| == |batch|
      requires forall j :: 0 <= j < |batch| ==>
                            var r := batch[j]; fired[j] == FiredEvent(r.fd, Mask(r.input, r.output || r.err || r.hup))
      ensures Reports(fired, Masks(), ready, broken)
    {
      hide IsMax, Masks;
      var interest := api.epoll.interest;
      forall fd: nat, m: Mask | m != NONE
        ensures FiredEvent(fd, m) in fired <==> m == Seen(MaskAt(Masks(), fd), ready(fd), broken(fd))
      {
        if FiredEvent(fd, m) in fired {
          var j :| 0 <= j < |fired| && fired[j] == FiredEvent(fd, m);
          assert batch[j] in batch;
        }
        if m == Seen(MaskAt(Masks(), fd), ready(fd), broken(fd)) {
          assert fd in interest && (And(interest[fd], ready(fd)) != NONE || broken(fd));
          var r :| r in batch && r.fd == fd;
          var j :| 0 <= j < |batch| && batch[j] == r;
          assert fired[j] == FiredEvent(fd, m);
        }
      }
    }

    /** aeApiPoll over select, where select() leaves in each set the descriptors up to maxfd that are ready. */
    method PollSelect(ready: nat -> Mask) returns (fired: seq<FiredEvent>)
      requires Valid() && api.UseSelect?
      ensures Reports(fired, Masks(), ready, _ => false) && |fired| <= setsize
    {
      hide Masks, SelectMirrors;
      var s := api.select;
      var rset := set fd | fd in s.rfds && fd < maxfd + 1 && ready(fd).readable;
      var wset := set fd | fd in s.wfds && fd < maxfd + 1 && ready(fd).writable;
      fired := [];
      var j := 0;
      if |rset| + |wset| > 0 {
        while j <= maxfd
          invariant 0 <= j <= maxfd + 1 && |fired| <= j
          invariant FiredUpTo(fired, events, j, rset, wset)
        {
          var mask := NONE;
          if events[j].mask != NONE {
            if events[j].mask.readable && j in rset { mask := Or(mask, Mask(true, false)); }
            if events[j].mask.writable && j in wset { mask := Or(mask, Mask(false, true)); }
            fired := fired + [FiredEvent(j, mask)];
          }
          j := j + 1;
        }
      }
      SelectSees(fired, ready, rset, wset);
    }

    static ghost predicate FiredUpTo(fired: seq<FiredEvent>, events: array<FileEvent>, j: nat, rset: set<nat>,
            wset: set<nat>)
      reads events
    {
      forall fd: nat, m: Mask :: m != NONE ==>
        (FiredEvent(fd, m) in fired <==>
          fd < j && fd < events.Length && m == And(events[fd].mask, Mask(fd in rset, fd in wset)))
    }

    lemma SelectSees(fired: seq<FiredEvent>, ready: nat -> Mask, rset: set<nat>, wset: set<nat>)
      requires Valid() && api.UseSelect?
      requires rset == set fd | fd in api.select.rfds && fd < maxfd + 1 && ready(fd).readable
      requires wset == set fd | fd in api.select.wfds && fd < maxfd + 1 && ready(fd).writable
      requires if |rset| + |wset| > 0 then FiredUpTo(fired, events, maxfd + 1, rset, wset) else fired == []
      ensures Reports(fired, Masks(), ready, _ => false)
    {
      forall fd: nat, m: Mask | m != NONE
        ensures FiredEvent(fd, m) in fired <==> m == Seen(MaskAt(Masks(), fd), ready(fd), false)
      {
        assert fd in api.select.rfds <==> MaskAt(Masks(), fd).readable;
        assert fd in api.select.wfds <==> MaskAt(Masks(), fd).writable;
        if |rset| + |wset| == 0 {
          assert fd !in rset && fd !in wset;
        }
      }
    }
  }
}
