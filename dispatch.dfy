/**
 * Delivery of one batch of readiness events, `(fd, flags)` pairs, to the
 * callbacks of the allocated pins: the specification the controller's event
 * handler is proved against, and what follows from it.
 */
module GpioDispatch {
  import opened GpioDefs
  import opened GpioPin

  const EpollPri: bv32 := 0x002
  const EpollEt: bv32 := 0x8000_0000
  /** The mask every input pin is registered with, and the filter on events. */
  const PollMask: bv32 := EpollPri | EpollEt

  /** One entry of the list `poll()` returns. */
  datatype Event = Event(fd: int, flags: bv32)

  /** What the dispatcher sees of an allocated pin. */
  datatype PinInfo = PinInfo(number: int, direction: string, callback: Callback, fd: int)

  /** The allocated pins by number. */
  type Registry = map<int, PinInfo>

  /** An event is handled only if its flags share a bit with EPOLLPRI | EPOLLET. */
  predicate Selected(flags: bv32)
  {
    flags & PollMask != 0
  }

  /** Every pin is filed under its own number and no two pins share a descriptor. */
  ghost predicate WellFormed(reg: Registry)
  {
    && (forall n | n in reg :: reg[n].number == n)
    && (forall n, m | n in reg && m in reg && reg[n].fd == reg[m].fd :: n == m)
  }

  /** The pin whose value file is open on `fd`, if any. */
  ghost function Owner(reg: Registry, fd: int): (o: Option<int>)
    ensures o.Some? ==> o.value in reg && reg[o.value].fd == fd
    ensures o.None? ==> forall n | n in reg :: reg[n].fd != fd
  {
    if exists n :: n in reg && reg[n].fd == fd then
      var n :| n in reg && reg[n].fd == fd;
      Some(n)
    else
      None
  }

  /** The calls `changed(read())` makes on the pin owning `fd`, if any. */
  ghost function OwnerCalls(reg: Registry, fd: int, read: int -> int): seq<Call>
  {
    match Owner(reg, fd)
    case None => []
    case Some(n) => Changed(reg[n].callback, reg[n].number, read(reg[n].number))
  }

  /** The calls one event produces: none when its flags are filtered out. */
  ghost function EventCalls(reg: Registry, e: Event, read: int -> int): seq<Call>
  {
    if Selected(e.flags) then OwnerCalls(reg, e.fd, read) else []
  }

  /** The calls a batch produces: those of each event, in batch order. */
  ghost function Dispatch(reg: Registry, events: seq<Event>, read: int -> int): seq<Call>
    decreases |events|
  {
    if events == [] then []
    else Dispatch(reg, events[..|events| - 1], read) + EventCalls(reg, events[|events| - 1], read)
  }

  /** The number of calls carrying pin number n. */
  function CallsFor(calls: seq<Call>, n: int): nat
    decreases |calls|
  {
    if calls == [] then 0
    else CallsFor(calls[..|calls| - 1], n) + (if calls[|calls| - 1].number == n then 1 else 0)
  }

  /** The number of handled events on descriptor fd. */
  function EventsOn(events: seq<Event>, fd: int): nat
    decreases |events|
  {
    if events == [] then 0
    else EventsOn(events[..|events| - 1], fd)
         + (if events[|events| - 1].fd == fd && Selected(events[|events| - 1].flags) then 1 else 0)
  }

  lemma {:induction false} CallsForConcat(a: seq<Call>, b: seq<Call>, n: int)
    ensures CallsFor(a + b, n) == CallsFor(a, n) + CallsFor(b, n)
    decreases |b|
  {
    if b != [] {
      assert (a + b)[..|a + b| - 1] == a + b[..|b| - 1];
      CallsForConcat(a, b[..|b| - 1], n);
    } else {
      assert a + b == a;
    }
  }

  /** Delivering two batches one after the other is delivering their concatenation. */
  lemma {:induction false} DispatchConcat(reg: Registry, a: seq<Event>, b: seq<Event>, read: int -> int)
    ensures Dispatch(reg, a + b, read) == Dispatch(reg, a, read) + Dispatch(reg, b, read)
    decreases |b|
  {
    if b == [] {
      assert a + b == a;
    } else {
      assert (a + b)[..|a + b| - 1] == a + b[..|b| - 1];
      assert (a + b)[|a + b| - 1] == b[|b| - 1];
      DispatchConcat(reg, a, b[..|b| - 1], read);
    }
  }

  /** No event produces more than one call. */
  lemma {:induction false} DispatchAtMostOnePerEvent(reg: Registry, events: seq<Event>, read: int -> int)
    ensures |Dispatch(reg, events, read)| <= |events|
    decreases |events|
  {
    if events != [] {
      DispatchAtMostOnePerEvent(reg, events[..|events| - 1], read);
    }
  }

  /**
   * Every call goes to a callable callback of an allocated pin, carries the
   * value read from that pin, and answers a handled event on its descriptor.
   */
  lemma {:induction false} DispatchCallsSound(reg: Registry, events: seq<Event>, read: int -> int)
    requires WellFormed(reg)
    ensures forall c :: c in Dispatch(reg, events, read) ==>
      && c.number in reg
      && reg[c.number].callback == Handler(c.handler)
      && c.state == read(c.number)
      && exists e :: e in events && Selected(e.flags) && e.fd == reg[c.number].fd
    decreases |events|
  {
    if events != [] {
      var init := events[..|events| - 1];
      var last := events[|events| - 1];
      DispatchCallsSound(reg, init, read);
      forall c | c in Dispatch(reg, events, read)
        ensures c.number in reg && reg[c.number].callback == Handler(c.handler) && c.state == read(c.number)
        ensures exists e :: e in events && Selected(e.flags) && e.fd == reg[c.number].fd
      {
        if c in Dispatch(reg, init, read) {
          var e :| e in init && Selected(e.flags) && e.fd == reg[c.number].fd;
          assert e in events;
        } else {
          assert c in EventCalls(reg, last, read);
          assert last in events;
        }
      }
    }
  }

  /**
   * Exactly once: a pin with a callable callback gets one call per handled
   * event on its descriptor; any other pin gets none.
   */
  lemma {:induction false} DispatchExactlyOnce(reg: Registry, events: seq<Event>, read: int -> int, n: int)
    requires WellFormed(reg) && n in reg
    ensures CallsFor(Dispatch(reg, events, read), n)
            == if reg[n].callback.Handler? then EventsOn(events, reg[n].fd) else 0
    decreases |events|
  {
    if events != [] {
      var init := events[..|events| - 1];
      var last := events[|events| - 1];
      DispatchExactlyOnce(reg, init, read, n);
      CallsForConcat(Dispatch(reg, init, read), EventCalls(reg, last, read), n);
      var calls := EventCalls(reg, last, read);
      if Selected(last.flags) && last.fd == reg[n].fd {
        assert Owner(reg, last.fd) == Some(n);
        if reg[n].callback.Handler? {
          assert calls == [Call(reg[n].callback.id, n, read(n))];
          assert CallsFor(calls, n) == CallsFor([], n) + 1;
        } else {
          assert calls == [];
        }
      } else if Selected(last.flags) && Owner(reg, last.fd).Some? {
        var o := Owner(reg, last.fd).value;
        assert o != n;
        if calls != [] {
          assert calls == [Call(reg[o].callback.id, o, read(o))];
          assert CallsFor(calls, n) == CallsFor([], n) + 0;
        }
      }
    }
  }

  /**
   * Events that are filtered out, or whose descriptor belongs to no allocated
   * pin (a pin deallocated before delivery), produce no calls and no error.
   */
  lemma {:induction false} DispatchIgnoresUnknown(reg: Registry, events: seq<Event>, read: int -> int)
    requires forall e, n :: e in events && n in reg && Selected(e.flags) ==> reg[n].fd != e.fd
    ensures Dispatch(reg, events, read) == []
    decreases |events|
  {
    if events != [] {
      var last := events[|events| - 1];
      assert last in events;
      DispatchIgnoresUnknown(reg, events[..|events| - 1], read);
      assert Owner(reg, last.fd).None? || !Selected(last.flags);
    }
  }

  /** Once pin n is removed, events on its former descriptor reach nobody. */
  lemma DispatchAfterRemoval(reg: Registry, n: int, events: seq<Event>, read: int -> int)
    requires WellFormed(reg) && n in reg
    requires forall e :: e in events ==> e.fd == reg[n].fd
    ensures Dispatch(reg - {n}, events, read) == []
  {
    DispatchIgnoresUnknown(reg - {n}, events, read);
  }
}
