/**
 * The controller: the registry of allocated pins, the poll set of their value
 * descriptors, and the operations that allocate, look up, read, release and
 * notify pins.
 */
module GpioController {
  import opened SysfsPaths
  import opened SysfsKernel
  import opened GpioDefs
  import opened GpioPin
  import opened GpioDispatch

  /** `_check_pin_validity`: the number must be permitted and not yet allocated. */
  function CheckPinValidity(available: seq<int>, taken: set<int>, number: int): (r: Outcome<Error>)
    ensures r == Fail(OutOfRange) <==> number !in available
    ensures r == Fail(AlreadyAllocated) <==> number in available && number in taken
    ensures r == Pass <==> number in available && number !in taken
  {
    if number !in available then Fail(OutOfRange)
    else if number in taken then Fail(AlreadyAllocated)
    else Pass
  }

  /**
   * The checks `alloc_pin` makes before it touches the kernel, in order: the
   * number, the direction, and the edge when a callback is given.
   */
  function AllocGate(available: seq<int>, taken: set<int>, number: int, direction: string,
                     callback: Callback, edge: Option<string>): (r: Outcome<Error>)
    ensures r == Pass <==>
      number in available && number !in taken && direction in Directions
      && (Truthy(callback) ==> IsEdge(edge))
    ensures r.Fail? ==> r.error in {OutOfRange, AlreadyAllocated, BadDirection, BadEdge}
    ensures CheckPinValidity(available, taken, number).Fail? ==> r == CheckPinValidity(available, taken, number)
    ensures r == Fail(BadDirection) <==>
      CheckPinValidity(available, taken, number).Pass? && direction !in Directions
    ensures r == Fail(BadEdge) <==>
      CheckPinValidity(available, taken, number).Pass? && direction in Directions
      && Truthy(callback) && !IsEdge(edge)
  {
    var v := CheckPinValidity(available, taken, number);
    if v.Fail? then v
    else if direction !in Directions then Fail(BadDirection)
    else if Truthy(callback) && !IsEdge(edge) then Fail(BadEdge)
    else Pass
  }

  /** The descriptors of the allocated input pins: what the poll set must hold. */
  function InputFds(pins: map<int, Pin>): set<int>
  {
    set n | n in pins && pins[n].direction == Input :: pins[n].fd
  }

  ghost predicate DistinctFds(pins: map<int, Pin>)
  {
    forall a, b | a in pins && b in pins && pins[a].fd == pins[b].fd :: a == b
  }

  /** Adding a pin under a new number adds its descriptor iff it is an input. */
  lemma InputFdsInsert(pins: map<int, Pin>, n: int, p: Pin)
    requires n !in pins
    ensures InputFds(pins[n := p]) == InputFds(pins) + (if p.direction == Input then {p.fd} else {})
  {
    var after := pins[n := p];
    if p.direction == Input {
      assert after[n] == p;
    }
    forall fd | fd in InputFds(after)
      ensures fd in InputFds(pins) + (if p.direction == Input then {p.fd} else {})
    {
      var m :| m in after && after[m].direction == Input && after[m].fd == fd;
      if m != n {
        assert pins[m] == after[m];
      }
    }
    forall fd | fd in InputFds(pins)
      ensures fd in InputFds(after)
    {
      var m :| m in pins && pins[m].direction == Input && pins[m].fd == fd;
      assert after[m] == pins[m];
    }
  }

  /** Removing a pin removes its descriptor iff it is an input, and nothing else. */
  lemma InputFdsRemove(pins: map<int, Pin>, n: int)
    requires n in pins && DistinctFds(pins)
    ensures InputFds(pins - {n}) ==
      InputFds(pins) - (if pins[n].direction == Input then {pins[n].fd} else {})
  {
    var after := pins - {n};
    forall fd | fd in InputFds(pins) && !(pins[n].direction == Input && fd == pins[n].fd)
      ensures fd in InputFds(after)
    {
      var m :| m in pins && pins[m].direction == Input && pins[m].fd == fd;
      assert m != n;
      assert after[m] == pins[m];
    }
  }

  /** The unexport writes for the numbers in `order`, in that order. */
  function UnexportWrites(order: seq<int>): (ws: seq<FileWrite>)
    ensures |ws| == |order|
    ensures forall i :: 0 <= i < |order| ==> ws[i] == UnexportWrite(order[i])
    decreases |order|
  {
    if order == [] then []
    else UnexportWrites(order[..|order| - 1]) + [UnexportWrite(order[|order| - 1])]
  }

  // The next five lemmas are facts Dafny knows, stated apart so that the loop
  // step of Stop and the steps of AllocThenDealloc each use one instance of
  // them instead of searching the whole state for it.

  /** One more unexport after a log extended by `order`'s unexports extends it by those of `order + [n]`. */
  lemma UnexportWritesAppend(log: seq<FileWrite>, order: seq<int>, n: int)
    ensures log + UnexportWrites(order + [n]) == log + UnexportWrites(order) + [UnexportWrite(n)]
  {
    assert (order + [n])[..|order|] == order;
  }

  /** Removing the keys `done`, then `n`, removes `done + {n}`; likewise for a set. */
  lemma RemoveOneMore<V>(m: map<int, V>, s: set<int>, done: set<int>, n: int)
    ensures (m - done) - {n} == m - (done + {n})
    ensures (s - done) - {n} == s - (done + {n})
  {
  }

  /** Filing a new key and removing it again gives the map back. */
  lemma InsertThenRemove<V>(m: map<int, V>, k: int, v: V)
    requires k !in m
    ensures m[k := v] - {k} == m
  {
  }

  /** Adding a new element and removing it again gives the set back. */
  lemma AddThenRemove(s: set<int>, n: int)
    requires n !in s
    ensures (s + {n}) - {n} == s
  {
  }

  /** Appending a new number to a listing of the set `done` lists `done + {n}`. */
  lemma RecordOneMore(order: seq<int>, done: set<int>, n: int)
    requires multiset(order) == multiset(done) && n !in done
    ensures multiset(order + [n]) == multiset(done + {n})
  {
  }

  /** The registry as values: each pin's number, direction, callback and descriptor. */
  function View(pins: map<int, Pin>): Registry
    reads pins.Values
  {
    map n | n in pins :: PinInfo(pins[n].number, pins[n].direction, pins[n].callback, pins[n].fd)
  }

  /**
   * The inner loop of `_poll_queue_event`: visits every allocated pin and
   * calls `changed(read())` on those whose descriptor is `fd`.
   */
  method CallsOnDescriptor(pins: map<int, Pin>, fd: int, read: int -> int) returns (found: seq<Call>)
    requires WellFormed(View(pins))
    ensures found == OwnerCalls(View(pins), fd, read)
  {
    ghost var reg := View(pins);
    ghost var owner := Owner(reg, fd);
    var pending := pins.Keys;
    found := [];
    while pending != {}
      invariant pending <= pins.Keys
      invariant found == if owner.Some? && owner.value !in pending then OwnerCalls(reg, fd, read) else []
      decreases |pending|
    {
      var n := Pick(pending);
      var pin := pins[n];
      if pin.fd == fd {
        assert reg[n].fd == fd;
        assert owner == Some(n);
        found := found + Changed(pin.callback, pin.number, read(pin.number));
      }
      pending := pending - {n};
    }
  }

  class Controller {
    /** The sysfs tree and descriptor table the controller works on. */
    const kernel: Kernel
    /** `_allocated_pins`. */
    var pins: map<int, Pin>
    /** `_available_pins`: the numbers the host permits. */
    var available: seq<int>
    /** `_running`: read by the poll thread. */
    var running: bool
    /** The epoll registrations: descriptor to event mask. */
    var polled: map<int, bv32>

    /**
     * Each pin is filed under its number, is exported and holds its value file
     * open; the poll set is exactly the descriptors of the input pins.
     */
    ghost predicate Valid()
      reads this, kernel
    {
      Consistent(kernel.exported, kernel.openFiles)
    }

    /** Valid, against a given export set and descriptor table. */
    ghost predicate Consistent(exported: set<int>, openFiles: map<int, string>)
      reads this
    {
      && (forall n | n in pins :: pins[n].number == n)
      && (forall n | n in pins :: n in exported)
      && (forall n | n in pins ::
            pins[n].fd in openFiles && openFiles[pins[n].fd] == AttributePath(n, Value))
      && polled.Keys == InputFds(pins)
      && (forall fd | fd in polled :: polled[fd] == PollMask)
    }

    /**
     * Exporting more lines and opening more files keeps the registry
     * consistent; stated apart so that AllocChecked uses one instance of it.
     */
    lemma ConsistentGrows(e: set<int>, o: map<int, string>, e': set<int>, o': map<int, string>)
      requires Consistent(e, o)
      requires e <= e' && forall fd | fd in o :: fd in o' && o'[fd] == o[fd]
      ensures Consistent(e', o')
    {
    }

    /** What the event handler sees of the registry. */
    function Snapshot(): Registry
      reads this, pins.Values
    {
      View(pins)
    }

    /** No two allocated pins share a descriptor: each holds its own line's value file. */
    lemma DistinctDescriptors()
      requires Valid()
      ensures DistinctFds(pins)
      ensures WellFormed(Snapshot())
    {
      forall a, b | a in pins && b in pins && pins[a].fd == pins[b].fd
        ensures a == b
      {
        AttributePathsDistinct(a, Value, b, Value);
      }
    }

    constructor (k: Kernel)
      ensures Valid() && kernel == k
      ensures pins == map[] && polled == map[] && available == [] && running
    {
      kernel := k;
      pins := map[];
      polled := map[];
      available := [];
      running := true;
    }

    /** The `available_pins` setter. */
    method SetAvailablePins(numbers: seq<int>)
      modifies this`available
      ensures available == numbers
    {
      available := numbers;
    }

    /** `_poll_queue_register_pin`: epoll.register rejects a descriptor already present. */
    method RegisterPin(pin: Pin)
      requires pin.fd !in polled
      modifies this`polled
      ensures polled == old(polled)[pin.fd := PollMask]
    {
      polled := polled[pin.fd := PollMask];
    }

    /** `_poll_queue_unregister_pin`: epoll.unregister rejects a descriptor not present. */
    method UnregisterPin(pin: Pin)
      requires pin.fd in polled
      modifies this`polled
      ensures polled == old(polled) - {pin.fd}
    {
      polled := polled - {pin.fd};
    }

    /**
     * `alloc_pin`: fails as AllocGate says without touching anything;
     * otherwise continues with AllocChecked.
     */
    method AllocPin(number: int, direction: string, callback: Callback, edge: Option<string>, activeLow: int)
      returns (r: Result<Pin, Error>, ghost fd: int)
      requires Valid()
      modifies this`pins, this`polled, kernel`exported, kernel`log, kernel`openFiles
      ensures Valid()
      ensures r.Err? ==> r.error != MissingEdge
      ensures AllocGate(old(available), old(pins).Keys, number, direction, callback, edge).Fail? ==>
        && r == Err(AllocGate(old(available), old(pins).Keys, number, direction, callback, edge).error)
        && pins == old(pins) && polled == old(polled)
        && kernel.exported == old(kernel.exported) && kernel.log == old(kernel.log)
        && kernel.openFiles == old(kernel.openFiles)
      ensures AllocGate(old(available), old(pins).Keys, number, direction, callback, edge).Pass? ==>
        && kernel.exported == old(kernel.exported) + {number}
        && kernel.log == old(kernel.log)
             + (if number in old(kernel.exported) then [] else [ExportWrite(number)])
             + PinSetup(number, direction, callback, edge, activeLow).writes
        && fd !in old(kernel.openFiles)
        && kernel.openFiles == old(kernel.openFiles)[fd := AttributePath(number, Value)]
        && (r.Err? <==> activeLow !in ActiveLowModes)
        && (r.Err? ==> r.error == BadActiveLow && pins == old(pins) && polled == old(polled))
      ensures r.Ok? ==>
        && fresh(r.value) && r.value.fd == fd
        && r.value.number == number && r.value.direction == direction
        && r.value.callback == callback && r.value.activeLow == activeLow
        && pins == old(pins)[number := r.value]
        && polled == if direction == Input then old(polled)[fd := PollMask] else old(polled)
    {
      var gate := AllocGate(available, pins.Keys, number, direction, callback, edge);
      if gate.Fail? {
        r, fd := Err(gate.error), -1;
        return;
      }
      r, fd := AllocChecked(number, direction, callback, edge, activeLow);
    }

    /**
     * `alloc_pin` once its checks have passed: exports the line unless it is
     * exported already, constructs the pin, then installs it.
     */
    method AllocChecked(number: int, direction: string, callback: Callback, edge: Option<string>, activeLow: int)
      returns (r: Result<Pin, Error>, ghost fd: int)
      requires Valid()
      requires number !in pins && (Truthy(callback) ==> IsEdge(edge))
      modifies this`pins, this`polled, kernel`exported, kernel`log, kernel`openFiles
      ensures Valid()
      ensures kernel.exported == old(kernel.exported) + {number}
      ensures kernel.log == old(kernel.log)
                + (if number in old(kernel.exported) then [] else [ExportWrite(number)])
                + PinSetup(number, direction, callback, edge, activeLow).writes
      ensures fd !in old(kernel.openFiles)
      ensures kernel.openFiles == old(kernel.openFiles)[fd := AttributePath(number, Value)]
      ensures r.Err? <==> activeLow !in ActiveLowModes
      ensures r.Err? ==> r.error == BadActiveLow && pins == old(pins) && polled == old(polled)
      ensures r.Ok? ==>
        && fresh(r.value) && r.value.fd == fd
        && r.value.number == number && r.value.direction == direction
        && r.value.callback == callback && r.value.activeLow == activeLow
        && pins == old(pins)[number := r.value]
        && polled == if direction == Input then old(polled)[fd := PollMask] else old(polled)
    {
      ghost var exported0, openFiles0 := kernel.exported, kernel.openFiles;
      if number !in kernel.exported {
        kernel.Export(number);
      }
      var made;
      made, fd := NewPin(kernel, number, direction, callback, edge, activeLow);
      ConsistentGrows(exported0, openFiles0, kernel.exported, kernel.openFiles);
      if made.Err? {
        r := Err(made.error);
        return;
      }
      var pin := made.value;
      Install(pin);
      r := Ok(pin);
    }

    /**
     * The end of `alloc_pin`: registers the new pin for polling iff it is an
     * input, then files it under its number.
     */
    method Install(pin: Pin)
      requires Valid()
      requires pin.number !in pins && pin.number in kernel.exported
      requires pin.fd in kernel.openFiles && kernel.openFiles[pin.fd] == AttributePath(pin.number, Value)
      requires forall n | n in pins :: pins[n].fd != pin.fd
      modifies this`pins, this`polled
      ensures Valid()
      ensures pins == old(pins)[pin.number := pin]
      ensures polled == if pin.direction == Input then old(polled)[pin.fd := PollMask] else old(polled)
    {
      assert pin.fd !in polled;
      if pin.direction == Input {
        RegisterPin(pin);
      }
      InputFdsInsert(pins, pin.number, pin);
      pins := pins[pin.number := pin];
    }

    /**
     * `dealloc_pin`: fails if the number is not allocated; otherwise writes it
     * to unexport, drops the pin from the poll set if it is an input, and
     * removes exactly that entry.
     */
    method DeallocPin(number: int) returns (r: Outcome<Error>)
      requires Valid()
      modifies this`pins, this`polled, kernel`exported, kernel`log
      ensures Valid()
      ensures r.Fail? <==> number !in old(pins)
      ensures r.Fail? ==>
        && r.error == NotAllocated
        && pins == old(pins) && polled == old(polled)
        && kernel.exported == old(kernel.exported) && kernel.log == old(kernel.log)
      ensures r.Pass? ==>
        && pins == old(pins) - {number}
        && kernel.exported == old(kernel.exported) - {number}
        && kernel.log == old(kernel.log) + [UnexportWrite(number)]
        && polled == if old(pins)[number].direction == Input
                     then old(polled) - {old(pins)[number].fd}
                     else old(polled)
    {
      if number !in pins {
        r := Fail(NotAllocated);
        return;
      }
      DistinctDescriptors();
      kernel.Unexport(number);
      var pin := pins[number];
      if pin.direction == Input {
        UnregisterPin(pin);
      }
      InputFdsRemove(pins, number);
      pins := pins - {number};
      r := Pass;
    }

    /** `get_pin`: the pin filed under the number; a missing key raises. */
    function GetPin(number: int): (r: Result<Pin, Error>)
      reads this, kernel
      ensures r.Ok? <==> number in pins
      ensures r.Err? ==> r.error == UnknownPin
      ensures r.Ok? ==> r.value in pins.Values
      ensures r.Ok? && Valid() ==> r.value.number == number
    {
      if number in pins then Ok(pins[number]) else Err(UnknownPin)
    }

    /**
     * `get_pin_state`: fails if the number is not allocated; otherwise takes an
     * input pin out of the poll set around the read and puts it back, and
     * reports whether the value read is positive. `read` stands for the
     * values the pins' reads return.
     */
    method GetPinState(number: int, read: int -> int) returns (r: Result<bool, Error>)
      requires Valid()
      modifies this`polled
      ensures Valid() && polled == old(polled)
      ensures r.Err? <==> number !in pins
      ensures r.Err? ==> r.error == NotAllocated
      ensures r.Ok? ==> (r.value <==> read(number) > 0)
    {
      if number !in pins {
        r := Err(NotAllocated);
        return;
      }
      var pin := pins[number];
      if pin.direction == Input {
        UnregisterPin(pin);
      }
      var val := read(pin.number);
      if pin.direction == Input {
        RegisterPin(pin);
      }
      assert polled == old(polled);
      if val <= 0 {
        r := Ok(false);
      } else {
        r := Ok(true);
      }
    }

    /**
     * `stop`: clears the running flag, then deallocates every pin present at
     * the call, in some order (`order`), leaving the registry and the poll set
     * empty.
     */
    method Stop() returns (ghost order: seq<int>)
      requires Valid()
      modifies this`running, this`pins, this`polled, kernel`exported, kernel`log
      ensures Valid() && !running
      ensures pins == map[] && polled == map[]
      ensures multiset(order) == multiset(old(pins).Keys)
      ensures kernel.exported == old(kernel.exported) - old(pins).Keys
      ensures kernel.log == old(kernel.log) + UnexportWrites(order)
    {
      running := false;
      ghost var atCall, exported0, log0 := pins, kernel.exported, kernel.log;
      ghost var done: set<int> := {};
      order := [];
      // The numbers still to release are those of the copy taken at the call
      // that are not done yet: exactly the keys still filed.
      while pins.Keys != {}
        invariant Valid() && !running
        invariant pins == atCall - done && done <= atCall.Keys
        invariant multiset(order) == multiset(done)
        invariant kernel.exported == exported0 - done
        invariant kernel.log == log0 + UnexportWrites(order)
        decreases pins.Keys
      {
        var n := Pick(pins.Keys);
        var res := DeallocPin(n);
        RemoveOneMore(atCall, exported0, done, n);
        UnexportWritesAppend(log0, order, n);
        RecordOneMore(order, done, n);
        done, order := done + {n}, order + [n];
      }
      assert done == atCall.Keys;
      assert pins == map[] && polled.Keys == {};
    }

    /**
     * `_poll_queue_event`: for each event in batch order, unless its flags
     * miss EPOLLPRI | EPOLLET, calls `changed(read())` on every allocated
     * pin whose descriptor is the event's; `read` stands for the values the
     * pins' reads return.
     */
    method PollQueueEvent(events: seq<Event>, read: int -> int) returns (calls: seq<Call>)
      requires Valid()
      ensures calls == Dispatch(Snapshot(), events, read)
    {
      DistinctDescriptors();
      ghost var reg := Snapshot();
      calls := [];
      var i := 0;
      while i < |events|
        invariant 0 <= i <= |events|
        invariant calls == Dispatch(reg, events[..i], read)
      {
        var e := events[i];
        assert events[..i + 1][..i] == events[..i];
        if Selected(e.flags) {
          var found := CallsOnDescriptor(pins, e.fd, read);
          calls := calls + found;
        }
        i := i + 1;
      }
      assert events[..i] == events;
    }
  }

  /**
   * Allocating a line and, when that succeeds, deallocating it again leaves
   * the registry and the poll set as they were; a line that was not exported
   * before is not exported afterwards.
   */
  method AllocThenDealloc(c: Controller, number: int, direction: string, callback: Callback,
                          edge: Option<string>, activeLow: int) returns (ok: bool)
    requires c.Valid()
    modifies c`pins, c`polled, c.kernel
    ensures c.Valid()
    ensures c.pins == old(c.pins) && c.polled == old(c.polled)
    ensures ok <==>
      AllocGate(old(c.available), old(c.pins).Keys, number, direction, callback, edge).Pass?
      && activeLow in ActiveLowModes
    ensures ok && number !in old(c.kernel.exported) ==> c.kernel.exported == old(c.kernel.exported)
  {
    var r, fd := c.AllocPin(number, direction, callback, edge, activeLow);
    ok := r.Ok?;
    if r.Ok? {
      var d := c.DeallocPin(number);
      InsertThenRemove(old(c.pins), number, r.value);
      if r.value.direction == Input {
        InsertThenRemove(old(c.polled), fd, PollMask);
      }
      if number !in old(c.kernel.exported) {
        AddThenRemove(old(c.kernel.exported), number);
      }
    }
  }
}
