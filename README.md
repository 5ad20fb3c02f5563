# sysfs GPIO controller — a Dafny model

This project models the bookkeeping core of `sysfs/gpio.py`, a Python module
that drives GPIO lines through the Linux sysfs interface (`/sys/class/gpio`).
The `Controller` keeps a registry of allocated pins (`_allocated_pins`). It
checks each allocation against the permitted numbers (`_available_pins`). It
exports and unexports lines through the kernel's control files. It keeps the
value descriptor of every input pin in an epoll set. It delivers batches of
readiness events to the pins' callbacks. A `Pin` writes its direction, edge and
active-low attributes when it is constructed.

The model has six modules:

- `SysfsPaths` (`paths.dfy`): the decimal rendering of a line number (`'%d'`)
  and the control-file paths built from it. Proved: the rendering parses back,
  and two attribute paths coincide only for the same line and attribute.
- `SysfsKernel` (`kernel.dfy`): the kernel as abstract state, held in a
  `Kernel` class. It has the set of exported lines, a log of every write to a
  sysfs file, and the table of open descriptors. `open` returns the lowest free
  descriptor, which is the POSIX rule.
- `GpioDefs` (`defs.dfy`): directions, edges, active-low modes and one error
  per exception the core raises. It also models a callback argument under
  Python's truth test and `callable`.
- `GpioPin` (`pin.dfy`): the `Pin` class; its constructor as the method
  `NewPin`, proved against the function `PinSetup` (the writes it makes and
  where it raises); `changed`; and the value-setter encoding.
- `GpioDispatch` (`dispatch.dfy`): the specification of event delivery,
  `Dispatch`, with its properties. A call is delivered exactly once per
  handled event on the pin's descriptor. No call goes to an unknown
  descriptor. Delivering two batches equals delivering their concatenation.
- `GpioController` (`controller.dfy`): the `Controller` class. Its invariant
  `Valid()` says four things:
  - every pin is filed under its number;
  - every pin's line is exported;
  - every pin holds its own value file open;
  - the poll set is exactly the descriptors of the allocated input pins, each
    registered with `EPOLLPRI | EPOLLET`.
  `AllocPin`, `DeallocPin`, `GetPinState` and `Stop` preserve it. Each one
  states the error it raises and exactly what changes.

Points of the code that the model keeps as they are:

- `dealloc_pin` writes the unexport file before it unregisters the pin from
  the poll set.
- Every input pin is registered for polling, with or without a callback.
- Pin construction can raise only after the line has been exported and its
  value file opened. When it raises for `active_low`, the direction and edge
  have already been written, and the line stays exported. `AllocPin` states
  this outcome.
- The check in `Pin.__init__` for a callback without an edge cannot fail when
  it is reached from `alloc_pin`: an edge in `EDGES` is never empty.
  `AllocChecked` takes that as a precondition.
- The module never calls `close` on a value file. As a modelling choice, the
  model keeps every value descriptor open (see "Left out").

## Model

| member | source | states |
|---|---|---|
| SysfsPaths.DecimalRoundTrip | sysfs/gpio.py:245 | the `'%d'` rendering of any line number is a well-formed decimal that parses back to that number |
| SysfsPaths.DecimalInjective | sysfs/gpio.py:273 | two different line numbers never write the same string to the export or unexport file |
| SysfsPaths.AttributePath | sysfs/gpio.py:55-59 | every attribute path extends the line's directory path `/sys/class/gpio/gpioN` |
| SysfsPaths.AttributePathsDistinct | sysfs/gpio.py:159-172 | two attribute paths are equal iff they name the same line and the same attribute |
| SysfsKernel.Kernel.Export | sysfs/gpio.py:244-245 | writing to the export file logs the decimal number and adds exactly that line to the exported set |
| SysfsKernel.Kernel.Unexport | sysfs/gpio.py:272-273 | writing to the unexport file logs the decimal number and removes exactly that line from the exported set |
| SysfsKernel.Kernel.Write | sysfs/gpio.py:97-98 | an attribute write appends exactly one (path, data) entry to the log |
| SysfsKernel.Kernel.WriteFd | sysfs/gpio.py:133 | a write through an open descriptor is logged against the path that descriptor was opened on |
| SysfsKernel.Kernel.Open | sysfs/gpio.py:92 | open returns a non-negative descriptor that was not open, and maps it to the path; no other entry changes |
| SysfsKernel.LowestFreeDescriptor | sysfs/gpio.py:92 | the descriptor is free, and every smaller non-negative descriptor is in use |
| GpioPin.Pin.constructor | sysfs/gpio.py:86-90 | a new pin holds the given number, direction, callback, active_low and descriptor |
| GpioPin.Pin.SetCallback | sysfs/gpio.py:115-117 | the callback setter replaces the callback |
| GpioPin.Pin.SetValue | sysfs/gpio.py:131-134 | the value setter writes the level encoding to the pin's own value file and nothing else |
| GpioPin.ValueEncoding | sysfs/gpio.py:133 | the level written is "0" or "1", and it is "1" exactly when the value is truthy |
| GpioPin.Changed | sysfs/gpio.py:151-153 | `changed(state)` makes at most one call; it makes one iff the callback is callable, with (number, state) |
| GpioPin.PinSetup | sysfs/gpio.py:94-108 | construction raises MissingEdge iff a truthy callback comes without a truthy edge; otherwise it raises BadActiveLow iff active_low is outside {0, 1}; otherwise it succeeds |
| GpioPin.PinSetupAttributes | sysfs/gpio.py:97-108 | unless it stops at the missing edge, construction writes the direction first; it writes the edge file iff an edge is given, and then with that edge; it writes active_low iff active_low is 1, and then it writes "1" |
| GpioPin.PinSetupOwnLineOnly | sysfs/gpio.py:97-108 | construction writes only to the attribute files of its own line |
| GpioPin.NewPin | sysfs/gpio.py:86-108 | `Pin(...)` first opens the value file on a fresh descriptor, then makes exactly the writes of PinSetup; it raises exactly where PinSetup says, and on success returns a fresh pin holding the arguments and that descriptor |
| GpioDispatch.Owner | sysfs/gpio.py:340-341 | the pin found for a descriptor is allocated and holds that descriptor; if none is found, no allocated pin holds it |
| GpioDispatch.DispatchConcat | sysfs/gpio.py:332-342 | delivering two batches one after the other produces the calls of delivering their concatenation |
| GpioDispatch.DispatchAtMostOnePerEvent | sysfs/gpio.py:332-342 | a batch produces no more calls than it has events |
| GpioDispatch.DispatchCallsSound | sysfs/gpio.py:340-342 | every call goes to the callable callback of an allocated pin; it carries that pin's number and the value read from it; it answers a handled event on that pin's descriptor |
| GpioDispatch.DispatchExactlyOnce | sysfs/gpio.py:332-342 | a pin with a callable callback receives exactly one call per handled event on its descriptor; any other pin receives none |
| GpioDispatch.DispatchIgnoresUnknown | sysfs/gpio.py:333-342 | events that are filtered out, or whose descriptor matches no allocated pin, produce no calls |
| GpioDispatch.DispatchAfterRemoval | sysfs/gpio.py:336-342 | after a pin is removed from the registry, events on its descriptor reach nobody |
| GpioController.CheckPinValidity | sysfs/gpio.py:350-355 | fails with OutOfRange iff the number is not permitted; fails with AlreadyAllocated iff it is permitted but allocated; passes iff it is permitted and free |
| GpioController.AllocGate | sysfs/gpio.py:234-241 | the checks pass iff the number is permitted and free, the direction is in {in, out}, and, when the callback is truthy, the edge is in {rising, falling, both}; a failure of the number check wins over the others; BadDirection iff the number check passes and the direction is bad; BadEdge iff both earlier checks pass and a truthy callback comes with an edge outside the set |
| GpioController.InputFdsInsert | sysfs/gpio.py:251-254 | filing a pin under a new number adds its descriptor to the input descriptors iff it is an input |
| GpioController.InputFdsRemove | sysfs/gpio.py:277-280 | removing a pin removes its descriptor from the input descriptors iff it is an input, and removes nothing else |
| GpioController.UnexportWrites | sysfs/gpio.py:226-227 | one unexport write per number, in the given order |
| GpioController.CallsOnDescriptor | sysfs/gpio.py:336-342 | the scan of all allocated pins for a descriptor produces exactly the calls of that descriptor's owner |
| GpioController.Controller.DistinctDescriptors | sysfs/gpio.py:92 | in a valid controller no two allocated pins share a descriptor |
| GpioController.Controller.constructor | sysfs/gpio.py:180-184 | a new controller has no pins, an empty poll set, no permitted numbers, and is running; it is valid |
| GpioController.Controller.SetAvailablePins | sysfs/gpio.py:214-216 | the setter replaces the permitted numbers |
| GpioController.Controller.RegisterPin | sysfs/gpio.py:258-259 | registration adds the pin's descriptor with mask EPOLLPRI \| EPOLLET; a descriptor already present is refused |
| GpioController.Controller.UnregisterPin | sysfs/gpio.py:262-263 | unregistration removes exactly the pin's descriptor; a descriptor that is not present is refused |
| GpioController.Controller.AllocPin | sysfs/gpio.py:230-255 | if the checks fail, it raises their error and changes nothing. Otherwise the line is exported, with an export write only if it was not exported before; the pin's writes follow. It raises BadActiveLow iff active_low is outside {0, 1}, and then the registry and poll set are unchanged. On success the number maps to the new pin, other entries are unchanged, and the descriptor is polled iff the direction is in. The invariant holds throughout |
| GpioController.Controller.AllocChecked | sysfs/gpio.py:243-255 | once the checks pass: export if needed, construct the pin, file it; the same outcome as AllocPin, and the invariant is kept |
| GpioController.Controller.Install | sysfs/gpio.py:251-254 | a new pin is registered for polling iff it is an input and is filed under its number; the invariant is kept |
| GpioController.Controller.DeallocPin | sysfs/gpio.py:266-280 | fails with NotAllocated iff the number is absent, and then changes nothing. Otherwise it logs one unexport write and unexports that line. It drops the pin's descriptor from the poll set iff it is an input, and removes exactly that key. The invariant is kept |
| GpioController.Controller.GetPin | sysfs/gpio.py:283-285 | the lookup succeeds iff the number is allocated, returning the pin filed under it; otherwise it raises the lookup error |
| GpioController.Controller.GetPinState | sysfs/gpio.py:306-325 | fails with NotAllocated iff the number is absent; otherwise it reports whether the value read is positive. The poll set ends as it began and the invariant is kept |
| GpioController.Controller.Stop | sysfs/gpio.py:219-227 | clears the running flag and deallocates every pin present at the call, each once, in some order. The registry and the poll set end empty. Exactly those lines are unexported, with one unexport write each in that order |
| GpioController.Controller.PollQueueEvent | sysfs/gpio.py:331-342 | the calls made for a batch are exactly Dispatch of the registry at the call, so every GpioDispatch lemma applies |
| GpioController.AllocThenDealloc | sysfs/gpio.py:230-280 | allocation succeeds iff the checks pass and active_low is in {0, 1}. Deallocating after a success restores the registry and the poll set. A line that was not exported before is not exported afterwards |

## Left out

- The epoll wait loop and its background thread (`_poll_queue_loop`) are left out: their point is concurrency. `PollQueueEvent` receives an event batch as a parameter.
- The Twisted reactor wiring and the `__new__` singleton are left out. `Controller` is an ordinary class, and its kernel is passed to the constructor. Logging is left out.
- `set_pin` and `reset_pin` are not modelled. They call `pin.set()` and `pin.reset()`, which `Pin` does not define.
- The `value` getter is not modelled. The `@callback.setter` that follows it replaces it, and it compares a text read with `b'1\n'`.
- `Pin.read()` is not defined anywhere in the module. `GetPinState` and `PollQueueEvent` take its result as an oracle `read` from pin number to value, which always returns.
- GetPinState: its claim that the poll set ends as it began holds only for a `read` that returns. In the code as written, `pin.read()` (sysfs/gpio.py:317) raises `AttributeError` after an input pin has been unregistered (sysfs/gpio.py:315), so the re-registration at sysfs/gpio.py:320 is never reached and the poll set loses that descriptor. A later `dealloc_pin` of that pin then fails in `unregister` (sysfs/gpio.py:278) after its unexport write, and the pin stays in the registry. The model does not capture this failure path.
- File I/O is not modelled as I/O. Exporting, unexporting and attribute writes become updates of `Kernel` state. Kernel write errors (EBUSY, EINVAL) and failures of `open` are not modelled.
- `_check_pin_already_exported` tests `os.path.isdir`. The model tests membership of the exported set.
- Errors from `epoll.register`/`unregister` are preconditions of `RegisterPin` and `UnregisterPin`. The invariant shows that no caller violates them.
- Dictionary iteration order is not modelled. `Stop` and `CallsOnDescriptor` visit the entries in an unspecified order. The ghost out-parameter `order` of `Stop` records which order was taken.
- `Stop` iterates over a copy of the registry. Deallocation removes exactly the visited key, so the model iterates over the keys still filed. These are the same numbers.
- `direction is INPUT` (identity) is modelled as string equality.
- Python's dynamic values are narrowed. `active_low` is an integer, so `True` (which the module would write as "True") is not modelled. `edge` is None or a string. A callback is absent, callable, or a non-callable object with a given truth value.
- A callback is recorded as a `Call` value, not run. The model does not cover a callback that changes the registry while a batch is delivered.
- Closing of value files is not modelled. The source relies on the file object's finalizer to close the value file, once a deallocated pin is no longer referenced or once a `Pin(...)` that raised is dropped. The model keeps every descriptor open, so descriptors are never reused.
