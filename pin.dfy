/**
 * One GPIO line: construction (the attribute writes and the checks between
 * them), the callback invocation on a change, and the value encoding.
 */
module GpioPin {
  import opened SysfsPaths
  import opened SysfsKernel
  import opened GpioDefs

  class Pin {
    const number: int
    const direction: string
    var callback: Callback
    const activeLow: int
    /** The descriptor of the line's open value file (`fileno()`). */
    const fd: int

    constructor (number: int, direction: string, callback: Callback, activeLow: int, fd: int)
      ensures this.number == number && this.direction == direction
      ensures this.callback == callback && this.activeLow == activeLow && this.fd == fd
    {
      this.number := number;
      this.direction := direction;
      this.callback := callback;
      this.activeLow := activeLow;
      this.fd := fd;
    }

    /** The `callback` property setter. */
    method SetCallback(cb: Callback)
      modifies this`callback
      ensures callback == cb
    {
      callback := cb;
    }

    /** The `value` setter: writes the level through the open value file. */
    method SetValue(k: Kernel, value: bool)
      requires fd in k.openFiles && k.openFiles[fd] == AttributePath(number, Value)
      modifies k`log
      ensures k.log == old(k.log) + [FileWrite(AttributePath(number, Value), ValueEncoding(value))]
    {
      k.WriteFd(fd, ValueEncoding(value));
    }
  }

  /** The level string written for a value: "1" when it is truthy, "0" otherwise. */
  function ValueEncoding(value: bool): (s: string)
    ensures s in {"0", "1"}
    ensures s == "1" <==> value
  {
    if value then "1" else "0"
  }

  /**
   * `Pin.changed(state)`: the callback is invoked as `(number, state)` exactly
   * when it is callable; anything else produces no call.
   */
  function Changed(callback: Callback, number: int, state: int): (calls: seq<Call>)
    ensures |calls| <= 1
    ensures calls != [] <==> callback.Handler?
    ensures forall c :: c in calls ==> c.number == number && c.state == state && c.handler == callback.id
  {
    if callback.Handler? then [Call(callback.id, number, state)] else []
  }

  /** The attribute writes a construction makes, and the error it stops at, if any. */
  datatype Setup = Setup(writes: seq<FileWrite>, error: Option<Error>)

  /**
   * What `Pin.__init__` writes, in order, and where it raises: a truthy
   * callback without a truthy edge stops before any write; otherwise the
   * direction is written, then the edge if one is given, then `active_low`
   * is checked and written only when it is non-zero.
   */
  function PinSetup(n: int, direction: string, callback: Callback, edge: Option<string>, activeLow: int): (s: Setup)
    ensures s.error == Some(MissingEdge) <==> Truthy(callback) && !EdgeGiven(edge)
    ensures s.error == Some(BadActiveLow) <==>
              !(Truthy(callback) && !EdgeGiven(edge)) && activeLow !in ActiveLowModes
    ensures s.error.None? <==> !(Truthy(callback) && !EdgeGiven(edge)) && activeLow in ActiveLowModes
  {
    if Truthy(callback) && !EdgeGiven(edge) then Setup([], Some(MissingEdge))
    else
      var attrs := [FileWrite(AttributePath(n, Direction), direction)]
        + (if EdgeGiven(edge) then [FileWrite(AttributePath(n, Edge), edge.value)] else []);
      if activeLow == 0 then Setup(attrs, None)
      else if activeLow !in ActiveLowModes then Setup(attrs, Some(BadActiveLow))
      else Setup(attrs + [FileWrite(AttributePath(n, ActiveLow), Decimal(activeLow))], None)
  }

  /** True when some write in `ws` goes to `path`. */
  predicate WritesTo(ws: seq<FileWrite>, path: string)
  {
    exists w :: w in ws && w.path == path
  }

  /**
   * Unless construction stops at the missing edge, the direction is written
   * first; the edge file is written iff an edge is given; the active_low file
   * is written iff active_low is 1, and then with "1".
   */
  lemma PinSetupAttributes(n: int, direction: string, callback: Callback, edge: Option<string>, activeLow: int)
    requires PinSetup(n, direction, callback, edge, activeLow).error != Some(MissingEdge)
    ensures var s := PinSetup(n, direction, callback, edge, activeLow);
      && |s.writes| >= 1
      && s.writes[0] == FileWrite(AttributePath(n, Direction), direction)
      && (WritesTo(s.writes, AttributePath(n, Edge)) <==> EdgeGiven(edge))
      && (EdgeGiven(edge) ==> FileWrite(AttributePath(n, Edge), edge.value) in s.writes)
      && (WritesTo(s.writes, AttributePath(n, ActiveLow)) <==> activeLow == ActiveLowOn)
      && (activeLow == ActiveLowOn ==> FileWrite(AttributePath(n, ActiveLow), "1") in s.writes)
  {
    var s := PinSetup(n, direction, callback, edge, activeLow);
    AttributePathsDistinct(n, Direction, n, Edge);
    AttributePathsDistinct(n, Direction, n, ActiveLow);
    AttributePathsDistinct(n, Edge, n, ActiveLow);
    if EdgeGiven(edge) {
      assert s.writes[1].path == AttributePath(n, Edge);
    }
    if activeLow == ActiveLowOn {
      assert Decimal(1) == "1";
      assert s.writes[|s.writes| - 1] == FileWrite(AttributePath(n, ActiveLow), "1");
    }
  }

  /** Construction writes only to the attribute files of its own line. */
  lemma PinSetupOwnLineOnly(n: int, direction: string, callback: Callback, edge: Option<string>,
                            activeLow: int, m: int, a: Attribute)
    requires m != n
    ensures !WritesTo(PinSetup(n, direction, callback, edge, activeLow).writes, AttributePath(m, a))
  {
    AttributePathsDistinct(n, Direction, m, a);
    AttributePathsDistinct(n, Edge, m, a);
    AttributePathsDistinct(n, ActiveLow, m, a);
  }

  /**
   * `Pin(number, direction, callback, edge, active_low)`: opens the value file,
   * then makes the writes of PinSetup and raises where it says.
   */
  method NewPin(k: Kernel, number: int, direction: string, callback: Callback, edge: Option<string>, activeLow: int)
    returns (r: Result<Pin, Error>, ghost fd: int)
    modifies k`openFiles, k`log
    ensures fd >= 0 && fd !in old(k.openFiles)
    ensures k.openFiles == old(k.openFiles)[fd := AttributePath(number, Value)]
    ensures k.log == old(k.log) + PinSetup(number, direction, callback, edge, activeLow).writes
    ensures r.Err? <==> PinSetup(number, direction, callback, edge, activeLow).error.Some?
    ensures r.Err? ==> r.error == PinSetup(number, direction, callback, edge, activeLow).error.value
    ensures r.Ok? ==> fresh(r.value) && r.value.fd == fd
    ensures r.Ok? ==> r.value.number == number && r.value.direction == direction
    ensures r.Ok? ==> r.value.callback == callback && r.value.activeLow == activeLow
  {
    var d := k.Open(AttributePath(number, Value));
    fd := d;
    if Truthy(callback) && !EdgeGiven(edge) {
      r := Err(MissingEdge);
      return;
    }
    k.Write(AttributePath(number, Direction), direction);
    if EdgeGiven(edge) {
      k.Write(AttributePath(number, Edge), edge.value);
    }
    if activeLow != 0 {
      if activeLow !in ActiveLowModes {
        r := Err(BadActiveLow);
        return;
      }
      k.Write(AttributePath(number, ActiveLow), Decimal(activeLow));
    }
    var pin := new Pin(number, direction, callback, activeLow, d);
    r := Ok(pin);
  }
}
