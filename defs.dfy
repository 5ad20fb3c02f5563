/**
 * The public vocabulary of the GPIO module: directions, edges, active-low
 * modes, the errors the controller raises, and how a callback argument
 * behaves under Python's truth test and `callable`.
 */
module GpioDefs {

  datatype Option<+T> = None | Some(value: T)

  datatype Result<+T, +E> = Ok(value: T) | Err(error: E)

  /** The outcome of an operation that returns nothing or raises. */
  datatype Outcome<+E> = Pass | Fail(error: E)

  /** The exceptions the core raises, one per distinct message. */
  datatype Error =
    | OutOfRange         // "Pin number out of range"
    | AlreadyAllocated   // "Pin already allocated"
    | BadDirection       // "Pin direction %s not in %s"
    | BadEdge            // "Pin edge %s not in %s"
    | MissingEdge        // "You must supply a edge to trigger callback on"
    | BadActiveLow       // "You must supply a value for active_low which is either 0 or 1."
    | NotAllocated       // "Pin %d not allocated"
    | UnknownPin         // the KeyError of a dictionary lookup

  const Input: string := "in"
  const Output: string := "out"
  const Directions: set<string> := {Input, Output}

  const Rising: string := "rising"
  const Falling: string := "falling"
  const Both: string := "both"
  const Edges: set<string> := {Rising, Falling, Both}

  const ActiveLowOn: int := 1
  const ActiveLowOff: int := 0
  const ActiveLowModes: set<int> := {ActiveLowOn, ActiveLowOff}

  /**
   * A callback argument: None, a callable handler (identified by `id`), or some
   * other object that is not callable and whose truth value is `truthy`.
   */
  datatype Callback = Absent | Handler(id: nat) | Inert(truthy: bool)

  /** Python's `if callback:`. */
  predicate Truthy(cb: Callback)
  {
    match cb
    case Absent => false
    case Handler(_) => true
    case Inert(t) => t
  }

  /** Python's `if edge:` for an edge argument that is None or a string. */
  predicate EdgeGiven(edge: Option<string>)
  {
    edge.Some? && edge.value != ""
  }

  /** Python's `edge in EDGES`; None is not an edge. */
  predicate IsEdge(edge: Option<string>)
  {
    edge.Some? && edge.value in Edges
  }

  /** Some element of a non-empty set: the next entry a dictionary iteration visits. */
  method Pick<T>(s: set<T>) returns (x: T)
    requires s != {}
    ensures x in s
  {
    x :| x in s;
  }

  /** One invocation `callback(number, state)` of the handler `handler`. */
  datatype Call = Call(handler: nat, number: int, state: int)
}
