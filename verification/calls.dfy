/** What the two variants' log calls share: the four call forms, the
    payloads chained onto a statement, and the clock. */
module Calls {
  import opened Levels
  import opened Template
  import opened Replay

  /** A value inserted into a statement: text already formatted, or a
      closure that is invoked for its text. */
  datatype Payload = Value(text: string) | Closure(id: ClosureId)

  /** The clock, read once per segment replay: `clock(k)` is the reading
      shown while segment `k` is replayed. */
  type Clock = nat -> string

  /** The text a payload contributes. */
  function Text(p: Payload, results: Results): string {
    match p
    case Value(s) => s
    case Closure(id) => results(id)
  }

  /** The closures a payload invokes when inserted into an enabled statement. */
  function Invoked(p: Payload): seq<ClosureId> {
    match p
    case Value(_) => []
    case Closure(id) => [id]
  }

  /** The payloads' texts, concatenated in insertion order. */
  function Texts(ps: seq<Payload>, results: Results): string {
    if ps == [] then "" else Text(ps[0], results) + Texts(ps[1..], results)
  }

  /** The payloads' closures, in insertion order. */
  function Closures(ps: seq<Payload>): seq<ClosureId> {
    if ps == [] then [] else Invoked(ps[0]) + Closures(ps[1..])
  }

  /** One chained insertion: a payload or the continuation token `fmtStr`. */
  datatype Action = Put(p: Payload) | Next

  /** The payload insertions of a statement. */
  function Puts(ps: seq<Payload>): (actions: seq<Action>)
    ensures |actions| == |ps|
    ensures forall i :: 0 <= i < |ps| ==> actions[i] == Put(ps[i])
  {
    if ps == [] then [] else [Put(ps[0])] + Puts(ps[1..])
  }

  /** The four call-opening operators: no argument, a severity, a
      predicate, or both. */
  datatype CallForm = Bare | At(lev: Level) | If(pred: bool) | AtIf(lev: Level, pred: bool)

  /** The severity a call runs at, given the logger's current severity. */
  function SeverityOf(curLev: Level, form: CallForm): Level {
    match form
    case Bare => curLev
    case If(_) => curLev
    case At(lev) => lev
    case AtIf(lev, _) => lev
  }

  /** The predicate a call form carries; the forms without one pass. */
  function Gate(form: CallForm): bool {
    match form
    case Bare => true
    case At(_) => true
    case If(p) => p
    case AtIf(_, p) => p
  }
}
