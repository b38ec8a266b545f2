// Small definitions shared by every module.
module Common {
  datatype Option<+T> = None | Some(value: T)

  datatype Result<+T, +E> = Ok(value: T) | Err(error: E)

  /** How a statement or transaction goes: it works, it fails without effect, or it takes
      effect and the caller is told that it failed. */
  datatype Fault = NoFault | RolledBack | ReplyLost

  /** What a statement leaves of `before` when it would make `after` of it. */
  function Left<T>(fault: Fault, before: T, after: T): T {
    if fault.RolledBack? then before else after
  }

  /** SQL's COALESCE on two nullable columns. */
  function Coalesce<T>(a: Option<T>, b: Option<T>): Option<T> {
    if a.Some? then a else b
  }

  function Min(a: int, b: int): int {
    if a <= b then a else b
  }

  function Max(a: int, b: int): int {
    if a <= b then b else a
  }

  /** All but the last element. */
  function Most<T>(s: seq<T>): seq<T>
    requires s != []
  {
    s[..|s| - 1]
  }

  function Last<T>(s: seq<T>): T
    requires s != []
  {
    s[|s| - 1]
  }

  ghost predicate NoDuplicates<T>(s: seq<T>) {
    forall i, j :: 0 <= i < j < |s| ==> s[i] != s[j]
  }
}
