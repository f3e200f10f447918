/** Optional values, raise-or-return results, and the truthiness tests the
    agent applies to optional criteria fields. */
module Options {

  /** A value that may be absent (Python `None` or a missing dict key). */
  datatype Option<+T> = None | Some(value: T) {
    function GetOr(default: T): T {
      if Some? then value else default
    }
  }

  /** The outcome of a computation that either returns a value or raises a
      Python exception; `reason` names the exception. */
  datatype Result<+T> = Ok(value: T) | Raised(reason: string) {
    predicate IsFailure() {
      Raised?
    }

    function PropagateFailure<U>(): Result<U>
      requires Raised?
    {
      Raised(reason)
    }

    function Extract(): T
      requires Ok?
    {
      value
    }
  }

  /** `bool(x)` of an optional int: both an absent value and 0 are falsy. */
  predicate TruthyInt(o: Option<int>) {
    o.Some? && o.value != 0
  }

  /** `bool(x)` of an optional string: both an absent value and "" are falsy. */
  predicate TruthyText(o: Option<string>) {
    o.Some? && o.value != ""
  }

  /** Python's `x or d` for an optional int. */
  function IntOr(o: Option<int>, d: int): int {
    if TruthyInt(o) then o.value else d
  }

  /** Python's `x or d` for an optional string. */
  function TextOr(o: Option<string>, d: string): string {
    if TruthyText(o) then o.value else d
  }
}
