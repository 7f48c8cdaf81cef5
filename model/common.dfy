/** Shared vocabulary: Java's nullable references, thrown exceptions, and
    the plain value-or-exception outcome of a call. */
module Common {

  /** A Java reference that may be null. */
  datatype Option<+T> = None | Some(value: T) {
    predicate IsFailure() { None? }
    function PropagateFailure<U>(): Option<U> requires None? { None }
    function Extract(): T requires Some? { value }
    function GetOr(default: T): T { if Some? then value else default }
  }

  /** The exceptions the modelled code throws. */
  datatype Exception =
    | GraphQLException(message: string)
    | AssertException(message: string)
    | NullPointerException
    | IllegalStateException(message: string)
    | IllegalArgumentException(message: string)
    | NumberFormatException
    | ClassCastException
    | NoSuchElementException
    | IndexOutOfBoundsException
    | StackOverflowError

  /** Either the value a Java call returns, or the exception it throws. */
  datatype Result<+T> = Ok(value: T) | Throws(error: Exception) {
    predicate IsFailure() { Throws? }
    function PropagateFailure<U>(): Result<U> requires Throws? { Throws(error) }
    function Extract(): T requires Ok? { value }
  }

  /** No element occurs twice. */
  predicate Distinct<T(==)>(s: seq<T>) {
    forall i, j :: 0 <= i < j < |s| ==> s[i] != s[j]
  }

  /** A subset is no larger than its superset. */
  lemma {:induction false} SubsetCard<T>(a: set<T>, b: set<T>)
    requires a <= b
    ensures |a| <= |b|
    decreases |a|
  {
    if a != {} {
      var x :| x in a;
      SubsetCard(a - {x}, b - {x});
    }
  }
}
