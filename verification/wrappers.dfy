/**
  Small value types shared by every handler model: optional values, the
  integer-or-NaN abstraction of a JavaScript number, and HTTP replies.
 */
module Wrappers {

  /** A value that may be absent (`null` / `undefined` in the source). */
  datatype Option<+T> = None | Some(value: T) {
    function GetOr(default: T): T {
      match this
      case Some(v) => v
      case None => default
    }
  }

  /** A JavaScript number, restricted to integers, plus `NaN`. */
  datatype Num = NaN | Fin(n: int) {
    /** JavaScript truthiness: `0` and `NaN` are falsy. */
    predicate Truthy() {
      Fin? && n != 0
    }
  }

  /** `Math.max(a, b)` on numbers: `NaN` is contagious. */
  function JsMax(a: Num, b: Num): (r: Num)
    ensures r.NaN? <==> a.NaN? || b.NaN?
    ensures r.Fin? ==> r.n >= a.n && r.n >= b.n && (r.n == a.n || r.n == b.n)
  {
    if a.NaN? || b.NaN? then NaN
    else if a.n >= b.n then a else b
  }

  /** `Math.min(a, b)` on numbers: `NaN` is contagious. */
  function JsMin(a: Num, b: Num): (r: Num)
    ensures r.NaN? <==> a.NaN? || b.NaN?
    ensures r.Fin? ==> r.n <= a.n && r.n <= b.n && (r.n == a.n || r.n == b.n)
  {
    if a.NaN? || b.NaN? then NaN
    else if a.n <= b.n then a else b
  }

  /** A handler's answer: an error status with a message, or a 200 body. */
  datatype Reply<+T> = Refused(status: nat, message: string) | Answered(body: T)

  /** The answer of one store call: its data, or the store's error message. */
  datatype StoreResult<+T> = StoreOk(data: T) | StoreErr(message: string)

  /** `e?.message || fallback`: a thrown error's message, or the handler's
      own text when the message is empty. */
  function MessageOr(message: string, fallback: string): (t: string)
    ensures message != "" ==> t == message
    ensures message == "" ==> t == fallback
    ensures fallback != "" ==> t != ""
  {
    if message != "" then message else fallback
  }

  function Max(a: int, b: int): int {
    if a >= b then a else b
  }

  /** `a` is `b` with some elements left out, order kept. */
  predicate IsSubsequence<T(==)>(a: seq<T>, b: seq<T>)
    decreases |b|
  {
    if |a| == 0 then true
    else if |b| == 0 then false
    else (a[0] == b[0] && IsSubsequence(a[1..], b[1..])) || IsSubsequence(a, b[1..])
  }

  /** The elements of a sequence, as a set. */
  function Elems<T>(s: seq<T>): set<T> {
    set x | x in s
  }
}
