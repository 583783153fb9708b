/** Rust's `Option` with the ordering Rust derives for it, and the fixed-width
    integer types the handlers exchange with the store and the client. */
module RustCore {

  const I64_MAX: int := 0x7fff_ffff_ffff_ffff
  const U128_BOUND: int := 0x1_0000_0000_0000_0000_0000_0000_0000_0000

  /** A signed 64-bit integer (`i64`), the type of the `limit` and `offset` query parameters. */
  type I64 = x: int | -I64_MAX - 1 <= x <= I64_MAX

  /** An unsigned 128-bit integer (`u128`), the type of every identifier. */
  type U128 = x: int | 0 <= x < U128_BOUND

  /** `Option<T>`; the three members let `:-` stand for Rust's `?` operator. */
  datatype Option<+T> = None | Some(value: T) {
    predicate IsFailure() { None? }

    function PropagateFailure<U>(): Option<U>
      requires None?
    {
      None
    }

    function Extract(): T
      requires Some?
    {
      value
    }
  }

  /** `a < b` as Rust's derived `PartialOrd` for `Option<i64>` decides it:
      `None` is below every `Some`, and two `Some`s compare their contents. */
  predicate Lt(a: Option<int>, b: Option<int>)
  {
    match (a, b)
    case (None, None) => false
    case (None, Some(_)) => true
    case (Some(_), None) => false
    case (Some(x), Some(y)) => x < y
  }

  /** `a >= b` under the same ordering: `b < a` or the two are equal. */
  predicate Ge(a: Option<int>, b: Option<int>)
  {
    Lt(b, a) || a == b
  }

  /** The derived ordering is total: `>=` is exactly the negation of `<`. */
  lemma GeIsNotLt(a: Option<int>, b: Option<int>)
    ensures Ge(a, b) <==> !Lt(a, b)
  {
  }

  /** Comparing against `Some(k)`: an absent value is below it, a present one compares by value. */
  lemma LtSome(a: Option<int>, k: int)
    ensures Lt(a, Some(k)) <==> (a == None || a.value < k)
    ensures Ge(a, Some(k)) <==> (a != None && a.value >= k)
  {
  }
}
