/** `rust::enm::expected<T, E>`, which is `variant<T, E>`: alternative 0 is
    the expected value, alternative 1 the unexpected one. The accessors are
    functions of the raw variant state. */
module Expected {
  import opened Wrappers
  import opened Alternatives
  import Dispatch

  function Types(t: TypeInfo, e: TypeInfo): seq<TypeInfo>
  {
    [t, e]
  }

  /** A raw state of `expected<T, E>`: its buffer and an `int` discriminant. */
  predicate IsState(t: TypeInfo, e: TypeInfo, s: Dispatch.Raw)
  {
    |s.buf| == MaxSize(Types(t, e)) && Dispatch.IsInt(s.index)
  }

  /** `bad_rust_expected_access<E>`, carrying a copy of the unexpected value. */
  datatype ExpectedError = BadExpectedAccess(error: seq<bv8>)

  /** `has_value()` and `operator bool`: `m_Index == 0`. */
  predicate HasValue(s: Dispatch.Raw)
  {
    s.index == 0
  }

  /** The expected as a Dafny `Result`: the object `get<0>` or `get<1>` finds.
      Defined on the two discriminants a well-formed state can have. */
  function View(t: TypeInfo, e: TypeInfo, s: Dispatch.Raw): Result<seq<bv8>, seq<bv8>>
    requires Dispatch.WellFormed(Types(t, e), s)
  {
    if s.index == 0 then Success(Dispatch.Get(Types(t, e), 0, s).value)
    else Failure(Dispatch.Get(Types(t, e), 1, s).value)
  }

  /** `value()`: the expected value, or `bad_rust_expected_access` holding
      the unexpected one, read from the same buffer. */
  function Value(t: TypeInfo, e: TypeInfo, s: Dispatch.Raw): (r: Result<seq<bv8>, ExpectedError>)
    requires IsState(t, e, s)
    ensures r.Success? <==> HasValue(s)
    ensures Dispatch.WellFormed(Types(t, e), s) && r.Success? ==> View(t, e, s) == Success(r.value)
    ensures Dispatch.WellFormed(Types(t, e), s) && r.Failure? ==> View(t, e, s) == Failure(r.error.error)
  {
    if HasValue(s) then Success(s.buf[..t.size])
    else Failure(BadExpectedAccess(s.buf[..e.size]))
  }

  /** `error()`: reading it while a value is held is undefined, so it is
      defined only for the unexpected state. */
  function Error(t: TypeInfo, e: TypeInfo, s: Dispatch.Raw): (r: seq<bv8>)
    requires Dispatch.WellFormed(Types(t, e), s) && !HasValue(s)
    ensures View(t, e, s) == Failure(r)
  {
    s.buf[..e.size]
  }

  /** `value_or(default_value)`. */
  function ValueOr(t: TypeInfo, e: TypeInfo, s: Dispatch.Raw, default: seq<bv8>): (r: seq<bv8>)
    requires Dispatch.WellFormed(Types(t, e), s)
    ensures r == View(t, e, s).ToOption().GetOr(default)
  {
    if HasValue(s) then s.buf[..t.size] else default
  }

  /** `error_or(default_value)`. */
  function ErrorOr(t: TypeInfo, e: TypeInfo, s: Dispatch.Raw, default: seq<bv8>): (r: seq<bv8>)
    requires Dispatch.WellFormed(Types(t, e), s)
    ensures View(t, e, s).Success? ==> r == default
    ensures View(t, e, s).Failure? ==> r == View(t, e, s).error
  {
    if HasValue(s) then default else Error(t, e, s)
  }

  /** `and_then(f)`: f applied to the value, or the unexpected value carried
      over into f's result type, `result(error())`. */
  function AndThen<U>(t: TypeInfo, e: TypeInfo, s: Dispatch.Raw, f: seq<bv8> -> Result<U, seq<bv8>>)
    : (r: Result<U, seq<bv8>>)
    requires Dispatch.WellFormed(Types(t, e), s)
    ensures View(t, e, s).Success? ==> r == f(View(t, e, s).value)
    ensures View(t, e, s).Failure? ==> r == Failure(View(t, e, s).error)
  {
    if HasValue(s) then f(Value(t, e, s).value) else Failure(Error(t, e, s))
  }

  /** `transform(f)`: f's result as the new expected value, or the
      unexpected value carried over. */
  function Transform<U>(t: TypeInfo, e: TypeInfo, s: Dispatch.Raw, f: seq<bv8> -> U)
    : (r: Result<U, seq<bv8>>)
    requires Dispatch.WellFormed(Types(t, e), s)
    ensures r.Success? <==> HasValue(s)
    ensures r.Success? ==> r.value == f(View(t, e, s).value)
    ensures r.Failure? ==> r.error == Error(t, e, s)
  {
    if HasValue(s) then Success(f(Value(t, e, s).value)) else Failure(Error(t, e, s))
  }

  /** `value()` throws exactly when `get<0>` would, and the exception holds
      the object `get<1>` finds; `value_or` and `error_or` split the state
      between them. */
  lemma ValueAndErrorPartition(t: TypeInfo, e: TypeInfo, s: Dispatch.Raw, d: seq<bv8>)
    requires Dispatch.WellFormed(Types(t, e), s)
    ensures Value(t, e, s).Success? <==> Dispatch.Get(Types(t, e), 0, s).Success?
    ensures Value(t, e, s).Failure? ==>
              Some(Value(t, e, s).error.error) == Dispatch.GetIf(Types(t, e), 1, s)
    ensures HasValue(s) ==> ValueOr(t, e, s, d) == Value(t, e, s).value && ErrorOr(t, e, s, d) == d
    ensures !HasValue(s) ==> ValueOr(t, e, s, d) == d && ErrorOr(t, e, s, d) == Error(t, e, s)
  {
  }

  /** `transform(f)` is `and_then` of a function that always succeeds, and
      transforming by the identity gives back `View`. */
  lemma TransformIsAndThen<U>(t: TypeInfo, e: TypeInfo, s: Dispatch.Raw, f: seq<bv8> -> U)
    requires Dispatch.WellFormed(Types(t, e), s)
    ensures Transform(t, e, s, f) == AndThen(t, e, s, x => Success(f(x)))
    ensures Transform(t, e, s, x => x) == View(t, e, s)
  {
  }
}
