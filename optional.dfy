/** `rust::enm::optional<T>`, which is `variant<monostate, T>`: alternative 0
    is the empty state, alternative 1 the engaged one. The accessors are
    functions of the raw variant state; `optional()`/`optional(nullopt)` and
    `reset()` act on a `VariantBase.Variant`. The comparisons read an engaged
    optional through the ordering of its payload, written here as `int`. */
module Optional {
  import opened Wrappers
  import opened Alternatives
  import Dispatch
  import TypeList
  import Capabilities
  import VariantBase

  /** `struct monostate {}`: one byte, every constructor non-throwing. */
  const Monostate := TypeInfo("monostate", 1, true, true, true, true, {})

  function Types(t: TypeInfo): seq<TypeInfo>
  {
    [Monostate, t]
  }

  /** A raw state of `optional<T>`: its buffer and an `int` discriminant. */
  predicate IsState(t: TypeInfo, s: Dispatch.Raw)
  {
    |s.buf| == MaxSize(Types(t)) && Dispatch.IsInt(s.index)
  }

  /** `bad_rust_optional_access`. */
  datatype OptionalError = BadOptionalAccess

  /** `has_value()`, `is_some()` and `operator bool`: `m_Index == 1`. */
  predicate HasValue(s: Dispatch.Raw)
  {
    s.index == 1
  }

  /** `is_none()`: `m_Index == 0`. */
  predicate IsNone(s: Dispatch.Raw)
  {
    s.index == 0
  }

  /** The optional as a Dafny `Option`: the engaged payload is what
      `get_if<1>` finds. */
  function View(t: TypeInfo, s: Dispatch.Raw): Option<seq<bv8>>
    requires IsState(t, s)
  {
    Dispatch.GetIf(Types(t), 1, s)
  }

  /** `value()`: the payload, or `bad_rust_optional_access`. */
  function Value(t: TypeInfo, s: Dispatch.Raw): (r: Result<seq<bv8>, OptionalError>)
    requires IsState(t, s)
    ensures r.Success? <==> HasValue(s)
    ensures r.Success? ==> View(t, s) == Some(r.value)
    ensures r.Failure? ==> View(t, s) == None
  {
    if HasValue(s) then Success(s.buf[..t.size]) else Failure(BadOptionalAccess)
  }

  /** `value_or(default_value)`. */
  function ValueOr(t: TypeInfo, s: Dispatch.Raw, default: seq<bv8>): (r: seq<bv8>)
    requires IsState(t, s)
    ensures r == View(t, s).GetOr(default)
  {
    if HasValue(s) then s.buf[..t.size] else default
  }

  /** `and_then(f)`: f applied to the payload, or the empty result `result{}`. */
  function AndThen<R>(t: TypeInfo, s: Dispatch.Raw, f: seq<bv8> -> Option<R>): (r: Option<R>)
    requires IsState(t, s)
    ensures View(t, s).None? ==> r == None
    ensures View(t, s).Some? ==> r == f(View(t, s).value)
  {
    if HasValue(s) then f(Value(t, s).value) else None
  }

  /** `transform(f)`: `std::optional` of f's result, or `std::nullopt`. */
  function Transform<R>(t: TypeInfo, s: Dispatch.Raw, f: seq<bv8> -> R): (r: Option<R>)
    requires IsState(t, s)
    ensures r.Some? <==> HasValue(s)
    ensures r.Some? ==> r.value == f(View(t, s).value)
  {
    if HasValue(s) then Some(f(Value(t, s).value)) else None
  }

  /** On a well-formed optional exactly one of `is_none()` and `is_some()`
      holds, and `value()` succeeds exactly when `get<1>` does, with the
      same object. */
  lemma ValueIsGetOfSome(t: TypeInfo, s: Dispatch.Raw)
    requires Dispatch.WellFormed(Types(t), s)
    ensures IsNone(s) <==> !HasValue(s)
    ensures Value(t, s).Success? <==> Dispatch.Get(Types(t), 1, s).Success?
    ensures Value(t, s).Success? ==> Value(t, s).value == Dispatch.Get(Types(t), 1, s).value
  {
  }

  /** `transform(f)` is `and_then` of a function that always yields a value,
      and transforming by the identity gives back `View`. */
  lemma TransformIsAndThen<R>(t: TypeInfo, s: Dispatch.Raw, f: seq<bv8> -> R)
    requires IsState(t, s)
    ensures Transform(t, s, f) == AndThen(t, s, x => Some(f(x)))
    ensures Transform(t, s, x => x) == View(t, s)
  {
  }

  // ----- construction and reset ------------------------------------------

  predicate IsOptional(v: VariantBase.Variant)
    reads v
  {
    v.Valid() && |v.types| == 2 && v.types[0] == Monostate && v.types[1].name != "monostate"
  }

  /** `optional()` and `optional(std::nullopt)`: `base(monostate{})`, the
      converting constructor with a monostate rvalue whose byte is `m`. */
  method Nullopt(t: TypeInfo, m: bv8) returns (v: VariantBase.Variant)
    requires t.name != "monostate"
    ensures fresh(v) && fresh(v.buf) && IsOptional(v) && v.types == Types(t)
    ensures !HasValue(v.State()) && v.Live() == VariantBase.Obj(0, [m]) && v.dtors == []
  {
    assert Names(Types(t)) == ["monostate", t.name];
    TypeList.AlternativeThenIndex(Names(Types(t)), 0);
    v := new VariantBase.Variant.Converting(Types(t), Capabilities.Arg("monostate", Capabilities.Rvalue), [m]);
  }

  /** `reset()` as written: when engaged it calls `destroy()` and then
      assigns `monostate{}`. That assignment goes through
      `emplace<monostate>`, whose non-throwing strategy calls `destroy()`
      again on the same, already destroyed payload. */
  method Reset(v: VariantBase.Variant, m: bv8)
    requires IsOptional(v)
    modifies v, v.buf
    ensures IsOptional(v) && !HasValue(v.State())
    ensures old(HasValue(v.State())) ==>
              v.Live() == VariantBase.Obj(0, [m]) &&
              v.dtors == old(v.dtors) + [old(v.Live()), old(v.Live())]
    ensures !old(HasValue(v.State())) ==>
              v.index == old(v.index) && v.buf[..] == old(v.buf[..]) && v.dtors == old(v.dtors)
  {
    if v.index == 1 {
      v.Destroy();
      assert Names(v.types) == ["monostate", v.types[1].name];
      TypeList.AlternativeThenIndex(Names(v.types), 0);
      var _ := v.ConvertAssign(Capabilities.Arg("monostate", Capabilities.Rvalue), [m], true, true,
                               VariantBase.Builds([m]));
    }
  }

  /** `reset()` as intended: the payload's destructor runs once, and the
      optional is left empty. */
  method ResetOnce(v: VariantBase.Variant, m: bv8)
    requires IsOptional(v)
    modifies v, v.buf
    ensures IsOptional(v) && !HasValue(v.State())
    ensures old(HasValue(v.State())) ==>
              v.Live() == VariantBase.Obj(0, [m]) && v.dtors == old(v.dtors) + [old(v.Live())]
    ensures !old(HasValue(v.State())) ==>
              v.index == old(v.index) && v.buf[..] == old(v.buf[..]) && v.dtors == old(v.dtors)
  {
    if v.index == 1 {
      assert Names(v.types) == ["monostate", v.types[1].name];
      TypeList.AlternativeThenIndex(Names(v.types), 0);
      var _ := v.ConvertAssign(Capabilities.Arg("monostate", Capabilities.Rvalue), [m], true, true,
                               VariantBase.Builds([m]));
    }
  }

  // ----- comparisons -------------------------------------------------------

  datatype RelOp = Eq | Ne | Lt | Le | Gt | Ge

  /** The payload's own comparison operator. */
  function Apply(op: RelOp, a: int, b: int): bool
  {
    match op
    case Eq => a == b
    case Ne => a != b
    case Lt => a < b
    case Le => a <= b
    case Gt => a > b
    case Ge => a >= b
  }

  /** Reference ordering of optionals: the empty optional equals itself and
      is below every engaged one; engaged ones compare by payload. */
  function Lifted(op: RelOp, a: Option<int>, b: Option<int>): bool
  {
    match (a, b)
    case (None, None) => op in {Eq, Le, Ge}
    case (None, Some(_)) => op in {Ne, Lt, Le}
    case (Some(_), None) => op in {Ne, Gt, Ge}
    case (Some(x), Some(y)) => Apply(op, x, y)
  }

  /** The six `operator@(const optional<T>&, std::nullopt_t)`. */
  function CompareWithNulloptRight(op: RelOp, lhs: Option<int>): (r: bool)
    ensures r == Lifted(op, lhs, None)
  {
    match op
    case Eq => !lhs.Some?
    case Ne => lhs.Some?
    case Lt => false
    case Le => !lhs.Some?
    case Gt => lhs.Some?
    case Ge => true
  }

  /** The six `operator@(std::nullopt_t, const optional<T>&)`. */
  function CompareWithNulloptLeft(op: RelOp, rhs: Option<int>): (r: bool)
    ensures r == Lifted(op, None, rhs)
  {
    match op
    case Eq => !rhs.Some?
    case Ne => rhs.Some?
    case Lt => rhs.Some?
    case Le => true
    case Gt => false
    case Ge => !rhs.Some?
  }

  /** The six `operator@(const optional<T>&, const U&)`. */
  function CompareWithValueRight(op: RelOp, lhs: Option<int>, rhs: int): (r: bool)
    ensures r == Lifted(op, lhs, Some(rhs))
  {
    match op
    case Eq => if lhs.Some? then lhs.value == rhs else false
    case Ne => if lhs.Some? then lhs.value != rhs else true
    case Lt => if lhs.Some? then lhs.value < rhs else true
    case Le => if lhs.Some? then lhs.value <= rhs else true
    case Gt => if lhs.Some? then lhs.value > rhs else false
    case Ge => if lhs.Some? then lhs.value >= rhs else false
  }

  /** The six `operator@(const U&, const optional<T>&)`. */
  function CompareWithValueLeft(op: RelOp, lhs: int, rhs: Option<int>): (r: bool)
    ensures r == Lifted(op, Some(lhs), rhs)
  {
    match op
    case Eq => if rhs.Some? then lhs == rhs.value else false
    case Ne => if rhs.Some? then lhs != rhs.value else true
    case Lt => if rhs.Some? then lhs < rhs.value else false
    case Le => if rhs.Some? then lhs <= rhs.value else false
    case Gt => if rhs.Some? then lhs > rhs.value else true
    case Ge => if rhs.Some? then lhs >= rhs.value else true
  }

  /** Swapping the operands of a comparison with nullopt or with a value
      gives the mirrored operator, as for `std::optional`. */
  lemma MirroredComparisons(op: RelOp, o: Option<int>, x: int)
    ensures CompareWithNulloptLeft(op, o) == CompareWithNulloptRight(Mirror(op), o)
    ensures CompareWithValueLeft(op, x, o) == CompareWithValueRight(Mirror(op), o, x)
  {
  }

  function Mirror(op: RelOp): RelOp
  {
    match op
    case Eq => Eq
    case Ne => Ne
    case Lt => Gt
    case Le => Ge
    case Gt => Lt
    case Ge => Le
  }

  /** `operator<` and `operator>` between two optionals, which read the
      payloads only when both are engaged. */
  function CompareOptionals(op: RelOp, lhs: Option<int>, rhs: Option<int>): (r: bool)
    requires op in {Lt, Gt, Le, Ge}
    ensures r == Lifted(op, lhs, rhs)
  {
    match op
    case Lt => rhs.Some? && (!lhs.Some? || lhs.value < rhs.value)
    case Gt => lhs.Some? && (!rhs.Some? || lhs.value > rhs.value)
    // corrected: the engaged right operand is required, not sufficient
    case Le => !lhs.Some? || (rhs.Some? && lhs.value <= rhs.value)
    case Ge => !rhs.Some? || (lhs.Some? && lhs.value >= rhs.value)
  }

  /** `operator<=` and `operator>=` between two optionals as written:
      `!lhs.has_value() || (rhs.has_value() || *lhs <= *rhs)` and
      `!rhs.has_value() || (lhs.has_value() || *lhs <= *rhs)`. The `||` makes
      one engaged operand enough for `true`, and the payload comparison is
      reached only when an operand is empty, where reading it is undefined
      (`None` here). */
  function CompareOptionalsAsWritten(op: RelOp, lhs: Option<int>, rhs: Option<int>): (r: Option<bool>)
    requires op in {Le, Ge}
    ensures op == Le && lhs.Some? && rhs.Some? ==> r == Some(true)
    ensures op == Ge && lhs.Some? && rhs.Some? ==> r == Some(true)
    ensures r.Some? ==> r.value
    ensures r.None? <==> (if op == Le then lhs.Some? && rhs.None? else lhs.None? && rhs.Some?)
  {
    match op
    case Le =>
      if !lhs.Some? then Some(true)
      else if rhs.Some? then Some(true)
      else None
    case Ge =>
      if !rhs.Some? then Some(true)
      else if lhs.Some? then Some(true)
      else None // reads the empty `*lhs`; the source compares it with `<=`, not `>=`
  }

  /** The discrepancy: an engaged 2 compares `<=` an engaged 1, and an
      engaged 1 compares `>=` an engaged 2. */
  lemma AsWrittenOrderingDisagrees()
    ensures CompareOptionalsAsWritten(Le, Some(2), Some(1)) == Some(true)
    ensures !CompareOptionals(Le, Some(2), Some(1))
    ensures CompareOptionalsAsWritten(Ge, Some(1), Some(2)) == Some(true)
    ensures !CompareOptionals(Ge, Some(1), Some(2))
  {
  }
}
