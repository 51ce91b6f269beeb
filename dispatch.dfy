/** Dispatch and typed access over the raw state of a `variant_base`: the
    recursive `visitor_type<Ts...>::visit`, and `get`, `get_if` and
    `holds_alternative` by index and by type. The raw state is the
    discriminant `m_Index` and the bytes of `m_Buff`; the object of
    alternative i is read from the first `sizeof(T_i)` bytes, which is what
    `reinterpret_cast<T_i *>(m_Buff)` designates. */
module Dispatch {
  import opened Wrappers
  import opened Alternatives
  import TypeList

  /** `int m_Index` and `std::byte m_Buff[...]`. */
  datatype Raw = Raw(index: int, buf: seq<bv8>)

  /** The exceptions of the dispatch and the accessors. */
  datatype AccessError =
    | OutOfRange                  // std::out_of_range("invalid")
    | BadVariantAccess(index: nat) // bad_rust_variant_access(m_Index), a std::size_t

  /** `std::size_t` has 2^64 values; `int` holds [IntMin, IntMax]. */
  const SizeMax: int := 0x1_0000_0000_0000_0000
  const IntMin: int := -0x8000_0000
  const IntMax: int := 0x7fff_ffff

  predicate IsInt(i: int) { IntMin <= i <= IntMax }

  /** A raw state every alternative can be read from, with its discriminant
      naming one of them. */
  predicate WellFormed(ts: seq<TypeInfo>, v: Raw)
  {
    0 < |ts| <= IntMax && |v.buf| == MaxSize(ts) && 0 <= v.index < |ts|
  }

  /** The bytes of the object that alternative i occupies in the buffer. */
  function ObjectAt(ts: seq<TypeInfo>, i: nat, buf: seq<bv8>): seq<bv8>
    requires i < |ts| && |buf| == MaxSize(ts)
  {
    buf[..ts[i].size]
  }

  /** The conversion of `int m_Index` to the `std::size_t` parameter of visit. */
  function ToSizeT(i: int): (n: nat)
    requires IsInt(i)
    ensures i >= 0 ==> n == i
    ensures i < 0 ==> n > IntMax
  {
    if i >= 0 then i else i + SizeMax
  }

  /** `visitor_type<First, Remainder...>::visit(visitor, index, data)`: the
      handler of `First` when index is 0, else the rest of the list with
      `--index`; past the last type it throws `std::out_of_range`. The
      visitor is one handler per alternative, each reading its own type from
      `data`. */
  function Visit<R>(handlers: seq<seq<bv8> -> R>, ts: seq<TypeInfo>, index: nat, data: seq<bv8>)
    : (r: Result<R, AccessError>)
    requires |handlers| == |ts| > 0
    requires forall i :: 0 <= i < |ts| ==> ts[i].size <= |data|
    ensures index < |ts| ==> r == Success(handlers[index](data[..ts[index].size]))
    ensures index >= |ts| ==> r == Failure(OutOfRange)
    decreases |ts|
  {
    if index == 0 then Success(handlers[0](data[..ts[0].size]))
    else if |ts| > 1 then
      assert forall i :: 0 <= i < |ts| - 1 ==> ts[1..][i] == ts[i + 1];
      Visit(handlers[1..], ts[1..], index - 1, data)
    else Failure(OutOfRange)
  }

  /** `rust::enm::visit(visitor, variant)`: dispatch runs exactly the
      handler of the live alternative on its object; a discriminant outside
      [0, N), negative ones included, throws. */
  function VisitVariant<R>(handlers: seq<seq<bv8> -> R>, ts: seq<TypeInfo>, v: Raw)
    : (r: Result<R, AccessError>)
    requires |handlers| == |ts| > 0 && |v.buf| == MaxSize(ts)
    requires IsInt(v.index)
    ensures 0 <= v.index < |ts| ==> r == Success(handlers[v.index](ObjectAt(ts, v.index, v.buf)))
    ensures !(0 <= v.index < |ts|) && |ts| <= IntMax ==> r == Failure(OutOfRange)
  {
    Visit(handlers, ts, ToSizeT(v.index), v.buf)
  }

  /** `get<I>(variant)`: `throw_if_invalid<I>` (I < N is a static_assert),
      then the object of alternative I. */
  function Get(ts: seq<TypeInfo>, i: nat, v: Raw): (r: Result<seq<bv8>, AccessError>)
    requires i < |ts| && |v.buf| == MaxSize(ts) && IsInt(v.index)
    ensures r.Success? <==> v.index == i
    ensures r.Success? ==> r.value == ObjectAt(ts, i, v.buf)
    ensures r.Failure? ==> r.error == BadVariantAccess(ToSizeT(v.index))
  {
    if v.index != i then Failure(BadVariantAccess(ToSizeT(v.index)))
    else Success(v.buf[..ts[i].size])
  }

  /** `get_if<I>(&variant)`: null instead of the exception. */
  function GetIf(ts: seq<TypeInfo>, i: nat, v: Raw): (r: Option<seq<bv8>>)
    requires i < |ts| && |v.buf| == MaxSize(ts) && IsInt(v.index)
    ensures r == Get(ts, i, v).ToOption()
  {
    if !(v.index == i) then None
    else Some(v.buf[..ts[i].size])
  }

  /** `holds_alternative<I>(variant)`: `index() == I`. There is no
      static_assert on I, so an index past the end simply yields false. */
  function HoldsAlternative(ts: seq<TypeInfo>, i: nat, v: Raw): (b: bool)
    ensures i < |ts| && |v.buf| == MaxSize(ts) && IsInt(v.index) ==> (b <==> Get(ts, i, v).Success?)
    ensures WellFormed(ts, v) && i >= |ts| ==> !b
  {
    v.index == i
  }

  /** The alternative a unique type resolves to is the only one of that name. */
  lemma ResolvedName(ts: seq<TypeInfo>, name: string, k: int)
    requires TypeList.IndexFromType(name, Names(ts)).Some? && 0 <= k < |ts|
    ensures ts[k].name == name <==> k == TypeList.IndexFromType(name, Names(ts)).value
  {
    assert Names(ts)[k] == ts[k].name;
  }

  /** `get<T>`: the type is resolved by `index_from_type`, which must
      succeed. It yields the live object exactly when the live alternative
      is T, and otherwise throws with the discriminant. */
  function GetByType(ts: seq<TypeInfo>, name: string, v: Raw): (r: Result<seq<bv8>, AccessError>)
    requires TypeList.IndexFromType(name, Names(ts)).Some? && |v.buf| == MaxSize(ts) && IsInt(v.index)
    ensures r.Success? <==> 0 <= v.index < |ts| && ts[v.index].name == name
    ensures r.Success? ==> 0 <= v.index < |ts| && r.value == ObjectAt(ts, v.index, v.buf)
    ensures r.Failure? ==> r.error == BadVariantAccess(ToSizeT(v.index))
  {
    if 0 <= v.index < |ts| then
      ResolvedName(ts, name, v.index);
      Get(ts, TypeList.IndexFromType(name, Names(ts)).value, v)
    else Get(ts, TypeList.IndexFromType(name, Names(ts)).value, v)
  }

  /** `get_if<T>`: null exactly where `get<T>` throws. */
  function GetIfByType(ts: seq<TypeInfo>, name: string, v: Raw): (r: Option<seq<bv8>>)
    requires TypeList.IndexFromType(name, Names(ts)).Some? && |v.buf| == MaxSize(ts) && IsInt(v.index)
    ensures r == GetByType(ts, name, v).ToOption()
  {
    GetIf(ts, TypeList.IndexFromType(name, Names(ts)).value, v)
  }

  /** `holds_alternative<T>`: true exactly when the live alternative is T. */
  function HoldsAlternativeByType(ts: seq<TypeInfo>, name: string, v: Raw): (b: bool)
    requires TypeList.IndexFromType(name, Names(ts)).Some?
    ensures b <==> 0 <= v.index < |ts| && ts[v.index].name == name
  {
    if 0 <= v.index < |ts| then
      ResolvedName(ts, name, v.index);
      HoldsAlternative(ts, TypeList.IndexFromType(name, Names(ts)).value, v)
    else HoldsAlternative(ts, TypeList.IndexFromType(name, Names(ts)).value, v)
  }

  /** The accessors agree with one another and with dispatch: `get<I>`
      succeeds iff `holds_alternative<I>` iff `get_if<I>` is non-null, and
      then it reads the same object that visit hands to handler I. */
  lemma AccessorsAgree<R>(ts: seq<TypeInfo>, i: nat, v: Raw, handlers: seq<seq<bv8> -> R>)
    requires i < |ts| && |handlers| == |ts| && WellFormed(ts, v) && IsInt(v.index)
    ensures Get(ts, i, v).Success? <==> HoldsAlternative(ts, i, v)
    ensures GetIf(ts, i, v).Some? <==> HoldsAlternative(ts, i, v)
    ensures HoldsAlternative(ts, i, v) ==>
              VisitVariant(handlers, ts, v) == Success(handlers[i](Get(ts, i, v).value))
  {
  }
}
