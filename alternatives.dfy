/** What the model knows of one alternative type of a `variant_base<Ts...>`:
    its identity for `std::is_same`, its `sizeof`, and the type traits the
    variant consults. */
module Alternatives {

  datatype TypeInfo = TypeInfo(
    name: string,                  // the decayed type, compared by std::is_same
    size: nat,                     // sizeof(T)
    defaultConstructible: bool,    // std::is_default_constructible_v<T>
    copyConstructible: bool,       // std::is_copy_constructible_v<T>
    moveConstructible: bool,       // std::is_move_constructible_v<T>
    nothrowMove: bool,             // std::is_nothrow_move_constructible_v<T>
    otherCtors: set<seq<string>>)  // further constructors, by argument types

  /** The pack `Ts...` as the types `std::is_same` compares. */
  function Names(ts: seq<TypeInfo>): (ns: seq<string>)
    ensures |ns| == |ts|
    ensures forall i :: 0 <= i < |ts| ==> ns[i] == ts[i].name
  {
    seq(|ts|, i requires 0 <= i < |ts| => ts[i].name)
  }

  /** `std::max({sizeof(Ts)...})`, the size of `m_Buff`. */
  function MaxSize(ts: seq<TypeInfo>): (m: nat)
    ensures forall i :: 0 <= i < |ts| ==> ts[i].size <= m
    ensures ts != [] ==> exists i :: 0 <= i < |ts| && ts[i].size == m
  {
    if ts == [] then 0
    else
      var rest := MaxSize(ts[1..]);
      assert forall i :: 1 <= i < |ts| ==> ts[i] == ts[1..][i - 1];
      if ts[0].size >= rest then ts[0].size else rest
  }

  /** `std::conjunction_v<std::is_copy_constructible<Ts>...>`. */
  function AllCopyConstructible(ts: seq<TypeInfo>): bool
  {
    ts == [] || (ts[0].copyConstructible && AllCopyConstructible(ts[1..]))
  }

  /** `std::conjunction_v<std::is_move_constructible<Ts>...>`. */
  function AllMoveConstructible(ts: seq<TypeInfo>): bool
  {
    ts == [] || (ts[0].moveConstructible && AllMoveConstructible(ts[1..]))
  }

  /** The conjunction holds exactly when every alternative is copy-constructible. */
  lemma {:induction false} AllCopyConstructibleMeansEach(ts: seq<TypeInfo>)
    ensures AllCopyConstructible(ts) <==> forall i :: 0 <= i < |ts| ==> ts[i].copyConstructible
  {
    if ts != [] {
      AllCopyConstructibleMeansEach(ts[1..]);
      assert forall i :: 1 <= i < |ts| ==> ts[i] == ts[1..][i - 1];
    }
  }

  /** The conjunction holds exactly when every alternative is move-constructible. */
  lemma {:induction false} AllMoveConstructibleMeansEach(ts: seq<TypeInfo>)
    ensures AllMoveConstructible(ts) <==> forall i :: 0 <= i < |ts| ==> ts[i].moveConstructible
  {
    if ts != [] {
      AllMoveConstructibleMeansEach(ts[1..]);
      assert forall i :: 1 <= i < |ts| ==> ts[i] == ts[1..][i - 1];
    }
  }
}
