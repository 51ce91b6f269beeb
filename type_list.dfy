/** The compile-time alternative index resolver of `rust::enm::variant_base`:
    `variant_alternative`, `compile_time_count`/`exactly_once`,
    `index_from_booleans` and `index_from_type`, written as functions over the
    list of alternative types. A type is anything with equality, standing for
    the decayed C++ type that `std::is_same_v` compares. */
module TypeList {
  import opened Wrappers

  /** `variant_alternative<I, Ts...>::type`: peels one type per step; the
      empty list has no `type` member, so an out-of-range index yields nothing. */
  function Alternative<T>(i: nat, ts: seq<T>): (r: Option<T>)
    ensures r.Some? <==> i < |ts|
    ensures r.Some? ==> r.value == ts[i]
  {
    if ts == [] then None
    else if i == 0 then Some(ts[0])
    else Alternative(i - 1, ts[1..])
  }

  /** `compile_time_count<Values...>()`: how many flags are set. */
  function Count(bs: seq<bool>): nat
  {
    if bs == [] then 0 else (if bs[0] then 1 else 0) + Count(bs[1..])
  }

  /** `exactly_once<Values...>`. */
  predicate ExactlyOnce(bs: seq<bool>)
  {
    Count(bs) == 1
  }

  /** `index_from_booleans<I, Values...>`: I plus the position of the first set
      flag; no flag set leaves the struct without a `value`. */
  function IndexFromBooleans(i: nat, bs: seq<bool>): (r: Option<nat>)
    ensures r.Some? <==> true in bs
    ensures r.Some? ==> i <= r.value < i + |bs| && bs[r.value - i]
    ensures r.Some? ==> forall k :: 0 <= k < r.value - i ==> !bs[k]
    decreases |bs|
  {
    if bs == [] then None
    else if bs[0] then Some(i)
    else IndexFromBooleans(i + 1, bs[1..])
  }

  /** The pack `std::is_same_v<std::decay_t<Type>, Ts>...`. */
  function Matches<T(==)>(t: T, ts: seq<T>): seq<bool>
  {
    seq(|ts|, k requires 0 <= k < |ts| => ts[k] == t)
  }

  /** `is_unique_v<T>`: T is one of the alternatives exactly once. */
  predicate IsUnique<T(==)>(t: T, ts: seq<T>)
  {
    ExactlyOnce(Matches(t, ts))
  }

  /** `index_from_type<Type, Ts...>::value`; the `static_assert` on
      `exactly_once` turns an absent or repeated type into a compile-time
      rejection, modelled as `None`. */
  function IndexFromType<T(==)>(t: T, ts: seq<T>): (r: Option<nat>)
    ensures r.Some? <==> multiset(ts)[t] == 1
    ensures r.Some? ==> r.value < |ts| && ts[r.value] == t
    ensures r.Some? ==> forall k :: 0 <= k < |ts| && k != r.value ==> ts[k] != t
  {
    CountMatches(t, ts);
    if IsUnique(t, ts) then
      CountedIsPresent(Matches(t, ts));
      var r := IndexFromBooleans(0, Matches(t, ts));
      assert ts[r.value] == t;
      forall k | 0 <= k < |ts| && k != r.value ensures ts[k] != t {
        if k < r.value {
          assert !Matches(t, ts)[k];
        } else if ts[k] == t {
          TwoOccurrences(t, ts, r.value, k);
        }
      }
      r
    else
      None
  }

  /** The count of the `is_same` pack is the multiplicity of the type. */
  lemma {:induction false} CountMatches<T>(t: T, ts: seq<T>)
    ensures Count(Matches(t, ts)) == multiset(ts)[t]
  {
    if ts != [] {
      CountMatches(t, ts[1..]);
      assert Matches(t, ts)[1..] == Matches(t, ts[1..]);
      assert ts == [ts[0]] + ts[1..];
      assert multiset(ts) == multiset{ts[0]} + multiset(ts[1..]);
    }
  }

  /** A positive count means some flag is set. */
  lemma {:induction false} CountedIsPresent(bs: seq<bool>)
    requires Count(bs) > 0
    ensures true in bs
  {
    if !bs[0] {
      CountedIsPresent(bs[1..]);
    }
  }

  /** Two distinct positions holding the type make its multiplicity at least two. */
  lemma TwoOccurrences<T>(t: T, ts: seq<T>, j: nat, k: nat)
    requires j < k < |ts| && ts[j] == t && ts[k] == t
    ensures multiset(ts)[t] >= 2
  {
    assert ts == ts[..k] + ts[k..];
    assert multiset(ts) == multiset(ts[..k]) + multiset(ts[k..]);
    assert ts[..k][j] == t;
    assert t in multiset(ts[..k]);
    assert ts[k..][0] == t;
    assert t in multiset(ts[k..]);
  }

  /** Resolving a type and then looking its index up gives the type back. */
  lemma IndexThenAlternative<T>(t: T, ts: seq<T>)
    requires IndexFromType(t, ts).Some?
    ensures Alternative(IndexFromType(t, ts).value, ts) == Some(t)
  {
  }

  /** A type that occurs once is resolved to its own position. */
  lemma AlternativeThenIndex<T>(ts: seq<T>, i: nat)
    requires i < |ts| && multiset(ts)[ts[i]] == 1
    ensures IndexFromType(ts[i], ts) == Some(i)
  {
  }

  /** A type that occurs twice is never resolved, although both positions are
      valid indices. */
  lemma DuplicateNotResolved<T>(ts: seq<T>, j: nat, k: nat)
    requires j < k < |ts| && ts[j] == ts[k]
    ensures IndexFromType(ts[j], ts).None?
    ensures Alternative(j, ts) == Some(ts[j]) && Alternative(k, ts) == Some(ts[k])
  {
    TwoOccurrences(ts[j], ts, j, k);
  }
}
