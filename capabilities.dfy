/** Which constructions and assignments `rust::enm::variant<Ts...>` admits,
    as `std::is_constructible_v` / `std::is_assignable_v` report them: the
    rules that the static assertions of src/cxx_enumext.cpp pin down over the
    fixture types MoveType, CopyType, CopyAndMoveType and NoCopyAndNoMoveType. */
module Capabilities {
  import opened Alternatives
  import TypeList
  import Wrappers

  /** Value category of an argument: `T` and `T&&` are rvalues, `T&` an
      lvalue, `const T&` a const lvalue. */
  datatype Category = Rvalue | Lvalue | ConstLvalue

  datatype Arg = Arg(name: string, category: Category)

  /** A constructor call `variant(args...)`. */
  datatype CtorRequest =
    | DefaultInit                                   // variant()
    | FromVariant(category: Category)               // variant(const variant&) / variant(variant&&)
    | Converting(arg: Arg)                          // variant(T&&)
    | InPlaceType(name: string, args: seq<Arg>)     // variant(std::in_place_type<T>, args...)
    | InPlaceIndex(index: nat, args: seq<Arg>)      // variant(std::in_place_index<I>, args...)
    | FromStdVariant(category: Category, alts: seq<string>)  // variant(std::variant<Rs...>)

  /** An assignment `v = x`. */
  datatype AssignRequest =
    | FromVariantAssign(category: Category)         // operator=(const variant&) / (variant&&)
    | ConvertingAssign(arg: Arg)                    // operator=(T&&)
    | FromStdVariantAssign(category: Category, alts: seq<string>)

  function ArgNames(args: seq<Arg>): seq<string>
  {
    seq(|args|, i requires 0 <= i < |args| => args[i].name)
  }

  /** `std::is_constructible_v<T, Args...>` for one alternative. */
  predicate ConstructibleFrom(t: TypeInfo, args: seq<Arg>)
  {
    if args == [] then t.defaultConstructible
    else if |args| == 1 && args[0].name == t.name then
      if args[0].category == Rvalue then t.moveConstructible else t.copyConstructible
    else ArgNames(args) in t.otherCtors
  }

  /** `std::is_constructible_v<variant<Ts...>, Args...>`. */
  predicate IsConstructible(ts: seq<TypeInfo>, req: CtorRequest)
  {
    match req
    // variant() = delete: never valueless, so never default-constructed
    case DefaultInit => false
    // variant(variant&&) = delete wins for rvalues; copies need copy_control<true>
    case FromVariant(c) => c != Rvalue && AllCopyConstructible(ts)
    // enable_if_t<is_unique_v<T> && std::is_constructible_v<D, T>>
    case Converting(a) =>
      var i := TypeList.IndexFromType(a.name, Names(ts));
      i.Some? && ConstructibleFrom(ts[i.value], [a])
    // enable_if_t<is_unique_v<T>>, enable_if_t<std::is_constructible_v<T, Args...>>
    case InPlaceType(n, args) =>
      var i := TypeList.IndexFromType(n, Names(ts));
      i.Some? && ConstructibleFrom(ts[i.value], args)
    // T = variant_alternative_t<I, Ts...> must exist and be constructible
    case InPlaceIndex(i, args) =>
      i < |ts| && ConstructibleFrom(ts[i], args)
    // all_same_v<Rs...>, then the const& overload (all copyable) or,
    // for rvalues, also the && overload (all movable)
    case FromStdVariant(c, rs) =>
      rs == Names(ts) &&
      (AllCopyConstructible(ts) || (c == Rvalue && AllMoveConstructible(ts)))
  }

  /** `std::is_assignable_v<variant<Ts...>&, Arg>`. */
  predicate IsAssignable(ts: seq<TypeInfo>, req: AssignRequest)
  {
    match req
    case FromVariantAssign(c) => c != Rvalue && AllCopyConstructible(ts)
    // enable_if_t<is_unique_v<T> && std::is_constructible_v<T&&, T>>; the
    // second conjunct binds a reference to its own type and always holds
    case ConvertingAssign(a) => TypeList.IndexFromType(a.name, Names(ts)).Some?
    case FromStdVariantAssign(c, rs) =>
      rs == Names(ts) &&
      (AllCopyConstructible(ts) || (c == Rvalue && AllMoveConstructible(ts)))
  }

  // ----- general rules --------------------------------------------------

  /** A variant is never default-constructible, move-constructible or
      move-assignable, whatever its alternatives. */
  lemma NeverDefaultNorMove(ts: seq<TypeInfo>)
    ensures !IsConstructible(ts, DefaultInit)
    ensures !IsConstructible(ts, FromVariant(Rvalue))
    ensures !IsAssignable(ts, FromVariantAssign(Rvalue))
  {
  }

  /** Copy construction and copy assignment are admitted exactly when every
      alternative is copy-constructible. */
  lemma CopyIffEveryAlternativeCopies(ts: seq<TypeInfo>)
    ensures IsConstructible(ts, FromVariant(ConstLvalue)) <==>
            forall i :: 0 <= i < |ts| ==> ts[i].copyConstructible
    ensures IsAssignable(ts, FromVariantAssign(ConstLvalue)) <==>
            forall i :: 0 <= i < |ts| ==> ts[i].copyConstructible
  {
    AllCopyConstructibleMeansEach(ts);
  }

  /** Converting from a single value: an rvalue needs the alternative to be
      move-constructible, an lvalue or const lvalue needs it copy-constructible,
      and in every case the type must occur exactly once. */
  lemma ConvertingRule(ts: seq<TypeInfo>, a: Arg)
    ensures IsConstructible(ts, Converting(a)) <==>
            exists i :: 0 <= i < |ts| && ts[i].name == a.name &&
                        multiset(Names(ts))[a.name] == 1 &&
                        (if a.category == Rvalue then ts[i].moveConstructible
                         else ts[i].copyConstructible)
  {
    var r := TypeList.IndexFromType(a.name, Names(ts));
    if IsConstructible(ts, Converting(a)) {
      assert ts[r.value].name == a.name;
    }
    if exists i :: 0 <= i < |ts| && ts[i].name == a.name &&
                   multiset(Names(ts))[a.name] == 1 &&
                   (if a.category == Rvalue then ts[i].moveConstructible
                    else ts[i].copyConstructible) {
      var i :| 0 <= i < |ts| && ts[i].name == a.name &&
               multiset(Names(ts))[a.name] == 1 &&
               (if a.category == Rvalue then ts[i].moveConstructible
                else ts[i].copyConstructible);
      assert Names(ts)[i] == a.name;
      assert r.value == i;
    }
  }

  /** In-place construction of a default-constructible alternative is always
      admitted, by index and, when the type is unique, by type. */
  lemma InPlaceDefaultAccepted(ts: seq<TypeInfo>, i: nat)
    requires i < |ts| && ts[i].defaultConstructible
    ensures IsConstructible(ts, InPlaceIndex(i, []))
    ensures multiset(Names(ts))[ts[i].name] == 1 ==> IsConstructible(ts, InPlaceType(ts[i].name, []))
  {
    if multiset(Names(ts))[ts[i].name] == 1 {
      assert Names(ts)[i] == ts[i].name;
      TypeList.AlternativeThenIndex(Names(ts), i);
    }
  }

  /** A type listed twice cannot be chosen by type, neither by conversion,
      nor by `in_place_type`, nor by converting assignment; indices stay usable. */
  lemma DuplicateRejectedByType(ts: seq<TypeInfo>, j: nat, k: nat, args: seq<Arg>, c: Category)
    requires j < k < |ts| && ts[j].name == ts[k].name
    ensures !IsConstructible(ts, Converting(Arg(ts[j].name, c)))
    ensures !IsConstructible(ts, InPlaceType(ts[j].name, args))
    ensures !IsAssignable(ts, ConvertingAssign(Arg(ts[j].name, c)))
    ensures IsConstructible(ts, InPlaceIndex(j, args)) == ConstructibleFrom(ts[j], args)
    ensures IsConstructible(ts, InPlaceIndex(k, args)) == ConstructibleFrom(ts[k], args)
  {
    var ns := Names(ts);
    assert ns[j] == ns[k];
    TypeList.DuplicateNotResolved(ns, j, k);
  }

  // ----- the fixture types of src/cxx_enumext.cpp ------------------------

  const MoveType := TypeInfo("MoveType", 1, true, false, true, true, {})
  const CopyType := TypeInfo("CopyType", 1, true, true, false, false, {["int", "std::string"]})
  const CopyAndMoveType := TypeInfo("CopyAndMoveType", 1, true, true, true, true, {})
  const NoCopyAndNoMoveType := TypeInfo("NoCopyAndNoMoveType", 1, true, false, false, false, {})
  const Int := TypeInfo("int", 4, true, true, true, true, {})

  const AllVariant := [MoveType, CopyType, CopyAndMoveType, NoCopyAndNoMoveType]
  const MoveVariant := [MoveType, CopyAndMoveType]
  const CopyVariant := [CopyType, CopyAndMoveType]
  const DuplicateVariant := [Int, Int]

  /** The fixture names are pairwise distinct, so each resolves to its position. */
  lemma FixturesResolve()
    ensures TypeList.IndexFromType("MoveType", Names(AllVariant)) == Wrappers.Some(0)
    ensures TypeList.IndexFromType("CopyType", Names(AllVariant)) == Wrappers.Some(1)
    ensures TypeList.IndexFromType("CopyAndMoveType", Names(AllVariant)) == Wrappers.Some(2)
    ensures TypeList.IndexFromType("NoCopyAndNoMoveType", Names(AllVariant)) == Wrappers.Some(3)
    ensures TypeList.IndexFromType("int", Names(AllVariant)).None?
  {
    var ns := Names(AllVariant);
    assert ns == ["MoveType", "CopyType", "CopyAndMoveType", "NoCopyAndNoMoveType"];
    assert multiset(ns)["MoveType"] == 1;
    assert multiset(ns)["CopyType"] == 1;
    assert multiset(ns)["CopyAndMoveType"] == 1;
    assert multiset(ns)["NoCopyAndNoMoveType"] == 1;
    assert multiset(ns)["int"] == 0;
  }

  /** Which fixture lists are all-copyable or all-movable. */
  lemma FixtureConjunctions()
    ensures !AllCopyConstructible(AllVariant) && !AllMoveConstructible(AllVariant)
    ensures !AllCopyConstructible(MoveVariant) && AllMoveConstructible(MoveVariant)
    ensures AllCopyConstructible(CopyVariant) && !AllMoveConstructible(CopyVariant)
    ensures Names(AllVariant) == ["MoveType", "CopyType", "CopyAndMoveType", "NoCopyAndNoMoveType"]
  {
    AllCopyConstructibleMeansEach(AllVariant);
    AllMoveConstructibleMeansEach(AllVariant);
    AllCopyConstructibleMeansEach(MoveVariant);
    AllMoveConstructibleMeansEach(MoveVariant);
    AllCopyConstructibleMeansEach(CopyVariant);
    AllMoveConstructibleMeansEach(CopyVariant);
    assert !AllVariant[0].copyConstructible && !AllVariant[1].moveConstructible;
    assert !MoveVariant[0].copyConstructible && !CopyVariant[0].moveConstructible;
  }

  /** The assertions over `variant<MoveType, CopyType, CopyAndMoveType,
      NoCopyAndNoMoveType>` on copying, moving and `std::variant`. */
  lemma AllVariantWholeRules()
    ensures !IsConstructible(AllVariant, DefaultInit)
    ensures !IsConstructible(AllVariant, FromVariant(Rvalue))
    ensures !IsConstructible(AllVariant, FromVariant(ConstLvalue))
    ensures !IsAssignable(AllVariant, FromVariantAssign(ConstLvalue))
    ensures !IsAssignable(AllVariant, FromVariantAssign(Rvalue))
    // from std::variant: neither all copyable nor all movable
    ensures !IsConstructible(AllVariant, FromStdVariant(ConstLvalue, Names(AllVariant)))
    ensures !IsConstructible(AllVariant, FromStdVariant(Rvalue, Names(AllVariant)))
    ensures !IsAssignable(AllVariant, FromStdVariantAssign(ConstLvalue, Names(AllVariant)))
    ensures !IsAssignable(AllVariant, FromStdVariantAssign(Rvalue, Names(AllVariant)))
  {
    FixtureConjunctions();
  }

  /** The converting-construction assertions for MoveType (everything that
      copies is refused) and CopyType (everything that moves is refused). */
  lemma AllVariantMoveAndCopyTypeRules()
    ensures IsConstructible(AllVariant, Converting(Arg("MoveType", Rvalue)))
    ensures !IsConstructible(AllVariant, Converting(Arg("MoveType", Lvalue)))
    ensures !IsConstructible(AllVariant, Converting(Arg("MoveType", ConstLvalue)))
    ensures IsConstructible(AllVariant, InPlaceType("MoveType", []))
    ensures IsConstructible(AllVariant, InPlaceIndex(0, []))
    ensures !IsConstructible(AllVariant, Converting(Arg("CopyType", Rvalue)))
    ensures IsConstructible(AllVariant, Converting(Arg("CopyType", Lvalue)))
    ensures IsConstructible(AllVariant, Converting(Arg("CopyType", ConstLvalue)))
    ensures IsConstructible(AllVariant, InPlaceType("CopyType", []))
    ensures IsConstructible(AllVariant, InPlaceType("CopyType", [Arg("int", Rvalue), Arg("std::string", Rvalue)]))
    ensures IsConstructible(AllVariant, InPlaceIndex(1, []))
  {
    FixturesResolve();
    assert ArgNames([Arg("int", Rvalue), Arg("std::string", Rvalue)]) == ["int", "std::string"];
  }

  /** The converting-construction assertions for CopyAndMoveType (everything
      works) and NoCopyAndNoMoveType (only the in-place forms), and the two
      invalid requests. */
  lemma AllVariantOtherTypeRules()
    ensures IsConstructible(AllVariant, Converting(Arg("CopyAndMoveType", Rvalue)))
    ensures IsConstructible(AllVariant, Converting(Arg("CopyAndMoveType", Lvalue)))
    ensures IsConstructible(AllVariant, Converting(Arg("CopyAndMoveType", ConstLvalue)))
    ensures IsConstructible(AllVariant, InPlaceType("CopyAndMoveType", []))
    ensures IsConstructible(AllVariant, InPlaceIndex(2, []))
    ensures !IsConstructible(AllVariant, Converting(Arg("NoCopyAndNoMoveType", Rvalue)))
    ensures !IsConstructible(AllVariant, Converting(Arg("NoCopyAndNoMoveType", Lvalue)))
    ensures !IsConstructible(AllVariant, Converting(Arg("NoCopyAndNoMoveType", ConstLvalue)))
    ensures IsConstructible(AllVariant, InPlaceType("NoCopyAndNoMoveType", []))
    ensures IsConstructible(AllVariant, InPlaceIndex(3, []))
    ensures !IsConstructible(AllVariant, InPlaceIndex(4, []))
    ensures !IsConstructible(AllVariant, InPlaceType("int", []))
  {
    FixturesResolve();
  }

  /** The assertions over `variant<MoveType, CopyAndMoveType>`. */
  lemma MoveVariantRules()
    ensures !IsConstructible(MoveVariant, DefaultInit)
    ensures !IsConstructible(MoveVariant, FromVariant(Rvalue))
    ensures !IsConstructible(MoveVariant, FromVariant(ConstLvalue))
    ensures !IsAssignable(MoveVariant, FromVariantAssign(ConstLvalue))
    ensures !IsAssignable(MoveVariant, FromVariantAssign(Rvalue))
    ensures !IsConstructible(MoveVariant, FromStdVariant(ConstLvalue, Names(MoveVariant)))
    ensures IsConstructible(MoveVariant, FromStdVariant(Rvalue, Names(MoveVariant)))
    ensures !IsAssignable(MoveVariant, FromStdVariantAssign(ConstLvalue, Names(MoveVariant)))
    ensures IsAssignable(MoveVariant, FromStdVariantAssign(Rvalue, Names(MoveVariant)))
  {
    FixtureConjunctions();
  }

  /** The assertions over `variant<CopyType, CopyAndMoveType>`. */
  lemma CopyVariantRules()
    ensures !IsConstructible(CopyVariant, DefaultInit)
    ensures !IsConstructible(CopyVariant, FromVariant(Rvalue))
    ensures IsConstructible(CopyVariant, FromVariant(ConstLvalue))
    ensures IsAssignable(CopyVariant, FromVariantAssign(ConstLvalue))
    ensures !IsAssignable(CopyVariant, FromVariantAssign(Rvalue))
    ensures IsConstructible(CopyVariant, FromStdVariant(ConstLvalue, Names(CopyVariant)))
    ensures IsConstructible(CopyVariant, FromStdVariant(Rvalue, Names(CopyVariant)))
    ensures IsAssignable(CopyVariant, FromStdVariantAssign(ConstLvalue, Names(CopyVariant)))
    ensures IsAssignable(CopyVariant, FromStdVariantAssign(Rvalue, Names(CopyVariant)))
  {
    FixtureConjunctions();
  }

  /** The assertions over `variant<int, int>`. */
  lemma DuplicateVariantRules()
    ensures !IsConstructible(DuplicateVariant, Converting(Arg("int", Rvalue)))
    ensures !IsConstructible(DuplicateVariant, InPlaceType("int", [Arg("int", Rvalue)]))
    ensures IsConstructible(DuplicateVariant, InPlaceIndex(0, [Arg("int", Rvalue)]))
    ensures IsConstructible(DuplicateVariant, InPlaceIndex(1, [Arg("int", Rvalue)]))
    ensures !IsConstructible(DuplicateVariant, InPlaceIndex(2, [Arg("int", Rvalue)]))
  {
    DuplicateRejectedByType(DuplicateVariant, 0, 1, [Arg("int", Rvalue)], Rvalue);
  }
}
