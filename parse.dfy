/** The front end of the `extern_type` attribute macro: `parse_enum`,
    `parse_type_decl` and `AstPieces::from_token_streams`. Each accumulates
    errors in a fresh `Errors` and reports them all at once, except for the
    shape errors of a type alias, which return at once and drop whatever was
    accumulated before them. */
module Parse {
  import opened Wrappers
  import opened Syntax
  import opened MacroErrors
  import opened ExternTypes
  import BridgeParams

  const UnsupportedRepr := "unsupported repr attribute"
  const OnlyLifetimes := "only lifetime generic params supported"
  const GenericsNotSupported := "Generics are not supported"
  const DidYouMeanOptionalPath := "unsupported type, did you mean 'Optional' or 'cxx_enumext::Optional'?"
  const DidYouMeanOptional := "unsupported type, did you mean 'Optional'?"
  const DidYouMeanExpected := "unsupported type, did you mean 'Expected'?"
  const OptionalNeedsType := "Optional needs a contained type"
  const OptionalOneArgument := "Optional takes only one generic type argument"
  const ExpectedNeedsTypes := "Expected needs two contained types"
  const MustBeTypeArgument := "must be a type argument"
  const ExpectedTwoArguments := "Expected takes two generic type argument"
  const UnsupportedItem := "unsupported item for ExternType generation"

  /** `enum Item`. */
  datatype Item = EnumDecl(variants: seq<Variant>) | OptionalDecl(inner: Ty) | ExpectedDecl(expected: Ty, unexpected: Ty)

  /** `struct AstPieces` (the visibility is not modelled). */
  datatype AstPieces = AstPieces(
    item: Item,
    ident: string,
    params: BridgeParams.Params,
    attrs: seq<Attribute>,
    cfg: Option<Attribute>,
    generics: seq<GenericParam>,
    boxTypes: seq<Path>,
    vecTypes: seq<Path>,
    externTypes: seq<ExternType>)

  // ----- attributes -----------------------------------------------------

  predicate IsCfg(a: Attribute) { PathIsIdent(a.path, "cfg") }
  predicate IsRepr(a: Attribute) { PathIsIdent(a.path, "repr") }

  /** The attributes `retain_mut` keeps: all but `#[cfg]`. */
  function Kept(attrs: seq<Attribute>): seq<Attribute>
  {
    if attrs == [] then []
    else Kept(attrs[..|attrs| - 1]) + (if IsCfg(attrs[|attrs| - 1]) then [] else [attrs[|attrs| - 1]])
  }

  /** The `#[cfg]` that `cfg` ends up holding: the last one, since each
      `#[cfg]` the pass meets overwrites the one before. */
  function LastCfg(attrs: seq<Attribute>): (r: Option<Attribute>)
    ensures r.Some? ==> exists i :: 0 <= i < |attrs| && attrs[i] == r.value && IsCfg(attrs[i]) &&
                          forall j :: i < j < |attrs| ==> !IsCfg(attrs[j])
    ensures r.None? <==> forall a :: a in attrs ==> !IsCfg(a)
  {
    if attrs == [] then None
    else if IsCfg(attrs[|attrs| - 1]) then Some(attrs[|attrs| - 1])
    else
      var r := LastCfg(attrs[..|attrs| - 1]);
      assert forall a :: a in attrs ==> a in attrs[..|attrs| - 1] || a == attrs[|attrs| - 1];
      r
  }

  /** One "unsupported repr attribute" per `#[repr]`, in order. */
  function ReprErrors(attrs: seq<Attribute>): seq<SynError>
  {
    if attrs == [] then []
    else ReprErrors(attrs[..|attrs| - 1]) + (if IsRepr(attrs[|attrs| - 1]) then [Single(UnsupportedRepr)] else [])
  }

  /** The `retain_mut` pass over the attributes: drops every `#[cfg]`,
      remembering the last, and reports every `#[repr]`, which stays. */
  method RetainAttrs(attrs: seq<Attribute>, cx: Errors) returns (kept: seq<Attribute>, cfg: Option<Attribute>)
    modifies cx
    ensures kept == Kept(attrs) && cfg == LastCfg(attrs)
    ensures cx.errors == old(cx.errors) + ReprErrors(attrs)
  {
    kept, cfg := [], None;
    var k := 0;
    while k < |attrs|
      invariant 0 <= k <= |attrs|
      invariant kept == Kept(attrs[..k]) && cfg == LastCfg(attrs[..k])
      invariant cx.errors == old(cx.errors) + ReprErrors(attrs[..k])
    {
      assert attrs[..k + 1][..k] == attrs[..k];
      var attr := attrs[k];
      if IsCfg(attr) {
        cfg := Some(attr);
      } else {
        if IsRepr(attr) {
          cx.Push(Single(UnsupportedRepr));
        }
        kept := kept + [attr];
      }
      k := k + 1;
    }
    assert attrs[..k] == attrs;
  }

  /** `#[repr]` is rejected and `#[cfg]` extracted exactly as the attribute
      list says. */
  lemma {:induction false} AttributeRules(attrs: seq<Attribute>)
    ensures ReprErrors(attrs) == [] <==> forall a :: a in attrs ==> !IsRepr(a)
    ensures forall a :: a in Kept(attrs) <==> a in attrs && !IsCfg(a)
    decreases |attrs|
  {
    if attrs != [] {
      var front := attrs[..|attrs| - 1];
      AttributeRules(front);
      assert attrs == front + [attrs[|attrs| - 1]];
    }
  }

  // ----- enums -----------------------------------------------------------

  function GenericErrors(gs: seq<GenericParam>): seq<SynError>
  {
    if gs == [] then []
    else GenericErrors(gs[..|gs| - 1]) + (if gs[|gs| - 1].LifetimeParam? then [] else [Single(OnlyLifetimes)])
  }

  function EnumErrors(enm: ItemEnum): seq<SynError>
  {
    ReprErrors(enm.attrs) + VariantErrs(enm.variants) + GenericErrors(enm.generics)
  }

  /** What `parse_enum` returns: all its errors combined in the order they
      were found, or the pieces with the collected field types. */
  function EnumResult(enm: ItemEnum, params: BridgeParams.Params): Result<AstPieces, SynError>
  {
    var vs := enm.variants;
    if EnumErrors(enm) != [] then Failure(SynError(Flatten(EnumErrors(enm))))
    else Success(AstPieces(EnumDecl(vs), enm.ident, params, Kept(enm.attrs), LastCfg(enm.attrs),
                           enm.generics, VariantBoxes(vs), VariantVecs(vs), VariantExterns(vs)))
  }

  lemma CollectStep(tys: seq<Ty>, j: nat)
    requires j < |tys|
    ensures Boxes(tys[..j + 1]) == Boxes(tys[..j]) + BoxOf(Found(tys[j]))
    ensures Vecs(tys[..j + 1]) == Vecs(tys[..j]) + VecOf(Found(tys[j]))
    ensures Externs(tys[..j + 1]) == Externs(tys[..j]) + ExternOf(Found(tys[j]))
    ensures Errs(tys[..j + 1]) == Errs(tys[..j]) + ErrorOf(Found(tys[j]))
  {
    assert tys[..j + 1][..j] == tys[..j];
  }

  /** The `for field in ...` loop of one variant: `find_types` on each field
      type in turn. */
  method CollectFields(tys: seq<Ty>, acc: Collected, cx: Errors)
    modifies acc, cx
    ensures acc.boxTypes == old(acc.boxTypes) + Boxes(tys)
    ensures acc.vecTypes == old(acc.vecTypes) + Vecs(tys)
    ensures acc.externTypes == old(acc.externTypes) + Externs(tys)
    ensures cx.errors == old(cx.errors) + Errs(tys)
  {
    var j := 0;
    while j < |tys|
      invariant 0 <= j <= |tys|
      invariant acc.boxTypes == old(acc.boxTypes) + Boxes(tys[..j])
      invariant acc.vecTypes == old(acc.vecTypes) + Vecs(tys[..j])
      invariant acc.externTypes == old(acc.externTypes) + Externs(tys[..j])
      invariant cx.errors == old(cx.errors) + Errs(tys[..j])
    {
      var f := Found(tys[j]);
      FindTypes(tys[j], acc, cx);
      CollectStep(tys, j);
      ConcatAssoc(old(acc.boxTypes), Boxes(tys[..j]), BoxOf(f));
      ConcatAssoc(old(acc.vecTypes), Vecs(tys[..j]), VecOf(f));
      ConcatAssoc(old(acc.externTypes), Externs(tys[..j]), ExternOf(f));
      ConcatAssoc(old(cx.errors), Errs(tys[..j]), ErrorOf(f));
      j := j + 1;
    }
    assert tys[..j] == tys;
  }

  /** The `for generic in ...` loop: one error per non-lifetime parameter. */
  method CheckGenerics(gs: seq<GenericParam>, cx: Errors)
    modifies cx
    ensures cx.errors == old(cx.errors) + GenericErrors(gs)
  {
    var k := 0;
    while k < |gs|
      invariant 0 <= k <= |gs|
      invariant cx.errors == old(cx.errors) + GenericErrors(gs[..k])
    {
      assert gs[..k + 1][..k] == gs[..k];
      if !gs[k].LifetimeParam? {
        cx.Push(Single(OnlyLifetimes));
      }
      k := k + 1;
    }
    assert gs[..k] == gs;
  }

  /** The lists the variant loop builds, one variant at a time. */
  function VariantBoxes(vs: seq<Variant>): seq<Path>
  {
    if vs == [] then [] else VariantBoxes(vs[..|vs| - 1]) + Boxes(FieldTypes(vs[|vs| - 1].fields))
  }
  function VariantVecs(vs: seq<Variant>): seq<Path>
  {
    if vs == [] then [] else VariantVecs(vs[..|vs| - 1]) + Vecs(FieldTypes(vs[|vs| - 1].fields))
  }
  function VariantExterns(vs: seq<Variant>): seq<ExternType>
  {
    if vs == [] then [] else VariantExterns(vs[..|vs| - 1]) + Externs(FieldTypes(vs[|vs| - 1].fields))
  }
  function VariantErrs(vs: seq<Variant>): seq<SynError>
  {
    if vs == [] then [] else VariantErrs(vs[..|vs| - 1]) + Errs(FieldTypes(vs[|vs| - 1].fields))
  }

  lemma ConcatAssoc<T>(a: seq<T>, b: seq<T>, c: seq<T>)
    ensures (a + b) + c == a + (b + c)
  {
  }

  /** The `for variant in ...` loop of `parse_enum`, on the fresh
      accumulators. */
  method CollectVariants(vs: seq<Variant>, acc: Collected, cx: Errors)
    requires acc.boxTypes == [] && acc.vecTypes == [] && acc.externTypes == []
    modifies acc, cx
    ensures acc.boxTypes == VariantBoxes(vs)
    ensures acc.vecTypes == VariantVecs(vs)
    ensures acc.externTypes == VariantExterns(vs)
    ensures cx.errors == old(cx.errors) + VariantErrs(vs)
  {
    var i := 0;
    while i < |vs|
      invariant 0 <= i <= |vs|
      invariant acc.boxTypes == VariantBoxes(vs[..i])
      invariant acc.vecTypes == VariantVecs(vs[..i])
      invariant acc.externTypes == VariantExterns(vs[..i])
      invariant cx.errors == old(cx.errors) + VariantErrs(vs[..i])
    {
      CollectFields(FieldTypes(vs[i].fields), acc, cx);
      ConcatAssoc(old(cx.errors), VariantErrs(vs[..i]), Errs(FieldTypes(vs[i].fields)));
      assert vs[..i + 1][..i] == vs[..i];
      i := i + 1;
    }
    assert vs[..i] == vs;
  }

  /** `parse_enum`. */
  method ParseEnum(enm: ItemEnum, params: BridgeParams.Params) returns (r: Result<AstPieces, SynError>)
    ensures r == EnumResult(enm, params)
  {
    var cx := new Errors();
    var acc := new Collected();
    var attrs, cfg := RetainAttrs(enm.attrs, cx);
    assert cx.errors == ReprErrors(enm.attrs);
    CollectVariants(enm.variants, acc, cx);
    CheckGenerics(enm.generics, cx);
    var p := cx.Propagate();
    if p.Failure? {
      return Failure(p.error);
    }
    r := Success(AstPieces(EnumDecl(enm.variants), enm.ident, params, attrs, cfg, enm.generics,
                           acc.boxTypes, acc.vecTypes, acc.externTypes));
  }

  lemma {:induction false} ErrsEmpty(tys: seq<Ty>)
    ensures Errs(tys) == [] <==> forall i :: 0 <= i < |tys| ==> !Found(tys[i]).Unsupported?
    decreases |tys|
  {
    if tys != [] {
      ErrsEmpty(tys[..|tys| - 1]);
    }
  }

  lemma {:induction false} GenericErrorsEmpty(gs: seq<GenericParam>)
    ensures GenericErrors(gs) == [] <==> forall i :: 0 <= i < |gs| ==> gs[i].LifetimeParam?
    decreases |gs|
  {
    if gs != [] {
      GenericErrorsEmpty(gs[..|gs| - 1]);
    }
  }

  /** Every field of the variant has a type `find_types` supports. */
  predicate FieldsSupported(v: Variant)
  {
    forall j :: 0 <= j < |FieldTypes(v.fields)| ==> !Found(FieldTypes(v.fields)[j]).Unsupported?
  }

  lemma {:induction false} VariantErrsEmpty(vs: seq<Variant>)
    ensures VariantErrs(vs) == [] <==> forall k :: 0 <= k < |vs| ==> FieldsSupported(vs[k])
    decreases |vs|
  {
    if vs != [] {
      var front := vs[..|vs| - 1];
      VariantErrsEmpty(front);
      ErrsEmpty(FieldTypes(vs[|vs| - 1].fields));
      assert |VariantErrs(vs)| == |VariantErrs(front)| + |Errs(FieldTypes(vs[|vs| - 1].fields))|;
      assert forall k :: 0 <= k < |front| ==> front[k] == vs[k];
    }
  }

  /** An enum is accepted exactly when it has no `#[repr]`, no field of an
      unsupported type and only lifetime generics; the accepted pieces drop
      every `#[cfg]` and keep the last one apart. */
  lemma EnumAccepted(enm: ItemEnum, params: BridgeParams.Params)
    ensures EnumResult(enm, params).Success? <==>
              (forall a :: a in enm.attrs ==> !IsRepr(a)) &&
              (forall k :: 0 <= k < |enm.variants| ==> FieldsSupported(enm.variants[k])) &&
              (forall i :: 0 <= i < |enm.generics| ==> enm.generics[i].LifetimeParam?)
    ensures EnumResult(enm, params).Success? ==>
              EnumResult(enm, params).value.cfg == LastCfg(enm.attrs) &&
              forall a :: a in EnumResult(enm, params).value.attrs ==> !IsCfg(a)
  {
    AttributeRules(enm.attrs);
    VariantErrsEmpty(enm.variants);
    GenericErrorsEmpty(enm.generics);
    var e := EnumErrors(enm);
    assert e == [] <==> ReprErrors(enm.attrs) == [] && VariantErrs(enm.variants) == [] &&
                        GenericErrors(enm.generics) == [];
  }

  // ----- type aliases ---------------------------------------------------

  /** The generic arguments of `Optional<T>`: exactly one type. */
  function OptionalShape(args: PathArguments): Result<Item, string>
  {
    if !args.AngleBracketed? then Failure(OptionalNeedsType)
    else if |args.args| != 1 || !args.args[0].TypeArg? then Failure(OptionalOneArgument)
    else Success(OptionalDecl(args.args[0].ty))
  }

  /** The generic arguments of `Expected<T, E>`: exactly two types. */
  function ExpectedShape(args: PathArguments): Result<Item, string>
  {
    if !args.AngleBracketed? then Failure(ExpectedNeedsTypes)
    else if |args.args| != 2 then Failure(ExpectedTwoArguments)
    else if !args.args[0].TypeArg? || !args.args[1].TypeArg? then Failure(MustBeTypeArgument)
    else Success(ExpectedDecl(args.args[0].ty, args.args[1].ty))
  }

  /** Which container the last path segment names. */
  function SegmentShape(seg: Segment): Result<Item, string>
  {
    if seg.ident == "Option" then Failure(DidYouMeanOptional)
    else if seg.ident == "Result" then Failure(DidYouMeanExpected)
    else if seg.ident == "Optional" then OptionalShape(seg.arguments)
    else if seg.ident == "Expected" then ExpectedShape(seg.arguments)
    else Failure(UnsupportedType)
  }

  /** The shape check of `parse_type_decl`: which container the alias names
      and with which payload types, or the message it returns at once. */
  function Shape(ty: Ty): (r: Result<Item, string>)
    ensures r.Success? ==> r.value.OptionalDecl? || r.value.ExpectedDecl?
  {
    if !ty.PathTy? || ty.qself then Failure(UnsupportedType)
    else
      var segs := ty.path.segments;
      if !(|segs| == 1 || (|segs| == 2 && segs[0].ident == "cxx_enumext")) then Failure(DidYouMeanOptionalPath)
      else SegmentShape(segs[|segs| - 1])
  }

  /** The payload types of an `Optional` or `Expected` alias. */
  function PayloadTypes(item: Item): seq<Ty>
    requires !item.EnumDecl?
  {
    if item.OptionalDecl? then [item.inner] else [item.expected, item.unexpected]
  }

  /** The errors `parse_type_decl` collects before its shape check. */
  function PrefixErrors(alias: ItemType): seq<SynError>
  {
    (if alias.generics != [] then [Single(GenericsNotSupported)] else []) + ReprErrors(alias.attrs)
  }

  /** The errors `parse_type_decl` has collected when its shape check passes. */
  function AliasErrors(alias: ItemType, item: Item): seq<SynError>
    requires !item.EnumDecl?
  {
    PrefixErrors(alias) + Errs(PayloadTypes(item))
  }

  /** What `parse_type_decl` returns. */
  function TypeDeclResult(alias: ItemType, params: BridgeParams.Params): Result<AstPieces, SynError>
  {
    var shape := Shape(alias.ty);
    if shape.Failure? then Failure(Single(shape.error))
    else if AliasErrors(alias, shape.value) != [] then Failure(SynError(Flatten(AliasErrors(alias, shape.value))))
    else
      var tys := PayloadTypes(shape.value);
      Success(AstPieces(shape.value, alias.ident, params, Kept(alias.attrs), LastCfg(alias.attrs),
                        alias.generics, Boxes(tys), Vecs(tys), Externs(tys)))
  }

  /** What the `find_types` calls of an accepted shape leave behind. */
  predicate PayloadCollected(item: Item, acc: Collected, cx: Errors, before: seq<SynError>)
    requires !item.EnumDecl?
    reads acc, cx
  {
    acc.boxTypes == Boxes(PayloadTypes(item)) && acc.vecTypes == Vecs(PayloadTypes(item)) &&
    acc.externTypes == Externs(PayloadTypes(item)) && cx.errors == before + Errs(PayloadTypes(item))
  }

  lemma OneCollected(t: Ty)
    ensures Boxes([t]) == BoxOf(Found(t)) && Vecs([t]) == VecOf(Found(t))
    ensures Externs([t]) == ExternOf(Found(t)) && Errs([t]) == ErrorOf(Found(t))
  {
    assert [t][..0] == [];
  }

  lemma TwoCollected(t: Ty, u: Ty)
    ensures Boxes([t, u]) == BoxOf(Found(t)) + BoxOf(Found(u))
    ensures Vecs([t, u]) == VecOf(Found(t)) + VecOf(Found(u))
    ensures Externs([t, u]) == ExternOf(Found(t)) + ExternOf(Found(u))
    ensures Errs([t, u]) == ErrorOf(Found(t)) + ErrorOf(Found(u))
  {
    assert [t, u][..1] == [t];
    OneCollected(t);
  }

  /** The `Optional` arm: a shape error, or `find_types` on the one type. */
  method ParseOptionalArgs(args: PathArguments, acc: Collected, cx: Errors) returns (r: Result<Item, string>)
    requires acc.boxTypes == [] && acc.vecTypes == [] && acc.externTypes == []
    modifies acc, cx
    ensures r == OptionalShape(args)
    ensures r.Success? ==> PayloadCollected(r.value, acc, cx, old(cx.errors))
  {
    match args {
      case NoArguments =>
        return Failure(OptionalNeedsType);
      case Parenthesized =>
        return Failure(OptionalNeedsType);
      case AngleBracketed(generic) =>
        if |generic| == 1 {
          if !generic[0].TypeArg? {
            return Failure(OptionalOneArgument);
          }
          FindTypes(generic[0].ty, acc, cx);
          OneCollected(generic[0].ty);
          r := Success(OptionalDecl(generic[0].ty));
        } else {
          return Failure(OptionalOneArgument);
        }
    }
  }

  /** The `Expected` arm: a shape error, or `find_types` on both types. */
  method ParseExpectedArgs(args: PathArguments, acc: Collected, cx: Errors) returns (r: Result<Item, string>)
    requires acc.boxTypes == [] && acc.vecTypes == [] && acc.externTypes == []
    modifies acc, cx
    ensures r == ExpectedShape(args)
    ensures r.Success? ==> PayloadCollected(r.value, acc, cx, old(cx.errors))
  {
    match args {
      case NoArguments =>
        return Failure(ExpectedNeedsTypes);
      case Parenthesized =>
        return Failure(ExpectedNeedsTypes);
      case AngleBracketed(generic) =>
        if |generic| == 2 {
          if !generic[0].TypeArg? {
            return Failure(MustBeTypeArgument);
          }
          if !generic[1].TypeArg? {
            return Failure(MustBeTypeArgument);
          }
          var expected, unexpected := generic[0].ty, generic[1].ty;
          FindTypes(expected, acc, cx);
          FindTypes(unexpected, acc, cx);
          TwoCollected(expected, unexpected);
          ConcatAssoc(old(cx.errors), ErrorOf(Found(expected)), ErrorOf(Found(unexpected)));
          r := Success(ExpectedDecl(expected, unexpected));
        } else {
          return Failure(ExpectedTwoArguments);
        }
    }
  }

  /** The identifier test on the container segment. */
  method ParseSegment(segment: Segment, acc: Collected, cx: Errors) returns (r: Result<Item, string>)
    requires acc.boxTypes == [] && acc.vecTypes == [] && acc.externTypes == []
    modifies acc, cx
    ensures r == SegmentShape(segment)
    ensures r.Success? ==> PayloadCollected(r.value, acc, cx, old(cx.errors))
  {
    if segment.ident == "Option" {
      r := Failure(DidYouMeanOptional);
    } else if segment.ident == "Result" {
      r := Failure(DidYouMeanExpected);
    } else if segment.ident == "Optional" {
      r := ParseOptionalArgs(segment.arguments, acc, cx);
    } else if segment.ident == "Expected" {
      r := ParseExpectedArgs(segment.arguments, acc, cx);
    } else {
      r := Failure(UnsupportedType);
    }
  }

  /** `parse_type_decl`. A shape error returns at once, dropping the errors
      collected so far; an accepted shape ends in `cx.propagate()?`. */
  method ParseTypeDecl(alias: ItemType, params: BridgeParams.Params) returns (r: Result<AstPieces, SynError>)
    ensures r == TypeDeclResult(alias, params)
  {
    var cx := new Errors();
    if alias.generics != [] {
      cx.Push(Single(GenericsNotSupported));
    }
    var acc := new Collected();
    var attrs, cfg := RetainAttrs(alias.attrs, cx);
    assert cx.errors == PrefixErrors(alias);
    if !alias.ty.PathTy? || alias.ty.qself {
      return Failure(Single(UnsupportedType));
    }
    var path := alias.ty.path;
    var segment;
    if |path.segments| == 1 {
      segment := path.segments[0];
    } else if |path.segments| == 2 && path.segments[0].ident == "cxx_enumext" {
      segment := path.segments[1];
    } else {
      return Failure(Single(DidYouMeanOptionalPath));
    }
    var shape := ParseSegment(segment, acc, cx);
    if shape.Failure? {
      return Failure(Single(shape.error));
    }
    r := FinishTypeDecl(alias, params, shape.value, attrs, cfg, acc, cx);
  }

  /** The end of an accepted arm of `parse_type_decl`: `cx.propagate()?`,
      then the pieces. */
  method FinishTypeDecl(alias: ItemType, params: BridgeParams.Params, item: Item, attrs: seq<Attribute>,
                        cfg: Option<Attribute>, acc: Collected, cx: Errors) returns (r: Result<AstPieces, SynError>)
    requires Shape(alias.ty) == Success(item)
    requires attrs == Kept(alias.attrs) && cfg == LastCfg(alias.attrs)
    requires PayloadCollected(item, acc, cx, PrefixErrors(alias))
    modifies cx
    ensures r == TypeDeclResult(alias, params)
  {
    assert cx.errors == AliasErrors(alias, item);
    var p := cx.Propagate();
    if p.Failure? {
      return Failure(p.error);
    }
    r := Success(AstPieces(item, alias.ident, params, attrs, cfg, alias.generics,
                           acc.boxTypes, acc.vecTypes, acc.externTypes));
  }

  /** The classification rules of a type alias. */
  lemma ShapeRules(ty: Ty, x: Ty, y: Ty, prefix: seq<Segment>)
    ensures Shape(PathTy(false, Path(false, [Segment("Option", AngleBracketed([TypeArg(x)]))]))) == Failure(DidYouMeanOptional)
    ensures Shape(PathTy(false, Path(false, [Segment("Result", AngleBracketed([TypeArg(x), TypeArg(y)]))]))) == Failure(DidYouMeanExpected)
    ensures Shape(PathTy(false, Path(false, [Segment("Optional", AngleBracketed([TypeArg(x)]))]))) == Success(OptionalDecl(x))
    ensures Shape(PathTy(false, Path(false, [Segment("cxx_enumext", NoArguments), Segment("Optional", AngleBracketed([TypeArg(x)]))])))
            == Success(OptionalDecl(x))
    ensures Shape(PathTy(false, Path(false, [Segment("Expected", AngleBracketed([TypeArg(x), TypeArg(y)]))]))) == Success(ExpectedDecl(x, y))
    ensures Shape(PathTy(false, Path(false, [Segment("Optional", AngleBracketed([TypeArg(x), TypeArg(y)]))]))) == Failure(OptionalOneArgument)
    ensures Shape(PathTy(false, Path(false, [Segment("Expected", AngleBracketed([TypeArg(x)]))]))) == Failure(ExpectedTwoArguments)
    ensures Shape(PathTy(false, Path(false, [Segment("Optional", NoArguments)]))) == Failure(OptionalNeedsType)
    ensures Shape(PathTy(true, Path(false, [Segment("Optional", AngleBracketed([TypeArg(x)]))]))) == Failure(UnsupportedType)
    ensures |prefix| >= 2 || (|prefix| == 1 && prefix[0].ident != "cxx_enumext") ==>
              Shape(PathTy(false, Path(false, prefix + [Segment("Optional", AngleBracketed([TypeArg(x)]))]))) == Failure(DidYouMeanOptionalPath)
  {
  }

  /** A shape error is reported alone: the errors already collected for the
      generics and the `#[repr]` attributes are dropped. Otherwise the alias
      is accepted exactly when it has no generics, no `#[repr]` and payload
      types `find_types` supports, and the payload types are collected. */
  lemma TypeDeclOutcome(alias: ItemType, params: BridgeParams.Params)
    ensures Shape(alias.ty).Failure? ==> TypeDeclResult(alias, params) == Failure(Single(Shape(alias.ty).error))
    ensures Shape(alias.ty).Success? ==>
              (TypeDeclResult(alias, params).Success? <==>
                 alias.generics == [] && (forall a :: a in alias.attrs ==> !IsRepr(a)) &&
                 forall i :: 0 <= i < |PayloadTypes(Shape(alias.ty).value)| ==>
                   !Found(PayloadTypes(Shape(alias.ty).value)[i]).Unsupported?)
    ensures TypeDeclResult(alias, params).Success? ==>
              TypeDeclResult(alias, params).value.item == Shape(alias.ty).value &&
              |TypeDeclResult(alias, params).value.boxTypes| + |TypeDeclResult(alias, params).value.vecTypes| +
              |TypeDeclResult(alias, params).value.externTypes| <= |PayloadTypes(Shape(alias.ty).value)|
  {
    AttributeRules(alias.attrs);
    if Shape(alias.ty).Success? {
      var tys := PayloadTypes(Shape(alias.ty).value);
      ErrsEmpty(tys);
      CountBound(tys);
    }
  }

  lemma {:induction false} CountBound(tys: seq<Ty>)
    ensures |Boxes(tys)| + |Vecs(tys)| + |Externs(tys)| <= |tys|
    decreases |tys|
  {
    if tys != [] {
      CountBound(tys[..|tys| - 1]);
      OneEntryPerPath(tys[|tys| - 1]);
    }
  }

  // ----- the whole attribute ----------------------------------------------

  /** The message of a rejected attribute argument list. */
  function ParamMessage(e: BridgeParams.ParamError): string
  {
    match e
    case DuplicateNamespace => "duplicate namespace param"
    case DuplicateCxxName => "duplicate cxx_name param"
    case ExpectedEquals => "expected `=`"
    case ExpectedPath => "expected identifier"
    case ExpectedString => "expected string literal"
    case InvalidName => "expected identifier"
    case UnexpectedToken => "unexpected token"
  }

  /** `AstPieces::from_token_streams`: the attribute arguments first, then
      the item, of which only type aliases and enums are supported. */
  method FromTokenStreams(attribute: seq<BridgeParams.Tok>, item: RustItem) returns (r: Result<AstPieces, SynError>)
    ensures BridgeParams.ParseParams(attribute).Failure? ==>
              r == Failure(Single(ParamMessage(BridgeParams.ParseParams(attribute).error)))
    ensures BridgeParams.ParseParams(attribute).Success? ==>
              r == match item
                   case TypeItem(alias) => TypeDeclResult(alias, BridgeParams.ParseParams(attribute).value)
                   case EnumItem(enm) => EnumResult(enm, BridgeParams.ParseParams(attribute).value)
                   case OtherItem => Failure(Single(UnsupportedItem))
  {
    var params := BridgeParams.ParseBridgeParams(attribute);
    if params.Failure? {
      return Failure(Single(ParamMessage(params.error)));
    }
    match item {
      case TypeItem(alias) => r := ParseTypeDecl(alias, params.value);
      case EnumItem(enm) => r := ParseEnum(enm, params.value);
      case OtherItem => r := Failure(Single(UnsupportedItem));
    }
  }
}
