/** `find_types`: sorts the type of every enum field (and the payloads of
    `Optional`/`Expected`) into the paths whose cxx bindings must be checked:
    `Box<P>` and `Vec<P>` element types, opaque C++ types behind cxx's smart
    pointers and vectors, and every other path as a trivial extern type. */
module ExternTypes {
  import opened Wrappers
  import opened Syntax
  import opened MacroErrors

  /** `enum ExternType`. `Unspecified` is never produced by `find_types`. */
  datatype ExternType = Trivial(path: Path) | Opaque(path: Path) | Unspecified(path: Path)

  const UnsupportedType := "unsupported type"

  /** The cxx wrappers whose element type must be an opaque extern type. */
  const OpaqueWrappers: seq<string> := ["UniquePtr", "SharedPtr", "WeakPtr", "CxxVector"]

  /** What examining one type contributes. */
  datatype Finding =
    | Nothing
    | Unsupported
    | BoxEntry(boxed: Path)
    | VecEntry(element: Path)
    | ExternEntry(extern: ExternType)

  /** The single generic argument of a segment, when it is a path type. */
  function PathArgument(seg: Segment): Option<Path>
  {
    match seg.arguments
    case AngleBracketed(args) =>
      if |args| == 1 && args[0].TypeArg? && args[0].ty.PathTy? then Some(args[0].ty.path) else None
    case _ => None
  }

  predicate HasOneArgument(seg: Segment)
  {
    seg.arguments.AngleBracketed? && |seg.arguments.args| == 1
  }

  /** The rules for a single segment: `Box<P>` and `Vec<P>` only unqualified
      (`bare`), the opaque wrappers both bare and as `cxx::X<P>`. Once the
      identifier and argument count match a rule, an argument that is not a
      path type yields no entry rather than another rule. */
  function SpecialSegment(seg: Segment, bare: bool): Option<Finding>
  {
    if !HasOneArgument(seg) then None
    else if bare && seg.ident == "Box" then
      if PathArgument(seg).Some? then Some(BoxEntry(PathArgument(seg).value)) else None
    else if bare && seg.ident == "Vec" then
      if PathArgument(seg).Some? then Some(VecEntry(PathArgument(seg).value)) else None
    else if seg.ident in OpaqueWrappers then
      if PathArgument(seg).Some? then Some(ExternEntry(Opaque(PathArgument(seg).value))) else None
    else None
  }

  /** Reference classification of one type. A path type contributes exactly
      one entry: the special one when a rule fires, else `Trivial` of the
      whole path. */
  function Found(ty: Ty): Finding
  {
    match ty
    case Reference => Nothing
    case Ptr => Nothing
    case Array => Nothing
    case BareFn => Nothing
    case Tuple(elems) => if elems == [] then Nothing else Unsupported
    case OtherTy => Unsupported
    case PathTy(qself, p) =>
      var special :=
        if !qself && !p.leadingColon && |p.segments| == 1 then SpecialSegment(p.segments[0], true)
        else if !qself && !p.leadingColon && |p.segments| == 2 && p.segments[0].ident == "cxx" then
          SpecialSegment(p.segments[1], false)
        else None;
      special.GetOr(ExternEntry(Trivial(p)))
  }

  function BoxOf(f: Finding): seq<Path> { if f.BoxEntry? then [f.boxed] else [] }
  function VecOf(f: Finding): seq<Path> { if f.VecEntry? then [f.element] else [] }
  function ExternOf(f: Finding): seq<ExternType> { if f.ExternEntry? then [f.extern] else [] }
  function ErrorOf(f: Finding): seq<SynError> { if f.Unsupported? then [Single(UnsupportedType)] else [] }

  /** The `box_types`, `vec_types` and `extern_types` accumulators. */
  class Collected {
    var boxTypes: seq<Path>
    var vecTypes: seq<Path>
    var externTypes: seq<ExternType>

    constructor()
      ensures boxTypes == [] && vecTypes == [] && externTypes == []
    {
      boxTypes, vecTypes, externTypes := [], [], [];
    }

    function Count(): nat
      reads this
    {
      |externTypes| + |boxTypes| + |vecTypes|
    }
  }

  /** `find_types(ty, box_types, vec_types, extern_types, cx)`. A path type
      is recorded as trivial when the total length of the three lists did
      not change while its special rules ran. */
  method FindTypes(ty: Ty, acc: Collected, cx: Errors)
    modifies acc, cx
    ensures acc.boxTypes == old(acc.boxTypes) + BoxOf(Found(ty))
    ensures acc.vecTypes == old(acc.vecTypes) + VecOf(Found(ty))
    ensures acc.externTypes == old(acc.externTypes) + ExternOf(Found(ty))
    ensures cx.errors == old(cx.errors) + ErrorOf(Found(ty))
  {
    match ty {
      case Reference =>
      case Ptr =>
      case Array =>
      case BareFn =>
      case Tuple(elems) =>
        if elems != [] {
          cx.Push(Single(UnsupportedType));
        }
      case OtherTy =>
        cx.Push(Single(UnsupportedType));
      case PathTy(qself, path) =>
        var count := acc.Count();
        if !qself && !path.leadingColon && |path.segments| == 1 {
          var segment := path.segments[0];
          if segment.arguments.AngleBracketed? {
            var args := segment.arguments.args;
            if segment.ident == "Box" && |args| == 1 {
              if args[0].TypeArg? && args[0].ty.PathTy? {
                acc.boxTypes := acc.boxTypes + [args[0].ty.path];
              }
            } else if segment.ident == "Vec" && |args| == 1 {
              if args[0].TypeArg? && args[0].ty.PathTy? {
                acc.vecTypes := acc.vecTypes + [args[0].ty.path];
              }
            } else if segment.ident in OpaqueWrappers && |args| == 1 {
              if args[0].TypeArg? && args[0].ty.PathTy? {
                acc.externTypes := acc.externTypes + [Opaque(args[0].ty.path)];
              }
            }
          }
        } else if !qself && !path.leadingColon && |path.segments| == 2 && path.segments[0].ident == "cxx" {
          var segment := path.segments[1];
          if segment.arguments.AngleBracketed? {
            var args := segment.arguments.args;
            if segment.ident in OpaqueWrappers && |args| == 1 {
              if args[0].TypeArg? && args[0].ty.PathTy? {
                acc.externTypes := acc.externTypes + [Opaque(args[0].ty.path)];
              }
            }
          }
        }
        if acc.Count() == count {
          acc.externTypes := acc.externTypes + [Trivial(path)];
        }
    }
  }

  /** Summed over a list of types, in order. */
  function Boxes(tys: seq<Ty>): seq<Path>
  {
    if tys == [] then [] else Boxes(tys[..|tys| - 1]) + BoxOf(Found(tys[|tys| - 1]))
  }
  function Vecs(tys: seq<Ty>): seq<Path>
  {
    if tys == [] then [] else Vecs(tys[..|tys| - 1]) + VecOf(Found(tys[|tys| - 1]))
  }
  function Externs(tys: seq<Ty>): seq<ExternType>
  {
    if tys == [] then [] else Externs(tys[..|tys| - 1]) + ExternOf(Found(tys[|tys| - 1]))
  }
  function Errs(tys: seq<Ty>): seq<SynError>
  {
    if tys == [] then [] else Errs(tys[..|tys| - 1]) + ErrorOf(Found(tys[|tys| - 1]))
  }

  /** Reference, pointer, array, function-pointer and unit types record
      nothing and raise nothing; every other non-path type raises exactly
      "unsupported type"; a path type never raises. */
  lemma NonPathTypes(ty: Ty)
    ensures ty.Reference? || ty.Ptr? || ty.Array? || ty.BareFn? || ty == Tuple([]) ==> Found(ty) == Nothing
    ensures (ty.Tuple? && ty.elems != []) || ty.OtherTy? ==> ErrorOf(Found(ty)) == [Single(UnsupportedType)]
    ensures ty.PathTy? ==> ErrorOf(Found(ty)) == []
  {
  }

  /** Every path-typed field adds exactly one entry across the three lists,
      and `Trivial` carries the whole path whenever no special rule applies. */
  lemma OneEntryPerPath(ty: Ty)
    ensures ty.PathTy? <==> |BoxOf(Found(ty))| + |VecOf(Found(ty))| + |ExternOf(Found(ty))| == 1
    ensures ty.PathTy? && !Found(ty).BoxEntry? && !Found(ty).VecEntry? && !Found(ty).extern.Opaque? ==>
              Found(ty) == ExternEntry(Trivial(ty.path))
  {
  }

  /** The wrappers yield their argument: `Box<P>` and `Vec<P>` only as bare
      single segments, the opaque wrappers bare or under `cxx::`. */
  lemma WrapperRules(w: string, p: Path, q: Path)
    ensures Found(PathTy(false, Path(false, [Segment("Box", AngleBracketed([TypeArg(PathTy(false, p))]))])))
            == BoxEntry(p)
    ensures Found(PathTy(false, Path(false, [Segment("Vec", AngleBracketed([TypeArg(PathTy(false, p))]))])))
            == VecEntry(p)
    ensures w in OpaqueWrappers ==>
              Found(PathTy(false, Path(false, [Segment(w, AngleBracketed([TypeArg(PathTy(false, p))]))])))
              == ExternEntry(Opaque(p)) &&
              Found(PathTy(false, Path(false, [Segment("cxx", NoArguments), Segment(w, AngleBracketed([TypeArg(PathTy(false, p))]))])))
              == ExternEntry(Opaque(p))
    ensures q == Path(false, [Segment("cxx", NoArguments), Segment("Box", AngleBracketed([TypeArg(PathTy(false, p))]))]) ==>
              Found(PathTy(false, q)) == ExternEntry(Trivial(q))
  {
  }
}
