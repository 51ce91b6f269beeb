/** The part of `syn`'s syntax tree that the `extern_type` attribute macro
    inspects: types, paths with their generic arguments, attributes and
    the two kinds of item it accepts. Spans are not modelled. */
module Syntax {
  /** `syn::Type`, with the variants the macro tells apart. `OtherTy` is every
      remaining kind (slices, trait objects, `impl Trait`, `!`, `_`, macros,
      parenthesised and grouped types). */
  datatype Ty =
    | Reference
    | Ptr
    | Array
    | BareFn
    | Tuple(elems: seq<Ty>)
    | PathTy(qself: bool, path: Path)
    | OtherTy

  /** `syn::Path`: an optional leading `::` and the segments. */
  datatype Path = Path(leadingColon: bool, segments: seq<Segment>)

  datatype Segment = Segment(ident: string, arguments: PathArguments)

  /** `syn::PathArguments`: none, `(A, B) -> C`, or `<...>`. */
  datatype PathArguments = NoArguments | Parenthesized | AngleBracketed(args: seq<GenericArgument>)

  /** `syn::GenericArgument`: a type, or one of the other kinds (lifetime,
      const, binding, constraint). */
  datatype GenericArgument = TypeArg(ty: Ty) | OtherArg

  /** `syn::GenericParam`. */
  datatype GenericParam = LifetimeParam | TypeParam | ConstParam

  /** An outer attribute `#[path ...]`; only its path is inspected. */
  datatype Attribute = Attribute(path: Path, tokens: seq<string>)

  /** `syn::Fields` of an enum variant. */
  datatype Fields = Named(namedTys: seq<Ty>) | Unnamed(unnamedTys: seq<Ty>) | Unit

  datatype Variant = Variant(attrs: seq<Attribute>, ident: string, fields: Fields)

  datatype ItemEnum = ItemEnum(attrs: seq<Attribute>, ident: string, generics: seq<GenericParam>, variants: seq<Variant>)

  datatype ItemType = ItemType(attrs: seq<Attribute>, ident: string, generics: seq<GenericParam>, ty: Ty)

  /** `syn::Item`, cut down to the two kinds the macro accepts. */
  datatype RustItem = TypeItem(alias: ItemType) | EnumItem(enm: ItemEnum) | OtherItem

  /** `Path::is_ident(name)`: no leading `::`, one segment without
      arguments, spelled `name`. */
  predicate PathIsIdent(p: Path, name: string)
  {
    !p.leadingColon && |p.segments| == 1 &&
    p.segments[0].arguments == NoArguments && p.segments[0].ident == name
  }

  /** The field types of a variant, in declaration order. */
  function FieldTypes(f: Fields): seq<Ty>
  {
    match f
    case Named(tys) => tys
    case Unnamed(tys) => tys
    case Unit => []
  }
}
