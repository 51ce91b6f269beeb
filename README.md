# cxx-enumext, modelled in Dafny

cxx-enumext lets Rust enums, `Option` and `Result` cross a cxx bridge. On the
C++ side `rust::enm::variant<Ts...>` is a tagged union laid out like a
`#[repr(C)]` Rust enum: an `int` discriminant followed by a byte buffer as large
as the largest alternative. It can never be valueless, so every operation that
replaces the held object keeps the strong exception guarantee.
`rust::enm::optional<T>` is `variant<monostate, T>`, and
`rust::enm::expected<T, E>` is `variant<T, E>`. On the Rust side, the
`#[extern_type]` attribute macro reads an enum or a type alias, collects the
field types it must check against cxx, and emits compile-time assertions
about them.

The model has these modules:

- `TypeList` is the compile-time index resolver (`variant_alternative`,
  `exactly_once`, `index_from_booleans`, `index_from_type`). It is written as
  functions over the list of alternative types.
- `Alternatives` is what the model knows of one alternative: its name, its
  `sizeof`, and the type traits the variant consults.
- `Capabilities` gives the rules for when a variant is constructible or
  assignable. It proves them in general and proves every `static_assert` of
  `src/cxx_enumext.cpp` over that file's four fixture types.
- `Dispatch` covers `visitor_type::visit`, `get`, `get_if` and
  `holds_alternative`, by index and by type, as functions of the raw state
  (the discriminant and the buffer bytes).
- `VariantBase` is a class holding the discriminant and the buffer as an
  `array<bv8>`:
  - Methods: the constructors, `destroy`, the three `emplace` strategies, the
    converting, copy and `std::variant` assignments, and `swap`.
  - Running a constructor is an input, `Construction`: it either builds an
    object's bytes or throws after writing some bytes.
  - A ghost log `dtors` records every destructor that runs: its alternative
    and its bytes. This lets the contracts say which object was destroyed,
    and how often.
- `Optional` and `Expected` are the accessors and monadic helpers as
  functions of the raw state; `optional()` and `reset()` act on a
  `VariantBase.Variant`. `Optional` also holds the comparisons with `nullopt`,
  with a value, and between optionals.
- `MacroErrors` is the `Errors` accumulator and its `propagate`.
- `Syntax` is the part of the `syn` tree the macro inspects.
- `ExternTypes` is `find_types`.
- `BridgeParams` covers `parse_bridge_params` and the qualified C++ name
  built in `expand`.
- `Parse` covers `parse_enum`, `parse_type_decl` and `from_token_streams`.
  - Each is a method proved equal to a reference function (`EnumResult`,
    `TypeDeclResult`).
  - Lemmas about those functions state when a declaration is accepted and
    what is collected.
  - The loops of the two parsers are helper methods: `RetainAttrs`,
    `CollectFields`, `CollectVariants`, `CheckGenerics`, `ParseSegment`,
    `ParseOptionalArgs`, `ParseExpectedArgs` and `FinishTypeDecl`.
- `Asserts` is the de-duplication in `expand_asserts`, with the `seen_*` sets.

Object values are byte sequences. The alternatives are relocatable, as every
binding declares with `IsRelocatable`. That is what the third `emplace`
strategy relies on when it moves objects with `memcpy`/`swap_ranges`. The
model states this as an assumption, not as something proved.

## Model

| member | source | states |
|---|---|---|
| TypeList.Alternative | include/rust/cxx_enumext.h:55-70 | an alternative exists exactly for indices below the list length, and it is the type at that position |
| TypeList.IndexFromBooleans | include/rust/cxx_enumext.h:84-94 | defined exactly when some flag is set; then it is the start offset plus the position of the first set flag, and every earlier flag is clear |
| TypeList.CountMatches | include/rust/cxx_enumext.h:72-82 | the count of the `is_same` flag pack is the multiplicity of the type in the list |
| TypeList.IndexFromType | include/rust/cxx_enumext.h:96-101 | defined exactly when the type occurs once; then it is a position holding the type, and no other position holds it |
| TypeList.IndexThenAlternative | include/rust/cxx_enumext.h:96-101 | looking the resolved index up gives the type back |
| TypeList.AlternativeThenIndex | include/rust/cxx_enumext.h:96-101 | a type that occurs once resolves to its own position |
| TypeList.DuplicateNotResolved | include/rust/cxx_enumext.h:99-100 | a type listed twice has no index by type, though both of its positions are valid indices |
| Alternatives.MaxSize | include/rust/cxx_enumext.h:441 | the buffer size is at least every alternative's size and, for a non-empty list, equal to one of them |
| Alternatives.AllCopyConstructibleMeansEach | include/rust/cxx_enumext.h:141-142 | the copy-constructible conjunction holds iff every alternative is copy-constructible |
| Alternatives.AllMoveConstructibleMeansEach | include/rust/cxx_enumext.h:229-230 | the move-constructible conjunction holds iff every alternative is move-constructible |
| Capabilities.NeverDefaultNorMove | src/cxx_enumext.cpp:101-105 | for any alternatives, a variant is neither default-constructible, nor move-constructible, nor move-assignable |
| Capabilities.CopyIffEveryAlternativeCopies | include/rust/cxx_enumext.h:606-624 | copy construction and copy assignment are admitted iff every alternative is copy-constructible |
| Capabilities.ConvertingRule | include/rust/cxx_enumext.h:176-182 | converting construction is admitted iff the type occurs exactly once and is move-constructible (rvalue) or copy-constructible (lvalue, const lvalue) |
| Capabilities.InPlaceDefaultAccepted | include/rust/cxx_enumext.h:187-209 | in-place construction of a default-constructible alternative is admitted by index and, when the type is unique, by type |
| Capabilities.DuplicateRejectedByType | src/cxx_enumext.cpp:208-220 | with a repeated type, conversion, `in_place_type` and converting assignment are refused; `in_place_index` depends only on the alternative |
| Capabilities.FixturesResolve | src/cxx_enumext.cpp:96-98 | each fixture type resolves to its position in `all_variant`, and `int` resolves to none |
| Capabilities.FixtureConjunctions | src/cxx_enumext.cpp:44-94 | which fixture lists are all copyable or all movable |
| Capabilities.AllVariantWholeRules | src/cxx_enumext.cpp:100-166 | the copy, move, default and `std::variant` assertions for `all_variant` |
| Capabilities.AllVariantMoveAndCopyTypeRules | src/cxx_enumext.cpp:111-131 | the converting and in-place assertions for MoveType and CopyType |
| Capabilities.AllVariantOtherTypeRules | src/cxx_enumext.cpp:133-155 | the assertions for CopyAndMoveType and NoCopyAndNoMoveType, and the refusal of `in_place_index<4>` and `in_place_type<int>` |
| Capabilities.MoveVariantRules | src/cxx_enumext.cpp:168-186 | the assertions for `move_variant`: no copies, but construction and assignment from an rvalue `std::variant` |
| Capabilities.CopyVariantRules | src/cxx_enumext.cpp:188-206 | the assertions for `copy_variant`: copies, and `std::variant` in both categories |
| Capabilities.DuplicateVariantRules | src/cxx_enumext.cpp:208-220 | for `variant<int, int>`: conversion from `int` and `in_place_type<int>` are refused; `in_place_index<0>` and `<1>` are accepted and `<2>` refused |
| Dispatch.ToSizeT | include/rust/cxx_enumext.h:464-468 | a non-negative discriminant keeps its value as `std::size_t`; a negative one becomes an index past every `int` |
| Dispatch.Visit | include/rust/cxx_enumext.h:473-484 | an index below the count runs exactly that handler on that alternative's bytes; any other index throws `out_of_range` |
| Dispatch.VisitVariant | include/rust/cxx_enumext.h:501-515 | visiting a variant runs the handler of the live alternative on its object; a discriminant outside [0, N), including a negative one, throws |
| Dispatch.Get | include/rust/cxx_enumext.h:517-528 | `get<I>` succeeds iff the discriminant is I, with the object of alternative I, else throws `bad_rust_variant_access` carrying the discriminant converted to `std::size_t` |
| Dispatch.GetIf | include/rust/cxx_enumext.h:546-561 | `get_if<I>` is null exactly where `get<I>` throws, and otherwise points at the same object |
| Dispatch.GetByType | include/rust/cxx_enumext.h:530-544 | `get<T>` succeeds iff the live alternative is T, with the live object, and otherwise throws `bad_rust_variant_access` carrying the discriminant converted to `std::size_t` |
| Dispatch.GetIfByType | include/rust/cxx_enumext.h:563-578 | `get_if<T>` is null exactly where `get<T>` throws, and otherwise points at the same object |
| Dispatch.AccessorsAgree | include/rust/cxx_enumext.h:580-583 | `get<I>` succeeds iff `holds_alternative<I>` iff `get_if<I>` is non-null; then visit hands handler I the object `get<I>` returns |
| Dispatch.HoldsAlternative | include/rust/cxx_enumext.h:580-583 | `holds_alternative<I>` iff `get<I>` succeeds; an index past the end is never held |
| Dispatch.HoldsAlternativeByType | include/rust/cxx_enumext.h:585-590 | `holds_alternative<T>` iff the live alternative is T |
| VariantBase.CopyBytes | include/rust/cxx_enumext.h:374-389 | the `memcpy` of the buffer leaves the destination equal to the source |
| VariantBase.SwapRanges | include/rust/cxx_enumext.h:386 | `swap_ranges` exchanges the two buffers' contents |
| VariantBase.Variant.Place | include/rust/cxx_enumext.h:364 | placement new overwrites the front of the buffer with the object and leaves the rest |
| VariantBase.Variant.InPlaceIndex | include/rust/cxx_enumext.h:202-209 | `in_place_index<I>` construction holds alternative I with exactly the built object, and nothing has been destroyed |
| VariantBase.Variant.InPlaceType | include/rust/cxx_enumext.h:187-194 | `in_place_type<T>` construction holds T with exactly the built object |
| VariantBase.Variant.Converting | include/rust/cxx_enumext.h:176-182 | converting construction holds the argument's type with exactly its value |
| VariantBase.Variant.Copy | include/rust/cxx_enumext.h:147-159 | the copy holds the same alternative and the same object as the original |
| VariantBase.Variant.FromStdVariant | include/rust/cxx_enumext.h:215-244 | construction from `std::variant` takes over its index and its object |
| VariantBase.Variant.Destroy | include/rust/cxx_enumext.h:424-431 | `destroy()` runs the destructor of exactly the live object and leaves the discriminant alone |
| VariantBase.Variant.EmplaceIndex | include/rust/cxx_enumext.h:359-394 | strong guarantee: a throwing construction changes neither the discriminant, nor any buffer byte, nor the destructor log. Success holds I with the new object and destroys the old object exactly once with its old index and bytes; the second strategy also destroys its temporary |
| VariantBase.Variant.EmplaceFromConstTemporary | include/rust/cxx_enumext.h:365-371 | the second strategy as written: when the copy out of the const temporary throws, the old object is already destroyed but the discriminant still names it, and unwinding destroys the temporary |
| VariantBase.ConstTemporaryDestroysTwice | include/rust/cxx_enumext.h:365-371 | on `variant<int, std::string>`, a throwing copy followed by the destructor destroys the int, then the temporary string, then the same int again |
| VariantBase.Variant.EmplaceType | include/rust/cxx_enumext.h:317-323 | `emplace<T>` is `emplace` at the resolved index, with the same guarantee |
| VariantBase.Variant.ConvertAssign | include/rust/cxx_enumext.h:264-279 | when T is held and nothrow-assignable, the value is assigned in place and no destructor runs; otherwise it emplaces, failing exactly when the construction throws and then leaving the state untouched |
| VariantBase.AssignFalseToNum | tests/suite/tests.cpp:123-131 | assigning `false` to an enum holding `Num(1502)` leaves it holding `Bool(false)` and destroys the int64 once |
| VariantBase.Variant.CopyAssign | include/rust/cxx_enumext.h:248-258 | copy assignment always emplaces a copy of the other variant's object; on failure nothing changes |
| VariantBase.Variant.AssignFromStd | include/rust/cxx_enumext.h:281-311 | assignment from `std::variant` emplaces its object by type; on failure nothing changes |
| VariantBase.Variant.Swap | include/rust/cxx_enumext.h:397-404 | the buffers and discriminants are exchanged, no destructor runs, and swapping with itself changes nothing |
| Optional.Value | include/rust/cxx_enumext.h:680-704 | `value()` succeeds iff `has_value()`, with the object `get_if<1>` finds, and otherwise throws `bad_rust_optional_access` |
| Optional.ValueOr | include/rust/cxx_enumext.h:725-729 | `value_or(d)` is the payload when engaged, else d |
| Optional.AndThen | include/rust/cxx_enumext.h:731-745 | `and_then(f)` is f of the payload, or empty when disengaged |
| Optional.Transform | include/rust/cxx_enumext.h:747-759 | `transform(f)` is engaged iff the optional is, holding f of the payload |
| Optional.ValueIsGetOfSome | include/rust/cxx_enumext.h:675-678 | exactly one of `is_none()` and `has_value()` holds, and `value()` agrees with `get<1>` |
| Optional.TransformIsAndThen | include/rust/cxx_enumext.h:731-759 | `transform(f)` is `and_then` of f wrapped as engaged; transforming by the identity gives the optional back |
| Optional.Nullopt | include/rust/cxx_enumext.h:664-665 | `optional()` and `optional(nullopt)` are disengaged, at index 0 |
| Optional.Reset | include/rust/cxx_enumext.h:709-714 | `reset()` as written: it leaves the optional empty, but an engaged payload is destroyed twice |
| Optional.ResetOnce | include/rust/cxx_enumext.h:706-708 | `reset()` as documented: it leaves the optional empty and destroys an engaged payload once |
| Optional.CompareWithNulloptRight | include/rust/cxx_enumext.h:804-860 | each `optional @ nullopt` operator agrees with the reference ordering where empty is least |
| Optional.CompareWithNulloptLeft | include/rust/cxx_enumext.h:806-859 | each `nullopt @ optional` operator agrees with the reference ordering |
| Optional.CompareWithValueRight | include/rust/cxx_enumext.h:862-910 | each `optional @ value` operator agrees with the reference ordering |
| Optional.CompareWithValueLeft | include/rust/cxx_enumext.h:864-909 | each `value @ optional` operator agrees with the reference ordering |
| Optional.MirroredComparisons | include/rust/cxx_enumext.h:805-910 | swapping the operands of a comparison with nullopt or with a value yields the mirrored operator |
| Optional.CompareOptionals | include/rust/cxx_enumext.h:783-792 | optional-vs-optional `<` and `>`, plus the corrected `<=` and `>=`, agree with the reference ordering |
| Optional.CompareOptionalsAsWritten | include/rust/cxx_enumext.h:793-802 | `<=` and `>=` as written are true for any two engaged optionals, and read an empty payload in the one remaining case |
| Optional.AsWrittenOrderingDisagrees | include/rust/cxx_enumext.h:794-797 | as written, an engaged 2 is `<=` an engaged 1 and an engaged 1 is `>=` an engaged 2; the reference ordering says neither |
| Expected.Value | include/rust/cxx_enumext.h:961-981 | `value()` succeeds iff `has_value()`; otherwise it throws `bad_rust_expected_access` holding the unexpected object |
| Expected.Error | include/rust/cxx_enumext.h:983-993 | `error()` on an unexpected state is its unexpected object |
| Expected.ValueOr | include/rust/cxx_enumext.h:1004-1010 | `value_or(d)` is the expected value, else d |
| Expected.ErrorOr | include/rust/cxx_enumext.h:1012-1016 | `error_or(d)` is d on success and the error otherwise |
| Expected.AndThen | include/rust/cxx_enumext.h:1018-1032 | `and_then(f)` is f of the value, or passes the error through unchanged |
| Expected.Transform | include/rust/cxx_enumext.h:1034-1045 | `transform(f)` succeeds iff the expected does, holding f of the value, or else the unchanged error |
| Expected.ValueAndErrorPartition | include/rust/cxx_enumext.h:958-981 | `value()` throws exactly where `get<0>` does, carrying what `get_if<1>` finds; `value_or` and `error_or` split the states between them |
| Expected.TransformIsAndThen | include/rust/cxx_enumext.h:1018-1045 | `transform(f)` is `and_then` of f wrapped as success; transforming by the identity gives the expected back |
| MacroErrors.FlattenAppend | macro/src/lib.rs:42-44 | combining errors keeps every message in order across concatenation |
| MacroErrors.Errors.constructor | macro/src/lib.rs:24-26 | a new accumulator is empty |
| MacroErrors.Errors.Push | macro/src/lib.rs:33-35 | `push` appends the error |
| MacroErrors.Errors.Propagate | macro/src/lib.rs:37-46 | `propagate` is Ok iff nothing was pushed, else one error with every message in order; the list is drained either way |
| ExternTypes.Collected.constructor | macro/src/lib.rs:473-475 | the three accumulators start empty |
| ExternTypes.FindTypes | macro/src/lib.rs:735-814 | each accumulator grows by exactly what the reference classification `Found` gives for the type |
| ExternTypes.NonPathTypes | macro/src/lib.rs:742-747 | reference, pointer, array, fn-pointer and unit types record nothing; other non-path types raise "unsupported type"; path types raise nothing |
| ExternTypes.OneEntryPerPath | macro/src/lib.rs:751-808 | a type adds exactly one entry across the three lists iff it is a path, and it is `Trivial(whole path)` when no special rule fired |
| ExternTypes.WrapperRules | macro/src/lib.rs:759-803 | `Box<P>` and `Vec<P>` record P only bare; the four opaque wrappers record `Opaque(P)` bare or under `cxx::`; `cxx::Box<P>` is a trivial path |
| BridgeParams.Entry | macro/src/lib.rs:423-440 | one accepted entry never moves backwards and stays within the tokens |
| BridgeParams.ParseBridgeParams | macro/src/lib.rs:416-448 | the parse loop computes the reference parse `ParseParams` |
| BridgeParams.EntryKeywords | macro/src/lib.rs:423-440 | an entry consumes its own keyword and no other, and never changes an argument it did not parse |
| BridgeParams.AcceptedKeywordsOnce | macro/src/lib.rs:422-445 | an accepted list holds each keyword at most once |
| BridgeParams.DuplicateParamRejected | macro/src/lib.rs:423-434 | a second `namespace` or a second `cxx_name` always rejects the arguments |
| BridgeParams.RenderRoundTrip | macro/src/lib.rs:416-448 | every parameter set with a valid name is read back from its spelling, in either order and with a trailing comma |
| BridgeParams.AcceptedNameIsIdent | macro/src/lib.rs:389-399 | an accepted `cxx_name` is an identifier |
| BridgeParams.PrefixCons | macro/src/lib.rs:69-76 | read from the front, the fold writes the first segment first, followed by `::` and the prefix of the other segments |
| BridgeParams.QualifiedName | macro/src/lib.rs:67-84 | each namespace segment followed by `::`, then the `cxx_name` or the Rust identifier: the name ends the qualified name, and without a namespace it is the name alone |
| BridgeParams.QualifiedNameRoundTrip | macro/src/lib.rs:67-84 | the fold's `seg::` prefix plus the name splits back into the segments and the name when none of them contains `:` |
| BridgeParams.AcceptedQualifiedNameRoundTrip | macro/src/lib.rs:67-84 | for accepted parameters the qualified C++ name determines the namespace and the C++ name, the Rust identifier standing in for a missing `cxx_name` |
| Parse.LastCfg | macro/src/lib.rs:479-484 | the extracted `#[cfg]` is the last `#[cfg]` of the list (no later attribute is a `#[cfg]`), and none is extracted exactly when there is no `#[cfg]` |
| Parse.RetainAttrs | macro/src/lib.rs:477-489 | `retain_mut` keeps the non-cfg attributes, remembers the last cfg, and pushes one error per `#[repr]` |
| Parse.AttributeRules | macro/src/lib.rs:479-489 | there are no repr errors iff there is no `#[repr]`; the kept attributes are exactly the non-cfg ones |
| Parse.CollectFields | macro/src/lib.rs:493-515 | `find_types` over a variant's fields appends the reference lists of those types |
| Parse.CheckGenerics | macro/src/lib.rs:518-525 | one error per non-lifetime generic parameter, in order |
| Parse.CollectVariants | macro/src/lib.rs:491-517 | the variant loop builds the reference lists of all field types, variant by variant |
| Parse.ParseEnum | macro/src/lib.rs:466-542 | `parse_enum` computes the reference result `EnumResult` |
| Parse.ErrsEmpty | macro/src/lib.rs:810-812 | the field types raise no error iff none is unsupported |
| Parse.GenericErrorsEmpty | macro/src/lib.rs:518-525 | no generic error iff every generic is a lifetime |
| Parse.VariantErrsEmpty | macro/src/lib.rs:491-517 | the variants raise no error iff every field of every variant is supported |
| Parse.EnumAccepted | macro/src/lib.rs:466-542 | an enum is accepted iff it has no `#[repr]`, no unsupported field type and only lifetime generics; the accepted pieces hold no `#[cfg]` and keep the last one apart |
| Parse.Shape | macro/src/lib.rs:576-731 | an accepted alias shape is always `Optional` or `Expected` |
| Parse.ParseOptionalArgs | macro/src/lib.rs:604-641 | the `Optional` arm gives the reference shape and collects its payload type |
| Parse.ParseExpectedArgs | macro/src/lib.rs:659-709 | the `Expected` arm gives the reference shape and collects both payload types |
| Parse.ParseSegment | macro/src/lib.rs:592-603 | the container identifier selects the arm or the error message |
| Parse.ParseTypeDecl | macro/src/lib.rs:544-733 | `parse_type_decl` computes the reference result `TypeDeclResult` |
| Parse.FinishTypeDecl | macro/src/lib.rs:642-657 | an accepted shape ends in `propagate` of everything collected, then the pieces |
| Parse.ShapeRules | macro/src/lib.rs:576-731 | `Option` and `Result` get their suggestions; `Optional<T>`, `cxx_enumext::Optional<T>` and `Expected<T, E>` are accepted; wrong argument counts, missing arguments, a qualified self type and other prefixes are refused with their messages |
| Parse.TypeDeclOutcome | macro/src/lib.rs:549-733 | a shape error is reported alone; otherwise the alias is accepted iff it has no generics, no `#[repr]` and supported payload types, and at most one entry is recorded per payload type |
| Parse.CountBound | macro/src/lib.rs:752-808 | `find_types` records at most one entry per type |
| Parse.FromTokenStreams | macro/src/lib.rs:452-463 | bad attribute arguments are reported first; then type aliases and enums go to their parsers, and any other item is refused |
| Asserts.AssertExterns | macro/src/lib.rs:239-287 | the extern loop with its `seen_*` sets produces the reference assertions `ExternAsserts` |
| Asserts.AssertBoxes | macro/src/lib.rs:289-301 | the box loop produces one `ImplBox` check per first occurrence |
| Asserts.AssertVecs | macro/src/lib.rs:303-313 | the vec loop appends one `ImplVec` check per first occurrence |
| Asserts.ExpandAsserts | macro/src/lib.rs:230-313 | the two streams `expand_asserts` builds are the reference assertion lists |
| Asserts.ExternAssertsExact | macro/src/lib.rs:239-287 | the extern stream holds an extern check for exactly the collected paths and a kind check for exactly the paths of that kind, each once |
| Asserts.BoxAssertsExact | macro/src/lib.rs:291-301 | the box checks cover exactly the boxed paths, each once |
| Asserts.VecAssertsExact | macro/src/lib.rs:303-313 | the vec checks cover exactly the vec element paths, each once |
| Asserts.BlockNoDuplicates | macro/src/lib.rs:315-331 | the block with each stream spliced once holds no assertion twice |
| Asserts.BlockCovers | macro/src/lib.rs:230-313 | the block checks exactly the collected paths, for exactly the properties each needs |
| Asserts.AsWrittenDoublesExternChecks | macro/src/lib.rs:327-329 | as written, every extern and kind check appears twice as often as in the corrected block |
| Asserts.AsWrittenRepeats | macro/src/lib.rs:317-331 | as written, the block repeats an assertion whenever there is any extern type |

## Left out

- `include/rust/cxx_enumext_macros.h` is not part of this model (preprocessor token pasting only), and neither are the `build.rs` files, the test-suite FFI fixtures, nor printing.
- The code the macro generates with `quote!` (`expand_enum`, `expand_optional`, `expand_expected`, the text and spans of the emitted assertions) is left out. Only which assertions are emitted is modelled. `syn` parsing itself is also left out: the syntax tree is a datatype, and the macro's argument tokens arrive grouped (a whole path is one token).
- Alignment, `reinterpret_cast` and platform sizes are left out. Sizes are per-alternative numbers, and objects are their bytes.
- Optional-vs-optional `==` and `!=` (include/rust/cxx_enumext.h:773-782) are not modelled: they compare `lhs.has_value` without the call and do not compile.
- `operator->` and `operator*` of `optional` and `expected` (include/rust/cxx_enumext.h:716-723, 995-1002) are left out: they have no `return`.
- `or_else` (include/rust/cxx_enumext.h:761-767, 1047-1053) is left out: it returns `*this` as `T&`.
- `transform_error` (include/rust/cxx_enumext.h:1055-1066) is left out: its result type is built from the wrong type.
- `make_optional` (include/rust/cxx_enumext.h:912-915) is left out; it is the converting constructor.
- `Errors::error` (macro/src/lib.rs:28-31) is dead code and is not modelled.
- Visibility (`vis`) is not carried in `Parse.AstPieces`.
- Spans are not modelled, so neither is the `Expected` arm spanning its second "must be a type argument" error at the first argument (macro/src/lib.rs:680-684).
- `Parse.FromTokenStreams`: the messages of `syn`'s own parse errors (`ParamMessage`) are approximations of syn's wording.
- `BridgeParams.ParseBridgeParams`: `Ident::parse_any` is modelled as ASCII identifiers; Unicode identifiers and raw identifiers are not. The `cxx_name` text must be the bare identifier: `parse_str` tokenizes the text first, so the source also accepts and strips whitespace and comments around it (`" Foo "` gives `Foo`), which the model rejects as `InvalidName`.
- The `HashSet`s of `expand_asserts` are Dafny sets of paths compared structurally.
- `VariantBase.Variant.InPlaceIndex`: only constructions that return are modelled, on all five constructors. A constructor that throws leaves no variant behind to reason about.
- `VariantBase.Variant.EmplaceIndex`: the second strategy is modelled as the code evidently intends. The new object is moved out of the temporary, and that move is assumed not to throw. The code as written is `VariantBase.Variant.EmplaceFromConstTemporary` (see Findings).
- `VariantBase.Variant.CopyAssign`: self-assignment (`v = v`) is excluded by the precondition `other.buf != buf`.
- `VariantBase.Variant.CopyAssign`: a held type that occurs twice among the alternatives is excluded by a precondition. The converting assignment it goes through only takes part in overload resolution for a unique type.
- `VariantBase.Variant.AssignFromStd`: a `std::variant` holding a type that occurs twice is excluded by a precondition, since `emplace<T>` does not compile for it (the TODO at include/rust/cxx_enumext.h:285-286). A valueless `std::variant` is not modelled either.
- `VariantBase.Variant.Swap`: the precondition asks that two variants share a buffer exactly when they are the same variant. Distinct objects never share storage in C++.
- `VariantBase.Variant.FromStdVariant`: a valueless `std::variant` is not modelled, so `std::visit` never throws `bad_variant_access` here.
- `Optional.CompareWithValueRight`: the comparisons read the payload of an engaged optional as `*opt`. `operator*` as written has no `return` (include/rust/cxx_enumext.h:720-723), so calling it is undefined behaviour; the model assumes it yields the payload, as the operator evidently intends.
- `Optional.CompareWithValueLeft`: reads the payload through `*opt` like `CompareWithValueRight`, under the same assumption that `operator*` yields the payload.
- `Optional.CompareOptionals`: `<` and `>` (and the corrected `<=` and `>=`) read both payloads through `operator*`, under the same assumption that it yields the payload although as written it returns nothing.
- `Optional.CompareOptionals`: payloads are compared as `int`, not through an arbitrary `operator<` of T; the same holds for the other comparison functions.
- `Optional.Reset`: the moved-from `monostate` temporary is not logged as a destruction.
- `VariantBase.AssignFalseToNum` uses a two-alternative variant of `int64_t` and `bool`, not the whole `RustEnum` of the test suite.

## Findings

| source | as written | input that shows it | evidently intended | confidence | as-written member | corrected member |
|---|---|---|---|---|---|---|
| include/rust/cxx_enumext.h:709-714 | `reset()` calls `destroy()`, then `*this = monostate{}`; that assignment emplaces, and emplacing calls `destroy()` on the same payload again | any engaged optional, e.g. an `optional<int>` holding 5: its payload's destructor runs twice | the payload is destroyed once and the optional is left empty, as the doc comment says | not executed | Optional.Reset | Optional.ResetOnce |
| include/rust/cxx_enumext.h:365-371 | the nothrow-move strategy builds `const T tmp`, so `T(std::move(tmp))` picks the copy constructor, which runs after `destroy()` | `variant<int, std::string>` holding 1, `emplace<1>("x")` whose string copy throws `bad_alloc`: the int is destroyed by `emplace`, the temporary by unwinding, and the int again by `~variant_base` (`VariantBase.ConstTemporaryDestroysTwice`) | move from a non-const temporary, which cannot throw, so nothing is destroyed unless the emplace succeeds | not executed | VariantBase.Variant.EmplaceFromConstTemporary | VariantBase.Variant.EmplaceIndex |
| include/rust/cxx_enumext.h:793-802 | `<=` is `!lhs.has_value() \|\| (rhs.has_value() \|\| *lhs <= *rhs)`, and `>=` is `!rhs.has_value() \|\| (lhs.has_value() \|\| *lhs <= *rhs)`: the same connectives, and its last comparison is `<=` rather than `>=`, reached only when `lhs` is empty and its payload is read | an engaged 2 `<=` an engaged 1 is true, and an engaged 1 `>=` an engaged 2 is true | `!lhs \|\| (rhs && *lhs <= *rhs)` and `!rhs \|\| (lhs && *lhs >= *rhs)`, as for `std::optional` | not executed | Optional.AsWrittenOrderingDisagrees | Optional.CompareOptionals |
| macro/src/lib.rs:327-329 | the generated block splices `#verify_extern` twice | any enum with a path-typed field, e.g. `enum E { A(i32) }`: the check that `i32` is an extern type is emitted twice. The duplicates are identical `const _` items, so the diagnostics repeat but the result is the same | each assertion once | not executed | Asserts.AsWrittenRepeats | Asserts.BlockNoDuplicates |
