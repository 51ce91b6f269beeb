/** `expand_asserts`: the compile-time assertions the attribute macro emits
    for the paths `find_types` collected. Each path is checked at most once
    per kind: whether it is a cxx extern type at all, whether it is trivial
    or opaque as it is used, and whether cxx exposes `Box<P>` and `Vec<P>`
    for it. */
module Asserts {
  import opened Syntax
  import opened ExternTypes
  import Parse

  /** One `const _: () = assert!(...)` item, by the marker trait it checks. */
  datatype Assertion =
    | IsExtern(path: Path)
    | IsTrivial(path: Path)
    | IsOpaque(path: Path)
    | ImplBox(path: Path)
    | ImplVec(path: Path)

  predicate NoDuplicates(s: seq<Assertion>)
  {
    forall i, j :: 0 <= i < j < |s| ==> s[i] != s[j]
  }

  /** The contents of `seen_extern`, `seen_trivial` and `seen_opaque` once
      the given extern types have been examined. */
  function PathsOf(ets: seq<ExternType>): set<Path>
  {
    set e | e in ets :: e.path
  }
  function TrivialPaths(ets: seq<ExternType>): set<Path>
  {
    set e | e in ets && e.Trivial? :: e.path
  }
  function OpaquePaths(ets: seq<ExternType>): set<Path>
  {
    set e | e in ets && e.Opaque? :: e.path
  }

  /** What `assert_extern` adds for an extern type after the ones before
      it: the extern check, for a path not seen before. */
  function ExternCheck(before: seq<ExternType>, et: ExternType): seq<Assertion>
  {
    if et.path in PathsOf(before) then [] else [IsExtern(et.path)]
  }

  /** The kind check that follows it, for a path new to that kind. */
  function KindCheck(before: seq<ExternType>, et: ExternType): seq<Assertion>
  {
    match et
    case Trivial(p) => if p in TrivialPaths(before) then [] else [IsTrivial(p)]
    case Opaque(p) => if p in OpaquePaths(before) then [] else [IsOpaque(p)]
    case Unspecified(_) => []
  }

  /** `verify_extern` after the loop over `extern_types`. */
  function ExternAsserts(ets: seq<ExternType>): seq<Assertion>
  {
    if ets == [] then []
    else
      var before, et := ets[..|ets| - 1], ets[|ets| - 1];
      ExternAsserts(before) + ExternCheck(before, et) + KindCheck(before, et)
  }

  /** The `ImplBox` checks, first occurrence of each path only. */
  function BoxAsserts(ps: seq<Path>): seq<Assertion>
  {
    if ps == [] then []
    else BoxAsserts(ps[..|ps| - 1]) + (if ps[|ps| - 1] in ps[..|ps| - 1] then [] else [ImplBox(ps[|ps| - 1])])
  }

  /** The `ImplVec` checks, first occurrence of each path only. */
  function VecAsserts(ps: seq<Path>): seq<Assertion>
  {
    if ps == [] then []
    else VecAsserts(ps[..|ps| - 1]) + (if ps[|ps| - 1] in ps[..|ps| - 1] then [] else [ImplVec(ps[|ps| - 1])])
  }

  lemma PathsStep(ets: seq<ExternType>, k: nat)
    requires k < |ets|
    ensures PathsOf(ets[..k + 1]) == PathsOf(ets[..k]) + {ets[k].path}
    ensures TrivialPaths(ets[..k + 1]) == TrivialPaths(ets[..k]) + (if ets[k].Trivial? then {ets[k].path} else {})
    ensures OpaquePaths(ets[..k + 1]) == OpaquePaths(ets[..k]) + (if ets[k].Opaque? then {ets[k].path} else {})
  {
    assert ets[..k + 1] == ets[..k] + [ets[k]];
  }

  /** The loop over `extern_types` of `expand_asserts`, with the
      `assert_extern` closure and the `seen_extern`, `seen_trivial` and
      `seen_opaque` sets. */
  method AssertExterns(ets: seq<ExternType>) returns (verifyExtern: seq<Assertion>)
    ensures verifyExtern == ExternAsserts(ets)
  {
    var seenTrivial: set<Path> := {};
    var seenOpaque: set<Path> := {};
    var seenExtern: set<Path> := {};
    verifyExtern := [];
    var k := 0;
    while k < |ets|
      invariant 0 <= k <= |ets|
      invariant seenExtern == PathsOf(ets[..k])
      invariant seenTrivial == TrivialPaths(ets[..k])
      invariant seenOpaque == OpaquePaths(ets[..k])
      invariant verifyExtern == ExternAsserts(ets[..k])
    {
      var ty := ets[k];
      ghost var before := ets[..k];
      assert ets[..k + 1][..k] == before;
      assert ExternAsserts(ets[..k + 1]) == ExternAsserts(before) + ExternCheck(before, ty) + KindCheck(before, ty);
      PathsStep(ets, k);
      if ty.path !in seenExtern {
        seenExtern := seenExtern + {ty.path};
        verifyExtern := verifyExtern + [IsExtern(ty.path)];
      }
      assert verifyExtern == ExternAsserts(before) + ExternCheck(before, ty);
      match ty {
        case Trivial(path) =>
          if path !in seenTrivial {
            seenTrivial := seenTrivial + {path};
            verifyExtern := verifyExtern + [IsTrivial(path)];
          }
        case Opaque(path) =>
          if path !in seenOpaque {
            seenOpaque := seenOpaque + {path};
            verifyExtern := verifyExtern + [IsOpaque(path)];
          }
        case Unspecified(_) =>
      }
      k := k + 1;
    }
    assert ets[..k] == ets;
  }

  /** The loop over `box_types`, with `seen_box`. */
  method AssertBoxes(bs: seq<Path>) returns (verifyBox: seq<Assertion>)
    ensures verifyBox == BoxAsserts(bs)
  {
    var seenBox: set<Path> := {};
    verifyBox := [];
    var k := 0;
    while k < |bs|
      invariant 0 <= k <= |bs|
      invariant seenBox == set p | p in bs[..k]
      invariant verifyBox == BoxAsserts(bs[..k])
    {
      assert bs[..k + 1] == bs[..k] + [bs[k]];
      assert bs[..k + 1][..k] == bs[..k];
      if bs[k] !in seenBox {
        seenBox := seenBox + {bs[k]};
        verifyBox := verifyBox + [ImplBox(bs[k])];
      }
      k := k + 1;
    }
    assert bs[..k] == bs;
  }

  /** The loop over `vec_types`, with `seen_vec`, appending to the
      `verify_box` stream the box loop started. */
  method AssertVecs(boxes: seq<Assertion>, vs: seq<Path>) returns (verifyBox: seq<Assertion>)
    ensures verifyBox == boxes + VecAsserts(vs)
  {
    var seenVec: set<Path> := {};
    verifyBox := boxes;
    var k := 0;
    while k < |vs|
      invariant 0 <= k <= |vs|
      invariant seenVec == set p | p in vs[..k]
      invariant verifyBox == boxes + VecAsserts(vs[..k])
    {
      assert vs[..k + 1] == vs[..k] + [vs[k]];
      assert vs[..k + 1][..k] == vs[..k];
      if vs[k] !in seenVec {
        seenVec := seenVec + {vs[k]};
        Parse.ConcatAssoc(boxes, VecAsserts(vs[..k]), [ImplVec(vs[k])]);
        verifyBox := verifyBox + [ImplVec(vs[k])];
      } else {
        assert VecAsserts(vs[..k + 1]) == VecAsserts(vs[..k]);
      }
      k := k + 1;
    }
    assert vs[..k] == vs;
  }

  /** `expand_asserts`, up to the final `quote!`: the two token streams it
      splices into the generated block. */
  method ExpandAsserts(pieces: Parse.AstPieces) returns (verifyExtern: seq<Assertion>, verifyBox: seq<Assertion>)
    ensures verifyExtern == ExternAsserts(pieces.externTypes)
    ensures verifyBox == BoxAsserts(pieces.boxTypes) + VecAsserts(pieces.vecTypes)
  {
    verifyExtern := AssertExterns(pieces.externTypes);
    verifyBox := AssertBoxes(pieces.boxTypes);
    verifyBox := AssertVecs(verifyBox, pieces.vecTypes);
  }

  /** The `const _: () = { ... }` block as written: `#verify_extern` twice. */
  function BlockAsWritten(pieces: Parse.AstPieces): seq<Assertion>
  {
    ExternAsserts(pieces.externTypes) + (BoxAsserts(pieces.boxTypes) + VecAsserts(pieces.vecTypes)) +
    ExternAsserts(pieces.externTypes)
  }

  /** The block with each generated assertion once. */
  function Block(pieces: Parse.AstPieces): seq<Assertion>
  {
    ExternAsserts(pieces.externTypes) + (BoxAsserts(pieces.boxTypes) + VecAsserts(pieces.vecTypes))
  }

  // ----- what the assertions cover ---------------------------------------

  lemma ExternKinds(ets: seq<ExternType>)
    ensures forall a :: a in ExternAsserts(ets) ==> a.IsExtern? || a.IsTrivial? || a.IsOpaque?
  {
    ExternAssertsExact(ets);
  }

  lemma {:induction false} ExternAssertsExact(ets: seq<ExternType>)
    ensures forall a :: a in ExternAsserts(ets) ==> a.IsExtern? || a.IsTrivial? || a.IsOpaque?
    ensures forall p :: IsExtern(p) in ExternAsserts(ets) <==> p in PathsOf(ets)
    ensures forall p :: IsTrivial(p) in ExternAsserts(ets) <==> p in TrivialPaths(ets)
    ensures forall p :: IsOpaque(p) in ExternAsserts(ets) <==> p in OpaquePaths(ets)
    ensures NoDuplicates(ExternAsserts(ets))
    decreases |ets|
  {
    if ets != [] {
      var front := ets[..|ets| - 1];
      ExternAssertsExact(front);
      PathsStep(ets, |ets| - 1);
      assert ets[..|ets|] == ets;
      var a := ExternAsserts(front);
      var b := ExternCheck(front, ets[|ets| - 1]) + KindCheck(front, ets[|ets| - 1]);
      Parse.ConcatAssoc(a, ExternCheck(front, ets[|ets| - 1]), KindCheck(front, ets[|ets| - 1]));
      assert ExternAsserts(ets) == a + b;
      assert forall x :: x in b ==> x !in a;
      assert NoDuplicates(b);
      NoDuplicatesConcat(a, b);
    }
  }

  lemma {:induction false} BoxAssertsExact(ps: seq<Path>)
    ensures forall a :: a in BoxAsserts(ps) ==> a.ImplBox?
    ensures forall p :: ImplBox(p) in BoxAsserts(ps) <==> p in ps
    ensures NoDuplicates(BoxAsserts(ps))
    decreases |ps|
  {
    if ps != [] {
      var front := ps[..|ps| - 1];
      BoxAssertsExact(front);
      assert ps == front + [ps[|ps| - 1]];
      NoDuplicatesConcat(BoxAsserts(front), if ps[|ps| - 1] in front then [] else [ImplBox(ps[|ps| - 1])]);
    }
  }

  lemma {:induction false} VecAssertsExact(ps: seq<Path>)
    ensures forall a :: a in VecAsserts(ps) ==> a.ImplVec?
    ensures forall p :: ImplVec(p) in VecAsserts(ps) <==> p in ps
    ensures NoDuplicates(VecAsserts(ps))
    decreases |ps|
  {
    if ps != [] {
      var front := ps[..|ps| - 1];
      VecAssertsExact(front);
      assert ps == front + [ps[|ps| - 1]];
      NoDuplicatesConcat(VecAsserts(front), if ps[|ps| - 1] in front then [] else [ImplVec(ps[|ps| - 1])]);
    }
  }

  lemma NoDuplicatesConcat(a: seq<Assertion>, b: seq<Assertion>)
    requires NoDuplicates(a) && NoDuplicates(b)
    requires forall x :: x in b ==> x !in a
    ensures NoDuplicates(a + b)
  {
    forall i, j | 0 <= i < j < |a + b|
      ensures (a + b)[i] != (a + b)[j]
    {
      if j >= |a| && i < |a| {
        assert (a + b)[j] in b;
      }
    }
  }

  /** The block checks each collected path at most once per property. */
  lemma BlockNoDuplicates(pieces: Parse.AstPieces)
    ensures NoDuplicates(Block(pieces))
  {
    var e := ExternAsserts(pieces.externTypes);
    var boxes := BoxAsserts(pieces.boxTypes);
    var vecs := VecAsserts(pieces.vecTypes);
    ExternAssertsExact(pieces.externTypes);
    BoxAssertsExact(pieces.boxTypes);
    VecAssertsExact(pieces.vecTypes);
    NoDuplicatesConcat(boxes, vecs);
    assert forall x: Assertion :: x in boxes + vecs ==> x.ImplBox? || x.ImplVec?;
    NoDuplicatesConcat(e, boxes + vecs);
  }

  /** The block checks every collected path for each property it needs:
      extern, its kind, `Box` and `Vec` support, and nothing else. */
  lemma BlockCovers(pieces: Parse.AstPieces)
    ensures forall p :: IsExtern(p) in Block(pieces) <==> p in PathsOf(pieces.externTypes)
    ensures forall p :: IsTrivial(p) in Block(pieces) <==> Trivial(p) in pieces.externTypes
    ensures forall p :: IsOpaque(p) in Block(pieces) <==> Opaque(p) in pieces.externTypes
    ensures forall p :: ImplBox(p) in Block(pieces) <==> p in pieces.boxTypes
    ensures forall p :: ImplVec(p) in Block(pieces) <==> p in pieces.vecTypes
  {
    var ets := pieces.externTypes;
    var e := ExternAsserts(ets);
    var boxes := BoxAsserts(pieces.boxTypes);
    var vecs := VecAsserts(pieces.vecTypes);
    ExternAssertsExact(ets);
    BoxAssertsExact(pieces.boxTypes);
    VecAssertsExact(pieces.vecTypes);
    forall p
      ensures IsTrivial(p) in Block(pieces) <==> Trivial(p) in ets
    {
      assert IsTrivial(p) !in boxes + vecs;
      if Trivial(p) in ets {
        assert p in TrivialPaths(ets);
      }
    }
    forall p
      ensures IsOpaque(p) in Block(pieces) <==> Opaque(p) in ets
    {
      assert IsOpaque(p) !in boxes + vecs;
      if Opaque(p) in ets {
        assert p in OpaquePaths(ets);
      }
    }
    forall p
      ensures IsExtern(p) in Block(pieces) <==> p in PathsOf(ets)
    {
      assert IsExtern(p) !in boxes + vecs;
    }
    forall p
      ensures ImplBox(p) in Block(pieces) <==> p in pieces.boxTypes
    {
      assert ImplBox(p) !in e && ImplBox(p) !in vecs;
    }
    forall p
      ensures ImplVec(p) in Block(pieces) <==> p in pieces.vecTypes
    {
      assert ImplVec(p) !in e && ImplVec(p) !in boxes;
    }
  }

  /** As written, every extern and kind check occurs twice as often as in
      `Block`, where `BlockNoDuplicates` shows it occurs once. */
  lemma AsWrittenDoublesExternChecks(pieces: Parse.AstPieces)
    ensures forall a :: a in ExternAsserts(pieces.externTypes) ==>
              multiset(BlockAsWritten(pieces))[a] == 2 * multiset(Block(pieces))[a]
  {
    var e := ExternAsserts(pieces.externTypes);
    var bv := BoxAsserts(pieces.boxTypes) + VecAsserts(pieces.vecTypes);
    BoxAssertsExact(pieces.boxTypes);
    VecAssertsExact(pieces.vecTypes);
    ExternKinds(pieces.externTypes);
    forall a | a in e
      ensures multiset(BlockAsWritten(pieces))[a] == 2 * multiset(Block(pieces))[a]
    {
      assert a !in bv;
      assert multiset(bv)[a] == 0;
    }
  }

  /** So the block as written repeats itself whenever there is an extern
      type at all. */
  lemma AsWrittenRepeats(pieces: Parse.AstPieces)
    requires pieces.externTypes != []
    ensures !NoDuplicates(BlockAsWritten(pieces))
  {
    var ets := pieces.externTypes;
    var e := ExternAsserts(ets);
    var bv := BoxAsserts(pieces.boxTypes) + VecAsserts(pieces.vecTypes);
    var w := BlockAsWritten(pieces);
    assert w == e + bv + e;
    ExternAssertsExact(ets);
    assert ets[0] in ets;
    assert IsExtern(ets[0].path) in e;
    var i :| 0 <= i < |e| && e[i] == IsExtern(ets[0].path);
    assert w[i] == w[|e| + |bv| + i];
  }
}
