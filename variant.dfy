/** `rust::enm::variant_base<Ts...>`: a never-valueless tagged union laid out
    as a `#[repr(C)]` Rust enum, an `int m_Index` discriminant beside a byte
    buffer `m_Buff` as large as the largest alternative.

    An object of alternative i is represented by the `sizeof(T_i)` bytes it
    occupies at the start of the buffer; the bytes after it are left as they
    were. The alternatives are relocatable (every binding declares
    `IsRelocatable`), which is what lets the buffer be backed up, swapped and
    copied back with `memcpy`/`swap_ranges`. Running a constructor is an
    input, `Construction`: it either builds an object or throws after having
    written some bytes into the storage it was given. The destructors that
    run are recorded, in order, in the ghost log `dtors`. */
module VariantBase {
  import opened Wrappers
  import opened Alternatives
  import Capabilities
  import Dispatch
  import TypeList

  /** The outcome of running a constructor of an alternative. */
  datatype Construction = Builds(value: seq<bv8>) | Throws(scribble: seq<bv8>)

  /** The constructor's exception, rethrown to the caller. */
  datatype Thrown = ConstructorThrew

  /** An object whose destructor ran: its alternative and its bytes. */
  datatype Obj = Obj(alt: nat, bytes: seq<bv8>)

  /** A construction of alternative i writes nothing beyond `sizeof(T_i)`. */
  predicate Fits(ts: seq<TypeInfo>, i: nat, c: Construction)
  {
    i < |ts| &&
    match c
    case Builds(v) => |v| == ts[i].size
    case Throws(s) => |s| <= ts[i].size
  }

  /** A `std::variant<Rs...>` holding alternative `index` with the object `value`. */
  datatype StdVariant = StdVariant(index: nat, value: seq<bv8>)

  /** `std::memcpy(dst, src, sizeof(m_Buff))`. */
  method CopyBytes(dst: array<bv8>, src: array<bv8>)
    requires dst.Length == src.Length && dst != src
    modifies dst
    ensures dst[..] == src[..]
  {
    var k := 0;
    while k < dst.Length
      invariant 0 <= k <= dst.Length
      invariant dst[..k] == src[..k]
    {
      dst[k] := src[k];
      k := k + 1;
    }
    assert dst[..] == dst[..k];
  }

  /** `std::swap_ranges(a, a + n, b)`, element by element through a
      temporary; when both ranges are the same buffer nothing changes. */
  method SwapRanges(a: array<bv8>, b: array<bv8>)
    requires a.Length == b.Length
    modifies a, b
    ensures a[..] == old(b[..]) && b[..] == old(a[..])
  {
    var k := 0;
    while k < a.Length
      invariant 0 <= k <= a.Length
      invariant forall i :: 0 <= i < k ==> a[i] == old(b[i]) && b[i] == old(a[i])
      invariant forall i :: k <= i < a.Length ==> a[i] == old(a[i]) && b[i] == old(b[i])
    {
      var t := a[k];
      a[k] := b[k];
      b[k] := t;
      k := k + 1;
    }
  }

  class Variant {
    const types: seq<TypeInfo>
    const buf: array<bv8>
    var index: int
    ghost var dtors: seq<Obj>

    /** The discriminant names an alternative and the buffer has
        `std::max({sizeof(Ts)...})` bytes. */
    predicate Valid()
      reads this
    {
      0 < |types| <= Dispatch.IntMax && buf.Length == MaxSize(types) &&
      0 <= index < |types|
    }

    /** The object the variant currently holds. */
    function Live(): Obj
      reads this, buf
      requires Valid()
    {
      Obj(index, buf[..types[index].size])
    }

    /** The raw state seen by `visit`, `get`, `get_if` and `holds_alternative`. */
    function State(): Dispatch.Raw
      reads this, buf
    {
      Dispatch.Raw(index, buf[..])
    }

    /** Placement new into `m_Buff`: the object's bytes overwrite the front
        of the buffer. */
    method Place(bytes: seq<bv8>)
      requires |bytes| <= buf.Length
      modifies buf
      ensures buf[..] == bytes + old(buf[..])[|bytes|..]
    {
      forall k | 0 <= k < |bytes| {
        buf[k] := bytes[k];
      }
      assert buf[..] == bytes + old(buf[..])[|bytes|..];
    }

    /** `variant_base(std::in_place_index<I>, args...)`; the by-type form
        `variant_base(std::in_place_type<T>, args...)` delegates to it. The
        constructor's own exception leaves no object behind, so only the
        successful construction is modelled. */
    constructor InPlaceIndex(ts: seq<TypeInfo>, i: nat, args: seq<Capabilities.Arg>, value: seq<bv8>)
      requires 0 < |ts| <= Dispatch.IntMax
      requires Capabilities.IsConstructible(ts, Capabilities.InPlaceIndex(i, args))
      requires |value| == ts[i].size
      ensures Valid() && fresh(buf) && types == ts
      ensures Live() == Obj(i, value) && dtors == []
    {
      types := ts;
      buf := new bv8[MaxSize(ts)];
      index := i;
      dtors := [];
      new;
      Place(value);
    }

    /** `variant_base(std::in_place_type<T>, args...)`. */
    constructor InPlaceType(ts: seq<TypeInfo>, name: string, args: seq<Capabilities.Arg>, value: seq<bv8>)
      requires 0 < |ts| <= Dispatch.IntMax
      requires Capabilities.IsConstructible(ts, Capabilities.InPlaceType(name, args))
      requires |value| == ts[TypeList.IndexFromType(name, Names(ts)).value].size
      ensures Valid() && fresh(buf) && types == ts && dtors == []
      ensures types[index].name == name && Live() == Obj(index, value)
    {
      var i := TypeList.IndexFromType(name, Names(ts)).value;
      types := ts;
      buf := new bv8[MaxSize(ts)];
      index := i;
      dtors := [];
      new;
      Place(value);
    }

    /** The converting constructor `variant_base(T&&)`: the alternative is
        `index_from_type_v<std::decay_t<T>>`. */
    constructor Converting(ts: seq<TypeInfo>, arg: Capabilities.Arg, value: seq<bv8>)
      requires 0 < |ts| <= Dispatch.IntMax
      requires Capabilities.IsConstructible(ts, Capabilities.Converting(arg))
      requires |value| == ts[TypeList.IndexFromType(arg.name, Names(ts)).value].size
      ensures Valid() && fresh(buf) && types == ts && dtors == []
      ensures types[index].name == arg.name && Live() == Obj(index, value)
    {
      var i := TypeList.IndexFromType(arg.name, Names(ts)).value;
      types := ts;
      buf := new bv8[MaxSize(ts)];
      index := i;
      dtors := [];
      new;
      Place(value);
    }

    /** The copy constructor: same discriminant, and a copy of the other
        variant's object built by visiting it. */
    constructor Copy(other: Variant)
      requires other.Valid()
      requires Capabilities.IsConstructible(other.types, Capabilities.FromVariant(Capabilities.ConstLvalue))
      ensures Valid() && fresh(buf) && types == other.types && dtors == []
      ensures Live() == other.Live()
    {
      types := other.types;
      buf := new bv8[MaxSize(other.types)];
      index := other.index;
      dtors := [];
      new;
      Place(other.buf[..other.types[other.index].size]);
    }

    /** `variant_base(const std::variant<Rs...>&)` and
        `variant_base(std::variant<Rs...>&&)`: `m_Index = other.index()` and
        a copy (or move) of its object. */
    constructor FromStdVariant(ts: seq<TypeInfo>, c: Capabilities.Category, other: StdVariant)
      requires 0 < |ts| <= Dispatch.IntMax
      requires Capabilities.IsConstructible(ts, Capabilities.FromStdVariant(c, Names(ts)))
      requires other.index < |ts| && |other.value| == ts[other.index].size
      ensures Valid() && fresh(buf) && types == ts && dtors == []
      ensures Live() == Obj(other.index, other.value)
    {
      types := ts;
      buf := new bv8[MaxSize(ts)];
      index := other.index;
      dtors := [];
      new;
      Place(other.value);
    }

    /** `destroy()`, also the body of `~variant_base()`: the destructor of
        the live alternative runs, found by `visit`. */
    method Destroy()
      requires Valid()
      modifies this
      ensures index == old(index) && dtors == old(dtors) + [old(Live())]
    {
      dtors := dtors + [Live()];
    }

    /** `emplace<I>(args...)`, with the strong exception guarantee. Which of
        the three strategies runs is decided at compile time:
        `nothrowCtor` is `std::is_nothrow_constructible_v<T, Args...>` and
        `types[i].nothrowMove` is `std::is_nothrow_move_constructible_v<T>`.
        On success the new object is at the front of the buffer, the old
        object has been destroyed exactly once (the second strategy also
        destroys its temporary), and the discriminant is I. On failure the
        exception propagates and nothing observable has changed, not even the
        bytes behind the old object, and no destructor has run. */
    method EmplaceIndex(i: nat, nothrowCtor: bool, c: Construction) returns (r: Result<seq<bv8>, Thrown>)
      requires Valid() && Fits(types, i, c)
      requires nothrowCtor ==> c.Builds?
      modifies this, buf
      ensures Valid()
      ensures c.Throws? ==>
                r == Failure(ConstructorThrew) && index == old(index) &&
                buf[..] == old(buf[..]) && dtors == old(dtors)
      ensures c.Builds? ==>
                r == Success(c.value) && index == i && Live() == Obj(i, c.value) &&
                buf[..] == c.value + old(buf[..])[types[i].size..]
      ensures c.Builds? && (nothrowCtor || !types[i].nothrowMove) ==>
                dtors == old(dtors) + [old(Live())]
      ensures c.Builds? && !nothrowCtor && types[i].nothrowMove ==>
                dtors == old(dtors) + [old(Live()), Obj(i, c.value)]
    {
      assert types[i].size <= MaxSize(types);
      if nothrowCtor {
        Destroy();
        Place(c.value);
      } else if types[i].nothrowMove {
        // the temporary is built first; only then is the old object destroyed
        if c.Throws? {
          return Failure(ConstructorThrew);
        }
        var tmp := c.value;
        Destroy();
        Place(tmp);
        dtors := dtors + [Obj(i, tmp)];
      } else {
        var oldBuff := new bv8[buf.Length];
        CopyBytes(oldBuff, buf);
        ghost var backup := oldBuff[..];
        match c {
          case Throws(s) =>
            Place(s);
            CopyBytes(buf, oldBuff);
            return Failure(ConstructorThrew);
          case Builds(v) =>
            Place(v);
            SwapRanges(buf, oldBuff);
            assert buf[..] == backup;
            Destroy();
            CopyBytes(buf, oldBuff);
        }
      }
      index := i;
      r := Success(buf[..types[i].size]);
    }

    /** The second strategy of `emplace<I>` as the header writes it: the
        temporary is declared `const T tmp{...}`, so `T(std::move(tmp))`
        receives a `const T&&`, which binds to the copy constructor and not
        to the non-throwing move constructor. That copy (`copy`) runs after
        the old object was destroyed; when it throws, the discriminant still
        names the destroyed object; unwinding destroys the temporary, and the
        destructor of the variant will destroy the old object a second
        time. */
    method EmplaceFromConstTemporary(i: nat, c: Construction, copy: Construction)
      returns (r: Result<seq<bv8>, Thrown>)
      requires Valid() && Fits(types, i, c) && Fits(types, i, copy) && types[i].nothrowMove
      requires c.Builds? && copy.Builds? ==> copy.value == c.value
      modifies this, buf
      ensures Valid()
      ensures c.Throws? ==> r.Failure? && index == old(index) && dtors == old(dtors)
      ensures c.Builds? && copy.Throws? ==>
                r.Failure? && index == old(index) && dtors == old(dtors) + [old(Live()), Obj(i, c.value)] &&
                buf[..] == copy.scribble + old(buf[..])[|copy.scribble|..]
      ensures c.Builds? && copy.Builds? ==>
                r == Success(c.value) && Live() == Obj(i, c.value) &&
                dtors == old(dtors) + [old(Live()), Obj(i, c.value)]
    {
      assert types[i].size <= MaxSize(types);
      if c.Throws? {
        return Failure(ConstructorThrew);
      }
      var tmp := c.value;
      Destroy();
      match copy {
        case Throws(s) =>
          Place(s);
          // stack unwinding runs the destructor of the const temporary
          dtors := dtors + [Obj(i, tmp)];
          return Failure(ConstructorThrew);
        case Builds(v) =>
          Place(v);
      }
      dtors := dtors + [Obj(i, tmp)];
      index := i;
      r := Success(buf[..types[i].size]);
    }

    /** The temporary that the second strategy of `emplace` destroys at the
        end of its scope, if that strategy runs. */
    function Temporary(nothrowCtor: bool, i: nat, v: seq<bv8>): seq<Obj>
      requires i < |types|
    {
      if !nothrowCtor && types[i].nothrowMove then [Obj(i, v)] else []
    }

    /** `emplace<T>(args...)`: `emplace<index_from_type_v<T>>`. */
    method EmplaceType(name: string, nothrowCtor: bool, c: Construction) returns (r: Result<seq<bv8>, Thrown>)
      requires Valid() && TypeList.IndexFromType(name, Names(types)).Some?
      requires Fits(types, TypeList.IndexFromType(name, Names(types)).value, c)
      requires nothrowCtor ==> c.Builds?
      modifies this, buf
      ensures Valid()
      ensures c.Throws? ==>
                r == Failure(ConstructorThrew) && index == old(index) &&
                buf[..] == old(buf[..]) && dtors == old(dtors)
      ensures c.Builds? ==>
                r == Success(c.value) && types[index].name == name && Live() == Obj(index, c.value)
      ensures c.Builds? ==>
                dtors == old(dtors) + [old(Live())] + Temporary(nothrowCtor, index, c.value)
    {
      r := EmplaceIndex(TypeList.IndexFromType(name, Names(types)).value, nothrowCtor, c);
    }

    /** The converting assignment `operator=(T&&)`. When the variant already
        holds T and `std::is_nothrow_assignable_v<T, T&&>` (`nothrowAssign`),
        T's own assignment gives the held object the value x; otherwise it is
        `emplace<std::decay_t<T>>`, whose construction from x is `c`. */
    method ConvertAssign(arg: Capabilities.Arg, x: seq<bv8>, nothrowAssign: bool, nothrowCtor: bool, c: Construction)
      returns (r: Result<(), Thrown>)
      requires Valid() && Capabilities.IsAssignable(types, Capabilities.ConvertingAssign(arg))
      requires |x| == types[TypeList.IndexFromType(arg.name, Names(types)).value].size
      requires Fits(types, TypeList.IndexFromType(arg.name, Names(types)).value, c)
      requires c.Builds? ==> c.value == x
      requires nothrowCtor ==> c.Builds?
      modifies this, buf
      ensures Valid()
      ensures r.Success? ==> types[index].name == arg.name && Live() == Obj(index, x)
      ensures r.Failure? <==> !(old(types[index].name) == arg.name && nothrowAssign) && c.Throws?
      ensures r.Failure? ==>
                index == old(index) && buf[..] == old(buf[..]) && dtors == old(dtors)
      ensures old(types[index].name) == arg.name && nothrowAssign ==> dtors == old(dtors)
      ensures !(old(types[index].name) == arg.name && nothrowAssign) && c.Builds? ==>
                dtors == old(dtors) + [old(Live())] + Temporary(nothrowCtor, index, x)
    {
      var k := TypeList.IndexFromType(arg.name, Names(types)).value;
      assert types[k].size <= MaxSize(types);
      assert Names(types)[k] == types[k].name;
      if index == k && nothrowAssign {
        Place(x);
        return Success(());
      }
      assert old(types[index].name) != arg.name || !nothrowAssign by {
        if old(types[index].name) == arg.name {
          assert Names(types)[index] == arg.name;
          TypeList.IndexThenAlternative(arg.name, Names(types));
        }
      }
      var e := EmplaceIndex(k, nothrowCtor, c);
      r := if e.Success? then Success(()) else Failure(ConstructorThrew);
    }

    /** Copy assignment: visit the other variant and assign its object,
        `*this = value` with T = `const U&`. Assigning through a const
        reference is never possible, so this always emplaces a copy. */
    method CopyAssign(other: Variant, nothrowCopy: bool, c: Construction) returns (r: Result<(), Thrown>)
      requires Valid() && other.Valid() && other.types == types && other.buf != buf
      requires Capabilities.IsAssignable(types, Capabilities.FromVariantAssign(Capabilities.ConstLvalue))
      requires TypeList.IndexFromType(types[other.index].name, Names(types)).Some?
      requires Fits(types, other.index, c) && (c.Builds? ==> c.value == other.Live().bytes)
      requires nothrowCopy ==> c.Builds?
      modifies this, buf
      ensures Valid()
      ensures r.Success? <==> c.Builds?
      ensures r.Success? ==> Live() == other.Live()
      ensures r.Success? ==> dtors == old(dtors) + [old(Live())] + Temporary(nothrowCopy, index, c.value)
      ensures r.Failure? ==> index == old(index) && buf[..] == old(buf[..]) && dtors == old(dtors)
    {
      var name := types[other.index].name;
      assert Names(types)[other.index] == name;
      TypeList.IndexThenAlternative(name, Names(types));
      var e := EmplaceType(name, nothrowCopy, c);
      r := if e.Success? then Success(()) else Failure(ConstructorThrew);
    }

    /** `operator=(const std::variant<Rs...>&)` / `operator=(std::variant<Rs...>&&)`:
        `std::visit` then `emplace<std::decay_t<type>>`, which resolves the
        held type by name and does not compile when that type is repeated. */
    method AssignFromStd(c0: Capabilities.Category, other: StdVariant, nothrowCtor: bool, c: Construction)
      returns (r: Result<(), Thrown>)
      requires Valid() && Capabilities.IsAssignable(types, Capabilities.FromStdVariantAssign(c0, Names(types)))
      requires other.index < |types| && |other.value| == types[other.index].size
      requires TypeList.IndexFromType(types[other.index].name, Names(types)).Some?
      requires Fits(types, other.index, c) && (c.Builds? ==> c.value == other.value)
      requires nothrowCtor ==> c.Builds?
      modifies this, buf
      ensures Valid()
      ensures r.Success? <==> c.Builds?
      ensures r.Success? ==> Live() == Obj(other.index, other.value)
      ensures r.Success? ==> dtors == old(dtors) + [old(Live())] + Temporary(nothrowCtor, index, c.value)
      ensures r.Failure? ==> index == old(index) && buf[..] == old(buf[..]) && dtors == old(dtors)
    {
      var name := types[other.index].name;
      assert Names(types)[other.index] == name;
      TypeList.IndexThenAlternative(name, Names(types));
      var e := EmplaceType(name, nothrowCtor, c);
      r := if e.Success? then Success(()) else Failure(ConstructorThrew);
    }

    /** `swap(other)`: the whole buffers and then the discriminants change
        places; no constructor or destructor runs. Swapping a variant with
        itself leaves it as it was. */
    method Swap(other: Variant)
      requires Valid() && other.Valid() && other.types == types && (other == this <==> other.buf == buf)
      modifies this, buf, other, other.buf
      ensures Valid() && other.Valid()
      ensures Live() == old(other.Live()) && other.Live() == old(Live())
      ensures buf[..] == old(other.buf[..]) && other.buf[..] == old(buf[..])
      ensures dtors == old(dtors) && other.dtors == old(other.dtors)
      ensures other == this ==> index == old(index) && buf[..] == old(buf[..])
    {
      SwapRanges(buf, other.buf);
      var i := index;
      index := other.index;
      other.index := i;
    }
  }

  /** `std::string`: constructing it from a `const char*` or copying it
      allocates and may throw `std::bad_alloc`; moving it does not throw. */
  const String := TypeInfo("std::string", 32, true, true, true, true, {["const char*"]})

  /** The discrepancy of `EmplaceFromConstTemporary` on a concrete
      `variant<int, std::string>` holding the int 1: `emplace<1>("x")`
      builds the temporary string, destroys the int, and then the copy out
      of the const temporary throws; unwinding destroys the temporary, and
      the variant's destructor then destroys the same int a second time. */
  method ConstTemporaryDestroysTwice() returns (v: Variant)
    ensures |v.dtors| == 3 && v.dtors[0] == v.dtors[2] == Obj(0, [1, 0, 0, 0])
    ensures v.dtors[1] == Obj(1, seq(32, _ => 7))
  {
    var ts := [Capabilities.Int, String];
    v := new Variant.InPlaceIndex(ts, 0, [], [1, 0, 0, 0]);
    var built: seq<bv8> := seq(32, _ => 7);
    var r := v.EmplaceFromConstTemporary(1, Builds(built), Throws([]));
    v.Destroy();
  }

  /** `enm = false` on an enum holding `Num(1502)`, as in `take_mut_enum`:
      bool is not the held type, so the assignment emplaces Bool, destroying
      the int64 once, and the enum then holds `Bool(false)`. */
  method AssignFalseToNum() returns (v: Variant)
    ensures v.Valid() && v.index == 1 && v.Live() == Obj(1, [0])
    ensures v.dtors == [Obj(0, [0xDE, 0x05, 0, 0, 0, 0, 0, 0])]
  {
    var num := TypeInfo("int64_t", 8, true, true, true, true, {});
    var boolean := TypeInfo("bool", 1, true, true, true, true, {});
    var ts := [num, boolean];
    assert Names(ts) == ["int64_t", "bool"];
    v := new Variant.InPlaceIndex(ts, 0, [], [0xDE, 0x05, 0, 0, 0, 0, 0, 0]);
    var r := v.ConvertAssign(Capabilities.Arg("bool", Capabilities.Rvalue), [0], true, true, Builds([0]));
  }
}
