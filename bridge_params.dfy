/** The attribute arguments of `#[extern_type(...)]`: `parse_bridge_params`
    reads a comma-separated list of `namespace = a::b` and
    `cxx_name = "Name"`, each at most once, and `expand` turns them into the
    qualified C++ name the type is bound to. The argument tokens arrive
    already grouped: a whole `a::b` path is one `PathTok`, a string literal
    one `StrTok`. */
module BridgeParams {
  import opened Wrappers

  datatype Tok =
    | KwNamespace
    | KwCxxName
    | EqTok
    | CommaTok
    | PathTok(segs: seq<string>)
    | StrTok(text: string)
    | OtherTok

  /** Why the arguments were rejected: the two duplicate checks of the macro
      and the parse errors of the token parsers it calls. */
  datatype ParamError =
    | DuplicateNamespace    // "duplicate namespace param"
    | DuplicateCxxName      // "duplicate cxx_name param"
    | ExpectedEquals        // Token![=]
    | ExpectedPath          // Path::parse_mod_style
    | ExpectedString        // LitStr
    | InvalidName           // ForeignName::parse: not an identifier
    | UnexpectedToken       // tokens left over after the list

  datatype Params = Params(namespace: Option<seq<string>>, cxxName: Option<string>)

  predicate IsIdentStart(c: char)
  {
    ('a' <= c <= 'z') || ('A' <= c <= 'Z') || c == '_'
  }

  /** `Ident::parse_any` accepts the whole text: an identifier or keyword. */
  predicate IsIdentText(s: string)
  {
    |s| > 0 && IsIdentStart(s[0]) &&
    forall i :: 1 <= i < |s| ==> IsIdentStart(s[i]) || ('0' <= s[i] <= '9')
  }

  /** One pass of the loop body: a `namespace = ...` or `cxx_name = "..."`
      entry starting at pos, or nothing. Yields the position after it and
      the updated parameters. */
  function Entry(toks: seq<Tok>, pos: nat, p: Params): (r: Result<(nat, Params), ParamError>)
    requires pos <= |toks|
    ensures r.Success? ==> pos <= r.value.0 <= |toks|
  {
    if pos < |toks| && toks[pos] == KwNamespace then
      if p.namespace.Some? then Failure(DuplicateNamespace)
      else if !(pos + 1 < |toks| && toks[pos + 1] == EqTok) then Failure(ExpectedEquals)
      // `Namespace::parse` of an exhausted stream is the empty namespace
      else if pos + 2 == |toks| then Success((pos + 2, p.(namespace := Some([]))))
      else if toks[pos + 2].PathTok? then Success((pos + 3, p.(namespace := Some(toks[pos + 2].segs))))
      else Failure(ExpectedPath)
    else if pos < |toks| && toks[pos] == KwCxxName then
      if p.cxxName.Some? then Failure(DuplicateCxxName)
      else if !(pos + 1 < |toks| && toks[pos + 1] == EqTok) then Failure(ExpectedEquals)
      else if !(pos + 2 < |toks| && toks[pos + 2].StrTok?) then Failure(ExpectedString)
      else if !IsIdentText(toks[pos + 2].text) then Failure(InvalidName)
      else Success((pos + 3, p.(cxxName := Some(toks[pos + 2].text))))
    else Success((pos, p))
  }

  /** The loop from position pos on: an entry, then a comma to go on or the
      end of the list; `Parser::parse` rejects whatever is left over. */
  function ParamsFrom(toks: seq<Tok>, pos: nat, p: Params): Result<Params, ParamError>
    requires pos <= |toks|
    decreases |toks| - pos
  {
    var e := Entry(toks, pos, p);
    if e.Failure? then Failure(e.error)
    else
      var (next, q) := e.value;
      if next < |toks| && toks[next] == CommaTok then ParamsFrom(toks, next + 1, q)
      else if next < |toks| then Failure(UnexpectedToken)
      else Success(q)
  }

  function ParseParams(toks: seq<Tok>): Result<Params, ParamError>
  {
    if toks == [] then Success(Params(None, None)) else ParamsFrom(toks, 0, Params(None, None))
  }

  /** `parse_bridge_params`. */
  method ParseBridgeParams(toks: seq<Tok>) returns (r: Result<Params, ParamError>)
    ensures r == ParseParams(toks)
  {
    if toks == [] {
      return Success(Params(None, None));
    }
    var pos := 0;
    var ns: Option<seq<string>> := None;
    var cxxName: Option<string> := None;
    var done := false;
    while !done
      invariant 0 <= pos <= |toks|
      invariant !done ==> ParamsFrom(toks, pos, Params(ns, cxxName)) == ParseParams(toks)
      invariant done ==> ParseParams(toks) ==
                           if pos < |toks| then Failure(UnexpectedToken) else Success(Params(ns, cxxName))
      decreases |toks| - pos, !done
    {
      ghost var before := Params(ns, cxxName);
      ghost var startPos := pos;
      if pos < |toks| && toks[pos] == KwNamespace {
        pos := pos + 1;
        if ns.Some? {
          return Failure(DuplicateNamespace);
        }
        if !(pos < |toks| && toks[pos] == EqTok) {
          return Failure(ExpectedEquals);
        }
        pos := pos + 1;
        if pos == |toks| {
          ns := Some([]);
        } else if toks[pos].PathTok? {
          ns := Some(toks[pos].segs);
          pos := pos + 1;
        } else {
          return Failure(ExpectedPath);
        }
      } else if pos < |toks| && toks[pos] == KwCxxName {
        pos := pos + 1;
        if cxxName.Some? {
          return Failure(DuplicateCxxName);
        }
        if !(pos < |toks| && toks[pos] == EqTok) {
          return Failure(ExpectedEquals);
        }
        pos := pos + 1;
        if !(pos < |toks| && toks[pos].StrTok?) {
          return Failure(ExpectedString);
        }
        if !IsIdentText(toks[pos].text) {
          return Failure(InvalidName);
        }
        cxxName := Some(toks[pos].text);
        pos := pos + 1;
      }
      assert Entry(toks, startPos, before) == Success((pos, Params(ns, cxxName)));
      if pos < |toks| && toks[pos] == CommaTok {
        pos := pos + 1;
      } else {
        done := true;
      }
    }
    if pos < |toks| {
      return Failure(UnexpectedToken);
    }
    return Success(Params(ns, cxxName));
  }

  function Occurrences(toks: seq<Tok>, t: Tok): nat
  {
    multiset(toks)[t]
  }

  /** The tokens an entry consumes hold no keyword but the one it starts with. */
  lemma EntryKeywords(toks: seq<Tok>, pos: nat, p: Params)
    requires pos <= |toks| && Entry(toks, pos, p).Success?
    ensures Occurrences(toks[pos..], KwNamespace) ==
              Occurrences(toks[Entry(toks, pos, p).value.0..], KwNamespace) +
              (if Entry(toks, pos, p).value.1.namespace.Some? && p.namespace.None? then 1 else 0)
    ensures Occurrences(toks[pos..], KwCxxName) ==
              Occurrences(toks[Entry(toks, pos, p).value.0..], KwCxxName) +
              (if Entry(toks, pos, p).value.1.cxxName.Some? && p.cxxName.None? then 1 else 0)
    ensures p.namespace.Some? ==> Entry(toks, pos, p).value.1.namespace == p.namespace
    ensures p.cxxName.Some? ==> Entry(toks, pos, p).value.1.cxxName == p.cxxName
  {
    var next := Entry(toks, pos, p).value.0;
    SplitOccurrences(toks, pos, next, KwNamespace);
    SplitOccurrences(toks, pos, next, KwCxxName);
    var consumed := toks[pos..next];
    if pos < |toks| && toks[pos] == KwNamespace {
      if next == pos + 2 {
        assert consumed == [KwNamespace] + [EqTok];
      } else {
        assert toks[pos + 2].PathTok?;
        assert consumed == [KwNamespace] + [EqTok] + [toks[pos + 2]];
      }
      assert Occurrences(consumed, KwNamespace) == 1 && Occurrences(consumed, KwCxxName) == 0;
    } else if pos < |toks| && toks[pos] == KwCxxName {
      assert toks[pos + 2].StrTok?;
      assert consumed == [KwCxxName] + [EqTok] + [toks[pos + 2]];
      assert Occurrences(consumed, KwNamespace) == 0 && Occurrences(consumed, KwCxxName) == 1;
    } else {
      assert consumed == [];
    }
  }

  lemma SplitOccurrences(toks: seq<Tok>, i: nat, j: nat, t: Tok)
    requires i <= j <= |toks|
    ensures Occurrences(toks[i..], t) == Occurrences(toks[i..j], t) + Occurrences(toks[j..], t)
  {
    assert toks[i..] == toks[i..j] + toks[j..];
  }

  /** An accepted list held each keyword at most once, counting the ones
      already seen. */
  lemma {:induction false} AcceptedKeywordsOnce(toks: seq<Tok>, pos: nat, p: Params)
    requires pos <= |toks| && ParamsFrom(toks, pos, p).Success?
    ensures Occurrences(toks[pos..], KwNamespace) + (if p.namespace.Some? then 1 else 0) <= 1
    ensures Occurrences(toks[pos..], KwCxxName) + (if p.cxxName.Some? then 1 else 0) <= 1
    decreases |toks| - pos
  {
    var next := Entry(toks, pos, p).value.0;
    var q := Entry(toks, pos, p).value.1;
    EntryKeywords(toks, pos, p);
    if next < |toks| && toks[next] == CommaTok {
      AcceptedKeywordsOnce(toks, next + 1, q);
      SkipComma(toks, next);
    } else {
      assert toks[next..] == [];
    }
  }

  lemma SkipComma(toks: seq<Tok>, next: nat)
    requires next < |toks| && toks[next] == CommaTok
    ensures Occurrences(toks[next..], KwNamespace) == Occurrences(toks[next + 1..], KwNamespace)
    ensures Occurrences(toks[next..], KwCxxName) == Occurrences(toks[next + 1..], KwCxxName)
  {
    assert toks[next..] == [CommaTok] + toks[next + 1..];
  }

  /** A second `namespace` or a second `cxx_name` is always rejected. */
  lemma DuplicateParamRejected(toks: seq<Tok>)
    requires Occurrences(toks, KwNamespace) >= 2 || Occurrences(toks, KwCxxName) >= 2
    ensures ParseParams(toks).Failure?
  {
    if ParseParams(toks).Success? {
      assert toks[0..] == toks;
      AcceptedKeywordsOnce(toks, 0, Params(None, None));
    }
  }

  /** The macro's canonical spellings: `namespace = a::b, cxx_name = "N"`
      with either argument left out. */
  function Render(p: Params): seq<Tok>
  {
    (if p.namespace.Some? then [KwNamespace, EqTok, PathTok(p.namespace.value)] else []) +
    (if p.namespace.Some? && p.cxxName.Some? then [CommaTok] else []) +
    (if p.cxxName.Some? then [KwCxxName, EqTok, StrTok(p.cxxName.value)] else [])
  }

  /** Every parameter set with a valid C++ name is read back from its
      spelling, and from the spelling with the two entries in swapped order
      and a trailing comma. */
  lemma RenderRoundTrip(p: Params)
    requires p.cxxName.Some? ==> IsIdentText(p.cxxName.value)
    ensures ParseParams(Render(p)) == Success(p)
    ensures p.namespace.Some? && p.cxxName.Some? ==>
              ParseParams([KwCxxName, EqTok, StrTok(p.cxxName.value), CommaTok,
                           KwNamespace, EqTok, PathTok(p.namespace.value), CommaTok]) == Success(p)
  {
    var toks := Render(p);
    if p.namespace.Some? && p.cxxName.Some? {
      var mid := Params(p.namespace, None);
      assert toks == [KwNamespace, EqTok, PathTok(p.namespace.value), CommaTok,
                      KwCxxName, EqTok, StrTok(p.cxxName.value)];
      assert Entry(toks, 4, mid) == Success((7, p));
      assert ParamsFrom(toks, 4, mid) == Success(p);
      assert Entry(toks, 0, Params(None, None)) == Success((3, mid));
      var swapped := [KwCxxName, EqTok, StrTok(p.cxxName.value), CommaTok,
                      KwNamespace, EqTok, PathTok(p.namespace.value), CommaTok];
      var mid2 := Params(None, p.cxxName);
      assert Entry(swapped, 8, p) == Success((8, p));
      assert ParamsFrom(swapped, 8, p) == Success(p);
      assert Entry(swapped, 4, mid2) == Success((7, p));
      assert ParamsFrom(swapped, 4, mid2) == Success(p);
      assert Entry(swapped, 0, Params(None, None)) == Success((3, mid2));
    } else if p.namespace.Some? {
      assert toks == [KwNamespace, EqTok, PathTok(p.namespace.value)];
      assert Entry(toks, 0, Params(None, None)) == Success((3, p));
    } else if p.cxxName.Some? {
      assert toks == [KwCxxName, EqTok, StrTok(p.cxxName.value)];
      assert Entry(toks, 0, Params(None, None)) == Success((3, p));
    } else {
      assert toks == [];
    }
  }

  /** An accepted `cxx_name` is an identifier. */
  lemma {:induction false} AcceptedNameIsIdent(toks: seq<Tok>, pos: nat, p: Params)
    requires pos <= |toks| && ParamsFrom(toks, pos, p).Success?
    requires p.cxxName.Some? ==> IsIdentText(p.cxxName.value)
    ensures var q := ParamsFrom(toks, pos, p).value; q.cxxName.Some? ==> IsIdentText(q.cxxName.value)
    decreases |toks| - pos
  {
    var next := Entry(toks, pos, p).value.0;
    var q := Entry(toks, pos, p).value.1;
    if next < |toks| && toks[next] == CommaTok {
      AcceptedNameIsIdent(toks, next + 1, q);
    }
  }

  // ----- the qualified C++ name -------------------------------------------

  /** `fold(String::new(), |acc, piece| acc + piece + "::")`. */
  function NamespacePrefix(segs: seq<string>): string
  {
    if segs == [] then "" else NamespacePrefix(segs[..|segs| - 1]) + segs[|segs| - 1] + "::"
  }

  /** The name passed to `::cxx::type_id!`: every namespace segment followed
      by `::`, then the `cxx_name` if given, else the Rust identifier. It
      ends in that name, and without a namespace it is the name alone. */
  function QualifiedName(p: Params, ident: string): (q: string)
    ensures |q| >= |p.cxxName.GetOr(ident)| && q[|q| - |p.cxxName.GetOr(ident)|..] == p.cxxName.GetOr(ident)
    ensures p.namespace.GetOr([]) == [] ==> q == p.cxxName.GetOr(ident)
  {
    var prefix := NamespacePrefix(p.namespace.GetOr([]));
    var name := p.cxxName.GetOr(ident);
    assert (prefix + name)[|prefix|..] == name;
    prefix + name
  }

  predicate NoColon(s: string)
  {
    forall i :: 0 <= i < |s| ==> s[i] != ':'
  }

  /** The index of the first ':' in s, if any. */
  function FirstColon(s: string): (r: Option<nat>)
    ensures r.Some? ==> r.value < |s| && s[r.value] == ':' && NoColon(s[..r.value])
    ensures r.None? ==> NoColon(s)
  {
    if s == [] then None
    else if s[0] == ':' then Some(0)
    else
      var r := FirstColon(s[1..]);
      if r.None? then None
      else
        assert s[..r.value + 1] == [s[0]] + s[1..][..r.value];
        Some(r.value + 1)
  }

  /** Splits a qualified name at each `::` into segments and a final name. */
  function Unqualify(s: string): (string, seq<string>)
    decreases |s|
  {
    var c := FirstColon(s);
    if c.None? || !(c.value + 1 < |s| && s[c.value + 1] == ':') then (s, [])
    else
      var (name, rest) := Unqualify(s[c.value + 2..]);
      (name, [s[..c.value]] + rest)
  }

  /** Read from the front, the fold writes the first segment first,
      followed by `::` and the prefix of the remaining segments. */
  lemma {:induction false} PrefixCons(a: string, segs: seq<string>)
    ensures NamespacePrefix([a] + segs) == a + "::" + NamespacePrefix(segs)
    decreases |segs|
  {
    if segs != [] {
      var front := segs[..|segs| - 1];
      assert ([a] + segs)[..|segs|] == [a] + front;
      PrefixCons(a, front);
    } else {
      assert [a] + segs == [a];
      assert [a][..0] == [];
    }
  }

  lemma FirstColonAfter(a: string, rest: string)
    requires NoColon(a)
    ensures FirstColon(a + "::" + rest) == Some(|a|)
    decreases |a|
  {
    if a != [] {
      assert (a + "::" + rest)[1..] == a[1..] + "::" + rest;
      FirstColonAfter(a[1..], rest);
    }
  }

  /** The qualified name splits back into namespace and name whenever no
      segment and the name contain ':' — true of identifiers, the only
      thing the parameters and the Rust identifier can be. */
  lemma {:induction false} QualifiedNameRoundTrip(segs: seq<string>, name: string)
    requires forall i :: 0 <= i < |segs| ==> NoColon(segs[i])
    requires NoColon(name)
    ensures Unqualify(NamespacePrefix(segs) + name) == (name, segs)
    decreases |segs|
  {
    if segs == [] {
      assert NamespacePrefix(segs) + name == name;
    } else {
      var a := segs[0];
      var tail := segs[1..];
      assert segs == [a] + tail;
      PrefixCons(a, tail);
      var s := NamespacePrefix(segs) + name;
      var rest := NamespacePrefix(tail) + name;
      assert s == a + "::" + rest;
      FirstColonAfter(a, rest);
      assert s[..|a|] == a;
      assert s[|a| + 2..] == rest;
      QualifiedNameRoundTrip(tail, name);
    }
  }

  lemma IdentHasNoColon(s: string)
    requires IsIdentText(s)
    ensures NoColon(s)
  {
    forall i | 0 <= i < |s| ensures s[i] != ':' {
      if i > 0 {
        assert IsIdentStart(s[i]) || ('0' <= s[i] <= '9');
      }
    }
  }

  /** For parameters the macro accepted, the qualified name determines the
      namespace segments and the C++ name. */
  lemma AcceptedQualifiedNameRoundTrip(p: Params, ident: string)
    requires forall i :: 0 <= i < |p.namespace.GetOr([])| ==> IsIdentText(p.namespace.GetOr([])[i])
    requires IsIdentText(p.cxxName.GetOr(ident))
    ensures Unqualify(QualifiedName(p, ident)) == (p.cxxName.GetOr(ident), p.namespace.GetOr([]))
  {
    var segs := p.namespace.GetOr([]);
    forall i | 0 <= i < |segs| ensures NoColon(segs[i]) {
      IdentHasNoColon(segs[i]);
    }
    IdentHasNoColon(p.cxxName.GetOr(ident));
    QualifiedNameRoundTrip(segs, p.cxxName.GetOr(ident));
  }
}
