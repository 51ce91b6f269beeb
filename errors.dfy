/** `syn::Error` and the `Errors` accumulator of the attribute macro. */
module MacroErrors {
  import opened Wrappers

  /** A `syn::Error` is a non-empty list of messages; `combine` appends the
      messages of another error. */
  datatype SynError = SynError(messages: seq<string>)

  /** `SynError::new`/`new_spanned` with one message. */
  function Single(text: string): SynError
  {
    SynError([text])
  }

  /** The messages of a list of errors, in order. */
  function Flatten(errs: seq<SynError>): (ms: seq<string>)
    ensures |errs| == 0 ==> ms == []
  {
    if errs == [] then [] else Flatten(errs[..|errs| - 1]) + errs[|errs| - 1].messages
  }

  /** Flattening distributes over concatenation. */
  lemma {:induction false} FlattenAppend(a: seq<SynError>, b: seq<SynError>)
    ensures Flatten(a + b) == Flatten(a) + Flatten(b)
    decreases |b|
  {
    if b == [] {
      assert a + b == a;
    } else {
      assert (a + b)[..|a + b| - 1] == a + b[..|b| - 1];
      FlattenAppend(a, b[..|b| - 1]);
    }
  }

  /** `struct Errors { errors: Vec<syn::Error> }`. */
  class Errors {
    var errors: seq<SynError>

    /** `Errors::new()`. */
    constructor()
      ensures errors == []
    {
      errors := [];
    }

    /** `push(error)`. */
    method Push(e: SynError)
      modifies this
      ensures errors == old(errors) + [e]
    {
      errors := errors + [e];
    }

    /** `propagate()`: drains the list; `Ok(())` when it was empty, otherwise
        the first error with every later one combined into it, in order. */
    method Propagate() returns (r: Result<(), SynError>)
      modifies this
      ensures errors == []
      ensures r.Success? <==> old(errors) == []
      ensures r.Failure? ==> r.error.messages == Flatten(old(errors))
    {
      var drained := errors;
      errors := [];
      if drained == [] {
        return Success(());
      }
      var all := drained[0];
      assert drained[..1] == [drained[0]];
      assert Flatten(drained[..1]) == Flatten([]) + drained[0].messages;
      var k := 1;
      while k < |drained|
        invariant 1 <= k <= |drained|
        invariant all.messages == Flatten(drained[..k])
      {
        assert drained[..k + 1][..k] == drained[..k];
        all := SynError(all.messages + drained[k].messages);
        k := k + 1;
      }
      assert drained[..k] == drained;
      r := Failure(all);
    }
  }
}
