/** Option and Result, and the ordered "apply to each element, stop at the first
    failure" traversal that every append-in-a-loop of the dashboard follows. */
module Wrappers {

  datatype Option<+T> = None | Some(value: T)

  /** A computation that either produced a value or raised an error. */
  datatype Result<+T, +E> = Success(value: T) | Failure(error: E) {
    predicate IsFailure() { Failure? }

    function PropagateFailure<U>(): Result<U, E>
      requires Failure?
    {
      Failure(error)
    }

    function Extract(): T
      requires Success?
    {
      value
    }
  }

  /** Applies `f` to every element together with its position, in order, and
      collects the results; the first failure stops the walk and is returned,
      as an exception raised inside a Python loop that appends to a list. */
  function Traverse<A, B, E>(f: (A, nat) -> Result<B, E>, s: seq<A>): (r: Result<seq<B>, E>)
    ensures r.Success? ==> |r.value| == |s|
  {
    if s == [] then Success([])
    else
      var done :- Traverse(f, s[..|s| - 1]);
      var last :- f(s[|s| - 1], |s| - 1);
      Success(done + [last])
  }

  /** A traversal succeeds exactly when every element succeeds, and then it holds
      every element's result at that element's position. */
  lemma {:induction false} TraverseAll<A, B, E>(f: (A, nat) -> Result<B, E>, s: seq<A>)
    ensures Traverse(f, s).Success? <==> forall i :: 0 <= i < |s| ==> f(s[i], i).Success?
    ensures Traverse(f, s).Success? ==>
              forall i :: 0 <= i < |s| ==> f(s[i], i) == Success(Traverse(f, s).value[i])
  {
    if s != [] {
      var init := s[..|s| - 1];
      TraverseAll(f, init);
      assert forall i :: 0 <= i < |init| ==> init[i] == s[i];
    }
  }

  /** Once a prefix has failed, the rest of the sequence is never looked at. */
  lemma {:induction false} TraverseStops<A, B, E>(f: (A, nat) -> Result<B, E>, s: seq<A>, j: nat)
    requires j <= |s| && Traverse(f, s[..j]).Failure?
    ensures Traverse(f, s) == Traverse(f, s[..j])
  {
    if j < |s| {
      assert s[..|s| - 1][..j] == s[..j];
      TraverseStops(f, s[..|s| - 1], j);
    } else {
      assert s[..j] == s;
    }
  }

  /** One step of a loop over `s`: the traversal of one more element. */
  lemma TraverseExtend<A, B, E>(f: (A, nat) -> Result<B, E>, s: seq<A>, i: nat)
    requires i < |s|
    ensures Traverse(f, s[..i + 1]) ==
              if Traverse(f, s[..i]).Failure? then Traverse(f, s[..i])
              else if f(s[i], i).Failure? then Failure(f(s[i], i).error)
              else Success(Traverse(f, s[..i]).value + [f(s[i], i).value])
  {
    assert s[..i + 1][..i] == s[..i];
  }
}
