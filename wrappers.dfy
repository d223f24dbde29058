/**
 * Optional values, results, and the exception kinds the Java code throws.
 * A Java `null` becomes `None`; a thrown exception becomes `Failure(kind)`.
 */
module Wrappers {
  datatype Option<T> = None | Some(value: T)

  /** The exception classes that the modelled code raises. */
  datatype Error =
    | AppError              // net.swumeta.cli.AppException
    | IllegalArgumentError  // IllegalArgumentException (Spring Assert, negative bag counts, Random.nextInt(0))
    | NumberFormatError     // NumberFormatException from Integer.parseInt
    | NullPointerError      // NullPointerException, from a cache asked for a null key
    | RuntimeError          // plain RuntimeException

  datatype Result<T> = Success(value: T) | Failure(error: Error)
  {
    predicate IsFailure() {
      Failure?
    }

    function PropagateFailure<U>(): Result<U>
      requires Failure?
    {
      Failure(this.error)
    }

    function Extract(): T
      requires Success?
    {
      value
    }
  }
  /** The values `f` gives for the items of `s`, in order, skipping the items it maps to `None`. */
  function FilterMap<A, B>(f: A -> Option<B>, s: seq<A>): (r: seq<B>)
    ensures |r| <= |s|
  {
    if s == [] then []
    else FilterMap(f, s[..|s| - 1]) + (match f(s[|s| - 1]) case None => [] case Some(v) => [v])
  }

  /** One more item adds its value, if it has one. */
  lemma FilterMapStep<A, B>(f: A -> Option<B>, s: seq<A>, i: nat)
    requires i < |s|
    ensures FilterMap(f, s[..i + 1]) == FilterMap(f, s[..i]) + (match f(s[i]) case None => [] case Some(v) => [v])
  {
    assert s[..i + 1][..i] == s[..i];
  }

  /** A value is kept exactly when some item maps to it. */
  lemma {:induction false} FilterMapMembers<A, B>(f: A -> Option<B>, s: seq<A>, v: B)
    ensures v in FilterMap(f, s) <==> exists i :: 0 <= i < |s| && f(s[i]) == Some(v)
    decreases |s|
  {
    if s != [] {
      var init := s[..|s| - 1];
      FilterMapMembers(f, init, v);
      assert forall i :: 0 <= i < |init| ==> init[i] == s[i];
    }
  }

  /** When every item has a value, each one is kept, in place. */
  lemma {:induction false} FilterMapAllSome<A, B>(f: A -> Option<B>, s: seq<A>)
    requires forall i :: 0 <= i < |s| ==> f(s[i]).Some?
    ensures |FilterMap(f, s)| == |s|
    ensures forall i :: 0 <= i < |s| ==> FilterMap(f, s)[i] == f(s[i]).value
    decreases |s|
  {
    if s != [] {
      var init := s[..|s| - 1];
      FilterMapAllSome(f, init);
      assert forall i :: 0 <= i < |init| ==> init[i] == s[i];
    }
  }
}
