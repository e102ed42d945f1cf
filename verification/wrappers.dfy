/** Option and Result, with the exceptions the modelled Python code can raise. */
module Wrappers {

  datatype Option<+T> = None | Some(value: T) {
    function GetOr(default: T): T {
      match this
      case Some(v) => v
      case None => default
    }
  }

  /** The Python exceptions that surface from the modelled code. */
  datatype Error =
    | UnsupportedFormat(format: string)   // UnsupportedFormatError
    | NoExtensionsToProcess                // TextChunker.__init__ with an empty extension set
    | InvalidQueryType(name: string)
    | InvalidDataSource(name: string)
    | InvalidArgument(message: string)     // ValueError / Exception raised on purpose
    | KeyMissing(key: string)              // KeyError
    | IndexOutOfRange                      // IndexError
    | TypeMismatch                         // TypeError, AttributeError
    | UnpackMismatch                       // ValueError from tuple unpacking
    | RecursionLimit                       // RecursionError
    | ParseFailure                         // an abstract parser that gave up
    | DivisionByZero                       // ZeroDivisionError

  datatype Result<+T> = Success(value: T) | Failure(error: Error) {
    predicate IsFailure() { Failure? }
    function PropagateFailure<U>(): Result<U>
      requires Failure?
    {
      Failure(error)
    }
    function Extract(): T
      requires Success?
    {
      value
    }
  }

  /** A loop that applies `f` to each element in turn, collecting the
      results and stopping at the first exception: the results in order, or
      the error of the first element that fails. */
  function ForEach<A, B>(f: A -> Result<B>, xs: seq<A>): Result<seq<B>>
    decreases |xs|
  {
    if xs == [] then Success([])
    else
      var front :- ForEach(f, xs[..|xs| - 1]);
      var last :- f(xs[|xs| - 1]);
      Success(front + [last])
  }

  /** One result per element, in order; a failure is the failure of the
      first element that fails. */
  lemma {:induction false} ForEachFacts<A, B>(f: A -> Result<B>, xs: seq<A>)
    ensures var r := ForEach(f, xs);
            (r.Success? <==> forall i :: 0 <= i < |xs| ==> f(xs[i]).Success?)
            && (r.Success? ==> |r.value| == |xs| && forall i :: 0 <= i < |xs| ==> r.value[i] == f(xs[i]).value)
            && (r.Failure? ==> exists k :: 0 <= k < |xs| && f(xs[k]).Failure? && r.error == f(xs[k]).error
                                           && forall i :: 0 <= i < k ==> f(xs[i]).Success?)
    decreases |xs|
  {
    if xs != [] {
      var front := xs[..|xs| - 1];
      ForEachFacts(f, front);
      assert forall i :: 0 <= i < |front| ==> front[i] == xs[i];
    }
  }

  /** Once the elements so far include one that fails, the whole loop fails
      with its error. */
  lemma {:induction false} ForEachPrefixFailure<A, B>(f: A -> Result<B>, xs: seq<A>, k: nat)
    requires k <= |xs|
    requires ForEach(f, xs[..k]).Failure?
    ensures ForEach(f, xs) == ForEach(f, xs[..k])
    decreases |xs|
  {
    if k == |xs| {
      assert xs[..k] == xs;
    } else {
      var front := xs[..|xs| - 1];
      assert front[..k] == xs[..k];
      ForEachPrefixFailure(f, front, k);
    }
  }

  /** One more element that succeeds adds its result at the end. */
  lemma ForEachSnoc<A, B>(f: A -> Result<B>, xs: seq<A>, i: nat, done: seq<B>, y: B)
    requires i < |xs|
    requires ForEach(f, xs[..i]) == Success(done)
    requires f(xs[i]) == Success(y)
    ensures ForEach(f, xs[..i + 1]) == Success(done + [y])
  {
    assert xs[..i + 1][..i] == xs[..i];
  }

  /** A failing element after elements that all succeed ends the whole
      loop with its error. */
  lemma ForEachFailAt<A, B>(f: A -> Result<B>, xs: seq<A>, i: nat)
    requires i < |xs|
    requires ForEach(f, xs[..i]).Success?
    requires f(xs[i]).Failure?
    ensures ForEach(f, xs) == Failure(f(xs[i]).error)
  {
    assert xs[..i + 1][..i] == xs[..i];
    ForEachPrefixFailure(f, xs, i + 1);
  }

  /** The loop itself. */
  method ForEachMethod<A, B>(f: A -> Result<B>, xs: seq<A>) returns (r: Result<seq<B>>)
    ensures r == ForEach(f, xs)
  {
    var done: seq<B> := [];
    for i := 0 to |xs|
      invariant ForEach(f, xs[..i]) == Success(done)
    {
      var y := f(xs[i]);
      match y {
        case Failure(e) =>
          assert ForEach(f, xs[..i + 1]) == Failure(e) by {
            assert xs[..i + 1][..i] == xs[..i];
          }
          ForEachPrefixFailure(f, xs, i + 1);
          return Failure(e);
        case Success(v) =>
          ForEachSnoc(f, xs, i, done, v);
          done := done + [v];
      }
    }
    assert xs[..|xs|] == xs;
    r := Success(done);
  }

  /** A loop that threads a state through the elements and stops at the
      first step that fails. */
  function Loop<S, A>(step: (S, A) -> Result<S>, s: S, xs: seq<A>): Result<S>
    decreases |xs|
  {
    if xs == [] then Success(s)
    else
      var t :- Loop(step, s, xs[..|xs| - 1]);
      step(t, xs[|xs| - 1])
  }

  /** Once a prefix fails, the whole loop fails with its error. */
  lemma {:induction false} LoopPrefixFailure<S, A>(step: (S, A) -> Result<S>, s: S, xs: seq<A>, k: nat)
    requires k <= |xs| && Loop(step, s, xs[..k]).Failure?
    ensures Loop(step, s, xs) == Loop(step, s, xs[..k])
    decreases |xs|
  {
    if k == |xs| {
      assert xs[..k] == xs;
    } else {
      var front := xs[..|xs| - 1];
      assert front[..k] == xs[..k];
      LoopPrefixFailure(step, s, front, k);
    }
  }

  /** One more step. */
  lemma LoopSnoc<S, A>(step: (S, A) -> Result<S>, s: S, xs: seq<A>, i: nat, t: S)
    requires i < |xs| && Loop(step, s, xs[..i]) == Success(t)
    ensures Loop(step, s, xs[..i + 1]) == step(t, xs[i])
  {
    assert xs[..i + 1][..i] == xs[..i];
  }

  /** Looping over `a + b` is looping over `a`, then over `b` from where
      that left off. */
  lemma {:induction false} LoopAppend<S, A>(step: (S, A) -> Result<S>, s: S, a: seq<A>, b: seq<A>)
    ensures Loop(step, s, a + b) == match Loop(step, s, a)
                                    case Failure(e) => Failure(e)
                                    case Success(t) => Loop(step, t, b)
    decreases |b|
  {
    if b == [] {
      assert a + b == a;
    } else {
      var b' := b[..|b| - 1];
      LoopAppend(step, s, a, b');
      assert (a + b)[..|a + b| - 1] == a + b';
      assert (a + b)[|a + b| - 1] == b[|b| - 1];
    }
  }
}
