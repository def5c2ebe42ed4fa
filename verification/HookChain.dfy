/** withHooks and withInterceptors: loop-built compositions of wrappers around one action.

    W is everything a call may change: the database, and the mutation or query of the
    builder. A value or mutation of an unexpected dynamic type is `Alien`. */
module HookChain {
  import opened Wrappers

  datatype Dynamic<+T> = Typed(value: T) | Alien

  datatype ChainError<+E> =
    | Raised(error: E)
    | UnexpectedMutation
    | UnexpectedValue
    | UninitializedHook

  type Call<!W, !A, V, E> = (W, Dynamic<A>) -> (W, Result<Dynamic<V>, ChainError<E>>)

  type Wrapper<!W, !A, !V, !E> = Call<W, A, V, E> -> Call<W, A, V, E>

  // w0(w1(... exec)).
  function Compose<W, A, V, E>(wrappers: seq<Wrapper<W, A, V, E>>, exec: Call<W, A, V, E>): Call<W, A, V, E>
  {
    if wrappers == [] then exec else wrappers[0](Compose(wrappers[1..], exec))
  }

  // The innermost mutator: the mutation it is given becomes the builder's own.
  function Base<W, A, V, E>(set_: (W, A) -> W, exec: W -> (W, Result<V, E>)): Call<W, A, V, E>
  {
    (w: W, m: Dynamic<A>) => if m.Alien? then (w, Err(UnexpectedMutation)) else Execute(exec, set_(w, m.value))
  }

  function Execute<W, V, E>(exec: W -> (W, Result<V, E>), w: W): (W, Result<Dynamic<V>, ChainError<E>>)
  {
    match exec(w)
    case (after, Ok(v)) => (after, Ok(Typed(v)))
    case (after, Err(e)) => (after, Err(Raised(e)))
  }

  // The type assertion on what the outermost wrapper returned.
  function Narrow<V, E>(r: Result<Dynamic<V>, ChainError<E>>): Result<V, ChainError<E>>
  {
    match r
    case Err(e) => Err(e)
    case Ok(Alien) => Err(UnexpectedValue)
    case Ok(Typed(v)) => Ok(v)
  }

  // What comes out of the last call: the value, if it is of the expected type.
  ghost predicate Asserted<V, E>(last: Result<Dynamic<V>, ChainError<E>>, r: Result<V, ChainError<E>>)
  {
    match r
    case Ok(v) => last == Ok(Typed(v))
    case Err(e) => last == Err(e) || (last == Ok(Alien) && e == UnexpectedValue)
  }

  /** With no hooks the action just runs; a nil hook means that nothing runs; otherwise the
      first hook is outermost. */
  method WithHooks<W, A, V, E>(
    set_: (W, A) -> W, exec: W -> (W, Result<V, E>), hooks: seq<Option<Wrapper<W, A, V, E>>>, w: W, mutation: A)
    returns (after: W, r: Result<V, ChainError<E>>)
    ensures hooks == [] ==>
              && after == exec(w).0 && (exec(w).1.Ok? ==> r == Ok(exec(w).1.value))
              && (exec(w).1.Err? ==> r == Err(Raised(exec(w).1.error)))
    ensures (exists i :: 0 <= i < |hooks| && hooks[i].None?) ==> after == w && r == Err(UninitializedHook)
    ensures hooks != [] && (forall i | 0 <= i < |hooks| :: hooks[i].Some?) ==>
              var (end, last) := Compose(Values(hooks), Base(set_, exec))(w, Typed(mutation));
              after == end && r == Narrow(last) && Asserted(last, r)
  {
    if hooks == [] {
      var (end, result) := exec(w);
      return end, if result.Ok? then Ok(result.value) else Err(Raised(result.error));
    }
    var mut: Call<W, A, V, E> := Base(set_, exec);
    var i := |hooks|;
    while i > 0
      invariant 0 <= i <= |hooks|
      invariant forall k | i <= k < |hooks| :: hooks[k].Some?
      invariant mut == Compose(Values(hooks[i..]), Base(set_, exec))
    {
      i := i - 1;
      if hooks[i].None? {
        return w, Err(UninitializedHook);
      }
      mut := hooks[i].value(mut);
      assert Values(hooks[i..])[1..] == Values(hooks[i + 1..]);
    }
    assert hooks[0..] == hooks;
    var (end, last) := mut(w, Typed(mutation));
    return end, Narrow(last);
  }

  method WithInterceptors<W, A, V, E>(
    querier: Call<W, A, V, E>, inters: seq<Wrapper<W, A, V, E>>, w: W, query: A)
    returns (after: W, r: Result<V, ChainError<E>>)
    ensures var (end, last) := Compose(inters, querier)(w, Typed(query));
              after == end && r == Narrow(last) && Asserted(last, r)
  {
    var qr := querier;
    var i := |inters|;
    while i > 0
      invariant 0 <= i <= |inters|
      invariant qr == Compose(inters[i..], querier)
    {
      i := i - 1;
      qr := inters[i](qr);
      assert inters[i..][1..] == inters[i + 1..];
    }
    assert inters[0..] == inters;
    var (end, last) := qr(w, Typed(query));
    return end, Narrow(last);
  }

  // A chain can be cut anywhere: the inner part is what the outer part wraps.
  lemma {:induction false} ComposeSplit<W, A, V, E>(
    outer: seq<Wrapper<W, A, V, E>>, inner: seq<Wrapper<W, A, V, E>>, exec: Call<W, A, V, E>)
    ensures Compose(outer + inner, exec) == Compose(outer, Compose(inner, exec))
  {
    if outer == [] {
      assert outer + inner == inner;
    } else {
      assert (outer + inner)[1..] == outer[1..] + inner;
      ComposeSplit(outer[1..], inner, exec);
    }
  }

  // A wrapper that never calls what it wraps.
  ghost predicate Ignores<W(!new), A(!new), V(!new), E(!new)>(wrapper: Wrapper<W, A, V, E>)
  {
    forall f, g :: wrapper(f) == wrapper(g)
  }

  /** Behind a wrapper that does not call on, neither the later wrappers nor the action make
      a difference. */
  lemma Cut<W(!new), A(!new), V(!new), E(!new)>(
    wrappers: seq<Wrapper<W, A, V, E>>, k: nat, others: seq<Wrapper<W, A, V, E>>, exec: Call<W, A, V, E>,
    other: Call<W, A, V, E>)
    requires k < |wrappers| && Ignores(wrappers[k])
    ensures Compose(wrappers, exec) == Compose(wrappers[..k + 1] + others, other)
  {
    assert wrappers == wrappers[..k] + wrappers[k..];
    assert wrappers[..k + 1] + others == wrappers[..k] + ([wrappers[k]] + others);
    ComposeSplit(wrappers[..k], wrappers[k..], exec);
    ComposeSplit(wrappers[..k], [wrappers[k]] + others, other);
    assert wrappers[k](Compose(wrappers[k..][1..], exec)) == wrappers[k](Compose(([wrappers[k]] + others)[1..], other));
  }

  // A wrapper that acts before and after the call, and returns what the call returned.
  datatype Around<!W> = Around(before: W -> W, after: W -> W)

  function Bracket<W, A, V, E>(a: Around<W>): Wrapper<W, A, V, E>
  {
    (call: Call<W, A, V, E>) => Inside(a, call)
  }

  function Inside<W, A, V, E>(a: Around<W>, call: Call<W, A, V, E>): Call<W, A, V, E>
  {
    (w, m) => (a.after(call(a.before(w), m).0), call(a.before(w), m).1)
  }

  function Brackets<W, A, V, E>(arounds: seq<Around<W>>): seq<Wrapper<W, A, V, E>>
  {
    if arounds == [] then [] else [Bracket(arounds[0])] + Brackets(arounds[1..])
  }

  // The entries, first wrapper first; the exits, first wrapper last.
  function Enter<W>(arounds: seq<Around<W>>, w: W): W
  {
    if arounds == [] then w else Enter(arounds[1..], arounds[0].before(w))
  }

  function Leave<W>(arounds: seq<Around<W>>, w: W): W
  {
    if arounds == [] then w else Leave(arounds[..|arounds| - 1], arounds[|arounds| - 1].after(w))
  }

  lemma {:induction false} LeaveLastByFirst<W>(arounds: seq<Around<W>>, w: W)
    requires arounds != []
    ensures Leave(arounds, w) == arounds[0].after(Leave(arounds[1..], w))
  {
    var n := |arounds| - 1;
    if n == 0 {
    } else {
      LeaveLastByFirst(arounds[..n], arounds[n].after(w));
      assert arounds[..n][1..] == arounds[1..][..n - 1];
    }
  }

  /** Entries happen in the order of the list, exits in reverse, and the action runs once in
      between with the result passed through. */
  lemma {:induction false} Nested<W, A, V, E>(arounds: seq<Around<W>>, exec: Call<W, A, V, E>, w: W, m: Dynamic<A>)
    ensures Compose(Brackets(arounds), exec)(w, m) ==
            (Leave(arounds, exec(Enter(arounds, w), m).0), exec(Enter(arounds, w), m).1)
  {
    if arounds == [] {
    } else {
      var rest: seq<Wrapper<W, A, V, E>> := Brackets(arounds[1..]);
      assert Brackets<W, A, V, E>(arounds)[1..] == rest;
      Nested(arounds[1..], exec, arounds[0].before(w), m);
      LeaveLastByFirst(arounds, exec(Enter(arounds, w), m).0);
    }
  }

  // A hook that calls on with a mutation of its own choice.
  function Handing<W, A, V, E>(x: Dynamic<A>): Wrapper<W, A, V, E>
  {
    (next: Call<W, A, V, E>) => Handed(x, next)
  }

  function Handed<W, A, V, E>(x: Dynamic<A>, next: Call<W, A, V, E>): Call<W, A, V, E>
  {
    (w, _: Dynamic<A>) => next(w, x)
  }

  function Handings<W, A, V, E>(xs: seq<Dynamic<A>>): seq<Wrapper<W, A, V, E>>
  {
    if xs == [] then [] else [Handing(xs[0])] + Handings(xs[1..])
  }

  /** The mutation that the innermost hook hands on is the one the action works with: it is
      stored as the builder's own before the action runs. One of another type stops the call. */
  lemma {:induction false} HandedOn<W, A, V, E>(
    set_: (W, A) -> W, exec: W -> (W, Result<V, E>), xs: seq<Dynamic<A>>, w: W, mutation: Dynamic<A>)
    ensures var last := if xs == [] then mutation else xs[|xs| - 1];
      var (end, r) := Compose(Handings(xs), Base(set_, exec))(w, mutation);
      match last
      case Alien => end == w && r == Err(UnexpectedMutation)
      case Typed(a) =>
        && end == exec(set_(w, a)).0
        && (exec(set_(w, a)).1.Ok? ==> r == Ok(Typed(exec(set_(w, a)).1.value)))
        && (exec(set_(w, a)).1.Err? ==> r == Err(Raised(exec(set_(w, a)).1.error)))
  {
    if xs == [] {
    } else {
      var rest: seq<Wrapper<W, A, V, E>> := Handings(xs[1..]);
      assert Handings<W, A, V, E>(xs)[1..] == rest;
      HandedOn(set_, exec, xs[1..], w, xs[0]);
    }
  }
}
