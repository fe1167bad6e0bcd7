/** The combinator template that every generated functional interface instantiates.

    A call of a body runs against the world state `S` (the heap, including the contents
    of arrays, and anything else a user-supplied lambda may touch) and completes either
    normally with a value or abruptly with an exception, leaving a new state in both cases.
    Keeping the state and the exception in the model makes the evaluation order of the
    compound lambdas observable: which operand ran, in which order, and what it saw. */
module Combinators {
  import opened Java

  datatype Completion<+V, +S> = Return(value: V, state: S) | Throw(exception: Exception, state: S)

  /** The abstract method of a functional interface: arguments `A`, result `V`. */
  type Body<!A, V, !S> = (A, S) -> Completion<V, S>

  /** Java's left-to-right evaluation: if `c` completed normally, continue with `k` on its
      value in the state it left; an exception propagates unchanged and `k` is not run. */
  function Then<V, W, S>(c: Completion<V, S>, k: (V, S) -> Completion<W, S>): Completion<W, S>
  {
    match c
    case Return(v, s) => k(v, s)
    case Throw(e, s) => Throw(e, s)
  }

  /** Two bodies that complete identically on every argument and state. */
  ghost predicate Agree<A(!new), V, S(!new)>(f: Body<A, V, S>, g: Body<A, V, S>)
  {
    forall a, s :: f(a, s) == g(a, s)
  }

  // ---------------------------------------------------------------------------------
  // What each compound promises, stated in terms of how its operands complete.

  /** `r` is the logical intersection of `p` and `q`: `p` runs first; when it yields false,
      `q` is not run and `r` completes exactly as `p` did; when it yields true, `q` runs on
      the same arguments in the state `p` left and decides the outcome. */
  ghost predicate ShortCircuitAnd<A(!new), S(!new)>(p: Body<A, bool, S>, q: Body<A, bool, S>, r: Body<A, bool, S>)
  {
    forall a, s ::
      match p(a, s)
      case Return(b, s1) => r(a, s) == (if b then q(a, s1) else Return(false, s1))
      case Throw(e, s1) => r(a, s) == Throw(e, s1)
  }

  /** `r` is the logical union of `p` and `q`: `q` is not run when `p` yields true. */
  ghost predicate ShortCircuitOr<A(!new), S(!new)>(p: Body<A, bool, S>, q: Body<A, bool, S>, r: Body<A, bool, S>)
  {
    forall a, s ::
      match p(a, s)
      case Return(b, s1) => r(a, s) == (if b then Return(true, s1) else q(a, s1))
      case Throw(e, s1) => r(a, s) == Throw(e, s1)
  }

  /** `r` is the logical negation of `p`: same effects, complemented result. */
  ghost predicate Complement<A(!new), S(!new)>(p: Body<A, bool, S>, r: Body<A, bool, S>)
  {
    forall a, s ::
      match p(a, s)
      case Return(b, s1) => r(a, s) == Return(!b, s1)
      case Throw(e, s1) => r(a, s) == Throw(e, s1)
  }

  /** `r` runs consumer `c` and then consumer `d` on the same arguments; `d` does not run
      when `c` throws. */
  ghost predicate RunsInSequence<A(!new), S(!new)>(c: Body<A, (), S>, d: Body<A, (), S>, r: Body<A, (), S>)
  {
    forall a, s ::
      match c(a, s)
      case Return(_, s1) => r(a, s) == d(a, s1)
      case Throw(e, s1) => r(a, s) == Throw(e, s1)
  }

  /** `r` applies `f` to its arguments and then `g` to `f`'s result (and to nothing else). */
  ghost predicate PipesInto<A(!new), V, W, S(!new)>(f: Body<A, V, S>, g: Body<V, W, S>, r: Body<A, W, S>)
  {
    forall a, s ::
      match f(a, s)
      case Return(v, s1) => r(a, s) == g(v, s1)
      case Throw(e, s1) => r(a, s) == Throw(e, s1)
  }

  /** `r` always completes normally with its argument, changing nothing. */
  ghost predicate ReturnsInput<A(!new), S(!new)>(r: Body<A, A, S>)
  {
    forall a, s :: r(a, s) == Return(a, s)
  }

  // ---------------------------------------------------------------------------------
  // The lambdas the generated default methods return.

  /** `(args) -> test(args) && other.test(args)` */
  function Conj<A(!new), S(!new)>(p: Body<A, bool, S>, q: Body<A, bool, S>): (r: Body<A, bool, S>)
    ensures ShortCircuitAnd(p, q, r)
  {
    (a, s) => Then(p(a, s), (b, s1) => if b then q(a, s1) else Return(false, s1))
  }

  /** `(args) -> test(args) || other.test(args)` */
  function Disj<A(!new), S(!new)>(p: Body<A, bool, S>, q: Body<A, bool, S>): (r: Body<A, bool, S>)
    ensures ShortCircuitOr(p, q, r)
  {
    (a, s) => Then(p(a, s), (b, s1) => if b then Return(true, s1) else q(a, s1))
  }

  /** `(args) -> !test(args)` */
  function Neg<A(!new), S(!new)>(p: Body<A, bool, S>): (r: Body<A, bool, S>)
    ensures Complement(p, r)
  {
    (a, s) => Then(p(a, s), (b, s1) => Return(!b, s1))
  }

  /** `(args) -> { accept(args); after.accept(args); }` */
  function Sequence<A(!new), S(!new)>(c: Body<A, (), S>, d: Body<A, (), S>): (r: Body<A, (), S>)
    ensures RunsInSequence(c, d, r)
  {
    (a, s) => Then(c(a, s), (_, s1) => d(a, s1))
  }

  /** `(args) -> after.apply(apply(args))`, and for a unary operator `compose`, whose
      `before` runs first: `x -> applyAsX(before.applyAsX(x))` is `Pipe(before, this)`. */
  function Pipe<A(!new), V, W, S(!new)>(f: Body<A, V, S>, g: Body<V, W, S>): (r: Body<A, W, S>)
    ensures PipesInto(f, g, r)
  {
    (a, s) => Then(f(a, s), (v, s1) => g(v, s1))
  }

  /** `x -> x` */
  function Identity<A(!new), S(!new)>(): (r: Body<A, A, S>)
    ensures ReturnsInput(r)
  {
    (a, s) => Return(a, s)
  }

  // ---------------------------------------------------------------------------------
  // The promises pin the compound down: any two lambdas that keep one agree everywhere.

  lemma ShortCircuitAndDetermines<A(!new), S(!new)>(p: Body<A, bool, S>, q: Body<A, bool, S>, r1: Body<A, bool, S>, r2: Body<A, bool, S>)
    requires ShortCircuitAnd(p, q, r1) && ShortCircuitAnd(p, q, r2)
    ensures Agree(r1, r2)
  {
    forall a, s ensures r1(a, s) == r2(a, s) {
      match p(a, s)
      case Return(b, s1) =>
      case Throw(e, s1) =>
    }
  }

  lemma ShortCircuitOrDetermines<A(!new), S(!new)>(p: Body<A, bool, S>, q: Body<A, bool, S>, r1: Body<A, bool, S>, r2: Body<A, bool, S>)
    requires ShortCircuitOr(p, q, r1) && ShortCircuitOr(p, q, r2)
    ensures Agree(r1, r2)
  {
    forall a, s ensures r1(a, s) == r2(a, s) {
      match p(a, s)
      case Return(b, s1) =>
      case Throw(e, s1) =>
    }
  }

  lemma RunsInSequenceDetermines<A(!new), S(!new)>(c: Body<A, (), S>, d: Body<A, (), S>, r1: Body<A, (), S>, r2: Body<A, (), S>)
    requires RunsInSequence(c, d, r1) && RunsInSequence(c, d, r2)
    ensures Agree(r1, r2)
  {
    forall a, s ensures r1(a, s) == r2(a, s) {
      match c(a, s)
      case Return(_, s1) =>
      case Throw(e, s1) =>
    }
  }

  lemma PipesIntoDetermines<A(!new), V, W, S(!new)>(f: Body<A, V, S>, g: Body<V, W, S>, r1: Body<A, W, S>, r2: Body<A, W, S>)
    requires PipesInto(f, g, r1) && PipesInto(f, g, r2)
    ensures Agree(r1, r2)
  {
    forall a, s ensures r1(a, s) == r2(a, s) {
      match f(a, s)
      case Return(v, s1) =>
      case Throw(e, s1) =>
    }
  }

  // ---------------------------------------------------------------------------------
  // Algebraic laws. They hold for effectful and throwing operands alike, because both
  // sides run the same operands in the same order.

  lemma DoubleNegation<A(!new), S(!new)>(p: Body<A, bool, S>)
    ensures Agree(Neg(Neg(p)), p)
  {
    forall a, s ensures Neg(Neg(p))(a, s) == p(a, s) {
      match p(a, s)
      case Return(b, s1) =>
      case Throw(e, s1) =>
    }
  }

  /** `p.and(q).negated()` agrees with `p.negated().or(q.negated())`. */
  lemma DeMorganAnd<A(!new), S(!new)>(p: Body<A, bool, S>, q: Body<A, bool, S>)
    ensures Agree(Neg(Conj(p, q)), Disj(Neg(p), Neg(q)))
  {
    forall a, s ensures Neg(Conj(p, q))(a, s) == Disj(Neg(p), Neg(q))(a, s) {
      match p(a, s)
      case Return(b, s1) =>
        if b {
          match q(a, s1)
          case Return(b2, s2) =>
          case Throw(e2, s2) =>
        }
      case Throw(e, s1) =>
    }
  }

  /** `p.or(q).negated()` agrees with `p.negated().and(q.negated())`. */
  lemma DeMorganOr<A(!new), S(!new)>(p: Body<A, bool, S>, q: Body<A, bool, S>)
    ensures Agree(Neg(Disj(p, q)), Conj(Neg(p), Neg(q)))
  {
    forall a, s ensures Neg(Disj(p, q))(a, s) == Conj(Neg(p), Neg(q))(a, s) {
      match p(a, s)
      case Return(b, s1) =>
        if !b {
          match q(a, s1)
          case Return(b2, s2) =>
          case Throw(e2, s2) =>
        }
      case Throw(e, s1) =>
    }
  }

  lemma ConjAssociative<A(!new), S(!new)>(p: Body<A, bool, S>, q: Body<A, bool, S>, t: Body<A, bool, S>)
    ensures Agree(Conj(Conj(p, q), t), Conj(p, Conj(q, t)))
  {
    forall a, s ensures Conj(Conj(p, q), t)(a, s) == Conj(p, Conj(q, t))(a, s) {
      match p(a, s)
      case Return(b, s1) =>
        if b {
          match q(a, s1)
          case Return(b2, s2) =>
          case Throw(e2, s2) =>
        }
      case Throw(e, s1) =>
    }
  }

  lemma DisjAssociative<A(!new), S(!new)>(p: Body<A, bool, S>, q: Body<A, bool, S>, t: Body<A, bool, S>)
    ensures Agree(Disj(Disj(p, q), t), Disj(p, Disj(q, t)))
  {
    forall a, s ensures Disj(Disj(p, q), t)(a, s) == Disj(p, Disj(q, t))(a, s) {
      match p(a, s)
      case Return(b, s1) =>
        if !b {
          match q(a, s1)
          case Return(b2, s2) =>
          case Throw(e2, s2) =>
        }
      case Throw(e, s1) =>
    }
  }

  lemma SequenceAssociative<A(!new), S(!new)>(c: Body<A, (), S>, d: Body<A, (), S>, e: Body<A, (), S>)
    ensures Agree(Sequence(Sequence(c, d), e), Sequence(c, Sequence(d, e)))
  {
    forall a, s ensures Sequence(Sequence(c, d), e)(a, s) == Sequence(c, Sequence(d, e))(a, s) {
      match c(a, s)
      case Return(_, s1) => {
        match d(a, s1)
        case Return(_, s2) =>
        case Throw(x2, s2) =>
      }
      case Throw(x, s1) =>
    }
  }

  /** `f.andThen(g).andThen(h)` agrees with `f.andThen(g.andThen(h))`: chaining two
      transforms is the same as applying their composition. */
  lemma PipeAssociative<A(!new), V(!new), W(!new), X, S(!new)>(f: Body<A, V, S>, g: Body<V, W, S>, h: Body<W, X, S>)
    ensures Agree(Pipe(Pipe(f, g), h), Pipe(f, Pipe(g, h)))
  {
    forall a, s ensures Pipe(Pipe(f, g), h)(a, s) == Pipe(f, Pipe(g, h))(a, s) {
      match f(a, s)
      case Return(v, s1) => {
        match g(v, s1)
        case Return(w, s2) =>
        case Throw(e2, s2) =>
      }
      case Throw(e, s1) =>
    }
  }

  /** `identity()` is a unit on both sides of `andThen` (and so of `compose`). */
  lemma IdentityUnit<A(!new), S(!new)>(f: Body<A, A, S>)
    ensures Agree(Pipe(Identity(), f), f)
    ensures Agree(Pipe(f, Identity()), f)
  {
    forall a, s ensures Pipe(f, Identity())(a, s) == f(a, s) {
      match f(a, s)
      case Return(v, s1) =>
      case Throw(e, s1) =>
    }
  }

  // ---------------------------------------------------------------------------------
  // For operands without effects the compounds compute the boolean connectives.

  /** A body that always completes normally and leaves the state as it found it. */
  ghost predicate Pure<A(!new), V, S(!new)>(p: Body<A, V, S>)
  {
    forall a, s :: p(a, s).Return? && p(a, s).state == s
  }

  lemma PureConnectives<A(!new), S(!new)>(p: Body<A, bool, S>, q: Body<A, bool, S>)
    requires Pure(p) && Pure(q)
    ensures Pure(Conj(p, q)) && Pure(Disj(p, q)) && Pure(Neg(p))
    ensures forall a, s :: Conj(p, q)(a, s).value == (p(a, s).value && q(a, s).value)
    ensures forall a, s :: Disj(p, q)(a, s).value == (p(a, s).value || q(a, s).value)
    ensures forall a, s :: Neg(p)(a, s).value == !p(a, s).value
  {
  }

  // ---------------------------------------------------------------------------------
  // Observing the calls: operands that record each call they receive in a log.

  /** One call of operand number `operand` with argument tuple `argument`. */
  datatype Call<A> = Call(operand: nat, argument: A)

  /** The operand numbered `id`, computing `f` and recording its call at the end of the log. */
  function Recorded<A, V>(id: nat, f: A -> V): Body<A, V, seq<Call<A>>>
  {
    (a, log: seq<Call<A>>) => Return(f(a), log + [Call(id, a)])
  }

  /** `and`: the first operand is called once; the second is called once, with the same
      arguments, exactly when the first yields true. */
  lemma ConjCalls<A(!new)>(p: A -> bool, q: A -> bool, a: A, log: seq<Call<A>>)
    ensures Conj(Recorded(0, p), Recorded(1, q))(a, log)
         == Return(p(a) && q(a), log + [Call(0, a)] + (if p(a) then [Call(1, a)] else []))
  {
    var log1 := log + [Call(0, a)];
    assert Recorded(0, p)(a, log) == Return(p(a), log1);
    if p(a) {
      assert Recorded(1, q)(a, log1) == Return(q(a), log1 + [Call(1, a)]);
    } else {
      assert log1 + [] == log1;
    }
  }

  /** `or`: the second operand is called exactly when the first yields false. */
  lemma DisjCalls<A(!new)>(p: A -> bool, q: A -> bool, a: A, log: seq<Call<A>>)
    ensures Disj(Recorded(0, p), Recorded(1, q))(a, log)
         == Return(p(a) || q(a), log + [Call(0, a)] + (if p(a) then [] else [Call(1, a)]))
  {
    var log1 := log + [Call(0, a)];
    assert Recorded(0, p)(a, log) == Return(p(a), log1);
    if p(a) {
      assert log1 + [] == log1;
    } else {
      assert Recorded(1, q)(a, log1) == Return(q(a), log1 + [Call(1, a)]);
    }
  }

  /** `negated`: the operand is called exactly once. */
  lemma NegCalls<A(!new)>(p: A -> bool, a: A, log: seq<Call<A>>)
    ensures Neg(Recorded(0, p))(a, log) == Return(!p(a), log + [Call(0, a)])
  {
  }

  /** Consumer `andThen`: both run, each exactly once, this one first, on the same arguments. */
  lemma SequenceCalls<A(!new)>(c: A -> (), d: A -> (), a: A, log: seq<Call<A>>)
    ensures Sequence(Recorded(0, c), Recorded(1, d))(a, log) == Return((), log + [Call(0, a), Call(1, a)])
  {
    var log1 := log + [Call(0, a)];
    assert c(a) == ();
    assert Recorded(0, c)(a, log) == Return((), log1);
    assert Sequence(Recorded(0, c), Recorded(1, d))(a, log) == Recorded(1, d)(a, log1);
    assert d(a) == ();
    assert log1 + [Call(1, a)] == log + [Call(0, a), Call(1, a)];
  }

  /** The operand numbered `id`, computing `f` and recording only that it ran. */
  function Counted<A, V>(id: nat, f: A -> V): Body<A, V, seq<nat>>
  {
    (a, log: seq<nat>) => Return(f(a), log + [id])
  }

  /** Function `andThen`: this function runs once, first; `after` runs once, on its result. */
  lemma PipeCalls<A(!new), V, W>(f: A -> V, g: V -> W, a: A, log: seq<nat>)
    ensures Pipe(Counted(0, f), Counted(1, g))(a, log) == Return(g(f(a)), log + [0, 1])
  {
    assert Counted(0, f)(a, log) == Return(f(a), log + [0]);
    assert log + [0] + [1] == log + [0, 1];
  }
}
