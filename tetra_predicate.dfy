/** `TetraPredicate`: a predicate over four object-valued arguments, with the default methods `and`, `or` and `negated`.
    `H` is the world state a call runs against. */
module TetraPredicate {
  import opened Java
  import C = Combinators

  /** `boolean test(T t, U u, V v, W w)` */
  type TetraPredicate<!T, !U, !V, !W, !H> = C.Body<(T, U, V, W), bool, H>

  /** `and(other)`: rejects a null `other`, otherwise returns the short-circuiting
      intersection that evaluates this predicate first. */
  function And<T(!new), U(!new), V(!new), W(!new), H(!new)>(p: TetraPredicate<T, U, V, W, H>, other: Option<TetraPredicate<T, U, V, W, H>>): (r: Result<TetraPredicate<T, U, V, W, H>>)
    ensures other.None? ==> r == Failure(NullPointerException)
    ensures other.Some? ==> r.Success? && C.ShortCircuitAnd(p, other.value, r.value)
  {
    match RequireNonNull(other)
    case Failure(e) => Failure(e)
    case Success(q) => Success(C.Conj(p, q))
  }

  /** `or(other)`: rejects a null `other`, otherwise returns the short-circuiting
      union that evaluates this predicate first. */
  function Or<T(!new), U(!new), V(!new), W(!new), H(!new)>(p: TetraPredicate<T, U, V, W, H>, other: Option<TetraPredicate<T, U, V, W, H>>): (r: Result<TetraPredicate<T, U, V, W, H>>)
    ensures other.None? ==> r == Failure(NullPointerException)
    ensures other.Some? ==> r.Success? && C.ShortCircuitOr(p, other.value, r.value)
  {
    match RequireNonNull(other)
    case Failure(e) => Failure(e)
    case Success(q) => Success(C.Disj(p, q))
  }

  /** `negated()`: has no operand to check and always returns the complement. */
  function Negated<T(!new), U(!new), V(!new), W(!new), H(!new)>(p: TetraPredicate<T, U, V, W, H>): (r: TetraPredicate<T, U, V, W, H>)
    ensures C.Complement(p, r)
  {
    C.Neg(p)
  }

  /** For operands without effects, the compounds compute `&&`, `||` and `!` of the
      operands' results and leave the state alone. */
  lemma Connectives<T(!new), U(!new), V(!new), W(!new), H(!new)>(p: TetraPredicate<T, U, V, W, H>, q: TetraPredicate<T, U, V, W, H>, t: T, u: U, v: V, w: W, h: H)
    requires C.Pure(p) && C.Pure(q)
    ensures And(p, Some(q)).value((t, u, v, w), h) == C.Return(p((t, u, v, w), h).value && q((t, u, v, w), h).value, h)
    ensures Or(p, Some(q)).value((t, u, v, w), h) == C.Return(p((t, u, v, w), h).value || q((t, u, v, w), h).value, h)
    ensures Negated(p)((t, u, v, w), h) == C.Return(!p((t, u, v, w), h).value, h)
  {
    C.PureConnectives(p, q);
  }

  /** With operands that log their calls: `test` is called once; `other` is called at
      most once, only when the result is still open, and receives the identical
      arguments. */
  lemma Calls<T(!new), U(!new), V(!new), W(!new)>(p: ((T, U, V, W)) -> bool, q: ((T, U, V, W)) -> bool, t: T, u: U, v: V, w: W, log: seq<C.Call<(T, U, V, W)>>)
    ensures And(C.Recorded(0, p), Some(C.Recorded(1, q))).value((t, u, v, w), log)
         == C.Return(p((t, u, v, w)) && q((t, u, v, w)), log + [C.Call(0, (t, u, v, w))] + (if p((t, u, v, w)) then [C.Call(1, (t, u, v, w))] else []))
    ensures Or(C.Recorded(0, p), Some(C.Recorded(1, q))).value((t, u, v, w), log)
         == C.Return(p((t, u, v, w)) || q((t, u, v, w)), log + [C.Call(0, (t, u, v, w))] + (if p((t, u, v, w)) then [] else [C.Call(1, (t, u, v, w))]))
    ensures Negated(C.Recorded(0, p))((t, u, v, w), log) == C.Return(!p((t, u, v, w)), log + [C.Call(0, (t, u, v, w))])
  {
    C.ConjCalls(p, q, (t, u, v, w), log);
    C.DisjCalls(p, q, (t, u, v, w), log);
    C.NegCalls(p, (t, u, v, w), log);
  }

  /** `p.and(q).negated()` agrees with `p.negated().or(q.negated())`, and dually. */
  lemma DeMorgan<T(!new), U(!new), V(!new), W(!new), H(!new)>(p: TetraPredicate<T, U, V, W, H>, q: TetraPredicate<T, U, V, W, H>)
    ensures C.Agree(Negated(And(p, Some(q)).value), Or(Negated(p), Some(Negated(q))).value)
    ensures C.Agree(Negated(Or(p, Some(q)).value), And(Negated(p), Some(Negated(q))).value)
  {
    C.DeMorganAnd(p, q);
    C.DeMorganOr(p, q);
  }
}
