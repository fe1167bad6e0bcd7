/** `TriPredicate`: a predicate over three object-valued arguments, with the default methods `and`, `or` and `negated`.
    `H` is the world state a call runs against. */
module TriPredicate {
  import opened Java
  import C = Combinators

  /** `boolean test(T t, U u, V v)` */
  type TriPredicate<!T, !U, !V, !H> = C.Body<(T, U, V), bool, H>

  /** `and(other)`: rejects a null `other`, otherwise returns the short-circuiting
      intersection that evaluates this predicate first. */
  function And<T(!new), U(!new), V(!new), H(!new)>(p: TriPredicate<T, U, V, H>, other: Option<TriPredicate<T, U, V, H>>): (r: Result<TriPredicate<T, U, V, H>>)
    ensures other.None? ==> r == Failure(NullPointerException)
    ensures other.Some? ==> r.Success? && C.ShortCircuitAnd(p, other.value, r.value)
  {
    match RequireNonNull(other)
    case Failure(e) => Failure(e)
    case Success(q) => Success(C.Conj(p, q))
  }

  /** `or(other)`: rejects a null `other`, otherwise returns the short-circuiting
      union that evaluates this predicate first. */
  function Or<T(!new), U(!new), V(!new), H(!new)>(p: TriPredicate<T, U, V, H>, other: Option<TriPredicate<T, U, V, H>>): (r: Result<TriPredicate<T, U, V, H>>)
    ensures other.None? ==> r == Failure(NullPointerException)
    ensures other.Some? ==> r.Success? && C.ShortCircuitOr(p, other.value, r.value)
  {
    match RequireNonNull(other)
    case Failure(e) => Failure(e)
    case Success(q) => Success(C.Disj(p, q))
  }

  /** `negated()`: has no operand to check and always returns the complement. */
  function Negated<T(!new), U(!new), V(!new), H(!new)>(p: TriPredicate<T, U, V, H>): (r: TriPredicate<T, U, V, H>)
    ensures C.Complement(p, r)
  {
    C.Neg(p)
  }

  /** For operands without effects, the compounds compute `&&`, `||` and `!` of the
      operands' results and leave the state alone. */
  lemma Connectives<T(!new), U(!new), V(!new), H(!new)>(p: TriPredicate<T, U, V, H>, q: TriPredicate<T, U, V, H>, t: T, u: U, v: V, h: H)
    requires C.Pure(p) && C.Pure(q)
    ensures And(p, Some(q)).value((t, u, v), h) == C.Return(p((t, u, v), h).value && q((t, u, v), h).value, h)
    ensures Or(p, Some(q)).value((t, u, v), h) == C.Return(p((t, u, v), h).value || q((t, u, v), h).value, h)
    ensures Negated(p)((t, u, v), h) == C.Return(!p((t, u, v), h).value, h)
  {
    C.PureConnectives(p, q);
  }

  /** With operands that log their calls: `test` is called once; `other` is called at
      most once, only when the result is still open, and receives the identical
      arguments. */
  lemma Calls<T(!new), U(!new), V(!new)>(p: ((T, U, V)) -> bool, q: ((T, U, V)) -> bool, t: T, u: U, v: V, log: seq<C.Call<(T, U, V)>>)
    ensures And(C.Recorded(0, p), Some(C.Recorded(1, q))).value((t, u, v), log)
         == C.Return(p((t, u, v)) && q((t, u, v)), log + [C.Call(0, (t, u, v))] + (if p((t, u, v)) then [C.Call(1, (t, u, v))] else []))
    ensures Or(C.Recorded(0, p), Some(C.Recorded(1, q))).value((t, u, v), log)
         == C.Return(p((t, u, v)) || q((t, u, v)), log + [C.Call(0, (t, u, v))] + (if p((t, u, v)) then [] else [C.Call(1, (t, u, v))]))
    ensures Negated(C.Recorded(0, p))((t, u, v), log) == C.Return(!p((t, u, v)), log + [C.Call(0, (t, u, v))])
  {
    C.ConjCalls(p, q, (t, u, v), log);
    C.DisjCalls(p, q, (t, u, v), log);
    C.NegCalls(p, (t, u, v), log);
  }
}
