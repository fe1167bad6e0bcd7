/** `ObjCharPredicate`: a predicate over an object-valued argument and a `char`-valued argument, with the default methods `and`, `or` and `negated`.
    `H` is the world state a call runs against. */
module ObjCharPredicate {
  import opened Java
  import C = Combinators

  /** `boolean test(T obj, Char value)` */
  type ObjCharPredicate<!T, !H> = C.Body<(T, Char), bool, H>

  /** `and(other)`: rejects a null `other`, otherwise returns the short-circuiting
      intersection that evaluates this predicate first. */
  function And<T(!new), H(!new)>(p: ObjCharPredicate<T, H>, other: Option<ObjCharPredicate<T, H>>): (r: Result<ObjCharPredicate<T, H>>)
    ensures other.None? ==> r == Failure(NullPointerException)
    ensures other.Some? ==> r.Success? && C.ShortCircuitAnd(p, other.value, r.value)
  {
    match RequireNonNull(other)
    case Failure(e) => Failure(e)
    case Success(q) => Success(C.Conj(p, q))
  }

  /** `or(other)`: rejects a null `other`, otherwise returns the short-circuiting
      union that evaluates this predicate first. */
  function Or<T(!new), H(!new)>(p: ObjCharPredicate<T, H>, other: Option<ObjCharPredicate<T, H>>): (r: Result<ObjCharPredicate<T, H>>)
    ensures other.None? ==> r == Failure(NullPointerException)
    ensures other.Some? ==> r.Success? && C.ShortCircuitOr(p, other.value, r.value)
  {
    match RequireNonNull(other)
    case Failure(e) => Failure(e)
    case Success(q) => Success(C.Disj(p, q))
  }

  /** `negated()`: has no operand to check and always returns the complement. */
  function Negated<T(!new), H(!new)>(p: ObjCharPredicate<T, H>): (r: ObjCharPredicate<T, H>)
    ensures C.Complement(p, r)
  {
    C.Neg(p)
  }

  /** For operands without effects, the compounds compute `&&`, `||` and `!` of the
      operands' results and leave the state alone. */
  lemma Connectives<T(!new), H(!new)>(p: ObjCharPredicate<T, H>, q: ObjCharPredicate<T, H>, obj: T, value: Char, h: H)
    requires C.Pure(p) && C.Pure(q)
    ensures And(p, Some(q)).value((obj, value), h) == C.Return(p((obj, value), h).value && q((obj, value), h).value, h)
    ensures Or(p, Some(q)).value((obj, value), h) == C.Return(p((obj, value), h).value || q((obj, value), h).value, h)
    ensures Negated(p)((obj, value), h) == C.Return(!p((obj, value), h).value, h)
  {
    C.PureConnectives(p, q);
  }

  /** With operands that log their calls: `test` is called once; `other` is called at
      most once, only when the result is still open, and receives the identical
      arguments. */
  lemma Calls<T(!new)>(p: ((T, Char)) -> bool, q: ((T, Char)) -> bool, obj: T, value: Char, log: seq<C.Call<(T, Char)>>)
    ensures And(C.Recorded(0, p), Some(C.Recorded(1, q))).value((obj, value), log)
         == C.Return(p((obj, value)) && q((obj, value)), log + [C.Call(0, (obj, value))] + (if p((obj, value)) then [C.Call(1, (obj, value))] else []))
    ensures Or(C.Recorded(0, p), Some(C.Recorded(1, q))).value((obj, value), log)
         == C.Return(p((obj, value)) || q((obj, value)), log + [C.Call(0, (obj, value))] + (if p((obj, value)) then [] else [C.Call(1, (obj, value))]))
    ensures Negated(C.Recorded(0, p))((obj, value), log) == C.Return(!p((obj, value)), log + [C.Call(0, (obj, value))])
  {
    C.ConjCalls(p, q, (obj, value), log);
    C.DisjCalls(p, q, (obj, value), log);
    C.NegCalls(p, (obj, value), log);
  }
}
