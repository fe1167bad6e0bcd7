/** `ObjCharConsumer`: an operation on an object-valued argument and a `char`-valued argument (`void accept(T obj, Char value)`), with the
    default method `andThen`. `H` is the world state a call runs against; an
    operation's effect is the state it leaves. */
module ObjCharConsumer {
  import opened Java
  import C = Combinators

  type ObjCharConsumer<!T, !H> = C.Body<(T, Char), (), H>

  /** `andThen(after)`: rejects a null `after`, otherwise performs this operation and
      then `after`, on the same arguments. */
  function AndThen<T(!new), H(!new)>(c: ObjCharConsumer<T, H>, after: Option<ObjCharConsumer<T, H>>): (r: Result<ObjCharConsumer<T, H>>)
    ensures after.None? ==> r == Failure(NullPointerException)
    ensures after.Some? ==> r.Success? && C.RunsInSequence(c, after.value, r.value)
  {
    match RequireNonNull(after)
    case Failure(e) => Failure(e)
    case Success(d) => Success(C.Sequence(c, d))
  }

  /** With operations that log their calls: `accept` and then `after.accept`, each
      exactly once, both with the identical arguments. */
  lemma AndThenCalls<T(!new)>(c: ((T, Char)) -> (), d: ((T, Char)) -> (), obj: T, value: Char, log: seq<C.Call<(T, Char)>>)
    ensures AndThen(C.Recorded(0, c), Some(C.Recorded(1, d))).value((obj, value), log) == C.Return((), log + [C.Call(0, (obj, value)), C.Call(1, (obj, value))])
  {
    C.SequenceCalls(c, d, (obj, value), log);
  }
}
