/** `ByteConsumer`: an operation on a single `byte`-valued argument (`void accept(Byte value)`), with the
    default method `andThen`. `H` is the world state a call runs against; an
    operation's effect is the state it leaves. */
module ByteConsumer {
  import opened Java
  import C = Combinators

  type ByteConsumer<!H> = C.Body<Byte, (), H>

  /** `andThen(after)`: rejects a null `after`, otherwise performs this operation and
      then `after`, on the same arguments. */
  function AndThen<H(!new)>(c: ByteConsumer<H>, after: Option<ByteConsumer<H>>): (r: Result<ByteConsumer<H>>)
    ensures after.None? ==> r == Failure(NullPointerException)
    ensures after.Some? ==> r.Success? && C.RunsInSequence(c, after.value, r.value)
  {
    match RequireNonNull(after)
    case Failure(e) => Failure(e)
    case Success(d) => Success(C.Sequence(c, d))
  }

  /** With operations that log their calls: `accept` and then `after.accept`, each
      exactly once, both with the identical arguments. */
  lemma AndThenCalls(c: Byte -> (), d: Byte -> (), value: Byte, log: seq<C.Call<Byte>>)
    ensures AndThen(C.Recorded(0, c), Some(C.Recorded(1, d))).value(value, log) == C.Return((), log + [C.Call(0, value), C.Call(1, value)])
  {
    C.SequenceCalls(c, d, value, log);
  }

  /** `a.andThen(b).andThen(c)` has the effect of `a.andThen(b.andThen(c))`. */
  lemma AndThenAssociative<H(!new)>(a: ByteConsumer<H>, b: ByteConsumer<H>, c: ByteConsumer<H>)
    ensures C.Agree(AndThen(AndThen(a, Some(b)).value, Some(c)).value, AndThen(a, Some(AndThen(b, Some(c)).value)).value)
  {
    C.SequenceAssociative(a, b, c);
  }
}
