/** `LongArraySegmentConsumer`: an operation on a `long`-valued array argument with start and end indices (`void accept(ArrayRef arr, Int from, Int to)`), with the
    default method `andThen`. `H` is the world state a call runs against; an
    operation's effect is the state it leaves. */
module LongArraySegmentConsumer {
  import opened Java
  import C = Combinators

  type LongArraySegmentConsumer<!H> = C.Body<(ArrayRef, Int, Int), (), H>

  /** `andThen(after)`: rejects a null `after`, otherwise performs this operation and
      then `after`, on the same arguments. */
  function AndThen<H(!new)>(c: LongArraySegmentConsumer<H>, after: Option<LongArraySegmentConsumer<H>>): (r: Result<LongArraySegmentConsumer<H>>)
    ensures after.None? ==> r == Failure(NullPointerException)
    ensures after.Some? ==> r.Success? && C.RunsInSequence(c, after.value, r.value)
  {
    match RequireNonNull(after)
    case Failure(e) => Failure(e)
    case Success(d) => Success(C.Sequence(c, d))
  }

  /** With operations that log their calls: `accept` and then `after.accept`, each
      exactly once, both with the identical arguments. */
  lemma AndThenCalls(c: ((ArrayRef, Int, Int)) -> (), d: ((ArrayRef, Int, Int)) -> (), arr: ArrayRef, from: Int, to: Int, log: seq<C.Call<(ArrayRef, Int, Int)>>)
    ensures AndThen(C.Recorded(0, c), Some(C.Recorded(1, d))).value((arr, from, to), log) == C.Return((), log + [C.Call(0, (arr, from, to)), C.Call(1, (arr, from, to))])
  {
    C.SequenceCalls(c, d, (arr, from, to), log);
  }
}
