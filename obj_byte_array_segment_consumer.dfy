/** `ObjByteArraySegmentConsumer`: an operation on an object-valued argument and a `byte`-valued array argument with start and end indices (`void accept(T obj, ArrayRef arr, Int from, Int to)`), with the
    default method `andThen`. `H` is the world state a call runs against; an
    operation's effect is the state it leaves. */
module ObjByteArraySegmentConsumer {
  import opened Java
  import C = Combinators

  type ObjByteArraySegmentConsumer<!T, !H> = C.Body<(T, ArrayRef, Int, Int), (), H>

  /** `andThen(after)`: rejects a null `after`, otherwise performs this operation and
      then `after`, on the same arguments. */
  function AndThen<T(!new), H(!new)>(c: ObjByteArraySegmentConsumer<T, H>, after: Option<ObjByteArraySegmentConsumer<T, H>>): (r: Result<ObjByteArraySegmentConsumer<T, H>>)
    ensures after.None? ==> r == Failure(NullPointerException)
    ensures after.Some? ==> r.Success? && C.RunsInSequence(c, after.value, r.value)
  {
    match RequireNonNull(after)
    case Failure(e) => Failure(e)
    case Success(d) => Success(C.Sequence(c, d))
  }

  /** With operations that log their calls: `accept` and then `after.accept`, each
      exactly once, both with the identical arguments. */
  lemma AndThenCalls<T(!new)>(c: ((T, ArrayRef, Int, Int)) -> (), d: ((T, ArrayRef, Int, Int)) -> (), obj: T, arr: ArrayRef, from: Int, to: Int, log: seq<C.Call<(T, ArrayRef, Int, Int)>>)
    ensures AndThen(C.Recorded(0, c), Some(C.Recorded(1, d))).value((obj, arr, from, to), log) == C.Return((), log + [C.Call(0, (obj, arr, from, to)), C.Call(1, (obj, arr, from, to))])
  {
    C.SequenceCalls(c, d, (obj, arr, from, to), log);
  }

  /** `a.andThen(b).andThen(c)` has the effect of `a.andThen(b.andThen(c))`. */
  lemma AndThenAssociative<T(!new), H(!new)>(a: ObjByteArraySegmentConsumer<T, H>, b: ObjByteArraySegmentConsumer<T, H>, c: ObjByteArraySegmentConsumer<T, H>)
    ensures C.Agree(AndThen(AndThen(a, Some(b)).value, Some(c)).value, AndThen(a, Some(AndThen(b, Some(c)).value)).value)
  {
    C.SequenceAssociative(a, b, c);
  }
}
