# java-function-extra, modelled in Dafny

java-function-extra is a library of Java functional interfaces that the JDK's
`java.util.function` package lacks: functions, predicates, consumers and operators of up
to four arguments, specialised for the primitive types and for array segments (an array
with an inclusive start and an exclusive end index). Every interface is written out by a
Python script, `function_generator.py`. It declares one abstract method and, where they
make sense, the default combinators `and`, `or`, `negated`, `andThen` and `compose`, plus
the static factories `identity` and `negated`.

The project models both halves.

- **The combinators** (`combinators.dfy`, `java.dfy` and one file per Java interface).
  - A Java method body is a function from its arguments and the world state (heap and
    array contents) to a completion. A completion is a normal return with a value or an
    exception, and in both cases carries the new state. This makes side effects,
    exceptions and evaluation order visible.
  - Each combinator's contract is the evaluation order its Javadoc promises:
    short-circuit `&&` or `||`, complement, running in sequence, piping one result into
    the next, returning the input. These contracts stay close to the combinator bodies,
    and the `*Determines` lemmas only confirm that each contract fixes one compound.
    The substance is in what is proved about the compounds: pure operands give the
    boolean connectives, the call logs show each operand's calls, and the algebraic laws
    hold.
  - A `null` operand is an absent `Option`. The combinator then fails with
    `NullPointerException` and builds nothing.
  - Algebraic laws are proved: double negation, De Morgan, associativity, identity as a
    unit. Call-log lemmas show the order of calls. Every operand runs on the identical
    arguments. For `and` and `or`, the first operand runs exactly once, and the second
    at most once, only when the first leaves the result open. For `andThen` and
    `compose`, both operands run once, in order.
  - Each interface's module instantiates the template with that interface's argument
    tuple and restates the laws for its own methods.
- **The generator** (`shapes.dfy`, `filters.dfy`, `naming.dfy`, `doc_text.dfy`,
  `members.dfy`, `generator.dfy`, `core_files.dfy`).
  - The type table, the argument and result filters, the naming chain, the choice of
    combinators and imports, and the package are pure functions mirroring the script's
    branches.
  - The main nested loop is a method proved sound and complete against them. Every
    entry it records is an accepted, non-JDK shape with the right name, method, package
    and members, and every such shape is recorded.
  - The documentation helpers are modelled: `aan`/`Aan`, the verb forms, and the
    symbol/letter translation tables.
  - `core_files.dfy` proves that each modelled Java interface is a shape the generator
    writes, with the file's own name, kind and package.

A null operand makes a combinator throw `NullPointerException` through
`Objects.requireNonNull`, before any compound is built.

## Model

| member | source | states |
|---|---|---|
| `Java.RequireNonNull` | src/main/java/me/dkleszyk/java/function/extra/primitive/ShortPredicate.java:51 | an absent reference fails with NullPointerException, a present one is passed through unchanged |
| `Combinators.Conj` | src/main/java/me/dkleszyk/java/function/extra/primitive/ShortPredicate.java:48-53 | the compound `and` body is the short-circuit intersection: `other` runs on the same arguments in the state `test` left only after `test` returned true; a false result or an exception of `test` is the outcome |
| `Combinators.Disj` | src/main/java/me/dkleszyk/java/function/extra/primitive/ShortPredicate.java:78-83 | the compound `or` body is the short-circuit union: `other` runs only after `test` returned false; a true result or an exception of `test` is the outcome |
| `Combinators.Neg` | src/main/java/me/dkleszyk/java/function/extra/primitive/ShortPredicate.java:62-65 | the compound `negated` body completes as `test` does, with the complemented result |
| `Combinators.Sequence` | src/main/java/me/dkleszyk/java/function/extra/primitive/ByteConsumer.java:55-64 | the consumer `andThen` body runs this consumer and then `after` on the same arguments; an exception of the first skips `after` |
| `Combinators.Pipe` | src/main/java/me/dkleszyk/java/function/extra/TriFunction.java:53-58 | `andThen`/`compose` body: the first body runs, its result is passed to the second; an exception of the first skips the second |
| `Combinators.Identity` | src/main/java/me/dkleszyk/java/function/extra/primitive/ShortUnaryOperator.java:42-45 | `identity()` returns its input and leaves the state unchanged |
| `Combinators.ShortCircuitAndDetermines` | src/main/java/me/dkleszyk/java/function/extra/primitive/ShortPredicate.java:48-53 | any two bodies meeting the short-circuit-and contract of the same operands agree everywhere: the contract fixes the compound |
| `Combinators.ShortCircuitOrDetermines` | src/main/java/me/dkleszyk/java/function/extra/primitive/ShortPredicate.java:78-83 | the short-circuit-or contract fixes the compound |
| `Combinators.RunsInSequenceDetermines` | src/main/java/me/dkleszyk/java/function/extra/primitive/ByteConsumer.java:55-64 | the run-in-sequence contract fixes the compound consumer |
| `Combinators.PipesIntoDetermines` | src/main/java/me/dkleszyk/java/function/extra/TriFunction.java:53-58 | the pipe contract fixes the compound function |
| `Combinators.DoubleNegation` | src/main/java/me/dkleszyk/java/function/extra/primitive/ShortPredicate.java:62-65 | `p.negated().negated()` completes exactly as `p`, effects and exceptions included |
| `Combinators.DeMorganAnd` | src/main/java/me/dkleszyk/java/function/extra/primitive/ShortPredicate.java:48-65 | `p.and(q).negated()` agrees with `p.negated().or(q.negated())` on every argument and state |
| `Combinators.DeMorganOr` | src/main/java/me/dkleszyk/java/function/extra/primitive/ShortPredicate.java:62-83 | `p.or(q).negated()` agrees with `p.negated().and(q.negated())` |
| `Combinators.ConjAssociative` | src/main/java/me/dkleszyk/java/function/extra/primitive/ShortPredicate.java:48-53 | chained `and` is associative, effects included |
| `Combinators.DisjAssociative` | src/main/java/me/dkleszyk/java/function/extra/primitive/ShortPredicate.java:78-83 | chained `or` is associative, effects included |
| `Combinators.SequenceAssociative` | src/main/java/me/dkleszyk/java/function/extra/primitive/ByteConsumer.java:55-64 | chained consumer `andThen` is associative |
| `Combinators.PipeAssociative` | src/main/java/me/dkleszyk/java/function/extra/TriFunction.java:53-58 | chained `andThen` is associative |
| `Combinators.IdentityUnit` | src/main/java/me/dkleszyk/java/function/extra/primitive/ShortUnaryOperator.java:42-61 | `identity().andThen(op)` and `op.andThen(identity())` both agree with `op` |
| `Combinators.PureConnectives` | src/main/java/me/dkleszyk/java/function/extra/primitive/ShortPredicate.java:48-83 | for side-effect-free operands the compounds are side-effect free and yield the boolean and, or and not of the operands |
| `Combinators.ConjCalls` | src/main/java/me/dkleszyk/java/function/extra/primitive/ShortPredicate.java:48-53 | with a call log: `test` is called once first; `other` once with the identical arguments exactly when `test` was true |
| `Combinators.DisjCalls` | src/main/java/me/dkleszyk/java/function/extra/primitive/ShortPredicate.java:78-83 | with a call log: `other` is called once with the identical arguments exactly when `test` was false |
| `Combinators.NegCalls` | src/main/java/me/dkleszyk/java/function/extra/primitive/ShortPredicate.java:62-65 | with a call log: `test` is called once and its result complemented |
| `Combinators.SequenceCalls` | src/main/java/me/dkleszyk/java/function/extra/primitive/ByteConsumer.java:55-64 | with a call log: this consumer and then `after`, each once, with the identical arguments |
| `Combinators.PipeCalls` | src/main/java/me/dkleszyk/java/function/extra/TriFunction.java:53-58 | with a call counter: the first function once, then `after` once on its result |
| `ObjCharArraySegmentPredicate.And` | src/main/java/me/dkleszyk/java/function/extra/array/ObjCharArraySegmentPredicate.java:51-57 | a null `other` throws NullPointerException and builds nothing; otherwise the compound runs `test` first, completes exactly as `test` did when it yields false or throws (`other` not run), and is decided by `other` on the same arguments when it yields true |
| `ObjCharArraySegmentPredicate.Or` | src/main/java/me/dkleszyk/java/function/extra/array/ObjCharArraySegmentPredicate.java:82-88 | a null `other` throws NullPointerException; otherwise `test` runs first, a true result or an exception ends the call without running `other`, a false result hands the same arguments to `other` |
| `ObjCharArraySegmentPredicate.Negated` | src/main/java/me/dkleszyk/java/function/extra/array/ObjCharArraySegmentPredicate.java:66-69 | no precondition; the compound has the effects of `test` and the complemented result |
| `ObjCharArraySegmentPredicate.Connectives` | src/main/java/me/dkleszyk/java/function/extra/array/ObjCharArraySegmentPredicate.java:54-87 | for side-effect-free operands, `and`, `or` and `negated` yield the conditional and of `test(..)` and `other.test(..)`, their conditional or, and the complement `!test(..)`, and change no state |
| `ObjCharArraySegmentPredicate.Calls` | src/main/java/me/dkleszyk/java/function/extra/array/ObjCharArraySegmentPredicate.java:54-87 | observed through a call log: `test` runs once and first; `other` runs once with the identical argument tuple exactly when `test` yielded true (`and`) or false (`or`), and never otherwise |
| `ObjCharArraySegmentPredicate.DoubleNegation` | src/main/java/me/dkleszyk/java/function/extra/array/ObjCharArraySegmentPredicate.java:66-69 | negating twice gives a predicate that completes exactly as the original on every argument and state |
| `TetraPredicate.And` | src/main/java/me/dkleszyk/java/function/extra/TetraPredicate.java:53-58 | a null `other` throws NullPointerException and builds nothing; otherwise the compound runs `test` first, completes exactly as `test` did when it yields false or throws (`other` not run), and is decided by `other` on the same arguments when it yields true |
| `TetraPredicate.Or` | src/main/java/me/dkleszyk/java/function/extra/TetraPredicate.java:83-88 | a null `other` throws NullPointerException; otherwise `test` runs first, a true result or an exception ends the call without running `other`, a false result hands the same arguments to `other` |
| `TetraPredicate.Negated` | src/main/java/me/dkleszyk/java/function/extra/TetraPredicate.java:67-70 | no precondition; the compound has the effects of `test` and the complemented result |
| `TetraPredicate.Connectives` | src/main/java/me/dkleszyk/java/function/extra/TetraPredicate.java:56-87 | for side-effect-free operands, `and`, `or` and `negated` yield the conditional and of `test(..)` and `other.test(..)`, their conditional or, and the complement `!test(..)`, and change no state |
| `TetraPredicate.Calls` | src/main/java/me/dkleszyk/java/function/extra/TetraPredicate.java:56-87 | observed through a call log: `test` runs once and first; `other` runs once with the identical argument tuple exactly when `test` yielded true (`and`) or false (`or`), and never otherwise |
| `TetraPredicate.DeMorgan` | src/main/java/me/dkleszyk/java/function/extra/TetraPredicate.java:53-88 | `p.and(q).negated()` agrees with `p.negated().or(q.negated())` and `p.or(q).negated()` with `p.negated().and(q.negated())`, effects and exceptions included |
| `ArraySegmentPredicate.And` | src/main/java/me/dkleszyk/java/function/extra/array/ArraySegmentPredicate.java:50-56 | a null `other` throws NullPointerException and builds nothing; otherwise the compound runs `test` first, completes exactly as `test` did when it yields false or throws (`other` not run), and is decided by `other` on the same arguments when it yields true |
| `ArraySegmentPredicate.Or` | src/main/java/me/dkleszyk/java/function/extra/array/ArraySegmentPredicate.java:81-87 | a null `other` throws NullPointerException; otherwise `test` runs first, a true result or an exception ends the call without running `other`, a false result hands the same arguments to `other` |
| `ArraySegmentPredicate.Negated` | src/main/java/me/dkleszyk/java/function/extra/array/ArraySegmentPredicate.java:65-68 | no precondition; the compound has the effects of `test` and the complemented result |
| `ArraySegmentPredicate.Connectives` | src/main/java/me/dkleszyk/java/function/extra/array/ArraySegmentPredicate.java:53-86 | for side-effect-free operands, `and`, `or` and `negated` yield the conditional and of `test(..)` and `other.test(..)`, their conditional or, and the complement `!test(..)`, and change no state |
| `ArraySegmentPredicate.Calls` | src/main/java/me/dkleszyk/java/function/extra/array/ArraySegmentPredicate.java:53-86 | observed through a call log: `test` runs once and first; `other` runs once with the identical argument tuple exactly when `test` yielded true (`and`) or false (`or`), and never otherwise |
| `ArraySegmentPredicate.DoubleNegation` | src/main/java/me/dkleszyk/java/function/extra/array/ArraySegmentPredicate.java:65-68 | negating twice gives a predicate that completes exactly as the original on every argument and state |
| `TriPredicate.And` | src/main/java/me/dkleszyk/java/function/extra/TriPredicate.java:52-57 | a null `other` throws NullPointerException and builds nothing; otherwise the compound runs `test` first, completes exactly as `test` did when it yields false or throws (`other` not run), and is decided by `other` on the same arguments when it yields true |
| `TriPredicate.Or` | src/main/java/me/dkleszyk/java/function/extra/TriPredicate.java:82-87 | a null `other` throws NullPointerException; otherwise `test` runs first, a true result or an exception ends the call without running `other`, a false result hands the same arguments to `other` |
| `TriPredicate.Negated` | src/main/java/me/dkleszyk/java/function/extra/TriPredicate.java:66-69 | no precondition; the compound has the effects of `test` and the complemented result |
| `TriPredicate.Connectives` | src/main/java/me/dkleszyk/java/function/extra/TriPredicate.java:55-86 | for side-effect-free operands, `and`, `or` and `negated` yield the conditional and of `test(..)` and `other.test(..)`, their conditional or, and the complement `!test(..)`, and change no state |
| `TriPredicate.Calls` | src/main/java/me/dkleszyk/java/function/extra/TriPredicate.java:55-86 | observed through a call log: `test` runs once and first; `other` runs once with the identical argument tuple exactly when `test` yielded true (`and`) or false (`or`), and never otherwise |
| `ObjCharPredicate.And` | src/main/java/me/dkleszyk/java/function/extra/primitive/ObjCharPredicate.java:50-55 | a null `other` throws NullPointerException and builds nothing; otherwise the compound runs `test` first, completes exactly as `test` did when it yields false or throws (`other` not run), and is decided by `other` on the same arguments when it yields true |
| `ObjCharPredicate.Or` | src/main/java/me/dkleszyk/java/function/extra/primitive/ObjCharPredicate.java:80-85 | a null `other` throws NullPointerException; otherwise `test` runs first, a true result or an exception ends the call without running `other`, a false result hands the same arguments to `other` |
| `ObjCharPredicate.Negated` | src/main/java/me/dkleszyk/java/function/extra/primitive/ObjCharPredicate.java:64-67 | no precondition; the compound has the effects of `test` and the complemented result |
| `ObjCharPredicate.Connectives` | src/main/java/me/dkleszyk/java/function/extra/primitive/ObjCharPredicate.java:53-84 | for side-effect-free operands, `and`, `or` and `negated` yield the conditional and of `test(..)` and `other.test(..)`, their conditional or, and the complement `!test(..)`, and change no state |
| `ObjCharPredicate.Calls` | src/main/java/me/dkleszyk/java/function/extra/primitive/ObjCharPredicate.java:53-84 | observed through a call log: `test` runs once and first; `other` runs once with the identical argument tuple exactly when `test` yielded true (`and`) or false (`or`), and never otherwise |
| `FloatBiPredicate.And` | src/main/java/me/dkleszyk/java/function/extra/primitive/FloatBiPredicate.java:48-53 | a null `other` throws NullPointerException and builds nothing; otherwise the compound runs `test` first, completes exactly as `test` did when it yields false or throws (`other` not run), and is decided by `other` on the same arguments when it yields true |
| `FloatBiPredicate.Or` | src/main/java/me/dkleszyk/java/function/extra/primitive/FloatBiPredicate.java:78-83 | a null `other` throws NullPointerException; otherwise `test` runs first, a true result or an exception ends the call without running `other`, a false result hands the same arguments to `other` |
| `FloatBiPredicate.Negated` | src/main/java/me/dkleszyk/java/function/extra/primitive/FloatBiPredicate.java:62-65 | no precondition; the compound has the effects of `test` and the complemented result |
| `FloatBiPredicate.Connectives` | src/main/java/me/dkleszyk/java/function/extra/primitive/FloatBiPredicate.java:51-82 | for side-effect-free operands, `and`, `or` and `negated` yield the conditional and of `test(..)` and `other.test(..)`, their conditional or, and the complement `!test(..)`, and change no state |
| `FloatBiPredicate.Calls` | src/main/java/me/dkleszyk/java/function/extra/primitive/FloatBiPredicate.java:51-82 | observed through a call log: `test` runs once and first; `other` runs once with the identical argument tuple exactly when `test` yielded true (`and`) or false (`or`), and never otherwise |
| `ShortPredicate.And` | src/main/java/me/dkleszyk/java/function/extra/primitive/ShortPredicate.java:48-53 | a null `other` throws NullPointerException and builds nothing; otherwise the compound runs `test` first, completes exactly as `test` did when it yields false or throws (`other` not run), and is decided by `other` on the same arguments when it yields true |
| `ShortPredicate.Or` | src/main/java/me/dkleszyk/java/function/extra/primitive/ShortPredicate.java:78-83 | a null `other` throws NullPointerException; otherwise `test` runs first, a true result or an exception ends the call without running `other`, a false result hands the same arguments to `other` |
| `ShortPredicate.Negated` | src/main/java/me/dkleszyk/java/function/extra/primitive/ShortPredicate.java:62-65 | no precondition; the compound has the effects of `test` and the complemented result |
| `ShortPredicate.Connectives` | src/main/java/me/dkleszyk/java/function/extra/primitive/ShortPredicate.java:51-82 | for side-effect-free operands, `and`, `or` and `negated` yield the conditional and of `test(..)` and `other.test(..)`, their conditional or, and the complement `!test(..)`, and change no state |
| `ShortPredicate.Calls` | src/main/java/me/dkleszyk/java/function/extra/primitive/ShortPredicate.java:51-82 | observed through a call log: `test` runs once and first; `other` runs once with the identical argument tuple exactly when `test` yielded true (`and`) or false (`or`), and never otherwise |
| `ShortPredicate.DoubleNegation` | src/main/java/me/dkleszyk/java/function/extra/primitive/ShortPredicate.java:62-65 | negating twice gives a predicate that completes exactly as the original on every argument and state |
| `ShortUnaryOperator.Identity` | src/main/java/me/dkleszyk/java/function/extra/primitive/ShortUnaryOperator.java:42-45 | the operator completes normally with its own argument, for every `short`, and changes no state |
| `ShortUnaryOperator.AndThen` | src/main/java/me/dkleszyk/java/function/extra/primitive/ShortUnaryOperator.java:57-62 | a null `after` throws NullPointerException; otherwise `applyAsShort` runs first and `after` runs on its result (an exception from the first skips `after`) |
| `ShortUnaryOperator.Compose` | src/main/java/me/dkleszyk/java/function/extra/primitive/ShortUnaryOperator.java:84-89 | a null `before` throws NullPointerException; otherwise `before` runs first and `applyAsShort` runs on its result |
| `ShortUnaryOperator.ComposeIsFlippedAndThen` | src/main/java/me/dkleszyk/java/function/extra/primitive/ShortUnaryOperator.java:61 | `op.compose(b)` completes exactly as `b.andThen(op)` on every argument and state (lines 88 give `compose` the mirrored lambda) |
| `ShortUnaryOperator.IdentityUnits` | src/main/java/me/dkleszyk/java/function/extra/primitive/ShortUnaryOperator.java:42-89 | `identity()` on either side of `andThen` or `compose` gives an operator that completes exactly as the original |
| `CharUnaryOperator.Identity` | src/main/java/me/dkleszyk/java/function/extra/primitive/CharUnaryOperator.java:42-45 | the operator completes normally with its own argument, for every `char`, and changes no state |
| `CharUnaryOperator.AndThen` | src/main/java/me/dkleszyk/java/function/extra/primitive/CharUnaryOperator.java:57-62 | a null `after` throws NullPointerException; otherwise `applyAsChar` runs first and `after` runs on its result (an exception from the first skips `after`) |
| `CharUnaryOperator.Compose` | src/main/java/me/dkleszyk/java/function/extra/primitive/CharUnaryOperator.java:84-89 | a null `before` throws NullPointerException; otherwise `before` runs first and `applyAsChar` runs on its result |
| `CharUnaryOperator.ComposeIsFlippedAndThen` | src/main/java/me/dkleszyk/java/function/extra/primitive/CharUnaryOperator.java:61 | `op.compose(b)` completes exactly as `b.andThen(op)` on every argument and state (lines 88 give `compose` the mirrored lambda) |
| `CharUnaryOperator.AndThenAssociative` | src/main/java/me/dkleszyk/java/function/extra/primitive/CharUnaryOperator.java:57-62 | `(a.andThen(b)).andThen(c)` completes exactly as `a.andThen(b.andThen(c))` on every argument and state |
| `ObjLongArraySegmentFunction.AndThen` | src/main/java/me/dkleszyk/java/function/extra/array/ObjLongArraySegmentFunction.java:53-58 | a null `after` throws NullPointerException; otherwise `apply` runs on the unchanged arguments and `after` runs on its result alone; an exception from `apply` skips `after` |
| `ObjLongArraySegmentFunction.AndThenChain` | src/main/java/me/dkleszyk/java/function/extra/array/ObjLongArraySegmentFunction.java:57 | `andThen(g).andThen(h)` completes exactly as `andThen(h∘g)` on every argument and state |
| `ObjLongArraySegmentFunction.AndThenCalls` | src/main/java/me/dkleszyk/java/function/extra/array/ObjLongArraySegmentFunction.java:57 | observed through a call log: `apply` runs exactly once and first, on the unchanged arguments; `after` runs exactly once, and the result is `after` applied to `apply`'s result |
| `TriFunction.AndThen` | src/main/java/me/dkleszyk/java/function/extra/TriFunction.java:53-58 | a null `after` throws NullPointerException; otherwise `apply` runs on the unchanged arguments and `after` runs on its result alone; an exception from `apply` skips `after` |
| `TriFunction.AndThenChain` | src/main/java/me/dkleszyk/java/function/extra/TriFunction.java:57 | `andThen(g).andThen(h)` completes exactly as `andThen(h∘g)` on every argument and state |
| `TriFunction.AndThenCalls` | src/main/java/me/dkleszyk/java/function/extra/TriFunction.java:57 | observed through a call log: `apply` runs exactly once and first, on the unchanged arguments; `after` runs exactly once, and the result is `after` applied to `apply`'s result |
| `ByteArraySegmentFunction.AndThen` | src/main/java/me/dkleszyk/java/function/extra/array/ByteArraySegmentFunction.java:51-56 | a null `after` throws NullPointerException; otherwise `apply` runs on the unchanged arguments and `after` runs on its result alone; an exception from `apply` skips `after` |
| `ByteArraySegmentFunction.AndThenChain` | src/main/java/me/dkleszyk/java/function/extra/array/ByteArraySegmentFunction.java:55 | `andThen(g).andThen(h)` completes exactly as `andThen(h∘g)` on every argument and state |
| `ByteArraySegmentFunction.AndThenCalls` | src/main/java/me/dkleszyk/java/function/extra/array/ByteArraySegmentFunction.java:55 | observed through a call log: `apply` runs exactly once and first, on the unchanged arguments; `after` runs exactly once, and the result is `after` applied to `apply`'s result |
| `ObjFloatFunction.AndThen` | src/main/java/me/dkleszyk/java/function/extra/primitive/ObjFloatFunction.java:52-57 | a null `after` throws NullPointerException; otherwise `apply` runs on the unchanged arguments and `after` runs on its result alone; an exception from `apply` skips `after` |
| `ObjFloatFunction.AndThenChain` | src/main/java/me/dkleszyk/java/function/extra/primitive/ObjFloatFunction.java:56 | `andThen(g).andThen(h)` completes exactly as `andThen(h∘g)` on every argument and state |
| `ObjFloatFunction.AndThenCalls` | src/main/java/me/dkleszyk/java/function/extra/primitive/ObjFloatFunction.java:56 | observed through a call log: `apply` runs exactly once and first, on the unchanged arguments; `after` runs exactly once, and the result is `after` applied to `apply`'s result |
| `DoubleBiFunction.AndThen` | src/main/java/me/dkleszyk/java/function/extra/DoubleBiFunction.java:51-56 | a null `after` throws NullPointerException; otherwise `apply` runs on the unchanged arguments and `after` runs on its result alone; an exception from `apply` skips `after` |
| `DoubleBiFunction.AndThenChain` | src/main/java/me/dkleszyk/java/function/extra/DoubleBiFunction.java:55 | `andThen(g).andThen(h)` completes exactly as `andThen(h∘g)` on every argument and state |
| `DoubleBiFunction.AndThenCalls` | src/main/java/me/dkleszyk/java/function/extra/DoubleBiFunction.java:55 | observed through a call log: `apply` runs exactly once and first, on the unchanged arguments; `after` runs exactly once, and the result is `after` applied to `apply`'s result |
| `FloatFunction.AndThen` | src/main/java/me/dkleszyk/java/function/extra/primitive/FloatFunction.java:51-56 | a null `after` throws NullPointerException; otherwise `apply` runs on the unchanged arguments and `after` runs on its result alone; an exception from `apply` skips `after` |
| `FloatFunction.AndThenChain` | src/main/java/me/dkleszyk/java/function/extra/primitive/FloatFunction.java:55 | `andThen(g).andThen(h)` completes exactly as `andThen(h∘g)` on every argument and state |
| `FloatFunction.AndThenCalls` | src/main/java/me/dkleszyk/java/function/extra/primitive/FloatFunction.java:55 | observed through a call log: `apply` runs exactly once and first, on the unchanged arguments; `after` runs exactly once, and the result is `after` applied to `apply`'s result |
| `ObjByteArraySegmentConsumer.AndThen` | src/main/java/me/dkleszyk/java/function/extra/array/ObjByteArraySegmentConsumer.java:64-73 | a null `after` throws NullPointerException; otherwise the compound's effect is `after`'s effect applied to the state `accept` left, with the same arguments; an exception from `accept` ends the call before `after` runs |
| `ObjByteArraySegmentConsumer.AndThenCalls` | src/main/java/me/dkleszyk/java/function/extra/array/ObjByteArraySegmentConsumer.java:70-71 | observed through a call log: `accept` then `after.accept`, each exactly once, unconditionally, both receiving the identical argument tuple |
| `ObjByteArraySegmentConsumer.AndThenAssociative` | src/main/java/me/dkleszyk/java/function/extra/array/ObjByteArraySegmentConsumer.java:68-72 | `(a.andThen(b)).andThen(c)` completes exactly as `a.andThen(b.andThen(c))` on every argument and state |
| `LongArraySegmentConsumer.AndThen` | src/main/java/me/dkleszyk/java/function/extra/array/LongArraySegmentConsumer.java:59-68 | a null `after` throws NullPointerException; otherwise the compound's effect is `after`'s effect applied to the state `accept` left, with the same arguments; an exception from `accept` ends the call before `after` runs |
| `LongArraySegmentConsumer.AndThenCalls` | src/main/java/me/dkleszyk/java/function/extra/array/LongArraySegmentConsumer.java:65-66 | observed through a call log: `accept` then `after.accept`, each exactly once, unconditionally, both receiving the identical argument tuple |
| `ObjCharConsumer.AndThen` | src/main/java/me/dkleszyk/java/function/extra/primitive/ObjCharConsumer.java:59-68 | a null `after` throws NullPointerException; otherwise the compound's effect is `after`'s effect applied to the state `accept` left, with the same arguments; an exception from `accept` ends the call before `after` runs |
| `ObjCharConsumer.AndThenCalls` | src/main/java/me/dkleszyk/java/function/extra/primitive/ObjCharConsumer.java:65-66 | observed through a call log: `accept` then `after.accept`, each exactly once, unconditionally, both receiving the identical argument tuple |
| `ByteConsumer.AndThen` | src/main/java/me/dkleszyk/java/function/extra/primitive/ByteConsumer.java:55-64 | a null `after` throws NullPointerException; otherwise the compound's effect is `after`'s effect applied to the state `accept` left, with the same arguments; an exception from `accept` ends the call before `after` runs |
| `ByteConsumer.AndThenCalls` | src/main/java/me/dkleszyk/java/function/extra/primitive/ByteConsumer.java:61-62 | observed through a call log: `accept` then `after.accept`, each exactly once, unconditionally, both receiving the identical argument tuple |
| `ByteConsumer.AndThenAssociative` | src/main/java/me/dkleszyk/java/function/extra/primitive/ByteConsumer.java:59-63 | `(a.andThen(b)).andThen(c)` completes exactly as `a.andThen(b.andThen(c))` on every argument and state |
| `ToShortFunction.Compose` | src/main/java/me/dkleszyk/java/function/extra/primitive/ToShortFunction.java:61-66 | a null `before` throws NullPointerException; otherwise `before` runs first and its result is the only input of `applyAsShort`; an exception from `before` skips `applyAsShort` |
| `ToShortFunction.ComposeChain` | src/main/java/me/dkleszyk/java/function/extra/primitive/ToShortFunction.java:65 | `compose(g).compose(e)` completes exactly as `compose(g∘e)` on every argument and state |
| `ToShortFunction.ComposeCalls` | src/main/java/me/dkleszyk/java/function/extra/primitive/ToShortFunction.java:65 | observed through a call log: `before` runs exactly once and first, `applyAsShort` exactly once on its result, and the result is `applyAsShort(before.apply(t))` |
| `Shapes.SegmentCount` | function_generator.py:230-232 | the number of array-segment arguments is at most the argument count and zero exactly when no argument is a segment |
| `Shapes.TypesTable` | function_generator.py:31-53 | the type table has 19 entries, `void` first; every type is in it; the argument types `types[1:]` are exactly the non-void ones |
| `Shapes.ArgTypeListed` | function_generator.py:31-53 | a type is among the argument types `types[1:]` exactly when it is not `void` |
| `Shapes.PrimName` | function_generator.py:31-41 | the `type_names` value of each single-value type, the object's being empty; its property is stated by `Shapes.TypeNameInjective` |
| `Shapes.TypeName` | function_generator.py:31-51 | the `type_names` value of every non-void type, a segment's being its element's name followed by "ArraySegment"; its property is stated by `Shapes.TypeNameInjective` |
| `Shapes.TypeNameInjective` | function_generator.py:31-51 | no two types share a `type_names` value: the single-value names have at most seven letters, and each segment name is one of them followed by "ArraySegment" |
| `Shapes.FnOrdinal` | function_generator.py:55 | `fn_ordinals` for one to four arguments; its property is stated by `Shapes.OrdinalsInjective` |
| `Shapes.OpOrdinal` | function_generator.py:57 | `op_ordinals` for one to four arguments; its property is stated by `Shapes.OrdinalsInjective` |
| `Shapes.OrdinalsInjective` | function_generator.py:55-57 | different argument counts get different `fn_ordinals` and different `op_ordinals` entries, so a name gives its arity away |
| `Filters.ArgvAccepted` | function_generator.py:219-232 | the argument filter's three `continue` tests, in the script's order; what it admits is stated by `Filters.AcceptedArity` and `Filters.AcceptedMixed` |
| `Filters.ResultAccepted` | function_generator.py:234-262 | the result filter: never a segment result, the whitelist for shapes with a segment argument, the two exclusions for the others; stated by `Filters.NoSegmentResult`, `Filters.SegmentResults` and `Filters.ScalarResults` |
| `Filters.AcceptedArity` | function_generator.py:219-232 | an accepted vector has at most one array-segment argument, and more than two arguments only if all are objects |
| `Filters.AcceptedMixed` | function_generator.py:219-226 | mixed argument types only as exactly two arguments: an object followed by a non-object |
| `Filters.NoSegmentResult` | function_generator.py:236-238 | no accepted shape returns an array segment |
| `Filters.SegmentResults` | function_generator.py:239-248 | with a segment argument the result is object, boolean, void, int, long, double or that array's element type |
| `Filters.ScalarResults` | function_generator.py:249-262 | without segments, three or four arguments allow only object and boolean results; two arguments allow another non-void result only when it is an argument type or both arguments are objects |
| `Naming.Classify` | function_generator.py:265-318 | the first matching case of the naming chain: no arguments, a `void` result, a non-object result equal to every argument, a boolean result, an object result, anything else |
| `Naming.Spelled` | function_generator.py:277-279 | the join of the argument types' names, an object contributing "Obj"; stated through `Naming.Stem` |
| `Naming.Stem` | function_generator.py:273-281 | the part of a Consumer, Predicate or Function name before its suffix: one type name and the ordinal when `len(args) == 1`, the join otherwise; stated by `Naming.ObjectFirstStem`, `Naming.NameFollowsResult` and the per-interface name lemmas of `CoreNames` |
| `Naming.ObjectFirstStem` | function_generator.py:273-281 | an object followed by one argument of another type gives the stem "Obj" and that type's name |
| `Naming.NameAndMethod` | function_generator.py:265-318 | the interface name and method each case of the chain assigns; stated by `Naming.NameFollowsResult`, `Naming.MethodFollowsResult` and `Naming.KindRecoverable` |
| `Naming.NameFollowsResult` | function_generator.py:265-318 | every name ends in its kind's suffix (Runnable, Supplier, Consumer, Operator, Predicate, Function); the no-argument void shape is `Runnable`; a ToXFunction name ends in "To", the result type name, the ordinal and "Function" when all arguments have one type, and in "To", the result type name and "Function" otherwise |
| `Naming.MethodFollowsResult` | function_generator.py:265-318 | the functional method is `run`, `get`/`getAsX`, `accept`, `applyAsX`, `test` or `apply` according to the kind and result type |
| `Naming.KindRecoverable` | function_generator.py:265-318 | the kind is read back from the name and method alone: the naming chain loses no case |
| `DocText.Capitalize` | function_generator.py:119-120 | Python's `str.capitalize`: same length, first character upper case, the rest lower case (ASCII) |
| `DocText.Article` | function_generator.py:115-116 | `aan`: the substring test of the first slice against the vowels; stated by `DocText.ArticleChoice` |
| `DocText.CapitalArticle` | function_generator.py:119-120 | `Aan`: the article, capitalised; stated by `DocText.CapitalArticleChoice` |
| `DocText.ArticleChoice` | function_generator.py:115-116 | `aan` gives "an" exactly when the word is empty or starts with a vowel, "a" exactly otherwise |
| `DocText.CapitalArticleChoice` | function_generator.py:119-120 | `Aan` gives "An" or "A" under the same condition |
| `DocText.VocabularyOf` | function_generator.py:325-339 | the noun, verb and preposition chain for the documentation; stated against the naming kind by `DocText.VocabularyFollowsKind` |
| `DocText.VocabularyFollowsKind` | function_generator.py:325-339 | the noun and verb of the documentation match the naming chain's kind in both directions, and there is a preposition exactly when there are arguments |
| `DocText.Perform` | function_generator.py:341 | `perform`: "ies" becomes "y", otherwise the last letter goes; stated by `DocText.VerbRoundTrip` and the four `*Forms` lemmas |
| `DocText.Performed` | function_generator.py:342 | `performed`: the last letter goes, then "d" after "es" and "ed" otherwise; stated by the same lemmas |
| `DocText.VerbRoundTrip` | function_generator.py:341-342 | for a verb not ending in "ie", `perform` and `performed` applied to its third person give back the verb and its past tense |
| `DocText.PerformsForms` | function_generator.py:341-342 | "performs" yields "perform" and "performed" |
| `DocText.SuppliesForms` | function_generator.py:341-342 | "supplies" yields "supply" and "supplied" |
| `DocText.AppliesForms` | function_generator.py:341-342 | "applies" yields "apply" and "applied" |
| `DocText.EvaluatesForms` | function_generator.py:341-342 | "evaluates" yields "evaluate" and "evaluated" |
| `DocText.SymToLet` | function_generator.py:138 | `sym2let`: braces, the at sign and the tilde become four stand-in letters, everything else is kept; stated by `DocText.WrapSafe` |
| `DocText.LetToSym` | function_generator.py:139 | `let2sym`: the stand-in letters become the symbols again, the tilde's a space; stated by `DocText.TranslateRoundTrip` |
| `DocText.Translate` | function_generator.py:157 | `str.translate` maps each character through the table and keeps the length |
| `DocText.WrapSafe` | function_generator.py:138-157 | after `sym2let` no brace, at sign or tilde is left and the spaces are exactly those of the original, so wrapping never splits `{@code~x}` |
| `DocText.TranslateRoundTrip` | function_generator.py:138-162 | `let2sym` after `sym2let` restores the text with each tilde rendered as a space, for text not using the stand-in letters |
| `Members.MembersFit` | function_generator.py:516-873 | what the member tables promise: the functional method first, each combinator and static factory exactly for the kinds the script gives it, the imports its null checks and parameter types need; `Members.SelectMembers` is proved to meet it |
| `Members.MethodIsNoCombinator` | function_generator.py:516-560 | the functional method never has the name of a combinator or of `identity`, so it is never overwritten in the member tables |
| `Members.SelectMembers` | function_generator.py:516-873 | the functional method comes first; `identity` exactly for one-argument operators; static `negated` exactly for the boolean unary operator; `andThen` exactly for runnables, consumers, object functions, object suppliers and one-argument operators; `compose` exactly for one-argument object functions and operators; `and`/`or`/`negated` exactly for predicates; `java.util.Objects` imported exactly when there is a combinator and `Function` exactly for an object-typed `andThen` or `compose` |
| `Members.StaticMembers` | function_generator.py:587-621 | static `identity` exactly for one-argument operators, then static `negated` exactly for the boolean unary operator |
| `Members.AddAndThen` | function_generator.py:623-728 | appends `andThen` exactly for runnables, consumers, object functions, object suppliers and one-argument operators, importing `Objects`, and `Function` too when the result is an object |
| `Members.AddCompose` | function_generator.py:730-800 | appends `compose` exactly for one-argument shapes over an object and one-argument operators, importing `Objects`, and `Function` too for the object argument |
| `Members.AddConnectives` | function_generator.py:802-873 | appends `and`, `or` and `negated` exactly for predicates, importing `Objects` |
| `Members.Package` | function_generator.py:876-888 | the package test: the base package for JDK-typed shapes, `.array` with a segment argument, `.primitive` otherwise; stated by `Members.PackageChoice` |
| `Members.PackageChoice` | function_generator.py:876-888 | shapes over object, int, long and double with a JDK-style result go in the base package; the others go in `.array` when an argument is a segment and in `.primitive` otherwise |
| `Generator.Product` | function_generator.py:216 | `itertools.product(types[1:], repeat=argc)`, built level by level in the same order; stated by `Generator.ProductMembers` and `Generator.ProductSize` |
| `Generator.Prefixed` | function_generator.py:216 | one level of `itertools.product`: as many vectors as heads times tails |
| `Generator.PrefixedMembers` | function_generator.py:216 | a vector is in the level exactly when it is non-empty, its first type is one of the heads and the rest is one of the tails |
| `Generator.ProductMembers` | function_generator.py:216 | `itertools.product(types[1:], repeat=argc)` holds exactly the vectors of length argc over the argument types |
| `Generator.ProductSize` | function_generator.py:216 | the product has 18 to the argc-th power vectors |
| `Generator.NamesOf` | function_generator.py:323 | the names list is the interfaces' names, in order |
| `Generator.VisitShape` | function_generator.py:234-323 | one result type: the shape is appended, with its name, method, package and members, exactly when it passes the result filter and its name is not a JDK interface |
| `Generator.VisitVector` | function_generator.py:234-323 | the loop over result types keeps every recorded entry well formed and adds exactly the generated shapes of the vector, one result type after another |
| `Generator.Generate` | function_generator.py:213-323 | every entry carries the name, method, package and members the generator gives its shape; the recorded shapes are exactly those of the five argument-count levels; no recorded name is a JDK interface name; the names list matches the entries |
| `Generator.VisitLength` | function_generator.py:216-323 | the loop over the argument vectors of one length keeps every entry well formed and adds exactly the generated shapes of the vectors in `itertools.product(types[1:], repeat=argc)`; a vector the argument filter rejects adds nothing |
| `Generator.RejectedVector` | function_generator.py:219-232 | a vector the argument filter skips contributes no shape for any result type |
| `Generator.GeneratedAmongMembers` | function_generator.py:234-323 | a shape is recorded for a vector and a list of result types exactly when it has that vector, its result is in the list and it is generated |
| `Generator.VectorsAmongMembers` | function_generator.py:216-323 | a shape is recorded for a list of vectors exactly when its vector is in the list and it is generated |
| `Generator.LengthsBelowMembers` | function_generator.py:213-323 | the first n levels of the loop record exactly the generated shapes with fewer than n arguments |
| `Generator.GeneratedShapes` | function_generator.py:213-323 | a shape is recorded by the whole loop if and only if it passes the filters and its name is not a JDK interface name |
| `Generator.NamesOutsideBuiltIns` | function_generator.py:320-323 | no name in the names list is one of the JDK's own interface names |
| `CoreFiles.JdkShapesExcluded` | function_generator.py:67-112 | the `built_ins` list (`Shapes.BuiltIns`) is what removes JDK shapes: `Runnable`, `Predicate`, `IntUnaryOperator` and `BiFunction` pass both filters, yet none of them is generated |
| `CoreFiles.ObjCharArraySegmentPredicateGenerated` | src/main/java/me/dkleszyk/java/function/extra/array/ObjCharArraySegmentPredicate.java:24-38 | the generator writes this file: the shape passes the filters, is not a JDK name, is a Predicate named `ObjCharArraySegmentPredicate`, in `.array` package |
| `CoreFiles.TetraPredicateGenerated` | src/main/java/me/dkleszyk/java/function/extra/TetraPredicate.java:24-40 | the generator writes this file: the shape passes the filters, is not a JDK name, is a Predicate named `TetraPredicate`, in the base package |
| `CoreFiles.ArraySegmentPredicateGenerated` | src/main/java/me/dkleszyk/java/function/extra/array/ArraySegmentPredicate.java:24-37 | the generator writes this file: the shape passes the filters, is not a JDK name, is a Predicate named `ArraySegmentPredicate`, in `.array` package |
| `CoreFiles.TriPredicateGenerated` | src/main/java/me/dkleszyk/java/function/extra/TriPredicate.java:24-39 | the generator writes this file: the shape passes the filters, is not a JDK name, is a Predicate named `TriPredicate`, in the base package |
| `CoreFiles.ObjCharPredicateGenerated` | src/main/java/me/dkleszyk/java/function/extra/primitive/ObjCharPredicate.java:24-37 | the generator writes this file: the shape passes the filters, is not a JDK name, is a Predicate named `ObjCharPredicate`, in `.primitive` package |
| `CoreFiles.FloatBiPredicateGenerated` | src/main/java/me/dkleszyk/java/function/extra/primitive/FloatBiPredicate.java:24-35 | the generator writes this file: the shape passes the filters, is not a JDK name, is a Predicate named `FloatBiPredicate`, in `.primitive` package |
| `CoreFiles.ShortPredicateGenerated` | src/main/java/me/dkleszyk/java/function/extra/primitive/ShortPredicate.java:24-35 | the generator writes this file: the shape passes the filters, is not a JDK name, is a Predicate named `ShortPredicate`, in `.primitive` package |
| `CoreFiles.ShortUnaryOperatorGenerated` | src/main/java/me/dkleszyk/java/function/extra/primitive/ShortUnaryOperator.java:24-35 | the generator writes this file: the shape passes the filters, is not a JDK name, is a Operator named `ShortUnaryOperator`, in `.primitive` package |
| `CoreFiles.CharUnaryOperatorGenerated` | src/main/java/me/dkleszyk/java/function/extra/primitive/CharUnaryOperator.java:24-35 | the generator writes this file: the shape passes the filters, is not a JDK name, is a Operator named `CharUnaryOperator`, in `.primitive` package |
| `CoreFiles.ObjLongArraySegmentFunctionGenerated` | src/main/java/me/dkleszyk/java/function/extra/array/ObjLongArraySegmentFunction.java:24-40 | the generator writes this file: the shape passes the filters, is not a JDK name, is a Function named `ObjLongArraySegmentFunction`, in `.array` package |
| `CoreFiles.ObjByteArraySegmentConsumerGenerated` | src/main/java/me/dkleszyk/java/function/extra/array/ObjByteArraySegmentConsumer.java:24-38 | the generator writes this file: the shape passes the filters, is not a JDK name, is a Consumer named `ObjByteArraySegmentConsumer`, in `.array` package |
| `CoreFiles.TriFunctionGenerated` | src/main/java/me/dkleszyk/java/function/extra/TriFunction.java:24-40 | the generator writes this file: the shape passes the filters, is not a JDK name, is a Function named `TriFunction`, in the base package |
| `CoreFiles.ByteArraySegmentFunctionGenerated` | src/main/java/me/dkleszyk/java/function/extra/array/ByteArraySegmentFunction.java:24-38 | the generator writes this file: the shape passes the filters, is not a JDK name, is a Function named `ByteArraySegmentFunction`, in `.array` package |
| `CoreFiles.ObjFloatFunctionGenerated` | src/main/java/me/dkleszyk/java/function/extra/primitive/ObjFloatFunction.java:24-39 | the generator writes this file: the shape passes the filters, is not a JDK name, is a Function named `ObjFloatFunction`, in `.primitive` package |
| `CoreFiles.LongArraySegmentConsumerGenerated` | src/main/java/me/dkleszyk/java/function/extra/array/LongArraySegmentConsumer.java:24-35 | the generator writes this file: the shape passes the filters, is not a JDK name, is a Consumer named `LongArraySegmentConsumer`, in `.array` package |
| `CoreFiles.DoubleBiFunctionGenerated` | src/main/java/me/dkleszyk/java/function/extra/DoubleBiFunction.java:24-38 | the generator writes this file: the shape passes the filters, is not a JDK name, is a Function named `DoubleBiFunction`, in the base package |
| `CoreFiles.ObjCharConsumerGenerated` | src/main/java/me/dkleszyk/java/function/extra/primitive/ObjCharConsumer.java:24-37 | the generator writes this file: the shape passes the filters, is not a JDK name, is a Consumer named `ObjCharConsumer`, in `.primitive` package |
| `CoreFiles.ToShortFunctionGenerated` | src/main/java/me/dkleszyk/java/function/extra/primitive/ToShortFunction.java:24-38 | the generator writes this file: the shape passes the filters, is not a JDK name, is a ToFunction named `ToShortFunction`, in `.primitive` package |
| `CoreFiles.FloatFunctionGenerated` | src/main/java/me/dkleszyk/java/function/extra/primitive/FloatFunction.java:24-38 | the generator writes this file: the shape passes the filters, is not a JDK name, is a Function named `FloatFunction`, in `.primitive` package |
| `CoreFiles.ByteConsumerGenerated` | src/main/java/me/dkleszyk/java/function/extra/primitive/ByteConsumer.java:24-35 | the generator writes this file: the shape passes the filters, is not a JDK name, is a Consumer named `ByteConsumer`, in `.primitive` package |

## Left out

- Writing files and printing: the directory creation, the file writing and the final listing of names (`function_generator.py:890-1011`) are I/O. `Generator.Generate` returns the interfaces and the names list instead.
- Documentation and source text: the Javadoc sentences, `textwrap` wrapping, the generic parameter lists, the lambda texts and the method signatures (`function_generator.py:141-208`, `344-514`, `562-873` apart from which members are chosen). Only the vocabulary, articles, verb forms and translation tables are modelled.
- DocText.Capitalize: models Python's `str.capitalize` on ASCII letters only, because Unicode case mapping is not available; every string the script capitalises is ASCII.
- Uniqueness of generated names is not proved. `Generator.Generate` proves each entry's name and the completeness of the entries, not that two shapes never share a name.
- `instances` keeps the insertion order of the script's dictionaries, with the functional method first (`Members.MembersFit`). The written file lists `sorted(static_methods)` and then `sorted(instance_methods)` by name (`function_generator.py:998-1000`). That sort is not modelled, and the model states only which members are present, not their positions after the first.
- The script's `static_imports` set is never filled, so it is not modelled.
- Generics: type parameters, wildcards (`? super T`, `? extends R`) and `@FunctionalInterface` have no counterpart. Object arguments are one opaque type in each instantiation.
- Floating point: `float` and `double` values are opaque bit patterns. The combinators never compute with them.
- The element type parameter `E` of `ArraySegmentPredicate` is not tracked. An array is a reference whose contents live in the world state.
- Concurrency and the Java memory model: a body runs atomically against one state.
- The six context interfaces (`ObjDoubleArraySegmentToLongFunction`, `CharArraySegmentToDoubleFunction`, `ObjShortToShortFunction`, `ObjByteToByteFunction`, `ToFloatBiFunction`, `CharToIntFunction`) are not modelled one by one. They declare only their abstract method and no combinators; the generator model covers their shapes.
