/** Which argument-type vectors and result types the generator accepts. */
module Filters {
  import opened Shapes

  /** The argument filter: a vector survives unless it mixes types other than "an object
      followed by arguments of one other type", has more than two arguments that are not
      all objects, or has more than one array-segment argument. */
  predicate ArgvAccepted(argv: seq<Type>)
  {
    var argc := |argv|;
    var args := ArgSet(argv);
    && !(argc > 1 && |args| > 1 && (argv[0] != Scalar(Object) || |ArgSet(argv[1..])| > 1))
    && !(argc > 2 && args != {Scalar(Object)})
    && !(SegmentCount(argv) > 1)
  }

  /** The result filter, for an accepted argument vector. */
  predicate ResultAccepted(argv: seq<Type>, ret: Type)
  {
    var argc := |argv|;
    var args := ArgSet(argv);
    if ret.Segment? then
      false
    else if exists i | 0 <= i < argc :: argv[i].Segment? then
      // functions, predicates and consumers; int and long for indices and counts,
      // double for aggregates, and the array's own element type
      || ret in {Scalar(Object), Scalar(Boolean), Void, Scalar(Int), Scalar(Long), Scalar(Double)}
      || (ret.Scalar? && Segment(ret.prim) in argv)
    else
      && !(argc > 1 && ret !in {Scalar(Object), Scalar(Boolean), Void} && ret !in argv
           && (argc > 2 || args != {Scalar(Object)}))
      && !(argc > 2 && ret !in {Scalar(Object), Scalar(Boolean)})
  }

  /** A shape the loop considers: up to four arguments drawn from the table without
      `void`, and a result drawn from the whole table. */
  predicate Candidate(argv: seq<Type>, ret: Type)
  {
    |argv| <= 4 && (forall i | 0 <= i < |argv| :: argv[i] != Void)
  }

  predicate Accepted(argv: seq<Type>, ret: Type)
  {
    Candidate(argv, ret) && ArgvAccepted(argv) && ResultAccepted(argv, ret)
  }

  // ---------------------------------------------------------------------------------
  // Set-size facts the filters rely on.

  lemma SingletonArgSet(argv: seq<Type>)
    requires |argv| > 0 && |ArgSet(argv)| <= 1
    ensures ArgSet(argv) == {argv[0]}
    ensures forall i | 0 <= i < |argv| :: argv[i] == argv[0]
  {
    assert argv[0] in ArgSet(argv);
    forall i | 0 <= i < |argv| ensures argv[i] == argv[0] {
      if argv[i] != argv[0] {
        assert {argv[0], argv[i]} <= ArgSet(argv);
        SubsetSize({argv[0], argv[i]}, ArgSet(argv));
      }
    }
  }

  lemma SubsetSize<T>(a: set<T>, b: set<T>)
    requires a <= b
    ensures |a| <= |b|
  {
    assert b == a + (b - a);
  }

  lemma UniformArgSet(argv: seq<Type>)
    requires |argv| > 0 && forall i | 0 <= i < |argv| :: argv[i] == argv[0]
    ensures ArgSet(argv) == {argv[0]}
  {
  }

  // ---------------------------------------------------------------------------------
  // What every accepted shape looks like.

  /** At most one array-segment argument, and more than two arguments only if all of
      them are objects. */
  lemma {:induction false} AcceptedArity(argv: seq<Type>, ret: Type)
    requires Accepted(argv, ret)
    ensures SegmentCount(argv) <= 1
    ensures |argv| > 2 ==> forall i | 0 <= i < |argv| :: argv[i] == Scalar(Object)
  {
    if |argv| > 2 {
      assert ArgSet(argv) == {Scalar(Object)};
      forall i | 0 <= i < |argv| ensures argv[i] == Scalar(Object) {
        assert argv[i] in ArgSet(argv);
      }
    }
  }

  /** Mixed argument types only as an object followed by arguments of a single other type. */
  lemma {:induction false} AcceptedMixed(argv: seq<Type>, ret: Type)
    requires Accepted(argv, ret) && |ArgSet(argv)| > 1
    ensures |argv| == 2
    ensures argv[0] == Scalar(Object) && argv[1] != Scalar(Object)
  {
    ShortArgSet(argv);
    assert argv[0] == Scalar(Object) && |ArgSet(argv[1..])| <= 1;
    SingletonArgSet(argv[1..]);
    UniformTail(argv);
    assert argv[1] in ArgSet(argv);
  }

  lemma ShortArgSet(argv: seq<Type>)
    ensures |argv| <= 1 ==> |ArgSet(argv)| <= 1
  {
    if |argv| == 1 {
      assert ArgSet(argv) == {argv[0]};
    } else if |argv| == 0 {
      assert ArgSet(argv) == {};
    }
  }

  /** A vector whose tail repeats one type and whose head equals it is uniform. */
  lemma UniformTail(argv: seq<Type>)
    requires |argv| >= 2
    requires forall i | 0 <= i < |argv| - 1 :: argv[1..][i] == argv[1..][0]
    ensures argv[0] == argv[1] ==> ArgSet(argv) == {argv[0]}
  {
    if argv[0] == argv[1] {
      forall i | 0 <= i < |argv| ensures argv[i] == argv[0] {
        if i > 0 { assert argv[1..][i - 1] == argv[i]; }
      }
      UniformArgSet(argv);
    }
  }

  /** No array-segment result is ever generated. */
  lemma NoSegmentResult(argv: seq<Type>, ret: Type)
    requires Accepted(argv, ret)
    ensures !ret.Segment?
  {
  }

  /** With an array-segment argument the result is object, boolean, void, int, long,
      double, or the element type of that array. */
  lemma SegmentResults(argv: seq<Type>, ret: Type)
    requires Accepted(argv, ret) && SegmentCount(argv) > 0
    ensures ret in {Scalar(Object), Scalar(Boolean), Void, Scalar(Int), Scalar(Long), Scalar(Double)}
            || (ret.Scalar? && Segment(ret.prim) in argv)
  {
  }

  /** Without array segments, more than two arguments allow only Function and Predicate
      results, and two arguments a non-object, non-boolean, non-void result only when it
      is one of the argument types or both arguments are objects. */
  lemma ScalarResults(argv: seq<Type>, ret: Type)
    requires Accepted(argv, ret) && SegmentCount(argv) == 0
    ensures |argv| > 2 ==> ret in {Scalar(Object), Scalar(Boolean)}
    ensures |argv| == 2 && ret !in {Scalar(Object), Scalar(Boolean), Void} ==>
              ret in argv || argv == [Scalar(Object), Scalar(Object)]
  {
    if |argv| == 2 && ret !in {Scalar(Object), Scalar(Boolean), Void} && ret !in argv {
      assert ArgSet(argv) == {Scalar(Object)};
      assert argv[0] in ArgSet(argv) && argv[1] in ArgSet(argv);
    }
  }
}
