/** The names the generator gives the interfaces modelled one by one, read off the naming
    chain for each shape. */
module CoreNames {
  import opened Shapes
  import opened Naming

  const O: Type := Scalar(Object)

  lemma ObjCharArraySegmentPredicateNamed()
    ensures Name([O, Segment(Char)], Scalar(Boolean)) == "ObjCharArraySegmentPredicate"
  {
    var argv := [O, Segment(Char)];
    assert ArgSet(argv) == {O, Segment(Char)};
    ObjCharArraySegmentPredicateStem();
    hide Stem, Spelled;
  }

  lemma ObjCharArraySegmentPredicateStem()
    ensures Stem([O, Segment(Char)]) == "ObjCharArraySegment"
  {
    ObjectFirstStem(Segment(Char));
    hide Stem, Spelled, ArgSet;
  }

  lemma TetraPredicateNamed()
    ensures Name([O, O, O, O], Scalar(Boolean)) == "TetraPredicate"
  {
    var argv := [O, O, O, O];
    assert ArgSet(argv) == {O};
    assert ArgSet(argv[1..]) == {O};
  }

  lemma ArraySegmentPredicateNamed()
    ensures Name([Segment(Object)], Scalar(Boolean)) == "ArraySegmentPredicate"
  {
    var argv := [Segment(Object)];
    assert ArgSet(argv) == {Segment(Object)};
    assert argv[0].Segment?;
  }

  lemma TriPredicateNamed()
    ensures Name([O, O, O], Scalar(Boolean)) == "TriPredicate"
  {
    var argv := [O, O, O];
    assert ArgSet(argv) == {O};
    assert ArgSet(argv[1..]) == {O};
  }

  lemma ObjCharPredicateNamed()
    ensures Name([O, Scalar(Char)], Scalar(Boolean)) == "ObjCharPredicate"
  {
    var argv := [O, Scalar(Char)];
    assert ArgSet(argv) == {O, Scalar(Char)};
    ObjCharPredicateStem();
    hide Stem, Spelled;
  }

  lemma ObjCharPredicateStem()
    ensures Stem([O, Scalar(Char)]) == "ObjChar"
  {
    ObjectFirstStem(Scalar(Char));
    hide Stem, Spelled, ArgSet;
  }

  lemma FloatBiPredicateNamed()
    ensures Name([Scalar(Float), Scalar(Float)], Scalar(Boolean)) == "FloatBiPredicate"
  {
    var argv := [Scalar(Float), Scalar(Float)];
    assert ArgSet(argv) == {Scalar(Float)};
    assert ArgSet(argv[1..]) == {Scalar(Float)};
  }

  lemma ShortPredicateNamed()
    ensures Name([Scalar(Short)], Scalar(Boolean)) == "ShortPredicate"
  {
    var argv := [Scalar(Short)];
    assert ArgSet(argv) == {Scalar(Short)};
  }

  lemma ShortUnaryOperatorNamed()
    ensures Name([Scalar(Short)], Scalar(Short)) == "ShortUnaryOperator"
  {
    var argv := [Scalar(Short)];
    assert ArgSet(argv) == {Scalar(Short)};
  }

  lemma CharUnaryOperatorNamed()
    ensures Name([Scalar(Char)], Scalar(Char)) == "CharUnaryOperator"
  {
    var argv := [Scalar(Char)];
    assert ArgSet(argv) == {Scalar(Char)};
  }

  lemma ObjLongArraySegmentFunctionNamed()
    ensures Name([O, Segment(Long)], O) == "ObjLongArraySegmentFunction"
  {
    var argv := [O, Segment(Long)];
    assert ArgSet(argv) == {O, Segment(Long)};
    ObjLongArraySegmentFunctionStem();
    hide Stem, Spelled;
  }

  lemma ObjLongArraySegmentFunctionStem()
    ensures Stem([O, Segment(Long)]) == "ObjLongArraySegment"
  {
    ObjectFirstStem(Segment(Long));
    hide Stem, Spelled, ArgSet;
  }

  lemma ObjByteArraySegmentConsumerNamed()
    ensures Name([O, Segment(Byte)], Void) == "ObjByteArraySegmentConsumer"
  {
    var argv := [O, Segment(Byte)];
    assert ArgSet(argv) == {O, Segment(Byte)};
    ObjByteArraySegmentConsumerStem();
    hide Stem, Spelled;
  }

  lemma ObjByteArraySegmentConsumerStem()
    ensures Stem([O, Segment(Byte)]) == "ObjByteArraySegment"
  {
    ObjectFirstStem(Segment(Byte));
    hide Stem, Spelled, ArgSet;
  }

  lemma TriFunctionNamed()
    ensures Name([O, O, O], O) == "TriFunction"
  {
    var argv := [O, O, O];
    assert ArgSet(argv) == {O};
    assert ArgSet(argv[1..]) == {O};
  }

  lemma ByteArraySegmentFunctionNamed()
    ensures Name([Segment(Byte)], O) == "ByteArraySegmentFunction"
  {
    var argv := [Segment(Byte)];
    assert ArgSet(argv) == {Segment(Byte)};
    assert argv[0].Segment?;
  }

  lemma ObjFloatFunctionNamed()
    ensures Name([O, Scalar(Float)], O) == "ObjFloatFunction"
  {
    var argv := [O, Scalar(Float)];
    assert ArgSet(argv) == {O, Scalar(Float)};
    ObjFloatFunctionStem();
    hide Stem, Spelled;
  }

  lemma ObjFloatFunctionStem()
    ensures Stem([O, Scalar(Float)]) == "ObjFloat"
  {
    ObjectFirstStem(Scalar(Float));
    hide Stem, Spelled, ArgSet;
  }

  lemma LongArraySegmentConsumerNamed()
    ensures Name([Segment(Long)], Void) == "LongArraySegmentConsumer"
  {
    var argv := [Segment(Long)];
    assert ArgSet(argv) == {Segment(Long)};
    assert argv[0].Segment?;
  }

  lemma DoubleBiFunctionNamed()
    ensures Name([Scalar(Double), Scalar(Double)], O) == "DoubleBiFunction"
  {
    var argv := [Scalar(Double), Scalar(Double)];
    assert ArgSet(argv) == {Scalar(Double)};
    assert ArgSet(argv[1..]) == {Scalar(Double)};
  }

  lemma ObjCharConsumerNamed()
    ensures Name([O, Scalar(Char)], Void) == "ObjCharConsumer"
  {
    var argv := [O, Scalar(Char)];
    assert ArgSet(argv) == {O, Scalar(Char)};
    ObjCharConsumerStem();
    hide Stem, Spelled;
  }

  lemma ObjCharConsumerStem()
    ensures Stem([O, Scalar(Char)]) == "ObjChar"
  {
    ObjectFirstStem(Scalar(Char));
    hide Stem, Spelled, ArgSet;
  }

  lemma ToShortFunctionNamed()
    ensures Name([O], Scalar(Short)) == "ToShortFunction"
  {
    var argv := [O];
    assert ArgSet(argv) == {O};
  }

  lemma FloatFunctionNamed()
    ensures Name([Scalar(Float)], O) == "FloatFunction"
  {
    var argv := [Scalar(Float)];
    assert ArgSet(argv) == {Scalar(Float)};
  }

  lemma ByteConsumerNamed()
    ensures Name([Scalar(Byte)], Void) == "ByteConsumer"
  {
    var argv := [Scalar(Byte)];
    assert ArgSet(argv) == {Scalar(Byte)};
  }

  // ---------------------------------------------------------------------------------
  // Shapes the JDK already provides: the naming chain gives them the JDK's own names.

  lemma RunnableNamed()
    ensures Name([], Void) == "Runnable"
  {
  }

  lemma PredicateNamed()
    ensures Name([O], Scalar(Boolean)) == "Predicate"
  {
    var argv := [O];
    assert ArgSet(argv) == {O};
  }

  lemma IntUnaryOperatorNamed()
    ensures Name([Scalar(Int)], Scalar(Int)) == "IntUnaryOperator"
  {
    var argv := [Scalar(Int)];
    assert ArgSet(argv) == {Scalar(Int)};
  }

  lemma BiFunctionNamed()
    ensures Name([O, O], O) == "BiFunction"
  {
    var argv := [O, O];
    assert ArgSet(argv) == {O};
    assert ArgSet(argv[1..]) == {O};
  }
}
