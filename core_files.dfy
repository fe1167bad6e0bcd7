/** The interfaces whose combinators are modelled one by one, located in the generator's
    output: each is a shape the generator writes, of the kind its combinators belong to,
    under the name and in the package its source file carries. */
module CoreFiles {
  import opened Shapes
  import opened Filters
  import opened Naming
  import opened Members
  import opened Generator
  import opened CoreNames

  const Array: string := BasePackage + ".array"
  const Primitive: string := BasePackage + ".primitive"

  /** The generator writes the shape, as an interface of the given kind, name and package. */
  predicate GeneratedAs(argv: seq<Type>, ret: Type, kind: Kind, name: string, package: string)
  {
    Generated(argv, ret) && Classify(argv, ret) == kind && Name(argv, ret) == name
    && Package(argv, ret) == package
  }

  lemma ObjCharArraySegmentPredicateGenerated()
    ensures GeneratedAs([O, Segment(Char)], Scalar(Boolean), Predicate, "ObjCharArraySegmentPredicate", Array)
  {
    assert "ObjCharArraySegmentPredicate" !in BuiltIns;
    ObjCharArraySegmentPredicateFiltered();
    ObjCharArraySegmentPredicateNamed();
    ObjCharArraySegmentPredicatePlaced();
  }

  lemma ObjCharArraySegmentPredicateFiltered()
    ensures Accepted([O, Segment(Char)], Scalar(Boolean)) && Classify([O, Segment(Char)], Scalar(Boolean)) == Predicate
  {
    var argv := [O, Segment(Char)];
    assert ArgSet(argv) == {O, Segment(Char)};
    assert ArgSet(argv[1..]) == {Segment(Char)};
    assert argv[1].Segment?;
  }

  lemma ObjCharArraySegmentPredicatePlaced()
    ensures Package([O, Segment(Char)], Scalar(Boolean)) == Array
  {
    var argv := [O, Segment(Char)];
    assert ArgSet(argv) == {O, Segment(Char)};
    assert argv[1].Segment?;
  }

  lemma TetraPredicateGenerated()
    ensures GeneratedAs([O, O, O, O], Scalar(Boolean), Predicate, "TetraPredicate", BasePackage)
  {
    assert "TetraPredicate" !in BuiltIns;
    TetraPredicateFiltered();
    TetraPredicateNamed();
    TetraPredicatePlaced();
  }

  lemma TetraPredicateFiltered()
    ensures Accepted([O, O, O, O], Scalar(Boolean)) && Classify([O, O, O, O], Scalar(Boolean)) == Predicate
  {
    var argv := [O, O, O, O];
    assert ArgSet(argv) == {O};
    assert ArgSet(argv[1..]) == {O};
  }

  lemma TetraPredicatePlaced()
    ensures Package([O, O, O, O], Scalar(Boolean)) == BasePackage
  {
    var argv := [O, O, O, O];
    assert ArgSet(argv) == {O};
  }

  lemma ArraySegmentPredicateGenerated()
    ensures GeneratedAs([Segment(Object)], Scalar(Boolean), Predicate, "ArraySegmentPredicate", Array)
  {
    assert "ArraySegmentPredicate" !in BuiltIns;
    ArraySegmentPredicateFiltered();
    ArraySegmentPredicateNamed();
    ArraySegmentPredicatePlaced();
  }

  lemma ArraySegmentPredicateFiltered()
    ensures Accepted([Segment(Object)], Scalar(Boolean)) && Classify([Segment(Object)], Scalar(Boolean)) == Predicate
  {
    var argv := [Segment(Object)];
    assert ArgSet(argv) == {Segment(Object)};
    assert argv[0].Segment?;
  }

  lemma ArraySegmentPredicatePlaced()
    ensures Package([Segment(Object)], Scalar(Boolean)) == Array
  {
    var argv := [Segment(Object)];
    assert ArgSet(argv) == {Segment(Object)};
    assert argv[0].Segment?;
  }

  lemma TriPredicateGenerated()
    ensures GeneratedAs([O, O, O], Scalar(Boolean), Predicate, "TriPredicate", BasePackage)
  {
    assert "TriPredicate" !in BuiltIns;
    TriPredicateFiltered();
    TriPredicateNamed();
    TriPredicatePlaced();
  }

  lemma TriPredicateFiltered()
    ensures Accepted([O, O, O], Scalar(Boolean)) && Classify([O, O, O], Scalar(Boolean)) == Predicate
  {
    var argv := [O, O, O];
    assert ArgSet(argv) == {O};
    assert ArgSet(argv[1..]) == {O};
  }

  lemma TriPredicatePlaced()
    ensures Package([O, O, O], Scalar(Boolean)) == BasePackage
  {
    var argv := [O, O, O];
    assert ArgSet(argv) == {O};
  }

  lemma ObjCharPredicateGenerated()
    ensures GeneratedAs([O, Scalar(Char)], Scalar(Boolean), Predicate, "ObjCharPredicate", Primitive)
  {
    assert "ObjCharPredicate" !in BuiltIns;
    ObjCharPredicateFiltered();
    ObjCharPredicateNamed();
    ObjCharPredicatePlaced();
  }

  lemma ObjCharPredicateFiltered()
    ensures Accepted([O, Scalar(Char)], Scalar(Boolean)) && Classify([O, Scalar(Char)], Scalar(Boolean)) == Predicate
  {
    var argv := [O, Scalar(Char)];
    assert ArgSet(argv) == {O, Scalar(Char)};
    assert ArgSet(argv[1..]) == {Scalar(Char)};
  }

  lemma ObjCharPredicatePlaced()
    ensures Package([O, Scalar(Char)], Scalar(Boolean)) == Primitive
  {
    var argv := [O, Scalar(Char)];
    assert ArgSet(argv) == {O, Scalar(Char)};
  }

  lemma FloatBiPredicateGenerated()
    ensures GeneratedAs([Scalar(Float), Scalar(Float)], Scalar(Boolean), Predicate, "FloatBiPredicate", Primitive)
  {
    assert "FloatBiPredicate" !in BuiltIns;
    FloatBiPredicateFiltered();
    FloatBiPredicateNamed();
    FloatBiPredicatePlaced();
  }

  lemma FloatBiPredicateFiltered()
    ensures Accepted([Scalar(Float), Scalar(Float)], Scalar(Boolean)) && Classify([Scalar(Float), Scalar(Float)], Scalar(Boolean)) == Predicate
  {
    var argv := [Scalar(Float), Scalar(Float)];
    assert ArgSet(argv) == {Scalar(Float)};
    assert ArgSet(argv[1..]) == {Scalar(Float)};
  }

  lemma FloatBiPredicatePlaced()
    ensures Package([Scalar(Float), Scalar(Float)], Scalar(Boolean)) == Primitive
  {
    var argv := [Scalar(Float), Scalar(Float)];
    assert ArgSet(argv) == {Scalar(Float)};
  }

  lemma ShortPredicateGenerated()
    ensures GeneratedAs([Scalar(Short)], Scalar(Boolean), Predicate, "ShortPredicate", Primitive)
  {
    assert "ShortPredicate" !in BuiltIns;
    ShortPredicateFiltered();
    ShortPredicateNamed();
    ShortPredicatePlaced();
  }

  lemma ShortPredicateFiltered()
    ensures Accepted([Scalar(Short)], Scalar(Boolean)) && Classify([Scalar(Short)], Scalar(Boolean)) == Predicate
  {
    var argv := [Scalar(Short)];
    assert ArgSet(argv) == {Scalar(Short)};
  }

  lemma ShortPredicatePlaced()
    ensures Package([Scalar(Short)], Scalar(Boolean)) == Primitive
  {
    var argv := [Scalar(Short)];
    assert ArgSet(argv) == {Scalar(Short)};
  }

  lemma ShortUnaryOperatorGenerated()
    ensures GeneratedAs([Scalar(Short)], Scalar(Short), Operator, "ShortUnaryOperator", Primitive)
  {
    assert "ShortUnaryOperator" !in BuiltIns;
    ShortUnaryOperatorFiltered();
    ShortUnaryOperatorNamed();
    ShortUnaryOperatorPlaced();
  }

  lemma ShortUnaryOperatorFiltered()
    ensures Accepted([Scalar(Short)], Scalar(Short)) && Classify([Scalar(Short)], Scalar(Short)) == Operator
  {
    var argv := [Scalar(Short)];
    assert ArgSet(argv) == {Scalar(Short)};
  }

  lemma ShortUnaryOperatorPlaced()
    ensures Package([Scalar(Short)], Scalar(Short)) == Primitive
  {
    var argv := [Scalar(Short)];
    assert ArgSet(argv) == {Scalar(Short)};
  }

  lemma CharUnaryOperatorGenerated()
    ensures GeneratedAs([Scalar(Char)], Scalar(Char), Operator, "CharUnaryOperator", Primitive)
  {
    assert "CharUnaryOperator" !in BuiltIns;
    CharUnaryOperatorFiltered();
    CharUnaryOperatorNamed();
    CharUnaryOperatorPlaced();
  }

  lemma CharUnaryOperatorFiltered()
    ensures Accepted([Scalar(Char)], Scalar(Char)) && Classify([Scalar(Char)], Scalar(Char)) == Operator
  {
    var argv := [Scalar(Char)];
    assert ArgSet(argv) == {Scalar(Char)};
  }

  lemma CharUnaryOperatorPlaced()
    ensures Package([Scalar(Char)], Scalar(Char)) == Primitive
  {
    var argv := [Scalar(Char)];
    assert ArgSet(argv) == {Scalar(Char)};
  }

  lemma ObjLongArraySegmentFunctionGenerated()
    ensures GeneratedAs([O, Segment(Long)], O, Function, "ObjLongArraySegmentFunction", Array)
  {
    assert "ObjLongArraySegmentFunction" !in BuiltIns;
    ObjLongArraySegmentFunctionFiltered();
    ObjLongArraySegmentFunctionNamed();
    ObjLongArraySegmentFunctionPlaced();
  }

  lemma ObjLongArraySegmentFunctionFiltered()
    ensures Accepted([O, Segment(Long)], O) && Classify([O, Segment(Long)], O) == Function
  {
    var argv := [O, Segment(Long)];
    assert ArgSet(argv) == {O, Segment(Long)};
    assert ArgSet(argv[1..]) == {Segment(Long)};
    assert argv[1].Segment?;
  }

  lemma ObjLongArraySegmentFunctionPlaced()
    ensures Package([O, Segment(Long)], O) == Array
  {
    var argv := [O, Segment(Long)];
    assert ArgSet(argv) == {O, Segment(Long)};
    assert argv[1].Segment?;
  }

  lemma ObjByteArraySegmentConsumerGenerated()
    ensures GeneratedAs([O, Segment(Byte)], Void, Consumer, "ObjByteArraySegmentConsumer", Array)
  {
    assert "ObjByteArraySegmentConsumer" !in BuiltIns;
    ObjByteArraySegmentConsumerFiltered();
    ObjByteArraySegmentConsumerNamed();
    ObjByteArraySegmentConsumerPlaced();
  }

  lemma ObjByteArraySegmentConsumerFiltered()
    ensures Accepted([O, Segment(Byte)], Void) && Classify([O, Segment(Byte)], Void) == Consumer
  {
    var argv := [O, Segment(Byte)];
    assert ArgSet(argv) == {O, Segment(Byte)};
    assert ArgSet(argv[1..]) == {Segment(Byte)};
    assert argv[1].Segment?;
  }

  lemma ObjByteArraySegmentConsumerPlaced()
    ensures Package([O, Segment(Byte)], Void) == Array
  {
    var argv := [O, Segment(Byte)];
    assert ArgSet(argv) == {O, Segment(Byte)};
    assert argv[1].Segment?;
  }

  lemma TriFunctionGenerated()
    ensures GeneratedAs([O, O, O], O, Function, "TriFunction", BasePackage)
  {
    assert "TriFunction" !in BuiltIns;
    TriFunctionFiltered();
    TriFunctionNamed();
    TriFunctionPlaced();
  }

  lemma TriFunctionFiltered()
    ensures Accepted([O, O, O], O) && Classify([O, O, O], O) == Function
  {
    var argv := [O, O, O];
    assert ArgSet(argv) == {O};
    assert ArgSet(argv[1..]) == {O};
  }

  lemma TriFunctionPlaced()
    ensures Package([O, O, O], O) == BasePackage
  {
    var argv := [O, O, O];
    assert ArgSet(argv) == {O};
  }

  lemma ByteArraySegmentFunctionGenerated()
    ensures GeneratedAs([Segment(Byte)], O, Function, "ByteArraySegmentFunction", Array)
  {
    assert "ByteArraySegmentFunction" !in BuiltIns;
    ByteArraySegmentFunctionFiltered();
    ByteArraySegmentFunctionNamed();
    ByteArraySegmentFunctionPlaced();
  }

  lemma ByteArraySegmentFunctionFiltered()
    ensures Accepted([Segment(Byte)], O) && Classify([Segment(Byte)], O) == Function
  {
    var argv := [Segment(Byte)];
    assert ArgSet(argv) == {Segment(Byte)};
    assert argv[0].Segment?;
  }

  lemma ByteArraySegmentFunctionPlaced()
    ensures Package([Segment(Byte)], O) == Array
  {
    var argv := [Segment(Byte)];
    assert ArgSet(argv) == {Segment(Byte)};
    assert argv[0].Segment?;
  }

  lemma ObjFloatFunctionGenerated()
    ensures GeneratedAs([O, Scalar(Float)], O, Function, "ObjFloatFunction", Primitive)
  {
    assert "ObjFloatFunction" !in BuiltIns;
    ObjFloatFunctionFiltered();
    ObjFloatFunctionNamed();
    ObjFloatFunctionPlaced();
  }

  lemma ObjFloatFunctionFiltered()
    ensures Accepted([O, Scalar(Float)], O) && Classify([O, Scalar(Float)], O) == Function
  {
    var argv := [O, Scalar(Float)];
    assert ArgSet(argv) == {O, Scalar(Float)};
    assert ArgSet(argv[1..]) == {Scalar(Float)};
  }

  lemma ObjFloatFunctionPlaced()
    ensures Package([O, Scalar(Float)], O) == Primitive
  {
    var argv := [O, Scalar(Float)];
    assert ArgSet(argv) == {O, Scalar(Float)};
  }

  lemma LongArraySegmentConsumerGenerated()
    ensures GeneratedAs([Segment(Long)], Void, Consumer, "LongArraySegmentConsumer", Array)
  {
    assert "LongArraySegmentConsumer" !in BuiltIns;
    LongArraySegmentConsumerFiltered();
    LongArraySegmentConsumerNamed();
    LongArraySegmentConsumerPlaced();
  }

  lemma LongArraySegmentConsumerFiltered()
    ensures Accepted([Segment(Long)], Void) && Classify([Segment(Long)], Void) == Consumer
  {
    var argv := [Segment(Long)];
    assert ArgSet(argv) == {Segment(Long)};
    assert argv[0].Segment?;
  }

  lemma LongArraySegmentConsumerPlaced()
    ensures Package([Segment(Long)], Void) == Array
  {
    var argv := [Segment(Long)];
    assert ArgSet(argv) == {Segment(Long)};
    assert argv[0].Segment?;
  }

  lemma DoubleBiFunctionGenerated()
    ensures GeneratedAs([Scalar(Double), Scalar(Double)], O, Function, "DoubleBiFunction", BasePackage)
  {
    assert "DoubleBiFunction" !in BuiltIns;
    DoubleBiFunctionFiltered();
    DoubleBiFunctionNamed();
    DoubleBiFunctionPlaced();
  }

  lemma DoubleBiFunctionFiltered()
    ensures Accepted([Scalar(Double), Scalar(Double)], O) && Classify([Scalar(Double), Scalar(Double)], O) == Function
  {
    var argv := [Scalar(Double), Scalar(Double)];
    assert ArgSet(argv) == {Scalar(Double)};
    assert ArgSet(argv[1..]) == {Scalar(Double)};
  }

  lemma DoubleBiFunctionPlaced()
    ensures Package([Scalar(Double), Scalar(Double)], O) == BasePackage
  {
    var argv := [Scalar(Double), Scalar(Double)];
    assert ArgSet(argv) == {Scalar(Double)};
  }

  lemma ObjCharConsumerGenerated()
    ensures GeneratedAs([O, Scalar(Char)], Void, Consumer, "ObjCharConsumer", Primitive)
  {
    assert "ObjCharConsumer" !in BuiltIns;
    ObjCharConsumerFiltered();
    ObjCharConsumerNamed();
    ObjCharConsumerPlaced();
  }

  lemma ObjCharConsumerFiltered()
    ensures Accepted([O, Scalar(Char)], Void) && Classify([O, Scalar(Char)], Void) == Consumer
  {
    var argv := [O, Scalar(Char)];
    assert ArgSet(argv) == {O, Scalar(Char)};
    assert ArgSet(argv[1..]) == {Scalar(Char)};
  }

  lemma ObjCharConsumerPlaced()
    ensures Package([O, Scalar(Char)], Void) == Primitive
  {
    var argv := [O, Scalar(Char)];
    assert ArgSet(argv) == {O, Scalar(Char)};
  }

  lemma ToShortFunctionGenerated()
    ensures GeneratedAs([O], Scalar(Short), ToFunction, "ToShortFunction", Primitive)
  {
    assert "ToShortFunction" !in BuiltIns;
    ToShortFunctionFiltered();
    ToShortFunctionNamed();
    ToShortFunctionPlaced();
  }

  lemma ToShortFunctionFiltered()
    ensures Accepted([O], Scalar(Short)) && Classify([O], Scalar(Short)) == ToFunction
  {
    var argv := [O];
    assert ArgSet(argv) == {O};
  }

  lemma ToShortFunctionPlaced()
    ensures Package([O], Scalar(Short)) == Primitive
  {
    var argv := [O];
    assert ArgSet(argv) == {O};
  }

  lemma FloatFunctionGenerated()
    ensures GeneratedAs([Scalar(Float)], O, Function, "FloatFunction", Primitive)
  {
    assert "FloatFunction" !in BuiltIns;
    FloatFunctionFiltered();
    FloatFunctionNamed();
    FloatFunctionPlaced();
  }

  lemma FloatFunctionFiltered()
    ensures Accepted([Scalar(Float)], O) && Classify([Scalar(Float)], O) == Function
  {
    var argv := [Scalar(Float)];
    assert ArgSet(argv) == {Scalar(Float)};
  }

  lemma FloatFunctionPlaced()
    ensures Package([Scalar(Float)], O) == Primitive
  {
    var argv := [Scalar(Float)];
    assert ArgSet(argv) == {Scalar(Float)};
  }

  lemma ByteConsumerGenerated()
    ensures GeneratedAs([Scalar(Byte)], Void, Consumer, "ByteConsumer", Primitive)
  {
    assert "ByteConsumer" !in BuiltIns;
    ByteConsumerFiltered();
    ByteConsumerNamed();
    ByteConsumerPlaced();
  }

  lemma ByteConsumerFiltered()
    ensures Accepted([Scalar(Byte)], Void) && Classify([Scalar(Byte)], Void) == Consumer
  {
    var argv := [Scalar(Byte)];
    assert ArgSet(argv) == {Scalar(Byte)};
  }

  lemma ByteConsumerPlaced()
    ensures Package([Scalar(Byte)], Void) == Primitive
  {
    var argv := [Scalar(Byte)];
    assert ArgSet(argv) == {Scalar(Byte)};
  }

  // ---------------------------------------------------------------------------------
  // The JDK exclusion list at work: shapes the filters accept but the JDK already has.

  /** `Runnable`, `Predicate`, `IntUnaryOperator` and `BiFunction` pass both filters, and
      only the built-in list keeps the generator from writing them again. */
  lemma JdkShapesExcluded()
    ensures Accepted([], Void) && !Generated([], Void)
    ensures Accepted([O], Scalar(Boolean)) && !Generated([O], Scalar(Boolean))
    ensures Accepted([Scalar(Int)], Scalar(Int)) && !Generated([Scalar(Int)], Scalar(Int))
    ensures Accepted([O, O], O) && !Generated([O, O], O)
  {
    RunnableExcluded();
    PredicateExcluded();
    IntUnaryOperatorExcluded();
    BiFunctionExcluded();
  }

  lemma RunnableExcluded()
    ensures Accepted([], Void) && !Generated([], Void)
  {
    RunnableNamed();
    assert BuiltIns[0] == "Runnable";
  }

  lemma PredicateExcluded()
    ensures Accepted([O], Scalar(Boolean)) && !Generated([O], Scalar(Boolean))
  {
    PredicateNamed();
    assert BuiltIns[35] == "Predicate";
  }

  lemma IntUnaryOperatorExcluded()
    ensures Accepted([Scalar(Int)], Scalar(Int)) && !Generated([Scalar(Int)], Scalar(Int))
  {
    IntUnaryOperatorNamed();
    assert BuiltIns[23] == "IntUnaryOperator";
  }

  lemma BiFunctionExcluded()
    ensures Accepted([O, O], O) && !Generated([O, O], O)
  {
    var argv := [O, O];
    assert ArgSet(argv) == {O};
    BiFunctionNamed();
    assert BuiltIns[2] == "BiFunction";
  }
}
