/** Which members, imports and package a generated interface gets. */
module Members {
  import opened Shapes
  import opened Naming

  const ObjectsImport: string := "java.util.Objects"
  const FunctionImport: string := "java.util.function.Function"

  /** The combinators an interface can receive besides its functional method. */
  const Combinators: set<string> := {"andThen", "compose", "and", "or", "negated"}

  /** A functional method is never named like a combinator or a static factory. */
  lemma {:induction false} MethodIsNoCombinator(argv: seq<Type>, ret: Type)
    requires Nameable(argv)
    ensures MethodName(argv, ret) !in Combinators + {"identity"}
  {
    MethodFollowsResult(argv, ret);
    var m := MethodName(argv, ret);
    match Classify(argv, ret)
    case Runnable =>
    case Consumer =>
    case Predicate =>
    case Function =>
    case Supplier =>
      if ret != Scalar(Object) {
        assert m[..5] == "getAs";
      }
    case Operator =>
      assert m[..7] == "applyAs";
    case ToFunction =>
      assert m[..7] == "applyAs";
  }

  /** What the generator promises about the members of an interface: the functional
      method first, each combinator exactly for the kinds it suits, and the imports its
      null checks and parameter types need. */
  predicate MembersFit(argv: seq<Type>, ret: Type, statics: seq<string>, instances: seq<string>,
                       imports: set<string>)
    requires Nameable(argv)
  {
    var k := Classify(argv, ret);
    && |instances| > 0 && instances[0] == MethodName(argv, ret)
    && (forall m | m in instances[1..] :: m in Combinators)
    && (forall m | m in statics :: m in {"identity", "negated"})
    // identity: the one-argument operators
    && ("identity" in statics <==> |argv| == 1 && k == Operator)
    // static negated: the boolean unary operator only
    && ("negated" in statics <==> argv == [Scalar(Boolean)] && ret == Scalar(Boolean))
    // andThen: runnables, consumers, object functions and suppliers, one-argument operators
    && ("andThen" in instances <==>
          || k in {Runnable, Consumer, Function}
          || (k == Supplier && ret == Scalar(Object))
          || (|argv| == 1 && k == Operator))
    // compose: one-argument shapes over an object, and one-argument operators
    && ("compose" in instances <==> |argv| == 1 && (argv[0] == Scalar(Object) || k == Operator))
    // and, or, instance negated: the predicates
    && ("and" in instances <==> k == Predicate)
    && ("or" in instances <==> k == Predicate)
    && ("negated" in instances <==> k == Predicate)
    // Objects for every null check, Function for the object-typed composition parameter
    && (ObjectsImport in imports <==> |instances| > 1)
    && (FunctionImport in imports <==>
          ("andThen" in instances && ret == Scalar(Object))
          || ("compose" in instances && argv == [Scalar(Object)]))
    && imports <= {ObjectsImport, FunctionImport}
  }

  /** The script's tests on the argument set, read as kinds of interface. */
  lemma SelectionConditions(argv: seq<Type>, ret: Type)
    requires Nameable(argv)
    ensures var k, args := Classify(argv, ret), ArgSet(argv);
      && (|argv| == 1 && ret != Scalar(Object) && args == {ret} <==> |argv| == 1 && k == Operator)
      && (|argv| == 1 && ret == Scalar(Boolean) && args == {Scalar(Boolean)} <==>
            argv == [Scalar(Boolean)] && ret == Scalar(Boolean))
      && (|argv| == 1 && args == {Scalar(Object)} <==> argv == [Scalar(Object)])
      && (|argv| > 0 && ret == Scalar(Boolean) && args != {Scalar(Boolean)} <==> k == Predicate)
      && (ret == Void <==> k in {Runnable, Consumer})
      && (ret == Scalar(Object) <==> k == Function || (k == Supplier && ret == Scalar(Object)))
  {
    if |argv| > 0 {
      assert argv[0] in ArgSet(argv);
    }
    if |argv| == 1 {
      assert ArgSet(argv) == {argv[0]};
      assert argv == [argv[0]];
    }
  }

  /** The members of one interface, collected as the generator collects them: the
      functional method first, then each combinator whose condition holds, in the order
      the generator tests them. */
  method SelectMembers(argv: seq<Type>, ret: Type)
    returns (statics: seq<string>, instances: seq<string>, imports: set<string>)
    requires Nameable(argv)
    ensures MembersFit(argv, ret, statics, instances, imports)
  {
    hide NameAndMethod, MethodName, ArgSet;
    var k := Classify(argv, ret);
    statics := StaticMembers(argv, ret);
    instances := [MethodName(argv, ret)];
    imports := {};
    instances, imports := AddAndThen(argv, ret, instances, imports);
    instances, imports := AddCompose(argv, ret, instances, imports);
    instances, imports := AddConnectives(argv, ret, instances, imports);
    MethodIsNoCombinator(argv, ret);
    InstancesLayout(MethodName(argv, ret), HasAndThen(argv, ret), HasCompose(argv, ret), k == Predicate);
    ImportsLayout(HasAndThen(argv, ret), ret == Scalar(Object), HasCompose(argv, ret), argv == [Scalar(Object)],
                  k == Predicate);
    StaticsLayout(|argv| == 1 && k == Operator, argv == [Scalar(Boolean)] && ret == Scalar(Boolean));
  }

  /** The shapes that receive an `andThen`. */
  predicate HasAndThen(argv: seq<Type>, ret: Type)
  {
    var k := Classify(argv, ret);
    || k in {Runnable, Consumer, Function}
    || (k == Supplier && ret == Scalar(Object))
    || (|argv| == 1 && k == Operator)
  }

  /** The shapes that receive a `compose`. */
  predicate HasCompose(argv: seq<Type>, ret: Type)
  {
    |argv| == 1 && (argv[0] == Scalar(Object) || Classify(argv, ret) == Operator)
  }

  /** The static factories: `identity` for one-argument operators, `negated` for the
      boolean one. */
  method StaticMembers(argv: seq<Type>, ret: Type) returns (statics: seq<string>)
    requires Nameable(argv)
    ensures statics == (if |argv| == 1 && Classify(argv, ret) == Operator then ["identity"] else [])
                       + (if argv == [Scalar(Boolean)] && ret == Scalar(Boolean) then ["negated"] else [])
  {
    var argc := |argv|;
    var args := ArgSet(argv);
    SelectionConditions(argv, ret);
    statics := [];
    if argc == 1 && ret != Scalar(Object) && args == {ret} {
      statics := statics + ["identity"];
    }
    if argc == 1 && ret == Scalar(Boolean) && args == {Scalar(Boolean)} {
      statics := statics + ["negated"];
    }
  }

  /** The `andThen` stage: an object-typed `after` also needs `Function`. */
  method AddAndThen(argv: seq<Type>, ret: Type, instances: seq<string>, imports: set<string>)
    returns (instances': seq<string>, imports': set<string>)
    requires Nameable(argv)
    ensures instances' == instances + (if HasAndThen(argv, ret) then ["andThen"] else [])
    ensures imports' == imports + (if !HasAndThen(argv, ret) then {}
                                   else if ret == Scalar(Object) then {ObjectsImport, FunctionImport}
                                   else {ObjectsImport})
  {
    var argc := |argv|;
    var args := ArgSet(argv);
    SelectionConditions(argv, ret);
    instances', imports' := instances, imports;
    if ret == Void {
      imports' := imports' + {ObjectsImport};
      instances' := instances' + ["andThen"];
    } else if ret == Scalar(Object) {
      imports' := imports' + {ObjectsImport, FunctionImport};
      instances' := instances' + ["andThen"];
    } else if argc == 1 && args == {ret} {
      imports' := imports' + {ObjectsImport};
      instances' := instances' + ["andThen"];
    }
  }

  /** The `compose` stage: an object-typed `before` also needs `Function`. */
  method AddCompose(argv: seq<Type>, ret: Type, instances: seq<string>, imports: set<string>)
    returns (instances': seq<string>, imports': set<string>)
    requires Nameable(argv)
    ensures instances' == instances + (if HasCompose(argv, ret) then ["compose"] else [])
    ensures imports' == imports + (if !HasCompose(argv, ret) then {}
                                   else if argv == [Scalar(Object)] then {ObjectsImport, FunctionImport}
                                   else {ObjectsImport})
  {
    var argc := |argv|;
    var args := ArgSet(argv);
    SelectionConditions(argv, ret);
    instances', imports' := instances, imports;
    if argc == 1 && args == {Scalar(Object)} {
      imports' := imports' + {ObjectsImport, FunctionImport};
      instances' := instances' + ["compose"];
    } else if argc == 1 && args == {ret} {
      imports' := imports' + {ObjectsImport};
      instances' := instances' + ["compose"];
    }
  }

  /** The predicate stage: `and`, `or` and `negated`. */
  method AddConnectives(argv: seq<Type>, ret: Type, instances: seq<string>, imports: set<string>)
    returns (instances': seq<string>, imports': set<string>)
    requires Nameable(argv)
    ensures instances' == instances + (if Classify(argv, ret) == Predicate then ["and", "or", "negated"] else [])
    ensures imports' == imports + (if Classify(argv, ret) == Predicate then {ObjectsImport} else {})
  {
    var argc := |argv|;
    var args := ArgSet(argv);
    SelectionConditions(argv, ret);
    instances', imports' := instances, imports;
    if argc > 0 && ret == Scalar(Boolean) && args != {Scalar(Boolean)} {
      imports' := imports' + {ObjectsImport};
      instances' := instances' + ["and"];
      imports' := imports' + {ObjectsImport};
      instances' := instances' + ["or"];
      instances' := instances' + ["negated"];
    }
  }

  /** The combinators the three stages append, in order. */
  function Appended(a: bool, c: bool, p: bool): seq<string>
  {
    (if a then ["andThen"] else []) + (if c then ["compose"] else []) + (if p then ["and", "or", "negated"] else [])
  }

  /** Which combinators the appended part holds, given which stages added members. */
  lemma TailLayout(a: bool, c: bool, p: bool)
    ensures var t := Appended(a, c, p);
      && (forall x | x in t :: x in Combinators)
      && ("andThen" in t <==> a) && ("compose" in t <==> c)
      && ("and" in t <==> p) && ("or" in t <==> p) && ("negated" in t <==> p)
      && (|t| > 0 <==> a || c || p)
  {
    var t := Appended(a, c, p);
    var connectives: seq<string> := if p then ["and", "or", "negated"] else [];
    assert "andThen" !in connectives && "compose" !in connectives;
    assert "and" !in ["andThen"] && "or" !in ["andThen"] && "negated" !in ["andThen"];
    assert "and" !in ["compose"] && "or" !in ["compose"] && "negated" !in ["compose"];
    assert "andThen" != "compose";
  }

  /** Which names the instance-member list holds: the functional method, then the
      combinators the three stages append. */
  lemma InstancesLayout(m: string, a: bool, c: bool, p: bool)
    requires m !in Combinators + {"identity"}
    ensures var s := [m] + (if a then ["andThen"] else []) + (if c then ["compose"] else [])
                     + (if p then ["and", "or", "negated"] else []);
      && s[0] == m && (forall x | x in s[1..] :: x in Combinators)
      && ("andThen" in s <==> a) && ("compose" in s <==> c)
      && ("and" in s <==> p) && ("or" in s <==> p) && ("negated" in s <==> p)
      && (|s| > 1 <==> a || c || p)
  {
    AppendedInOrder(m, a, c, p);
    NoCombinatorName(m);
    hide Appended;
    TailLayout(a, c, p);
    HeadAndTail(m, Appended(a, c, p));
  }

  /** The stages append their members in the order of `Appended`. */
  lemma AppendedInOrder(m: string, a: bool, c: bool, p: bool)
    ensures [m] + (if a then ["andThen"] else []) + (if c then ["compose"] else [])
            + (if p then ["and", "or", "negated"] else []) == [m] + Appended(a, c, p)
  {
  }

  lemma NoCombinatorName(m: string)
    requires m !in Combinators + {"identity"}
    ensures m != "andThen" && m != "compose" && m != "and" && m != "or" && m != "negated"
  {
  }

  /** A list built by putting one element before another list. */
  lemma HeadAndTail<T>(m: T, t: seq<T>)
    ensures ([m] + t)[0] == m && ([m] + t)[1..] == t && |[m] + t| == |t| + 1
    ensures forall x :: x in [m] + t <==> x == m || x in t
  {
    assert ([m] + t)[1..] == t;
  }

  /** Which imports the three stages add, given which stages added members and which of
      them take an object-typed function. */
  lemma ImportsLayout(a: bool, af: bool, c: bool, cf: bool, p: bool)
    ensures var i := {} + (if !a then {} else if af then {ObjectsImport, FunctionImport} else {ObjectsImport})
                        + (if !c then {} else if cf then {ObjectsImport, FunctionImport} else {ObjectsImport})
                        + (if p then {ObjectsImport} else {});
      && (ObjectsImport in i <==> a || c || p)
      && (FunctionImport in i <==> (a && af) || (c && cf))
      && i <= {ObjectsImport, FunctionImport}
  {
    assert ObjectsImport != FunctionImport by {
      assert |ObjectsImport| != |FunctionImport|;
    }
  }

  /** Which static factories the list holds. */
  lemma StaticsLayout(i: bool, n: bool)
    ensures var s := (if i then ["identity"] else []) + (if n then ["negated"] else []);
      && ("identity" in s <==> i) && ("negated" in s <==> n)
      && (forall m | m in s :: m in {"identity", "negated"})
  {
    assert "identity" != "negated";
  }

  /** The package an interface goes into. */
  function Package(argv: seq<Type>, ret: Type): string
  {
    if ArgSet(argv) <= {Scalar(Object), Scalar(Int), Scalar(Long), Scalar(Double)}
       && ret in {Scalar(Object), Scalar(Int), Scalar(Long), Scalar(Double), Scalar(Boolean), Void}
    then BasePackage
    else if exists i | 0 <= i < |argv| :: argv[i].Segment? then BasePackage + ".array"
    else BasePackage + ".primitive"
  }

  /** The types the JDK's own functional interfaces are specialised for. */
  predicate JdkShaped(argv: seq<Type>, ret: Type)
  {
    && (forall i | 0 <= i < |argv| :: argv[i] in {Scalar(Object), Scalar(Int), Scalar(Long), Scalar(Double)})
    && ret in {Scalar(Object), Scalar(Int), Scalar(Long), Scalar(Double), Scalar(Boolean), Void}
  }

  /** Shapes over the JDK's types stay in the base package; the rest go to `array` when they
      take an array segment and to `primitive` otherwise. */
  lemma {:induction false} PackageChoice(argv: seq<Type>, ret: Type)
    ensures JdkShaped(argv, ret) ==> Package(argv, ret) == BasePackage
    ensures !JdkShaped(argv, ret) && SegmentCount(argv) > 0 ==> Package(argv, ret) == BasePackage + ".array"
    ensures !JdkShaped(argv, ret) && SegmentCount(argv) == 0 ==> Package(argv, ret) == BasePackage + ".primitive"
  {
    var jdk := {Scalar(Object), Scalar(Int), Scalar(Long), Scalar(Double)};
    if ArgSet(argv) <= jdk {
      forall i | 0 <= i < |argv| ensures argv[i] in jdk {
        assert argv[i] in ArgSet(argv);
      }
    }
  }
}
