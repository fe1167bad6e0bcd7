/** How the generator names an interface and its functional method. */
module Naming {
  import opened Shapes

  /** The kinds of interface, told apart by the number of arguments and the result. */
  datatype Kind = Runnable | Supplier | Consumer | Operator | Predicate | Function | ToFunction

  /** The first matching case of the naming chain: no arguments, a `void` result, a
      non-object result equal to every argument, a boolean result, an object result,
      anything else. */
  function Classify(argv: seq<Type>, ret: Type): Kind
  {
    if |argv| == 0 then (if ret == Void then Runnable else Supplier)
    else if ret == Void then Consumer
    else if ret != Scalar(Object) && {ret} == ArgSet(argv) then Operator
    else if ret == Scalar(Boolean) then Predicate
    else if ret == Scalar(Object) then Function
    else ToFunction
  }

  /** Argument vectors the naming chain can be asked about: at most four entries, none `void`. */
  predicate Nameable(argv: seq<Type>)
  {
    |argv| <= 4 && forall i | 0 <= i < |argv| :: argv[i] != Void
  }

  /** The argument types spelt one after the other, an object contributing "Obj". */
  function Spelled(argv: seq<Type>): string
    requires forall i | 0 <= i < |argv| :: argv[i] != Void
  {
    if argv == [] then ""
    else (if argv[0] == Scalar(Object) then "Obj" else TypeName(argv[0])) + Spelled(argv[1..])
  }

  /** The part of a Consumer, Predicate or Function name before its suffix: one type name
      and an ordinal when all arguments agree, the spelled-out arguments otherwise. */
  function Stem(argv: seq<Type>): string
    requires Nameable(argv) && |argv| > 0
  {
    if |ArgSet(argv)| == 1 then TypeName(argv[0]) + FnOrdinal(|argv|) else Spelled(argv)
  }

  /** The stem of a two-argument shape whose first argument is an object and whose second
      is not: "Obj" followed by the second argument's type name. */
  lemma ObjectFirstStem(t: Type)
    requires t != Void && t != Scalar(Object)
    ensures Stem([Scalar(Object), t]) == "Obj" + TypeName(t)
  {
    var argv := [Scalar(Object), t];
    assert ArgSet(argv) == {Scalar(Object), t};
    assert |ArgSet(argv)| == 2;
    assert argv[1..] == [t] && argv[1..][1..] == [];
    assert Spelled(argv[1..]) == TypeName(t);
  }

  lemma ArgSetHasHead(argv: seq<Type>)
    requires |argv| > 0
    ensures argv[0] in ArgSet(argv)
  {
  }

  /** The interface name and its functional method's name, as the chain assigns them. */
  function NameAndMethod(argv: seq<Type>, ret: Type): (string, string)
    requires Nameable(argv)
  {
    var argc := |argv|;
    if argc == 0 then
      if ret == Void then ("Runnable", "run")
      else (TypeName(ret) + "Supplier", if ret != Scalar(Object) then "getAs" + TypeName(ret) else "get")
    else if ret == Void then
      (Stem(argv) + "Consumer", "accept")
    else if ret != Scalar(Object) && {ret} == ArgSet(argv) then
      ArgSetHasHead(argv);
      (TypeName(argv[0]) + OpOrdinal(argc) + "Operator", "applyAs" + TypeName(ret))
    else if ret == Scalar(Boolean) then
      (Stem(argv) + "Predicate", "test")
    else if ret == Scalar(Object) then
      (Stem(argv) + "Function", "apply")
    else if |ArgSet(argv)| == 1 then
      (TypeName(argv[0]) + "To" + TypeName(ret) + FnOrdinal(argc) + "Function", "applyAs" + TypeName(ret))
    else
      (Spelled(argv) + "To" + TypeName(ret) + "Function", "applyAs" + TypeName(ret))
  }

  function Name(argv: seq<Type>, ret: Type): string
    requires Nameable(argv)
  {
    NameAndMethod(argv, ret).0
  }

  function MethodName(argv: seq<Type>, ret: Type): string
    requires Nameable(argv)
  {
    NameAndMethod(argv, ret).1
  }

  predicate EndsWith(s: string, suffix: string)
  {
    |suffix| <= |s| && s[|s| - |suffix|..] == suffix
  }

  lemma EndsWithAppended(s: string, prefix: string, suffix: string)
    requires s == prefix + suffix
    ensures EndsWith(s, suffix)
  {
    assert s[|prefix|..] == suffix;
  }

  /** Reads the kind back from a name and its method: the suffix of the name, and for the
      two kinds of function, whether the method is plain `apply`. */
  function KindOfName(name: string, mthd: string): Kind
  {
    if name == "Runnable" then Runnable
    else if EndsWith(name, "Supplier") then Supplier
    else if EndsWith(name, "Consumer") then Consumer
    else if EndsWith(name, "Operator") then Operator
    else if EndsWith(name, "Predicate") then Predicate
    else if mthd == "apply" then Function
    else ToFunction
  }

  /** The suffix each kind of name ends in. */
  function Suffix(k: Kind): string
  {
    match k
    case Runnable => "Runnable"
    case Supplier => "Supplier"
    case Consumer => "Consumer"
    case Operator => "Operator"
    case Predicate => "Predicate"
    case Function | ToFunction => "Function"
  }

  /** The name ends in its kind's suffix, and a ToXFunction name ends in "To" and the
      result's type name, followed by the ordinal when all arguments agree. */
  lemma {:induction false} NameFollowsResult(argv: seq<Type>, ret: Type)
    requires Nameable(argv)
    ensures EndsWith(Name(argv, ret), Suffix(Classify(argv, ret)))
    ensures Classify(argv, ret) == Runnable ==> Name(argv, ret) == "Runnable"
    ensures Classify(argv, ret) == ToFunction && |ArgSet(argv)| == 1 ==>
              EndsWith(Name(argv, ret), "To" + TypeName(ret) + FnOrdinal(|argv|) + "Function")
    ensures Classify(argv, ret) == ToFunction && |ArgSet(argv)| != 1 ==>
              EndsWith(Name(argv, ret), "To" + TypeName(ret) + "Function")
  {
    var k := Classify(argv, ret);
    match k
    case Runnable =>
    case Supplier => SupplierName(argv, ret);
    case Consumer => StemName(argv, ret, "Consumer");
    case Operator => OperatorName(argv, ret);
    case Predicate => StemName(argv, ret, "Predicate");
    case Function => StemName(argv, ret, "Function");
    case ToFunction => ToFunctionName(argv, ret);
  }

  lemma SupplierName(argv: seq<Type>, ret: Type)
    requires Nameable(argv) && Classify(argv, ret) == Supplier
    ensures EndsWith(Name(argv, ret), "Supplier")
  {
    var nm := NameAndMethod(argv, ret);
    assert nm.0 == TypeName(ret) + "Supplier";
    EndsWithAppended(nm.0, TypeName(ret), "Supplier");
  }

  lemma StemName(argv: seq<Type>, ret: Type, suffix: string)
    requires Nameable(argv) && Classify(argv, ret) in {Consumer, Predicate, Function}
    requires suffix == Suffix(Classify(argv, ret))
    ensures EndsWith(Name(argv, ret), suffix)
  {
    var nm := NameAndMethod(argv, ret);
    assert nm.0 == Stem(argv) + suffix;
    EndsWithAppended(nm.0, Stem(argv), suffix);
  }

  lemma OperatorName(argv: seq<Type>, ret: Type)
    requires Nameable(argv) && Classify(argv, ret) == Operator
    ensures EndsWith(Name(argv, ret), "Operator")
  {
    var nm := NameAndMethod(argv, ret);
    ArgSetHasHead(argv);
    assert nm.0 == TypeName(argv[0]) + OpOrdinal(|argv|) + "Operator";
    EndsWithAppended(nm.0, TypeName(argv[0]) + OpOrdinal(|argv|), "Operator");
  }

  lemma ToFunctionName(argv: seq<Type>, ret: Type)
    requires Nameable(argv) && Classify(argv, ret) == ToFunction
    ensures EndsWith(Name(argv, ret), "Function")
    ensures |ArgSet(argv)| == 1 ==>
              EndsWith(Name(argv, ret), "To" + TypeName(ret) + FnOrdinal(|argv|) + "Function")
    ensures |ArgSet(argv)| != 1 ==> EndsWith(Name(argv, ret), "To" + TypeName(ret) + "Function")
  {
    var nm := NameAndMethod(argv, ret);
    var x := TypeName(ret);
    if |ArgSet(argv)| == 1 {
      var head := TypeName(argv[0]);
      var ord := FnOrdinal(|argv|);
      assert nm.0 == head + "To" + x + ord + "Function";
      Regroup(head, "To", x, ord, "Function");
      EndsWithAppended(nm.0, head, "To" + x + ord + "Function");
      SuffixOfSuffix(nm.0, "To" + x + ord, "Function");
    } else {
      assert nm.0 == Spelled(argv) + "To" + x + "Function";
      Regroup4(Spelled(argv), "To", x, "Function");
      EndsWithAppended(nm.0, Spelled(argv), "To" + x + "Function");
      SuffixOfSuffix(nm.0, "To" + x, "Function");
    }
  }

  lemma Regroup4(a: string, b: string, c: string, d: string)
    ensures a + b + c + d == a + (b + c + d)
  {
  }

  lemma Regroup(a: string, b: string, c: string, d: string, e: string)
    ensures a + b + c + d + e == a + (b + c + d + e)
  {
  }

  /** The method follows the kind of the result. */
  lemma MethodFollowsResult(argv: seq<Type>, ret: Type)
    requires Nameable(argv)
    ensures MethodName(argv, ret) == MethodOf(Classify(argv, ret), ret)
  {
  }

  /** The functional method each kind declares. */
  function MethodOf(k: Kind, ret: Type): string
    requires k in {Supplier, Operator, ToFunction} ==> ret != Void
  {
    match k
    case Runnable => "run"
    case Supplier => if ret == Scalar(Object) then "get" else "getAs" + TypeName(ret)
    case Consumer => "accept"
    case Operator | ToFunction => "applyAs" + TypeName(ret)
    case Predicate => "test"
    case Function => "apply"
  }

  lemma SuffixOfSuffix(s: string, prefix: string, suffix: string)
    requires EndsWith(s, prefix + suffix)
    ensures EndsWith(s, suffix)
  {
    assert s[|s| - |suffix|..] == s[|s| - |prefix + suffix|..][|prefix|..];
  }

  /** The kind can be read back from the name and method: the naming chain loses nothing
      about which case applied. */
  lemma {:induction false} KindRecoverable(argv: seq<Type>, ret: Type)
    requires Nameable(argv)
    ensures KindOfName(Name(argv, ret), MethodName(argv, ret)) == Classify(argv, ret)
  {
    NameFollowsResult(argv, ret);
    MethodFollowsResult(argv, ret);
    var k := Classify(argv, ret);
    assert k in {Supplier, Operator, ToFunction} ==> ret != Void;
    KindOfSuffix(Name(argv, ret), MethodName(argv, ret), k, ret);
  }

  /** A name ending in a kind's suffix, with that kind's method, reads back as that kind. */
  lemma KindOfSuffix(name: string, mthd: string, k: Kind, ret: Type)
    requires k in {Supplier, Operator, ToFunction} ==> ret != Void
    requires EndsWith(name, Suffix(k)) && (k == Runnable ==> name == "Runnable")
    requires mthd == MethodOf(k, ret)
    ensures KindOfName(name, mthd) == k
  {
    DistinctSuffixes(name);
    if k == ToFunction {
      assert mthd[..7] == "applyAs";
    }
  }

  /** No name ends in two of the kind suffixes at once. */
  lemma DistinctSuffixes(name: string)
    ensures EndsWith(name, "Supplier") ==> !EndsWith(name, "Consumer") && !EndsWith(name, "Operator")
                                           && !EndsWith(name, "Predicate") && !EndsWith(name, "Function")
    ensures EndsWith(name, "Consumer") ==> !EndsWith(name, "Operator") && !EndsWith(name, "Predicate")
                                           && !EndsWith(name, "Function") && !EndsWith(name, "Supplier")
    ensures EndsWith(name, "Operator") ==> !EndsWith(name, "Predicate") && !EndsWith(name, "Function")
    ensures EndsWith(name, "Predicate") ==> !EndsWith(name, "Function")
  {
    // the eight-letter suffixes differ in full, so no name carries two of them
    SameLengthSuffixes(name, "Supplier", "Consumer");
    SameLengthSuffixes(name, "Supplier", "Operator");
    SameLengthSuffixes(name, "Supplier", "Function");
    SameLengthSuffixes(name, "Consumer", "Operator");
    SameLengthSuffixes(name, "Consumer", "Function");
    SameLengthSuffixes(name, "Operator", "Function");
    // "Predicate" is longer; its last eight letters are none of the others
    ShorterSuffix(name, "Supplier", "Predicate");
    ShorterSuffix(name, "Consumer", "Predicate");
    ShorterSuffix(name, "Operator", "Predicate");
    ShorterSuffix(name, "Function", "Predicate");
    assert "Predicate"[1..] == "redicate";
  }

  /** Two suffixes of one length are the same suffix. */
  lemma SameLengthSuffixes(name: string, a: string, b: string)
    requires |a| == |b|
    ensures EndsWith(name, a) && EndsWith(name, b) ==> a == b
  {
  }

  /** The shorter of two suffixes of a name is a suffix of the longer. */
  lemma ShorterSuffix(name: string, a: string, b: string)
    requires |a| <= |b|
    ensures EndsWith(name, a) && EndsWith(name, b) ==> EndsWith(b, a)
  {
    if EndsWith(name, a) && EndsWith(name, b) {
      assert b[|b| - |a|..] == name[|name| - |a|..];
    }
  }
}
