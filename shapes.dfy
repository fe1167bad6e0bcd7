/** The vocabulary of the interface generator: the nineteen entries of its type table,
    the ordinal words it builds names from, and the JDK's own interfaces it must not
    re-declare. */
module Shapes {

  /** The element kinds: `object` and Java's eight primitive types (no `void`). */
  datatype Prim = Object | Boolean | Byte | Char | Double | Float | Int | Long | Short

  /** An entry of the type table: `void`, a single value, or an array segment
      (`"object[]"`, `"char[]"`, ...), which stands for an array with start and end indices. */
  datatype Type = Void | Scalar(prim: Prim) | Segment(elem: Prim)

  /** The table's keys in their declared order: `void`, the nine values, the nine segments. */
  const Types: seq<Type> := [
    Void,
    Scalar(Object), Scalar(Boolean), Scalar(Byte), Scalar(Char), Scalar(Double),
    Scalar(Float), Scalar(Int), Scalar(Long), Scalar(Short),
    Segment(Object), Segment(Boolean), Segment(Byte), Segment(Char), Segment(Double),
    Segment(Float), Segment(Int), Segment(Long), Segment(Short)
  ]

  /** The argument types: every table entry except `void`. */
  const ArgTypes: seq<Type> := Types[1..]

  /** The name fragment of each primitive; `object` contributes nothing. */
  function PrimName(p: Prim): string
  {
    match p
    case Object => ""
    case Boolean => "Boolean"
    case Byte => "Byte"
    case Char => "Char"
    case Double => "Double"
    case Float => "Float"
    case Int => "Int"
    case Long => "Long"
    case Short => "Short"
  }

  /** The type table's value for a type; `void` maps to no name at all, so it is not asked. */
  function TypeName(t: Type): string
    requires t != Void
  {
    match t
    case Scalar(p) => PrimName(p)
    case Segment(p) => PrimName(p) + "ArraySegment"
  }

  /** `fn_ordinals` and `op_ordinals`, indexed by the number of arguments (1 to 4). */
  function FnOrdinal(argc: nat): string
    requires 1 <= argc <= 4
  {
    ["", "Bi", "Tri", "Tetra"][argc - 1]
  }

  function OpOrdinal(argc: nat): string
    requires 1 <= argc <= 4
  {
    ["Unary", "Binary", "Ternary", "Quaternary"][argc - 1]
  }

  /** Every type has its own name in the table, so a name fragment tells the type apart:
      the scalar names are at most seven letters long, and every segment name is a
      scalar name followed by "ArraySegment". */
  lemma TypeNameInjective(s: Type, t: Type)
    requires s != Void && t != Void
    ensures TypeName(s) == TypeName(t) ==> s == t
  {
    if TypeName(s) == TypeName(t) {
      var p := if s.Scalar? then s.prim else s.elem;
      var q := if t.Scalar? then t.prim else t.elem;
      PrimNameShort(p);
      PrimNameShort(q);
      if s.Segment? && t.Segment? {
        assert PrimName(p) == TypeName(s)[..|TypeName(s)| - 12];
        assert PrimName(q) == TypeName(t)[..|TypeName(t)| - 12];
      }
      PrimNameInjective(p, q);
    }
  }

  lemma PrimNameShort(p: Prim)
    ensures |PrimName(p)| <= 7
  {
  }

  lemma PrimNameInjective(p: Prim, q: Prim)
    ensures PrimName(p) == PrimName(q) ==> p == q
  {
  }

  /** The ordinals differ for different argument counts, so a name gives its arity away. */
  lemma OrdinalsInjective(a: nat, b: nat)
    requires 1 <= a <= 4 && 1 <= b <= 4
    ensures FnOrdinal(a) == FnOrdinal(b) ==> a == b
    ensures OpOrdinal(a) == OpOrdinal(b) ==> a == b
  {
  }

  /** The interfaces of `java.lang` and `java.util.function` that are never generated. */
  const BuiltIns: seq<string> := [
    "Runnable", "BiConsumer", "BiFunction", "BinaryOperator", "BiPredicate",
    "BooleanSupplier", "Consumer", "DoubleBinaryOperator", "DoubleConsumer",
    "DoubleFunction", "DoublePredicate", "DoubleSupplier", "DoubleToIntFunction",
    "DoubleToLongFunction", "DoubleUnaryOperator", "Function", "IntBinaryOperator",
    "IntConsumer", "IntFunction", "IntPredicate", "IntSupplier", "IntToDoubleFunction",
    "IntToLongFunction", "IntUnaryOperator", "LongBinaryOperator", "LongConsumer",
    "LongFunction", "LongPredicate", "LongSupplier", "LongToDoubleFunction",
    "LongToIntFunction", "LongUnaryOperator", "ObjDoubleConsumer", "ObjIntConsumer",
    "ObjLongConsumer", "Predicate", "Supplier", "ToDoubleBiFunction", "ToDoubleFunction",
    "ToIntBiFunction", "ToIntFunction", "ToLongBiFunction", "ToLongFunction", "UnaryOperator"
  ]

  const BasePackage: string := "me.dkleszyk.java.function.extra"

  /** The distinct types among the arguments (Python's `set(argv)`). */
  function ArgSet(argv: seq<Type>): set<Type>
  {
    set a | a in argv
  }

  /** The number of array-segment arguments. */
  function SegmentCount(argv: seq<Type>): (n: nat)
    ensures n <= |argv|
    ensures n == 0 <==> forall i | 0 <= i < |argv| :: !argv[i].Segment?
  {
    if argv == [] then 0
    else (if argv[0].Segment? then 1 else 0) + SegmentCount(argv[1..])
  }

  lemma TypesTable()
    ensures |Types| == 19 && Types[0] == Void
    ensures forall t: Type :: t in Types
    ensures forall t: Type :: t in ArgTypes <==> t != Void
  {
    assert Types == [Void] + ArgTypes;
    forall t: Type ensures t in Types && (t in ArgTypes <==> t != Void) {
      ArgTypeListed(t);
    }
  }

  /** Each type other than `void` has its place among the argument types. */
  lemma ArgTypeListed(t: Type)
    ensures t in ArgTypes <==> t != Void
  {
    match t
    case Void =>
    case Scalar(p) => {
      match p
      case Object => assert ArgTypes[0] == t;
      case Boolean => assert ArgTypes[1] == t;
      case Byte => assert ArgTypes[2] == t;
      case Char => assert ArgTypes[3] == t;
      case Double => assert ArgTypes[4] == t;
      case Float => assert ArgTypes[5] == t;
      case Int => assert ArgTypes[6] == t;
      case Long => assert ArgTypes[7] == t;
      case Short => assert ArgTypes[8] == t;
    }
    case Segment(p) => {
      match p
      case Object => assert ArgTypes[9] == t;
      case Boolean => assert ArgTypes[10] == t;
      case Byte => assert ArgTypes[11] == t;
      case Char => assert ArgTypes[12] == t;
      case Double => assert ArgTypes[13] == t;
      case Float => assert ArgTypes[14] == t;
      case Int => assert ArgTypes[15] == t;
      case Long => assert ArgTypes[16] == t;
      case Short => assert ArgTypes[17] == t;
    }
  }
}
