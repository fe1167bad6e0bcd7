/** The generator's main loop: every argument count from 0 to 4, every argument vector in
    `itertools.product` order, every result type; each shape that passes the filters and
    is not a JDK interface is named and recorded with its members. */
module Generator {
  import opened Shapes
  import opened Filters
  import opened Naming
  import opened Members

  /** One generated interface. */
  datatype Interface = Interface(
    argv: seq<Type>, ret: Type,
    name: string, functional: string, package: string,
    statics: seq<string>, instances: seq<string>, imports: set<string>)

  // ---------------------------------------------------------------------------------
  // itertools.product(ts, repeat = n)

  /** Each head in turn, in front of every tail, the first position varying slowest. */
  function Prefixed(heads: seq<Type>, tails: seq<seq<Type>>): (r: seq<seq<Type>>)
    ensures |r| == |heads| * |tails|
  {
    if heads == [] then []
    else seq(|tails|, i requires 0 <= i < |tails| => [heads[0]] + tails[i]) + Prefixed(heads[1..], tails)
  }

  function Product(ts: seq<Type>, n: nat): (r: seq<seq<Type>>)
  {
    if n == 0 then [[]] else Prefixed(ts, Product(ts, n - 1))
  }

  predicate Over(v: seq<Type>, ts: seq<Type>)
  {
    forall i | 0 <= i < |v| :: v[i] in ts
  }

  lemma {:induction false} PrefixedMembers(heads: seq<Type>, tails: seq<seq<Type>>, v: seq<Type>)
    ensures v in Prefixed(heads, tails) <==> |v| > 0 && v[0] in heads && v[1..] in tails
  {
    if heads != [] {
      var front := seq(|tails|, i requires 0 <= i < |tails| => [heads[0]] + tails[i]);
      PrefixedMembers(heads[1..], tails, v);
      if v in front {
        var i :| 0 <= i < |tails| && front[i] == v;
        assert v[1..] == tails[i];
      }
      if |v| > 0 && v[0] == heads[0] && v[1..] in tails {
        var i :| 0 <= i < |tails| && tails[i] == v[1..];
        assert front[i] == v;
      }
      if |v| > 0 && v[0] in heads {
        var j :| 0 <= j < |heads| && heads[j] == v[0];
        if j > 0 { assert heads[1..][j - 1] == v[0]; }
      }
    }
  }

  /** The product holds exactly the vectors of length `n` over `ts`. */
  lemma {:induction false} ProductMembers(ts: seq<Type>, n: nat, v: seq<Type>)
    ensures v in Product(ts, n) <==> |v| == n && Over(v, ts)
  {
    if n > 0 {
      PrefixedMembers(ts, Product(ts, n - 1), v);
      if |v| > 0 {
        ProductMembers(ts, n - 1, v[1..]);
        assert Over(v, ts) <==> v[0] in ts && Over(v[1..], ts) by {
          if v[0] in ts && Over(v[1..], ts) {
            forall i | 0 <= i < |v| ensures v[i] in ts {
              if i > 0 { assert v[1..][i - 1] == v[i]; }
            }
          }
        }
      }
    }
  }

  /** The product has |ts| to the n-th power entries. */
  lemma {:induction false} ProductSize(ts: seq<Type>, n: nat)
    ensures |Product(ts, n)| == Power(|ts|, n)
  {
    if n > 0 {
      ProductSize(ts, n - 1);
    }
  }

  function Power(b: nat, n: nat): nat
  {
    if n == 0 then 1 else b * Power(b, n - 1)
  }

  // ---------------------------------------------------------------------------------
  // What the loop records.

  /** A shape the generator writes out: accepted by the filters and not a JDK interface. */
  predicate Generated(argv: seq<Type>, ret: Type)
  {
    Accepted(argv, ret) && Name(argv, ret) !in BuiltIns
  }

  /** What an entry of the result must be for its shape. */
  predicate Describes(f: Interface)
  {
    && Generated(f.argv, f.ret)
    && f.name == Name(f.argv, f.ret)
    && f.functional == MethodName(f.argv, f.ret)
    && f.package == Package(f.argv, f.ret)
    && MembersFit(f.argv, f.ret, f.statics, f.instances, f.imports)
  }

  function ShapesOf(interfaces: seq<Interface>): set<(seq<Type>, Type)>
  {
    set f | f in interfaces :: (f.argv, f.ret)
  }

  function NamesOf(interfaces: seq<Interface>): (r: seq<string>)
    ensures |r| == |interfaces|
    ensures forall i | 0 <= i < |r| :: r[i] == interfaces[i].name
  {
    seq(|interfaces|, i requires 0 <= i < |interfaces| => interfaces[i].name)
  }

  predicate AllDescribe(interfaces: seq<Interface>)
  {
    forall f | f in interfaces :: Describes(f)
  }

  // ---------------------------------------------------------------------------------
  // The shapes written by each level of the loop, accumulated in loop order.

  /** The generated shapes with argument vector `argv` and a result among `rs`. */
  function GeneratedAmong(argv: seq<Type>, rs: seq<Type>): set<(seq<Type>, Type)>
  {
    if rs == [] then {}
    else GeneratedAmong(argv, rs[..|rs| - 1])
         + (if Generated(argv, rs[|rs| - 1]) then {(argv, rs[|rs| - 1])} else {})
  }

  /** The generated shapes whose argument vector is among `vs`. */
  function VectorsAmong(vs: seq<seq<Type>>): set<(seq<Type>, Type)>
  {
    if vs == [] then {} else VectorsAmong(vs[..|vs| - 1]) + GeneratedAmong(vs[|vs| - 1], Types)
  }

  /** The generated shapes with fewer than `n` arguments, one argument count after another. */
  function LengthsBelow(n: nat): set<(seq<Type>, Type)>
  {
    if n == 0 then {} else LengthsBelow(n - 1) + VectorsAmong(Product(ArgTypes, n - 1))
  }

  lemma {:induction false} GeneratedAmongMembers(argv: seq<Type>, rs: seq<Type>, v: seq<Type>, ret: Type)
    ensures (v, ret) in GeneratedAmong(argv, rs) <==> v == argv && ret in rs && Generated(argv, ret)
  {
    hide Generated;
    if rs != [] {
      var front := rs[..|rs| - 1];
      GeneratedAmongMembers(argv, front, v, ret);
      assert rs == front + [rs[|rs| - 1]];
      assert ret in rs <==> ret in front || ret == rs[|rs| - 1];
    }
  }

  lemma {:induction false} VectorsAmongMembers(vs: seq<seq<Type>>, v: seq<Type>, ret: Type)
    ensures (v, ret) in VectorsAmong(vs) <==> v in vs && Generated(v, ret)
  {
    hide Generated;
    TypesTable();
    if vs != [] {
      var front := vs[..|vs| - 1];
      VectorsAmongMembers(front, v, ret);
      GeneratedAmongMembers(vs[|vs| - 1], Types, v, ret);
      assert vs == front + [vs[|vs| - 1]];
      assert v in vs <==> v in front || v == vs[|vs| - 1];
    }
  }

  /** The loop's levels together hold exactly the generated shapes with fewer than `n`
      arguments. */
  lemma {:induction false} LengthsBelowMembers(n: nat, v: seq<Type>, ret: Type)
    ensures (v, ret) in LengthsBelow(n) <==> |v| < n && Generated(v, ret)
  {
    hide Generated;
    if n > 0 {
      LengthsBelowMembers(n - 1, v, ret);
      VectorsAmongMembers(Product(ArgTypes, n - 1), v, ret);
      ProductMembers(ArgTypes, n - 1, v);
      GeneratedOverArgTypes(v, ret);
    }
  }

  lemma ResultsStep(argv: seq<Type>, rs: seq<Type>, k: nat)
    requires k < |rs|
    ensures GeneratedAmong(argv, rs[..k + 1])
            == GeneratedAmong(argv, rs[..k]) + (if Generated(argv, rs[k]) then {(argv, rs[k])} else {})
  {
    assert rs[..k + 1][..k] == rs[..k];
  }

  lemma VectorsStep(vs: seq<seq<Type>>, j: nat)
    requires j < |vs|
    ensures VectorsAmong(vs[..j + 1]) == VectorsAmong(vs[..j]) + GeneratedAmong(vs[j], Types)
  {
    assert vs[..j + 1][..j] == vs[..j];
  }

  lemma LengthsStep(n: nat)
    ensures LengthsBelow(n + 1) == LengthsBelow(n) + VectorsAmong(Product(ArgTypes, n))
  {
  }

  /** A generated shape draws its arguments from `types[1:]`. */
  lemma GeneratedOverArgTypes(argv: seq<Type>, ret: Type)
    ensures Generated(argv, ret) ==> Over(argv, ArgTypes)
  {
    TypesTable();
  }

  /** A vector the argument filter rejects contributes no shape. */
  lemma {:induction false} RejectedVector(argv: seq<Type>, rs: seq<Type>)
    requires !ArgvAccepted(argv)
    ensures GeneratedAmong(argv, rs) == {}
  {
    if rs != [] {
      RejectedVector(argv, rs[..|rs| - 1]);
    }
  }

  // ---------------------------------------------------------------------------------
  // The loop.

  /** One pass of the innermost loop: the shape is recorded when it passes the result
      filter and its name is not a JDK interface's. */
  method VisitShape(argv: seq<Type>, ret: Type, interfaces: seq<Interface>, names: seq<string>)
    returns (interfaces': seq<Interface>, names': seq<string>)
    requires Candidate(argv, ret) && ArgvAccepted(argv)
    requires names == NamesOf(interfaces) && AllDescribe(interfaces)
    ensures names' == NamesOf(interfaces') && AllDescribe(interfaces')
    ensures ShapesOf(interfaces') == ShapesOf(interfaces) + (if Generated(argv, ret) then {(argv, ret)} else {})
  {
    hide MembersFit, Package, NameAndMethod, Name, MethodName, ResultAccepted, ArgvAccepted;
    interfaces', names' := interfaces, names;
    if ResultAccepted(argv, ret) {
      var name := Name(argv, ret);
      if name !in BuiltIns {
        var statics, instances, imports := SelectMembers(argv, ret);
        var f := Interface(argv, ret, name, MethodName(argv, ret), Package(argv, ret),
                           statics, instances, imports);
        names' := names + [name];
        interfaces' := interfaces + [f];
        assert ShapesOf(interfaces') == ShapesOf(interfaces) + {(argv, ret)} by {
          assert interfaces'[..|interfaces|] == interfaces;
        }
      }
    }
  }

  /** The loop over result types for one argument vector that passed the argument filter. */
  method VisitVector(argv: seq<Type>, interfaces: seq<Interface>, names: seq<string>)
    returns (interfaces': seq<Interface>, names': seq<string>)
    requires Nameable(argv) && ArgvAccepted(argv)
    requires names == NamesOf(interfaces) && AllDescribe(interfaces)
    ensures names' == NamesOf(interfaces') && AllDescribe(interfaces')
    ensures ShapesOf(interfaces') == ShapesOf(interfaces) + GeneratedAmong(argv, Types)
  {
    hide Generated, ShapesOf, AllDescribe, NamesOf;
    interfaces', names' := interfaces, names;
    var k := 0;
    while k < |Types|
      invariant 0 <= k <= |Types|
      invariant names' == NamesOf(interfaces') && AllDescribe(interfaces')
      invariant ShapesOf(interfaces') == ShapesOf(interfaces) + GeneratedAmong(argv, Types[..k])
    {
      var ret := Types[k];
      interfaces', names' := VisitShape(argv, ret, interfaces', names');
      ResultsStep(argv, Types, k);
      k := k + 1;
    }
    assert Types[..k] == Types;
  }

  /** The loop over the argument vectors of one length, in `itertools.product` order. */
  method VisitLength(argc: nat, interfaces: seq<Interface>, names: seq<string>)
    returns (interfaces': seq<Interface>, names': seq<string>)
    requires argc <= 4
    requires names == NamesOf(interfaces) && AllDescribe(interfaces)
    ensures names' == NamesOf(interfaces') && AllDescribe(interfaces')
    ensures ShapesOf(interfaces') == ShapesOf(interfaces) + VectorsAmong(Product(ArgTypes, argc))
  {
    hide Generated, GeneratedAmong, Product, ArgvAccepted, ShapesOf, AllDescribe, NamesOf;
    TypesTable();
    interfaces', names' := interfaces, names;
    var vectors := Product(ArgTypes, argc);
    var j := 0;
    while j < |vectors|
      invariant 0 <= j <= |vectors|
      invariant names' == NamesOf(interfaces') && AllDescribe(interfaces')
      invariant ShapesOf(interfaces') == ShapesOf(interfaces) + VectorsAmong(vectors[..j])
    {
      var argv := vectors[j];
      ProductMembers(ArgTypes, argc, argv);
      if ArgvAccepted(argv) {
        interfaces', names' := VisitVector(argv, interfaces', names');
      } else {
        RejectedVector(argv, Types);
      }
      VectorsStep(vectors, j);
      j := j + 1;
    }
    assert vectors[..j] == vectors;
  }

  /** Runs the nested loops; `names` is the list printed at the end. */
  method Generate() returns (interfaces: seq<Interface>, names: seq<string>)
    ensures names == NamesOf(interfaces)
    ensures forall f | f in interfaces :: Describes(f)
    ensures forall n | n in names :: n !in BuiltIns
    ensures ShapesOf(interfaces) == LengthsBelow(5)
  {
    hide Generated, Product, VectorsAmong;
    interfaces, names := [], [];
    var argc := 0;
    while argc <= 4
      invariant 0 <= argc <= 5
      invariant names == NamesOf(interfaces) && AllDescribe(interfaces)
      invariant ShapesOf(interfaces) == LengthsBelow(argc)
    {
      interfaces, names := VisitLength(argc, interfaces, names);
      LengthsStep(argc);
      argc := argc + 1;
    }
    NamesOutsideBuiltIns(interfaces, names);
  }

  /** The recorded shapes are exactly the shapes the filters accept and the JDK lacks:
      every argument count the loop visits is one a generated shape can have. */
  lemma {:induction false} GeneratedShapes(argv: seq<Type>, ret: Type)
    ensures (argv, ret) in LengthsBelow(5) <==> Generated(argv, ret)
  {
    LengthsBelowMembers(5, argv, ret);
  }

  /** Every recorded name belongs to a recorded interface, so none is a JDK name. */
  lemma NamesOutsideBuiltIns(interfaces: seq<Interface>, names: seq<string>)
    requires names == NamesOf(interfaces) && AllDescribe(interfaces)
    ensures forall n | n in names :: n !in BuiltIns
  {
    forall n | n in names ensures n !in BuiltIns {
      var i :| 0 <= i < |names| && names[i] == n;
      assert interfaces[i] in interfaces;
    }
  }
}
