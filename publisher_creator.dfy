/**
 The publish-forwarding class generator (PublisherCreator.java).

 Given the ordered methods of an interface, the generator declares a static
 SIGNAL field and one publisher field per method, a constructor that stores
 its i-th argument into the field of method i, a static initialiser that
 creates the SIGNAL object, and one body per method that publishes that
 method's payload on that method's field.

 The functions below say what each step emits; the class Emitter performs
 the steps as the source does, one adapter call at a time, and its methods
 are proved to emit exactly that.
 */
module PublisherCreator {
  import opened Jvm

  const SignalName: string := "SIGNAL"
  const FieldSuffix: string := "Publisher"

  /** The field that holds the channel of method m: its name followed by
      "Publisher". Two methods with the same name get the same field (see
      FieldNameCollision); no publisher field is ever called SIGNAL. */
  function FieldNameFor(m: JMethod): (r: string)
    ensures r != SignalName
    ensures |r| > |m.name|
  {
    m.name + FieldSuffix
  }

  /** Two methods share a publisher field exactly when they share a name. */
  lemma FieldNameCollision(m1: JMethod, m2: JMethod)
    ensures FieldNameFor(m1) == FieldNameFor(m2) <==> m1.name == m2.name
  {
    if FieldNameFor(m1) == FieldNameFor(m2) {
      var n1, n2 := FieldNameFor(m1), FieldNameFor(m2);
      assert |m1.name| == |m2.name|;
      assert n1[..|m1.name|] == m1.name;
      assert n2[..|m2.name|] == m2.name;
    }
  }

  // ---------------------------------------------------------------------
  // Fields

  /** The static sentinel field. */
  const SignalField: FieldDecl := FieldDecl({Private, Final, Static}, SignalName, ObjectType)

  /** The field declared for method m. */
  function PublisherField(m: JMethod): FieldDecl {
    FieldDecl({Private, Final}, FieldNameFor(m), PublisherType)
  }

  /** Everything createFields declares, in order. */
  function FieldLayout(ms: seq<JMethod>): seq<FieldDecl> {
    [SignalField] + seq(|ms|, i requires 0 <= i < |ms| => PublisherField(ms[i]))
  }

  /** The field layout: SIGNAL first and the only static field, then one
      private final publisher field per method, in method order. */
  lemma FieldLayoutShape(ms: seq<JMethod>)
    ensures |FieldLayout(ms)| == |ms| + 1
    ensures FieldLayout(ms)[0] == FieldDecl({Private, Final, Static}, "SIGNAL", ObjectType)
    ensures forall i :: 0 <= i < |ms| ==>
      FieldLayout(ms)[i + 1] == FieldDecl({Private, Final}, ms[i].name + "Publisher", PublisherType)
    ensures forall k :: 0 <= k < |FieldLayout(ms)| ==>
      (Static in FieldLayout(ms)[k].access <==> k == 0)
  {
  }

  /** Two publisher fields of the layout have the same name exactly when
      their methods have the same name. */
  lemma LayoutNamesCollide(ms: seq<JMethod>, i: nat, j: nat)
    requires i < |ms| && j < |ms|
    ensures FieldLayout(ms)[i + 1].name == FieldLayout(ms)[j + 1].name <==> ms[i].name == ms[j].name
  {
    FieldNameCollision(ms[i], ms[j]);
  }

  // ---------------------------------------------------------------------
  // The constructor descriptor

  const InitOpen: string := "void <init> ("

  /** n copies of the publisher class name, separated by single commas. */
  function Joined(n: nat): string
    requires n >= 1
  {
    if n == 1 then PublisherType.name else Joined(n - 1) + "," + PublisherType.name
  }

  /** The text handed to Method.getMethod for a constructor with n publisher
      parameters. For n = 0 the trimming step removes the opening parenthesis
      itself, so the text is not a well-formed descriptor. */
  function ConstructorDescriptor(n: nat): string {
    if n == 0 then "void <init> )" else InitOpen + Joined(n) + ")"
  }

  /** The number of occurrences of c in s. */
  function Count(c: char, s: string): nat {
    if s == [] then 0 else Count(c, s[..|s| - 1]) + (if s[|s| - 1] == c then 1 else 0)
  }

  lemma {:induction false} CountAppend(c: char, a: string, b: string)
    ensures Count(c, a + b) == Count(c, a) + Count(c, b)
  {
    if b == [] {
      assert a + b == a;
    } else {
      var b' := b[..|b| - 1];
      assert (a + b)[..|a + b| - 1] == a + b';
      CountAppend(c, a, b');
    }
  }

  /** A string without c holds no occurrence of c. */
  lemma {:induction false} CountAbsent(c: char, s: string)
    requires c !in s
    ensures Count(c, s) == 0
  {
    if s != [] {
      var s' := s[..|s| - 1];
      assert forall x :: x in s' ==> x in s;
      CountAbsent(c, s');
    }
  }

  /** The publisher class name holds no comma. */
  lemma NameHasNoComma()
    ensures Count(',', PublisherType.name) == 0
  {
    assert ',' !in PublisherType.name;
    CountAbsent(',', PublisherType.name);
  }

  /** n copies joined by commas hold exactly n - 1 commas, and the last
      character is not a comma: there is no trailing separator. */
  lemma {:induction false} JoinedCommas(n: nat)
    requires n >= 1
    ensures Count(',', Joined(n)) == n - 1
    ensures Joined(n)[|Joined(n)| - 1] != ','
    ensures |Joined(n)| == n * |PublisherType.name| + n - 1
  {
    NameHasNoComma();
    var name := PublisherType.name;
    assert name[|name| - 1] == 'r';
    if n > 1 {
      JoinedCommas(n - 1);
      CountAppend(',', Joined(n - 1) + ",", name);
      CountAppend(',', Joined(n - 1), ",");
      assert Count(',', ",") == 1 by {
        assert ","[..0] == [];
      }
    }
  }

  /** Where copy k of the publisher class name starts in Joined(n): each
      copy is 30 characters and a comma. */
  function CopyStart(k: nat): (r: nat)
    ensures r == k * (|PublisherType.name| + 1)
  {
    assert |PublisherType.name| == 30;
    31 * k
  }

  /** Joined(n) ends one comma short of n full copies. */
  lemma {:induction false} JoinedLength(n: nat)
    requires n >= 1
    ensures |Joined(n)| == CopyStart(n) - 1
  {
    if n > 1 {
      JoinedLength(n - 1);
    }
  }

  /** Copy k of the publisher class name in Joined(n) starts at
      CopyStart(k). */
  lemma {:induction false} JoinedCopies(n: nat)
    requires n >= 1
    ensures |Joined(n)| == CopyStart(n) - 1
    ensures forall k :: 0 <= k < n ==> Joined(n)[CopyStart(k) .. CopyStart(k) + 30] == PublisherType.name
  {
    JoinedLength(n);
    if n > 1 {
      JoinedCopies(n - 1);
      var prev := Joined(n - 1);
      var tail := "," + PublisherType.name;
      assert Joined(n) == prev + tail;
      forall k | 0 <= k < n
        ensures (prev + tail)[CopyStart(k) .. CopyStart(k) + 30] == PublisherType.name
      {
        if k < n - 1 {
          SliceOfPrefix(prev, tail, CopyStart(k), CopyStart(k) + 30);
        } else {
          assert prev + tail == (prev + ",") + PublisherType.name;
          SliceOfSuffix(prev + ",", PublisherType.name);
        }
      }
    } else {
      assert Joined(n)[0..30] == Joined(n);
    }
  }

  /** In Joined(n) each copy but the last is followed by a single comma. */
  lemma {:induction false} JoinedSeparators(n: nat)
    requires n >= 1
    ensures |Joined(n)| == CopyStart(n) - 1
    ensures forall k :: 0 <= k < n - 1 ==> Joined(n)[CopyStart(k) + 30] == ','
  {
    JoinedLength(n);
    if n > 1 {
      JoinedSeparators(n - 1);
      JoinedLength(n - 1);
      var prev := Joined(n - 1);
      var tail := "," + PublisherType.name;
      assert Joined(n) == prev + tail;
      forall k | 0 <= k < n - 1
        ensures (prev + tail)[CopyStart(k) + 30] == ','
      {
        if k < n - 2 {
          assert (prev + tail)[CopyStart(k) + 30] == prev[CopyStart(k) + 30];
        } else {
          assert CopyStart(k) + 30 == |prev|;
        }
      }
    }
  }

  /** The descriptor, as the builder leaves it: for n = 0 exactly
      "void <init> )"; otherwise "void <init> (" followed by the n names with
      n - 1 commas between them, then ")". */
  lemma DescriptorShape(n: nat)
    ensures n == 0 ==> ConstructorDescriptor(n) == "void <init> )"
    ensures n >= 1 ==>
      && ConstructorDescriptor(n)[..13] == "void <init> ("
      && ConstructorDescriptor(n)[|ConstructorDescriptor(n)| - 1] == ')'
      && ConstructorDescriptor(n)[13..|ConstructorDescriptor(n)| - 1] == Joined(n)
      && Count(',', ConstructorDescriptor(n)[13..|ConstructorDescriptor(n)| - 1]) == n - 1
  {
    if n >= 1 {
      var d := ConstructorDescriptor(n);
      JoinedCommas(n);
      assert d[13..|d| - 1] == Joined(n);
      assert d[..13] == InitOpen;
    }
  }

  /** The instance constructor and the static initialiser never share a
      method reference. */
  lemma ConstructorIsNotClinit(n: nat)
    ensures SigText(ConstructorDescriptor(n)) != ClinitSig
  {
    var d := ConstructorDescriptor(n);
    assert d[6] == 'i';
    assert ClinitSig.text[6] == 'c';
  }

  // ---------------------------------------------------------------------
  // Constructor and static initialiser code

  /** The three adapter calls that bind argument i to the field of method i. */
  function BindOne(out: JType, ms: seq<JMethod>, i: nat): seq<Instr>
    requires i < |ms|
  {
    [LoadThis, LoadArg(i), PutField(out, FieldNameFor(ms[i]), PublisherType)]
  }

  /** The bindings of the first n methods, in method order. */
  function BindCode(out: JType, ms: seq<JMethod>, n: nat): seq<Instr>
    requires n <= |ms|
  {
    if n == 0 then [] else BindCode(out, ms, n - 1) + BindOne(out, ms, n - 1)
  }

  /** The constructor body: the superclass constructor, then the bindings,
      then return. */
  function ConstructorCode(out: JType, ms: seq<JMethod>): seq<Instr> {
    [LoadThis, InvokeConstructor(ObjectType, DefaultConstructor)] + BindCode(out, ms, |ms|) + [ReturnValue]
  }

  function ConstructorDef(out: JType, ms: seq<JMethod>): MethodDef {
    MethodDef({Public}, SigText(ConstructorDescriptor(|ms|)), ConstructorCode(out, ms))
  }

  /** The static initialiser body: new Object, store it into SIGNAL, return. */
  function StaticInitCode(out: JType): seq<Instr> {
    [NewInstance(ObjectType), Dup, InvokeConstructor(ObjectType, DefaultConstructor),
     PutStatic(out, SignalName, ObjectType), ReturnValue]
  }

  function StaticInitDef(out: JType): MethodDef {
    MethodDef({Static}, ClinitSig, StaticInitCode(out))
  }

  /** A slice inside the first part of a concatenation is a slice of that
      part. */
  lemma SliceOfPrefix<T>(a: seq<T>, b: seq<T>, lo: nat, hi: nat)
    requires lo <= hi <= |a|
    ensures (a + b)[lo..hi] == a[lo..hi]
  {
    assert forall k :: lo <= k < hi ==> (a + b)[k] == a[k];
  }

  /** The slice of a concatenation past its first part is the second part. */
  lemma SliceOfSuffix<T>(a: seq<T>, b: seq<T>)
    ensures (a + b)[|a|..|a| + |b|] == b
  {
    assert forall k :: 0 <= k < |b| ==> (a + b)[|a| + k] == b[k];
  }

  /** The binding loop advances its argument counter by one per method: the
      bindings of the first n methods are n triples, the i-th of which loads
      argument i and stores it into the field of method i. */
  lemma {:induction false} BindCodeShape(out: JType, ms: seq<JMethod>, n: nat)
    requires n <= |ms|
    ensures |BindCode(out, ms, n)| == 3 * n
    ensures forall i :: 0 <= i < n ==>
      BindCode(out, ms, n)[3 * i .. 3 * i + 3] == [LoadThis, LoadArg(i), PutField(out, FieldNameFor(ms[i]), PublisherType)]
  {
    if n > 0 {
      BindCodeShape(out, ms, n - 1);
      var prev := BindCode(out, ms, n - 1);
      var one := BindOne(out, ms, n - 1);
      assert BindCode(out, ms, n) == prev + one;
      forall i | 0 <= i < n
        ensures (prev + one)[3 * i .. 3 * i + 3] == BindOne(out, ms, i)
      {
        if i < n - 1 {
          SliceOfPrefix(prev, one, 3 * i, 3 * i + 3);
        } else {
          SliceOfSuffix(prev, one);
        }
      }
    }
  }

  // ---------------------------------------------------------------------
  // Method bodies

  /** The three ways loadMessage picks a payload. */
  datatype PayloadCase = SignalCase | SingleArg(boxed: bool) | ArgArrayCase

  /** The choice inside loadMessage: the cases are told apart by the
      parameter count alone, and a single argument is boxed exactly when its
      type is primitive. */
  function MessageCase(m: JMethod): (c: PayloadCase)
    ensures c.ArgArrayCase? <==> |m.params| > 1
    ensures c.SingleArg? <==> |m.params| == 1
    ensures c.SignalCase? <==> |m.params| == 0
    ensures c.SingleArg? ==> (c.boxed <==> m.params[0].Primitive?)
  {
    if |m.params| > 1 then ArgArrayCase
    else if |m.params| == 1 then SingleArg(m.params[0].Primitive?)
    else SignalCase
  }

  /** What loadMessage emits for m. */
  function MessageCode(out: JType, m: JMethod): seq<Instr> {
    match MessageCase(m)
    case ArgArrayCase => [LoadArgArray]
    case SingleArg(boxed) => [LoadArg(0)] + (if boxed then [Box(m.params[0])] else [])
    case SignalCase => [GetStatic(out, SignalName, ObjectType)]
  }

  /** The body of method m: this, m's own field, the message, publish, return. */
  function BodyCode(out: JType, m: JMethod): seq<Instr> {
    [LoadThis, GetField(out, FieldNameFor(m), PublisherType)] + MessageCode(out, m)
      + [InvokeInterface(PublisherType, PublishMethod), ReturnValue]
  }

  function BodyDef(out: JType, m: JMethod): MethodDef {
    MethodDef({Public}, SigOf(m.name, m.params), BodyCode(out, m))
  }

  /** Every body starts by loading this and m's own field, ends with publish
      and return, holds no other interface call, and boxes exactly when m has
      a single primitive parameter. */
  lemma BodyShape(out: JType, m: JMethod)
    ensures var b := BodyCode(out, m);
      && |b| >= 5
      && b[0] == LoadThis
      && b[1] == GetField(out, m.name + "Publisher", PublisherType)
      && b[|b| - 2] == InvokeInterface(PublisherType, PublishMethod)
      && b[|b| - 1] == ReturnValue
      && (forall k :: 0 <= k < |b| && b[k].InvokeInterface? ==> k == |b| - 2)
      && ((exists k :: 0 <= k < |b| && b[k].Box?) <==> |m.params| == 1 && m.params[0].Primitive?)
  {
    var b := BodyCode(out, m);
    var msg := MessageCode(out, m);
    assert b == [LoadThis, GetField(out, FieldNameFor(m), PublisherType)] + msg
      + [InvokeInterface(PublisherType, PublishMethod), ReturnValue];
    assert |msg| == 1 || |msg| == 2;
    assert forall k :: 0 <= k < |b| ==>
      b[k] == (if k == 0 then LoadThis
               else if k == 1 then GetField(out, FieldNameFor(m), PublisherType)
               else if k < 2 + |msg| then msg[k - 2]
               else if k == 2 + |msg| then InvokeInterface(PublisherType, PublishMethod)
               else ReturnValue);
    if |m.params| == 1 && m.params[0].Primitive? {
      assert b[3].Box?;
    }
  }

  /** Every method the generator declares. */
  function GeneratedDefs(out: JType, ms: seq<JMethod>): seq<MethodDef> {
    [ConstructorDef(out, ms), StaticInitDef(out)] + seq(|ms|, i requires 0 <= i < |ms| => BodyDef(out, ms[i]))
  }

  // ---------------------------------------------------------------------
  // The generator itself

  /** PublisherCreator together with the class writer it fills: the fields
      declared so far and the method bodies ended so far, in order. */
  class Emitter {
    /** outputType(): the class being generated. */
    const outputType: JType
    /** The interface methods, in the order the descriptor lists them. */
    const methods: seq<JMethod>
    var fields: seq<FieldDecl>
    var defs: seq<MethodDef>

    constructor (outputType: JType, methods: seq<JMethod>)
      ensures this.outputType == outputType && this.methods == methods
      ensures fields == [] && defs == []
    {
      this.outputType := outputType;
      this.methods := methods;
      fields := [];
      defs := [];
    }

    /** The class as written so far. */
    function Written(): ClassFile
      reads this
    {
      ClassFile(fields, defs)
    }

    /** writer.visitField(...).visitEnd() */
    method VisitField(f: FieldDecl)
      modifies this
      ensures fields == old(fields) + [f] && defs == old(defs)
    {
      fields := fields + [f];
    }

    /** method(access, sig): a fresh adapter for a new body. */
    method BeginMethod(access: set<Flag>, sig: Sig) returns (a: Adapter)
      ensures fresh(a) && a.access == access && a.sig == sig && a.code == []
    {
      a := new Adapter(access, sig);
    }

    /** adapter.endMethod(): the buffered body joins the class. */
    method EndMethod(a: Adapter)
      modifies this
      ensures defs == old(defs) + [MethodDef(a.access, a.sig, a.code)] && fields == old(fields)
    {
      defs := defs + [MethodDef(a.access, a.sig, a.code)];
    }

    /** createFields: the SIGNAL field, then one field per method in order. */
    method CreateFields()
      modifies this
      ensures fields == old(fields) + FieldLayout(methods)
      ensures defs == old(defs)
    {
      VisitField(FieldDecl({Private, Final, Static}, SignalName, ObjectType));
      var k := 0;
      while k < |methods|
        invariant 0 <= k <= |methods|
        invariant fields == old(fields) + FieldLayout(methods[..k])
        invariant defs == old(defs)
      {
        CreateField(methods[k]);
        assert FieldLayout(methods[..k + 1]) == FieldLayout(methods[..k]) + [PublisherField(methods[k])];
        k := k + 1;
      }
      assert methods[..k] == methods;
    }

    /** createField: one private final publisher field named after m. */
    method CreateField(m: JMethod)
      modifies this
      ensures fields == old(fields) + [PublisherField(m)]
      ensures defs == old(defs)
    {
      VisitField(FieldDecl({Private, Final}, FieldNameFor(m), PublisherType));
    }

    /** createConstructor: the instance constructor, then the static
        initialiser. */
    method CreateConstructor()
      modifies this
      ensures defs == old(defs) + [ConstructorDef(outputType, methods), StaticInitDef(outputType)]
      ensures fields == old(fields)
    {
      ConstructorForPublishers();
      StaticInitializer();
    }

    /** staticInitializer: SIGNAL = new Object(), once. */
    method StaticInitializer()
      modifies this
      ensures defs == old(defs) + [StaticInitDef(outputType)]
      ensures fields == old(fields)
    {
      var adapter := BeginMethod({Static}, ClinitSig);
      adapter.Emit(NewInstance(ObjectType));
      adapter.Emit(Dup);
      adapter.Emit(InvokeConstructor(ObjectType, DefaultConstructor));
      adapter.Emit(PutStatic(outputType, SignalName, ObjectType));
      adapter.Emit(ReturnValue);
      assert adapter.code == StaticInitCode(outputType);
      EndMethod(adapter);
    }

    /** constructorForPublishers: the superclass constructor, then argument
        arg stored into the field of method arg, for arg = 0, 1, ... */
    method ConstructorForPublishers()
      modifies this
      ensures defs == old(defs) + [ConstructorDef(outputType, methods)]
      ensures fields == old(fields)
    {
      var sig := AsmConstructorMethod(|methods|);
      var adapter := BeginMethod({Public}, sig);
      adapter.Emit(LoadThis);
      adapter.Emit(InvokeConstructor(ObjectType, DefaultConstructor));
      var arg := 0;
      var k := 0;
      while k < |methods|
        modifies adapter
        invariant 0 <= k <= |methods|
        invariant arg == k
        invariant adapter.code == [LoadThis, InvokeConstructor(ObjectType, DefaultConstructor)]
                                  + BindCode(outputType, methods, k)
      {
        var m := methods[k];
        adapter.Emit(LoadThis);
        adapter.Emit(LoadArg(arg));
        arg := arg + 1;
        adapter.Emit(PutField(outputType, FieldNameFor(m), PublisherType));
        k := k + 1;
      }
      assert arg == |methods|;
      adapter.Emit(ReturnValue);
      EndMethod(adapter);
    }

    /** asmConstructorMethod: "void <init> (", then the class name and a
        comma per parameter, then the last character dropped and ")" added. */
    method AsmConstructorMethod(parameters: nat) returns (sig: Sig)
      ensures sig == SigText(ConstructorDescriptor(parameters))
    {
      var builder := InitOpen;
      var i := 0;
      while i < parameters
        invariant 0 <= i <= parameters
        invariant i == 0 ==> builder == InitOpen
        invariant i > 0 ==> builder == InitOpen + Joined(i) + ","
      {
        builder := builder + PublisherType.name + ",";
        i := i + 1;
      }
      if parameters == 0 {
        assert builder[..|builder| - 1] == "void <init> ";
      } else {
        assert builder[..|builder| - 1] == InitOpen + Joined(parameters);
      }
      builder := builder[..|builder| - 1] + ")";
      sig := SigText(builder);
    }

    /** implementMethods: one body per method, in method order. */
    method ImplementMethods()
      modifies this
      ensures defs == old(defs) + seq(|methods|, i requires 0 <= i < |methods| => BodyDef(outputType, methods[i]))
      ensures fields == old(fields)
    {
      var k := 0;
      while k < |methods|
        invariant 0 <= k <= |methods|
        invariant defs == old(defs) + seq(k, i requires 0 <= i < k => BodyDef(outputType, methods[i]))
        invariant fields == old(fields)
      {
        Implement(methods[k]);
        k := k + 1;
      }
    }

    /** implement: load this, get m's field, load the message, publish, return. */
    method Implement(m: JMethod)
      modifies this
      ensures defs == old(defs) + [BodyDef(outputType, m)]
      ensures fields == old(fields)
    {
      var adapter := BeginMethod({Public}, SigOf(m.name, m.params));
      adapter.Emit(LoadThis);
      adapter.Emit(GetField(outputType, FieldNameFor(m), PublisherType));
      LoadMessage(m, adapter);
      adapter.Emit(InvokeInterface(PublisherType, PublishMethod));
      adapter.Emit(ReturnValue);
      assert adapter.code == BodyCode(outputType, m);
      EndMethod(adapter);
    }

    /** loadMessage: the argument array for two or more parameters, argument
        0 (boxed when primitive) for one, the SIGNAL static for none. */
    method LoadMessage(m: JMethod, adapter: Adapter)
      modifies adapter
      ensures adapter.code == old(adapter.code) + MessageCode(outputType, m)
    {
      if |m.params| > 1 {
        adapter.Emit(LoadArgArray);
      } else if |m.params| == 1 {
        adapter.Emit(LoadArg(0));
        var paramType := m.params[0];
        if paramType.Primitive? {
          adapter.Emit(Box(paramType));
        }
      } else {
        adapter.Emit(GetStatic(outputType, SignalName, ObjectType));
      }
    }
  }
}
