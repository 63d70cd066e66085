/**
 What the generated publish-forwarding class does: the emitted code of
 PublisherCreator, run by the machine of module Runtime.

 Each emitted piece is shown to have its intended effect (the static
 initialiser makes SIGNAL, the constructor binds argument i to the field of
 method i, a body publishes its payload once on its method's field), and
 together: calling method i of an instance built with channels c_0 .. c_{n-1}
 makes exactly one call, publish on c_i, with the payload the three-way rule
 gives. When two methods share a name they share a field, and the later
 binding wins.
 */
module Forwarding {
  import opened Jvm
  import opened PublisherCreator
  import opened Runtime

  // ---------------------------------------------------------------------
  // The payload rule

  /** The payload for a call of m with args when the class's sentinel is
      signal: the boxed argument array for two or more parameters, the one
      argument (boxed when its type is primitive) for one, the sentinel for
      none. */
  function Payload(m: JMethod, args: seq<Value>, signal: Value): Value
    requires |args| == |m.params|
  {
    if |m.params| > 1 then ArgArray(BoxAll(m.params, args))
    else if |m.params| == 1 then (if m.params[0].Primitive? then BoxValue(args[0]) else args[0])
    else signal
  }

  /** The code loadMessage emits pushes exactly the payload and changes
      nothing else. */
  lemma ExecMessage(out: JType, m: JMethod, args: seq<Value>, mc: Machine)
    requires |args| == |m.params| && SignalName in mc.statics && !mc.returned
    ensures Exec(MessageCode(out, m), Frame(m.params, args), mc)
         == Ok(mc.(stack := mc.stack + [Payload(m, args, mc.statics[SignalName])]))
  {
    var f := Frame(m.params, args);
    if |m.params| > 1 {
      assert MessageCode(out, m) == [LoadArgArray];
      ExecSingle(LoadArgArray, f, mc, mc.(stack := mc.stack + [ArgArray(BoxAll(m.params, args))]));
    } else if |m.params| == 1 {
      ExecArgument(out, m, args, mc);
    } else {
      assert MessageCode(out, m) == [GetStatic(out, SignalName, ObjectType)];
      ExecSingle(GetStatic(out, SignalName, ObjectType), f, mc, mc.(stack := mc.stack + [mc.statics[SignalName]]));
    }
  }

  /** One instruction that steps to m' is, as code, a run to m'. */
  lemma ExecSingle(ins: Instr, f: Frame, mc: Machine, m': Machine)
    requires !mc.returned && Step(ins, f, mc) == Ok(m')
    ensures Exec([ins], f, mc) == Ok(m')
  {
    assert [ins][1..] == [];
  }

  /** For one parameter: argument 0, boxed when its type is primitive. */
  lemma ExecArgument(out: JType, m: JMethod, args: seq<Value>, mc: Machine)
    requires |args| == |m.params| == 1 && !mc.returned
    ensures Exec(MessageCode(out, m), Frame(m.params, args), mc)
         == Ok(mc.(stack := mc.stack + [BoxAs(m.params[0], args[0])]))
  {
    var f := Frame(m.params, args);
    var code := MessageCode(out, m);
    var m1 := mc.(stack := mc.stack + [args[0]]);
    assert Step(LoadArg(0), f, mc) == Ok(m1);
    if m.params[0].Primitive? {
      assert code == [LoadArg(0)] + [Box(m.params[0])];
      var m2 := mc.(stack := mc.stack + [BoxValue(args[0])]);
      assert m1.stack[..|m1.stack| - 1] == mc.stack;
      assert Step(Box(m.params[0]), f, m1) == Ok(m2);
      ExecSingle(Box(m.params[0]), f, m1, m2);
      assert Exec(code, f, mc) == Exec([Box(m.params[0])], f, m1) by {
        assert code[1..] == [Box(m.params[0])];
      }
    } else {
      assert code == [LoadArg(0)];
      ExecSingle(LoadArg(0), f, mc, m1);
    }
  }

  // ---------------------------------------------------------------------
  // Positional binding

  /** The fields after the first n bindings, each storing argument k into
      the field of method k, in order. */
  function Bound(fields: map<string, Value>, ms: seq<JMethod>, args: seq<Value>, n: nat): map<string, Value>
    requires n <= |ms| && n <= |args|
  {
    if n == 0 then fields else Bound(fields, ms, args, n - 1)[FieldNameFor(ms[n - 1]) := args[n - 1]]
  }

  /** The last of the first n methods whose field is x, or -1 if none is. */
  function LastBound(ms: seq<JMethod>, x: string, n: nat): (r: int)
    requires n <= |ms|
    ensures -1 <= r < n
    ensures r >= 0 ==> FieldNameFor(ms[r]) == x && forall j :: r < j < n ==> FieldNameFor(ms[j]) != x
    ensures r == -1 <==> forall j :: 0 <= j < n ==> FieldNameFor(ms[j]) != x
  {
    if n == 0 then -1
    else if FieldNameFor(ms[n - 1]) == x then n - 1
    else LastBound(ms, x, n - 1)
  }

  /** After the bindings, field x holds the argument of the last method bound
      to it, or what it held before if none was. */
  lemma {:induction false} BoundAt(fields: map<string, Value>, ms: seq<JMethod>, args: seq<Value>, n: nat, x: string)
    requires n <= |ms| && n <= |args| && x in fields
    ensures x in Bound(fields, ms, args, n)
    ensures Bound(fields, ms, args, n)[x]
         == if LastBound(ms, x, n) >= 0 then args[LastBound(ms, x, n)] else fields[x]
  {
    if n > 0 {
      BoundAt(fields, ms, args, n - 1, x);
    }
  }

  /** One binding stores argument i into the field of method i and changes
      nothing else. */
  lemma ExecBindOne(out: JType, ms: seq<JMethod>, i: nat, f: Frame, m1: Machine)
    requires i < |ms| && i < |f.args| && !m1.returned && FieldNameFor(ms[i]) in m1.fields
    ensures Exec(BindOne(out, ms, i), f, m1) == Ok(m1.(fields := m1.fields[FieldNameFor(ms[i]) := f.args[i]]))
  {
    var x := FieldNameFor(ms[i]);
    var one := BindOne(out, ms, i);
    assert one == [LoadThis, LoadArg(i), PutField(out, x, PublisherType)];
    var m2 := m1.(stack := m1.stack + [ThisRef]);
    var m3 := m2.(stack := m2.stack + [f.args[i]]);
    var m4 := m3.(stack := m3.stack[..|m3.stack| - 2], fields := m3.fields[x := f.args[i]]);
    assert Step(one[0], f, m1) == Ok(m2);
    assert Step(one[1], f, m2) == Ok(m3);
    assert m3.stack[|m3.stack| - 2] == ThisRef;
    assert Step(one[2], f, m3) == Ok(m4);
    assert m3.stack[..|m3.stack| - 2] == m1.stack;
    assert m4 == m1.(fields := m1.fields[x := f.args[i]]);
    assert one[1..][1..][1..] == [];
    assert Exec(one[1..][1..][1..], f, m4) == Ok(m4);
    assert Exec(one[1..][1..], f, m3) == Ok(m4);
    assert Exec(one[1..], f, m2) == Ok(m4);
  }

  /** The binding code of the first n methods stores argument k into the
      field of method k for each k < n, in order, and leaves the rest alone. */
  lemma {:induction false} ExecBindings(out: JType, ms: seq<JMethod>, n: nat, f: Frame, mc: Machine)
    requires n <= |ms| && n <= |f.args| && !mc.returned
    requires forall j :: 0 <= j < n ==> FieldNameFor(ms[j]) in mc.fields
    ensures Exec(BindCode(out, ms, n), f, mc) == Ok(mc.(fields := Bound(mc.fields, ms, f.args, n)))
  {
    if n > 0 {
      ExecBindings(out, ms, n - 1, f, mc);
      ExecAppend(BindCode(out, ms, n - 1), BindOne(out, ms, n - 1), f, mc);
      var m1 := mc.(fields := Bound(mc.fields, ms, f.args, n - 1));
      BoundAt(mc.fields, ms, f.args, n - 1, FieldNameFor(ms[n - 1]));
      ExecBindOne(out, ms, n - 1, f, m1);
    }
  }

  /** With fewer arguments than methods, the binding code stops at the first
      missing argument. */
  lemma {:induction false} BindingsNeedEveryArgument(out: JType, ms: seq<JMethod>, n: nat, f: Frame, mc: Machine)
    requires |f.args| < n <= |ms| && !mc.returned
    requires forall j :: 0 <= j < |ms| ==> FieldNameFor(ms[j]) in mc.fields
    ensures Exec(BindCode(out, ms, n), f, mc) == Err(NoSuchArgument)
  {
    ExecAppend(BindCode(out, ms, n - 1), BindOne(out, ms, n - 1), f, mc);
    if n - 1 > |f.args| {
      BindingsNeedEveryArgument(out, ms, n - 1, f, mc);
    } else {
      ExecBindings(out, ms, n - 1, f, mc);
      var m1 := mc.(fields := Bound(mc.fields, ms, f.args, n - 1));
      var one := BindOne(out, ms, n - 1);
      assert Exec(one, f, m1) == Exec(one[1..], f, m1.(stack := m1.stack + [ThisRef]));
    }
  }

  // ---------------------------------------------------------------------
  // The three kinds of emitted method

  /** The static initialiser stores one newly allocated object into SIGNAL
      and returns, changing nothing else. */
  lemma ExecStaticInit(out: JType, mc: Machine)
    requires SignalName in mc.statics && !mc.returned
    ensures RunBody(StaticInitDef(out), Frame([], []), mc)
         == Ok(mc.(statics := mc.statics[SignalName := Alloc(mc.heap)], heap := mc.heap + 1, returned := true))
  {
    var f := Frame([], []);
    var c := StaticInitCode(out);
    var a := Alloc(mc.heap);
    var m1 := mc.(stack := mc.stack + [a], heap := mc.heap + 1);
    assert Exec(c, f, mc) == Exec(c[1..], f, m1);
    var m2 := m1.(stack := m1.stack + [a]);
    assert Exec(c[1..], f, m1) == Exec(c[2..], f, m2);
    assert m2.stack[..|m2.stack| - 1] == m1.stack;
    assert Exec(c[2..], f, m2) == Exec(c[3..], f, m1);
    assert m1.stack[..|m1.stack| - 1] == mc.stack;
    var m4 := mc.(statics := mc.statics[SignalName := a], heap := mc.heap + 1);
    assert Exec(c[3..], f, m1) == Exec(c[4..], f, m4);
    ExecReturns(c[4..], f, m4);
  }

  /** The superclass constructor call leaves the machine as it was. */
  lemma ExecSuperCall(f: Frame, mc: Machine)
    requires !mc.returned
    ensures Exec([LoadThis, InvokeConstructor(ObjectType, DefaultConstructor)], f, mc) == Ok(mc)
  {
    var head := [LoadThis, InvokeConstructor(ObjectType, DefaultConstructor)];
    var m1 := mc.(stack := mc.stack + [ThisRef]);
    assert Exec(head, f, mc) == Exec(head[1..], f, m1);
    assert m1.stack[..|m1.stack| - 1] == mc.stack;
    assert Exec(head[1..], f, m1) == Exec(head[1..][1..], f, mc);
    assert head[1..][1..] == [];
  }

  /** The constructor runs the superclass constructor, then the bindings of
      every method, then returns. */
  lemma ExecConstructor(out: JType, ms: seq<JMethod>, f: Frame, mc: Machine)
    requires |f.args| == |ms| && !mc.returned
    requires forall j :: 0 <= j < |ms| ==> FieldNameFor(ms[j]) in mc.fields
    ensures RunBody(ConstructorDef(out, ms), f, mc)
         == Ok(mc.(fields := Bound(mc.fields, ms, f.args, |ms|), returned := true))
  {
    var head := [LoadThis, InvokeConstructor(ObjectType, DefaultConstructor)];
    var bind := BindCode(out, ms, |ms|);
    ExecAppend(head + bind, [ReturnValue], f, mc);
    ExecAppend(head, bind, f, mc);
    ExecSuperCall(f, mc);
    ExecBindings(out, ms, |ms|, f, mc);
    ExecReturns([ReturnValue], f, mc.(fields := Bound(mc.fields, ms, f.args, |ms|)));
  }

  /** With fewer arguments than methods, the constructor faults before it
      returns. */
  lemma ConstructorNeedsEveryArgument(out: JType, ms: seq<JMethod>, f: Frame, mc: Machine)
    requires |f.args| < |ms| && !mc.returned
    requires forall j :: 0 <= j < |ms| ==> FieldNameFor(ms[j]) in mc.fields
    ensures RunBody(ConstructorDef(out, ms), f, mc) == Err(NoSuchArgument)
  {
    var head := [LoadThis, InvokeConstructor(ObjectType, DefaultConstructor)];
    var bind := BindCode(out, ms, |ms|);
    ExecAppend(head + bind, [ReturnValue], f, mc);
    ExecAppend(head, bind, f, mc);
    ExecSuperCall(f, mc);
    BindingsNeedEveryArgument(out, ms, |ms|, f, mc);
  }

  /** A body publishes its payload on its own field's channel, once, and
      returns; the stack, fields and statics are as before. */
  lemma ExecBody(out: JType, m: JMethod, args: seq<Value>, mc: Machine)
    requires |args| == |m.params| && !mc.returned && SignalName in mc.statics
    requires FieldNameFor(m) in mc.fields && mc.fields[FieldNameFor(m)] != Null
    ensures RunBody(BodyDef(out, m), Frame(m.params, args), mc)
         == Ok(mc.(returned := true, log := mc.log + [Invocation(mc.fields[FieldNameFor(m)], PublishMethod,
                                                                 Payload(m, args, mc.statics[SignalName]))]))
  {
    var f := Frame(m.params, args);
    var ch := mc.fields[FieldNameFor(m)];
    var p := Payload(m, args, mc.statics[SignalName]);
    var head := [LoadThis, GetField(out, FieldNameFor(m), PublisherType)];
    var msg := MessageCode(out, m);
    var tail := [InvokeInterface(PublisherType, PublishMethod), ReturnValue];
    assert BodyCode(out, m) == head + msg + tail;
    ExecAppend(head + msg, tail, f, mc);
    ExecAppend(head, msg, f, mc);
    var m1 := mc.(stack := mc.stack + [ThisRef]);
    assert Exec(head, f, mc) == Exec(head[1..], f, m1);
    var m2 := mc.(stack := mc.stack + [ch]);
    assert m1.stack[..|m1.stack| - 1] == mc.stack;
    assert Exec(head[1..], f, m1) == Exec(head[1..][1..], f, m2);
    assert head[1..][1..] == [];
    assert Exec(head, f, mc) == Ok(m2);
    ExecMessage(out, m, args, m2);
    var m3 := m2.(stack := m2.stack + [p]);
    assert Exec(head + msg, f, mc) == Ok(m3);
    var m4 := mc.(log := mc.log + [Invocation(ch, PublishMethod, p)]);
    assert m3.stack[..|m3.stack| - 2] == mc.stack;
    assert Step(tail[0], f, m3) == Ok(m4);
    assert Exec(tail, f, m3) == Exec(tail[1..], f, m4);
    ExecReturns(tail[1..], f, m4);
    assert Exec(BodyCode(out, m), f, mc) == Ok(m4.(returned := true));
  }

  // ---------------------------------------------------------------------
  // A generated class, loaded, instantiated and called

  /** cf holds what the generator writes for ms, in whatever order, among
      whatever else: every field of the layout, and each generated method as
      the only one with its reference. */
  predicate Generated(cf: ClassFile, out: JType, ms: seq<JMethod>) {
    && (forall fd :: fd in FieldLayout(ms) ==> fd in cf.fields)
    && Provides(cf.defs, ConstructorDef(out, ms))
    && Provides(cf.defs, StaticInitDef(out))
    && (forall i :: 0 <= i < |ms| ==> Provides(cf.defs, BodyDef(out, ms[i])))
  }

  /** No two interface methods have the same name. */
  predicate DistinctNames(ms: seq<JMethod>) {
    forall i, j :: 0 <= i < j < |ms| ==> ms[i].name != ms[j].name
  }

  /** Two generated methods with the same reference are the same method. */
  lemma GeneratedSigsUnique(out: JType, ms: seq<JMethod>, d: MethodDef, e: MethodDef)
    requires d in GeneratedDefs(out, ms) && e in GeneratedDefs(out, ms) && d.sig == e.sig
    ensures d == e
  {
    var g := GeneratedDefs(out, ms);
    ConstructorIsNotClinit(|ms|);
    var a :| 0 <= a < |g| && g[a] == d;
    var b :| 0 <= b < |g| && g[b] == e;
    if a >= 2 && b >= 2 {
      assert ms[a - 2] == ms[b - 2];
    }
  }

  /** Whatever order the three generation steps run in, the class they write
      is a generated class for ms. */
  lemma WrittenInAnyOrder(cf: ClassFile, out: JType, ms: seq<JMethod>)
    requires forall fd :: fd in FieldLayout(ms) ==> fd in cf.fields
    requires forall d :: d in cf.defs <==> d in GeneratedDefs(out, ms)
    ensures Generated(cf, out, ms)
  {
    var g := GeneratedDefs(out, ms);
    forall d | d in g
      ensures Provides(cf.defs, d)
    {
      forall e | e in cf.defs && e.sig == d.sig
        ensures e == d
      {
        GeneratedSigsUnique(out, ms, d, e);
      }
    }
    assert g[0] == ConstructorDef(out, ms) && g[1] == StaticInitDef(out);
    assert forall i :: 0 <= i < |ms| ==> g[i + 2] == BodyDef(out, ms[i]);
  }

  /** Loading a generated class: SIGNAL holds the object its static
      initialiser allocates, numbered heap. */
  lemma LoadGenerated(cf: ClassFile, out: JType, ms: seq<JMethod>, heap: nat)
    requires Generated(cf, out, ms)
    ensures Load(cf, heap) == Ok(Loaded(Slots(cf.fields, true)[SignalName := Alloc(heap)], heap + 1))
  {
    LookupProvided(cf.defs, StaticInitDef(out));
    assert FieldLayout(ms)[0] == SignalField;
    assert SignalName in Slots(cf.fields, true);
    ExecStaticInit(out, Machine([], map[], Slots(cf.fields, true), heap, [], false));
  }

  /** A generated class has a static SIGNAL slot and an instance slot for
      the field of every method. */
  lemma GeneratedSlots(cf: ClassFile, out: JType, ms: seq<JMethod>)
    requires Generated(cf, out, ms)
    ensures SignalName in Slots(cf.fields, true)
    ensures forall j :: 0 <= j < |ms| ==> FieldNameFor(ms[j]) in Slots(cf.fields, false)
  {
    assert FieldLayout(ms)[0] == SignalField;
    forall j | 0 <= j < |ms|
      ensures FieldNameFor(ms[j]) in Slots(cf.fields, false)
    {
      assert FieldLayout(ms)[j + 1] == PublisherField(ms[j]);
    }
  }

  /** Instantiating a generated class with one channel per method: the
      instance's fields are the positional bindings. */
  lemma NewGenerated(cf: ClassFile, out: JType, ms: seq<JMethod>, cls: Loaded, channels: seq<Value>)
    requires Generated(cf, out, ms) && |channels| == |ms|
    ensures New(cf, cls, ConstructorDef(out, ms).sig, channels)
         == Ok(Instance(Bound(Slots(cf.fields, false), ms, channels, |ms|), cls.statics, cls.heap))
  {
    LookupProvided(cf.defs, ConstructorDef(out, ms));
    GeneratedSlots(cf, out, ms);
    ExecConstructor(out, ms, Frame(seq(|channels|, _ => PublisherType), channels),
                    Machine([], Slots(cf.fields, false), cls.statics, cls.heap, [], false));
  }

  /** With fewer channels than methods no instance is made. */
  lemma TooFewChannels(cf: ClassFile, out: JType, ms: seq<JMethod>, cls: Loaded, channels: seq<Value>)
    requires Generated(cf, out, ms) && |channels| < |ms|
    ensures New(cf, cls, ConstructorDef(out, ms).sig, channels) == Err(NoSuchArgument)
  {
    LookupProvided(cf.defs, ConstructorDef(out, ms));
    GeneratedSlots(cf, out, ms);
    ConstructorNeedsEveryArgument(out, ms, Frame(seq(|channels|, _ => PublisherType), channels),
                                  Machine([], Slots(cf.fields, false), cls.statics, cls.heap, [], false));
  }

  /** The index of the channel that method i publishes on: the last method
      whose field is method i's. */
  function BoundChannel(ms: seq<JMethod>, i: nat): (r: nat)
    requires i < |ms|
    ensures i <= r < |ms| && ms[r].name == ms[i].name
    ensures forall j :: r < j < |ms| ==> ms[j].name != ms[i].name
  {
    var r := LastBound(ms, FieldNameFor(ms[i]), |ms|);
    FieldNameCollision(ms[r], ms[i]);
    forall j | r < j < |ms|
      ensures ms[j].name != ms[i].name
    {
      FieldNameCollision(ms[j], ms[i]);
    }
    r
  }

  /** Load the class, make an instance with the given channels through the
      constructor the generator declared, and call interface method im. */
  function CallOnFreshInstance(cf: ClassFile, out: JType, ms: seq<JMethod>, heap: nat,
                               channels: seq<Value>, im: JMethod, args: seq<Value>): Result<seq<Invocation>> {
    match Load(cf, heap)
    case Err(e) => Err(e)
    case Ok(cls) =>
      match New(cf, cls, ConstructorDef(out, ms).sig, channels)
      case Err(e) => Err(e)
      case Ok(obj) => Call(cf, obj, im, args)
  }

  /** Calling method i of an instance whose field for method i holds a
      channel: one publish on that channel, of the payload. */
  lemma CallGenerated(cf: ClassFile, out: JType, ms: seq<JMethod>, obj: Instance, i: nat, args: seq<Value>)
    requires Generated(cf, out, ms) && i < |ms| && |args| == |ms[i].params|
    requires FieldNameFor(ms[i]) in obj.fields && obj.fields[FieldNameFor(ms[i])] != Null
    requires SignalName in obj.statics
    ensures Call(cf, obj, ms[i], args)
         == Ok([Invocation(obj.fields[FieldNameFor(ms[i])], PublishMethod, Payload(ms[i], args, obj.statics[SignalName]))])
  {
    var d := BodyDef(out, ms[i]);
    LookupProvided(cf.defs, d);
    assert d.sig == SigOf(ms[i].name, ms[i].params);
    var mc := Machine([], obj.fields, obj.statics, obj.heap, [], false);
    ExecBody(out, ms[i], args, mc);
    var inv := Invocation(obj.fields[FieldNameFor(ms[i])], PublishMethod, Payload(ms[i], args, obj.statics[SignalName]));
    assert RunBody(d, Frame(ms[i].params, args), mc) == Ok(mc.(returned := true, log := [] + [inv]));
    assert [] + [inv] == [inv];
  }

  /** Calling method i of an instance of a generated class makes exactly one
      call: publish, on the channel bound to method i's field, with the
      payload of the three-way rule, SIGNAL being the object allocated when
      the class was loaded. */
  lemma CallPublishesOnce(cf: ClassFile, out: JType, ms: seq<JMethod>, heap: nat,
                          channels: seq<Value>, i: nat, args: seq<Value>)
    requires Generated(cf, out, ms)
    requires |channels| == |ms| && forall c :: c in channels ==> c != Null
    requires i < |ms| && |args| == |ms[i].params|
    ensures CallOnFreshInstance(cf, out, ms, heap, channels, ms[i], args)
         == Ok([Invocation(channels[BoundChannel(ms, i)], PublishMethod, Payload(ms[i], args, Alloc(heap)))])
  {
    LoadGenerated(cf, out, ms, heap);
    var cls := Loaded(Slots(cf.fields, true)[SignalName := Alloc(heap)], heap + 1);
    NewGenerated(cf, out, ms, cls, channels);
    var slots := Slots(cf.fields, false);
    var obj := Instance(Bound(slots, ms, channels, |ms|), cls.statics, cls.heap);
    var x := FieldNameFor(ms[i]);
    GeneratedSlots(cf, out, ms);
    BoundAt(slots, ms, channels, |ms|, x);
    var c := channels[BoundChannel(ms, i)];
    assert obj.fields[x] == c;
    assert c in channels;
    CallGenerated(cf, out, ms, obj, i, args);
    assert Call(cf, obj, ms[i], args) == Ok([Invocation(c, PublishMethod, Payload(ms[i], args, Alloc(heap)))]);
  }

  /** With distinct method names, method i publishes on channel i itself. */
  lemma CallPublishesOnOwnChannel(cf: ClassFile, out: JType, ms: seq<JMethod>, heap: nat,
                                  channels: seq<Value>, i: nat, args: seq<Value>)
    requires Generated(cf, out, ms) && DistinctNames(ms)
    requires |channels| == |ms| && forall c :: c in channels ==> c != Null
    requires i < |ms| && |args| == |ms[i].params|
    ensures CallOnFreshInstance(cf, out, ms, heap, channels, ms[i], args)
         == Ok([Invocation(channels[i], PublishMethod, Payload(ms[i], args, Alloc(heap)))])
  {
    CallPublishesOnce(cf, out, ms, heap, channels, i, args);
    assert BoundChannel(ms, i) == i;
  }

  /** The documented collision: when a later method has the same name, the
      earlier method never publishes on its own channel, but on the channel
      the later method bound to the shared field. */
  lemma CollidingNamesShareChannel(ms: seq<JMethod>, i: nat, j: nat)
    requires i < j < |ms| && ms[i].name == ms[j].name
    ensures BoundChannel(ms, i) == BoundChannel(ms, j) && BoundChannel(ms, i) != i
  {
    FieldNameCollision(ms[i], ms[j]);
  }

  /** Loading the class twice at different allocation points gives two
      different SIGNAL objects: the sentinel belongs to one loaded class. */
  lemma EachLoadHasItsOwnSignal(cf: ClassFile, out: JType, ms: seq<JMethod>, h1: nat, h2: nat)
    requires Generated(cf, out, ms) && h1 != h2
    ensures Load(cf, h1).Ok? && Load(cf, h2).Ok?
    ensures SignalName in Load(cf, h1).value.statics && SignalName in Load(cf, h2).value.statics
    ensures Load(cf, h1).value.statics[SignalName] != Load(cf, h2).value.statics[SignalName]
  {
    LoadGenerated(cf, out, ms, h1);
    LoadGenerated(cf, out, ms, h2);
  }

  /** Two classes generated for the same methods, under any two output
      types and each loaded at its own allocation point, publish on the same
      channel. For a method with parameters the payloads have equal contents
      (argument arrays and boxes are values here, without an identity of
      their own); for a method without parameters each publishes its own
      load's SIGNAL, so the two agree exactly when both loads allocate the
      same object. */
  lemma RegeneratedClassesAgree(cf1: ClassFile, out1: JType, cf2: ClassFile, out2: JType, ms: seq<JMethod>,
                                h1: nat, h2: nat, channels: seq<Value>, i: nat, args: seq<Value>)
    requires Generated(cf1, out1, ms) && Generated(cf2, out2, ms)
    requires |channels| == |ms| && forall c :: c in channels ==> c != Null
    requires i < |ms| && |args| == |ms[i].params|
    ensures var r1 := CallOnFreshInstance(cf1, out1, ms, h1, channels, ms[i], args);
            var r2 := CallOnFreshInstance(cf2, out2, ms, h2, channels, ms[i], args);
      && r1.Ok? && r2.Ok? && |r1.value| == |r2.value| == 1
      && r1.value[0].receiver == r2.value[0].receiver
      && r1.value[0].target == r2.value[0].target
      && (|ms[i].params| >= 1 ==> r1 == r2)
      && (|ms[i].params| == 0 ==> (r1 == r2 <==> h1 == h2))
  {
    CallPublishesOnce(cf1, out1, ms, h1, channels, i, args);
    CallPublishesOnce(cf2, out2, ms, h2, channels, i, args);
  }

  /** The generator run on a fresh class writer, in one order of its three
      steps; by WrittenInAnyOrder every other order writes a generated class
      too. */
  method GenerateClass(out: JType, ms: seq<JMethod>) returns (cf: ClassFile)
    ensures Generated(cf, out, ms)
    ensures cf.fields == FieldLayout(ms)
  {
    var e := new Emitter(out, ms);
    e.CreateFields();
    e.CreateConstructor();
    e.ImplementMethods();
    assert e.fields == FieldLayout(ms);
    assert e.defs == GeneratedDefs(out, ms);
    cf := e.Written();
    WrittenInAnyOrder(cf, out, ms);
  }

  // ---------------------------------------------------------------------
  // The example program's interface

  const StringType: JType := ClassType("java.lang.String")
  const IntType: JType := Primitive("int")

  /** The example's Mouse: eatCheese(String), then provokeCats(int). */
  const Mouse: seq<JMethod> := [JMethod("eatCheese", [StringType]), JMethod("provokeCats", [IntType])]

  /** Built with channels c1, c2: eatCheese("cheddar") publishes the string
      itself on c1 only, provokeCats(4) publishes a boxed 4 on c2 only. */
  lemma MouseForwards(out: JType, heap: nat, cheddar: nat)
    ensures var cf := ClassFile(FieldLayout(Mouse), GeneratedDefs(out, Mouse));
      && CallOnFreshInstance(cf, out, Mouse, heap, [Ref(1), Ref(2)], Mouse[0], [Ref(cheddar)])
         == Ok([Invocation(Ref(1), PublishMethod, Ref(cheddar))])
      && CallOnFreshInstance(cf, out, Mouse, heap, [Ref(1), Ref(2)], Mouse[1], [Prim("int", 4)])
         == Ok([Invocation(Ref(2), PublishMethod, Boxed("int", 4))])
  {
    var cf := ClassFile(FieldLayout(Mouse), GeneratedDefs(out, Mouse));
    WrittenInAnyOrder(cf, out, Mouse);
    var channels := [Ref(1), Ref(2)];
    CallPublishesOnOwnChannel(cf, out, Mouse, heap, channels, 0, [Ref(cheddar)]);
    CallPublishesOnOwnChannel(cf, out, Mouse, heap, channels, 1, [Prim("int", 4)]);
  }
}
