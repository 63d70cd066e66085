/**
 What a generated class does once it is loaded: a small stack machine that
 runs the emitted instructions of one class.

 A class is loaded by running its static initialiser over fresh static slots;
 an instance is made by running a constructor over fresh instance slots with
 the caller's channels as arguments; calling an interface method runs that
 method's body and yields the channel calls it made, in order. The channel's
 publish is an opaque sink: the machine only records each call in its log.
 */
module Runtime {
  import opened Jvm

  /** A run-time value. ThisRef is the one instance being run, Alloc(k) the
      object a `new` instruction of the generated code allocates at heap
      position k (only the static initialiser has one), Ref(k) any object the
      caller passes in (a channel, a String). A boxed primitive and an
      argument array are values given by their contents: the allocation that
      boxing and loadArgArray perform is not tracked. */
  datatype Value =
    | Null
    | ThisRef
    | Alloc(id: nat)
    | Ref(id: nat)
    | Prim(kind: string, bits: int)
    | Boxed(kind: string, bits: int)
    | ArgArray(elems: seq<Value>)

  /** One call the generated code made on an interface: receiver, method,
      argument. */
  datatype Invocation = Invocation(receiver: Value, target: Sig, arg: Value)

  /** Why a run stops short (a JVM exception or a verification error). */
  datatype Fault = StackUnderflow | NoSuchArgument | NoSuchField(name: string) | NoSuchMethod
                 | NullPointer | NotThis | FellOffEnd

  datatype Result<T> = Ok(value: T) | Err(fault: Fault)

  /** The method being run: its declared parameter types and its arguments. */
  datatype Frame = Frame(params: seq<JType>, args: seq<Value>)

  /** The operand stack, the instance's fields, the class's statics, the next
      allocation, the calls made so far, and whether the body has returned. */
  datatype Machine = Machine(stack: seq<Value>, fields: map<string, Value>, statics: map<string, Value>,
                             heap: nat, log: seq<Invocation>, returned: bool)

  /** Boxing a primitive value; any other value is left alone. */
  function BoxValue(v: Value): Value {
    match v
    case Prim(k, b) => Boxed(k, b)
    case _ => v
  }

  /** GeneratorAdapter.box(t): boxes only when t is primitive. */
  function BoxAs(t: JType, v: Value): Value {
    if t.Primitive? then BoxValue(v) else v
  }

  /** The elements of loadArgArray's array: each argument boxed by its
      declared type, in declared order. */
  function BoxAll(ps: seq<JType>, vs: seq<Value>): seq<Value>
    requires |ps| == |vs|
  {
    seq(|vs|, k requires 0 <= k < |vs| => BoxAs(ps[k], vs[k]))
  }

  /** One instruction. */
  function Step(ins: Instr, f: Frame, m: Machine): Result<Machine> {
    var s := m.stack;
    match ins
    case LoadThis => Ok(m.(stack := s + [ThisRef]))
    case LoadArg(i) =>
      if i < |f.args| then Ok(m.(stack := s + [f.args[i]])) else Err(NoSuchArgument)
    case LoadArgArray =>
      if |f.params| == |f.args| then Ok(m.(stack := s + [ArgArray(BoxAll(f.params, f.args))]))
      else Err(NoSuchArgument)
    case Box(t) =>
      if |s| < 1 then Err(StackUnderflow) else Ok(m.(stack := s[..|s| - 1] + [BoxAs(t, s[|s| - 1])]))
    case GetField(_, x, _) =>
      if |s| < 1 then Err(StackUnderflow)
      else if s[|s| - 1] != ThisRef then Err(NotThis)
      else if x !in m.fields then Err(NoSuchField(x))
      else Ok(m.(stack := s[..|s| - 1] + [m.fields[x]]))
    case PutField(_, x, _) =>
      if |s| < 2 then Err(StackUnderflow)
      else if s[|s| - 2] != ThisRef then Err(NotThis)
      else if x !in m.fields then Err(NoSuchField(x))
      else Ok(m.(stack := s[..|s| - 2], fields := m.fields[x := s[|s| - 1]]))
    case GetStatic(_, x, _) =>
      if x !in m.statics then Err(NoSuchField(x)) else Ok(m.(stack := s + [m.statics[x]]))
    case PutStatic(_, x, _) =>
      if |s| < 1 then Err(StackUnderflow)
      else if x !in m.statics then Err(NoSuchField(x))
      else Ok(m.(stack := s[..|s| - 1], statics := m.statics[x := s[|s| - 1]]))
    case NewInstance(_) => Ok(m.(stack := s + [Alloc(m.heap)], heap := m.heap + 1))
    case Dup => if |s| < 1 then Err(StackUnderflow) else Ok(m.(stack := s + [s[|s| - 1]]))
    case InvokeConstructor(_, _) =>
      // the no-argument constructor of java.lang.Object has no effect
      if |s| < 1 then Err(StackUnderflow)
      else if s[|s| - 1] == Null then Err(NullPointer)
      else Ok(m.(stack := s[..|s| - 1]))
    case InvokeInterface(_, target) =>
      if |s| < 2 then Err(StackUnderflow)
      else if s[|s| - 2] == Null then Err(NullPointer)
      else Ok(m.(stack := s[..|s| - 2], log := m.log + [Invocation(s[|s| - 2], target, s[|s| - 1])]))
    case ReturnValue => Ok(m.(returned := true))
  }

  /** Straight-line code, up to the first return. */
  function Exec(code: seq<Instr>, f: Frame, m: Machine): Result<Machine>
    decreases |code|
  {
    if code == [] || m.returned then Ok(m)
    else match Step(code[0], f, m)
      case Err(e) => Err(e)
      case Ok(m') => Exec(code[1..], f, m')
  }

  /** Code that starts with a return just returns. */
  lemma ExecReturns(code: seq<Instr>, f: Frame, m: Machine)
    requires code != [] && code[0] == ReturnValue && !m.returned
    ensures Exec(code, f, m) == Ok(m.(returned := true))
  {
    assert Exec(code, f, m) == Exec(code[1..], f, m.(returned := true));
  }

  /** Running more code after a run that may have failed. */
  function AndThen(r: Result<Machine>, code: seq<Instr>, f: Frame): Result<Machine> {
    match r
    case Err(e) => Err(e)
    case Ok(m) => Exec(code, f, m)
  }

  /** Running a + b is running a, then b on what a left. */
  lemma {:induction false} ExecAppend(a: seq<Instr>, b: seq<Instr>, f: Frame, m: Machine)
    ensures Exec(a + b, f, m) == AndThen(Exec(a, f, m), b, f)
    decreases |a|
  {
    if a == [] {
      assert a + b == b;
    } else if !m.returned {
      assert (a + b)[0] == a[0];
      assert (a + b)[1..] == a[1..] + b;
      match Step(a[0], f, m)
      case Err(e) =>
      case Ok(m') => ExecAppend(a[1..], b, f, m');
    }
  }

  /** Running a whole body: it must reach its return. */
  function RunBody(d: MethodDef, f: Frame, m: Machine): Result<Machine> {
    match Exec(d.code, f, m)
    case Err(e) => Err(e)
    case Ok(m') => if m'.returned then Ok(m') else Err(FellOffEnd)
  }

  /** The first method declared with reference sig. */
  function Lookup(defs: seq<MethodDef>, sig: Sig): (r: Option<MethodDef>)
    ensures r.Some? ==> r.value in defs && r.value.sig == sig
    ensures r.None? ==> forall d :: d in defs ==> d.sig != sig
  {
    if defs == [] then None
    else if defs[0].sig == sig then Some(defs[0])
    else Lookup(defs[1..], sig)
  }

  datatype Option<T> = None | Some(value: T)

  /** d is declared in defs, and no other declaration has its reference. */
  predicate Provides(defs: seq<MethodDef>, d: MethodDef) {
    d in defs && forall e :: e in defs && e.sig == d.sig ==> e == d
  }

  /** A declaration that is the only one with its reference is the one found. */
  lemma LookupProvided(defs: seq<MethodDef>, d: MethodDef)
    requires Provides(defs, d)
    ensures Lookup(defs, d.sig) == Some(d)
  {
  }

  /** The names of the declared static (or instance) fields. */
  function SlotNames(fs: seq<FieldDecl>, isStatic: bool): set<string> {
    set f | f in fs && (Static in f.access) == isStatic :: f.name
  }

  /** Zero-initialised slots of the declared static (or instance) fields. */
  function Slots(fs: seq<FieldDecl>, isStatic: bool): (r: map<string, Value>)
    ensures forall x :: x in r ==> r[x] == Null
    ensures forall x :: x in r <==> exists f :: f in fs && f.name == x && (Static in f.access) == isStatic
  {
    map x | x in SlotNames(fs, isStatic) :: Null
  }

  /** A class after its static initialiser has run. */
  datatype Loaded = Loaded(statics: map<string, Value>, heap: nat)

  /** An instance after its constructor has returned. */
  datatype Instance = Instance(fields: map<string, Value>, statics: map<string, Value>, heap: nat)

  /** Class initialisation, with objects numbered from heap on. */
  function Load(cf: ClassFile, heap: nat): Result<Loaded> {
    var m := Machine([], map[], Slots(cf.fields, true), heap, [], false);
    match Lookup(cf.defs, ClinitSig)
    case None => Ok(Loaded(m.statics, heap))
    case Some(d) =>
      match RunBody(d, Frame([], []), m)
      case Err(e) => Err(e)
      case Ok(m') => Ok(Loaded(m'.statics, m'.heap))
  }

  /** Instantiation through the constructor with reference ctor, passing the
      channels as its publisher arguments. */
  function New(cf: ClassFile, cls: Loaded, ctor: Sig, channels: seq<Value>): Result<Instance> {
    var m := Machine([], Slots(cf.fields, false), cls.statics, cls.heap, [], false);
    match Lookup(cf.defs, ctor)
    case None => Err(NoSuchMethod)
    case Some(d) =>
      match RunBody(d, Frame(seq(|channels|, _ => PublisherType), channels), m)
      case Err(e) => Err(e)
      case Ok(m') => Ok(Instance(m'.fields, m'.statics, m'.heap))
  }

  /** Calling interface method im on obj: the channel calls the body makes. */
  function Call(cf: ClassFile, obj: Instance, im: JMethod, args: seq<Value>): Result<seq<Invocation>> {
    var m := Machine([], obj.fields, obj.statics, obj.heap, [], false);
    match Lookup(cf.defs, SigOf(im.name, im.params))
    case None => Err(NoSuchMethod)
    case Some(d) =>
      match RunBody(d, Frame(im.params, args), m)
      case Err(e) => Err(e)
      case Ok(m') => Ok(m'.log)
  }
}
