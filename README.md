# heysync publish-forwarding classes, modelled in Dafny

heysync turns a Java interface whose methods return `void` into a message
protocol. Its `PublisherCreator` writes the bytecode of a class that
implements the interface. That class has:

- a static `SIGNAL` object;
- one private final `Publisher` field per interface method;
- a constructor that takes one channel per method and stores channel i into
  the field of method i;
- a body per method that publishes the method's payload on that method's
  channel. The payload is the argument array for two or more parameters,
  the single argument (boxed when primitive) for one, and `SIGNAL` for none.

The project has four modules:

- `Jvm` (jvm.dfy): the class-file vocabulary the generator uses. This covers
  types, reflected methods, access flags, field declarations, method
  references, one instruction per GeneratorAdapter call, and a method
  adapter (class `Adapter`) that buffers one body.
- `PublisherCreator` (publisher_creator.dfy): two layers.
  - Functions that say what each generation step emits (field layout,
    constructor descriptor, constructor code, static initialiser code,
    method bodies), with lemmas about their shape.
  - Class `Emitter`, which performs the steps the way the source does: loops,
    a `StringBuilder` as a growing string, an `arg` counter, and adapter calls
    appended one at a time. Each of its methods is proved to emit exactly what
    the spec functions describe.
- `Runtime` (runtime.dfy): a small stack machine that runs those
  instructions. It covers loading a class (running `<clinit>`), creating an
  instance through a constructor, and calling a method. A channel's
  `publish` is an opaque sink: each call is recorded in a log.
- `Forwarding` (forwarding.dfy): what the emitted code does when run. The
  end-to-end result: in any class that holds the generated fields and
  methods, calling method i publishes exactly once, with the method's
  payload, on the channel bound to method i's field. With distinct method
  names that is the i-th constructor argument. When names collide, the
  later method's channel wins for both methods.

Two edge cases of the code are modelled as written:

- For an interface with no methods, `asmConstructorMethod(0)` deletes the
  opening parenthesis. The text handed to `Method.getMethod` is then
  `void <init> )`, which that call rejects (see "## Left out").
- Each loaded class allocates its own `SIGNAL` object in its static
  initialiser. There is no single sentinel shared by all generated classes.

## Model

| member | source | states |
|---|---|---|
| PublisherCreator.FieldNameFor | src/main/java/org/fotap/heysync/PublisherCreator.java:120-123 | the field name is the method name followed by "Publisher": longer than the name and never "SIGNAL" |
| PublisherCreator.FieldNameCollision | src/main/java/org/fotap/heysync/PublisherCreator.java:120-123 | two methods get the same field name exactly when they have the same name, whatever their parameters |
| PublisherCreator.FieldLayoutShape | src/main/java/org/fotap/heysync/PublisherCreator.java:25-42 | there are n+1 fields. The first is the private final static SIGNAL of type Object. Field i+1 is the private final Publisher field named after method i. Only the first is static |
| PublisherCreator.LayoutNamesCollide | src/main/java/org/fotap/heysync/PublisherCreator.java:29-36 | two publisher fields of the layout share a name exactly when their methods do |
| PublisherCreator.JoinedCommas | src/main/java/org/fotap/heysync/PublisherCreator.java:79-81 | n copies of the Publisher class name, used as parameters, have exactly n-1 separating commas and no trailing comma |
| PublisherCreator.JoinedCopies | src/main/java/org/fotap/heysync/PublisherCreator.java:79-81 | the joined parameter list has length 31n-1, and copy k of the Publisher class name starts at position 31k, for every k < n |
| PublisherCreator.JoinedSeparators | src/main/java/org/fotap/heysync/PublisherCreator.java:79-81 | each copy of the class name but the last is followed by a single comma, at position 31k+30 |
| PublisherCreator.DescriptorShape | src/main/java/org/fotap/heysync/PublisherCreator.java:76-85 | with no parameters the descriptor is exactly "void <init> )". Otherwise it is "void <init> (", then the joined list of n names with n-1 commas, then ")" |
| PublisherCreator.ConstructorIsNotClinit | src/main/java/org/fotap/heysync/PublisherCreator.java:51-61 | the constructor's reference never equals the static initialiser's |
| PublisherCreator.BindCodeShape | src/main/java/org/fotap/heysync/PublisherCreator.java:64-70 | the bindings of n methods are 3n instructions. Triple i is load this, load argument i, store into method i's field: the counter goes up by one per method |
| PublisherCreator.MessageCase | src/main/java/org/fotap/heysync/PublisherCreator.java:104-118 | the payload rule is exhaustive and exclusive: argument array iff more than one parameter, single argument iff one, SIGNAL iff none. A single argument is boxed iff its type is primitive |
| PublisherCreator.BodyShape | src/main/java/org/fotap/heysync/PublisherCreator.java:94-102 | a body starts with this and the method's own field and ends with publish and return. It has exactly one interface call, and it boxes iff the method has one primitive parameter |
| PublisherCreator.Emitter.CreateFields | src/main/java/org/fotap/heysync/PublisherCreator.java:25-32 | declares exactly the field layout, in order, after what was declared before; writes no method |
| PublisherCreator.Emitter.CreateField | src/main/java/org/fotap/heysync/PublisherCreator.java:34-42 | declares one private final Publisher field named after the method |
| PublisherCreator.Emitter.CreateConstructor | src/main/java/org/fotap/heysync/PublisherCreator.java:45-48 | adds the instance constructor and then the static initialiser, and nothing else |
| PublisherCreator.Emitter.StaticInitializer | src/main/java/org/fotap/heysync/PublisherCreator.java:50-58 | adds one static <clinit> that creates a new Object, stores it in SIGNAL and returns |
| PublisherCreator.Emitter.ConstructorForPublishers | src/main/java/org/fotap/heysync/PublisherCreator.java:60-74 | adds one public constructor with the descriptor for n publishers. It calls the superclass constructor, binds argument i to method i's field for every i with the loop counter ending at n, and returns |
| PublisherCreator.Emitter.AsmConstructorMethod | src/main/java/org/fotap/heysync/PublisherCreator.java:76-85 | the builder loop followed by dropping the last character and appending ")" gives exactly the constructor descriptor, including the no-parameter text |
| PublisherCreator.Emitter.ImplementMethods | src/main/java/org/fotap/heysync/PublisherCreator.java:87-92 | adds one body per method, in method order |
| PublisherCreator.Emitter.Implement | src/main/java/org/fotap/heysync/PublisherCreator.java:94-102 | adds one public method with the interface method's reference: this, the method's field, the message, publish, return |
| PublisherCreator.Emitter.LoadMessage | src/main/java/org/fotap/heysync/PublisherCreator.java:104-118 | appends the message code the three-way rule chooses, and nothing else |
| Forwarding.ExecMessage | src/main/java/org/fotap/heysync/PublisherCreator.java:104-118 | the message code pushes exactly the payload and changes nothing else. The payload is the array of arguments, each boxed by its declared type; or the one argument, boxed iff primitive; or the SIGNAL object |
| Forwarding.LastBound | src/main/java/org/fotap/heysync/PublisherCreator.java:66-70 | the last method bound to a field, or -1 exactly when no method is |
| Forwarding.BoundAt | src/main/java/org/fotap/heysync/PublisherCreator.java:66-70 | after the bindings, a field holds the argument of the last method bound to it, or its old value |
| Forwarding.ExecBindings | src/main/java/org/fotap/heysync/PublisherCreator.java:66-70 | running the binding code stores argument k into method k's field for each k in order and changes nothing else |
| Forwarding.BindingsNeedEveryArgument | src/main/java/org/fotap/heysync/PublisherCreator.java:66-70 | with fewer arguments than methods, the binding code faults on the missing argument |
| Forwarding.ExecStaticInit | src/main/java/org/fotap/heysync/PublisherCreator.java:50-58 | the static initialiser stores one newly allocated object into SIGNAL and returns, changing nothing else |
| Forwarding.ExecSuperCall | src/main/java/org/fotap/heysync/PublisherCreator.java:62-63 | the superclass constructor call leaves the machine unchanged |
| Forwarding.ExecConstructor | src/main/java/org/fotap/heysync/PublisherCreator.java:60-74 | the constructor returns with exactly the positional bindings |
| Forwarding.ConstructorNeedsEveryArgument | src/main/java/org/fotap/heysync/PublisherCreator.java:60-74 | with fewer arguments than methods the constructor never returns normally |
| Forwarding.ExecBody | src/main/java/org/fotap/heysync/PublisherCreator.java:94-118 | a body makes one publish call, on the channel in its own field, with its payload. It returns with stack, fields and statics unchanged |
| Forwarding.GeneratedSigsUnique | src/main/java/org/fotap/heysync/PublisherCreator.java:45-102 | two generated methods with the same reference are the same method: the constructor, the static initialiser and each body have distinct references unless two interface methods are identical, in which case their bodies are too |
| Forwarding.WrittenInAnyOrder | src/main/java/org/fotap/heysync/PublisherCreator.java:25-102 | a class holding the generated fields and exactly the generated methods, in any order, is a generated class: each method is the only one with its reference |
| Forwarding.LoadGenerated | src/main/java/org/fotap/heysync/PublisherCreator.java:50-58 | loading a generated class runs the static initialiser once. SIGNAL then holds one fresh object |
| Forwarding.GeneratedSlots | src/main/java/org/fotap/heysync/PublisherCreator.java:25-42 | a generated class has the static SIGNAL slot and an instance slot for every method's field |
| Forwarding.NewGenerated | src/main/java/org/fotap/heysync/PublisherCreator.java:60-74 | instantiating with one channel per method gives an instance whose fields are the positional bindings |
| Forwarding.TooFewChannels | src/main/java/org/fotap/heysync/PublisherCreator.java:60-74 | instantiating with fewer channels than methods fails |
| Forwarding.BoundChannel | src/main/java/org/fotap/heysync/PublisherCreator.java:66-70 | the channel method i ends up with: an index at or after i with the same name and no later same-named method |
| Forwarding.CallGenerated | src/main/java/org/fotap/heysync/PublisherCreator.java:94-118 | calling method i on an instance whose field holds a channel logs exactly one publish of the payload on that channel |
| Forwarding.CallPublishesOnce | src/main/java/org/fotap/heysync/PublisherCreator.java:60-118 | load, instantiate and call method i gives exactly one publish call, with method i's payload and the SIGNAL of that load, on the channel bound to method i's field |
| Forwarding.CallPublishesOnOwnChannel | src/main/java/org/fotap/heysync/PublisherCreator.java:60-118 | with distinct method names, calling method i publishes exactly once on the i-th constructor argument |
| Forwarding.CollidingNamesShareChannel | src/main/java/org/fotap/heysync/PublisherCreator.java:120-123 | two methods with the same name publish on the same channel, which is not the earlier method's own |
| Forwarding.EachLoadHasItsOwnSignal | src/main/java/org/fotap/heysync/PublisherCreator.java:50-58 | two loads of a class allocate different SIGNAL objects |
| Forwarding.RegeneratedClassesAgree | src/main/java/org/fotap/heysync/PublisherCreator.java:50-118 | two classes generated for the same methods under any two output types, each loaded at its own allocation point, make one publish each on the same channel. For a method with parameters the payloads have equal contents (boxes and argument arrays carry no identity in the model). For a method without parameters each publishes its own load's SIGNAL, so the two agree exactly when the loads allocate the same object |
| Forwarding.GenerateClass | src/main/java/org/fotap/heysync/PublisherCreator.java:25-102 | running createFields, createConstructor and implementMethods on a fresh writer writes exactly the field layout and a generated class |
| Forwarding.MouseForwards | src/test/java/org/fotap/heysync/HeysyncExample.java:23-27 | for the example's Mouse, eatCheese("cheddar") publishes the string itself on the first channel only. provokeCats(4) publishes a boxed 4 on the second channel only |

## Left out

- ASM internals are not modelled: constant-pool entries, type and method
  descriptors, stack-map frames and `visitEnd`. A field keeps its Java type;
  a method reference is either the text handed to `Method.getMethod` or the
  reflected method's name and parameter types.
- The `ClassCreator` base class and `AsmHelper` are not part of this model:
  - The order in which the base class calls the three steps is not asserted.
    `Forwarding.GenerateClass` runs them in one order, and
    `Forwarding.WrittenInAnyOrder` covers every order.
  - `objectType`, `publisherType`, `defaultConstructor` and `publishMethod`
    are given their evident values in jvm.dfy.
- Class loading and the JVM verifier are reduced to running `<clinit>`.
  The JVM's rejection of a class that declares a field name twice is left
  out. Under a name collision the model's slot map keeps one slot, which is
  overwritten.
- Runtime.Step: a boxed primitive (`box`, PublisherCreator.java:113) and the argument
  array (`loadArgArray`, PublisherCreator.java:108) are values given by their contents. The
  fresh object that each of those instructions allocates in the JVM is not
  tracked: the heap counter does not move and the object has no identity.
  So payloads of two calls compare by contents, where Java would see two
  distinct objects.
- A generated class whose interface lists the same method twice would
  declare that method twice, which the JVM rejects. The model keeps both
  identical bodies and lookup finds the same one either way.
- PublisherCreator.Emitter.AsmConstructorMethod: for 0 parameters the source
  hands `"void <init> )"` to `Method.getMethod` at PublisherCreator.java:84.
  That text has no opening parenthesis, so the source throws there and no
  class is generated for an interface without methods. The model does not
  parse the text. It returns a reference holding that text, so the Forwarding
  lemmas for an empty method list describe a class the source never produces.
- Runtime.New: the number of channels is not compared with the number of
  constructor parameters. With more channels than methods the model's
  constructor ignores the extra ones and the instance is made. A real
  instantiation would reject the call for its wrong argument count.
- Runtime.Call: the number of arguments is not compared with the number of
  parameters of the method called. The message code faults only when an
  argument it reads is missing (`loadArg`) or when the counts differ
  (`loadArgArray`). Every end-to-end lemma assumes the counts match.
- The message library's channels are not modelled: `publish` is an opaque
  call recorded in a log. Subscribers, fibers and delivery are left out, and
  so is the example program's concurrency.
- Interface methods that return a value are not modelled; the generator
  only handles `void` methods.
- Access-flag sums (`ACC_PRIVATE + ACC_FINAL + ACC_STATIC`) are modelled as
  sets of distinct flags.
- The interpreter runs one instance at a time. Field access on any object
  other than `this` faults. The owner operand of field and method
  instructions is not checked at run time.
- PublisherCreator.Emitter.ConstructorForPublishers: the Java `int` counter
  `arg` is modelled as an unbounded integer. More than 2^31 methods is
  beyond what a class file can hold.
