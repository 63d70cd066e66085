/**
 The vocabulary of the class files that the publisher generator writes.

 The generator drives the ASM library (a ClassWriter for fields, one
 GeneratorAdapter per method body). Here a field declaration, a method
 reference and every adapter call it uses become values of small
 datatypes, and a GeneratorAdapter becomes an object that buffers the
 instructions of one method body until that body is ended.
 */
module Jvm {

  /** A Java type as the generator refers to it: a primitive type or a class
      or interface, each named by its Java name ("int", "java.lang.Object"). */
  datatype JType = Primitive(name: string) | ClassType(name: string)

  /** A reflected interface method, reduced to what the generator reads from
      it: its name and its parameter types in declared order. Only methods
      returning void are modelled. */
  datatype JMethod = JMethod(name: string, params: seq<JType>)

  /** Access flags. Each ACC_ constant is a distinct bit, so the source's sum
      ACC_PRIVATE + ACC_FINAL + ACC_STATIC is the set {Private, Final, Static}. */
  datatype Flag = Public | Private | Static | Final

  /** What one visitField call declares (the descriptor is the field type's). */
  datatype FieldDecl = FieldDecl(access: set<Flag>, name: string, ftype: JType)

  /** A method reference as ASM holds it: parsed from a text such as
      "void <init> ()" (Method.getMethod, asmMethod(String)), or taken from a
      reflected method (asmMethod(Method)). */
  datatype Sig = SigText(text: string) | SigOf(name: string, params: seq<JType>)

  /** One GeneratorAdapter call that emits code. */
  datatype Instr =
    | LoadThis
    | LoadArg(index: nat)
    | LoadArgArray
    | Box(btype: JType)
    | GetField(owner: JType, name: string, ftype: JType)
    | PutField(owner: JType, name: string, ftype: JType)
    | GetStatic(owner: JType, name: string, ftype: JType)
    | PutStatic(owner: JType, name: string, ftype: JType)
    | NewInstance(itype: JType)
    | Dup
    | InvokeConstructor(owner: JType, target: Sig)
    | InvokeInterface(owner: JType, target: Sig)
    | ReturnValue

  /** A finished method: its access flags, its reference and its code. */
  datatype MethodDef = MethodDef(access: set<Flag>, sig: Sig, code: seq<Instr>)

  /** What the class writer holds once generation is over. */
  datatype ClassFile = ClassFile(fields: seq<FieldDecl>, defs: seq<MethodDef>)

  /** The helper's objectType: java.lang.Object. */
  const ObjectType: JType := ClassType("java.lang.Object")

  /** The helper's publisherType: the channel interface of the message library. */
  const PublisherType: JType := ClassType("org.jetlang.channels.Publisher")

  /** The helper's defaultConstructor: the no-argument constructor. */
  const DefaultConstructor: Sig := SigText("void <init> ()")

  /** The helper's publishMethod: the channel's only operation. */
  const PublishMethod: Sig := SigText("void publish (java.lang.Object)")

  /** The static initialiser's reference, asmMethod("void <clinit> ()"). */
  const ClinitSig: Sig := SigText("void <clinit> ()")

  /** A GeneratorAdapter: the code of one method body, emitted call by call. */
  class Adapter {
    const access: set<Flag>
    const sig: Sig
    var code: seq<Instr>

    constructor (access: set<Flag>, sig: Sig)
      ensures this.access == access && this.sig == sig && code == []
    {
      this.access := access;
      this.sig := sig;
      code := [];
    }

    /** Any one of the emitting adapter calls: it appends its instruction. */
    method Emit(i: Instr)
      modifies this
      ensures code == old(code) + [i]
    {
      code := code + [i];
    }
  }
}
