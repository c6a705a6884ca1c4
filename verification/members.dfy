/**
  The type registry that stands in for .NET reflection: the properties a value
  exposes (`GetProperties`), name lookup (`GetProperty`, `GetMethod`) and method
  invocation (`MethodInfo.Invoke`).
*/
module Members {
  import opened Wrappers
  import opened Seqs
  import opened Values

  /** Name of the property through which a generic task exposes its produced value. */
  const ResultName := "Result"

  /**
    The properties of a value, in enumeration order. A user object exposes its own
    list; a handle completed with a value exposes `Result`, declared `object` (the
    model treats every produced value as a `Task<object>` result); nothing else
    exposes properties.
  */
  function PropsOf(v: Value): seq<Prop> {
    match v
    case Ref(o) => o.props
    case Task(Completed(Some(x))) => [Prop(PropInfo(ResultName, ObjectTag, []), x)]
    case _ => []
  }

  ghost predicate HasProperty(v: Value, name: string) {
    exists i :: 0 <= i < |PropsOf(v)| && PropsOf(v)[i].info.name == name
  }

  /** Property names are unique within a type (well-formedness of the registry). */
  ghost predicate UniquePropertyNames(ps: seq<Prop>) {
    forall a, b :: 0 <= a < b < |ps| ==> ps[a].info.name != ps[b].info.name
  }

  function IsNamed(name: string): Prop -> bool {
    (p: Prop) => p.info.name == name
  }

  /** `Type.GetProperty(name)`: the position of the property with that name. */
  function FindProperty(v: Value, name: string): (r: Option<nat>)
    ensures r.Some? ==> r.value < |PropsOf(v)| && PropsOf(v)[r.value].info.name == name
    ensures r.None? <==> !HasProperty(v, name)
    ensures UniquePropertyNames(PropsOf(v)) ==>
              forall i :: 0 <= i < |PropsOf(v)| && PropsOf(v)[i].info.name == name ==> r == Some(i)
  {
    FirstIndex(PropsOf(v), IsNamed(name))
  }

  /** What a method call yields: the receiver's state afterwards and the returned value. */
  datatype Invocation = Invocation(receiver: Value, returned: Value)

  /** A method body; void methods return `Null`, a thrown exception is an `Err`. */
  type Body = (Value, seq<Value>) -> Result<Invocation>

  /** A method declaration: its name, the declared types of its parameters and its body. */
  datatype MethodDecl = MethodDecl(name: string, paramTypes: seq<Tag>, body: Body)

  /** The public methods declared on each runtime type. */
  type Registry = Tag -> seq<MethodDecl>

  ghost predicate HasMethod(reg: Registry, o: Value, name: string)
    requires !o.Null?
  {
    exists i :: 0 <= i < |reg(TypeOf(o))| && reg(TypeOf(o))[i].name == name
  }

  ghost predicate UniqueMethodNames(ms: seq<MethodDecl>) {
    forall a, b :: 0 <= a < b < |ms| ==> ms[a].name != ms[b].name
  }

  function HasName(name: string): MethodDecl -> bool {
    (m: MethodDecl) => m.name == name
  }

  /** `Type.GetMethod(name)`: the position of the method with that name. */
  function FindMethod(ms: seq<MethodDecl>, name: string): (r: Option<nat>)
    ensures r.Some? ==> r.value < |ms| && ms[r.value].name == name
    ensures r.None? <==> forall i :: 0 <= i < |ms| ==> ms[i].name != name
    ensures UniqueMethodNames(ms) ==>
              forall i :: 0 <= i < |ms| && ms[i].name == name ==> r == Some(i)
  {
    FirstIndex(ms, HasName(name))
  }

  /**
    Whether `MethodInfo.Invoke` accepts `a` for a parameter declared `t`: a null
    is accepted for every parameter, any other value when the cast to `t` succeeds.
  */
  predicate Accepts(t: Tag, a: Value) {
    a.Null? || Cast(a, t).Ok?
  }

  predicate ArgumentsFit(paramTypes: seq<Tag>, args: seq<Value>) {
    |paramTypes| == |args| && forall i :: 0 <= i < |args| ==> Accepts(paramTypes[i], args[i])
  }

  /** What the body receives for `a`: a null for a value-type parameter becomes its zero value. */
  function PassedAs(t: Tag, a: Value): (r: Value)
    ensures !a.Null? ==> r == a
    ensures a.Null? && !IsValueType(t) ==> r.Null?
    ensures a.Null? && IsValueType(t) ==> !r.Null? && TypeOf(r) == t
    ensures a.Null? && t == IntTag ==> r == Int(0)
    ensures a.Null? && t == BoolTag ==> r == Bool(false)
  {
    if a.Null? && t == IntTag then Int(0)
    else if a.Null? && t == BoolTag then Bool(false)
    else a
  }

  function Passed(paramTypes: seq<Tag>, args: seq<Value>): (r: seq<Value>)
    requires |paramTypes| == |args|
    ensures |r| == |args| && forall i :: 0 <= i < |args| ==> r[i] == PassedAs(paramTypes[i], args[i])
  {
    seq(|args|, i requires 0 <= i < |args| => PassedAs(paramTypes[i], args[i]))
  }

  function Rejects(pair: (Tag, Value)): bool {
    !Accepts(pair.0, pair.1)
  }

  /** The position of the first argument the parameter types reject. */
  function FirstRejected(paramTypes: seq<Tag>, args: seq<Value>): (r: Option<nat>)
    requires |paramTypes| == |args|
    ensures r.Some? ==> r.value < |args| && !Accepts(paramTypes[r.value], args[r.value])
    ensures r.Some? ==> forall j :: 0 <= j < r.value ==> Accepts(paramTypes[j], args[j])
    ensures r.None? <==> ArgumentsFit(paramTypes, args)
  {
    var pairs := seq(|args|, i requires 0 <= i < |args| => (paramTypes[i], args[i]));
    assert forall j :: 0 <= j < |args| ==> (Rejects(pairs[j]) <==> !Accepts(paramTypes[j], args[j]));
    FirstIndex(pairs, Rejects)
  }

  /**
    `MethodInfo.Invoke`: a wrong argument count, then an argument of the wrong type,
    is rejected before the body runs; the body receives the arguments with nulls
    for value-type parameters replaced by zero values, and an exception it throws
    reaches the caller wrapped in a TargetInvocationException.
  */
  function Invoke(m: MethodDecl, target: Value, args: seq<Value>): (r: Result<Invocation>)
    ensures |args| != |m.paramTypes| ==> r == Err(ParameterCount)
    ensures |args| == |m.paramTypes| ==> (r.Err? && r.error.ArgumentConversion? <==> !ArgumentsFit(m.paramTypes, args))
    ensures r.Err? && r.error.ArgumentConversion? ==>
              exists i :: 0 <= i < |args| && !Accepts(m.paramTypes[i], args[i])
                && (forall j :: 0 <= j < i ==> Accepts(m.paramTypes[j], args[j]))
                && r.error == ArgumentConversion(TypeOf(args[i]), m.paramTypes[i])
    ensures ArgumentsFit(m.paramTypes, args) && m.body(target, Passed(m.paramTypes, args)).Ok? ==>
              r == m.body(target, Passed(m.paramTypes, args))
    ensures ArgumentsFit(m.paramTypes, args) && m.body(target, Passed(m.paramTypes, args)).Err? ==>
              r == Err(TargetInvocation(m.body(target, Passed(m.paramTypes, args)).error))
    ensures r.Err? ==> r.error == ParameterCount || r.error.ArgumentConversion? || r.error.TargetInvocation?
  {
    if |args| != |m.paramTypes| then Err(ParameterCount)
    else
      match FirstRejected(m.paramTypes, args)
      case Some(i) => Err(ArgumentConversion(TypeOf(args[i]), m.paramTypes[i]))
      case None =>
        match m.body(target, Passed(m.paramTypes, args))
        case Ok(inv) => Ok(inv)
        case Err(e) => Err(TargetInvocation(e))
  }
}
