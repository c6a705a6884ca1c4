/**
  Runtime values, their type tags and the errors the library raises.

  A C# `object` is either `Null` or a tagged value; its runtime type (`GetType()`)
  is derived from the tag. Objects of user classes carry an ordered list of
  properties; each property pairs its metadata (the `PropertyInfo`) with the
  current value on that instance.
*/
module Values {
  import opened Wrappers

  /** Runtime and declared types. `ObjectTag` is the declared type `object`, never a runtime type. */
  datatype Tag = StringTag | IntTag | BoolTag | TaskTag | ObjectTag | ClassTag(className: string)

  /** Types whose casts unbox: a null cannot be converted to them. */
  predicate IsValueType(t: Tag) {
    t == IntTag || t == BoolTag
  }

  /** A custom attribute attached to a property: its attribute class and an argument. */
  datatype Attr = Attr(kind: string, payload: int)

  /** Property metadata: name, declared type and the attributes in declaration order. */
  datatype PropInfo = PropInfo(name: string, declType: Tag, attrs: seq<Attr>)

  /** A property of one instance: its metadata and its current value. */
  datatype Prop = Prop(info: PropInfo, value: Value)

  datatype Obj = Obj(className: string, props: seq<Prop>)

  /** An asynchronous handle that has already reached a terminal state. */
  datatype TaskHandle = Completed(result: Option<Value>) | Faulted(fault: Error)

  datatype Value =
    | Null
    | Str(s: string)
    | Int(i: int)
    | Bool(b: bool)
    | Ref(obj: Obj)
    | Task(handle: TaskHandle)

  /** What an InvalidCastException's message says. */
  datatype CastContext =
    | CastOf(from: Tag, to: Tag)
    | MethodReturnNotOf(methodName: string, objType: Tag, expected: Tag)
    | TaskResultNotOf(expected: Tag)
    | EmptyMessage

  /** Exception kinds, with the fields their messages carry. */
  datatype Error =
    | ArgumentNull(param: string)
    | ArgumentInvalid(member: Option<string>, onType: Option<Tag>)
    | InvalidCast(context: CastContext, inner: Option<Error>)
    | NullReference
    | TargetMismatch
    | ParameterCount
    | ArgumentConversion(from: Tag, to: Tag)
    | TargetInvocation(cause: Error)
    | Raised(exception: string)

  datatype Result<+T> = Ok(value: T) | Err(error: Error) {
    predicate IsFailure() {
      Err?
    }

    function PropagateFailure<U>(): Result<U>
      requires Err?
    {
      Err(error)
    }

    function Extract(): T
      requires Ok?
    {
      value
    }
  }

  /** The runtime type of a non-null value. */
  function TypeOf(v: Value): Tag
    requires !v.Null?
  {
    match v
    case Str(_) => StringTag
    case Int(_) => IntTag
    case Bool(_) => BoolTag
    case Ref(o) => ClassTag(o.className)
    case Task(_) => TaskTag
  }

  /**
    The C# cast `(T) v` for the modelled types: exact tag equality, except that
    every value converts to `object` and a null converts to any reference type.
  */
  function Cast(v: Value, t: Tag): (r: Result<Value>)
    ensures r.Ok? ==> r.value == v
    ensures !v.Null? ==> (r.Ok? <==> t == ObjectTag || TypeOf(v) == t)
    ensures v.Null? ==> (r.Ok? <==> !IsValueType(t))
    ensures r.Err? && r.error.InvalidCast? ==> !v.Null? && r.error.inner.None?
    ensures r.Err? ==> r.error.InvalidCast? || (v.Null? && r.error == NullReference)
  {
    if t == ObjectTag then Ok(v)
    else if v.Null? then (if IsValueType(t) then Err(NullReference) else Ok(Null))
    else if TypeOf(v) == t then Ok(v)
    else Err(InvalidCast(CastOf(TypeOf(v), t), None))
  }

  /**
    `catch (InvalidCastException e) { throw new InvalidCastException(message, e); }`:
    an InvalidCast is rethrown with a new message, wrapping the original; any
    other error passes through unchanged.
  */
  function Recast(e: Error, context: CastContext): (r: Error)
    ensures r.InvalidCast? <==> e.InvalidCast?
    ensures e.InvalidCast? ==> r.context == context && r.inner == Some(e)
    ensures !e.InvalidCast? ==> r == e
  {
    if e.InvalidCast? then InvalidCast(context, Some(e)) else e
  }
}
