/** `MethodAccessors`: invoking a method by name, untyped, void and typed. */
module MethodAccessors {
  import opened Wrappers
  import opened Values
  import opened Members

  /** A null argument array stands for no arguments. */
  function ArgumentsOf(args: Option<seq<Value>>): seq<Value> {
    match args
    case None => []
    case Some(a) => a
  }

  /**
    `InvokeFuncMethod(o, name, args)`: checks, in this order, a null object, a
    null name and a name with no method on the runtime type; otherwise the result
    of invoking the method found.
  */
  function InvokeFuncMethod(reg: Registry, o: Value, name: Option<string>, args: Option<seq<Value>>): (r: Result<Invocation>)
    ensures o.Null? ==> r == Err(ArgumentNull("containingObject"))
    ensures !o.Null? && name.None? ==> r == Err(ArgumentInvalid(None, None))
    ensures !o.Null? && name.Some? && !HasMethod(reg, o, name.value) ==>
              r == Err(ArgumentInvalid(name, Some(TypeOf(o))))
    ensures r.Ok? || r.error.ParameterCount? || r.error.ArgumentConversion? || r.error.TargetInvocation? ==>
              && !o.Null? && name.Some?
              && exists i :: 0 <= i < |reg(TypeOf(o))| && reg(TypeOf(o))[i].name == name.value
                               && Invoke(reg(TypeOf(o))[i], o, ArgumentsOf(args)) == r
    ensures r.Err? ==> !r.error.InvalidCast?
  {
    if o.Null? then Err(ArgumentNull("containingObject"))
    else if name.None? then Err(ArgumentInvalid(None, None))
    else
      var ms := reg(TypeOf(o));
      match FindMethod(ms, name.value)
      case None => Err(ArgumentInvalid(name, Some(TypeOf(o))))
      case Some(i) => Invoke(ms[i], o, ArgumentsOf(args))
  }

  /** With unique method names, invoking a declared method runs exactly that method. */
  lemma InvokeDeclaredMethod(reg: Registry, o: Value, i: nat, args: Option<seq<Value>>)
    requires !o.Null? && i < |reg(TypeOf(o))| && UniqueMethodNames(reg(TypeOf(o)))
    ensures InvokeFuncMethod(reg, o, Some(reg(TypeOf(o))[i].name), args)
              == Invoke(reg(TypeOf(o))[i], o, ArgumentsOf(args))
  {
  }

  /**
    `InvokeActionMethod(o, name, args)`: the same checks and the same effect on the
    receiver as `InvokeFuncMethod`; the returned value is discarded.
  */
  function InvokeActionMethod(reg: Registry, o: Value, name: Option<string>, args: Option<seq<Value>>): (r: Result<Value>)
    ensures o.Null? ==> r == Err(ArgumentNull("containingObject"))
    ensures !o.Null? && name.None? ==> r == Err(ArgumentInvalid(None, None))
    ensures !o.Null? && name.Some? && !HasMethod(reg, o, name.value) ==>
              r == Err(ArgumentInvalid(name, Some(TypeOf(o))))
    ensures var u := InvokeFuncMethod(reg, o, name, args);
            (r.Ok? <==> u.Ok?) && (r.Ok? ==> r.value == u.value.receiver) && (r.Err? ==> r.error == u.error)
  {
    var inv :- InvokeFuncMethod(reg, o, name, args);
    Ok(inv.receiver)
  }

  /**
    `InvokeFuncMethod<T>(o, name, args)`: the untyped invocation followed by the
    cast `(T)`. Only an InvalidCastException is caught, and it is rethrown with the
    method name, the object's type and `T`, wrapping the original.
  */
  function InvokeFuncMethodTyped(reg: Registry, o: Value, name: Option<string>, args: Option<seq<Value>>, t: Tag): (r: Result<Invocation>)
    ensures var u := InvokeFuncMethod(reg, o, name, args);
            u.Err? ==> r == u
    ensures var u := InvokeFuncMethod(reg, o, name, args);
            u.Ok? && Cast(u.value.returned, t).Ok? ==> r == u
    ensures var u := InvokeFuncMethod(reg, o, name, args);
            u.Ok? && Cast(u.value.returned, t).Err? ==>
              var e := Cast(u.value.returned, t).error;
              r == Err(Recast(e, MethodReturnNotOf(name.value, TypeOf(o), t)))
    ensures r.Ok? ==> Cast(r.value.returned, t).Ok?
  {
    match InvokeFuncMethod(reg, o, name, args)
    case Err(e) => Err(e)
    case Ok(inv) =>
      match Cast(inv.returned, t)
      case Ok(_) => Ok(inv)
      case Err(e) => Err(Recast(e, MethodReturnNotOf(name.value, TypeOf(o), t)))
  }

  /** The typed invocation raises InvalidCast exactly when the returned value is a non-null value of another type. */
  lemma TypedInvalidCastIffMismatch(reg: Registry, o: Value, name: Option<string>, args: Option<seq<Value>>, t: Tag)
    ensures var r := InvokeFuncMethodTyped(reg, o, name, args, t);
            var u := InvokeFuncMethod(reg, o, name, args);
            (r.Err? && r.error.InvalidCast?) <==>
              (u.Ok? && !u.value.returned.Null? && t != ObjectTag && TypeOf(u.value.returned) != t)
  {
  }
}
