/**
  `AsyncReflection`: invoking methods that return a task and reading a task's
  `Result`. Every handle is already in a terminal state, so awaiting one either
  continues (completed) or rethrows its fault.
*/
module AsyncReflection {
  import opened Wrappers
  import opened Values
  import opened Members
  import opened PropertyAccessors
  import opened MethodAccessors

  /** A handle that completed with a produced value. */
  predicate Produced(h: TaskHandle) {
    h.Completed? && h.result.Some?
  }

  /**
    `GetTaskResult(task)`: reads the `Result` property of the handle, so a null
    handle is an ArgumentNull and a handle without a produced value is an argument error.
  */
  function GetTaskResult(task: Value): (r: Result<Value>)
    requires task.Null? || task.Task?
    ensures task.Null? ==> r == Err(ArgumentNull("containingObject"))
    ensures task.Task? && Produced(task.handle) ==> r == Ok(task.handle.result.value)
    ensures task.Task? && !Produced(task.handle) ==> r == Err(ArgumentInvalid(Some(ResultName), Some(TaskTag)))
  {
    GetPropertyValue(task, Some(ResultName))
  }

  /**
    `GetTaskResult<T>(task)`: the untyped read followed by `(T)`; a cast failure is
    rethrown naming `T` and wrapping the original, every other error passes through.
  */
  function GetTaskResultTyped(task: Value, t: Tag): (r: Result<Value>)
    requires task.Null? || task.Task?
    ensures GetTaskResult(task).Err? ==> r == GetTaskResult(task)
    ensures task.Task? && Produced(task.handle) && Cast(task.handle.result.value, t).Ok? ==>
              r == Ok(task.handle.result.value)
    ensures task.Task? && Produced(task.handle) && Cast(task.handle.result.value, t).Err? ==>
              r == Err(Recast(Cast(task.handle.result.value, t).error, TaskResultNotOf(t)))
    ensures r.Ok? ==> Cast(r.value, t).Ok?
  {
    var v :- GetTaskResult(task);
    match Cast(v, t)
    case Ok(_) => Ok(v)
    case Err(e) => Err(Recast(e, TaskResultNotOf(t)))
  }

  /**
    The typed read raises InvalidCast exactly when the task produced a non-null
    value of another type, with a target other than `object`.
  */
  lemma TaskResultTypedInvalidCastIff(task: Value, t: Tag)
    requires task.Null? || task.Task?
    ensures var r := GetTaskResultTyped(task, t);
            (r.Err? && r.error.InvalidCast?) <==>
              (task.Task? && Produced(task.handle) && !task.handle.result.value.Null?
                && t != ObjectTag && TypeOf(task.handle.result.value) != t)
  {
  }

  /** `await task`: a null handle throws NullReference, a faulted one rethrows its fault. */
  function Await(task: Value): (r: Result<TaskHandle>)
    requires task.Null? || task.Task?
    ensures r.Ok? <==> task.Task? && task.handle.Completed?
    ensures r.Ok? ==> r.value == task.handle
    ensures task.Null? ==> r == Err(NullReference)
    ensures task.Task? && task.handle.Faulted? ==> r == Err(task.handle.fault)
  {
    if task.Null? then Err(NullReference)
    else
      match task.handle
      case Completed(_) => Ok(task.handle)
      case Faulted(e) => Err(e)
  }

  /**
    `InvokeActionMethodAsync(o, name, args)`: invokes the method, casts its return
    to a task and awaits it; no value is produced.
  */
  function InvokeActionMethodAsync(reg: Registry, o: Value, name: Option<string>, args: Option<seq<Value>>): (r: Result<Value>)
    ensures o.Null? ==> r == Err(ArgumentNull("containingObject"))
    ensures !o.Null? && name.None? ==> r == Err(ArgumentInvalid(None, None))
    ensures !o.Null? && name.Some? && !HasMethod(reg, o, name.value) ==>
              r == Err(ArgumentInvalid(name, Some(TypeOf(o))))
    ensures var u := InvokeFuncMethod(reg, o, name, args);
            u.Err? ==> r == Err(u.error)
    ensures var u := InvokeFuncMethod(reg, o, name, args);
            u.Ok? ==> match u.value.returned
              case Null => r == Err(NullReference)
              case Task(Faulted(e)) => r == Err(e)
              case Task(Completed(_)) => r == Ok(u.value.receiver)
              case _ =>
                r == Err(InvalidCast(MethodReturnNotOf(name.value, TypeOf(o), TaskTag),
                                     Some(Cast(u.value.returned, TaskTag).error)))
  {
    var inv :- InvokeFuncMethodTyped(reg, o, name, args, TaskTag);
    var _ :- Await(inv.returned);
    Ok(inv.receiver)
  }

  /**
    `InvokeFuncMethodAsync(o, name, args)`: as the action variant, then reads the
    completed task's `Result`.
  */
  function InvokeFuncMethodAsync(reg: Registry, o: Value, name: Option<string>, args: Option<seq<Value>>): (r: Result<Invocation>)
    ensures o.Null? ==> r == Err(ArgumentNull("containingObject"))
    ensures !o.Null? && name.None? ==> r == Err(ArgumentInvalid(None, None))
    ensures !o.Null? && name.Some? && !HasMethod(reg, o, name.value) ==>
              r == Err(ArgumentInvalid(name, Some(TypeOf(o))))
    ensures var u := InvokeFuncMethod(reg, o, name, args);
            u.Err? ==> r == Err(u.error)
    ensures var u := InvokeFuncMethod(reg, o, name, args);
            u.Ok? ==> match u.value.returned
              case Null => r == Err(NullReference)
              case Task(Faulted(e)) => r == Err(e)
              case Task(Completed(Some(v))) => r == Ok(Invocation(u.value.receiver, v))
              case Task(Completed(None)) => r == Err(ArgumentInvalid(Some(ResultName), Some(TaskTag)))
              case _ =>
                r == Err(InvalidCast(MethodReturnNotOf(name.value, TypeOf(o), TaskTag),
                                     Some(Cast(u.value.returned, TaskTag).error)))
  {
    var inv :- InvokeFuncMethodTyped(reg, o, name, args, TaskTag);
    var _ :- Await(inv.returned);
    var v :- GetTaskResult(inv.returned);
    Ok(Invocation(inv.receiver, v))
  }

  /** A value produced by the asynchronous invocation is what `GetTaskResult` reads from the returned handle. */
  lemma AsyncResultIsTaskResult(reg: Registry, o: Value, name: Option<string>, args: Option<seq<Value>>)
    ensures var r := InvokeFuncMethodAsync(reg, o, name, args);
            var u := InvokeFuncMethod(reg, o, name, args);
            r.Ok? ==> && u.Ok? && u.value.returned.Task?
                      && u.value.receiver == r.value.receiver
                      && GetTaskResult(u.value.returned) == Ok(r.value.returned)
  {
  }

  /**
    The value-returning variant succeeds only where the action variant does, with
    the same receiver; the action variant also accepts a task that produced nothing.
  */
  lemma AsyncFuncRefinesAction(reg: Registry, o: Value, name: Option<string>, args: Option<seq<Value>>)
    ensures var f := InvokeFuncMethodAsync(reg, o, name, args);
            var a := InvokeActionMethodAsync(reg, o, name, args);
            && (f.Ok? ==> a == Ok(f.value.receiver))
            && (a.Err? ==> f == Err(a.error))
  {
  }

  /**
    `InvokeFuncMethodAsync<T>(o, name, args)`: the untyped asynchronous invocation
    followed by `(T)`; any InvalidCast, from the cast or from inside, is rethrown
    with an empty message wrapping the original.
  */
  function InvokeFuncMethodAsyncTyped(reg: Registry, o: Value, name: Option<string>, args: Option<seq<Value>>, t: Tag): (r: Result<Invocation>)
    ensures var a := InvokeFuncMethodAsync(reg, o, name, args);
            a.Err? ==> r == Err(Recast(a.error, EmptyMessage))
    ensures var a := InvokeFuncMethodAsync(reg, o, name, args);
            a.Ok? && Cast(a.value.returned, t).Ok? ==> r == a
    ensures var a := InvokeFuncMethodAsync(reg, o, name, args);
            a.Ok? && Cast(a.value.returned, t).Err? ==> r == Err(Recast(Cast(a.value.returned, t).error, EmptyMessage))
    ensures r.Ok? ==> Cast(r.value.returned, t).Ok?
  {
    match InvokeFuncMethodAsync(reg, o, name, args)
    case Err(e) => Err(Recast(e, EmptyMessage))
    case Ok(inv) =>
      match Cast(inv.returned, t)
      case Ok(_) => Ok(inv)
      case Err(e) => Err(Recast(e, EmptyMessage))
  }

  /**
    The typed variant raises InvalidCast exactly when the untyped one did (a
    returned value that is not a task) or when the produced value is a non-null
    value of another type, with a target other than `object`.
  */
  lemma AsyncTypedInvalidCastIff(reg: Registry, o: Value, name: Option<string>, args: Option<seq<Value>>, t: Tag)
    ensures var r := InvokeFuncMethodAsyncTyped(reg, o, name, args, t);
            var a := InvokeFuncMethodAsync(reg, o, name, args);
            (r.Err? && r.error.InvalidCast?) <==>
              (a.Err? && a.error.InvalidCast?)
              || (a.Ok? && !a.value.returned.Null? && t != ObjectTag && TypeOf(a.value.returned) != t)
  {
  }
}
