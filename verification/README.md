# QuickReflect, modelled in Dafny

QuickReflect is a small C# library of reflection shortcuts:

- reading one property of an object by name;
- reading every non-null property together with its value;
- writing one value into every property whose declared type is the value's runtime type;
- pairing properties with their values or with their custom attributes of one kind;
- invoking a method by name, untyped, void or with a typed result;
- doing the same for methods that return a task, and reading a task's `Result`.

This project models that layer as pure functions over immutable data and proves what each operation returns, including the errors the library raises and the .NET errors it lets through, except those listed under "## Left out".

The platform reflection the library calls is replaced by an explicit registry:

- `Values`: runtime values (`Null`, strings, ints, bools, objects of user classes, task handles) and their type tags. It also holds the exception kinds and the C# cast `(T) v`.
- `Members`: the properties a value exposes (`GetProperties`), first-match name lookup (`GetProperty`, `GetMethod`) and `MethodInfo.Invoke`.
  - Methods live in a registry from runtime type to method declarations.
  - A method body is an abstract function from receiver and arguments to either the receiver's new state plus a returned value, or an error.
- `Seqs`: first-match search and order-preserving filter-then-map. The latter has an independent reference definition: an increasing list of selected positions. The two are proved to agree in both directions.
- `PropertyValuePairs`, `PropertyAttributesPairs`, `PropertyAccessors`, `MethodAccessors` and `AsyncReflection` follow the library's files of the same names.
- `Scenarios` restates the library's unit tests over the model.

A task handle is always terminal: either completed, possibly with a produced value, or faulted with an error. A completed handle that produced a value exposes one property, `Result`, declared `object`.

Two behaviours of the platform that the library's doc comments do not mention:

- `MethodInfo.Invoke` wraps an exception thrown by the invoked method's body in a TargetInvocationException. The library does not catch it, so every invoker reports it as `TargetInvocation(cause)`. Before the body runs, `MethodInfo.Invoke` also rejects a wrong argument count (`ParameterCount`) and an argument that does not convert to its parameter's declared type (`ArgumentConversion`), neither of them wrapped. A null argument for a value-type parameter reaches the body as that type's zero value.
- The doc comment of `InvokeFuncMethod<TReturnValue>` (QuickReflect/QuickReflect/MethodAccessors.cs:63) promises an InvalidCastException when the method does not return a value of the given type. That holds for a non-null value of another type. A null result cast to a value type (`InvokeFuncMethod<int>` on a void method) raises NullReferenceException instead, which the typed wrapper does not catch, and the model reports `NullReference`.

## Model

| member | source | states |
|---|---|---|
| Values.Cast | QuickReflect/QuickReflect/MethodAccessors.cs:68 | A cast succeeds exactly when the target is `object` or the runtime type, or when the value is null and the target is a reference type. A success returns the value unchanged. A failure is an InvalidCast with no inner exception, or a NullReference for a null cast to a value type. |
| Values.Recast | QuickReflect/QuickReflect/MethodAccessors.cs:70-73 | The catch-and-rethrow keeps the error kind. An InvalidCast becomes a new InvalidCast with the given message that wraps the original. Every other error is returned unchanged. |
| Members.FindProperty | QuickReflect/QuickReflect/PropertyAccessors.cs:28-29 | The lookup finds a position exactly when some property has the name, and that position's property has the name. With unique names it is the only such position. |
| Members.FindMethod | QuickReflect/QuickReflect/MethodAccessors.cs:43-44 | Method lookup by name: found exactly when some method has the name, and it is the only such method when names are unique. |
| Members.Invoke | QuickReflect/QuickReflect/MethodAccessors.cs:50 | A wrong argument count is a parameter-count error. With the right count, an argument conversion error occurs exactly when some argument does not convert to its parameter's type, and it names the first such argument's type and its parameter's type. When every argument converts, the body runs on the passed arguments: its success is the result, and its error comes back as TargetInvocation wrapping exactly that error. |
| Members.PassedAs | QuickReflect/QuickReflect/MethodAccessors.cs:50 | A non-null argument reaches the body unchanged. A null reaches a reference-type parameter as null, and a value-type parameter as that type's zero value: `0` for `int`, `false` for `bool`. |
| Members.FirstRejected | QuickReflect/QuickReflect/MethodAccessors.cs:50 | The position found is an argument its parameter type rejects, with every earlier argument accepted. None is found exactly when every argument fits. |
| Seqs.FilterMap | QuickReflect/QuickReflect/PropertyAccessors.cs:75-79 | The result is never longer than the input. Every output is the image of a kept input, and every kept input's image is in the output. Nothing kept gives `[]`; everything kept gives the pointwise image. |
| Seqs.FilterMapSelects | QuickReflect/QuickReflect/PropertyAccessors.cs:75-79 | The filter-then-map output is the image of an increasing list that holds exactly the kept positions, in order. |
| Seqs.SelectedImageIsFilterMap | QuickReflect/QuickReflect/Models/PropertyAttributePair.cs:38-42 | Conversely, any list satisfying that reference definition equals the filter-then-map output, so the reference definition fixes the output uniquely. |
| Seqs.FilterMapOfSelection | QuickReflect/QuickReflect/PropertyAccessors.cs:77-78 | Given the selected positions, the output has one element per position, and element k is the image of the k-th selected input. |
| PropertyValuePairs.CreateFromObjectsProperty | QuickReflect/QuickReflect/Models/PropertyValuePair.cs:37-40 | The read succeeds exactly when the object is non-null and declares the property; otherwise it is a target error. The pair stores the given property unchanged, together with the value of that property's slot on the object. |
| PropertyValuePairs.CreateFromOwnProperty | QuickReflect/QuickReflect/Models/PropertyValuePair.cs:37-40 | On an object with unique property names, the pair built for any of its properties is that property with its current value, null values included. |
| PropertyAttributesPairs.AttributesOfKind | QuickReflect/QuickReflect/Models/PropertyAttributePair.cs:39 | The attributes kept are exactly those of the requested kind, and a property with none of that kind yields `[]`. |
| PropertyAttributesPairs.AttributesOfKindExact | QuickReflect/QuickReflect/Models/PropertyAttributePair.cs:39 | The kept attributes are the requested-kind attributes in declaration order, repeats kept. |
| PropertyAttributesPairs.CreateFromObjectsProperty | QuickReflect/QuickReflect/Models/PropertyAttributePair.cs:35-42 | A null object fails with NullReference, because there is no guard. Every pair has a non-empty list of requested-kind attributes and is built from one of the object's properties. Every property carrying such an attribute is reported. |
| PropertyAttributesPairs.AttributePairsExact | QuickReflect/QuickReflect/Models/PropertyAttributePair.cs:38-42 | The pairs are exactly the properties carrying a requested-kind attribute, in property order, each with exactly its requested-kind attributes. |
| PropertyAttributesPairs.NoAttributesNoPairs | QuickReflect/QuickReflect/Models/PropertyAttributePair.cs:40-41 | A type with no attribute of the requested kind yields `[]`. |
| PropertyAccessors.GetPropertyValue | QuickReflect/QuickReflect/PropertyAccessors.cs:21-36 | A null object is rejected first, with ArgumentNull. A null name, or a name with no property on the runtime type, is an argument error carrying that name and type. It succeeds exactly when the property exists, returning a value held by a property of that name. |
| PropertyAccessors.GetPropertyValueOfSlot | QuickReflect/QuickReflect/PropertyAccessors.cs:29-35 | With unique names, reading a property by name gives exactly its current value, null included. |
| PropertyAccessors.AssignByType | QuickReflect/QuickReflect/PropertyAccessors.cs:55-60 | The per-property assignments establish the bulk-write relation, checked independently property by property. |
| PropertyAccessors.SetPropertiesByValueType | QuickReflect/QuickReflect/PropertyAccessors.cs:44-61 | A null object is rejected first, then a null value. Otherwise the object keeps its runtime type. Every property declared with exactly the value's runtime type holds the value, even if it held a non-null value before. All other properties, and all names, types and order, are unchanged. |
| PropertyAccessors.AssignedByTypeUnique | QuickReflect/QuickReflect/PropertyAccessors.cs:55-60 | The bulk-write relation determines the resulting property list uniquely. |
| PropertyAccessors.SetIdempotent | QuickReflect/QuickReflect/PropertyAccessors.cs:55-60 | Writing the same value twice leaves the object as writing it once. |
| PropertyAccessors.SetNoMatchUnchanged | QuickReflect/QuickReflect/PropertyAccessors.cs:59 | When no property is declared with the value's type, the object is returned unchanged. |
| PropertyAccessors.GetAfterSet | QuickReflect/QuickReflect/PropertyAccessors.cs:55-60 | After the bulk write, reading a property by name gives the written value if its declared type matched, and its earlier value if not. |
| PropertyAccessors.GetNonNullPropertiesAndValues | QuickReflect/QuickReflect/PropertyAccessors.cs:68-80 | A null object fails with ArgumentNull. Every reported pair is a non-null property slot of the object, and every non-null slot is reported. An all-null object yields `[]`. |
| PropertyAccessors.NonNullPairsExact | QuickReflect/QuickReflect/PropertyAccessors.cs:75-79 | The pairs are exactly the non-null properties, in property order, each with its value. |
| PropertyAccessors.NonNullPairsAreCreated | QuickReflect/QuickReflect/PropertyAccessors.cs:78 | Each reported pair is what PropertyValuePair.CreateFromObjectsProperty builds for its property. |
| MethodAccessors.InvokeFuncMethod | QuickReflect/QuickReflect/MethodAccessors.cs:33-51 | The checks run in this order: null object (ArgumentNull), null name (argument error), name not declared on the runtime type (argument error carrying name and type). A success, a parameter-count error, an argument conversion error or a body exception always comes from invoking a method of that name with the arguments, a null argument list counting as none. The untyped call never raises InvalidCast. |
| MethodAccessors.InvokeDeclaredMethod | QuickReflect/QuickReflect/MethodAccessors.cs:43-50 | With unique method names, invoking a declared method by its name runs exactly that method's invocation. |
| MethodAccessors.InvokeActionMethod | QuickReflect/QuickReflect/MethodAccessors.cs:19-22 | It raises the same lookup errors. It succeeds exactly when the untyped call does, with the same receiver state, and its errors are the untyped call's errors. |
| MethodAccessors.InvokeFuncMethodTyped | QuickReflect/QuickReflect/MethodAccessors.cs:64-74 | Errors of the untyped call pass through unchanged. A result whose cast succeeds is returned unchanged. A failed cast is rethrown with the method name, the object's type and the target type, wrapping the cast error. A success always casts. |
| MethodAccessors.TypedInvalidCastIffMismatch | QuickReflect/QuickReflect/MethodAccessors.cs:64-74 | The typed call raises InvalidCast exactly when the method returned a non-null value of another type, with a target other than `object`. |
| AsyncReflection.GetTaskResult | QuickReflect/QuickReflect/AsyncReflection.cs:75-78 | A null handle fails with ArgumentNull. A handle that produced a value yields that value. Any other handle, faulted or void, is an argument error naming `Result` and the task type. |
| AsyncReflection.GetTaskResultTyped | QuickReflect/QuickReflect/AsyncReflection.cs:89-99 | Errors of the untyped read pass through. A produced value that casts is returned. A failed cast is rethrown naming the target type, wrapping the cast error. A success always casts. |
| AsyncReflection.TaskResultTypedInvalidCastIff | QuickReflect/QuickReflect/AsyncReflection.cs:89-99 | The typed read raises InvalidCast exactly when the task produced a non-null value of another type and the target is not `object`. |
| AsyncReflection.Await | QuickReflect/QuickReflect/AsyncReflection.cs:39 | Awaiting continues exactly on a completed handle. A null handle throws NullReference, and a faulted handle rethrows its fault. |
| AsyncReflection.InvokeActionMethodAsync | QuickReflect/QuickReflect/AsyncReflection.cs:21-24 | It raises the lookup errors of the untyped call, and the untyped call's errors otherwise. On a returned value: null gives NullReference; a faulted task gives its fault; a completed task gives success with the receiver; anything else is an InvalidCast naming the method, the type and Task. |
| AsyncReflection.InvokeFuncMethodAsync | QuickReflect/QuickReflect/AsyncReflection.cs:36-42 | The same errors as the action variant. A task completed with a value yields that value. A void task is the `Result` argument error. |
| AsyncReflection.AsyncResultIsTaskResult | QuickReflect/QuickReflect/AsyncReflection.cs:38-41 | A produced value is exactly what GetTaskResult reads from the task the method returned, with the receiver state of the invocation. |
| AsyncReflection.AsyncFuncRefinesAction | QuickReflect/QuickReflect/AsyncReflection.cs:21-42 | Whenever the value-returning variant succeeds, the action variant succeeds with the same receiver. Whenever the action variant fails, the value-returning one fails with the same error. |
| AsyncReflection.InvokeFuncMethodAsyncTyped | QuickReflect/QuickReflect/AsyncReflection.cs:55-65 | Every InvalidCast, from inside or from the final cast, is rethrown with an empty message wrapping the original. Other errors pass through. A result that casts is returned unchanged. |
| AsyncReflection.AsyncTypedInvalidCastIff | QuickReflect/QuickReflect/AsyncReflection.cs:55-65 | The typed call raises InvalidCast exactly when the untyped call raised one, or when the produced value is non-null, of another type, and the target is not `object`. |
| Scenarios.GetPropertyValueNull | QuickReflect/QuickReflect_Tests/PropertyAccessorsTests.cs:11-25 | A null object gives ArgumentNull; a null name gives an argument error. |
| Scenarios.GetPropertyValueMissing | QuickReflect/QuickReflect_Tests/PropertyAccessorsTests.cs:18-25 | `invalidProperty` gives an argument error naming it and the test class. |
| Scenarios.GetPropertyValueFound | QuickReflect/QuickReflect_Tests/PropertyAccessorsTests.cs:27-39 | `stringProperty1` reads null, `stringProperty3` reads "def" and `intProperty2` reads 2. |
| Scenarios.NonNullScenarios | QuickReflect/QuickReflect_Tests/PropertyAccessorsTests.cs:41-53 | A null object gives ArgumentNull; a class with only null properties gives `[]`. |
| Scenarios.NonNullPlain | QuickReflect/QuickReflect_Tests/PropertyAccessorsTests.cs:55-68 | The test class yields its five non-null properties, in order, with their values. |
| Scenarios.SetScenarios | QuickReflect/QuickReflect_Tests/PropertyAccessorsTests.cs:70-94 | A null object fails with ArgumentNull for either value. Writing a bool into a class without bool properties changes nothing. |
| Scenarios.SetReplacesStrings | QuickReflect/QuickReflect_Tests/PropertyAccessorsTests.cs:96-107 | Writing "ghi" replaces all three string properties, the null one included, and leaves the ints. |
| Scenarios.AttributesNone | QuickReflect/QuickReflect_Tests/PropertyAccessorsTests.cs:115-121 | A class without attributes gives no pairs. |
| Scenarios.PairsWhenAllOfKind | QuickReflect/QuickReflect/Models/PropertyAttributePair.cs:38-42 | When every attribute has the requested kind, the pairs are the properties that have any attribute, in order, each with its whole attribute list. |
| Scenarios.AttributesSingle | QuickReflect/QuickReflect_Tests/PropertyAccessorsTests.cs:123-130 | The pairs are `stringProperty1` with `[Test(1)]`, then `intProperty1` with `[Test(2)]`. |
| Scenarios.AttributesMultiple | QuickReflect/QuickReflect_Tests/PropertyAccessorsTests.cs:132-140 | The pairs are `stringProperty1` with `[1, 2]`, `intProperty1` with `[3]` and `intProperty3` with `[4, 5, 6]`. |
| Scenarios.InvokeErrors | QuickReflect/QuickReflect_Tests/MethodAccessorsTests.cs:9-84 | A null object gives ArgumentNull and a null name gives an argument error, for the void, untyped and typed calls. |
| Scenarios.InvokeMissing | QuickReflect/QuickReflect_Tests/MethodAccessorsTests.cs:15-22 | `invalidMethodName` gives an argument error naming it and the test class, for the void and typed calls. |
| Scenarios.IncreaseCallsScenario | QuickReflect/QuickReflect_Tests/MethodAccessorsTests.cs:24-30 | `IncreaseCalls` raises the call counter from 0 to 1. |
| Scenarios.IncreaseByIncrementScenario | QuickReflect/QuickReflect_Tests/MethodAccessorsTests.cs:32-38 | `IncreaseCallsByIncrement(3)` raises the call counter from 0 to 3. |
| Scenarios.Return42Scenario | QuickReflect/QuickReflect_Tests/MethodAccessorsTests.cs:55-99 | `Return42` gives 42, untyped and as `int`. As `string` it gives the contextual InvalidCast wrapping the cast from int to string. |
| Scenarios.Return42TimesFactorScenario | QuickReflect/QuickReflect_Tests/MethodAccessorsTests.cs:63-107 | `Return42TimesFactor(3)` gives 126, untyped and as `int`. |
| Scenarios.Return42TimesFactorArguments | QuickReflect/QuickReflect_Tests/MethodAccessorsTests.cs:128-131 | For the `int` parameter of `Return42TimesFactor`, a string is rejected unwrapped as a string-to-int conversion error. A null arrives as 0 and gives 0. No arguments at all is a parameter-count error. |

The constructors of `PropertyValuePair` and `PropertyAttributesPair` (QuickReflect/QuickReflect/Models/PropertyValuePair.cs:25-29 and QuickReflect/QuickReflect/Models/PropertyAttributePair.cs:24-28) are the datatype constructors of the same names. They store their arguments unchanged by construction.

## Left out

- .NET reflection itself (`GetType`, `GetProperties`, `GetProperty`, `GetMethod`, `GetCustomAttributes`, `MethodInfo.Invoke`, `PropertyInfo.GetValue/SetValue`): replaced by the registry.
  - Property and method names are assumed unique within a type where a lemma needs it. `GetMethod`'s AmbiguousMatchException on overloads is not modelled.
  - Enumeration order is the order of the model's sequences.
  - The registry may declare methods on any runtime type, strings, ints, bools and tasks included.
  - Strings, ints and bools expose no properties, so the bulk passes see none on them. A task exposes only `Result`, and only when it produced a value. The read-only `Id`, `Status`, `IsCompleted`, `IsFaulted`, `Exception` and the rest are absent. So reading one of them by name is an argument error in the model, the non-null listing of a task omits them, and a bulk write of a bool into a task returns it unchanged, where .NET fails on the missing setters.
- `Parallel.ForEach` in `SetPropertiesByValueType` is modelled as a sequential pass. Each assignment targets a distinct property, so the order does not matter. Property setters with side effects are not modelled.
- `await` and task scheduling: there is no suspension, pending state or cancellation. A handle is already completed or faulted.
- Method bodies are abstract functions. Their side effects beyond the receiver's new state are not modelled.
- A body that throws does not return the receiver's state at the moment of the throw. State changes made before a failed cast in the typed wrappers are not carried in the error either.
- Members.Invoke: only the default binder's exact-type and null rules are modelled. Numeric widening, user-defined or subclass conversions, optional parameters, `params` arrays and by-reference parameters are not.
- PropertyAccessors.SetPropertiesByValueType: no model value has runtime type `object`, so a plain `new object()` written into properties declared `object` is not modelled. All task types share one tag, so a `Task<T>` value matches every property declared with a task type, where .NET matches `Task` and each `Task<T>` separately.
- Values.Cast: does not model boxing, numeric conversions, user-defined conversions or subclassing. A cast succeeds on exact type equality, on `object`, or on a null to a reference type.
- Exception messages are not modelled as text. Each error carries the fields its message names: parameter name, member name, type tag, target type and inner exception. `AssemblyQualifiedName` is replaced by the type tag.
- A null property or method name is reported as an argument error without distinguishing `GetProperty(null)`'s ArgumentNullException subtype.
- AsyncReflection.GetTaskResult: requires its argument to be null or a task, because the parameter is declared `Task`. A `Task<T>` exposes `Result` for every state in .NET, and reading it on a faulted task throws. The model exposes `Result` only on a task that produced a value, so a faulted or void task gives the argument error. A task returned by an `async Task` method is a `Task<VoidTaskResult>` at run time in .NET, so reading its `Result` gives a boxed `VoidTaskResult`, where the model gives the argument error.
- Integer width is unbounded: `Return42TimesFactor` and the call counter do not wrap at 32 bits.
- Read-only and write-only properties are not distinguished: every property can be read and written.
- Indexed properties and property accessors that throw are not modelled: every property is a plain slot. `GetProperties` also returns indexers (`Item` on a class with `this[...]`). Reading or writing one without an index throws TargetParameterCountException, so in .NET the non-null listing fails on any object with an indexer. The bulk write fails when an indexer's type matches, wrapped in an AggregateException by `Parallel.ForEach`. A getter that throws reaches `GetPropertyValue` and the non-null listing as TargetInvocationException, and a throwing setter reaches the bulk write the same way inside an AggregateException. In the model these reads and writes always succeed on a non-null object.
- Attributes inherited from base-class members, and attributes on anything other than properties, are not modelled.
- PropertyAttributesPairs.AttributesOfKind: matches the attribute kind exactly. `GetCustomAttributes<TAttribute>` also returns attributes whose class derives from `TAttribute`; attribute class hierarchies are not modelled.
- PropertyValuePairs.CreateFromObjectsProperty: a property's metadata is never null in the model. In C# a null `PropertyInfo` can be passed, and `propertyInfo.GetValue` then throws NullReferenceException. Property identity is structural: the model carries no declaring type, so a property of another class whose name, declared type and attributes are equal is read from the object's slot of that name, where .NET's `GetValue` throws TargetException because the object is not an instance of the declaring type.
- Objects are values: a `Ref` holds its object's state, not an identity. Aliasing, reference cycles and in-place mutation seen through other references are not modelled. Writing an object into one of its own properties stores a snapshot of the object before the write, where .NET creates a cycle. A method that changes its receiver changes only the receiver the model returns, not other objects that reference it.
