/** The library's unit-test scenarios, stated over the model. */
module Scenarios {
  import opened Wrappers
  import opened Seqs
  import opened Values
  import opened Members
  import opened PropertyValuePairs
  import PropertyAttributesPairs
  import opened PropertyAccessors
  import opened MethodAccessors
  import opened AsyncReflection

  function StrProp(name: string, v: Value, attrs: seq<Attr>): Prop {
    Prop(PropInfo(name, StringTag, attrs), v)
  }

  function IntProp(name: string, v: Value, attrs: seq<Attr>): Prop {
    Prop(PropInfo(name, IntTag, attrs), v)
  }

  function Test(n: int): Attr {
    Attr("TestAttribute", n)
  }

  /** Three string properties (null, "abc", "def") and three int properties (1, 2, 3). */
  function Sample(a1: seq<Attr>, a2: seq<Attr>, a3: seq<Attr>, a4: seq<Attr>, a5: seq<Attr>, a6: seq<Attr>): seq<Prop> {
    [ StrProp("stringProperty1", Null, a1), StrProp("stringProperty2", Str("abc"), a2),
      StrProp("stringProperty3", Str("def"), a3), IntProp("intProperty1", Int(1), a4),
      IntProp("intProperty2", Int(2), a5), IntProp("intProperty3", Int(3), a6) ]
  }

  const Plain := Ref(Obj("PropertyAccessorsTestClass", Sample([], [], [], [], [], [])))

  lemma PlainUnique()
    ensures UniquePropertyNames(PropsOf(Plain))
  {
  }

  lemma GetPropertyValueNull()
    ensures GetPropertyValue(Null, Some("stringProperty1")) == Err(ArgumentNull("containingObject"))
    ensures GetPropertyValue(Plain, None).error.ArgumentInvalid?
  {
  }

  lemma GetPropertyValueMissing()
    ensures GetPropertyValue(Plain, Some("invalidProperty"))
              == Err(ArgumentInvalid(Some("invalidProperty"), Some(ClassTag("PropertyAccessorsTestClass"))))
  {
  }

  lemma GetPropertyValueFound()
    ensures GetPropertyValue(Plain, Some("stringProperty1")) == Ok(Null)
    ensures GetPropertyValue(Plain, Some("stringProperty3")) == Ok(Str("def"))
    ensures GetPropertyValue(Plain, Some("intProperty2")) == Ok(Int(2))
  {
    PlainUnique();
    GetPropertyValueOfSlot(Plain, 0);
    GetPropertyValueOfSlot(Plain, 2);
    GetPropertyValueOfSlot(Plain, 4);
  }

  lemma NonNullScenarios()
    ensures GetNonNullPropertiesAndValues(Null) == Err(ArgumentNull("objectToRead"))
    ensures GetNonNullPropertiesAndValues(
              Ref(Obj("OnlyNullPropertiesTestClass", [StrProp("stringProperty1", Null, []), StrProp("stringProperty2", Null, [])])))
            == Ok([])
  {
  }

  lemma NonNullPlainSelection()
    ensures IsSelection(PropsOf(Plain), HasValue, [1, 2, 3, 4, 5])
  {
  }

  /** Given the positions of the non-null properties, the pairs are those properties' pairs, in order. */
  lemma NonNullOfSelection(o: Value, idx: seq<nat>, expected: seq<PropertyValuePair>)
    requires !o.Null? && IsSelection(PropsOf(o), HasValue, idx)
    requires |expected| == |idx| && forall k :: 0 <= k < |idx| ==> expected[k] == PairOf(PropsOf(o)[idx[k]])
    ensures GetNonNullPropertiesAndValues(o) == Ok(expected)
  {
    FilterMapOfSelection(PropsOf(o), HasValue, PairOf, idx);
    assert FilterMap(PropsOf(o), HasValue, PairOf) == expected;
  }

  /**
    The test class yields its five non-null properties, in order.
    The object is a parameter pinned by the `requires`, not a constant in the
    `ensures`, so that the verifier works on its shape through the helper lemmas
    instead of unfolding the whole concrete object at once.
  */
  lemma NonNullPlain(o: Value)
    requires o == Plain
    ensures var ps := PropsOf(o);
            GetNonNullPropertiesAndValues(o) == Ok([PairOf(ps[1]), PairOf(ps[2]), PairOf(ps[3]), PairOf(ps[4]), PairOf(ps[5])])
  {
    var ps := PropsOf(o);
    NonNullPlainSelection();
    NonNullOfSelection(o, [1, 2, 3, 4, 5], [PairOf(ps[1]), PairOf(ps[2]), PairOf(ps[3]), PairOf(ps[4]), PairOf(ps[5])]);
  }

  lemma SetScenarios()
    ensures SetPropertiesByValueType(Null, Int(1)) == Err(ArgumentNull("containingObject"))
    ensures SetPropertiesByValueType(Null, Null) == Err(ArgumentNull("containingObject"))
    ensures SetPropertiesByValueType(Plain, Bool(true)) == Ok(Plain)
  {
    SetNoMatchUnchanged(Plain, Bool(true));
  }

  lemma SetReplacesStrings()
    ensures SetPropertiesByValueType(Plain, Str("ghi")) == Ok(Ref(Obj("PropertyAccessorsTestClass",
              [ StrProp("stringProperty1", Str("ghi"), []), StrProp("stringProperty2", Str("ghi"), []),
                StrProp("stringProperty3", Str("ghi"), []), IntProp("intProperty1", Int(1), []),
                IntProp("intProperty2", Int(2), []), IntProp("intProperty3", Int(3), []) ])))
  {
    var ps := PropsOf(Plain);
    var expected := [ StrProp("stringProperty1", Str("ghi"), []), StrProp("stringProperty2", Str("ghi"), []),
                      StrProp("stringProperty3", Str("ghi"), []), IntProp("intProperty1", Int(1), []),
                      IntProp("intProperty2", Int(2), []), IntProp("intProperty3", Int(3), []) ];
    assert AssignedByType(ps, expected, StringTag, Str("ghi"));
    AssignedByTypeUnique(ps, AssignByType(ps, StringTag, Str("ghi")), expected, StringTag, Str("ghi"));
  }

  lemma AttributesNone()
    ensures PropertyAttributesPairs.CreateFromObjectsProperty(Plain, "TestAttribute") == Ok([])
  {
    PropertyAttributesPairs.NoAttributesNoPairs(Plain, "TestAttribute");
  }

  /** A property whose attributes are all of the kind carries the kind exactly when it has attributes. */
  lemma CarriesWhenAllOfKind(p: Prop, kind: string)
    requires forall i :: 0 <= i < |p.info.attrs| ==> p.info.attrs[i].kind == kind
    ensures PropertyAttributesPairs.Carries(kind)(p) <==> p.info.attrs != []
    ensures PropertyAttributesPairs.AttributesOfKind(p.info.attrs, kind) == p.info.attrs
  {
  }

  /** Every attribute on every property is of the kind. */
  ghost predicate AllOfKind(ps: seq<Prop>, kind: string) {
    forall i :: 0 <= i < |ps| ==> forall j :: 0 <= j < |ps[i].info.attrs| ==> ps[i].info.attrs[j].kind == kind
  }

  /** The pair of a property whose attributes are all of the kind. */
  function Whole(p: Prop): PropertyAttributesPairs.PropertyAttributesPair {
    PropertyAttributesPairs.PropertyAttributesPair(p.info, p.info.attrs)
  }

  /** On properties whose attributes are all of the kind, the selected positions are those with any attribute. */
  lemma SelectionWhenAllOfKind(ps: seq<Prop>, kind: string, idx: seq<nat>)
    requires AllOfKind(ps, kind) && Increasing(idx)
    requires forall k :: 0 <= k < |idx| ==> idx[k] < |ps| && ps[idx[k]].info.attrs != []
    requires forall i :: 0 <= i < |ps| && ps[i].info.attrs != [] ==> i in idx
    ensures IsSelection(ps, PropertyAttributesPairs.Carries(kind), idx)
  {
    forall i | 0 <= i < |ps|
      ensures PropertyAttributesPairs.Carries(kind)(ps[i]) <==> ps[i].info.attrs != []
    {
      CarriesWhenAllOfKind(ps[i], kind);
    }
  }

  /** On properties whose attributes are all of the kind, the pairs are the selected properties, whole. */
  lemma PairsOfSelection(ps: seq<Prop>, kind: string, idx: seq<nat>)
    requires AllOfKind(ps, kind) && IsSelection(ps, PropertyAttributesPairs.Carries(kind), idx)
    ensures var r := FilterMap(ps, PropertyAttributesPairs.Carries(kind), PropertyAttributesPairs.PairFor(kind));
            |r| == |idx| && forall k :: 0 <= k < |idx| ==> r[k] == Whole(ps[idx[k]])
  {
    FilterMapOfSelection(ps, PropertyAttributesPairs.Carries(kind), PropertyAttributesPairs.PairFor(kind), idx);
    forall k | 0 <= k < |idx|
      ensures PropertyAttributesPairs.PairFor(kind)(ps[idx[k]]) == Whole(ps[idx[k]])
    {
      CarriesWhenAllOfKind(ps[idx[k]], kind);
    }
  }

  /**
    When every attribute is of the kind, the pairs are the properties that have
    attributes, each with its whole attribute list, in order.
  */
  lemma PairsWhenAllOfKind(className: string, ps: seq<Prop>, kind: string, idx: seq<nat>,
                           expected: seq<PropertyAttributesPairs.PropertyAttributesPair>)
    requires AllOfKind(ps, kind) && Increasing(idx)
    requires forall k :: 0 <= k < |idx| ==> idx[k] < |ps| && ps[idx[k]].info.attrs != []
    requires forall i :: 0 <= i < |ps| && ps[i].info.attrs != [] ==> i in idx
    requires |expected| == |idx| && forall k :: 0 <= k < |idx| ==> expected[k] == Whole(ps[idx[k]])
    ensures PropertyAttributesPairs.CreateFromObjectsProperty(Ref(Obj(className, ps)), kind) == Ok(expected)
  {
    SelectionWhenAllOfKind(ps, kind, idx);
    PairsOfSelection(ps, kind, idx);
    assert FilterMap(ps, PropertyAttributesPairs.Carries(kind), PropertyAttributesPairs.PairFor(kind)) == expected;
  }

  ghost predicate OfKind(attrs: seq<Attr>, kind: string) {
    forall j :: 0 <= j < |attrs| ==> attrs[j].kind == kind
  }

  /** The six attribute lists of the sample class, by position. */
  lemma SampleAttributes(a1: seq<Attr>, a2: seq<Attr>, a3: seq<Attr>, a4: seq<Attr>, a5: seq<Attr>, a6: seq<Attr>)
    ensures var ps := Sample(a1, a2, a3, a4, a5, a6);
            && |ps| == 6
            && ps[0].info.attrs == a1 && ps[1].info.attrs == a2 && ps[2].info.attrs == a3
            && ps[3].info.attrs == a4 && ps[4].info.attrs == a5 && ps[5].info.attrs == a6
  {
  }

  /** Six properties of which the first and the fourth carry `TestAttribute`s, and nothing else does. */
  lemma PairsOfFirstAndFourth(className: string, ps: seq<Prop>, a1: seq<Attr>, a4: seq<Attr>)
    requires |ps| == 6 && ps[0].info.attrs == a1 && ps[3].info.attrs == a4
    requires a1 != [] && a4 != [] && OfKind(a1, "TestAttribute") && OfKind(a4, "TestAttribute")
    requires ps[1].info.attrs == [] && ps[2].info.attrs == [] && ps[4].info.attrs == [] && ps[5].info.attrs == []
    ensures PropertyAttributesPairs.CreateFromObjectsProperty(Ref(Obj(className, ps)), "TestAttribute")
            == Ok([ PropertyAttributesPairs.PropertyAttributesPair(ps[0].info, a1),
                    PropertyAttributesPairs.PropertyAttributesPair(ps[3].info, a4) ])
  {
    var idx: seq<nat> := [0, 3];
    assert AllOfKind(ps, "TestAttribute");
    PairsWhenAllOfKind(className, ps, "TestAttribute", idx, [Whole(ps[0]), Whole(ps[3])]);
  }

  /** Six properties of which the first, the fourth and the sixth carry `TestAttribute`s, and nothing else does. */
  lemma PairsOfFirstFourthAndSixth(className: string, ps: seq<Prop>, a1: seq<Attr>, a4: seq<Attr>, a6: seq<Attr>)
    requires |ps| == 6 && ps[0].info.attrs == a1 && ps[3].info.attrs == a4 && ps[5].info.attrs == a6
    requires a1 != [] && a4 != [] && a6 != []
    requires OfKind(a1, "TestAttribute") && OfKind(a4, "TestAttribute") && OfKind(a6, "TestAttribute")
    requires ps[1].info.attrs == [] && ps[2].info.attrs == [] && ps[4].info.attrs == []
    ensures PropertyAttributesPairs.CreateFromObjectsProperty(Ref(Obj(className, ps)), "TestAttribute")
            == Ok([ PropertyAttributesPairs.PropertyAttributesPair(ps[0].info, a1),
                    PropertyAttributesPairs.PropertyAttributesPair(ps[3].info, a4),
                    PropertyAttributesPairs.PropertyAttributesPair(ps[5].info, a6) ])
  {
    var idx: seq<nat> := [0, 3, 5];
    assert AllOfKind(ps, "TestAttribute");
    PairsWhenAllOfKind(className, ps, "TestAttribute", idx, [Whole(ps[0]), Whole(ps[3]), Whole(ps[5])]);
  }

  /**
    One `TestAttribute` on each of two properties.
    The property list is a parameter pinned by the `requires`, not a constant in the
    `ensures`, so that the verifier works on its shape through the helper lemmas
    instead of unfolding the whole concrete object at once.
  */
  lemma AttributesSingle(ps: seq<Prop>)
    requires ps == Sample([Test(1)], [], [], [Test(2)], [], [])
    ensures PropertyAttributesPairs.CreateFromObjectsProperty(Ref(Obj("AttributesContainingTestClass", ps)), "TestAttribute")
            == Ok([ PropertyAttributesPairs.PropertyAttributesPair(ps[0].info, [Test(1)]),
                    PropertyAttributesPairs.PropertyAttributesPair(ps[3].info, [Test(2)]) ])
  {
    SampleAttributes([Test(1)], [], [], [Test(2)], [], []);
    PairsOfFirstAndFourth("AttributesContainingTestClass", ps, [Test(1)], [Test(2)]);
  }

  /**
    Several `TestAttribute`s on each of three properties, kept in declaration order.
    The property list is a parameter pinned by the `requires`, not a constant in the
    `ensures`, so that the verifier works on its shape through the helper lemmas
    instead of unfolding the whole concrete object at once.
  */
  lemma AttributesMultiple(ps: seq<Prop>)
    requires ps == Sample([Test(1), Test(2)], [], [], [Test(3)], [], [Test(4), Test(5), Test(6)])
    ensures PropertyAttributesPairs.CreateFromObjectsProperty(Ref(Obj("MultipleAttributesContainingTestClass", ps)), "TestAttribute")
            == Ok([ PropertyAttributesPairs.PropertyAttributesPair(ps[0].info, [Test(1), Test(2)]),
                    PropertyAttributesPairs.PropertyAttributesPair(ps[3].info, [Test(3)]),
                    PropertyAttributesPairs.PropertyAttributesPair(ps[5].info, [Test(4), Test(5), Test(6)]) ])
  {
    SampleAttributes([Test(1), Test(2)], [], [], [Test(3)], [], [Test(4), Test(5), Test(6)]);
    PairsOfFirstFourthAndSixth("MultipleAttributesContainingTestClass", ps, [Test(1), Test(2)], [Test(3)], [Test(4), Test(5), Test(6)]);
  }

  /** A class with a call counter and four public methods. */
  const CounterClass := ClassTag("MethodAccessorsTestClass")

  function Counter(calls: int): Value {
    Ref(Obj("MethodAccessorsTestClass", [IntProp("method1Called", Int(calls), [])]))
  }

  /** Adds `k` to the call counter of a counter object. */
  function Bump(o: Value, k: int): Result<Invocation> {
    if o.Ref? && |o.obj.props| == 1 && o.obj.props[0].value.Int? then
      Ok(Invocation(Counter(o.obj.props[0].value.i + k), Null))
    else Err(Raised("NullReferenceException"))
  }

  /**
    The test class's methods. The int-taking bodies only ever receive an `Int`
    through `Invoke`; their other branch keeps them total.
  */
  function CounterMethods(t: Tag): seq<MethodDecl> {
    if t != CounterClass then []
    else
      [ MethodDecl("IncreaseCalls", [], (o: Value, args: seq<Value>) => Bump(o, 1)),
        MethodDecl("IncreaseCallsByIncrement", [IntTag], (o: Value, args: seq<Value>) =>
          if |args| == 1 && args[0].Int? then Bump(o, args[0].i) else Err(Raised("InvalidCastException"))),
        MethodDecl("Return42", [], (o: Value, args: seq<Value>) => Ok(Invocation(o, Int(42)))),
        MethodDecl("Return42TimesFactor", [IntTag], (o: Value, args: seq<Value>) =>
          if |args| == 1 && args[0].Int? then Ok(Invocation(o, Int(args[0].i * 42))) else Err(Raised("InvalidCastException"))) ]
  }

  lemma CounterUnique()
    ensures UniqueMethodNames(CounterMethods(CounterClass))
  {
  }

  lemma InvokeErrors()
    ensures InvokeActionMethod(CounterMethods, Null, Some("anyMethod"), None) == Err(ArgumentNull("containingObject"))
    ensures InvokeActionMethod(CounterMethods, Counter(0), None, None).error.ArgumentInvalid?
    ensures InvokeFuncMethod(CounterMethods, Null, Some("anyMethod"), None) == Err(ArgumentNull("containingObject"))
    ensures InvokeFuncMethod(CounterMethods, Counter(0), None, None).error.ArgumentInvalid?
    ensures InvokeFuncMethodTyped(CounterMethods, Null, Some("anyMethod"), None, IntTag) == Err(ArgumentNull("containingObject"))
    ensures InvokeFuncMethodTyped(CounterMethods, Counter(0), None, None, IntTag).error.ArgumentInvalid?
  {
  }

  lemma InvokeMissing()
    ensures InvokeActionMethod(CounterMethods, Counter(0), Some("invalidMethodName"), None)
              == Err(ArgumentInvalid(Some("invalidMethodName"), Some(CounterClass)))
    ensures InvokeFuncMethodTyped(CounterMethods, Counter(0), Some("invalidMethodName"), None, IntTag)
              == Err(ArgumentInvalid(Some("invalidMethodName"), Some(CounterClass)))
  {
    assert !HasMethod(CounterMethods, Counter(0), "invalidMethodName");
  }

  lemma IncreaseCallsScenario()
    ensures InvokeActionMethod(CounterMethods, Counter(0), Some("IncreaseCalls"), None) == Ok(Counter(1))
  {
    CounterUnique();
    InvokeDeclaredMethod(CounterMethods, Counter(0), 0, None);
  }

  lemma IncreaseByIncrementScenario()
    ensures InvokeActionMethod(CounterMethods, Counter(0), Some("IncreaseCallsByIncrement"), Some([Int(3)])) == Ok(Counter(3))
  {
    CounterUnique();
    InvokeDeclaredMethod(CounterMethods, Counter(0), 1, Some([Int(3)]));
  }

  lemma Return42Scenario()
    ensures InvokeFuncMethod(CounterMethods, Counter(0), Some("Return42"), None) == Ok(Invocation(Counter(0), Int(42)))
    ensures InvokeFuncMethodTyped(CounterMethods, Counter(0), Some("Return42"), None, IntTag)
              == Ok(Invocation(Counter(0), Int(42)))
    ensures InvokeFuncMethodTyped(CounterMethods, Counter(0), Some("Return42"), None, StringTag)
              == Err(InvalidCast(MethodReturnNotOf("Return42", CounterClass, StringTag), Some(InvalidCast(CastOf(IntTag, StringTag), None))))
  {
    CounterUnique();
    InvokeDeclaredMethod(CounterMethods, Counter(0), 2, None);
  }

  lemma Return42TimesFactorScenario()
    ensures InvokeFuncMethod(CounterMethods, Counter(0), Some("Return42TimesFactor"), Some([Int(3)]))
              == Ok(Invocation(Counter(0), Int(126)))
    ensures InvokeFuncMethodTyped(CounterMethods, Counter(0), Some("Return42TimesFactor"), Some([Int(3)]), IntTag)
              == Ok(Invocation(Counter(0), Int(126)))
  {
    CounterUnique();
    InvokeDeclaredMethod(CounterMethods, Counter(0), 3, Some([Int(3)]));
  }

  /**
    A string for the int parameter is rejected before the body runs, unwrapped; a
    null for it reaches the body as 0; a missing argument is a parameter-count error.
  */
  lemma Return42TimesFactorArguments()
    ensures InvokeFuncMethod(CounterMethods, Counter(0), Some("Return42TimesFactor"), Some([Str("x")]))
              == Err(ArgumentConversion(StringTag, IntTag))
    ensures InvokeFuncMethod(CounterMethods, Counter(0), Some("Return42TimesFactor"), Some([Null]))
              == Ok(Invocation(Counter(0), Int(0)))
    ensures InvokeFuncMethod(CounterMethods, Counter(0), Some("Return42TimesFactor"), None)
              == Err(ParameterCount)
  {
    CounterUnique();
    InvokeDeclaredMethod(CounterMethods, Counter(0), 3, Some([Str("x")]));
    InvokeDeclaredMethod(CounterMethods, Counter(0), 3, Some([Null]));
    InvokeDeclaredMethod(CounterMethods, Counter(0), 3, None);
  }
}
