/** `PropertyAccessors`: reading one property by name, bulk reads and bulk writes. */
module PropertyAccessors {
  import opened Wrappers
  import opened Seqs
  import opened Values
  import opened Members
  import opened PropertyValuePairs

  /**
    `GetPropertyValue(o, name)`: a null object is rejected before any lookup; a
    name that is null or names no property of the runtime type is an argument
    error; otherwise the property's current value, which may itself be `Null`.
  */
  function GetPropertyValue(o: Value, name: Option<string>): (r: Result<Value>)
    ensures o.Null? ==> r == Err(ArgumentNull("containingObject"))
    ensures !o.Null? && name.None? ==> r == Err(ArgumentInvalid(None, None))
    ensures !o.Null? && name.Some? ==> (r.Ok? <==> HasProperty(o, name.value))
    ensures !o.Null? && name.Some? && r.Err? ==> r.error == ArgumentInvalid(name, Some(TypeOf(o)))
    ensures r.Ok? ==> exists i :: 0 <= i < |PropsOf(o)|
                        && PropsOf(o)[i].info.name == name.value && PropsOf(o)[i].value == r.value
  {
    if o.Null? then Err(ArgumentNull("containingObject"))
    else if name.None? then Err(ArgumentInvalid(None, None))
    else
      match FindProperty(o, name.value)
      case None => Err(ArgumentInvalid(name, Some(TypeOf(o))))
      case Some(i) => Ok(PropsOf(o)[i].value)
  }

  /** With unique property names the value read is that of the one property so named. */
  lemma GetPropertyValueOfSlot(o: Value, i: nat)
    requires !o.Null? && i < |PropsOf(o)| && UniquePropertyNames(PropsOf(o))
    ensures GetPropertyValue(o, Some(PropsOf(o)[i].info.name)) == Ok(PropsOf(o)[i].value)
  {
  }

  /**
    The bulk-write relation: `after` keeps the property metadata and order of
    `before`; every property declared with type `t` holds `v`, the others keep their values.
  */
  ghost predicate AssignedByType(before: seq<Prop>, after: seq<Prop>, t: Tag, v: Value) {
    && |after| == |before|
    && forall i :: 0 <= i < |before| ==>
         && after[i].info == before[i].info
         && after[i].value == (if before[i].info.declType == t then v else before[i].value)
  }

  /** The per-property assignments of `SetPropertiesByValueType`, done one after another. */
  function AssignByType(props: seq<Prop>, t: Tag, v: Value): (r: seq<Prop>)
    ensures AssignedByType(props, r, t, v)
  {
    if |props| == 0 then []
    else
      var p := props[0];
      [if p.info.declType == t then p.(value := v) else p] + AssignByType(props[1..], t, v)
  }

  /** The object with its property slots replaced by `props` (same names, same order). */
  function WithProps(o: Value, props: seq<Prop>): Value
    requires o.Ref?
  {
    Ref(o.obj.(props := props))
  }

  /**
    `SetPropertiesByValueType(o, v)`: rejects a null object, then a null value;
    otherwise assigns `v` to every property whose declared type is exactly the
    runtime type of `v`, overwriting non-null values too, and changes nothing else.
  */
  function SetPropertiesByValueType(o: Value, v: Value): (r: Result<Value>)
    ensures o.Null? ==> r == Err(ArgumentNull("containingObject"))
    ensures !o.Null? && v.Null? ==> r == Err(ArgumentNull("valueToSet"))
    ensures !o.Null? && !v.Null? ==> r.Ok? && !r.value.Null? && TypeOf(r.value) == TypeOf(o)
    ensures !o.Null? && !v.Null? ==> AssignedByType(PropsOf(o), PropsOf(r.value), TypeOf(v), v)
  {
    if o.Null? then Err(ArgumentNull("containingObject"))
    else if v.Null? then Err(ArgumentNull("valueToSet"))
    else if o.Ref? then Ok(WithProps(o, AssignByType(o.obj.props, TypeOf(v), v)))
    else Ok(o)
  }

  /** The bulk write is determined by the relation it establishes. */
  lemma {:induction false} AssignedByTypeUnique(before: seq<Prop>, a: seq<Prop>, b: seq<Prop>, t: Tag, v: Value)
    requires AssignedByType(before, a, t, v) && AssignedByType(before, b, t, v)
    ensures a == b
  {
    assert forall i :: 0 <= i < |a| ==> a[i] == Prop(before[i].info, a[i].value);
    assert forall i :: 0 <= i < |b| ==> b[i] == Prop(before[i].info, b[i].value);
  }

  /** Writing the same value twice has the effect of writing it once. */
  lemma SetIdempotent(o: Value, v: Value)
    requires !o.Null? && !v.Null?
    ensures var once := SetPropertiesByValueType(o, v).value;
            SetPropertiesByValueType(once, v) == Ok(once)
  {
    var once := SetPropertiesByValueType(o, v).value;
    if o.Ref? {
      var ps := AssignByType(o.obj.props, TypeOf(v), v);
      AssignedByTypeUnique(ps, AssignByType(ps, TypeOf(v), v), ps, TypeOf(v), v);
    }
  }

  /** When no property is declared with the value's type, the object is unchanged. */
  lemma SetNoMatchUnchanged(o: Value, v: Value)
    requires !o.Null? && !v.Null?
    requires forall i :: 0 <= i < |PropsOf(o)| ==> PropsOf(o)[i].info.declType != TypeOf(v)
    ensures SetPropertiesByValueType(o, v) == Ok(o)
  {
    if o.Ref? {
      var ps := o.obj.props;
      assert PropsOf(o) == ps;
      assert AssignedByType(ps, ps, TypeOf(v), v);
      AssignedByTypeUnique(ps, AssignByType(ps, TypeOf(v), v), ps, TypeOf(v), v);
    }
  }

  /**
    Reading a property after the bulk write: a property declared with the value's
    type yields the value, any other property yields what it held before.
  */
  lemma GetAfterSet(o: Value, v: Value, i: nat)
    requires !o.Null? && !v.Null? && i < |PropsOf(o)| && UniquePropertyNames(PropsOf(o))
    ensures var after := SetPropertiesByValueType(o, v).value;
            var p := PropsOf(o)[i];
            GetPropertyValue(after, Some(p.info.name))
              == Ok(if p.info.declType == TypeOf(v) then v else p.value)
  {
    var after := SetPropertiesByValueType(o, v).value;
    assert forall k :: 0 <= k < |PropsOf(o)| ==> PropsOf(after)[k].info == PropsOf(o)[k].info;
    GetPropertyValueOfSlot(after, i);
  }

  function HasValue(p: Prop): bool {
    !p.value.Null?
  }

  /**
    `GetNonNullPropertiesAndValues(o)`: rejects a null object; otherwise the
    properties whose current value is not null, in property order, each paired with that value.
  */
  function GetNonNullPropertiesAndValues(o: Value): (r: Result<seq<PropertyValuePair>>)
    ensures o.Null? <==> r.Err?
    ensures r.Err? ==> r.error == ArgumentNull("objectToRead")
    ensures r.Ok? ==> forall pair :: pair in r.value ==>
              !pair.correspondingValue.Null? && Prop(pair.property, pair.correspondingValue) in PropsOf(o)
    ensures r.Ok? ==> forall p :: p in PropsOf(o) && !p.value.Null? ==> PairOf(p) in r.value
    ensures r.Ok? && (forall i :: 0 <= i < |PropsOf(o)| ==> PropsOf(o)[i].value.Null?) ==> r.value == []
  {
    if o.Null? then Err(ArgumentNull("objectToRead"))
    else Ok(FilterMap(PropsOf(o), HasValue, PairOf))
  }

  /** The pairs are exactly the non-null properties, in property order. */
  lemma NonNullPairsExact(o: Value)
    requires !o.Null?
    ensures var r := GetNonNullPropertiesAndValues(o);
            r.Ok? && SelectedImage(PropsOf(o), HasValue, PairOf, r.value)
  {
    FilterMapSelects(PropsOf(o), HasValue, PairOf);
  }

  /** Each reported pair is what `CreateFromObjectsProperty` builds for its property. */
  lemma NonNullPairsAreCreated(o: Value)
    requires !o.Null? && UniquePropertyNames(PropsOf(o))
    ensures forall pair :: pair in GetNonNullPropertiesAndValues(o).value ==>
              CreateFromObjectsProperty(o, pair.property) == Ok(pair)
  {
    var ps := PropsOf(o);
    forall pair | pair in GetNonNullPropertiesAndValues(o).value
      ensures CreateFromObjectsProperty(o, pair.property) == Ok(pair)
    {
      var i :| 0 <= i < |ps| && ps[i] == Prop(pair.property, pair.correspondingValue);
      CreateFromOwnProperty(o, i);
    }
  }
}
