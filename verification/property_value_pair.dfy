/** `PropertyValuePair`: a property of an object together with its value on that object. */
module PropertyValuePairs {
  import opened Wrappers
  import opened Seqs
  import opened Values
  import opened Members

  datatype PropertyValuePair = PropertyValuePair(property: PropInfo, correspondingValue: Value)

  /** The pair for one property slot of an instance. */
  function PairOf(p: Prop): PropertyValuePair {
    PropertyValuePair(p.info, p.value)
  }

  function IsProperty(info: PropInfo): Prop -> bool {
    (p: Prop) => p.info == info
  }

  /**
    `CreateFromObjectsProperty(o, property)`: reads `property` on `o` with
    `PropertyInfo.GetValue`, which throws a TargetException when `o` is null or
    does not declare that property. No filtering happens here: a null value is paired as is.
  */
  function CreateFromObjectsProperty(o: Value, property: PropInfo): (r: Result<PropertyValuePair>)
    ensures r.Ok? <==> !o.Null? && exists i :: 0 <= i < |PropsOf(o)| && PropsOf(o)[i].info == property
    ensures r.Err? ==> r.error == TargetMismatch
    ensures r.Ok? ==> r.value.property == property
    ensures r.Ok? ==> exists i :: 0 <= i < |PropsOf(o)| && PropsOf(o)[i] == Prop(property, r.value.correspondingValue)
  {
    if o.Null? then Err(TargetMismatch)
    else
      match FirstIndex(PropsOf(o), IsProperty(property))
      case None => Err(TargetMismatch)
      case Some(i) => Ok(PropertyValuePair(property, PropsOf(o)[i].value))
  }

  /** On a well-formed object, reading one of its own properties yields that slot's current value. */
  lemma CreateFromOwnProperty(o: Value, i: nat)
    requires !o.Null? && i < |PropsOf(o)| && UniquePropertyNames(PropsOf(o))
    ensures CreateFromObjectsProperty(o, PropsOf(o)[i].info) == Ok(PairOf(PropsOf(o)[i]))
  {
    var ps := PropsOf(o);
    var j := FirstIndex(ps, IsProperty(ps[i].info));
    assert j.Some?;
    assert ps[j.value].info.name == ps[i].info.name;
  }
}
