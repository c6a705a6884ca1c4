/**
  `PropertyAttributesPair<TAttribute>`: a property together with the attributes
  of kind `TAttribute` attached to it.
*/
module PropertyAttributesPairs {
  import opened Wrappers
  import opened Seqs
  import opened Values
  import opened Members

  datatype PropertyAttributesPair = PropertyAttributesPair(property: PropInfo, attributes: seq<Attr>)

  function IsKind(kind: string): Attr -> bool {
    (a: Attr) => a.kind == kind
  }

  /** `GetCustomAttributes<TAttribute>()`: the attributes of kind `kind`, in declaration order, repeats kept. */
  function AttributesOfKind(attrs: seq<Attr>, kind: string): (r: seq<Attr>)
    ensures forall a :: a in r ==> a in attrs && a.kind == kind
    ensures forall a :: a in attrs && a.kind == kind ==> a in r
    ensures (forall i :: 0 <= i < |attrs| ==> attrs[i].kind != kind) ==> r == []
  {
    FilterMap(attrs, IsKind(kind), (a: Attr) => a)
  }

  /** The attribute list is exactly the `kind` attributes of the property, in order. */
  lemma AttributesOfKindExact(attrs: seq<Attr>, kind: string)
    ensures SelectedImage(attrs, IsKind(kind), (a: Attr) => a, AttributesOfKind(attrs, kind))
  {
    FilterMapSelects(attrs, IsKind(kind), (a: Attr) => a);
  }

  /** The pair built for one property before filtering. */
  function PairFor(kind: string): Prop -> PropertyAttributesPair {
    (p: Prop) => PropertyAttributesPair(p.info, AttributesOfKind(p.info.attrs, kind))
  }

  /** A property is reported when it carries at least one attribute of the kind. */
  function Carries(kind: string): Prop -> bool {
    (p: Prop) => |AttributesOfKind(p.info.attrs, kind)| > 0
  }

  /**
    `CreateFromObjectsProperty(o)`: pairs every property with its `kind`
    attributes and keeps the pairs whose list is non-empty. There is no null
    guard, so a null object fails when its type is read.
  */
  function CreateFromObjectsProperty(o: Value, kind: string): (r: Result<seq<PropertyAttributesPair>>)
    ensures o.Null? <==> r.Err?
    ensures r.Err? ==> r.error == NullReference
    ensures r.Ok? ==> forall pair :: pair in r.value ==>
              pair.attributes != [] && forall a :: a in pair.attributes ==> a.kind == kind
    ensures r.Ok? ==> forall pair :: pair in r.value ==>
              exists p :: p in PropsOf(o) && pair == PropertyAttributesPair(p.info, AttributesOfKind(p.info.attrs, kind))
    ensures r.Ok? ==> forall p :: p in PropsOf(o) && (exists a :: a in p.info.attrs && a.kind == kind) ==>
              PropertyAttributesPair(p.info, AttributesOfKind(p.info.attrs, kind)) in r.value
  {
    if o.Null? then Err(NullReference)
    else Ok(FilterMap(PropsOf(o), Carries(kind), PairFor(kind)))
  }

  /**
    The result lists, in property order, exactly the properties carrying a `kind`
    attribute, each with exactly its `kind` attributes.
  */
  lemma AttributePairsExact(o: Value, kind: string)
    requires !o.Null?
    ensures var r := CreateFromObjectsProperty(o, kind);
            r.Ok? && SelectedImage(PropsOf(o), Carries(kind), PairFor(kind), r.value)
  {
    FilterMapSelects(PropsOf(o), Carries(kind), PairFor(kind));
  }

  /** A type none of whose properties carries a `kind` attribute yields no pairs. */
  lemma NoAttributesNoPairs(o: Value, kind: string)
    requires !o.Null?
    requires forall p :: p in PropsOf(o) ==> forall a :: a in p.info.attrs ==> a.kind != kind
    ensures CreateFromObjectsProperty(o, kind) == Ok([])
  {
    var ps := PropsOf(o);
    forall i | 0 <= i < |ps|
      ensures !Carries(kind)(ps[i])
    {
      assert ps[i] in ps;
      var attrs := ps[i].info.attrs;
      assert forall j :: 0 <= j < |attrs| ==> attrs[j] in attrs;
    }
  }
}
