/** The JSON Patch adapter for plain objects: the per-segment operations
    behind the add, remove, replace and test operations of JSON Patch
    (section 4 of RFC 6902), plus get and traverse, each applied to one
    named property of one object.

    An object is its contract (the ordered property descriptors the contract
    resolver reports for its runtime type) together with the current value
    of every property. Reflection, contract resolution, value conversion and
    JSON serialisation are not modelled; they enter as the `Services`
    parameter. Because the model is pure, an operation "changes" the object
    only by returning a new one in its `Update` result. */
module PocoAdapter {
  import opened Wrappers

  /*--------------------------------------------------------------------
   * Ordinal, case-insensitive comparison of property names
   *------------------------------------------------------------------*/

  /** Folds one character for case-insensitive comparison (ASCII letters only). */
  function FoldCase(c: char): char {
    if 'a' <= c <= 'z' then (c as int - 32) as char else c
  }

  /** `string.Equals(a, b, StringComparison.OrdinalIgnoreCase)`. */
  predicate EqualsIgnoreCase(a: string, b: string) {
    |a| == |b| && forall i :: 0 <= i < |a| ==> FoldCase(a[i]) == FoldCase(b[i])
  }

  /** Case-insensitive equality is an equivalence relation. */
  lemma EqualsIgnoreCaseIsEquivalence(a: string, b: string, c: string)
    ensures EqualsIgnoreCase(a, a)
    ensures EqualsIgnoreCase(a, b) ==> EqualsIgnoreCase(b, a)
    ensures EqualsIgnoreCase(a, b) && EqualsIgnoreCase(b, c) ==> EqualsIgnoreCase(a, c)
  {
  }

  /*--------------------------------------------------------------------
   * Data model
   *------------------------------------------------------------------*/

  /** What the adapter needs to know about a property's CLR type: whether it
      is a reference type, a `Nullable<T>` or a non-nullable value type. */
  datatype TypeKind = ReferenceType | NullableValueType | ValueType

  datatype PropertyType = PropertyType(name: string, kind: TypeKind)

  /** One property descriptor of an object contract. */
  datatype JsonProperty = JsonProperty(
    propertyName: string,
    readable: bool,
    writable: bool,
    propertyType: PropertyType)

  /** The contract the resolver reports for the target's runtime type: only
      an object contract has named properties. */
  datatype Contract = ObjectContract(properties: seq<JsonProperty>) | OtherContract

  /** A value stored in, read from or offered to a property. */
  datatype Value = Null | Instance(id: nat)

  datatype Target = Target(contract: Contract, values: map<string, Value>)

  /** Every property of the contract has a slot holding its current value. */
  predicate HasSlots(t: Target) {
    t.contract.ObjectContract? ==>
      forall p :: p in t.contract.properties ==> p.propertyName in t.values
  }

  /** A non-null target object. */
  type Poco = t: Target | HasSlots(t) witness Target(OtherContract, map[])

  /** The collaborators the adapter calls but that are not modelled:
      `ConversionResultProvider.ConvertTo` (None when the value cannot be
      converted), `Activator.CreateInstance` on a value type, and
      `JsonConvert.SerializeObject`. */
  datatype Services = Services(
    convert: (Value, PropertyType) -> Option<Value>,
    defaultOf: PropertyType -> Value,
    serialize: Value -> string)

  /** The error kinds of the adapter, one per resource-formatted message. */
  datatype PatchError =
    | TargetLocationNotFound(segment: string)
    | CannotUpdateProperty(segment: string)
    | CannotReadProperty(segment: string)
    | InvalidValueForProperty(value: Value)
    | ValueNotEqualToTestValue(currentValue: Value, value: Value, segment: string)

  /** Outcome of add, remove and replace: the returned flag, the target after
      the call and the error message (`None` is `null`). */
  datatype Update = Update(ok: bool, target: Poco, errorMessage: Option<PatchError>)

  /** Outcome of get and traverse: the returned flag, the `value` out
      parameter and the error message. */
  datatype Read = Read(ok: bool, value: Value, errorMessage: Option<PatchError>)

  /** Outcome of test: the returned flag and the error message. */
  datatype Verdict = Verdict(ok: bool, errorMessage: Option<PatchError>)

  /*--------------------------------------------------------------------
   * Property lookup
   *------------------------------------------------------------------*/

  /** Index `i` holds the first property whose name matches `segment`. */
  predicate IsFirstMatch(properties: seq<JsonProperty>, segment: string, i: int) {
    && 0 <= i < |properties|
    && EqualsIgnoreCase(properties[i].propertyName, segment)
    && forall j :: 0 <= j < i ==> !EqualsIgnoreCase(properties[j].propertyName, segment)
  }

  /** The position `FirstOrDefault` stops at. */
  function FirstMatch(properties: seq<JsonProperty>, segment: string): (r: Option<nat>)
    ensures r.Some? ==> IsFirstMatch(properties, segment, r.value)
    ensures r.None? ==>
      forall j :: 0 <= j < |properties| ==> !EqualsIgnoreCase(properties[j].propertyName, segment)
  {
    if |properties| == 0 then None
    else if EqualsIgnoreCase(properties[0].propertyName, segment) then Some(0)
    else
      match FirstMatch(properties[1..], segment)
      case None => None
      case Some(i) => Some(i + 1)
  }

  /** `TryGetJsonProperty`: the first property of an object contract whose
      name equals `segment` ignoring case; `None` when there is none or the
      contract is not an object contract. */
  function TryGetJsonProperty(t: Poco, segment: string): (r: Option<JsonProperty>)
    ensures r.None? <==>
      || t.contract.OtherContract?
      || forall j :: 0 <= j < |t.contract.properties| ==>
           !EqualsIgnoreCase(t.contract.properties[j].propertyName, segment)
    ensures r.Some? ==>
      && t.contract.ObjectContract?
      && EqualsIgnoreCase(r.value.propertyName, segment)
      && r.value.propertyName in t.values
      && exists i :: IsFirstMatch(t.contract.properties, segment, i) && t.contract.properties[i] == r.value
  {
    match t.contract
    case OtherContract => None
    case ObjectContract(properties) =>
      match FirstMatch(properties, segment)
      case None => None
      case Some(i) => Some(properties[i])
  }

  /** Two segments equal up to case select the same property. */
  lemma {:induction false} FirstMatchIgnoresCase(properties: seq<JsonProperty>, s1: string, s2: string)
    requires EqualsIgnoreCase(s1, s2)
    ensures FirstMatch(properties, s1) == FirstMatch(properties, s2)
  {
    if |properties| > 0 {
      var n := properties[0].propertyName;
      EqualsIgnoreCaseIsEquivalence(n, s1, s2);
      EqualsIgnoreCaseIsEquivalence(n, s2, s1);
      EqualsIgnoreCaseIsEquivalence(s1, s2, s1);
      FirstMatchIgnoresCase(properties[1..], s1, s2);
    }
  }

  /** Lookup does not depend on the case of the segment. */
  lemma LookupIgnoresCase(t: Poco, s1: string, s2: string)
    requires EqualsIgnoreCase(s1, s2)
    ensures TryGetJsonProperty(t, s1) == TryGetJsonProperty(t, s2)
  {
    if t.contract.ObjectContract? {
      FirstMatchIgnoresCase(t.contract.properties, s1, s2);
    }
  }

  /*--------------------------------------------------------------------
   * Reading and writing one slot
   *------------------------------------------------------------------*/

  /** `ValueProvider.GetValue`. */
  function GetValue(t: Poco, p: JsonProperty): Value
    requires p.propertyName in t.values
  {
    t.values[p.propertyName]
  }

  /** `ValueProvider.SetValue`: the property's slot now holds `v`. */
  function SetValue(t: Poco, p: JsonProperty, v: Value): (r: Poco)
    ensures r.contract == t.contract
    ensures r.values.Keys == t.values.Keys + {p.propertyName}
    ensures r.values[p.propertyName] == v
    ensures forall n :: n in t.values && n != p.propertyName ==> r.values[n] == t.values[n]
  {
    Target(t.contract, t.values[p.propertyName := v])
  }

  /** A slot read after a slot write sees the value written, and reads of
      every other property see what they saw before. */
  lemma GetAfterSet(t: Poco, p: JsonProperty, v: Value, q: JsonProperty)
    requires q.propertyName in t.values
    ensures GetValue(SetValue(t, p, v), p) == v
    ensures q.propertyName != p.propertyName ==> GetValue(SetValue(t, p, v), q) == GetValue(t, q)
  {
  }

  /** The value `TryRemove` stores: the type's default instance for a
      non-nullable value type, `null` for every other type. */
  function ClearedValue(svc: Services, ty: PropertyType): Value {
    if ty.kind == ValueType then svc.defaultOf(ty) else Null
  }

  /*--------------------------------------------------------------------
   * The operations
   *------------------------------------------------------------------*/

  /** `TryAdd`: lookup, then writability, then conversion, then the write. */
  function TryAdd(svc: Services, t: Poco, segment: string, value: Value): (r: Update)
    ensures r.ok <==> r.errorMessage.None?
    ensures !r.ok ==> r.target == t
    ensures var found := TryGetJsonProperty(t, segment);
      && (found.None? ==> r.errorMessage == Some(TargetLocationNotFound(segment)))
      && (found.Some? && !found.value.writable ==>
            r.errorMessage == Some(CannotUpdateProperty(segment)))
      && (found.Some? && found.value.writable && svc.convert(value, found.value.propertyType).None? ==>
            r.errorMessage == Some(InvalidValueForProperty(value)))
      && (r.ok <==>
            found.Some? && found.value.writable && svc.convert(value, found.value.propertyType).Some?)
      && (r.ok ==>
            && r.target.contract == t.contract
            && r.target.values.Keys == t.values.Keys
            && r.target.values[found.value.propertyName]
               == svc.convert(value, found.value.propertyType).value
            && forall n :: n in t.values && n != found.value.propertyName ==>
                 r.target.values[n] == t.values[n])
  {
    match TryGetJsonProperty(t, segment)
    case None => Update(false, t, Some(TargetLocationNotFound(segment)))
    case Some(p) =>
      if !p.writable then Update(false, t, Some(CannotUpdateProperty(segment)))
      else
        match svc.convert(value, p.propertyType)
        case None => Update(false, t, Some(InvalidValueForProperty(value)))
        case Some(converted) => Update(true, SetValue(t, p, converted), None)
  }

  /** `TryGet`: lookup, then readability, then the read. */
  function TryGet(t: Poco, segment: string): (r: Read)
    ensures r.ok <==> r.errorMessage.None?
    ensures !r.ok ==> r.value == Null
    ensures var found := TryGetJsonProperty(t, segment);
      && (found.None? ==> r.errorMessage == Some(TargetLocationNotFound(segment)))
      && (found.Some? && !found.value.readable ==>
            r.errorMessage == Some(CannotReadProperty(segment)))
      && (r.ok <==> found.Some? && found.value.readable)
      && (r.ok ==> r.value == t.values[found.value.propertyName])
  {
    match TryGetJsonProperty(t, segment)
    case None => Read(false, Null, Some(TargetLocationNotFound(segment)))
    case Some(p) =>
      if !p.readable then Read(false, Null, Some(CannotReadProperty(segment)))
      else Read(true, GetValue(t, p), None)
  }

  /** `TryRemove`: lookup, then writability, then the property is cleared;
      no conversion is attempted. */
  function TryRemove(svc: Services, t: Poco, segment: string): (r: Update)
    ensures r.ok <==> r.errorMessage.None?
    ensures !r.ok ==> r.target == t
    ensures var found := TryGetJsonProperty(t, segment);
      && (found.None? ==> r.errorMessage == Some(TargetLocationNotFound(segment)))
      && (found.Some? && !found.value.writable ==>
            r.errorMessage == Some(CannotUpdateProperty(segment)))
      && (r.ok <==> found.Some? && found.value.writable)
      && (r.ok ==>
            && r.target.contract == t.contract
            && r.target.values.Keys == t.values.Keys
            && r.target.values[found.value.propertyName]
               == (if found.value.propertyType.kind == ValueType
                   then svc.defaultOf(found.value.propertyType) else Null)
            && forall n :: n in t.values && n != found.value.propertyName ==>
                 r.target.values[n] == t.values[n])
  {
    match TryGetJsonProperty(t, segment)
    case None => Update(false, t, Some(TargetLocationNotFound(segment)))
    case Some(p) =>
      if !p.writable then Update(false, t, Some(CannotUpdateProperty(segment)))
      else Update(true, SetValue(t, p, ClearedValue(svc, p.propertyType)), None)
  }

  /** `TryReplace`: written out separately in the adapter, with the same
      guards and effect as `TryAdd`, so the two agree on every input. */
  function TryReplace(svc: Services, t: Poco, segment: string, value: Value): (r: Update)
    ensures r == TryAdd(svc, t, segment, value)
  {
    match TryGetJsonProperty(t, segment)
    case None => Update(false, t, Some(TargetLocationNotFound(segment)))
    case Some(p) =>
      if !p.writable then Update(false, t, Some(CannotUpdateProperty(segment)))
      else
        match svc.convert(value, p.propertyType)
        case None => Update(false, t, Some(InvalidValueForProperty(value)))
        case Some(converted) => Update(true, SetValue(t, p, converted), None)
  }

  /** `TryTest`: lookup, readability, conversion, then the serialized current
      value must equal the serialized converted value. */
  function TryTest(svc: Services, t: Poco, segment: string, value: Value): (r: Verdict)
    ensures r.ok <==> r.errorMessage.None?
    ensures var found := TryGetJsonProperty(t, segment);
      && (found.None? ==> r.errorMessage == Some(TargetLocationNotFound(segment)))
      && (found.Some? && !found.value.readable ==>
            r.errorMessage == Some(CannotReadProperty(segment)))
      && (found.Some? && found.value.readable && svc.convert(value, found.value.propertyType).None? ==>
            r.errorMessage == Some(InvalidValueForProperty(value)))
      && (r.ok <==>
            && found.Some? && found.value.readable
            && svc.convert(value, found.value.propertyType).Some?
            && svc.serialize(t.values[found.value.propertyName])
               == svc.serialize(svc.convert(value, found.value.propertyType).value))
      && (found.Some? && found.value.readable && svc.convert(value, found.value.propertyType).Some? && !r.ok ==>
            r.errorMessage
            == Some(ValueNotEqualToTestValue(t.values[found.value.propertyName], value, segment)))
  {
    match TryGetJsonProperty(t, segment)
    case None => Verdict(false, Some(TargetLocationNotFound(segment)))
    case Some(p) =>
      if !p.readable then Verdict(false, Some(CannotReadProperty(segment)))
      else
        match svc.convert(value, p.propertyType)
        case None => Verdict(false, Some(InvalidValueForProperty(value)))
        case Some(converted) =>
          var current := GetValue(t, p);
          if svc.serialize(current) != svc.serialize(converted) then
            Verdict(false, Some(ValueNotEqualToTestValue(current, value, segment)))
          else
            Verdict(true, None)
  }

  /** `TryTraverse`: a null target fails without a message; otherwise a found
      property yields its value whether or not it is readable. */
  function TryTraverse(target: Option<Poco>, segment: string): (r: Read)
    ensures target.None? ==> r == Read(false, Null, None)
    ensures target.Some? ==>
      var found := TryGetJsonProperty(target.value, segment);
      && (r.ok <==> found.Some?)
      && (r.ok ==> r.errorMessage.None? && r.value == target.value.values[found.value.propertyName])
      && (!r.ok ==> r == Read(false, Null, Some(TargetLocationNotFound(segment))))
  {
    match target
    case None => Read(false, Null, None)
    case Some(t) =>
      match TryGetJsonProperty(t, segment)
      case Some(p) => Read(true, GetValue(t, p), None)
      case None => Read(false, Null, Some(TargetLocationNotFound(segment)))
  }

  /*--------------------------------------------------------------------
   * Properties relating the operations
   *------------------------------------------------------------------*/

  /** A write leaves the contract alone, so lookups on the new target find
      the same property. */
  lemma LookupAfterWrite(t: Poco, p: JsonProperty, v: Value, segment: string)
    ensures TryGetJsonProperty(SetValue(t, p, v), segment) == TryGetJsonProperty(t, segment)
  {
  }

  /** After a successful add, getting the same segment (when the property is
      readable) yields the converted value. */
  lemma AddThenGet(svc: Services, t: Poco, segment: string, value: Value)
    requires TryAdd(svc, t, segment, value).ok
    requires TryGetJsonProperty(t, segment).value.readable
    ensures TryGet(TryAdd(svc, t, segment, value).target, segment)
         == Read(true, svc.convert(value, TryGetJsonProperty(t, segment).value.propertyType).value, None)
  {
    var p := TryGetJsonProperty(t, segment).value;
    var v := svc.convert(value, p.propertyType).value;
    LookupAfterWrite(t, p, v, segment);
  }

  /** After a successful add of a readable property, testing the same value
      succeeds. */
  lemma AddThenTest(svc: Services, t: Poco, segment: string, value: Value)
    requires TryAdd(svc, t, segment, value).ok
    requires TryGetJsonProperty(t, segment).value.readable
    ensures TryTest(svc, TryAdd(svc, t, segment, value).target, segment, value) == Verdict(true, None)
  {
    var p := TryGetJsonProperty(t, segment).value;
    var v := svc.convert(value, p.propertyType).value;
    LookupAfterWrite(t, p, v, segment);
  }

  /** Adding the same value twice leaves the object as adding it once. */
  lemma AddIdempotent(svc: Services, t: Poco, segment: string, value: Value)
    ensures var once := TryAdd(svc, t, segment, value);
      TryAdd(svc, once.target, segment, value) == Update(once.ok, once.target, once.errorMessage)
  {
    var once := TryAdd(svc, t, segment, value);
    if once.ok {
      var p := TryGetJsonProperty(t, segment).value;
      var v := svc.convert(value, p.propertyType).value;
      LookupAfterWrite(t, p, v, segment);
      assert once.target.values[p.propertyName := v] == once.target.values;
    }
  }

  /** After a successful remove of a readable property, get yields the
      type's default instance or null. */
  lemma RemoveThenGet(svc: Services, t: Poco, segment: string)
    requires TryRemove(svc, t, segment).ok
    requires TryGetJsonProperty(t, segment).value.readable
    ensures TryGet(TryRemove(svc, t, segment).target, segment)
         == Read(true, ClearedValue(svc, TryGetJsonProperty(t, segment).value.propertyType), None)
  {
    var p := TryGetJsonProperty(t, segment).value;
    LookupAfterWrite(t, p, ClearedValue(svc, p.propertyType), segment);
  }

  /** Traverse agrees with get wherever get succeeds, and also succeeds on
      unreadable properties, where get fails. */
  lemma TraverseExtendsGet(t: Poco, segment: string)
    ensures TryGet(t, segment).ok ==> TryTraverse(Some(t), segment) == TryGet(t, segment)
    ensures TryGetJsonProperty(t, segment).Some? && !TryGetJsonProperty(t, segment).value.readable ==>
      !TryGet(t, segment).ok && TryTraverse(Some(t), segment).ok
  {
  }
}
