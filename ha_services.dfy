/**
 * Home Assistant service calls: flattening the services response into one
 * entry per (domain, service) pair, deriving the form fields of a service from
 * its field selectors, and the form's user data with per-field validation.
 *
 * The services response is an input; the `toYaml`/`fromYaml` converters are not
 * part of this model. The object validator calls `parse` from Node's `path`
 * module, whose only failure is a non-string argument; the form only passes it
 * strings, so it is modelled as never failing.
 */
module HAServices {
  import opened Wrappers
  import opened Strings

  /** The selector kinds of a service field. */
  datatype SelectorKind =
    | ObjectSel | TextSel | NumberSel | EntitySel | SelectSel | AreaSel | FloorSel
    | ConfigEntrySel | IconSel | LabelSel | DeviceSel | BooleanSel | ThemeSel

  /** A service field; `selector` holds the kinds whose entry is not `undefined` (a `null` entry counts). */
  datatype ServiceField = ServiceField(name: Option<string>, description: string, selector: Option<set<SelectorKind>>)

  /** A service's metadata; `targetEntity` says whether `target?.entity` is defined. */
  datatype ServiceMeta = ServiceMeta(name: string, description: string, fields: seq<(string, ServiceField)>, targetEntity: bool)

  /** One domain of the services response; `services` is `undefined` for some domains. */
  datatype Service = Service(domain: string, services: Option<seq<(string, ServiceMeta)>>)

  datatype ServiceCall = ServiceCall(domain: string, service: string, name: string, description: string, meta: ServiceMeta)

  /** A derived form field: its id, its type name and the field it came from. */
  datatype FieldState = FieldState(id: string, fieldType: string, meta: ServiceField)

  // ---------------------------------------------------------------- useServiceCalls

  /** The entries of one domain, in the order of its services. */
  function DomainCalls(domain: string, services: seq<(string, ServiceMeta)>): (r: seq<ServiceCall>)
    ensures |r| == |services|
    ensures forall j :: 0 <= j < |services| ==>
      r[j] == ServiceCall(domain, services[j].0, services[j].1.name, services[j].1.name, services[j].1)
  {
    seq(|services|, j requires 0 <= j < |services| =>
      ServiceCall(domain, services[j].0, services[j].1.name, services[j].1.name, services[j].1))
  }

  function ServiceCount(s: Service): nat
  {
    if s.services.Some? then |s.services.value| else 0
  }

  function TotalServices(services: seq<Service>): nat
    decreases |services|
  {
    if |services| == 0 then 0 else TotalServices(services[..|services| - 1]) + ServiceCount(services[|services| - 1])
  }

  /** The flattened list: each domain's entries in turn, skipping domains without services. */
  function Flattened(services: seq<Service>): (r: seq<ServiceCall>)
    decreases |services|
  {
    if |services| == 0 then []
    else
      var last := services[|services| - 1];
      Flattened(services[..|services| - 1]) + (if last.services.Some? then DomainCalls(last.domain, last.services.value) else [])
  }

  /** One entry per (domain, service) pair, each describing itself by the service's name. */
  lemma {:induction false} FlattenedShape(services: seq<Service>)
    ensures |Flattened(services)| == TotalServices(services)
    ensures forall c :: c in Flattened(services) ==> c.name == c.meta.name && c.description == c.meta.name
    decreases |services|
  {
    if |services| > 0 {
      FlattenedShape(services[..|services| - 1]);
    }
  }

  /** Every service of every domain that has services appears in the flattened list. */
  lemma {:induction false} FlattenedComplete(services: seq<Service>, i: int, j: int)
    requires 0 <= i < |services| && services[i].services.Some? && 0 <= j < |services[i].services.value|
    ensures var (name, meta) := services[i].services.value[j];
      ServiceCall(services[i].domain, name, meta.name, meta.name, meta) in Flattened(services)
    decreases |services|
  {
    if i < |services| - 1 {
      FlattenedComplete(services[..|services| - 1], i, j);
    } else {
      var d := DomainCalls(services[i].domain, services[i].services.value);
      assert d[j] in d;
    }
  }

  /** The query function of `useServiceCalls`, over the fetched response. */
  method ServiceCalls(services: Option<seq<Service>>) returns (result: seq<ServiceCall>)
    ensures services.None? ==> result == []
    ensures services.Some? ==> result == Flattened(services.value)
  {
    result := [];
    if services.Some? {
      var all := services.value;
      for i := 0 to |all|
        invariant result == Flattened(all[..i])
      {
        assert all[..i + 1][..i] == all[..i];
        var s := all[i];
        if s.services.Some? {
          var entries := s.services.value;
          ghost var before := result;
          for j := 0 to |entries|
            invariant result == before + DomainCalls(s.domain, entries[..j])
          {
            var (service, meta) := entries[j];
            assert DomainCalls(s.domain, entries[..j + 1]) == DomainCalls(s.domain, entries[..j]) + [ServiceCall(s.domain, service, meta.name, meta.name, meta)];
            result := result + [ServiceCall(s.domain, service, meta.name, meta.name, meta)];
          }
          assert entries[..|entries|] == entries;
        }
      }
      assert all[..|all|] == all;
    }
  }

  // ---------------------------------------------------------------- field derivation

  /** The position of a kind in the order the selectors are tried; boolean is never tried. */
  function Rank(k: SelectorKind): nat
  {
    match k
    case ObjectSel => 0
    case TextSel => 1
    case NumberSel => 2
    case EntitySel => 3
    case SelectSel => 4
    case AreaSel => 5
    case FloorSel => 6
    case ConfigEntrySel => 7
    case IconSel => 8
    case LabelSel => 9
    case DeviceSel => 10
    case ThemeSel => 11
    case BooleanSel => 12
  }

  function TypeName(k: SelectorKind): string
  {
    match k
    case ObjectSel => "object"
    case TextSel => "text"
    case NumberSel => "number"
    case EntitySel => "entity"
    case SelectSel => "select"
    case AreaSel => "area"
    case FloorSel => "floor"
    case ConfigEntrySel => "config_entry"
    case IconSel => "icon"
    case LabelSel => "label"
    case DeviceSel => "device"
    case BooleanSel => "boolean"
    case ThemeSel => "theme"
  }

  /**
   * The selector kind that decides a field's type: the first present kind in the
   * order object, text, number, entity, select, area, floor, config_entry, icon,
   * label, device, theme; none without a selector or with only a boolean entry.
   */
  function FieldKind(selector: Option<set<SelectorKind>>): (r: Option<SelectorKind>)
    ensures r.None? <==> selector.None? || forall k :: k in selector.value ==> k == BooleanSel
    ensures r.Some? ==> r.value in selector.value && r.value != BooleanSel
    ensures r.Some? ==> forall k :: k in selector.value && k != BooleanSel ==> Rank(r.value) <= Rank(k)
  {
    if selector.None? then None
    else
      var s := selector.value;
      if ObjectSel in s then Some(ObjectSel)
      else if TextSel in s then Some(TextSel)
      else if NumberSel in s then Some(NumberSel)
      else if EntitySel in s then Some(EntitySel)
      else if SelectSel in s then Some(SelectSel)
      else if TextSel in s then Some(TextSel)
      else if AreaSel in s then Some(AreaSel)
      else if FloorSel in s then Some(FloorSel)
      else if ConfigEntrySel in s then Some(ConfigEntrySel)
      else if IconSel in s then Some(IconSel)
      else if LabelSel in s then Some(LabelSel)
      else if DeviceSel in s then Some(DeviceSel)
      else if ThemeSel in s then Some(ThemeSel)
      else
        assert forall k :: k in s ==> Rank(k) == 12;
        None
  }

  /** The type name of the derived field, if the selector yields one. */
  function FieldType(selector: Option<set<SelectorKind>>): (r: Option<string>)
    ensures r.Some? <==> FieldKind(selector).Some?
    ensures r.Some? ==> r.value == TypeName(FieldKind(selector).value) && r.value != "target_entity"
  {
    match FieldKind(selector)
    case None => None
    case Some(k) => Some(TypeName(k))
  }

  const EntityIdField: FieldState := FieldState("entity_id", "target_entity", ServiceField(None, "", None))

  /** The fields derived from the service's field map, in its order; fields without a type are skipped. */
  function FieldsFrom(fields: seq<(string, ServiceField)>): seq<FieldState>
    decreases |fields|
  {
    if |fields| == 0 then []
    else
      var (k, v) := fields[|fields| - 1];
      FieldsFrom(fields[..|fields| - 1]) +
        (match FieldType(v.selector) case None => [] case Some(t) => [FieldState(k, t, v)])
  }

  /** The whole derived form: the target entity first, when the service targets entities. */
  function DerivedFields(meta: ServiceMeta): (r: seq<FieldState>)
    ensures meta.targetEntity <==> |r| > 0 && r[0] == EntityIdField
  {
    FieldsFromNoEntityId(meta.fields);
    (if meta.targetEntity then [EntityIdField] else []) + FieldsFrom(meta.fields)
  }

  /** No field of the map yields the target-entity type. */
  lemma {:induction false} FieldsFromNoEntityId(fields: seq<(string, ServiceField)>)
    ensures forall f :: f in FieldsFrom(fields) ==> f.fieldType != "target_entity"
    decreases |fields|
  {
    if |fields| > 0 {
      FieldsFromNoEntityId(fields[..|fields| - 1]);
    }
  }

  /** Deriving from a split field map derives each part in turn: the fields keep the map's order. */
  lemma {:induction false} FieldsFromAppend(a: seq<(string, ServiceField)>, b: seq<(string, ServiceField)>)
    ensures FieldsFrom(a + b) == FieldsFrom(a) + FieldsFrom(b)
    decreases |b|
  {
    if |b| == 0 {
      assert a + b == a;
    } else {
      assert (a + b)[..|a + b| - 1] == a + b[..|b| - 1];
      FieldsFromAppend(a, b[..|b| - 1]);
    }
  }

  /** Each field yields at most one derived field, carrying its key, its type and its metadata. */
  lemma {:induction false} FieldsFromOrigin(fields: seq<(string, ServiceField)>, f: FieldState)
    requires f in FieldsFrom(fields)
    ensures exists i :: 0 <= i < |fields| && fields[i].0 == f.id && fields[i].1 == f.meta &&
                        FieldType(fields[i].1.selector) == Some(f.fieldType)
    decreases |fields|
  {
    var n := |fields| - 1;
    if f in FieldsFrom(fields[..n]) {
      FieldsFromOrigin(fields[..n], f);
      var i :| 0 <= i < n && fields[..n][i].0 == f.id && fields[..n][i].1 == f.meta &&
        FieldType(fields[..n][i].1.selector) == Some(f.fieldType);
      assert fields[i] == fields[..n][i];
    } else {
      assert fields[n].0 == f.id;
    }
  }

  /** The number of derived fields is the number of fields whose selector has a type. */
  function TypedCount(fields: seq<(string, ServiceField)>): nat
    decreases |fields|
  {
    if |fields| == 0 then 0
    else TypedCount(fields[..|fields| - 1]) + (if FieldType(fields[|fields| - 1].1.selector).Some? then 1 else 0)
  }

  lemma {:induction false} FieldsFromCount(fields: seq<(string, ServiceField)>)
    ensures |FieldsFrom(fields)| == TypedCount(fields) <= |fields|
    decreases |fields|
  {
    if |fields| > 0 {
      FieldsFromCount(fields[..|fields| - 1]);
    }
  }

  // ---------------------------------------------------------------- validation

  /** The validator of an object field as written: blank input passes, anything else goes through `path.parse`, which accepts every string. */
  function ObjectValidator(userValue: Option<string>): (r: Option<string>)
    ensures r.None?
  {
    if userValue.Some? && userValue.value != "" && !IsBlank(userValue.value) then
      // `parse` from `path` returns normally on a string, so the catch branch is never taken.
      None
    else
      None
  }

  /** A non-blank object value that is not YAML is still accepted. */
  lemma ObjectValidatorAcceptsInvalidYaml(userValue: string, isYaml: string -> bool)
    requires !IsBlank(userValue) && !isYaml(userValue)
    ensures ObjectValidator(Some(userValue)).None?
    ensures YamlObjectValidator(Some(userValue), isYaml) == Some("No valid yaml")
  {
  }

  /**
   * The object validator with the YAML check its error message names: blank
   * input passes, and a non-blank value is rejected exactly when `isYaml` rejects it.
   */
  function YamlObjectValidator(userValue: Option<string>, isYaml: string -> bool): (r: Option<string>)
    ensures userValue.None? || IsBlank(userValue.value) ==> r.None?
    ensures userValue.Some? && !IsBlank(userValue.value) ==>
      (r.Some? <==> !isYaml(userValue.value)) && (r.Some? ==> r.value == "No valid yaml")
  {
    if userValue.Some? && userValue.value != "" && !IsBlank(userValue.value) then
      if isYaml(userValue.value) then None else Some("No valid yaml")
    else
      None
  }

  /** The validator of a derived field: only object fields check anything. */
  function Validate(f: FieldState, userValue: Option<string>, isYaml: string -> bool): (r: Option<string>)
    ensures f.fieldType != "object" ==> r.None?
    ensures f.fieldType == "object" && userValue.Some? && !IsBlank(userValue.value) ==>
      (r.Some? <==> !isYaml(userValue.value))
    ensures f.fieldType == "object" && (userValue.None? || IsBlank(userValue.value)) ==> r.None?
  {
    if f.fieldType == "object" then YamlObjectValidator(userValue, isYaml) else None
  }

  /** `fields.find((f) => f.id === key)` */
  function FindField(fields: seq<FieldState>, key: string): (r: Option<FieldState>)
    ensures r.Some? ==> r.value in fields && r.value.id == key
    ensures r.None? <==> forall f :: f in fields ==> f.id != key
    ensures r.Some? ==> exists j :: 0 <= j < |fields| && fields[j] == r.value && forall i :: 0 <= i < j ==> fields[i].id != key
    decreases |fields|
  {
    if |fields| == 0 then None
    else if fields[0].id == key then Some(fields[0])
    else FindField(fields[1..], key)
  }

  /** The loop of the effect that derives the form fields of a service. */
  method DeriveFields(meta: ServiceMeta) returns (result: seq<FieldState>)
    ensures result == DerivedFields(meta)
  {
    result := [];
    if meta.targetEntity {
      result := result + [EntityIdField];
    }
    ghost var head := result;
    for i := 0 to |meta.fields|
      invariant result == head + FieldsFrom(meta.fields[..i])
    {
      var (k, v) := meta.fields[i];
      var t := FieldType(v.selector);
      assert meta.fields[..i + 1][..i] == meta.fields[..i] && meta.fields[..i + 1][i] == (k, v);
      assert FieldsFrom(meta.fields[..i + 1]) ==
        FieldsFrom(meta.fields[..i]) + (if t.Some? then [FieldState(k, t.value, v)] else []);
      if t.Some? {
        result := result + [FieldState(k, t.value, v)];
      }
    }
    assert meta.fields[..|meta.fields|] == meta.fields;
  }

  /** The state of the service-call form. */
  class ServiceCallForm {
    var fields: seq<FieldState>
    var userData: map<string, string>
    var userDataError: map<string, Option<string>>
    /** The YAML check of object fields. */
    const isYaml: string -> bool

    constructor (isYaml: string -> bool)
      ensures fields == [] && userData == map[] && userDataError == map[]
      ensures this.isYaml == isYaml
    {
      fields := [];
      userData := map[];
      userDataError := map[];
      this.isYaml := isYaml;
    }

    /** The effect that derives the fields of a service call and resets the user data. */
    method Rebuild(serviceCall: Option<ServiceCall>)
      modifies this
      ensures serviceCall.None? ==> fields == old(fields) && userData == old(userData) && userDataError == old(userDataError)
      ensures serviceCall.Some? ==> fields == DerivedFields(serviceCall.value.meta)
      ensures serviceCall.Some? ==> userData == map[] && userDataError == map[]
    {
      if serviceCall.None? {
        return;
      }
      var result := DeriveFields(serviceCall.value.meta);
      fields := result;
      userData := map[];
      userDataError := map[];
    }

    /** `setUserDataByKey` */
    method SetUserDataByKey(key: string, value: string)
      modifies this
      ensures fields == old(fields)
      ensures userData == old(userData)[key := value]
      ensures FindField(fields, key).Some? ==>
        userDataError == old(userDataError)[key := Validate(FindField(fields, key).value, Some(value), isYaml)]
      ensures FindField(fields, key).None? ==> userDataError == old(userDataError)
    {
      userData := userData[key := value];
      var field := FindField(fields, key);
      if field.Some? {
        userDataError := userDataError[key := Validate(field.value, Some(value), isYaml)];
      }
    }
  }
}
