/**
 * src/PropertyAttribute.php and src/PrimaryKey.php: the properties that carry
 * an attribute of the calling class (matched with IS_INSTANCEOF), their
 * values, one bound instance per matching attribute, and the single named
 * lookup. PrimaryKey is the one concrete PropertyAttribute of the core, so
 * static::class is PrimaryKey throughout.
 */
module PropertyAttributes {
  import opened Wrappers
  import opened ExpressionTree
  import opened Schema
  import opened Columns

  const PrimaryKeyClass := "Gforces\\ActiveRecord\\PrimaryKey"

  /** An attribute that is an instance of PrimaryKey. */
  predicate IsPrimaryKey(m: Marker) {
    m.PrimaryKeyMarker?
  }

  /** getPropertyAttributes(property): the matching attributes, in source order. */
  function KeyMarkers(markers: seq<Marker>): (r: seq<Marker>)
    ensures |r| <= |markers|
    ensures forall k :: 0 <= k < |r| ==> IsPrimaryKey(r[k])
    ensures |r| == 0 <==> forall k :: 0 <= k < |markers| ==> !IsPrimaryKey(markers[k])
  {
    if |markers| == 0 then []
    else (if IsPrimaryKey(markers[0]) then [markers[0]] else []) + KeyMarkers(markers[1..])
  }

  predicate HasKey(p: PropertyDecl) {
    |KeyMarkers(p.markers)| > 0
  }

  /** getProperties(class): the properties with at least one matching attribute, in declaration order. */
  function KeyProperties(props: seq<PropertyDecl>): (r: seq<PropertyDecl>)
    ensures forall p :: p in r <==> p in props && HasKey(p)
    ensures |r| <= |props|
  {
    if |props| == 0 then []
    else (if HasKey(props[0]) then [props[0]] else []) + KeyProperties(props[1..])
  }

  lemma {:induction false} KeyPropertiesAppend(a: seq<PropertyDecl>, b: seq<PropertyDecl>)
    ensures KeyProperties(a + b) == KeyProperties(a) + KeyProperties(b)
  {
    if |a| == 0 {
      assert a + b == b;
    } else {
      assert (a + b)[0] == a[0];
      assert (a + b)[1..] == a[1..] + b;
      KeyPropertiesAppend(a[1..], b);
    }
  }

  lemma {:induction false} KeyPropertiesStep(all: seq<PropertyDecl>, i: nat)
    requires i < |all|
    ensures KeyProperties(all[..i + 1]) == KeyProperties(all[..i]) + (if HasKey(all[i]) then [all[i]] else [])
  {
    assert all[..i + 1] == all[..i] + [all[i]];
    KeyPropertiesAppend(all[..i], [all[i]]);
    assert KeyProperties([all[i]]) == (if HasKey(all[i]) then [all[i]] else []) + KeyProperties([]);
  }

  /** An attribute instance with its `property` assigned. */
  datatype BoundAttribute = BoundAttribute(attribute: Marker, property: PropertyDecl)

  function Bind(p: PropertyDecl, markers: seq<Marker>): (r: seq<BoundAttribute>)
    ensures |r| == |markers|
    ensures forall k :: 0 <= k < |r| ==> r[k] == BoundAttribute(markers[k], p)
  {
    if |markers| == 0 then [] else [BoundAttribute(markers[0], p)] + Bind(p, markers[1..])
  }

  /** getAll(class): one instance per matching attribute, property by property. */
  function AllBound(props: seq<PropertyDecl>): seq<BoundAttribute> {
    if |props| == 0 then [] else Bind(props[0], KeyMarkers(props[0].markers)) + AllBound(props[1..])
  }

  lemma {:induction false} AllBoundAppend(a: seq<PropertyDecl>, b: seq<PropertyDecl>)
    ensures AllBound(a + b) == AllBound(a) + AllBound(b)
  {
    if |a| == 0 {
      assert a + b == b;
    } else {
      assert (a + b)[0] == a[0];
      assert (a + b)[1..] == a[1..] + b;
      AllBoundAppend(a[1..], b);
    }
  }

  lemma {:induction false} AllBoundStep(all: seq<PropertyDecl>, i: nat)
    requires i < |all|
    ensures AllBound(all[..i + 1]) == AllBound(all[..i]) + Bind(all[i], KeyMarkers(all[i].markers))
  {
    assert all[..i + 1] == all[..i] + [all[i]];
    AllBoundAppend(all[..i], [all[i]]);
    assert AllBound([all[i]]) == Bind(all[i], KeyMarkers(all[i].markers)) + AllBound([]);
  }

  /** Every instance getAll yields is a PrimaryKey bound to a property of the class. */
  lemma {:induction false} AllBoundSound(props: seq<PropertyDecl>)
    ensures forall k :: 0 <= k < |AllBound(props)| ==>
              IsPrimaryKey(AllBound(props)[k].attribute) && AllBound(props)[k].property in props
  {
    if |props| > 0 {
      AllBoundSound(props[1..]);
      var head := Bind(props[0], KeyMarkers(props[0].markers));
      assert AllBound(props) == head + AllBound(props[1..]);
      forall k | 0 <= k < |AllBound(props)|
        ensures IsPrimaryKey(AllBound(props)[k].attribute) && AllBound(props)[k].property in props
      {
        if k >= |head| {
          assert AllBound(props)[k] == AllBound(props[1..])[k - |head|];
        }
      }
    }
  }

  /** Walking only getProperties' result loses nothing: unmarked properties bind no instance. */
  lemma {:induction false} AllBoundOfKeyProperties(props: seq<PropertyDecl>)
    ensures AllBound(KeyProperties(props)) == AllBound(props)
  {
    if |props| > 0 {
      AllBoundOfKeyProperties(props[1..]);
      if HasKey(props[0]) {
        assert KeyProperties(props) == [props[0]] + KeyProperties(props[1..]);
        assert ([props[0]] + KeyProperties(props[1..]))[1..] == KeyProperties(props[1..]);
      } else {
        assert KeyProperties(props) == KeyProperties(props[1..]);
        assert Bind(props[0], KeyMarkers(props[0].markers)) == [];
      }
    }
  }

  /** The loop of getProperties. */
  method GetProperties(cls: ClassSchema) returns (props: seq<PropertyDecl>)
    ensures props == KeyProperties(cls.properties)
  {
    props := [];
    var i := 0;
    while i < |cls.properties|
      invariant 0 <= i <= |cls.properties|
      invariant props == KeyProperties(cls.properties[..i])
    {
      if HasKey(cls.properties[i]) {
        props := props + [cls.properties[i]];
      }
      KeyPropertiesStep(cls.properties, i);
      i := i + 1;
    }
    assert cls.properties[..i] == cls.properties;
  }

  /** getValues(object): the initialized key properties and their values. */
  method GetValues(cls: ClassSchema, values: map<string, Mixed>) returns (r: seq<(string, Mixed)>)
    ensures r == ObjectValues(KeyProperties(cls.properties), values)
  {
    var props := GetProperties(cls);
    r := CollectValues(props, values);
  }

  lemma {:induction false} BindAppend(p: PropertyDecl, a: seq<Marker>, m: Marker)
    ensures Bind(p, a + [m]) == Bind(p, a) + [BoundAttribute(m, p)]
  {
    if |a| > 0 {
      assert (a + [m])[1..] == a[1..] + [m];
      BindAppend(p, a[1..], m);
    }
  }

  /** The inner loop of getAll: one instance per attribute of one property. */
  method BindEach(p: PropertyDecl, attributes: seq<Marker>) returns (bound: seq<BoundAttribute>)
    ensures bound == Bind(p, attributes)
  {
    bound := [];
    var j := 0;
    while j < |attributes|
      invariant 0 <= j <= |attributes|
      invariant bound == Bind(p, attributes[..j])
    {
      bound := bound + [BoundAttribute(attributes[j], p)];
      assert attributes[..j + 1] == attributes[..j] + [attributes[j]];
      BindAppend(p, attributes[..j], attributes[j]);
      j := j + 1;
    }
    assert attributes[..j] == attributes;
  }

  /** The nested loop of getAll. */
  method GetAll(cls: ClassSchema) returns (instances: seq<BoundAttribute>)
    ensures instances == AllBound(cls.properties)
  {
    var props := GetProperties(cls);
    instances := [];
    var i := 0;
    while i < |props|
      invariant 0 <= i <= |props|
      invariant instances == AllBound(props[..i])
    {
      var bound := BindEach(props[i], KeyMarkers(props[i].markers));
      instances := instances + bound;
      AllBoundStep(props, i);
      i := i + 1;
    }
    assert props[..i] == props;
    AllBoundOfKeyProperties(cls.properties);
  }

  /** get(class, property): the first matching attribute bound to the named property. */
  function Get(cls: ClassSchema, name: string): (r: Result<BoundAttribute>)
    ensures FindProperty(cls.properties, name).None? ==>
              r == Failure(Error(RecordException, NoSuchProperty(cls.className, name).message))
    ensures FindProperty(cls.properties, name).Some? && !HasKey(FindProperty(cls.properties, name).value) ==>
              r.Failure? && r.error.kind == RecordException
    ensures r.Success? <==> FindProperty(cls.properties, name).Some? && HasKey(FindProperty(cls.properties, name).value)
    ensures r.Success? ==> r.value.property.name == name && IsPrimaryKey(r.value.attribute)
    ensures r.Success? ==> HasKey(r.value.property) && r.value.attribute == KeyMarkers(r.value.property.markers)[0]
  {
    match FindProperty(cls.properties, name)
    case None => Failure(Error(RecordException, NoSuchProperty(cls.className, name).message))
    case Some(p) =>
      var attributes := KeyMarkers(p.markers);
      if |attributes| == 0 then
        Failure(Error(RecordException, cls.className + "::Property [ $" + name + " ] has no " + PrimaryKeyClass + " attribute"))
      else Success(BoundAttribute(attributes[0], p))
  }

  /** Column::get(class, 'id'), which the shown code calls but does not define: the Column property of that name. */
  function ColumnGet(cls: ClassSchema, name: string): (r: Result<PropertyDecl>)
    ensures r.Success? ==> r.value.name == name && HasColumn(r.value) && r.value in cls.properties
  {
    match FindProperty(cls.properties, name)
    case None => Failure(Error(RecordException, NoSuchProperty(cls.className, name).message))
    case Some(p) => if HasColumn(p) then Success(p) else Failure(Error(RecordException, "column " + name + " not found"))
  }

  /**
   * PrimaryKey::getValues(object): the initialized key properties when there
   * are any, else ['id' => id column value]; no id column is an exception, an
   * uninitialized id the Error of reading it.
   */
  function PrimaryKeyValues(cls: ClassSchema, values: map<string, Mixed>): (r: Result<seq<(string, Mixed)>>)
    ensures |ObjectValues(KeyProperties(cls.properties), values)| > 0 ==>
              r == Success(ObjectValues(KeyProperties(cls.properties), values))
    ensures |ObjectValues(KeyProperties(cls.properties), values)| == 0 && ColumnGet(cls, "id").Failure? ==>
              r == Failure(Error(RecordException, "No primary key found for " + cls.className))
    ensures |ObjectValues(KeyProperties(cls.properties), values)| == 0 && ColumnGet(cls, "id").Success? ==>
              (if "id" in values then r == Success([("id", values["id"])]) else r == Failure(Uninitialized(cls.className, "id")))
  {
    var keys := ObjectValues(KeyProperties(cls.properties), values);
    if |keys| > 0 then Success(keys)
    else if ColumnGet(cls, "id").Failure? then Failure(Error(RecordException, "No primary key found for " + cls.className))
    else
      var id :- ReadProperty(cls.className, values, "id");
      Success([("id", id)])
  }

  /** Key properties that exist but are all uninitialized fall back to id, as if there were none. */
  lemma {:induction false} UninitializedKeysFallBack(cls: ClassSchema, values: map<string, Mixed>)
    requires forall p :: p in cls.properties && HasKey(p) ==> p.name !in values
    requires ColumnGet(cls, "id").Success? && "id" in values
    ensures PrimaryKeyValues(cls, values) == Success([("id", values["id"])])
  {
    var keys := ObjectValues(KeyProperties(cls.properties), values);
    if |keys| > 0 {
      var j :| 0 <= j < |KeyProperties(cls.properties)| && KeyProperties(cls.properties)[j].name == keys[0].0;
      assert KeyProperties(cls.properties)[j] in KeyProperties(cls.properties);
    }
  }

  /** An initialized key property is always among the values returned. */
  lemma {:induction false} InitializedKeyReturned(cls: ClassSchema, values: map<string, Mixed>, p: PropertyDecl)
    requires p in cls.properties && HasKey(p) && p.name in values
    ensures PrimaryKeyValues(cls, values).Success?
    ensures (p.name, values[p.name]) in PrimaryKeyValues(cls, values).value
  {
    var props := KeyProperties(cls.properties);
    assert p in props;
    var j :| 0 <= j < |props| && props[j] == p;
    assert (props[j].name, values[props[j].name]) in ObjectValues(props, values);
  }
}
