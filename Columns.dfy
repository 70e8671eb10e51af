/**
 * src/Column.php: the #[Column] properties of a class, computed once per
 * class and cached, and the current values of those of them an object has
 * initialized (Base::getAttributes).
 */
module Columns {
  import opened Wrappers
  import opened ExpressionTree
  import opened Schema

  /** getAttributes(Column::class)[0] ?? null: the property carries the Column attribute itself. */
  predicate HasColumn(p: PropertyDecl) {
    ColumnMarker in p.markers
  }

  /** getClassProperties: the Column properties, in declaration order. */
  function ColumnProperties(props: seq<PropertyDecl>): (r: seq<PropertyDecl>)
    ensures forall p :: p in r <==> p in props && HasColumn(p)
    ensures |r| <= |props|
  {
    if |props| == 0 then []
    else (if HasColumn(props[0]) then [props[0]] else []) + ColumnProperties(props[1..])
  }

  /** Selection keeps declaration order: it distributes over concatenation. */
  lemma {:induction false} ColumnPropertiesAppend(a: seq<PropertyDecl>, b: seq<PropertyDecl>)
    ensures ColumnProperties(a + b) == ColumnProperties(a) + ColumnProperties(b)
  {
    if |a| == 0 {
      assert a + b == b;
    } else {
      assert (a + b)[0] == a[0];
      assert (a + b)[1..] == a[1..] + b;
      ColumnPropertiesAppend(a[1..], b);
    }
  }

  lemma {:induction false} ColumnPropertiesStep(all: seq<PropertyDecl>, i: nat)
    requires i < |all|
    ensures ColumnProperties(all[..i + 1]) == ColumnProperties(all[..i]) + (if HasColumn(all[i]) then [all[i]] else [])
  {
    assert all[..i + 1] == all[..i] + [all[i]];
    ColumnPropertiesAppend(all[..i], [all[i]]);
    assert ColumnProperties([all[i]]) == (if HasColumn(all[i]) then [all[i]] else []) + ColumnProperties([]);
  }

  /** The name => value pairs of the initialized properties among `props`, in their order. */
  function ObjectValues(props: seq<PropertyDecl>, values: map<string, Mixed>): (r: seq<(string, Mixed)>)
    ensures |r| <= |props|
    ensures forall k :: 0 <= k < |r| ==> r[k].0 in values && r[k].1 == values[r[k].0]
    ensures forall k :: 0 <= k < |r| ==> exists j :: 0 <= j < |props| && props[j].name == r[k].0
    ensures forall j :: 0 <= j < |props| && props[j].name in values ==> (props[j].name, values[props[j].name]) in r
  {
    if |props| == 0 then []
    else
      var rest := ObjectValues(props[1..], values);
      assert forall k :: 0 <= k < |rest| ==> exists j :: 0 <= j < |props| && props[j].name == rest[k].0 by {
        forall k | 0 <= k < |rest|
          ensures exists j :: 0 <= j < |props| && props[j].name == rest[k].0
        {
          var j :| 0 <= j < |props[1..]| && props[1..][j].name == rest[k].0;
          assert props[j + 1].name == rest[k].0;
        }
      }
      (if props[0].name in values then [(props[0].name, values[props[0].name])] else []) + rest
  }

  lemma {:induction false} ObjectValuesAppend(a: seq<PropertyDecl>, b: seq<PropertyDecl>, values: map<string, Mixed>)
    ensures ObjectValues(a + b, values) == ObjectValues(a, values) + ObjectValues(b, values)
  {
    if |a| == 0 {
      assert a + b == b;
    } else {
      assert (a + b)[0] == a[0];
      assert (a + b)[1..] == a[1..] + b;
      ObjectValuesAppend(a[1..], b, values);
    }
  }

  lemma {:induction false} ObjectValuesStep(props: seq<PropertyDecl>, values: map<string, Mixed>, i: nat)
    requires i < |props|
    ensures ObjectValues(props[..i + 1], values) ==
            ObjectValues(props[..i], values) + (if props[i].name in values then [(props[i].name, values[props[i].name])] else [])
  {
    assert props[..i + 1] == props[..i] + [props[i]];
    ObjectValuesAppend(props[..i], [props[i]], values);
    assert ObjectValues([props[i]], values) ==
           (if props[i].name in values then [(props[i].name, values[props[i].name])] else []) + ObjectValues([], values);
  }

  /** An unmarked property never appears among an object's column values. */
  lemma {:induction false} UnmarkedNeverListed(props: seq<PropertyDecl>, values: map<string, Mixed>, p: PropertyDecl)
    requires DistinctNames(props) && p in props && !HasColumn(p)
    ensures forall k :: 0 <= k < |ObjectValues(ColumnProperties(props), values)| ==>
              ObjectValues(ColumnProperties(props), values)[k].0 != p.name
  {
    var cols := ColumnProperties(props);
    forall k | 0 <= k < |ObjectValues(cols, values)|
      ensures ObjectValues(cols, values)[k].0 != p.name
    {
      var j :| 0 <= j < |cols| && cols[j].name == ObjectValues(cols, values)[k].0;
      assert cols[j] in props && HasColumn(cols[j]);
      var i :| 0 <= i < |props| && props[i] == cols[j];
      var i' :| 0 <= i' < |props| && props[i'] == p;
      assert i != i';
    }
  }

  /** The loop of getClassProperties. */
  method GetClassProperties(cls: ClassSchema) returns (props: seq<PropertyDecl>)
    ensures props == ColumnProperties(cls.properties)
  {
    props := [];
    var i := 0;
    while i < |cls.properties|
      invariant 0 <= i <= |cls.properties|
      invariant props == ColumnProperties(cls.properties[..i])
    {
      if ColumnMarker in cls.properties[i].markers {
        props := props + [cls.properties[i]];
      }
      ColumnPropertiesStep(cls.properties, i);
      i := i + 1;
    }
    assert cls.properties[..i] == cls.properties;
  }

  /** The loop of getObjectValues over the (cached) column properties. */
  method CollectValues(props: seq<PropertyDecl>, values: map<string, Mixed>) returns (r: seq<(string, Mixed)>)
    ensures r == ObjectValues(props, values)
  {
    r := [];
    var i := 0;
    while i < |props|
      invariant 0 <= i <= |props|
      invariant r == ObjectValues(props[..i], values)
    {
      if props[i].name in values {
        r := r + [(props[i].name, values[props[i].name])];
      }
      ObjectValuesStep(props, values, i);
      i := i + 1;
    }
    assert props[..i] == props;
  }

  /** The static $classProperties cache, over a fixed table of the classes that exist. */
  class ColumnCache {
    const classes: map<string, ClassSchema>
    var classProperties: map<string, seq<PropertyDecl>>

    /** Every cached entry is what getClassProperties computes for that class. */
    predicate Valid()
      reads this
    {
      forall c :: c in classProperties ==> c in classes && classProperties[c] == ColumnProperties(classes[c].properties)
    }

    constructor (classes: map<string, ClassSchema>)
      ensures this.classes == classes && classProperties == map[] && Valid()
    {
      this.classes := classes;
      classProperties := map[];
    }

    /**
     * Column::getObjectValues(object): the first call for a class fills its
     * entry (`??=`); later calls reuse it unchanged.
     */
    method GetObjectValues(cls: string, values: map<string, Mixed>) returns (r: seq<(string, Mixed)>)
      requires Valid() && cls in classes
      modifies this
      ensures Valid()
      ensures r == ObjectValues(ColumnProperties(classes[cls].properties), values)
      ensures cls in old(classProperties) ==> classProperties == old(classProperties)
      ensures cls !in old(classProperties) ==>
                classProperties == old(classProperties)[cls := ColumnProperties(classes[cls].properties)]
    {
      if cls !in classProperties {
        var props := GetClassProperties(classes[cls]);
        classProperties := classProperties[cls := props];
      }
      r := CollectValues(classProperties[cls], values);
    }
  }
}
