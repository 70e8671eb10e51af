/**
 * src/Association.php and src/Associations/: which properties of a class are
 * associations, the naming defaults, what each kind of association loads, and
 * the statements a has-and-belongs-to-many save issues for its id sets.
 *
 * A load is modelled by the query it sends (if any) and the value it yields,
 * given the rows the database returns for that query. The save loop over the
 * related objects is in the Persistence module, which owns the records.
 */
module Associations {
  import opened Wrappers
  import opened Strings
  import opened ExpressionTree
  import opened Rendering
  import opened Schema
  import opened Statements

  // ---------------------------------------------------------------------------
  // Discovery

  /** An association attribute instance with its `property` assigned. */
  datatype Association = Association(attribute: Marker, property: PropertyDecl)

  /** The first attribute of a property whose class extends Association. */
  function FirstAssociation(markers: seq<Marker>): (r: Option<Marker>)
    ensures r.None? <==> forall k :: 0 <= k < |markers| ==> !IsAssociation(markers[k])
    ensures r.Some? ==> exists k :: 0 <= k < |markers| && markers[k] == r.value && IsAssociation(markers[k]) &&
                          forall j :: 0 <= j < k ==> !IsAssociation(markers[j])
  {
    if |markers| == 0 then None
    else if IsAssociation(markers[0]) then Some(markers[0])
    else
      var rest := FirstAssociation(markers[1..]);
      if rest.Some? then
        assert exists k :: 0 <= k < |markers| && markers[k] == rest.value && IsAssociation(markers[k]) &&
                           forall j :: 0 <= j < k ==> !IsAssociation(markers[j]) by {
          var k :| 0 <= k < |markers[1..]| && markers[1..][k] == rest.value && IsAssociation(markers[1..][k]) &&
                   forall j :: 0 <= j < k ==> !IsAssociation(markers[1..][j]);
          assert markers[k + 1] == rest.value;
          forall j | 0 <= j < k + 1 ensures !IsAssociation(markers[j]) {
            if j > 0 { assert markers[j] == markers[1..][j - 1]; }
          }
        }
        rest
      else rest
  }

  function NotAnAssociation(name: string): Error {
    Error(RecordException, "Property " + name + " is not valid association")
  }

  /** getAssociationFromProperty: the first association attribute bound to the property, else an exception. */
  function AssociationFromProperty(p: PropertyDecl): (r: Result<Association>)
    ensures r.Success? <==> exists k :: 0 <= k < |p.markers| && IsAssociation(p.markers[k])
    ensures r.Success? ==> r.value.property == p && Some(r.value.attribute) == FirstAssociation(p.markers)
    ensures r.Failure? ==> r.error == NotAnAssociation(p.name)
  {
    match FirstAssociation(p.markers)
    case Some(m) => Success(Association(m, p))
    case None => Failure(NotAnAssociation(p.name))
  }

  /** The loop of getAssociationFromProperty, returning at the first match. */
  method GetAssociationFromProperty(p: PropertyDecl) returns (r: Result<Association>)
    ensures r == AssociationFromProperty(p)
  {
    var i := 0;
    while i < |p.markers|
      invariant 0 <= i <= |p.markers|
      invariant FirstAssociation(p.markers[i..]) == FirstAssociation(p.markers)
    {
      if IsAssociation(p.markers[i]) {
        return Success(Association(p.markers[i], p));
      }
      assert p.markers[i..][1..] == p.markers[i + 1..];
      i := i + 1;
    }
    return Failure(NotAnAssociation(p.name));
  }

  predicate HasAssociation(p: PropertyDecl) {
    exists k :: 0 <= k < |p.markers| && IsAssociation(p.markers[k])
  }

  /** What getAll keeps of one property: its association, or nothing when the lookup throws. */
  function PropertyAssociations(p: PropertyDecl): (r: seq<Association>)
    ensures |r| <= 1
    ensures |r| == 1 <==> HasAssociation(p)
    ensures |r| == 1 ==> r[0] == AssociationFromProperty(p).value && r[0].property == p && IsAssociation(r[0].attribute)
  {
    if AssociationFromProperty(p).Success? then [AssociationFromProperty(p).value] else []
  }

  /** getAll(class): at most one association per property, in declaration order; the rest skipped. */
  function AssociationsOf(props: seq<PropertyDecl>): seq<Association> {
    if |props| == 0 then [] else PropertyAssociations(props[0]) + AssociationsOf(props[1..])
  }

  lemma {:induction false} AssociationsOfAppend(a: seq<PropertyDecl>, b: seq<PropertyDecl>)
    ensures AssociationsOf(a + b) == AssociationsOf(a) + AssociationsOf(b)
  {
    if |a| == 0 {
      assert a + b == b;
    } else {
      assert (a + b)[0] == a[0];
      assert (a + b)[1..] == a[1..] + b;
      AssociationsOfAppend(a[1..], b);
    }
  }

  lemma {:induction false} AssociationsOfStep(all: seq<PropertyDecl>, i: nat)
    requires i < |all|
    ensures AssociationsOf(all[..i + 1]) == AssociationsOf(all[..i]) + PropertyAssociations(all[i])
  {
    assert all[..i + 1] == all[..i] + [all[i]];
    AssociationsOfAppend(all[..i], [all[i]]);
    assert AssociationsOf([all[i]]) == PropertyAssociations(all[i]) + AssociationsOf([]);
  }

  /**
   * getAll yields one association for exactly the properties that carry an
   * association attribute, each bound to its property, and at most one per property.
   */
  lemma {:induction false} AssociationsOfSound(props: seq<PropertyDecl>)
    ensures |AssociationsOf(props)| <= |props|
    ensures forall k :: 0 <= k < |AssociationsOf(props)| ==>
              AssociationsOf(props)[k].property in props && HasAssociation(AssociationsOf(props)[k].property) &&
              IsAssociation(AssociationsOf(props)[k].attribute)
    ensures forall p :: p in props && HasAssociation(p) ==> AssociationFromProperty(p).value in AssociationsOf(props)
  {
    AssociationsOfBound(props);
    AssociationsOfMembers(props);
    AssociationsOfComplete(props);
  }

  lemma {:induction false} AssociationsOfBound(props: seq<PropertyDecl>)
    ensures |AssociationsOf(props)| <= |props|
  {
    if |props| > 0 {
      AssociationsOfBound(props[1..]);
    }
  }

  lemma {:induction false} AssociationsOfMembers(props: seq<PropertyDecl>)
    ensures forall k :: 0 <= k < |AssociationsOf(props)| ==>
              AssociationsOf(props)[k].property in props && HasAssociation(AssociationsOf(props)[k].property) &&
              IsAssociation(AssociationsOf(props)[k].attribute)
  {
    if |props| > 0 {
      AssociationsOfMembers(props[1..]);
      var head := PropertyAssociations(props[0]);
      var tail := AssociationsOf(props[1..]);
      var all := AssociationsOf(props);
      assert all == head + tail;
      forall k | 0 <= k < |all|
        ensures all[k].property in props && HasAssociation(all[k].property) && IsAssociation(all[k].attribute)
      {
        if k >= |head| {
          assert all[k] == tail[k - |head|];
          assert tail[k - |head|].property in props[1..];
        }
      }
    }
  }

  lemma {:induction false} AssociationsOfComplete(props: seq<PropertyDecl>)
    ensures forall p :: p in props && HasAssociation(p) ==> AssociationFromProperty(p).value in AssociationsOf(props)
  {
    if |props| > 0 {
      AssociationsOfComplete(props[1..]);
      var head := PropertyAssociations(props[0]);
      var tail := AssociationsOf(props[1..]);
      assert AssociationsOf(props) == head + tail;
      forall p | p in props && HasAssociation(p)
        ensures AssociationFromProperty(p).value in head + tail
      {
        if p != props[0] {
          assert p in props[1..];
        }
      }
    }
  }

  /** The loop of getAll, which catches getAssociationFromProperty's exception. */
  method GetAll(cls: ClassSchema) returns (associations: seq<Association>)
    ensures associations == AssociationsOf(cls.properties)
  {
    associations := [];
    var i := 0;
    while i < |cls.properties|
      invariant 0 <= i <= |cls.properties|
      invariant associations == AssociationsOf(cls.properties[..i])
    {
      var r := GetAssociationFromProperty(cls.properties[i]);
      if r.Success? {
        associations := associations + [r.value];
      }
      AssociationsOfStep(cls.properties, i);
      i := i + 1;
    }
    assert cls.properties[..i] == cls.properties;
  }

  /** get(class, property): a missing property is a ReflectionException; others as getAssociationFromProperty. */
  function Get(cls: ClassSchema, name: string): (r: Result<Association>)
    ensures FindProperty(cls.properties, name).None? ==> r == Failure(NoSuchProperty(cls.className, name))
    ensures FindProperty(cls.properties, name).Some? ==> r == AssociationFromProperty(FindProperty(cls.properties, name).value)
  {
    match FindProperty(cls.properties, name)
    case None => Failure(NoSuchProperty(cls.className, name))
    case Some(p) => AssociationFromProperty(p)
  }

  /** The single lookup and the bulk discovery agree: get succeeds exactly for the properties getAll lists. */
  lemma {:induction false} GetAgreesWithGetAll(cls: ClassSchema, p: PropertyDecl)
    requires DistinctNames(cls.properties) && p in cls.properties
    ensures Get(cls, p.name).Success? <==> HasAssociation(p)
    ensures Get(cls, p.name).Success? ==> Get(cls, p.name).value in AssociationsOf(cls.properties)
    ensures Get(cls, p.name).Failure? ==> Get(cls, p.name).error == NotAnAssociation(p.name)
  {
    var found := FindProperty(cls.properties, p.name);
    assert found.Some?;
    var i :| 0 <= i < |cls.properties| && cls.properties[i] == found.value;
    var j :| 0 <= j < |cls.properties| && cls.properties[j] == p;
    assert i == j;
    AssociationsOfSound(cls.properties);
  }

  // ---------------------------------------------------------------------------
  // Naming

  /** getClassFromArrayShape: the class of the first ArrayShape attribute, else "". */
  function ClassFromArrayShape(markers: seq<Marker>): (r: string)
    ensures (forall k :: 0 <= k < |markers| ==> !markers[k].ArrayShapeMarker?) ==> r == ""
  {
    if |markers| == 0 then ""
    else if markers[0].ArrayShapeMarker? then markers[0].shapeClass
    else ClassFromArrayShape(markers[1..])
  }

  /** Whatever precedes and follows it, the first ArrayShape attribute decides the class. */
  lemma {:induction false} ArrayShapeFirstWins(markers: seq<Marker>, k: nat)
    requires k < |markers| && markers[k].ArrayShapeMarker?
    requires forall j :: 0 <= j < k ==> !markers[j].ArrayShapeMarker?
    ensures ClassFromArrayShape(markers) == markers[k].shapeClass
  {
    if k > 0 {
      assert !markers[0].ArrayShapeMarker?;
      assert forall j :: 0 <= j < k - 1 ==> markers[1..][j] == markers[j + 1];
      ArrayShapeFirstWins(markers[1..], k - 1);
    }
  }

  /** `$this->relatedClass ?: $this->getClassFromArrayShape($this->property)` */
  function RelatedClass(configured: string, p: PropertyDecl): string {
    if Truthy(configured) then configured else ClassFromArrayShape(p.markers)
  }

  /** `$configured ?: $table . '_id'` */
  function ForeignKey(configured: string, table: string): (r: string)
    ensures Truthy(configured) ==> r == configured
    ensures !Truthy(configured) ==> r == table + "_id"
  {
    if Truthy(configured) then configured else table + "_id"
  }

  /** The default intermediate table: the two table names in strcmp order, joined by '_'. */
  function DefaultIntermediate(objectTable: string, relatedTable: string): string {
    if StrLess(objectTable, relatedTable) then objectTable + "_" + relatedTable else relatedTable + "_" + objectTable
  }

  /** getIntermediateTableName: the default for an empty setting, the callable's result, or the name. */
  function IntermediateTable(setting: TableSetting, objectTable: string, relatedTable: string): (r: string)
    ensures setting.TableText? && !Truthy(setting.name) ==> r == DefaultIntermediate(objectTable, relatedTable)
    ensures setting.TableText? && Truthy(setting.name) ==> r == setting.name
    ensures setting.TableCallable? ==> r == setting.result
  {
    match setting
    case TableText(name) => if Truthy(name) then name else DefaultIntermediate(objectTable, relatedTable)
    case TableCallable(result) => result
  }

  /** Both sides of an association find the same default table, whichever declares it. */
  lemma {:induction false} DefaultIntermediateSymmetric(a: string, b: string)
    ensures DefaultIntermediate(a, b) == DefaultIntermediate(b, a)
  {
    if a == b {
    } else {
      StrLessTotal(a, b);
    }
  }

  /** The default name puts the strcmp-smaller table first; equal tables give t_t. */
  lemma {:induction false} DefaultIntermediateOrder(a: string, b: string)
    ensures StrLess(a, b) ==> DefaultIntermediate(a, b) == a + "_" + b
    ensures StrLess(b, a) ==> DefaultIntermediate(a, b) == b + "_" + a
    ensures a == b ==> DefaultIntermediate(a, b) == a + "_" + a
  {
    if StrLess(b, a) && a != b {
      StrLessTotal(a, b);
    }
  }

  // ---------------------------------------------------------------------------
  // Loads

  /** The owning object as a load sees it. */
  datatype Owner = Owner(schema: ClassSchema, isNew: bool, values: map<string, Mixed>)

  /** What a load yields, over the type of the rows it fetched. */
  datatype Loaded<T> = NoObject | FreshObject(cls: string) | Found(row: T) | Rows(rows: seq<T>)

  /** A load: the query it sent, if any, and what it yields. */
  datatype Load<T> = Load(query: Option<string>, result: Loaded<T>)

  /** The id property of the owner, as `$object->id` reads it. */
  function OwnerId(owner: Owner): Result<Mixed> {
    ReadProperty(owner.schema.className, owner.values, "id")
  }

  /** HasOne::getDefaultValue: null when the declared type allows it, else a new related object. */
  function HasOneDefaultValue<T>(p: PropertyDecl): (r: Loaded<T>)
    ensures p.nullable ==> r == NoObject
    ensures !p.nullable ==> r == FreshObject(p.declaredType)
  {
    if p.nullable then NoObject else FreshObject(p.declaredType)
  }

  /**
   * HasOne::load: a new owner gets the default without a query; otherwise the
   * first related row whose foreign key is the owner's id, else the default.
   * The related class is the property's declared type (getRelatedType, which
   * the shown code calls but does not define).
   */
  function HasOneLoad<T>(ctx: RenderContext, owner: Owner, p: PropertyDecl, foreignKey: string, rows: seq<T>): (r: Result<Load<T>>)
    ensures owner.isNew ==> r == Success(Load(None, HasOneDefaultValue(p)))
    ensures !owner.isNew && r.Success? ==> r.value.query.Some?
    ensures !owner.isNew && r.Success? ==>
              OwnerId(owner).Success? &&
              FindFirstByAttributeQuery(ctx, p.declaredType, ForeignKey(foreignKey, TableName(owner.schema.className)),
                                        OwnerId(owner).value, "") == Success(r.value.query.value)
    ensures !owner.isNew && OwnerId(owner).Failure? ==> r == Failure(OwnerId(owner).error)
    ensures !owner.isNew && r.Success? && |rows| > 0 ==> r.value.result == Found(rows[0])
    ensures !owner.isNew && r.Success? && |rows| == 0 ==> r.value.result == HasOneDefaultValue(p)
  {
    if owner.isNew then Success(Load(None, HasOneDefaultValue(p)))
    else
      var fk := ForeignKey(foreignKey, TableName(owner.schema.className));
      var id :- OwnerId(owner);
      var q :- FindFirstByAttributeQuery(ctx, p.declaredType, fk, id, "");
      Success(Load(Some(q), if |rows| > 0 then Found(rows[0]) else HasOneDefaultValue(p)))
  }

  /**
   * HasMany::load: nothing is queried for a new owner or a related class that
   * is not a Base subclass; otherwise findAll("`fk` = id", orderBy).
   */
  function HasManyLoad<T>(ctx: RenderContext, baseClasses: set<string>, owner: Owner, p: PropertyDecl,
                          relatedClass: string, foreignKey: string, orderBy: string, rows: seq<T>): (r: Result<Load<T>>)
    ensures owner.isNew ==> r == Success(Load(None, Rows([])))
    ensures !owner.isNew && RelatedClass(relatedClass, p) !in baseClasses ==> r == Success(Load(None, Rows([])))
    ensures r.Success? && r.value.query.Some? ==> r.value.result == Rows(rows)
    ensures r.Success? && r.value.query.Some? ==>
              OwnerId(owner).Success? && PhpString(OwnerId(owner).value).Success? &&
              r.value.query.value == BuildQuery(ctx, RelatedClass(relatedClass, p),
                Query("`" + ForeignKey(foreignKey, TableName(owner.schema.className)) + "` = " + PhpString(OwnerId(owner).value).value,
                      orderBy, None, None, "*", ""))
  {
    var related := RelatedClass(relatedClass, p);
    if owner.isNew || related !in baseClasses then Success(Load(None, Rows([])))
    else
      var fk := ForeignKey(foreignKey, TableName(owner.schema.className));
      var id :- OwnerId(owner);
      var idText :- PhpString(id);
      Success(Load(Some(BuildQuery(ctx, related, Query("`" + fk + "` = " + idText, orderBy, None, None, "*", ""))), Rows(rows)))
  }

  /** `$this->foreignKey ?: $this->property->getName() . '_id'` */
  function BelongsToKey(configured: string, p: PropertyDecl): (r: string)
    ensures !Truthy(configured) ==> r == p.name + "_id"
  {
    if Truthy(configured) then configured else p.name + "_id"
  }

  /** A PHP value passed to find(int $id): ints as they are, bools as 0/1, integer strings parsed. */
  function IntArgument(v: Mixed): (r: Result<int>)
    ensures v.Int? ==> r == Success(v.intValue)
    ensures v.Bool? ==> r == Success(if v.boolValue then 1 else 0)
    ensures v.Str? ==> (r.Success? <==> IsIntegerText(v.str))
    ensures v.Str? && r.Success? ==> r.value == ParseInt(v.str)
    ensures !v.Int? && !v.Bool? && !v.Str? ==> r.Failure? && r.error.kind == TypeError
  {
    match v
    case Int(i) => Success(i)
    case Bool(b) => Success(if b then 1 else 0)
    case Str(s) =>
      if IsIntegerText(s) then Success(ParseInt(s))
      else Failure(Error(TypeError, "Argument #1 ($id) must be of type int"))
    case _ => Failure(Error(TypeError, "Argument #1 ($id) must be of type int"))
  }

  /** An optionally signed, non-empty run of decimal digits. */
  predicate IsIntegerText(s: string) {
    |s| > 0 &&
    (s[0] == '-' ==> |s| > 1 && forall k :: 1 <= k < |s| ==> IsDigit(s[k])) &&
    (s[0] != '-' ==> forall k :: 0 <= k < |s| ==> IsDigit(s[k]))
  }

  /** An id read back as its decimal text is passed on unchanged. */
  lemma {:induction false} IntArgumentOfIdText(i: int)
    ensures IntArgument(Str(IntToString(i))) == Success(i)
  {
    var s := IntToString(i);
    if i < 0 {
      assert s[1..] == NatToString(-i);
      assert forall k :: 1 <= k < |s| ==> IsDigit(s[k]) by {
        forall k | 1 <= k < |s| ensures IsDigit(s[k]) { assert s[k] == s[1..][k - 1]; }
      }
    }
    assert IsIntegerText(s);
    IntToStringRoundTrip(i);
  }

  /**
   * BelongsTo::load: Related::find(owner's foreign-key value). There is no
   * short-circuit for a new owner, and a missing row is find's exception.
   */
  function BelongsToLoad<T>(ctx: RenderContext, owner: Owner, p: PropertyDecl, foreignKey: string, rows: seq<T>): (r: Result<Load<T>>)
    ensures FindProperty(owner.schema.properties, BelongsToKey(foreignKey, p)).None? ==>
              r == Failure(NoSuchProperty(owner.schema.className, BelongsToKey(foreignKey, p)))
    ensures FindProperty(owner.schema.properties, BelongsToKey(foreignKey, p)).Some? && BelongsToKey(foreignKey, p) !in owner.values ==>
              r == Failure(Uninitialized(owner.schema.className, BelongsToKey(foreignKey, p)))
    ensures r.Success? ==> r.value.query.Some? && |rows| > 0 && r.value.result == Found(rows[0])
    ensures r.Success? ==>
              BelongsToKey(foreignKey, p) in owner.values && IntArgument(owner.values[BelongsToKey(foreignKey, p)]).Success? &&
              r.value.query.value == FindQuery(ctx, p.declaredType, IntArgument(owner.values[BelongsToKey(foreignKey, p)]).value)
    ensures FindProperty(owner.schema.properties, BelongsToKey(foreignKey, p)).Some? &&
            BelongsToKey(foreignKey, p) in owner.values &&
            IntArgument(owner.values[BelongsToKey(foreignKey, p)]).Success? && |rows| == 0 ==>
              (r == Failure(Error(RecordException, "object with id " + IntToString(IntArgument(owner.values[BelongsToKey(foreignKey, p)]).value)
                                                   + " of type " + p.declaredType + " not found")))
  {
    var name := BelongsToKey(foreignKey, p);
    if FindProperty(owner.schema.properties, name).None? then Failure(NoSuchProperty(owner.schema.className, name))
    else
      var value :- ReadProperty(owner.schema.className, owner.values, name);
      var id :- IntArgument(value);
      var row :- FindResult(rows, id, p.declaredType);
      Success(Load(Some(FindQuery(ctx, p.declaredType, id)), Found(row)))
  }

  /** Unlike HasOne and HasMany, a new owner still queries. */
  lemma {:induction false} BelongsToQueriesForNewOwner<T>(ctx: RenderContext, owner: Owner, p: PropertyDecl, foreignKey: string, rows: seq<T>)
    requires owner.isNew
    requires BelongsToLoad(ctx, owner, p, foreignKey, rows).Success?
    ensures BelongsToLoad(ctx, owner, p, foreignKey, rows).value.query.Some?
    ensures HasOneLoad(ctx, owner, p, foreignKey, rows) == Success(Load(None, HasOneDefaultValue(p)))
  {
  }

  /** The text of HasAndBelongsToMany::load's query, with its line breaks and indentation. */
  function HabtmLoadQuery(relatedTable: string, intermediate: string, objectKey: string, relatedKey: string, objectId: string): string {
    "SELECT `" + relatedTable + "`.* FROM `" + relatedTable + "` INNER JOIN `" + intermediate + "` \n" +
    "            ON `" + intermediate + "`.`" + relatedKey + "` = `" + relatedTable + "`.`id` AND `" +
    intermediate + "`.`" + objectKey + "`= " + objectId + "\n" +
    "            ORDER BY `" + relatedTable + "`.id"
  }

  /** HasAndBelongsToMany::load */
  function HabtmLoad<T>(baseClasses: set<string>, owner: Owner, p: PropertyDecl, m: Marker, rows: seq<T>): (r: Result<Load<T>>)
    requires m.HabtmMarker?
    ensures owner.isNew ==> r == Success(Load(None, Rows([])))
    ensures !owner.isNew && RelatedClass(m.habtmClass, p) !in baseClasses ==> r == Success(Load(None, Rows([])))
    ensures r.Success? && r.value.query.Some? ==> r.value.result == Rows(rows)
    ensures r.Success? && r.value.query.Some? ==>
              var objectTable := TableName(owner.schema.className);
              var relatedTable := TableName(RelatedClass(m.habtmClass, p));
              OwnerId(owner).Success? && PhpString(OwnerId(owner).value).Success? &&
              r.value.query.value == HabtmLoadQuery(relatedTable, IntermediateTable(m.intermediateTable, objectTable, relatedTable),
                                                    ForeignKey(m.objectForeignKey, objectTable),
                                                    ForeignKey(m.relatedForeignKey, relatedTable), PhpString(OwnerId(owner).value).value)
  {
    var related := RelatedClass(m.habtmClass, p);
    if owner.isNew || related !in baseClasses then Success(Load(None, Rows([])))
    else
      var objectTable := TableName(owner.schema.className);
      var relatedTable := TableName(related);
      var id :- OwnerId(owner);
      var idText :- PhpString(id);
      Success(Load(Some(HabtmLoadQuery(relatedTable, IntermediateTable(m.intermediateTable, objectTable, relatedTable),
                                       ForeignKey(m.objectForeignKey, objectTable),
                                       ForeignKey(m.relatedForeignKey, relatedTable), idText)), Rows(rows)))
  }

  /** $association->load($object), dispatched on the kind of association. */
  function LoadAssociation<T>(ctx: RenderContext, baseClasses: set<string>, owner: Owner, a: Association, rows: seq<T>): (r: Result<Load<T>>)
    ensures a.attribute.HasOneMarker? ==> r == HasOneLoad(ctx, owner, a.property, a.attribute.hasOneKey, rows)
    ensures a.attribute.HasManyMarker? ==>
              r == HasManyLoad(ctx, baseClasses, owner, a.property, a.attribute.hasManyClass, a.attribute.hasManyKey, a.attribute.orderBy, rows)
    ensures a.attribute.BelongsToMarker? ==> r == BelongsToLoad(ctx, owner, a.property, a.attribute.belongsToKey, rows)
    ensures a.attribute.HabtmMarker? ==> r == HabtmLoad(baseClasses, owner, a.property, a.attribute, rows)
    ensures !IsAssociation(a.attribute) ==> r.Failure? && r.error == NotAnAssociation(a.property.name)
  {
    match a.attribute
    case HasOneMarker(key) => HasOneLoad(ctx, owner, a.property, key, rows)
    case HasManyMarker(cls, key, orderBy) => HasManyLoad(ctx, baseClasses, owner, a.property, cls, key, orderBy, rows)
    case BelongsToMarker(key) => BelongsToLoad(ctx, owner, a.property, key, rows)
    case HabtmMarker(_, _, _, _) => HabtmLoad(baseClasses, owner, a.property, a.attribute, rows)
    // getAll and get only bind association attributes
    case _ => Failure(NotAnAssociation(a.property.name))
  }

  /**
   * __get(name) for a property that is not initialized: load the association
   * of that name. A ReflectionException from the lookup or the load is
   * caught (with a warning) and gives null; every other exception propagates.
   */
  function MagicGet<T>(ctx: RenderContext, baseClasses: set<string>, owner: Owner, name: string, rows: seq<T>): (r: Result<Option<Load<T>>>)
    ensures r.Failure? ==> r.error.kind != ReflectionException
    ensures FindProperty(owner.schema.properties, name).None? ==> r == Success(None)
    ensures Get(owner.schema, name).Success? && LoadAssociation(ctx, baseClasses, owner, Get(owner.schema, name).value, rows).Success? ==>
              r == Success(Some(LoadAssociation(ctx, baseClasses, owner, Get(owner.schema, name).value, rows).value))
    ensures Get(owner.schema, name).Failure? && Get(owner.schema, name).error.kind != ReflectionException ==>
              r == Failure(Get(owner.schema, name).error)
  {
    match Get(owner.schema, name)
    case Failure(e) => if e.kind == ReflectionException then Success(None) else Failure(e)
    case Success(a) =>
      match LoadAssociation(ctx, baseClasses, owner, a, rows)
      case Failure(e) => if e.kind == ReflectionException then Success(None) else Failure(e)
      case Success(l) => Success(Some(l))
  }

  /** A plain property that carries no association attribute is an exception, not a null. */
  lemma {:induction false} MagicGetPlainProperty<T>(ctx: RenderContext, baseClasses: set<string>, owner: Owner, p: PropertyDecl, rows: seq<T>)
    requires DistinctNames(owner.schema.properties) && p in owner.schema.properties && !HasAssociation(p)
    ensures MagicGet(ctx, baseClasses, owner, p.name, rows) == Failure(NotAnAssociation(p.name))
  {
    GetAgreesWithGetAll(owner.schema, p);
  }

  // ---------------------------------------------------------------------------
  // The id sets of a has-and-belongs-to-many save

  /** array_diff(a, b) as implode then sees it: the entries of `a` not in `b`, in order, duplicates kept. */
  function SetDiff(a: seq<string>, b: seq<string>): (r: seq<string>)
    ensures |r| <= |a|
    ensures forall x :: x in r <==> x in a && x !in b
  {
    if |a| == 0 then []
    else (if a[0] in b then [] else [a[0]]) + SetDiff(a[1..], b)
  }

  /** Removing everything that is in the other list leaves nothing when the two hold the same ids. */
  lemma {:induction false} SetDiffOfSameIds(a: seq<string>, b: seq<string>)
    requires forall x :: x in a ==> x in b
    ensures SetDiff(a, b) == []
  {
    if |a| > 0 {
      assert a[0] in b;
      assert forall x :: x in a[1..] ==> x in a;
      SetDiffOfSameIds(a[1..], b);
    }
  }

  /** "($objectId,$relatedObjectId)" for each id, in order. */
  function Pairs(objectId: string, ids: seq<string>): (r: seq<string>)
    ensures |r| == |ids|
    ensures forall k :: 0 <= k < |ids| ==> r[k] == "(" + objectId + "," + ids[k] + ")"
  {
    if |ids| == 0 then [] else ["(" + objectId + "," + ids[0] + ")"] + Pairs(objectId, ids[1..])
  }

  /** The query for the ids already linked. */
  function ExistingIdsQuery(intermediate: string, objectKey: string, relatedKey: string, objectId: string): string {
    "SELECT `" + relatedKey + "` FROM `" + intermediate + "` WHERE `" + objectKey + "` = " + objectId
  }

  function InsertLinks(intermediate: string, objectKey: string, relatedKey: string, values: string): string {
    "INSERT INTO " + intermediate + " (" + objectKey + ", " + relatedKey + ") VALUES " + values
  }

  function DeleteLinks(intermediate: string, objectKey: string, relatedKey: string, objectId: string, values: string): string {
    "DELETE FROM " + intermediate + " WHERE " + objectKey + " = " + objectId + " AND " + relatedKey + " IN (" + values + ")"
  }

  /**
   * The exec statements of a has-and-belongs-to-many save, given the linked
   * ids and the stored ones: the INSERT when its value list is truthy, then the
   * DELETE when its id list is truthy.
   */
  function LinkWrites(intermediate: string, objectKey: string, relatedKey: string, objectId: string,
                      newIds: seq<string>, existingIds: seq<string>): (r: seq<string>)
    ensures |r| <= 2
  {
    var insertValues := Join(",", Pairs(objectId, SetDiff(newIds, existingIds)));
    var removeValues := Join(",", SetDiff(existingIds, newIds));
    (if Truthy(insertValues) then [InsertLinks(intermediate, objectKey, relatedKey, insertValues)] else [])
    + (if Truthy(removeValues) then [DeleteLinks(intermediate, objectKey, relatedKey, objectId, removeValues)] else [])
  }

  /** A non-empty list of pairs always gives a truthy value list: it starts with '('. */
  lemma {:induction false} PairsTruthy(objectId: string, ids: seq<string>)
    ensures Truthy(Join(",", Pairs(objectId, ids))) <==> |ids| > 0
  {
    if |ids| > 0 {
      var ps := Pairs(objectId, ids);
      var j := Join(",", ps);
      if |ids| == 1 {
        assert j == ps[0];
      } else {
        assert j == ps[0] + "," + Join(",", ps[1..]);
      }
      assert j[0] == '(';
    }
  }

  /** When the linked and the stored ids are the same set, no statement is written. */
  lemma {:induction false} SameIdsWriteNothing(intermediate: string, objectKey: string, relatedKey: string, objectId: string,
                            newIds: seq<string>, existingIds: seq<string>)
    requires forall x :: x in newIds <==> x in existingIds
    ensures LinkWrites(intermediate, objectKey, relatedKey, objectId, newIds, existingIds) == []
  {
    SetDiffOfSameIds(newIds, existingIds);
    SetDiffOfSameIds(existingIds, newIds);
  }

  /**
   * Only new links are inserted and only stale ones deleted: with one id on
   * each side, the INSERT comes first and the id they share is in neither.
   */
  lemma {:induction false} InsertThenDelete(intermediate: string, objectKey: string, relatedKey: string, objectId: string,
                         kept: string, added: string, removed: string)
    requires kept != added && kept != removed && added != removed && Truthy(removed)
    ensures LinkWrites(intermediate, objectKey, relatedKey, objectId, [kept, added], [kept, removed]) ==
            [InsertLinks(intermediate, objectKey, relatedKey, "(" + objectId + "," + added + ")"),
             DeleteLinks(intermediate, objectKey, relatedKey, objectId, removed)]
  {
    SetDiffOfPair(kept, added, removed);
    SetDiffOfPair(kept, removed, added);
    var p := "(" + objectId + "," + added + ")";
    assert Pairs(objectId, [added]) == [p];
    assert Join(",", [p]) == p;
    assert Join(",", [removed]) == removed;
    assert p[0] == '(';
  }

  /** With one id in common, only the other one is left. */
  lemma {:induction false} SetDiffOfPair(kept: string, x: string, y: string)
    requires x != kept && x != y
    ensures SetDiff([kept, x], [kept, y]) == [x]
  {
    assert [kept, x][1..] == [x];
    assert SetDiff([x], [kept, y]) == [x] + SetDiff([], [kept, y]);
    assert SetDiff([kept, x], [kept, y]) == [] + SetDiff([x], [kept, y]);
  }

  /**
   * What the link statements hold: an INSERT exactly when some linked id is
   * not stored, with one pair per such id; a DELETE exactly when the list of
   * stored ids no longer linked is truthy, with that list; the INSERT first.
   */
  lemma {:induction false} LinkWritesContents(intermediate: string, objectKey: string, relatedKey: string, objectId: string,
                                              newIds: seq<string>, existingIds: seq<string>)
    ensures var w := LinkWrites(intermediate, objectKey, relatedKey, objectId, newIds, existingIds);
      var added := SetDiff(newIds, existingIds);
      var dropped := Join(",", SetDiff(existingIds, newIds));
      |w| == (if |added| > 0 then 1 else 0) + (if Truthy(dropped) then 1 else 0) &&
      (|added| > 0 ==> w[0] == InsertLinks(intermediate, objectKey, relatedKey, Join(",", Pairs(objectId, added)))) &&
      (Truthy(dropped) ==> w[|w| - 1] == DeleteLinks(intermediate, objectKey, relatedKey, objectId, dropped))
  {
    PairsTruthy(objectId, SetDiff(newIds, existingIds));
  }

  /** A stale link to id "0" is never removed: its id list "0" is PHP-falsy. */
  lemma {:induction false} StaleZeroIdKept(intermediate: string, objectKey: string, relatedKey: string, objectId: string)
    ensures LinkWrites(intermediate, objectKey, relatedKey, objectId, [], ["0"]) == []
  {
    assert SetDiff(["0"], []) == ["0"] + SetDiff([], []);
  }
}
