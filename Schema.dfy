/**
 * The metadata the library reads through reflection, written out: for each
 * class, its properties in declaration order, and for each property its PHP
 * attributes in source order, its declared type and whether that type allows
 * null. A callable argument (an intermediate-table callback, a message
 * callback) is represented by the value it returns.
 */
module Schema {
  import opened Wrappers
  import opened ExpressionTree

  /** A validator message: a string, or a callable whose result is the message. */
  datatype Message = TextMessage(text: string) | CallableMessage(result: string)

  /** HasAndBelongsToMany's intermediateTable argument: a name (possibly empty), or a callable. */
  datatype TableSetting = TableText(name: string) | TableCallable(result: string)

  /** The PHP attributes the core reacts to. */
  datatype Marker =
    | ColumnMarker
    | PrimaryKeyMarker
    | RequiredMarker(message: Message)
    | LengthMarker(min: Option<int>, max: Option<int>, lengthMessage: string)
    | HasOneMarker(hasOneKey: string)
    | HasManyMarker(hasManyClass: string, hasManyKey: string, orderBy: string)
    | BelongsToMarker(belongsToKey: string)
    | HabtmMarker(habtmClass: string, intermediateTable: TableSetting, objectForeignKey: string, relatedForeignKey: string)
    | ArrayShapeMarker(shapeClass: string)   // #[ArrayShape([X::class])]: X
    | OtherMarker(attributeName: string)

  /** The attribute constructors with the source's default arguments. */
  function HasOneDefault(): Marker { HasOneMarker("") }
  function HasManyDefault(): Marker { HasManyMarker("", "", "id") }
  function BelongsToDefault(): Marker { BelongsToMarker("") }
  function HabtmDefault(): Marker { HabtmMarker("", TableText(""), "", "") }
  function RequiredDefault(): Marker { RequiredMarker(TextMessage("")) }

  /** An attribute class that extends Association. */
  predicate IsAssociation(m: Marker) {
    m.HasOneMarker? || m.HasManyMarker? || m.BelongsToMarker? || m.HabtmMarker?
  }

  /** An attribute class that extends Validator: Required only (Length extends nothing). */
  predicate IsValidator(m: Marker) {
    m.RequiredMarker?
  }

  /** A declared property: its name, attributes, declared class type and nullability. */
  datatype PropertyDecl = PropertyDecl(name: string, markers: seq<Marker>, declaredType: string, nullable: bool)

  /** A Base subclass: its name, its properties as ReflectionClass::getProperties lists them, and $keepAttributeChanges. */
  datatype ClassSchema = ClassSchema(className: string, properties: seq<PropertyDecl>, keepAttributeChanges: bool)

  /** No two properties of a class share a name. */
  predicate DistinctNames(props: seq<PropertyDecl>) {
    forall i, j :: 0 <= i < j < |props| ==> props[i].name != props[j].name
  }

  /** new ReflectionProperty(class, name): the declared property of that name. */
  function FindProperty(props: seq<PropertyDecl>, name: string): (r: Option<PropertyDecl>)
    ensures r.Some? ==> r.value in props && r.value.name == name
    ensures r.None? ==> forall k :: 0 <= k < |props| ==> props[k].name != name
  {
    if |props| == 0 then None
    else if props[0].name == name then Some(props[0])
    else FindProperty(props[1..], name)
  }

  /** The message ReflectionProperty's constructor throws for a missing property. */
  function NoSuchProperty(cls: string, name: string): Error {
    Error(ReflectionException, "Property " + cls + "::$" + name + " does not exist")
  }

  /** The Error PHP throws when an uninitialized typed property is read. */
  function Uninitialized(cls: string, name: string): Error {
    Error(EngineError, "Typed property " + cls + "::$" + name + " must not be accessed before initialization")
  }

  /** $object->name: the value of an initialized property, the Error otherwise. */
  function ReadProperty(cls: string, values: map<string, Mixed>, name: string): (r: Result<Mixed>)
    ensures r.Success? <==> name in values
    ensures r.Success? ==> r.value == values[name]
    ensures r.Failure? ==> r.error == Uninitialized(cls, name)
  {
    if name in values then Success(values[name]) else Failure(Uninitialized(cls, name))
  }
}
