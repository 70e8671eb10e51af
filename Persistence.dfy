/**
 * The instance side of src/Base.php: the record's lifecycle (construction,
 * validation and its accumulated errors, save as INSERT or UPDATE, remove,
 * change tracking) and the save half of the has-one and
 * has-and-belongs-to-many associations, which save the related records.
 *
 * Each state-changing method is tied to a pure plan of what it sends to the
 * connection (PlanSave, UpdateStatement, the link writes of Associations);
 * the laws of the record are proved about those plans.
 */
module Persistence {
  import opened Wrappers
  import opened Strings
  import opened ExpressionTree
  import opened Rendering
  import opened Schema
  import opened Columns
  import opened Statements
  import opened Connections
  import V = Validators
  import A = Associations

  // ---------------------------------------------------------------------------
  // The errors array: property name => messages, in insertion order

  type ErrorList = seq<(string, seq<string>)>

  /** $errors[$key] ?? null */
  function ErrorsFor(errors: ErrorList, key: string): Option<seq<string>> {
    if |errors| == 0 then None
    else if errors[0].0 == key then Some(errors[0].1)
    else ErrorsFor(errors[1..], key)
  }

  function MessagesOf(errors: ErrorList, key: string): seq<string> {
    if ErrorsFor(errors, key).Some? then ErrorsFor(errors, key).value else []
  }

  /** getErrorMessages: every message, property by property. */
  function Messages(errors: ErrorList): seq<string> {
    if |errors| == 0 then [] else errors[0].1 + Messages(errors[1..])
  }

  lemma {:induction false} MessagesAppend(a: ErrorList, b: ErrorList)
    ensures Messages(a + b) == Messages(a) + Messages(b)
  {
    if |a| == 0 {
      assert a + b == b;
    } else {
      assert (a + b)[0] == a[0];
      assert (a + b)[1..] == a[1..] + b;
      MessagesAppend(a[1..], b);
    }
  }

  /** `$this->errors[$key][] = $message`: appended under an existing key, or a new key at the end. */
  function AddError(errors: ErrorList, key: string, message: string): (r: ErrorList)
    ensures ErrorsFor(r, key) == Some(MessagesOf(errors, key) + [message])
    ensures forall k :: k != key ==> ErrorsFor(r, k) == ErrorsFor(errors, k)
    ensures |Messages(r)| == |Messages(errors)| + 1
    ensures |r| == |errors| + (if ErrorsFor(errors, key).Some? then 0 else 1)
  {
    if |errors| == 0 then
      var r := [(key, [message])];
      assert r[1..] == [];
      assert MessagesOf(errors, key) == [];
      assert MessagesOf(errors, key) + [message] == [message];
      assert Messages(r) == [message] + Messages([]);
      assert ErrorsFor(r, key) == Some([message]);
      r
    else if errors[0].0 == key then
      var r := [(key, errors[0].1 + [message])] + errors[1..];
      assert r[1..] == errors[1..];
      assert MessagesOf(errors, key) == errors[0].1;
      assert ErrorsFor(r, key) == Some(errors[0].1 + [message]);
      r
    else
      var rest := AddError(errors[1..], key, message);
      var r := [errors[0]] + rest;
      assert r[1..] == rest;
      r
  }

  // ---------------------------------------------------------------------------
  // validate()

  /** Whether a validator throws Validation for the object. */
  predicate Fails(v: V.Validator, isNew: bool, values: map<string, Mixed>) {
    IsValidator(v.attribute) && V.Perform(v, isNew, values).Fail?
  }

  /** One iteration of validate(): record the message of a validator that throws. */
  function Step(v: V.Validator, isNew: bool, values: map<string, Mixed>, errors: ErrorList): ErrorList {
    // the attribute is always a Validator subclass (Validators.AllValidatorsSound)
    if Fails(v, isNew, values) then AddError(errors, v.property.name, V.Perform(v, isNew, values).error.message)
    else errors
  }

  /** validate(): each validator in turn, starting from the errors already recorded. */
  function Validated(vs: seq<V.Validator>, isNew: bool, values: map<string, Mixed>, errors: ErrorList): ErrorList
    decreases |vs|
  {
    if |vs| == 0 then errors else Validated(vs[1..], isNew, values, Step(vs[0], isNew, values, errors))
  }

  /** The loop of validate(): perform each validator, recording the message of each that throws. */
  method RunValidators(vs: seq<V.Validator>, isNew: bool, values: map<string, Mixed>, errors: ErrorList) returns (r: ErrorList)
    ensures r == Validated(vs, isNew, values, errors)
  {
    r := errors;
    var i := 0;
    while i < |vs|
      invariant 0 <= i <= |vs|
      invariant Validated(vs[i..], isNew, values, r) == Validated(vs, isNew, values, errors)
    {
      var v := vs[i];
      if IsValidator(v.attribute) {
        var outcome := V.Perform(v, isNew, values);
        if outcome.Fail? {
          r := AddError(r, v.property.name, outcome.error.message);
        }
      }
      assert vs[i..][1..] == vs[i + 1..];
      i := i + 1;
    }
  }

  /** The number of validators that throw. */
  function FailureCount(vs: seq<V.Validator>, isNew: bool, values: map<string, Mixed>): nat {
    if |vs| == 0 then 0 else (if Fails(vs[0], isNew, values) then 1 else 0) + FailureCount(vs[1..], isNew, values)
  }

  /** Errors are never cleared: each validation adds one message per failing validator. */
  lemma {:induction false} ValidatedCountsFailures(vs: seq<V.Validator>, isNew: bool, values: map<string, Mixed>, errors: ErrorList)
    ensures |Messages(Validated(vs, isNew, values, errors))| == |Messages(errors)| + FailureCount(vs, isNew, values)
  {
    if |vs| > 0 {
      ValidatedCountsFailures(vs[1..], isNew, values, Step(vs[0], isNew, values, errors));
    }
  }

  lemma {:induction false} ValidatedAllPass(vs: seq<V.Validator>, isNew: bool, values: map<string, Mixed>, errors: ErrorList)
    requires FailureCount(vs, isNew, values) == 0
    ensures Validated(vs, isNew, values, errors) == errors
  {
    if |vs| > 0 {
      ValidatedAllPass(vs[1..], isNew, values, errors);
    }
  }

  /** Messages already recorded stay, in order, at the head of their property's list. */
  lemma {:induction false} ValidatedKeepsMessages(vs: seq<V.Validator>, isNew: bool, values: map<string, Mixed>, errors: ErrorList, key: string)
    ensures MessagesOf(errors, key) <= MessagesOf(Validated(vs, isNew, values, errors), key)
    ensures ErrorsFor(errors, key).Some? ==> ErrorsFor(Validated(vs, isNew, values, errors), key).Some?
  {
    if |vs| > 0 {
      var next := Step(vs[0], isNew, values, errors);
      ValidatedKeepsMessages(vs[1..], isNew, values, next, key);
      assert MessagesOf(errors, key) <= MessagesOf(next, key);
    }
  }

  /** The errors are empty after validation exactly when they were empty before and no validator throws. */
  lemma {:induction false} ValidatedEmptyIff(vs: seq<V.Validator>, isNew: bool, values: map<string, Mixed>, errors: ErrorList)
    ensures |Validated(vs, isNew, values, errors)| == 0 <==> |errors| == 0 && FailureCount(vs, isNew, values) == 0
  {
    ValidatedCountsFailures(vs, isNew, values, errors);
    if FailureCount(vs, isNew, values) == 0 {
      ValidatedAllPass(vs, isNew, values, errors);
    }
  }

  /** Validating twice without a change reports every failure twice. */
  lemma {:induction false} RevalidationDuplicates(vs: seq<V.Validator>, isNew: bool, values: map<string, Mixed>)
    ensures |Messages(Validated(vs, isNew, values, Validated(vs, isNew, values, [])))| == 2 * FailureCount(vs, isNew, values)
  {
    ValidatedCountsFailures(vs, isNew, values, []);
    ValidatedCountsFailures(vs, isNew, values, Validated(vs, isNew, values, []));
  }

  // ---------------------------------------------------------------------------
  // The statement save() sends

  /** getAttributes(): the initialized Column properties and their values. */
  function ColumnValues(schema: ClassSchema, values: map<string, Mixed>): seq<(string, Mixed)> {
    ObjectValues(ColumnProperties(schema.properties), values)
  }

  /** array_key_exists and lookup on an array built as name => value pairs. */
  function Lookup(pairs: seq<(string, Mixed)>, key: string): (r: Option<Mixed>)
    ensures r.Some? ==> (key, r.value) in pairs
    ensures r.None? ==> forall k :: 0 <= k < |pairs| ==> pairs[k].0 != key
  {
    if |pairs| == 0 then None
    else if pairs[0].0 == key then Some(pairs[0].1)
    else Lookup(pairs[1..], key)
  }

  /** An entry array_diff_assoc keeps: its key is absent, or its value differs as a string. */
  predicate Changed(e: (string, Mixed), original: seq<(string, Mixed)>) {
    match Lookup(original, e.0)
    case None => true
    case Some(o) => PhpString(e.1) != PhpString(o)
  }

  /**
   * array_diff_assoc(attributes, original): the entries whose key is missing
   * from the original or whose value differs as a string, in order; the
   * conversion of a non-stringable value is an Error.
   */
  function DiffAssoc(attrs: seq<(string, Mixed)>, original: seq<(string, Mixed)>): (r: Result<seq<(string, Mixed)>>)
    ensures r.Success? ==> |r.value| <= |attrs|
    ensures r.Success? ==> forall e :: e in r.value ==> e in attrs && Changed(e, original)
    ensures r.Success? ==> forall k :: 0 <= k < |attrs| ==> (attrs[k] in r.value <==> Changed(attrs[k], original))
  {
    if |attrs| == 0 then Success([])
    else
      var rest :- DiffAssoc(attrs[1..], original);
      match Lookup(original, attrs[0].0)
      case None => Success([attrs[0]] + rest)
      case Some(o) =>
        var a :- PhpString(attrs[0].1);
        var b :- PhpString(o);
        if a == b then Success(rest) else Success([attrs[0]] + rest)
  }

  /** No two entries share a key, as in a PHP array. */
  predicate DistinctKeys(pairs: seq<(string, Mixed)>) {
    forall i, j :: 0 <= i < j < |pairs| ==> pairs[i].0 != pairs[j].0
  }

  lemma {:induction false} LookupDistinct(pairs: seq<(string, Mixed)>, i: int)
    requires DistinctKeys(pairs) && 0 <= i < |pairs|
    ensures Lookup(pairs, pairs[i].0) == Some(pairs[i].1)
  {
    if i > 0 {
      assert pairs[0].0 != pairs[i].0;
      assert DistinctKeys(pairs[1..]) by {
        forall a, b | 0 <= a < b < |pairs[1..]| ensures pairs[1..][a].0 != pairs[1..][b].0 {
          assert pairs[1..][a] == pairs[a + 1] && pairs[1..][b] == pairs[b + 1];
        }
      }
      LookupDistinct(pairs[1..], i - 1);
    }
  }

  /** Comparing an array with itself leaves nothing, once every value converts to a string. */
  lemma {:induction false} DiffAssocSelf(attrs: seq<(string, Mixed)>)
    requires DistinctKeys(attrs)
    requires forall k :: 0 <= k < |attrs| ==> PhpString(attrs[k].1).Success?
    ensures DiffAssoc(attrs, attrs) == Success([])
  {
    DiffAssocSelfFrom(attrs, attrs);
  }

  lemma {:induction false} DiffAssocSelfFrom(suffix: seq<(string, Mixed)>, attrs: seq<(string, Mixed)>)
    requires DistinctKeys(attrs)
    requires forall k :: 0 <= k < |attrs| ==> PhpString(attrs[k].1).Success?
    requires forall e :: e in suffix ==> e in attrs
    ensures DiffAssoc(suffix, attrs) == Success([])
  {
    if |suffix| > 0 {
      assert forall e :: e in suffix[1..] ==> e in suffix;
      DiffAssocSelfFrom(suffix[1..], attrs);
      assert suffix[0] in attrs;
      var i :| 0 <= i < |attrs| && attrs[i] == suffix[0];
      LookupDistinct(attrs, i);
    }
  }

  /** update(): the UPDATE of the changed columns, WHERE id = the record's id; nothing for no change. */
  function UpdateStatement(ctx: RenderContext, cls: string, attrs: seq<(string, Mixed)>,
                           original: seq<(string, Mixed)>, values: map<string, Mixed>): (r: Result<Option<string>>)
    ensures DiffAssoc(attrs, original) == Success([]) && r.Success? ==> r.value.None?
    ensures "id" !in values ==> r.Failure?
    ensures r.Success? && r.value.Some? ==>
              DiffAssoc(attrs, original).Success? && |DiffAssoc(attrs, original).value| > 0 && "id" in values &&
              Condition(ctx, "id", values["id"]).Success? &&
              UpdateAllSql(ctx, cls, DiffAssoc(attrs, original).value, Condition(ctx, "id", values["id"]).value) == Success(r.value)
  {
    var diff :- DiffAssoc(attrs, original);
    var id :- ReadProperty(cls, values, "id");
    var condition :- Condition(ctx, "id", id);
    UpdateAllSql(ctx, cls, diff, condition)
  }

  /** The statement of save()'s own row: INSERT for a new record, otherwise update(). */
  function SaveStatement(ctx: RenderContext, schema: ClassSchema, isNew: bool, values: map<string, Mixed>,
                         original: seq<(string, Mixed)>): Result<Option<string>> {
    if isNew then
      var sql :- InsertSql(ctx, schema.className, ColumnValues(schema, values), false);
      Success(Some(sql))
    else UpdateStatement(ctx, schema.className, ColumnValues(schema, values), original, values)
  }

  datatype Plan = Plan(outcome: Outcome, statement: Option<string>)

  const ValidationFailed := Error(ValidationException, "validation failed on save")

  /** The plan of a save that got past validation. */
  function PlanStatement(ctx: RenderContext, schema: ClassSchema, isNew: bool, values: map<string, Mixed>,
                         original: seq<(string, Mixed)>): Plan {
    match SaveStatement(ctx, schema, isNew, values, original)
    case Failure(e) => Plan(Fail(e), None)
    case Success(s) => Plan(Pass, s)
  }

  /**
   * What save(validate) does up to its association loop: reject when the
   * errors are non-empty after validate(), else send at most one statement.
   * The errors a previous validation recorded count too.
   */
  function PlanSave(ctx: RenderContext, schema: ClassSchema, validate: bool, isNew: bool, values: map<string, Mixed>,
                    original: seq<(string, Mixed)>, errors: ErrorList): (r: Plan)
    ensures r.outcome.Fail? ==> r.statement.None?
    ensures validate && (|errors| > 0 || FailureCount(V.AllValidators(schema.properties), isNew, values) > 0) ==>
              r == Plan(Fail(ValidationFailed), None)
    ensures !validate || (|errors| == 0 && FailureCount(V.AllValidators(schema.properties), isNew, values) == 0) ==>
              r == PlanStatement(ctx, schema, isNew, values, original)
  {
    var vs := V.AllValidators(schema.properties);
    ValidatedEmptyIff(vs, isNew, values, errors);
    if validate && |Validated(vs, isNew, values, errors)| != 0 then Plan(Fail(ValidationFailed), None)
    else PlanStatement(ctx, schema, isNew, values, original)
  }

  /**
   * Errors recorded by an earlier failed validation are never cleared, so a
   * validated save keeps failing after the values are corrected.
   */
  lemma {:induction false} StaleErrorsBlockSave(ctx: RenderContext, schema: ClassSchema, isNew: bool, values: map<string, Mixed>,
                             original: seq<(string, Mixed)>, stale: string)
    requires FailureCount(V.AllValidators(schema.properties), isNew, values) == 0
    ensures PlanSave(ctx, schema, true, isNew, values, original, [(stale, [stale + " is required"])]).outcome == Fail(ValidationFailed)
  {
  }

  /** The statements a plan adds to the connection's log. */
  function Executions(statement: Option<string>): seq<Statement> {
    if statement.Some? then [Executed(statement.value)] else []
  }

  /** A new record always sends its INSERT, once it passes validation and its values quote. */
  lemma {:induction false} NewRecordInserts(ctx: RenderContext, schema: ClassSchema, values: map<string, Mixed>, errors: ErrorList)
    requires InsertSql(ctx, schema.className, ColumnValues(schema, values), false).Success?
    ensures PlanSave(ctx, schema, false, true, values, [], errors) ==
            Plan(Pass, Some(InsertSql(ctx, schema.className, ColumnValues(schema, values), false).value))
  {
  }

  /** With $keepAttributeChanges, saving again without a change sends no UPDATE. */
  lemma {:induction false} UnchangedRecordWritesNothing(ctx: RenderContext, cls: string, attrs: seq<(string, Mixed)>, values: map<string, Mixed>)
    requires DistinctKeys(attrs)
    requires forall k :: 0 <= k < |attrs| ==> PhpString(attrs[k].1).Success?
    ensures UpdateStatement(ctx, cls, attrs, attrs, values).Success? ==> UpdateStatement(ctx, cls, attrs, attrs, values).value.None?
  {
    DiffAssocSelf(attrs);
  }

  /**
   * The original values kept by an INSERT are those before the id was
   * assigned, so the first UPDATE after it also rewrites the id column.
   */
  lemma {:induction false} FirstUpdateRewritesId(schema: ClassSchema, values: map<string, Mixed>, id: int)
    requires "id" !in values
    requires exists j :: 0 <= j < |schema.properties| && schema.properties[j].name == "id" && HasColumn(schema.properties[j])
    requires DiffAssoc(ColumnValues(schema, values["id" := Int(id)]), ColumnValues(schema, values)).Success?
    ensures ("id", Int(id)) in DiffAssoc(ColumnValues(schema, values["id" := Int(id)]), ColumnValues(schema, values)).value
  {
    var after := ColumnValues(schema, values["id" := Int(id)]);
    IdAmongColumnValues(schema, values["id" := Int(id)]);
    var k :| 0 <= k < |after| && after[k] == ("id", Int(id));
    NoIdAmongColumnValues(schema, values);
    assert Changed(after[k], ColumnValues(schema, values));
  }

  lemma {:induction false} IdAmongColumnValues(schema: ClassSchema, values: map<string, Mixed>)
    requires "id" in values
    requires exists j :: 0 <= j < |schema.properties| && schema.properties[j].name == "id" && HasColumn(schema.properties[j])
    ensures ("id", values["id"]) in ColumnValues(schema, values)
  {
    var j :| 0 <= j < |schema.properties| && schema.properties[j].name == "id" && HasColumn(schema.properties[j]);
    var cols := ColumnProperties(schema.properties);
    assert schema.properties[j] in cols;
    var i :| 0 <= i < |cols| && cols[i] == schema.properties[j];
    assert cols[i].name in values;
  }

  lemma {:induction false} NoIdAmongColumnValues(schema: ClassSchema, values: map<string, Mixed>)
    requires "id" !in values
    ensures Lookup(ColumnValues(schema, values), "id").None?
  {
  }

  // ---------------------------------------------------------------------------
  // Records

  /** An entry of a has-and-belongs-to-many array: a record, or anything else (skipped). */
  datatype Item = LinkedRecord(record: Record) | NotARecord

  /** The value of an association property once initialized. */
  datatype Slot = NullSlot | OneRecord(record: Record) | Items(items: seq<Item>)

  function ItemRecords(items: seq<Item>): set<Record> {
    set k | 0 <= k < |items| && items[k].LinkedRecord? :: items[k].record
  }

  function SlotRecords(slot: Slot): set<Record> {
    match slot
    case NullSlot => {}
    case OneRecord(r) => {r}
    case Items(items) => ItemRecords(items)
  }

  lemma {:induction false} PlanOfInsert(ctx: RenderContext, schema: ClassSchema, values: map<string, Mixed>, original: seq<(string, Mixed)>)
    ensures var sql := InsertSql(ctx, schema.className, ColumnValues(schema, values), false);
            PlanStatement(ctx, schema, true, values, original) ==
            if sql.Failure? then Plan(Fail(sql.error), None) else Plan(Pass, Some(sql.value))
  {
  }

  lemma {:induction false} PlanOfUpdate(ctx: RenderContext, schema: ClassSchema, values: map<string, Mixed>, original: seq<(string, Mixed)>)
    ensures var sql := UpdateStatement(ctx, schema.className, ColumnValues(schema, values), original, values);
            PlanStatement(ctx, schema, false, values, original) ==
            if sql.Failure? then Plan(Fail(sql.error), None) else Plan(Pass, sql.value)
  {
  }

  /** The has-one related record: $related->{fk} = owner id, then save() with validation. */
  method SaveWithForeignKey(r: Record, fk: string, id: Mixed, conn: Connection) returns (o: Outcome)
    modifies r, conn
    ensures var plan := PlanSave(conn.ctx, r.schema, true, old(r.isNew), old(r.values)[fk := id], old(r.originalValues), old(r.errors));
            o == plan.outcome && conn.log == old(conn.log) + Executions(plan.statement)
    ensures r.related == old(r.related)
  {
    r.values := r.values[fk := id];
    o := r.SaveRecord(true, conn);
  }

  /** The property names of some associations. */
  function NamesOf(associations: seq<A.Association>): set<string> {
    set k | 0 <= k < |associations| :: associations[k].property.name
  }

  /** The association names of a class: the properties the constructor unsets. */
  function AssociationNames(props: seq<PropertyDecl>): set<string> {
    NamesOf(A.AssociationsOf(props))
  }

  /** The constructor's unset() loop over the associations. */
  method UnsetAssociations(initial: map<string, Mixed>, associations: seq<A.Association>) returns (values: map<string, Mixed>)
    ensures values == initial - NamesOf(associations)
  {
    values := initial;
    var i := 0;
    while i < |associations|
      invariant 0 <= i <= |associations|
      invariant values == initial - NamesOf(associations[..i])
    {
      assert NamesOf(associations[..i + 1]) == NamesOf(associations[..i]) + {associations[i].property.name} by {
        assert forall k :: 0 <= k < i ==> associations[..i + 1][k] == associations[..i][k];
      }
      values := values - {associations[i].property.name};
      i := i + 1;
    }
    assert associations[..i] == associations;
  }

  /** The has-and-belongs-to-many ids as the save loop collects them: each record's id, as a string. */
  function LinkedIds(items: seq<Item>): Result<seq<string>>
    reads ItemRecords(items)
  {
    if |items| == 0 then Success([])
    else
      var rest := items[1..];
      assert ItemRecords(rest) <= ItemRecords(items) by {
        forall r | r in ItemRecords(rest) ensures r in ItemRecords(items) {
          var k :| 0 <= k < |rest| && rest[k].LinkedRecord? && rest[k].record == r;
          assert items[k + 1] == rest[k];
        }
      }
      match items[0]
      case NotARecord => LinkedIds(rest)
      case LinkedRecord(r) =>
        assert r in ItemRecords(items) by { assert items[0].LinkedRecord?; }
        var id :- ReadProperty(r.schema.className, r.values, "id");
        var text :- PhpString(id);
        var ids :- LinkedIds(rest);
        Success([text] + ids)
  }

  lemma {:induction false} LinkedIdsAppend(a: seq<Item>, item: Item)
    requires LinkedIds(a).Success?
    ensures item.NotARecord? ==> LinkedIds(a + [item]) == LinkedIds(a)
    ensures item.LinkedRecord? && "id" in item.record.values && PhpString(item.record.values["id"]).Success? ==>
              LinkedIds(a + [item]) == Success(LinkedIds(a).value + [PhpString(item.record.values["id"]).value])
  {
    if |a| == 0 {
      assert [item][1..] == [];
      assert a + [item] == [item];
      assert LinkedIds([item][1..]) == Success([]);
      assert LinkedIds(a) == Success([]);
      if item.LinkedRecord? && "id" in item.record.values && PhpString(item.record.values["id"]).Success? {
        var t := PhpString(item.record.values["id"]).value;
        assert LinkedIds([item]) == Success([t] + []);
        assert [t] + [] == [] + [t];
      }
    } else {
      assert (a + [item])[0] == a[0];
      assert (a + [item])[1..] == a[1..] + [item];
      LinkedIdsAppend(a[1..], item);
      if a[0].LinkedRecord? {
        assert LinkedIds(a[1..]).Success?;
        if item.LinkedRecord? && "id" in item.record.values && PhpString(item.record.values["id"]).Success? {
          var head := PhpString(a[0].record.values["id"]).value;
          assert LinkedIds(a) == Success([head] + LinkedIds(a[1..]).value);
          assert LinkedIds(a + [item]) == Success([head] + LinkedIds(a[1..] + [item]).value);
          assert [head] + (LinkedIds(a[1..]).value + [PhpString(item.record.values["id"]).value]) ==
                 ([head] + LinkedIds(a[1..]).value) + [PhpString(item.record.values["id"]).value];
        }
      }
    }
  }

  /** An instance of a Base subclass. */
  class Record {
    const schema: ClassSchema
    var isNew: bool
    /** The initialized properties other than associations. */
    var values: map<string, Mixed>
    var originalValues: seq<(string, Mixed)>
    var errors: ErrorList
    /** The initialized association properties. */
    var related: map<string, Slot>

    /** Every record an initialized association property refers to. */
    function RelatedRecords(): set<Record>
      reads this
    {
      set n, r | n in related && r in SlotRecords(related[n]) :: r
    }

    /**
     * __construct: isNew from the creation flag, the original values when
     * they are kept, and every association property unset.
     */
    constructor (schema: ClassSchema, createNew: bool, initial: map<string, Mixed>)
      ensures this.schema == schema && isNew == createNew && errors == [] && related == map[]
      ensures originalValues == (if schema.keepAttributeChanges then ColumnValues(schema, initial) else [])
      ensures values == initial - AssociationNames(schema.properties)
    {
      this.schema := schema;
      isNew := createNew;
      values := initial;
      originalValues := [];
      errors := [];
      related := map[];
      new;
      if schema.keepAttributeChanges {
        originalValues := GetAttributes();
      }
      var associations := A.GetAll(schema);
      values := UnsetAssociations(initial, associations);
    }

    /** getAttributes() */
    method GetAttributes() returns (r: seq<(string, Mixed)>)
      ensures r == ColumnValues(schema, values)
    {
      var props := GetClassProperties(schema);
      r := CollectValues(props, values);
    }

    /** validate(): each validator's message is appended under its property; nothing is cleared. */
    method Validate()
      modifies this
      ensures errors == Validated(V.AllValidators(schema.properties), isNew, values, old(errors))
      ensures isNew == old(isNew) && values == old(values) && originalValues == old(originalValues) && related == old(related)
    {
      var vs := V.GetAll(schema);
      errors := RunValidators(vs, isNew, values, errors);
    }

    /** isValid(): validates, then holds when no error is recorded. */
    method IsValid() returns (valid: bool)
      modifies this
      ensures errors == Validated(V.AllValidators(schema.properties), isNew, values, old(errors))
      ensures valid <==> |errors| == 0
      ensures isNew == old(isNew) && values == old(values) && originalValues == old(originalValues) && related == old(related)
    {
      Validate();
      valid := |errors| == 0;
    }

    /** getErrors(validate) */
    method GetErrors(validate: bool) returns (r: ErrorList)
      modifies this
      ensures validate ==> errors == Validated(V.AllValidators(schema.properties), isNew, values, old(errors))
      ensures !validate ==> errors == old(errors)
      ensures r == errors
      ensures isNew == old(isNew) && values == old(values) && originalValues == old(originalValues) && related == old(related)
    {
      if validate {
        Validate();
      }
      r := errors;
    }

    /** getErrorMessages(validate): the messages merged property by property. */
    method GetErrorMessages(validate: bool) returns (messages: seq<string>)
      modifies this
      ensures validate ==> errors == Validated(V.AllValidators(schema.properties), isNew, values, old(errors))
      ensures !validate ==> errors == old(errors)
      ensures messages == Messages(errors)
      ensures isNew == old(isNew) && values == old(values) && originalValues == old(originalValues) && related == old(related)
    {
      var all := GetErrors(validate);
      messages := MergeMessages(all);
    }

    /**
     * save(validate) without its association loop: reject on validation
     * failure, else write the row (WriteRecord).
     */
    method SaveRecord(validate: bool, conn: Connection) returns (o: Outcome)
      modifies this, conn
      ensures o == PlanSave(conn.ctx, schema, validate, old(isNew), old(values), old(originalValues), old(errors)).outcome
      ensures conn.log == old(conn.log) +
                Executions(PlanSave(conn.ctx, schema, validate, old(isNew), old(values), old(originalValues), old(errors)).statement)
      ensures validate ==> errors == Validated(V.AllValidators(schema.properties), old(isNew), old(values), old(errors))
      ensures !validate ==> errors == old(errors)
      ensures o.Pass? && old(isNew) ==>
                values == old(values)["id" := Int(old(conn.nextId))] &&
                conn.lastInsertId == old(conn.nextId) && conn.nextId == old(conn.nextId) + 1
      ensures !(o.Pass? && old(isNew)) ==>
                values == old(values) && conn.lastInsertId == old(conn.lastInsertId) && conn.nextId == old(conn.nextId)
      ensures isNew == (old(isNew) && o.Fail?)
      ensures originalValues == (if o.Pass? && schema.keepAttributeChanges then ColumnValues(schema, old(values)) else old(originalValues))
      ensures related == old(related)
    {
      ghost var vs := V.AllValidators(schema.properties);
      ValidatedEmptyIff(vs, isNew, values, errors);
      if validate {
        var valid := IsValid();
        if !valid {
          return Fail(ValidationFailed);
        }
      }
      o := WriteRecord(conn);
    }

    /** The part of save() after validation: the INSERT or UPDATE, then the kept originals. */
    method WriteRecord(conn: Connection) returns (o: Outcome)
      modifies this, conn
      ensures o == PlanStatement(conn.ctx, schema, old(isNew), old(values), old(originalValues)).outcome
      ensures conn.log == old(conn.log) + Executions(PlanStatement(conn.ctx, schema, old(isNew), old(values), old(originalValues)).statement)
      ensures o.Pass? && old(isNew) ==>
                values == old(values)["id" := Int(old(conn.nextId))] &&
                conn.lastInsertId == old(conn.nextId) && conn.nextId == old(conn.nextId) + 1
      ensures !(o.Pass? && old(isNew)) ==>
                values == old(values) && conn.lastInsertId == old(conn.lastInsertId) && conn.nextId == old(conn.nextId)
      ensures isNew == (old(isNew) && o.Fail?)
      ensures originalValues == (if o.Pass? && schema.keepAttributeChanges then ColumnValues(schema, old(values)) else old(originalValues))
      ensures errors == old(errors) && related == old(related)
    {
      var attributes := GetAttributes();
      if isNew {
        PlanOfInsert(conn.ctx, schema, values, originalValues);
        o := InsertRecord(attributes, conn);
      } else {
        PlanOfUpdate(conn.ctx, schema, values, originalValues);
        o := UpdateRecord(attributes, conn);
      }
      if o.Pass? && schema.keepAttributeChanges {
        originalValues := attributes;
      }
    }

    /** The INSERT of a new record; on success the id is read back from lastInsertId. */
    method InsertRecord(attributes: seq<(string, Mixed)>, conn: Connection) returns (o: Outcome)
      requires isNew
      modifies this, conn
      ensures InsertSql(conn.ctx, schema.className, attributes, false).Failure? ==>
                o == Fail(InsertSql(conn.ctx, schema.className, attributes, false).error) &&
                conn.log == old(conn.log) && values == old(values) && isNew &&
                conn.lastInsertId == old(conn.lastInsertId) && conn.nextId == old(conn.nextId)
      ensures InsertSql(conn.ctx, schema.className, attributes, false).Success? ==>
                o == Pass && conn.log == old(conn.log) + [Executed(InsertSql(conn.ctx, schema.className, attributes, false).value)] &&
                values == old(values)["id" := Int(old(conn.nextId))] && !isNew &&
                conn.lastInsertId == old(conn.nextId) && conn.nextId == old(conn.nextId) + 1
      ensures originalValues == old(originalValues) && errors == old(errors) && related == old(related)
    {
      var sql := InsertSql(conn.ctx, schema.className, attributes, false);
      if sql.Failure? {
        return Fail(sql.error);
      }
      conn.ExecInsert(sql.value);
      values := values["id" := Int(conn.lastInsertId)];
      isNew := false;
      o := Pass;
    }

    /** The UPDATE of a stored record, sent only when some column changed. */
    method UpdateRecord(attributes: seq<(string, Mixed)>, conn: Connection) returns (o: Outcome)
      modifies conn
      ensures UpdateStatement(conn.ctx, schema.className, attributes, originalValues, values).Failure? ==>
                o == Fail(UpdateStatement(conn.ctx, schema.className, attributes, originalValues, values).error) &&
                conn.log == old(conn.log)
      ensures UpdateStatement(conn.ctx, schema.className, attributes, originalValues, values).Success? ==>
                o == Pass &&
                conn.log == old(conn.log) + Executions(UpdateStatement(conn.ctx, schema.className, attributes, originalValues, values).value)
      ensures conn.lastInsertId == old(conn.lastInsertId) && conn.nextId == old(conn.nextId)
    {
      var sql := UpdateStatement(conn.ctx, schema.className, attributes, originalValues, values);
      if sql.Failure? {
        return Fail(sql.error);
      }
      if sql.value.Some? {
        conn.Exec(sql.value.value);
      }
      o := Pass;
    }

    /** remove(): nothing for a new record, else DELETE by the quoted id. */
    method Remove(conn: Connection) returns (o: Outcome)
      modifies conn
      ensures isNew ==> o == Pass && conn.log == old(conn.log)
      ensures !isNew && "id" !in values ==> o == Fail(Uninitialized(schema.className, "id")) && conn.log == old(conn.log)
      ensures !isNew && "id" in values ==>
                match DeleteByIdSql(conn.ctx, schema.className, values["id"])
                case Failure(e) => o == Fail(e) && conn.log == old(conn.log)
                case Success(sql) => o == Pass && conn.log == old(conn.log) + [Executed(sql)]
      ensures conn.lastInsertId == old(conn.lastInsertId) && conn.nextId == old(conn.nextId)
    {
      if isNew {
        return Pass;
      }
      var id := ReadProperty(schema.className, values, "id");
      if id.Failure? {
        return Fail(id.error);
      }
      var sql := DeleteByIdSql(conn.ctx, schema.className, id.value);
      if sql.Failure? {
        return Fail(sql.error);
      }
      conn.Exec(sql.value);
      o := Pass;
    }

    /** isAttributeChanged(attribute): whether the value differs from the kept original. */
    function IsAttributeChanged(attribute: string): (r: Result<bool>)
      reads this
      ensures Lookup(originalValues, attribute).None? ==>
                r == Failure(Error(RecordException, "Invalid attribute or changes are not stored for this object"))
      ensures Lookup(originalValues, attribute).Some? && attribute !in values ==> r == Failure(Uninitialized(schema.className, attribute))
      ensures Lookup(originalValues, attribute).Some? && attribute in values ==>
                (r == Success(Lookup(originalValues, attribute).value != values[attribute]))
    {
      match Lookup(originalValues, attribute)
      case None => Failure(Error(RecordException, "Invalid attribute or changes are not stored for this object"))
      case Some(original) =>
        var current :- ReadProperty(schema.className, values, attribute);
        Success(original != current)
    }

    /** `$this->$name = ...`: an association property assigned, as __get does with what it loads. */
    method SetRelated(name: string, slot: Slot)
      modifies this
      ensures related == old(related)[name := slot]
      ensures isNew == old(isNew) && values == old(values) && originalValues == old(originalValues) && errors == old(errors)
    {
      related := related[name := slot];
    }

    // -------------------------------------------------------------------------
    // The association loop of save()

    lemma {:induction false} RelatedRecordsHas(name: string, r: Record)
      requires name in related && r in SlotRecords(related[name])
      ensures r in RelatedRecords()
    {
    }

    /**
     * HasOne::save(object): nothing for an unset property; a falsy value
     * deletes the related rows (deleteAll, modelled by DeleteAllSql); a
     * related record gets the foreign key and is saved with validation.
     */
    method SaveHasOne(p: PropertyDecl, foreignKey: string, conn: Connection) returns (o: Outcome)
      modifies RelatedRecords(), conn
      ensures related == old(related)
      ensures old(conn.log) <= conn.log
      ensures p.name !in related ==> o == Pass && conn.log == old(conn.log)
      ensures p.name in related && "id" !in old(values) ==> o == Fail(Uninitialized(schema.className, "id")) && conn.log == old(conn.log)
      ensures p.name in related && "id" in old(values) && HasOneFalsy(related[p.name]) ==>
                match DeleteAllSql(conn.ctx, p.declaredType, [(A.ForeignKey(foreignKey, TableName(schema.className)), old(values)["id"])])
                case Failure(e) => o == Fail(e) && conn.log == old(conn.log)
                case Success(sql) => o == Pass && conn.log == old(conn.log) + [Executed(sql)]
      ensures p.name in related && "id" in old(values) && related[p.name].Items? && |related[p.name].items| > 0 ==>
                o == Fail(Error(EngineError, "Attempt to assign property on array")) && conn.log == old(conn.log)
      ensures p.name in related && "id" in old(values) && related[p.name].OneRecord? ==>
                var r := related[p.name].record;
                var plan := PlanSave(conn.ctx, r.schema, true, old(r.isNew),
                                     old(r.values)[A.ForeignKey(foreignKey, TableName(schema.className)) := old(values)["id"]],
                                     old(r.originalValues), old(r.errors));
                o == plan.outcome && conn.log == old(conn.log) + Executions(plan.statement)
    {
      if p.name !in related {
        return Pass;
      }
      var slot := related[p.name];
      var id := ReadProperty(schema.className, values, "id");
      if id.Failure? {
        return Fail(id.error);
      }
      var fk := A.ForeignKey(foreignKey, TableName(schema.className));
      if HasOneFalsy(slot) {
        var sql := DeleteAllSql(conn.ctx, p.declaredType, [(fk, id.value)]);
        if sql.Failure? {
          return Fail(sql.error);
        }
        conn.Exec(sql.value);
        return Pass;
      }
      if slot.Items? {
        return Fail(Error(EngineError, "Attempt to assign property on array"));
      }
      RelatedRecordsHas(p.name, slot.record);
      o := SaveWithForeignKey(slot.record, fk, id.value, conn);
    }

    /**
     * HasAndBelongsToMany::save(object): read the stored links, save every
     * new related record, collect the ids, then INSERT the new links and
     * DELETE the stale ones.
     */
    method SaveHabtm(p: PropertyDecl, m: Marker, baseClasses: set<string>, conn: Connection) returns (o: Outcome)
      requires m.HabtmMarker?
      modifies RelatedRecords(), conn
      ensures related == old(related)
      ensures old(conn.log) <= conn.log
      ensures p.name !in related ==> o == Pass && conn.log == old(conn.log)
      ensures p.name in related && A.RelatedClass(m.habtmClass, p) !in baseClasses ==> o == Pass && conn.log == old(conn.log)
      ensures o.Pass? && p.name in related && A.RelatedClass(m.habtmClass, p) in baseClasses ==>
                var link := LinkTable(schema.className, m, p);
                "id" in old(values) && PhpString(old(values)["id"]).Success? &&
                var objectId := PhpString(old(values)["id"]).value;
                var query := A.ExistingIdsQuery(link.0, link.1, link.2, objectId);
                LinkedIds(SlotItems(related[p.name])).Success? &&
                exists saved: seq<Statement> :: (forall k :: 0 <= k < |saved| ==> saved[k].Executed?) &&
                  conn.log == old(conn.log) + [Queried(query)] + saved +
                              ExecutionsOf(A.LinkWrites(link.0, link.1, link.2, objectId,
                                                        LinkedIds(SlotItems(related[p.name])).value, conn.column(query)))
    {
      if p.name !in related {
        return Pass;
      }
      var relatedClass := A.RelatedClass(m.habtmClass, p);
      if relatedClass !in baseClasses {
        return Pass;
      }
      var link := LinkTable(schema.className, m, p);
      var id := ReadProperty(schema.className, values, "id");
      if id.Failure? {
        return Fail(id.error);
      }
      var objectId := PhpString(id.value);
      if objectId.Failure? {
        return Fail(objectId.error);
      }
      var items := SlotItems(related[p.name]);
      assert ItemRecords(items) <= RelatedRecords() by {
        forall r | r in ItemRecords(items) ensures r in RelatedRecords() {
          RelatedRecordsHas(p.name, r);
        }
      }
      o := SyncLinks(link, objectId.value, items, conn);
    }

    /**
     * The association loop of save(): each association's save in
     * declaration order; HasMany and BelongsTo save nothing. An exception
     * ends the loop.
     */
    method SaveAssociations(baseClasses: set<string>, conn: Connection) returns (o: Outcome)
      modifies RelatedRecords(), conn
      ensures related == old(related)
      ensures old(conn.log) <= conn.log
      ensures |A.AssociationsOf(schema.properties)| == 0 ==> o == Pass && conn.log == old(conn.log)
    {
      var associations := A.GetAll(schema);
      var i := 0;
      while i < |associations|
        invariant 0 <= i <= |associations|
        invariant related == old(related)
        invariant old(conn.log) <= conn.log
        invariant |associations| == 0 ==> conn.log == old(conn.log)
      {
        var a := associations[i];
        var outcome := Pass;
        if a.attribute.HasOneMarker? {
          outcome := SaveHasOne(a.property, a.attribute.hasOneKey, conn);
        } else if a.attribute.HabtmMarker? {
          outcome := SaveHabtm(a.property, a.attribute, baseClasses, conn);
        }
        if outcome.Fail? {
          return outcome;
        }
        i := i + 1;
      }
      o := Pass;
    }

    /** save(validate): the record's own statement, then, if it succeeded, its associations. */
    method Save(validate: bool, baseClasses: set<string>, conn: Connection) returns (o: Outcome)
      modifies this, RelatedRecords(), conn
      ensures PlanSave(conn.ctx, schema, validate, old(isNew), old(values), old(originalValues), old(errors)).outcome.Fail? ==>
                o == PlanSave(conn.ctx, schema, validate, old(isNew), old(values), old(originalValues), old(errors)).outcome &&
                conn.log == old(conn.log)
      ensures old(conn.log) + Executions(PlanSave(conn.ctx, schema, validate, old(isNew), old(values), old(originalValues), old(errors)).statement)
              <= conn.log
      ensures o.Pass? ==> PlanSave(conn.ctx, schema, validate, old(isNew), old(values), old(originalValues), old(errors)).outcome.Pass?
      ensures PlanSave(conn.ctx, schema, validate, old(isNew), old(values), old(originalValues), old(errors)).outcome.Pass? &&
              |A.AssociationsOf(schema.properties)| == 0 ==>
                o == Pass &&
                conn.log == old(conn.log) + Executions(PlanSave(conn.ctx, schema, validate, old(isNew), old(values), old(originalValues), old(errors)).statement)
      // the record's own new state, unless it is itself among the records its associations save
      ensures this !in old(RelatedRecords()) ==>
                var plan := PlanSave(conn.ctx, schema, validate, old(isNew), old(values), old(originalValues), old(errors));
                (validate ==> errors == Validated(V.AllValidators(schema.properties), old(isNew), old(values), old(errors))) &&
                (!validate ==> errors == old(errors)) &&
                isNew == (old(isNew) && plan.outcome.Fail?) &&
                values == (if plan.outcome.Pass? && old(isNew) then old(values)["id" := Int(old(conn.nextId))] else old(values)) &&
                originalValues == (if plan.outcome.Pass? && schema.keepAttributeChanges then ColumnValues(schema, old(values))
                                   else old(originalValues)) &&
                related == old(related)
    {
      o := SaveRecord(validate, conn);
      if o.Fail? {
        return;
      }
      o := SaveAssociations(baseClasses, conn);
    }
  }

  /** The array_merge loop of getErrorMessages. */
  method MergeMessages(all: ErrorList) returns (messages: seq<string>)
    ensures messages == Messages(all)
  {
    messages := [];
    var i := 0;
    while i < |all|
      invariant 0 <= i <= |all|
      invariant messages == Messages(all[..i])
    {
      assert all[..i + 1] == all[..i] + [all[i]];
      MessagesAppend(all[..i], [all[i]]);
      assert Messages([all[i]]) == all[i].1 + Messages([]);
      messages := messages + all[i].1;
      i := i + 1;
    }
    assert all[..i] == all;
  }

  /**
   * The foreach of HasAndBelongsToMany::save: each new related record is
   * saved (with validation, its own associations not cascaded), each
   * record's id collected; other entries are skipped.
   */
  method CollectLinkedIds(items: seq<Item>, conn: Connection) returns (r: Result<seq<string>>, ghost saved: seq<Statement>)
    modifies ItemRecords(items), conn
    ensures conn.log == old(conn.log) + saved
    ensures forall k :: 0 <= k < |saved| ==> saved[k].Executed?
    ensures forall x :: x in ItemRecords(items) ==> x.related == old(x.related)
    ensures r.Success? ==> r == LinkedIds(items)
  {
    saved := [];
    var ids: seq<string> := [];
    var i := 0;
    while i < |items|
      invariant 0 <= i <= |items|
      invariant conn.log == old(conn.log) + saved
      invariant forall k :: 0 <= k < |saved| ==> saved[k].Executed?
      invariant forall x :: x in ItemRecords(items) ==> x.related == old(x.related)
      invariant forall k :: 0 <= k < i && items[k].LinkedRecord? ==> !items[k].record.isNew
      invariant LinkedIds(items[..i]) == Success(ids)
    {
      if items[i].LinkedRecord? {
        assert items[i].record in ItemRecords(items);
        var next, more := CollectOne(items, i, ids, conn);
        saved := saved + more;
        if next.Failure? {
          return Failure(next.error), saved;
        }
        ids := next.value;
      } else {
        assert items[..i + 1] == items[..i] + [items[i]];
        LinkedIdsAppend(items[..i], items[i]);
      }
      i := i + 1;
    }
    assert items[..i] == items;
    r := Success(ids);
  }

  /** One record entry of that foreach, after the entries before it collected `ids`. */
  method CollectOne(items: seq<Item>, i: nat, ids: seq<string>, conn: Connection)
      returns (r: Result<seq<string>>, ghost more: seq<Statement>)
    requires i < |items| && items[i].LinkedRecord?
    requires LinkedIds(items[..i]) == Success(ids)
    requires forall k :: 0 <= k < i && items[k].LinkedRecord? ==> !items[k].record.isNew
    modifies items[i].record, conn
    ensures conn.log == old(conn.log) + more
    ensures forall k :: 0 <= k < |more| ==> more[k].Executed?
    ensures items[i].record.related == old(items[i].record.related)
    ensures r.Success? ==> LinkedIds(items[..i + 1]) == r
    ensures r.Success? ==> forall k :: 0 <= k <= i && items[k].LinkedRecord? ==> !items[k].record.isNew
  {
    var record := items[i].record;
    ghost var prefix := items[..i];
    assert record.isNew ==> record !in ItemRecords(prefix);
    var id;
    id, more := LinkedId(record, conn);
    if old(record.isNew) {
      assert record !in ItemRecords(prefix);
    } else {
      assert unchanged(record);
    }
    assert forall x :: x in ItemRecords(prefix) ==> unchanged(x);
    LinkedIdsFrame(prefix);
    if id.Failure? {
      return Failure(id.error), more;
    }
    assert items[..i + 1] == prefix + [items[i]];
    LinkedIdsAppend(prefix, items[i]);
    r := Success(ids + [id.value]);
    forall k | 0 <= k <= i && items[k].LinkedRecord?
      ensures !items[k].record.isNew
    {
      if k < i && items[k].record != record {
        assert items[k].record in ItemRecords(prefix);
      }
    }
  }

  /** The ids depend on the records of the items only. */
  twostate lemma LinkedIdsFrame(items: seq<Item>)
    requires forall x :: x in ItemRecords(items) ==> unchanged(x)
    ensures LinkedIds(items) == old(LinkedIds(items))
  {
  }

  /** One iteration of that foreach: save the record if it is new, then read its id as a string. */
  method LinkedId(record: Record, conn: Connection) returns (r: Result<string>, ghost saved: seq<Statement>)
    modifies record, conn
    ensures conn.log == old(conn.log) + saved
    ensures forall k :: 0 <= k < |saved| ==> saved[k].Executed?
    ensures record.related == old(record.related)
    ensures !old(record.isNew) ==> unchanged(record) && saved == []
    ensures r.Success? ==> !record.isNew && "id" in record.values && PhpString(record.values["id"]) == Success(r.value)
  {
    saved := [];
    if record.isNew {
      label beforeSave:
      var outcome := record.SaveRecord(true, conn);
      saved := Executions(PlanSave(conn.ctx, record.schema, true, true, old@beforeSave(record.values),
                                   old@beforeSave(record.originalValues), old@beforeSave(record.errors)).statement);
      if outcome.Fail? {
        return Failure(outcome.error), saved;
      }
    }
    var id := ReadProperty(record.schema.className, record.values, "id");
    if id.Failure? {
      return Failure(id.error), saved;
    }
    r := PhpString(id.value);
  }

  /**
   * The part of HasAndBelongsToMany::save after the owner id is known: read
   * the stored links, save and collect the related ids, then write the link changes.
   */
  method SyncLinks(link: (string, string, string), objectId: string, items: seq<Item>, conn: Connection) returns (o: Outcome)
    modifies ItemRecords(items), conn
    ensures forall x :: x in ItemRecords(items) ==> x.related == old(x.related)
    ensures old(conn.log) <= conn.log
    ensures o.Pass? ==>
              var query := A.ExistingIdsQuery(link.0, link.1, link.2, objectId);
              LinkedIds(items).Success? &&
              exists saved: seq<Statement> :: (forall k :: 0 <= k < |saved| ==> saved[k].Executed?) &&
                conn.log == old(conn.log) + [Queried(query)] + saved +
                            ExecutionsOf(A.LinkWrites(link.0, link.1, link.2, objectId, LinkedIds(items).value, conn.column(query)))
  {
    var query := A.ExistingIdsQuery(link.0, link.1, link.2, objectId);
    var existing := conn.QueryColumn(query);
    var newIds, saved := CollectLinkedIds(items, conn);
    if newIds.Failure? {
      return Fail(newIds.error);
    }
    var writes := A.LinkWrites(link.0, link.1, link.2, objectId, newIds.value, existing);
    ExecAll(writes, conn);
    o := Pass;
  }

  /** The exec of each statement, in order. */
  method ExecAll(sqls: seq<string>, conn: Connection)
    modifies conn
    ensures conn.log == old(conn.log) + ExecutionsOf(sqls)
  {
    var j := 0;
    while j < |sqls|
      invariant 0 <= j <= |sqls|
      invariant conn.log == old(conn.log) + ExecutionsOf(sqls[..j])
    {
      conn.Exec(sqls[j]);
      assert sqls[..j + 1] == sqls[..j] + [sqls[j]];
      ExecutionsOfAppend(sqls[..j], sqls[j]);
      j := j + 1;
    }
    assert sqls[..j] == sqls;
  }

  /** A has-one property value that `!$relatedObject` takes as false: null or an empty array. */
  predicate HasOneFalsy(slot: Slot) {
    slot.NullSlot? || (slot.Items? && |slot.items| == 0)
  }

  /** The entries foreach visits in a has-and-belongs-to-many property (null and objects give none here). */
  function SlotItems(slot: Slot): (r: seq<Item>)
    ensures ItemRecords(r) <= SlotRecords(slot)
  {
    if slot.Items? then slot.items else []
  }

  /** The intermediate table and the two foreign keys, as HasAndBelongsToMany::save computes them. */
  function LinkTable(ownerClass: string, m: Marker, p: PropertyDecl): (r: (string, string, string))
    requires m.HabtmMarker?
    ensures !Truthy(m.objectForeignKey) ==> r.1 == TableName(ownerClass) + "_id"
    ensures !Truthy(m.relatedForeignKey) ==> r.2 == TableName(A.RelatedClass(m.habtmClass, p)) + "_id"
    ensures m.intermediateTable == TableText("") ==>
              r.0 == A.DefaultIntermediate(TableName(ownerClass), TableName(A.RelatedClass(m.habtmClass, p)))
  {
    var objectTable := TableName(ownerClass);
    var relatedTable := TableName(A.RelatedClass(m.habtmClass, p));
    (A.IntermediateTable(m.intermediateTable, objectTable, relatedTable),
     A.ForeignKey(m.objectForeignKey, objectTable),
     A.ForeignKey(m.relatedForeignKey, relatedTable))
  }

  /** deleteAll(criteria), which the shown code calls but does not define: DELETE with the criteria as conditions. */
  function DeleteAllSql(ctx: RenderContext, cls: string, criteria: seq<(string, Mixed)>): (r: Result<string>)
    ensures r.Success? <==> Conditions(ctx, criteria).Success?
    ensures r.Success? ==> r.value == "DELETE FROM " + QuotedTable(ctx, cls) + QueryPart("WHERE", Conditions(ctx, criteria).value)
  {
    var condition :- Conditions(ctx, criteria);
    Success("DELETE FROM " + QuotedTable(ctx, cls) + QueryPart("WHERE", condition))
  }

  function ExecutionsOf(sqls: seq<string>): seq<Statement> {
    if |sqls| == 0 then [] else [Executed(sqls[0])] + ExecutionsOf(sqls[1..])
  }

  lemma {:induction false} ExecutionsOfAppend(a: seq<string>, s: string)
    ensures ExecutionsOf(a + [s]) == ExecutionsOf(a) + [Executed(s)]
  {
    if |a| == 0 {
      assert ExecutionsOf([s]) == [Executed(s)] + ExecutionsOf([]);
    } else {
      assert (a + [s])[0] == a[0];
      assert (a + [s])[1..] == a[1..] + [s];
      ExecutionsOfAppend(a[1..], s);
    }
  }

}
