# ActiveRecord (GForces-PL/ActiveRecord), modelled in Dafny

A PHP 8 active-record library. Each table is a subclass of `Base`. PHP
attributes on the subclass's properties say which properties are columns,
primary keys, validators and associations (has-one, has-many, belongs-to,
has-and-belongs-to-many). The static side of `Base` builds SQL text:
`SELECT` queries for the finders and `count`, `INSERT`, `UPDATE`, and the
conditions built by `condition` / `conditions`. It also keeps a per-class
registry of connections and connection providers. The instance side runs a
record's lifecycle:

- construction;
- validation, whose errors accumulate on the record;
- `save`, as an `INSERT` or an `UPDATE` of the changed columns, followed by
  each association's save;
- `remove`, change tracking, and lazy loading of associations through
  `__get`.

There is a second way to write conditions. `Expression` trees (`Compare`,
`In`, `NotIn`, `Between`, `Not`, `BooleanExpr`, `Identifier`, `Value`,
`Simple`) render to SQL text against a connection's quoting rules. They are
built from criteria arrays and from the property expressions `eq` … `notIn`.

The model is split into modules, one per part of the library:

| module | models |
|---|---|
| `Wrappers` | `Option`, `Result` and `Outcome`. A PHP exception is a `Failure` carrying its kind and message. |
| `Strings` | Only the PHP string primitives the core relies on: `implode`, `(string)` of an int (with its parsing partner), `strtolower`, `strcmp` and string truthiness. |
| `ExpressionTree` | The PHP values an expression may hold, the expression nodes, the property expressions, `ComparisonOperator`, `DbExpression`, and the quoting rules of a connection (`RenderContext`). |
| `Rendering` | The `__toString` of every node, under two revisions of the source: as written, and with the misspelt method fixed. Also PHP's string conversion. |
| `ExpressionBuilder` | `getValueExpression`, each property expression's `getExpression`, `buildForAttribute`, `buildExpressions`, `and`/`or`/`xor` and `now`. |
| `Statements` | `Base`'s static SQL builders and the queries the finders issue. |
| `Connections` | A connection as a log of the statements it received. Providers. `Base`'s two static registries. |
| `Schema` | The reflection metadata the library reads, written out as data: classes, properties and attributes. |
| `Columns`, `PropertyAttributes`, `Validators` | `Column`, `PropertyAttribute` / `PrimaryKey`, and `Validator` / `Required` / `Length`. |
| `Associations` | Association discovery and naming defaults. What each `load` queries and yields. The link statements of a has-and-belongs-to-many save. |
| `Persistence` | The `Record` class: `Base`'s instance side, with `save` for has-one and has-and-belongs-to-many. |

Reflection is replaced by explicit metadata (`Schema.ClassSchema`). A
record's typed properties are a map from name to value, so an uninitialised
property is a missing key; reading one is PHP's "must not be accessed before
initialization" `Error`.

A connection is the `Connections.Connection` class. It records every
`query` and `exec` in order, hands out auto-increment ids, and answers
`fetchAll(PDO::FETCH_COLUMN)` through a function given to it. The quoting
rules `quote` and `quoteIdentifier`, and PHP's `json_encode`, are
parameters (`RenderContext`).

Query results are inputs too: a load takes the rows it would have fetched.

Where the tests in `tests/` and the code of `src/` disagree, the model
follows the code:

- **`NOW()` in a condition.** `Base::condition` passes an `Expression` value
  to `quote`, so it gives `` `updated_at` = 'NOW()' `` under quote-wrapping.
  The test expects `NOW()` unquoted (`Statements.ConditionQuotesExpression`).
- **Enums and dates in a condition.** `condition` hands them to
  `quote(string)`, which throws a `TypeError`
  (`Statements.ConditionRejectsEnumAndDate`).
- **`findAll`'s default order.** The default is `'id ASC'`
  (`Statements.FindAllOrder`). The test at tests/Base.spec.php:74-78
  expects no `ORDER BY` clause.
- **Connections from Base's provider.** `getConnection` caches a
  provider's connection under the asking class only (src/Base.php:100). A
  second class therefore asks the provider again and gets its new answer
  (`Connections.ProviderAnswerNotShared`). The test at
  tests/Base.spec.php:299-306 expects the first class's connection.
- **Features only the tests mention.** `exists`, `deleteAll`,
  `onDuplicateKeyUpdate` and `$modelsNamespacePrefix` appear in the tests
  but are not defined in `src/Base.php`.

## Model

| member | source | states |
|---|---|---|
| ExpressionTree.Symbol | src/Expressions/ComparisonOperator.php:5-13 | every operator has a non-empty backing string |
| ExpressionTree.SymbolInjective | src/Expressions/ComparisonOperator.php:5-13 | no two operators share a backing string |
| ExpressionTree.IsNullMeansNestedNull | src/Expressions/Value.php:19-22 | a Value is null only if it wraps null, or wraps a Value node that is itself null |
| ExpressionTree.NewCompare | src/Expressions/Compare.php:11-21 | `=` becomes `IS` and `<>` becomes `IS NOT` exactly when the right operand is a null Value node; every other case keeps the backing string; the operands are kept |
| Rendering.Quote | src/Expressions/Value.php:27-39 | with a connection, the text is that connection's quoting of the string; without one, the uninitialised-connection Error |
| Rendering.RenderIn | src/Expression.php:55-60 | every node's `__toString` under either revision; a composite node hands its own connection to its children. Its partners: RenderSucceedsIffRenderable (when it succeeds), the per-node text lemmas below, RevisionsAgree and AsWrittenCompareAlwaysThrows (how the two revisions relate) |
| Rendering.RenderAllIn | src/Expression.php:55-60 | the children, rendered in order under the parent's connection, first exception winning; its partners are RenderAllSucceedsIffRenderable and RenderAllElementwise |
| Rendering.RenderValueIn | src/Expressions/Value.php:27-68 | the dispatch of `Value::__toString` on gettype and on the object's class; its partner is RenderValueSucceedsIffRenderable |
| Rendering.Render | src/Expressions/Between.php:13-17 | `__toString` with `setConnection` called, as Between and NotIn do; the text of each node is stated by RenderCompareStep, RenderInStep, NotInIsNegatedIn, BetweenRenders, NotRenders and BooleanGrouping |
| Rendering.RenderAll | src/Expressions/BooleanExpr.php:19-25 | the intended revision of the children's rendering; RenderAllElementwise states its k-th text |
| Rendering.RenderValue | src/Expressions/Value.php:27-39 | the intended revision of a Value's rendering; RenderValueSucceedsIffRenderable states when it succeeds |
| Rendering.RenderAsWritten | src/Expressions/Compare.php:23-27 | `__toString` as written; AsWrittenCompareAlwaysThrows and RevisionsAgree state where it differs from Render |
| Rendering.PhpString | src/Base.php:279-285 | PHP's string conversion: an int becomes its decimal text, a string stays as it is, an expression renders without a connection |
| Rendering.StringArgument | src/Expressions/Simple.php:9-11 | passing a value to the `string` parameter of a function declared in PHP (`new Simple($value)`): booleans, ints, strings and Stringable objects convert as `(string)` does; null, arrays, resources and every other object are a TypeError |
| Rendering.InternalStringArgument | src/Base.php:240 | passing a value to PDO::quote's `string` parameter: the same, except that null becomes "" |
| Rendering.RenderSucceedsIffRenderable | src/Expressions/Value.php:27-68 | rendering succeeds exactly on trees whose leaves can be rendered (with or without a connection), and fails only with a rendering error |
| Rendering.RenderValueSucceedsIffRenderable | src/Expressions/Value.php:45-68 | the same if-and-only-if for a Value node's dispatch on the kind of value |
| Rendering.RenderAllSucceedsIffRenderable | src/Expression.php:55-60 | a list of children renders exactly when every child does, with one text per child |
| Rendering.RenderAllElementwise | src/Expressions/BooleanExpr.php:19-25 | the k-th rendered text is the k-th child's text |
| Rendering.UnconnectedLeaves | src/Expressions/Identifier.php:16-19 | without a connection, a Simple node is its own text and an Identifier throws |
| Rendering.RenderCompareStep | src/Expressions/Compare.php:23-27 | a Compare renders as left operand, operator text, right operand, separated by spaces |
| Rendering.RenderInStep | src/Expressions/In.php:19-23 | IN / NOT IN render the operand, then the values joined by ", " inside parentheses |
| Rendering.NotInIsNegatedIn | src/Expressions/NotIn.php:19-23 | NOT IN renders exactly when IN does, and is IN's text with " NOT" inserted after the operand |
| Rendering.BooleanGrouping | src/Expressions/BooleanExpr.php:19-25 | the children are joined by the upper-case operator name; OR and XOR groups are parenthesised and AND groups are not |
| Rendering.EmptyBooleanExpr | src/Expressions/BooleanExpr.php:19-25 | an empty AND is "" and an empty OR or XOR is "()", with or without a connection |
| Rendering.SingletonAnd | src/Expressions/BooleanExpr.php:19-25 | an AND of one element is that element |
| Rendering.NotRenders | src/Expressions/Not.php:16-20 | NOT throws without a connection; with one it is "NOT " before the child's text, the child rendered under the same connection, or the child's exception |
| Rendering.NotOfAndUnparenthesised | src/Expressions/Not.php:19 | NOT over `a AND b` gives `NOT a AND b`: no parentheses are added |
| Rendering.DoubleNotKept | src/Expressions/Not.php:19 | NOT of NOT gives "NOT NOT " before the text: nothing is cancelled |
| Rendering.BetweenRenders | src/Expressions/Between.php:13-17 | BETWEEN throws without a connection; with one, `x BETWEEN lo AND hi` from the three children rendered under that connection, in construction order, first exception winning, with no parentheses and no comparison of the bounds |
| Rendering.ReversedBoundsKept | src/Expressions/Between.php:16 | `` `age` BETWEEN 10 AND 5 ``: a lower bound above the upper is written as given |
| Rendering.NullComparison | src/Expressions/Compare.php:11-27 | comparing an identifier with a null Value renders `IS NULL` / `IS NOT NULL` for = / <>, and the operator symbol before NULL otherwise |
| Rendering.SimpleNullKeepsEquals | src/Expressions/Compare.php:11-21 | a Simple "NULL" operand is not a null Value node, so `=` is kept |
| Rendering.TestContext | src/Connection.php:29-32 | a MySQL-like connection: identifiers between backticks, the driver's quoting character; values in single quotes |
| Rendering.IntendedCompareRenders | tests/Expression.spec.php:27 | `` `name` = 'John' `` under the corrected revision |
| Rendering.MisspelledSetConnectionBreaksCompare | src/Expressions/Compare.php:23-27 | the same Compare throws "Call to undefined method …::setConection()" as written |
| Rendering.RevisionsAgree | src/Expressions/Not.php:16-20 | a tree that reaches no Compare, In or Not node renders the same under both revisions |
| Rendering.ValueRevisionsAgree | src/Expressions/Value.php:27-39 | the same for a Value node |
| Rendering.RevisionsAgreeAll | src/Expressions/BooleanExpr.php:19-25 | the same for a list of children |
| Rendering.AsWrittenCompareAlwaysThrows | src/Expressions/In.php:19-23 | as written, reaching a Compare, In or Not node throws whatever the connection |
| ExpressionBuilder.ValueExpression | src/PropertyExpression.php:55-58 | an Expression is used as it is; any other value is wrapped in a Value node |
| ExpressionBuilder.ValueExpressions | src/PropertyExpressions/In.php:15-21 | one node per value, in order |
| ExpressionBuilder.GetExpression | src/PropertyExpressions/Compare.php:16-19 | each property-expression kind gives its node over `Identifier(attribute)`, with its values wrapped element by element |
| ExpressionBuilder.BuildForAttribute | src/Expression.php:35-44 | an array gives `in`, a property expression is applied as it is, any other value gives `eq` |
| ExpressionBuilder.BuildEntry | src/Expression.php:46-53 | a string key names an attribute; under an int key an Expression is kept and anything else becomes a Simple node, or a TypeError when it cannot be a string |
| ExpressionBuilder.BuildExpressions | src/Expression.php:46-53 | one expression per entry, in order, exactly when every entry builds |
| ExpressionBuilder.Combine | src/Expression.php:20-33 | and/or/xor succeed exactly when the entries build, and group them under the operator |
| ExpressionBuilder.NowRenders | src/Expression.php:15-18 | `now()` renders NOW() under any connection, the same text as DbExpression::now() |
| ExpressionBuilder.BuildForAttributeEquality | src/Expression.php:35-44 | a scalar value gives `` `attr` = <rendered value> `` |
| ExpressionBuilder.BuildForAttributeNull | src/Expression.php:35-44 | null gives `IS NULL`, and `ne(null)` gives `IS NOT NULL` |
| ExpressionBuilder.RenderedValues | src/Expressions/Value.php:27-39 | each scalar renders, and the texts are listed in order |
| ExpressionBuilder.RenderScalars | src/Expressions/In.php:19-23 | a list of scalar Value nodes renders to their texts, in order |
| ExpressionBuilder.BuildForAttributeList | src/Expression.php:35-44 | an array of scalars gives `` `attr` IN (v1, v2, …) ``, and `notIn` the same with NOT IN |
| ExpressionBuilder.ExampleNameEqualsJohn | tests/Expression.spec.php:27 | the test's `` `name` = 'John' `` |
| ExpressionBuilder.ExampleAgeEquals5 | tests/Expression.spec.php:28 | the test's `` `age` = 5 `` |
| ExpressionBuilder.ExampleUnitEnum | tests/Expression.spec.php:30 | a unit enum renders its quoted case name: `` `statue` = 'on' `` |
| ExpressionBuilder.ExampleIntBackedEnum | tests/Expression.spec.php:31 | an int-backed enum renders its bare value: `` `status` = 404 `` |
| ExpressionBuilder.ExampleStringBackedEnum | tests/Expression.spec.php:32 | a string-backed enum renders its quoted value: `` `symbol` = 'D' `` |
| ExpressionBuilder.ExampleTypeIsNull | tests/Expression.spec.php:33 | `` `type` IS NULL `` and `` `type` IS NOT NULL `` |
| ExpressionBuilder.ExampleDateText | tests/Expression.spec.php:29 | the Y-m-d H:i:s text of a date, with zero padding |
| ExpressionBuilder.BuildForAttributeDate | src/Expressions/Value.php:45-68 | a date renders as the quoted Y-m-d H:i:s text |
| ExpressionBuilder.ComparisonRenders | src/PropertyExpressions/functions.php:6-44 | a comparison property expression gives `attr <symbol> value` for every operator |
| ExpressionBuilder.ExampleNotEqual | tests/Expression.spec.php:61 | `` `name` <> 'John' `` |
| ExpressionBuilder.ExampleGreaterThan | tests/Expression.spec.php:62 | `` `age` > 5 `` |
| ExpressionBuilder.ExampleLessOrEqual | tests/Expression.spec.php:65 | `` `age` <= 10 `` |
| ExpressionBuilder.ExampleNumbers | tests/Expression.spec.php:44-49 | the IN values 5, 10, 15 render bare |
| ExpressionBuilder.ExampleNames | tests/Expression.spec.php:44-49 | the IN values John, Bill render quoted |
| ExpressionBuilder.OrOfTwo | src/Expressions/BooleanExpr.php:19-25 | two rendered conditions under OR form one parenthesised group, in order |
| ExpressionBuilder.CombineTwoAttributes | src/Expression.php:20-33 | two attribute entries give one group of their two conditions, in order |
| ExpressionBuilder.ExampleOrGroup | tests/Expression.spec.php:92-99 | `or(['name' => 'Bill', 'age' => gt(5)])` renders `` (`name` = 'Bill' OR `age` > 5) `` |
| ExpressionBuilder.PositionalEntries | src/Expression.php:46-53 | under an int key a string passes through as raw SQL, an Expression is kept, and null is a TypeError |
| Statements.Underscore | src/Base.php:116-119 | the underscore insertion never shortens the name |
| Statements.TableName | src/Base.php:116-119 | a table name has no upper-case letter |
| Statements.UnderscoreOnlyInserts | src/Base.php:116-119 | the replacement only inserts '_': deleting them gives back a name that had none |
| Statements.TableNameVehicle | tests/Base.spec.php:312 | Vehicle → vehicle |
| Statements.TwoWordTableName | src/Base.php:116-119 | two capitalised words give `word1_word2`, lower-cased |
| Statements.TableNameVehicleOwner | tests/Base.spec.php:313 | VehicleOwner → vehicle_owner |
| Statements.TableNameNoOverlap | src/Base.php:116-119 | matches do not overlap: ABC → a_bc |
| Statements.OptionalIntText | src/Base.php:157-166 | a null limit or offset has the empty text |
| Statements.BuildQueryLayout | src/Base.php:157-171 | a query is `SELECT … FROM table` followed by the truthy clauses only, in the fixed order joins, WHERE, ORDER BY, LIMIT, OFFSET |
| Statements.NoLimitClause | src/Base.php:168-171 | a null or zero limit or offset adds nothing |
| Statements.JoinsClause | src/Base.php:157-166 | non-empty joins follow the table after two spaces |
| Statements.DefaultQueryText | tests/Base.spec.php:74-78 | the defaults give `` SELECT * FROM `table` `` |
| Statements.AllClauses | src/Base.php:157-166 | with every clause present they appear in the order joins, WHERE, ORDER BY, LIMIT, OFFSET |
| Statements.ClausesWithoutJoins | src/Base.php:157-166 | without joins the same order holds, with no gap after the table |
| Statements.FullQueryText | tests/Base.spec.php:79-84 | `findAll('criteria', 'id', 100, 200)` gives `` SELECT * FROM `table` WHERE criteria ORDER BY id LIMIT 100 OFFSET 200 `` |
| Statements.QuoteValue | src/Base.php:147-155 | a bool becomes 1/0, an int stays bare, null becomes NULL, a string is quoted, an array is a TypeError |
| Statements.QuotedArgument | src/Base.php:147-155 | any other value is quoted after its conversion to a string argument, failing exactly when that conversion fails |
| Statements.QuoteValues | src/Base.php:142-145 | one text per value, in order, exactly when every value quotes |
| Statements.Condition | src/Base.php:126-135 | each value type gives its condition: `=` for bool, int and string, `IS NULL` for null, `IN (…)` for an array |
| Statements.ConditionTexts | src/Base.php:137-140 | one condition per attribute, in order, exactly when every one builds |
| Statements.Conditions | src/Base.php:137-140 | the conditions joined with " AND " |
| Statements.ConditionAgreesWithExpression | src/Base.php:126-135 | for null, booleans, ints, strings and arrays of those, `condition` and `buildForAttribute` give the same SQL text |
| Statements.PlainValueAgrees | src/Base.php:147-155 | a plain value quotes as its Value node renders |
| Statements.PlainValuesAgree | src/Base.php:142-145 | the same, element by element, for a list |
| Statements.ConditionRejectsEnumAndDate | src/Base.php:147-155 | an enum or a date, which an expression renders, makes `condition` fail |
| Statements.ConditionQuotesExpression | src/Base.php:147-155 | an Expression value passes through `quote`: `` `attr` = quote("NOW()") `` |
| Statements.QuoteIdentifiers | src/Base.php:121-124 | each key is quoted as an identifier, in order |
| Statements.Keys | src/Base.php:72-78 | the keys of the attributes, in order |
| Statements.Values | src/Base.php:72-78 | the values of the attributes, in order |
| Statements.InsertSql | src/Base.php:72-78 | the INSERT (optionally IGNORE) statement with the quoted columns and values, failing exactly when a value fails to quote |
| Statements.InsertAligned | src/Base.php:72-78 | the k-th column and the k-th value come from the same attribute |
| Statements.InsertExample | tests/Base.spec.php:189-198 | the test's INSERT, with and without IGNORE |
| Statements.Assignments | src/Base.php:80-88 | one `` `col` = value `` per attribute, in order |
| Statements.UpdateAllSql | src/Base.php:80-88 | no statement for an empty array; otherwise `UPDATE table SET …` followed by the WHERE part when the condition is truthy |
| Statements.UpdateAllExample | tests/Base.spec.php:227-231 | `` UPDATE `table` SET `attribute` = 'value' WHERE criteria `` |
| Statements.DeleteByIdSql | src/Base.php:234-241 | `DELETE FROM table WHERE id = quote(id)`, failing exactly when the id cannot be passed to PDO::quote |
| Statements.NullIdDeletesEmptyId | src/Base.php:240 | a null id is passed to PDO::quote as "", so the statement deletes `WHERE id = quote("")` |
| Statements.FindFirstByAttributeQuery | src/Base.php:48-51 | the findFirst query over `condition(attribute, value)`, failing exactly when the condition does |
| Statements.FindFirstByAttributesQuery | src/Base.php:53-56 | the findFirst query over `conditions(attributes)`, failing exactly when the conditions do |
| Statements.FindQuery | src/Base.php:30-35 | `find(id)` issues exactly the query of `findFirstByAttribute('id', id)` |
| Statements.FindFirstText | src/Base.php:43-46 | findFirst without an order is `SELECT * FROM t WHERE criteria LIMIT 1` |
| Statements.FindQueryText | src/Base.php:30-35 | `` SELECT * FROM t WHERE `id` = n LIMIT 1 `` |
| Statements.FindResult | src/Base.php:30-35 | the first row, or the not-found exception naming the id and the class, exactly when there is no row |
| Statements.FirstRow | src/Base.php:43-46 | the first row exactly when there is one, else null |
| Statements.CountQueryText | src/Base.php:66-70 | `SELECT COUNT(*) FROM table`, with a WHERE clause exactly when the criteria are truthy, and never ordered or limited |
| Connections.Connection.Exec | src/Connection.php:40-44 | the statement is appended to the log, and the ids are unchanged |
| Connections.Connection.ExecInsert | src/Connection.php:40-44 | an insert is logged, and lastInsertId becomes the new row's id |
| Connections.Connection.QueryColumn | src/Connection.php:34-38 | the query is logged, and it returns that query's column |
| Connections.ProviderIn | src/Base.php:111-114 | the class's own provider, else Base's, else the "not set" exception, in that order |
| Connections.ResolveSucceeds | src/Base.php:98-101 | a class resolves a connection exactly when its own connection, Base's connection, its own provider or Base's provider is set |
| Connections.OwnConnectionFirst | tests/Base.spec.php:278-282 | a class's own connection beats everything else |
| Connections.SetConnectionIsolated | tests/Base.spec.php:254-270 | setting one class's connection leaves what every other class resolves unchanged |
| Connections.SetProviderIsolated | src/Base.php:103-106 | setting one class's provider leaves what every other class resolves unchanged |
| Connections.BaseConnectionShared | tests/Base.spec.php:274-277 | Base's connection serves every class without its own, ahead of any provider |
| Connections.ProviderAnswerNotShared | src/Base.php:98-101 | a connection from Base's provider is cached under the asking class only, so a second class gets what the provider answers on its own call |
| Connections.Registry.SetConnection | src/Base.php:90-93 | only the class's connection slot changes |
| Connections.Registry.SetConnectionProvider | src/Base.php:103-106 | only the class's provider slot changes |
| Connections.Registry.GetConnection | src/Base.php:98-101 | it returns the resolution, where a provider's answer is that call's; it caches that answer in the class's own slot only when neither connection slot was set, and the class then resolves to it whatever a provider would answer later |
| Schema.FindProperty | src/Association.php:41-44 | the declared property of that name, or none when no property has the name |
| Schema.ReadProperty | src/Base.php:243-253 | the value of an initialised property, and the uninitialised-property Error exactly otherwise |
| Columns.ColumnProperties | src/Column.php:24-36 | exactly the properties carrying the Column attribute |
| Columns.ObjectValues | src/Column.php:11-22 | each pair is an initialised property's name and value, and every initialised property appears |
| Columns.UnmarkedNeverListed | src/Column.php:11-36 | a property without the Column attribute never appears among an object's column values |
| Columns.GetClassProperties | src/Column.php:24-36 | the loop computes ColumnProperties |
| Columns.CollectValues | src/Column.php:11-22 | the loop computes ObjectValues |
| Columns.ColumnCache.GetObjectValues | src/Column.php:11-22 | the values come from the class's column properties; the first call fills the cache entry and later calls leave it unchanged; the cache stays valid |
| PropertyAttributes.KeyMarkers | src/PropertyAttribute.php:84-87 | only PrimaryKey attributes, none exactly when the property has none |
| PropertyAttributes.KeyProperties | src/PropertyAttribute.php:68-78 | exactly the properties with a PrimaryKey attribute |
| PropertyAttributes.Bind | src/PropertyAttribute.php:34-45 | one bound instance per attribute, in order |
| PropertyAttributes.AllBoundSound | src/PropertyAttribute.php:34-45 | every instance is a PrimaryKey bound to a property of the class |
| PropertyAttributes.AllBoundOfKeyProperties | src/PropertyAttribute.php:34-45 | walking only getProperties' result loses no instance |
| PropertyAttributes.GetProperties | src/PropertyAttribute.php:68-78 | the loop computes KeyProperties |
| PropertyAttributes.GetValues | src/PropertyAttribute.php:18-28 | the initialised key properties and their values |
| PropertyAttributes.BindEach | src/PropertyAttribute.php:34-45 | the inner loop computes Bind |
| PropertyAttributes.GetAll | src/PropertyAttribute.php:34-45 | the nested loop computes AllBound |
| PropertyAttributes.Get | src/PropertyAttribute.php:50-62 | the first key attribute bound to the named property; a missing property or one without the attribute is an exception, in both directions |
| PropertyAttributes.ColumnGet | src/PrimaryKey.php:14-26 | a found property has the name and the Column attribute |
| PropertyAttributes.PrimaryKeyValues | src/PrimaryKey.php:14-26 | the initialised key values when there are any; else ['id' => id]; no id column is an exception; an uninitialised id is the property Error |
| PropertyAttributes.UninitializedKeysFallBack | src/PrimaryKey.php:14-26 | key properties that are all uninitialised fall back to id |
| PropertyAttributes.InitializedKeyReturned | src/PrimaryKey.php:14-26 | an initialised key property is always among the values |
| Validators.ValidatorsOf | src/Validator.php:19-33 | only validator attributes of the property, bound to it |
| Validators.AllValidatorsSound | src/Validator.php:19-33 | every validator is a Validator attribute of the property it is bound to |
| Validators.TwoRequiredOnOneProperty | src/Validator.php:19-33 | several validators on one property are all kept, in order |
| Validators.GetAll | src/Validator.php:19-33 | the nested loop computes AllValidators |
| Validators.PhpEmptyValues | src/Validators/Required.php:23-29 | exactly null, false, 0, "", "0" and [] count as empty |
| Validators.RequiredTest | src/Validators/Required.php:23-29 | an uninitialised property passes exactly when the object is stored; a set one passes exactly when it is not empty |
| Validators.RequiredIgnoresNewnessWhenSet | src/Validators/Required.php:23-29 | for a set property, newness does not matter |
| Validators.Perform | src/Validator.php:38-57 | passes exactly when the test does; otherwise a Validation with the message when it is truthy, else "<property> is required" |
| Validators.ZeroMessageFallsBack | src/Validator.php:51-57 | a message of "0" is falsy, so the default replaces it |
| Validators.LengthBoundsInclusive | src/Validators/Length.php:19-24 | both bounds are inclusive and a null bound is no bound |
| Validators.LengthPerformAsWritten | src/Validators/Length.php:19-24 | as written, an in-range value passes and an out-of-range one raises an engine Error (the imported exception class cannot be found), never the Validation with the message |
| Validators.LengthReportsWrongError | src/Validators/Length.php:6 | "ab" under a minimum of 3 raises `Class "ActiveRecord\Exception\Validation" not found` as written, unlike the corrected validator |
| Validators.LengthPerform | src/Validators/Length.php:19-24 | corrected: fails exactly when out of range, with the message |
| Validators.LengthRevisionsAgreeOnPass | src/Validators/Length.php:19-24 | both revisions pass on exactly the same values, and differ on every out-of-range value |
| Validators.LengthNeverDiscovered | src/Validator.php:19-33 | Length does not extend Validator, so it is never among a class's validators |
| Associations.FirstAssociation | src/Association.php:46-56 | the first association attribute, and none exactly when there is none |
| Associations.AssociationFromProperty | src/Association.php:46-56 | succeeds exactly when the property has an association attribute, binding the first one; else the "not an association" exception |
| Associations.GetAssociationFromProperty | src/Association.php:46-56 | the loop with its early return computes AssociationFromProperty |
| Associations.PropertyAssociations | src/Association.php:24-35 | at most one association per property, exactly when it has one |
| Associations.AssociationsOfSound | src/Association.php:24-35 | getAll yields only bound associations of the class's properties, at most one per property, and every property with an association attribute is represented |
| Associations.GetAll | src/Association.php:24-35 | the loop, which catches the lookup's exception, computes AssociationsOf |
| Associations.Get | src/Association.php:41-44 | a missing property is a ReflectionException; otherwise as getAssociationFromProperty |
| Associations.GetAgreesWithGetAll | src/Association.php:24-44 | get succeeds exactly for the properties getAll lists, with a value among them |
| Associations.ClassFromArrayShape | src/Association.php:59-63 | "" when there is no ArrayShape attribute; ArrayShapeFirstWins gives the other case |
| Associations.ArrayShapeFirstWins | src/Association.php:59-63 | for every attribute list, the first ArrayShape attribute decides the class, whatever comes before or after it |
| Associations.ForeignKey | src/Associations/HasOne.php:24-34 | the configured key when truthy, else `table_id` |
| Associations.IntermediateTable | src/Associations/HasAndBelongsToMany.php:88-97 | the default for an empty name, the callable's result, or the configured name |
| Associations.DefaultIntermediateSymmetric | src/Associations/HasAndBelongsToMany.php:88-97 | both sides of an association find the same default table |
| Associations.DefaultIntermediateOrder | src/Associations/HasAndBelongsToMany.php:88-97 | the default puts the strcmp-smaller table first; two equal tables give t_t |
| Associations.HasOneDefaultValue | src/Associations/HasOne.php:57-62 | null when the declared type is nullable, else a new related object |
| Associations.HasOneLoad | src/Associations/HasOne.php:24-34 | a new owner gets the default without a query; otherwise it issues findFirstByAttribute(fk, id) and yields the first row, else the default; an uninitialised id is the Error |
| Associations.HasManyLoad | src/Associations/HasMany.php:21-34 | nothing is queried for a new owner or a related class that is not a model; otherwise it issues findAll("`fk` = id", orderBy) and yields its rows |
| Associations.BelongsToKey | src/Associations/BelongsTo.php:24-30 | the default key is `property_id` |
| Associations.IntArgument | src/Associations/BelongsTo.php:24-30 | coercion to `int $id`: ints as they are, bools as 0/1, integer strings parsed, other values a TypeError |
| Associations.IntArgumentOfIdText | src/Associations/BelongsTo.php:24-30 | an id read back as its decimal text passes through unchanged |
| Associations.BelongsToLoad | src/Associations/BelongsTo.php:24-30 | a missing or uninitialised key property is its error; otherwise it issues `find(key value)` and yields the row, or find's not-found exception |
| Associations.BelongsToQueriesForNewOwner | src/Associations/BelongsTo.php:24-30 | unlike has-one, belongs-to still queries for a new owner |
| Associations.HabtmLoad | src/Associations/HasAndBelongsToMany.php:23-42 | nothing is queried for a new owner or a related class that is not a model; otherwise it issues the join query over the intermediate table and yields its rows |
| Associations.LoadAssociation | src/Association.php:15-16 | the load dispatches on the kind of association |
| Associations.MagicGet | src/Base.php:243-253 | a ReflectionException from the lookup or the load becomes null; every other exception propagates; a missing property is null |
| Associations.MagicGetPlainProperty | src/Base.php:243-253 | a plain property without an association attribute throws; it is not null |
| Associations.SetDiff | src/Associations/HasAndBelongsToMany.php:77-78 | array_diff: exactly the entries of the first list not in the second |
| Associations.SetDiffOfSameIds | src/Associations/HasAndBelongsToMany.php:77-78 | nothing is left when every id is in the other list |
| Associations.Pairs | src/Associations/HasAndBelongsToMany.php:68-77 | one "(objectId,id)" per id, in order |
| Associations.LinkWrites | src/Associations/HasAndBelongsToMany.php:77-85 | at most two statements; LinkWritesContents states which |
| Associations.PairsTruthy | src/Associations/HasAndBelongsToMany.php:77-85 | the value list is truthy exactly when there is an id |
| Associations.SameIdsWriteNothing | src/Associations/HasAndBelongsToMany.php:77-85 | when the linked and stored ids are the same set, no statement is written |
| Associations.InsertThenDelete | src/Associations/HasAndBelongsToMany.php:77-85 | with one id added and one removed, the INSERT comes first, then the DELETE, and the shared id is in neither |
| Associations.LinkWritesContents | src/Associations/HasAndBelongsToMany.php:77-85 | an INSERT exactly when some linked id is not stored, with one pair per such id; a DELETE exactly when the list of stored ids no longer linked is truthy, with that list; the INSERT first |
| Associations.StaleZeroIdKept | src/Associations/HasAndBelongsToMany.php:80-85 | a stale link to id "0" is never removed, because its id list is falsy |
| Persistence.AddError | src/Base.php:255-264 | the message is appended under its key and other keys are unchanged; one more message; a new key only when it was absent |
| Persistence.RunValidators | src/Base.php:255-264 | the loop computes Validated |
| Persistence.ValidatedCountsFailures | src/Base.php:255-264 | each validation adds exactly one message per failing validator |
| Persistence.ValidatedAllPass | src/Base.php:255-264 | when nothing fails, the errors are unchanged |
| Persistence.ValidatedKeepsMessages | src/Base.php:255-264 | messages already recorded stay at the head of their property's list |
| Persistence.ValidatedEmptyIff | src/Base.php:190-194 | the errors are empty after validation exactly when they were empty before and nothing fails |
| Persistence.RevalidationDuplicates | src/Base.php:196-211 | validating twice without a change reports every failure twice |
| Persistence.Lookup | src/Base.php:271-277 | a found value belongs to the key; none when no pair has the key |
| Persistence.DiffAssoc | src/Base.php:224 | array_diff_assoc keeps exactly the entries whose key is missing from the original or whose string value differs |
| Persistence.LookupDistinct | src/Base.php:271-277 | with distinct keys, each key finds its own value |
| Persistence.DiffAssocSelf | src/Base.php:224 | comparing the attributes with themselves leaves nothing |
| Persistence.UpdateStatement | src/Base.php:279-285 | nothing is written when no attribute changed; an uninitialised id is an Error; otherwise the updateAll of the changes with condition('id', id) |
| Persistence.PlanSave | src/Base.php:213-224 | with validation, stored or new errors abort the save with "validation failed on save" and no statement; otherwise INSERT or UPDATE |
| Persistence.StaleErrorsBlockSave | src/Base.php:213-216 | an error left from an earlier validation blocks a save that now validates, because errors are never cleared |
| Persistence.NewRecordInserts | src/Base.php:219-222 | a new record issues the INSERT of its column values |
| Persistence.UnchangedRecordWritesNothing | src/Base.php:279-285 | a record equal to its original issues no UPDATE |
| Persistence.FirstUpdateRewritesId | src/Base.php:219-228 | after the first insert of a record keeping changes, the new id counts as a change |
| Persistence.IdAmongColumnValues | src/Column.php:11-22 | an initialised id column is among the column values |
| Persistence.NoIdAmongColumnValues | src/Column.php:11-22 | an uninitialised id is not |
| Persistence.SaveWithForeignKey | src/Associations/HasOne.php:53-54 | the related record gets the foreign key and is saved with validation, as PlanSave says |
| Persistence.UnsetAssociations | src/Base.php:184-187 | every association property is unset, and nothing else |
| Persistence.LinkedIdsAppend | src/Associations/HasAndBelongsToMany.php:68-76 | a non-record entry adds no id; a record adds its id text |
| Persistence.Record.constructor | src/Base.php:178-188 | newness from the flag, no errors, originals only when changes are kept, association properties unset |
| Persistence.Record.GetAttributes | src/Base.php:266-269 | the initialised column values |
| Persistence.Record.Validate | src/Base.php:255-264 | the errors become Validated(old errors); nothing else changes |
| Persistence.Record.IsValid | src/Base.php:190-194 | validates, then answers exactly whether no error is recorded |
| Persistence.Record.GetErrors | src/Base.php:196-202 | validates only when asked; returns the errors |
| Persistence.Record.GetErrorMessages | src/Base.php:204-211 | every message, property by property |
| Persistence.Record.SaveRecord | src/Base.php:213-228 | the outcome and log are PlanSave's; on an insert the id becomes lastInsertId and the record is no longer new; the originals are refreshed when changes are kept |
| Persistence.Record.WriteRecord | src/Base.php:217-228 | the same, after validation |
| Persistence.Record.InsertRecord | src/Base.php:219-222 | the INSERT is logged, the id is set from lastInsertId, the record is no longer new; on failure nothing changes |
| Persistence.Record.UpdateRecord | src/Base.php:279-285 | the UPDATE, if any, is logged; on failure nothing is |
| Persistence.Record.Remove | src/Base.php:234-241 | a new record issues nothing; otherwise the DELETE by id, or the id's error |
| Persistence.Record.IsAttributeChanged | src/Base.php:271-277 | an attribute without an original is an exception; otherwise whether the current value differs |
| Persistence.Record.SetRelated | src/Base.php:243-253 | the write-back of `$this->$name = …`; nothing else changes |
| Persistence.Record.SaveHasOne | src/Associations/HasOne.php:39-55 | nothing for an unset property; a falsy value deletes the related rows; an array is an Error; a record gets the foreign key and is saved |
| Persistence.Record.SaveHabtm | src/Associations/HasAndBelongsToMany.php:48-86 | nothing for an unset property or a related class that is not a model; otherwise the existing-ids query, the related saves, then exactly LinkWrites of the linked and stored ids |
| Persistence.Record.SaveAssociations | src/Base.php:229-231 | the log only grows, and no association means no statement |
| Persistence.Record.Save | src/Base.php:213-231 | a failed plan aborts with nothing logged; otherwise the record's own statement comes first, the save passes only if the plan did, and with no associations it passes with only that statement; the record's new errors, newness, id and kept originals are those of its own write |
| Persistence.MergeMessages | src/Base.php:204-211 | the loop computes Messages |
| Persistence.CollectLinkedIds | src/Associations/HasAndBelongsToMany.php:68-76 | new related records are saved (only executions logged) and their ids collected as LinkedIds |
| Persistence.CollectOne | src/Associations/HasAndBelongsToMany.php:68-76 | one entry of that loop extends the collected ids |
| Persistence.LinkedId | src/Associations/HasAndBelongsToMany.php:69-75 | a new record is saved first; a stored one is untouched; the id text is returned |
| Persistence.SyncLinks | src/Associations/HasAndBelongsToMany.php:66-85 | the stored-ids query, then the related saves, then the link writes, in that order |
| Persistence.ExecAll | src/Associations/HasAndBelongsToMany.php:80-85 | each statement is executed, in order |
| Persistence.SlotItems | src/Associations/HasAndBelongsToMany.php:68 | the entries visited are records of the property |
| Persistence.LinkTable | src/Associations/HasAndBelongsToMany.php:48-66 | the default keys are `table_id`, and the default table is the strcmp-ordered pair |
| Persistence.DeleteAllSql | src/Associations/HasOne.php:47-52 | DELETE with the criteria as conditions, failing exactly when they do |
| Strings.Join | src/Base.php:72-78 | implode of no parts is "", of one part is that part |
| Strings.IntToStringRoundTrip | src/Associations/BelongsTo.php:24-30 | parsing an int's text gives the int back |
| Strings.IntToStringInjective | src/Associations/HasAndBelongsToMany.php:68-76 | distinct ids have distinct texts |
| Strings.IntToStringTruthy | src/Base.php:168-171 | an int's text is falsy exactly for 0 |
| Strings.ToLower | src/Base.php:116-119 | strtolower keeps the length, turns each ASCII capital into its lower-case letter and keeps every other character |
| Strings.StrLessTotal | src/Associations/HasAndBelongsToMany.php:88-97 | strcmp orders any two distinct strings one way |

## Left out

- I/O, PDO and logging: `src/Connection/Logger.php`, `src/Connection/Providers/Dsn.php` and `src/Connection/Statement.php` are not part of this model. A connection receives statements into a log.
- Hydration: `findAllBySql` (`fetchAll(PDO::FETCH_CLASS)` and the `$createNewObject` flag) is not modelled. The finders are modelled by the query text they send; the rows are inputs.
- `count`: its `(int) fetchColumn()` conversion is not modelled, only its query.
- Floats: there are no float values. PHP's float-to-string conversion is not modelled.
- `json_encode` is PHP's built-in encoder. It is a parameter of the quoting rules.
- The quoting rules are parameters too. `quote` and `quoteIdentifier` belong to the PDO connection, which is not shown.
- Callables (a validator message, an intermediate table): each is modelled by the string it returns.
- Reflection: the class metadata is explicit data. `ReflectionProperty` lookups are modelled by `Schema.FindProperty`. A property's related type is its declared type (`getRelatedType` is called but not defined in the shown code).
- `Column::get` is called but not shown. `PropertyAttributes.ColumnGet` stands in for it.
- `deleteAll` is called but not shown. `Persistence.DeleteAllSql` stands in for it.
- A record never calls `Column::getObjectValues` through the static cache. It uses `Columns.ObjectValues` directly; the cache is modelled separately by `Columns.ColumnCache`.
- Connections: a record's methods take the resolved connection as a parameter. The registry's resolution is modelled and proved separately, in `Connections`.
- Providers: what a provider's `getConnection()` returns is a parameter of each resolution that reaches it. The `Dsn` provider also calls `Base::setConnection`; that side effect is not modelled, because src/Connection/Providers/Dsn.php is not part of this model.
- Connections.Connection.ExecInsert: every INSERT advances the counter behind `lastInsertId`, which `save` reads after every insert. What a database answers for a table without an auto-increment column is not modelled.
- `trigger_error` in `__get`: the warning is not modelled. The caught ReflectionException just becomes null.
- `Persistence.Record.SetRelated` models only the write-back of `__get` (`$this->$name = …`). Loading and writing are two separate steps.
- `foreach` over an object property (a has-and-belongs-to-many property holding one record or null) visits no entry in this model.
- `!==` in `isAttributeChanged` is modelled as datatype inequality. It does not reproduce PHP identity for objects.
- Associations.IntArgument: it models only clean integer strings (an optional sign and digits). Whitespace, leading `+` and numeric strings such as "1.0" are not modelled.
- Persistence.Record.SaveAssociations: it states only that the log grows, and that a class without associations writes nothing. It does not state the statements of each association's save. Those are stated by `SaveHasOne` and `SaveHabtm`.
- Persistence.Record.Save: it states the record's new state only when the record is not itself among the records its associations save. On an association's failure it states only that the save fails. It does not list the association statements, which `SaveHasOne` and `SaveHabtm` state.
- Persistence.CollectLinkedIds: on failure it does not state which error. On success its ids are `LinkedIds`.
- Persistence.Record.SaveHasOne and Persistence.Record.SaveHabtm: a related record is saved without its own association cascade. The cascade is one level deep, which keeps termination and frames finite.
- Associations.LinkWrites: its own ensures only bounds the count. Its content is stated by `LinkWritesContents`, with `SameIdsWriteNothing` and `StaleZeroIdKept` as consequences.
- The association `save` of `HasMany` and `BelongsTo` is an empty method (src/Associations/HasMany.php:36-39, src/Associations/BelongsTo.php:32-35). The save loop skips them.

## Findings

| source | as written | input that shows it | evidently intended | confidence | as-written member | corrected member |
|---|---|---|---|---|---|---|
| src/Expressions/Compare.php:25 (also src/Expressions/In.php:21, src/Expressions/Not.php:18) | `__toString` calls `setConection`, which no class defines, so PHP throws "Call to undefined method" before rendering | `(string) new Compare(Eq, new Identifier('name'), new Value('John'))` on a connected node | call `setConnection`, as `NotIn` and `Between` do, giving `` `name` = 'John' `` | not executed | Rendering.MisspelledSetConnectionBreaksCompare | Rendering.IntendedCompareRenders |
| src/Validators/Length.php:19-24 | the `Validation` built for an out-of-range value is assigned to a local and never thrown; worse, `use ActiveRecord\Exception\Validation` (line 6) names a class the library does not define (it defines `Gforces\ActiveRecord\Exception\Validation`), so `new Validation(...)` raises a class-not-found Error instead | `#[Length(min: 3)]` with `perform("ab")` | import the library's `Validation` and throw it with the message when the length is out of range | not executed | Validators.LengthReportsWrongError | Validators.LengthPerform |
