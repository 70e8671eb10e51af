/**
 * Building expression trees: PropertyExpression::getValueExpression, the
 * getExpression methods of the classes under src/PropertyExpressions/, and
 * the static builders of src/Expression.php (now, and/or/xor,
 * buildForAttribute, buildExpressions).
 *
 * The factories PropertyExpression::eq .. le, in, notIn and their namespaced
 * wrappers in src/PropertyExpressions/functions.php each construct one
 * property expression from their argument unchanged; here they are the
 * constructors PropertyCompare(op, v), PropertyIn(vs) and PropertyNotIn(vs).
 */
module ExpressionBuilder {
  import opened Wrappers
  import opened Strings
  import opened ExpressionTree
  import opened Rendering

  /** getValueExpression: an Expression is used as it is, any other value is wrapped in a Value node. */
  function ValueExpression(v: Mixed): (r: Expression)
    ensures v.Expr? ==> r == v.expr
    ensures !v.Expr? ==> r.Value? && r.value == v
  {
    if v.Expr? then v.expr else Value(v)
  }

  /** array_map of getValueExpression over the values of an In or NotIn. */
  function ValueExpressions(vs: seq<Mixed>): (r: seq<Expression>)
    ensures |r| == |vs|
    ensures forall k :: 0 <= k < |vs| ==> r[k] == ValueExpression(vs[k])
  {
    if |vs| == 0 then [] else [ValueExpression(vs[0])] + ValueExpressions(vs[1..])
  }

  /** PropertyExpression::getExpression(new Identifier(attribute)), for each of the four kinds. */
  function GetExpression(pe: PropertyExpression, attribute: string): (r: Expression)
    ensures pe.PropertyCompare? ==>
      r == NewCompare(pe.comparisonOperator, Identifier(attribute), ValueExpression(pe.compareValue))
    ensures pe.PropertyIn? ==>
      r.In? && r.expression == Identifier(attribute) && |r.values| == |pe.inValues| &&
      forall k :: 0 <= k < |r.values| ==> r.values[k] == ValueExpression(pe.inValues[k])
    ensures pe.PropertyNotIn? ==>
      r.NotIn? && r.expression == Identifier(attribute) && |r.values| == |pe.notInValues| &&
      forall k :: 0 <= k < |r.values| ==> r.values[k] == ValueExpression(pe.notInValues[k])
    ensures pe.PropertyBetween? ==>
      r == Between(Identifier(attribute), ValueExpression(pe.lower), ValueExpression(pe.upper))
  {
    match pe
    case PropertyCompare(op, v) => NewCompare(op, Identifier(attribute), ValueExpression(v))
    case PropertyIn(vs) => In(Identifier(attribute), ValueExpressions(vs))
    case PropertyNotIn(vs) => NotIn(Identifier(attribute), ValueExpressions(vs))
    case PropertyBetween(lo, hi) => Between(Identifier(attribute), ValueExpression(lo), ValueExpression(hi))
  }

  /**
   * Expression::buildForAttribute: an array becomes PropertyExpression::in of it,
   * any other value that is not a property expression PropertyExpression::eq of
   * it, and the property expression is applied to the attribute.
   */
  function BuildForAttribute(attribute: string, v: Mixed): (r: Expression)
    ensures v.List? ==> r == GetExpression(PropertyIn(v.items), attribute)
    ensures v.Property? ==> r == GetExpression(v.property, attribute)
    ensures !v.List? && !v.Property? ==> r == GetExpression(PropertyCompare(Eq, v), attribute)
  {
    var pe := if v.List? then PropertyIn(v.items)
              else if v.Property? then v.property
              else PropertyCompare(Eq, v);
    GetExpression(pe, attribute)
  }

  /** A key of a PHP array: an int or a string. */
  datatype Key = IntKey(index: int) | StringKey(name: string)

  /** One entry of a criteria array, in the array's order. */
  datatype Entry = Entry(key: Key, value: Mixed)

  /**
   * The callback of buildExpressions for one entry: a string key names an
   * attribute; under an int key an Expression is kept and anything else is
   * passed to Simple's `string` constructor parameter.
   */
  function BuildEntry(e: Entry): (r: Result<Expression>)
    ensures e.key.StringKey? ==> r == Success(BuildForAttribute(e.key.name, e.value))
    ensures e.key.IntKey? && e.value.Expr? ==> r == Success(e.value.expr)
    ensures e.key.IntKey? && !e.value.Expr? ==> (
      (r.Success? <==> StringArgument(e.value).Success?) &&
      (r.Success? ==> r.value == Simple(StringArgument(e.value).value)))
  {
    if e.key.StringKey? then Success(BuildForAttribute(e.key.name, e.value))
    else if e.value.Expr? then Success(e.value.expr)
    else
      var text :- StringArgument(e.value);
      Success(Simple(text))
  }

  /** buildExpressions: one expression per entry, in order; the first TypeError ends it. */
  function BuildExpressions(entries: seq<Entry>): (r: Result<seq<Expression>>)
    ensures r.Success? <==> forall k :: 0 <= k < |entries| ==> BuildEntry(entries[k]).Success?
    ensures r.Success? ==> |r.value| == |entries|
    ensures r.Success? ==> forall k :: 0 <= k < |entries| ==> r.value[k] == BuildEntry(entries[k]).value
  {
    if |entries| == 0 then Success([])
    else
      var h :- BuildEntry(entries[0]);
      var t :- BuildExpressions(entries[1..]);
      Success([h] + t)
  }

  /** Expression::and / or / xor over a criteria array. */
  function Combine(op: BooleanOperator, entries: seq<Entry>): (r: Result<Expression>)
    ensures r.Success? <==> BuildExpressions(entries).Success?
    ensures r.Success? ==> r.value == BooleanExpr(op, BuildExpressions(entries).value)
  {
    var es :- BuildExpressions(entries);
    Success(BooleanExpr(op, es))
  }

  /** Expression::now() */
  function Now(): Expression {
    Simple("NOW()")
  }

  /** now() renders NOW() whatever the connection, like DbExpression::now(). */
  lemma {:induction false} NowRenders(conn: Option<RenderContext>)
    ensures Render(Now(), conn) == Success("NOW()")
    ensures Render(Now(), conn).value == DbText(DbNow())
  {
  }

  // ---------------------------------------------------------------------------
  // What the built trees render to.

  /** The scalar kinds whose Value node renders under a connection. */
  predicate Scalar(v: Mixed) {
    v.Bool? || v.Int? || v.Str? || v.Enum? || v.Date? || v.StringableProperty?
  }

  /** A value that is not an array, property expression, expression or null gives `attr` = value. */
  lemma {:induction false} BuildForAttributeEquality(attribute: string, v: Mixed, ctx: RenderContext)
    requires Scalar(v)
    ensures RenderValue(v, Some(ctx)).Success?
    ensures Render(BuildForAttribute(attribute, v), Some(ctx)) ==
            Success(ctx.quoteIdentifier(attribute) + " = " + RenderValue(v, Some(ctx)).value)
  {
    var q := ctx.quoteIdentifier(attribute);
    var s := RenderValue(v, Some(ctx)).value;
    assert !IsNull(v);
    assert BuildForAttribute(attribute, v) == Compare("=", Identifier(attribute), Value(v));
    assert Render(Identifier(attribute), Some(ctx)) == Success(q);
    assert Render(Value(v), Some(ctx)) == Success(s);
    RenderCompareStep("=", Identifier(attribute), Value(v), ctx);
    assert q + " " + "=" + " " + s == q + " = " + s;
  }

  /** null gives `attr` IS NULL, and ne(null) gives `attr` IS NOT NULL. */
  lemma {:induction false} BuildForAttributeNull(attribute: string, ctx: RenderContext)
    ensures Render(BuildForAttribute(attribute, Null), Some(ctx)) ==
            Success(ctx.quoteIdentifier(attribute) + " IS NULL")
    ensures Render(BuildForAttribute(attribute, Property(PropertyCompare(Ne, Null))), Some(ctx)) ==
            Success(ctx.quoteIdentifier(attribute) + " IS NOT NULL")
  {
    var q := ctx.quoteIdentifier(attribute);
    assert BuildForAttribute(attribute, Null) == NewCompare(Eq, Identifier(attribute), Value(Null));
    assert BuildForAttribute(attribute, Property(PropertyCompare(Ne, Null))) == NewCompare(Ne, Identifier(attribute), Value(Null));
    NullComparison(Eq, attribute, ctx);
    NullComparison(Ne, attribute, ctx);
    assert q + " IS" + " NULL" == q + " IS NULL";
    assert q + " IS NOT" + " NULL" == q + " IS NOT NULL";
  }

  /** The texts of scalar values under a connection. */
  function RenderedValues(items: seq<Mixed>, ctx: RenderContext): (r: seq<string>)
    requires forall k :: 0 <= k < |items| ==> Scalar(items[k])
    ensures |r| == |items|
    ensures forall k :: 0 <= k < |items| ==> RenderValue(items[k], Some(ctx)) == Success(r[k])
  {
    if |items| == 0 then []
    else
      assert Scalar(items[0]);
      [RenderValue(items[0], Some(ctx)).value] + RenderedValues(items[1..], ctx)
  }

  lemma {:induction false} RenderScalars(items: seq<Mixed>, ctx: RenderContext)
    requires forall k :: 0 <= k < |items| ==> Scalar(items[k])
    ensures RenderAll(ValueExpressions(items), Some(ctx)) == Success(RenderedValues(items, ctx))
  {
    if |items| > 0 {
      RenderScalars(items[1..], ctx);
      var es := ValueExpressions(items);
      assert es == [Value(items[0])] + ValueExpressions(items[1..]);
      assert Render(Value(items[0]), Some(ctx)) == Success(RenderedValues(items, ctx)[0]);
      RenderAllCons(Value(items[0]), ValueExpressions(items[1..]), Some(ctx));
    }
  }

  /** An array of scalars gives `attr` IN (v1, v2, ...), one rendered value per element, in order. */
  lemma {:induction false} BuildForAttributeList(attribute: string, items: seq<Mixed>, ctx: RenderContext)
    requires forall k :: 0 <= k < |items| ==> Scalar(items[k])
    ensures Render(BuildForAttribute(attribute, List(items)), Some(ctx)) ==
            Success(ctx.quoteIdentifier(attribute) + " IN (" + Join(", ", RenderedValues(items, ctx)) + ")")
    ensures Render(GetExpression(PropertyNotIn(items), attribute), Some(ctx)) ==
            Success(ctx.quoteIdentifier(attribute) + " NOT IN (" + Join(", ", RenderedValues(items, ctx)) + ")")
  {
    RenderScalars(items, ctx);
    assert Render(Identifier(attribute), Some(ctx)) == Success(ctx.quoteIdentifier(attribute));
    assert BuildForAttribute(attribute, List(items)) == In(Identifier(attribute), ValueExpressions(items));
    RenderInStep(Identifier(attribute), ValueExpressions(items), ctx);
  }

  // The renderings the library's own examples fix, under the MySQL-like test context.

  lemma {:induction false} ExampleNameEqualsJohn(json: seq<Mixed> -> string)
    ensures Render(BuildForAttribute("name", Str("John")), Some(TestContext(json))) == Success("`name` = 'John'")
  {
    var ctx := TestContext(json);
    BuildForAttributeEquality("name", Str("John"), ctx);
    EqualityTexts();
  }

  lemma {:induction false} EqualityTexts()
    ensures "`" + "name" + "`" + " = " + ("'" + "John" + "'") == "`name` = 'John'"
    ensures "`" + "name" + "`" + " = " + ("'" + "Bill" + "'") == "`name` = 'Bill'"
    ensures "`" + "statue" + "`" + " = " + ("'" + "on" + "'") == "`statue` = 'on'"
    ensures "`" + "symbol" + "`" + " = " + ("'" + "D" + "'") == "`symbol` = 'D'"
  {
  }

  lemma {:induction false} NullTexts()
    ensures "`" + "type" + "`" + " IS NULL" == "`type` IS NULL"
    ensures "`" + "type" + "`" + " IS NOT NULL" == "`type` IS NOT NULL"
  {
  }

  lemma {:induction false} ComparisonTexts()
    ensures "`" + "name" + "`" + " " + "<>" + " " + ("'" + "John" + "'") == "`name` <> 'John'"
    ensures "`" + "age" + "`" + " " + ">" + " " + "5" == "`age` > 5"
    ensures "`" + "age" + "`" + " " + "<=" + " " + "10" == "`age` <= 10"
  {
  }

  lemma {:induction false} ExampleAgeEquals5(json: seq<Mixed> -> string)
    ensures Render(BuildForAttribute("age", Int(5)), Some(TestContext(json))) == Success("`age` = 5")
  {
    var ctx := TestContext(json);
    BuildForAttributeEquality("age", Int(5), ctx);
    assert IntToString(5) == "5";
    assert "`" + "age" + "`" + " = " + "5" == "`age` = 5";
  }

  lemma {:induction false} ExampleIntBackedEnum(json: seq<Mixed> -> string)
    ensures Render(BuildForAttribute("status", Enum(IntBackedCase("notFound", 404))), Some(TestContext(json))) ==
            Success("`status` = 404")
  {
    var ctx := TestContext(json);
    var v := Enum(IntBackedCase("notFound", 404));
    BuildForAttributeEquality("status", v, ctx);
    Text404();
    assert RenderValue(v, Some(ctx)).value == "404";
    assert ctx.quoteIdentifier("status") == "`status`";
    assert "`status`" + " = " + "404" == "`status` = 404";
  }

  lemma {:induction false} Text404()
    ensures IntToString(404) == "404"
  {
    var n: nat := 404;
    assert NatToString(n / 10) == "40" by {
      assert NatToString(4) == "4";
    }
  }

  lemma {:induction false} ExampleUnitEnum(json: seq<Mixed> -> string)
    ensures Render(BuildForAttribute("statue", Enum(UnitCase("on"))), Some(TestContext(json))) == Success("`statue` = 'on'")
  {
    var ctx := TestContext(json);
    BuildForAttributeEquality("statue", Enum(UnitCase("on")), ctx);
    EqualityTexts();
  }

  lemma {:induction false} ExampleStringBackedEnum(json: seq<Mixed> -> string)
    ensures Render(BuildForAttribute("symbol", Enum(StringBackedCase("diamonds", "D"))), Some(TestContext(json))) ==
            Success("`symbol` = 'D'")
  {
    var ctx := TestContext(json);
    BuildForAttributeEquality("symbol", Enum(StringBackedCase("diamonds", "D")), ctx);
    EqualityTexts();
  }

  lemma {:induction false} ExampleTypeIsNull(json: seq<Mixed> -> string)
    ensures Render(BuildForAttribute("type", Null), Some(TestContext(json))) == Success("`type` IS NULL")
    ensures Render(BuildForAttribute("type", Property(PropertyCompare(Ne, Null))), Some(TestContext(json))) ==
            Success("`type` IS NOT NULL")
  {
    var ctx := TestContext(json);
    BuildForAttributeNull("type", ctx);
    NullTexts();
  }

  lemma {:induction false} ExampleDateText()
    ensures FormatDateTime(DateTime(2024, 1, 2, 12, 14, 7)) == "2024-01-02 12:14:07"
  {
    PadYearExample();
    PadSingleDigits();
    PadDoubleDigits();
    assert "2024" + "-" + "01" + "-" + "02" + " " + "12" + ":" + "14" + ":" + "07" == "2024-01-02 12:14:07";
  }

  lemma {:induction false} PadYearExample()
    ensures Pad(2024, 4) == "2024"
  {
    assert NatToString(2024) == "2024";
  }

  lemma {:induction false} PadSingleDigits()
    ensures Pad(1, 2) == "01" && Pad(2, 2) == "02" && Pad(7, 2) == "07"
  {
    assert NatToString(1) == "1" && NatToString(2) == "2" && NatToString(7) == "7";
  }

  lemma {:induction false} PadDoubleDigits()
    ensures Pad(12, 2) == "12" && Pad(14, 2) == "14"
  {
    assert NatToString(12) == "12" && NatToString(14) == "14";
  }

  /** A date renders as the quoted Y-m-d H:i:s text. */
  lemma {:induction false} BuildForAttributeDate(attribute: string, d: DateTime, ctx: RenderContext)
    ensures Render(BuildForAttribute(attribute, Date(d)), Some(ctx)) ==
            Success(ctx.quoteIdentifier(attribute) + " = " + ctx.quote(FormatDateTime(d)))
  {
    BuildForAttributeEquality(attribute, Date(d), ctx);
  }

  /** Applying a comparison property expression to an attribute. */
  lemma {:induction false} ComparisonRenders(attribute: string, op: ComparisonOperator, v: Mixed, ctx: RenderContext)
    requires Scalar(v)
    ensures RenderValue(v, Some(ctx)).Success?
    ensures Render(BuildForAttribute(attribute, Property(PropertyCompare(op, v))), Some(ctx)) ==
            Success(ctx.quoteIdentifier(attribute) + " " + Symbol(op) + " " + RenderValue(v, Some(ctx)).value)
  {
    assert !IsNull(v);
    assert Render(Identifier(attribute), Some(ctx)) == Success(ctx.quoteIdentifier(attribute));
    assert Render(Value(v), Some(ctx)) == RenderValue(v, Some(ctx));
    RenderCompareStep(Symbol(op), Identifier(attribute), Value(v), ctx);
  }

  lemma {:induction false} ExampleNotEqual(json: seq<Mixed> -> string)
    ensures Render(BuildForAttribute("name", Property(PropertyCompare(Ne, Str("John")))), Some(TestContext(json))) ==
            Success("`name` <> 'John'")
  {
    var ctx := TestContext(json);
    ComparisonRenders("name", Ne, Str("John"), ctx);
    ComparisonTexts();
  }

  lemma {:induction false} ExampleGreaterThan(json: seq<Mixed> -> string)
    ensures Render(BuildForAttribute("age", Property(PropertyCompare(Gt, Int(5)))), Some(TestContext(json))) ==
            Success("`age` > 5")
  {
    ComparisonRenders("age", Gt, Int(5), TestContext(json));
    assert IntToString(5) == "5";
    ComparisonTexts();
  }

  lemma {:induction false} ExampleLessOrEqual(json: seq<Mixed> -> string)
    ensures Render(BuildForAttribute("age", Property(PropertyCompare(Le, Int(10)))), Some(TestContext(json))) ==
            Success("`age` <= 10")
  {
    ComparisonRenders("age", Le, Int(10), TestContext(json));
    assert IntToString(10) == "10";
    ComparisonTexts();
  }

  lemma {:induction false} ExampleNumbers(json: seq<Mixed> -> string)
    ensures RenderedValues([Int(5), Int(10), Int(15)], TestContext(json)) == ["5", "10", "15"]
  {
    assert IntToString(5) == "5" && IntToString(10) == "10" && IntToString(15) == "15";
  }

  lemma {:induction false} ExampleNames(json: seq<Mixed> -> string)
    ensures RenderedValues([Str("John"), Str("Bill")], TestContext(json)) == ["'John'", "'Bill'"]
  {
    assert "'" + "John" + "'" == "'John'";
    assert "'" + "Bill" + "'" == "'Bill'";
  }

  /** Two conditions under OR render as one parenthesised group, in entry order. */
  lemma {:induction false} OrOfTwo(e1: Expression, e2: Expression, ctx: RenderContext, s1: string, s2: string)
    requires Render(e1, Some(ctx)) == Success(s1) && Render(e2, Some(ctx)) == Success(s2)
    ensures Render(BooleanExpr(Or, [e1, e2]), Some(ctx)) == Success("(" + (s1 + " OR " + s2) + ")")
  {
    var es := [e1, e2];
    RenderPair(e1, e2, ctx);
    BooleanGrouping(Or, es, ctx);
    assert " " + OperatorName(Or) + " " == " OR ";
    JoinTwo(" OR ", s1, s2);
  }

  lemma {:induction false} RenderPair(e1: Expression, e2: Expression, ctx: RenderContext)
    requires Render(e1, Some(ctx)).Success? && Render(e2, Some(ctx)).Success?
    ensures RenderAll([e1, e2], Some(ctx)) == Success([Render(e1, Some(ctx)).value, Render(e2, Some(ctx)).value])
  {
    assert RenderAll([], Some(ctx)) == Success([]);
    RenderAllCons(e2, [], Some(ctx));
    assert [e2] + [] == [e2];
    RenderAllCons(e1, [e2], Some(ctx));
    assert [e1] + [e2] == [e1, e2];
    var s1, s2 := Render(e1, Some(ctx)).value, Render(e2, Some(ctx)).value;
    assert [s1] + ([s2] + []) == [s1, s2];
  }

  /** Two attribute entries combine into one group of their two conditions, in order. */
  lemma {:induction false} CombineTwoAttributes(op: BooleanOperator, a1: string, v1: Mixed, a2: string, v2: Mixed)
    ensures Combine(op, [Entry(StringKey(a1), v1), Entry(StringKey(a2), v2)]) ==
            Success(BooleanExpr(op, [BuildForAttribute(a1, v1), BuildForAttribute(a2, v2)]))
  {
    var entries := [Entry(StringKey(a1), v1), Entry(StringKey(a2), v2)];
    var es := BuildExpressions(entries).value;
    assert es[0] == BuildForAttribute(a1, v1) && es[1] == BuildForAttribute(a2, v2);
    assert es == [BuildForAttribute(a1, v1), BuildForAttribute(a2, v2)];
  }

  lemma {:induction false} ExampleOrGroupAt(ctx: RenderContext, e1: Expression, e2: Expression)
    requires Render(e1, Some(ctx)) == Success("`name` = 'Bill'")
    requires Render(e2, Some(ctx)) == Success("`age` > 5")
    ensures Render(BooleanExpr(Or, [e1, e2]), Some(ctx)) == Success("(`name` = 'Bill' OR `age` > 5)")
  {
    OrOfTwo(e1, e2, ctx, "`name` = 'Bill'", "`age` > 5");
    OrGroupText();
  }

  lemma {:induction false} OrGroupText()
    ensures "(" + ("`name` = 'Bill'" + " OR " + "`age` > 5") + ")" == "(`name` = 'Bill' OR `age` > 5)"
  {
  }

  /** Expression::or(['name' => 'Bill', 'age' => gt(5)]) renders as one parenthesised group. */
  lemma {:induction false} ExampleOrGroup(json: seq<Mixed> -> string)
    ensures var r := Combine(Or, [Entry(StringKey("name"), Str("Bill")),
                                  Entry(StringKey("age"), Property(PropertyCompare(Gt, Int(5))))]);
      r.Success? && Render(r.value, Some(TestContext(json))) == Success("(`name` = 'Bill' OR `age` > 5)")
  {
    CombineTwoAttributes(Or, "name", Str("Bill"), "age", Property(PropertyCompare(Gt, Int(5))));
    BuildForAttributeEquality("name", Str("Bill"), TestContext(json));
    EqualityTexts();
    ExampleGreaterThan(json);
    ExampleOrGroupAt(TestContext(json), BuildForAttribute("name", Str("Bill")),
                     BuildForAttribute("age", Property(PropertyCompare(Gt, Int(5)))));
  }

  /** Under an int key a string passes through as raw, unquoted SQL; null is a TypeError. */
  lemma {:induction false} PositionalEntries(text: string, x: Expression)
    ensures BuildEntry(Entry(IntKey(0), Str(text))) == Success(Simple(text))
    ensures BuildEntry(Entry(IntKey(0), Expr(x))) == Success(x)
    ensures BuildEntry(Entry(IntKey(0), Null)).Failure?
  {
  }
}
