/**
 * The expression tree of the library: the PHP values an expression may wrap,
 * the expression nodes (src/Expressions/), the property expressions
 * (src/PropertyExpressions/) and DbExpression. The three kinds refer to each
 * other, so they are one family of datatypes.
 */
module ExpressionTree {
  import opened Wrappers
  import opened Strings

  /** src/Expressions/ComparisonOperator.php: a string-backed enum. */
  datatype ComparisonOperator = Eq | Ge | Gt | Le | Lt | Ne

  /** The backing string of each comparison operator. */
  function Symbol(op: ComparisonOperator): (r: string)
    ensures |r| > 0
  {
    match op
    case Eq => "="
    case Ge => ">="
    case Gt => ">"
    case Le => "<="
    case Lt => "<"
    case Ne => "<>"
  }

  /** No two operators share a backing string. */
  lemma {:induction false} SymbolInjective(a: ComparisonOperator, b: ComparisonOperator)
    requires Symbol(a) == Symbol(b)
    ensures a == b
  {
  }

  /** BooleanExpr's operator: a unit enum whose case names are and, or, xor. */
  datatype BooleanOperator = And | Or | Xor

  /** strtoupper of the case name. */
  function OperatorName(op: BooleanOperator): string {
    match op
    case And => "AND"
    case Or => "OR"
    case Xor => "XOR"
  }

  /** A PHP DateTime, as the fields of its wall-clock reading. */
  datatype DateTime = DateTime(year: nat, month: nat, day: nat, hour: nat, minute: nat, second: nat)

  predicate ValidDateTime(d: DateTime) {
    d.year < 10000 && 1 <= d.month <= 12 && 1 <= d.day <= 31 &&
    d.hour < 24 && d.minute < 60 && d.second < 60
  }

  /** $date->format('Y-m-d H:i:s') */
  function FormatDateTime(d: DateTime): string {
    Pad(d.year, 4) + "-" + Pad(d.month, 2) + "-" + Pad(d.day, 2) + " " +
    Pad(d.hour, 2) + ":" + Pad(d.minute, 2) + ":" + Pad(d.second, 2)
  }

  /** A case of a PHP enum: a unit enum, or an enum backed by an int or a string. */
  datatype EnumCase =
    | UnitCase(name: string)
    | IntBackedCase(name: string, intValue: int)
    | StringBackedCase(name: string, stringValue: string)

  /** src/DbExpression.php: raw SQL text that is not an Expression. */
  datatype DbExpression = DbExpression(expression: string)

  /** DbExpression::now() */
  function DbNow(): DbExpression {
    DbExpression("NOW()")
  }

  /** DbExpression::__toString(): the constructor text, whatever the connection. */
  function DbText(d: DbExpression): string {
    d.expression
  }

  /**
   * A PHP value as a Value node, a property expression or a criteria entry may hold it.
   * Floats are not part of this model. A PHP array appears as the list of its values.
   */
  datatype Mixed =
    | Null
    | Bool(boolValue: bool)
    | Int(intValue: int)
    | Str(str: string)
    | List(items: seq<Mixed>)
    | Enum(enumCase: EnumCase)
    | Date(date: DateTime)
    | StringableProperty(text: string)  // an object implementing StringableProperty
    | Expr(expr: Expression)            // an instance of Expression
    | Property(property: PropertyExpression)
    | Db(db: DbExpression)
    | OtherObject(className: string)    // an object of any other class
    | Resource(handle: int)             // a resource and the id PHP numbers it with

  /** The expression nodes of src/Expressions/. */
  datatype Expression =
    | Identifier(identifier: string)
    | Value(value: Mixed)
      // `operator` is the text Compare's constructor computed (see NewCompare)
    | Compare(operator: string, expression1: Expression, expression2: Expression)
    | In(expression: Expression, values: seq<Expression>)
    | NotIn(expression: Expression, values: seq<Expression>)
    | Between(expression: Expression, value1: Expression, value2: Expression)
    | Not(expression: Expression)
    | BooleanExpr(booleanOperator: BooleanOperator, expressions: seq<Expression>)
    | Simple(text: string)

  /** The property expressions of src/PropertyExpressions/: a condition waiting for its attribute. */
  datatype PropertyExpression =
    | PropertyCompare(comparisonOperator: ComparisonOperator, compareValue: Mixed)
    | PropertyIn(inValues: seq<Mixed>)
    | PropertyNotIn(notInValues: seq<Mixed>)
    | PropertyBetween(lower: Mixed, upper: Mixed)

  /**
   * Value::isNull() of a Value node wrapping `v`: the wrapped value is null,
   * or is itself a Value node whose isNull() holds.
   */
  predicate IsNull(v: Mixed) {
    match v
    case Null => true
    case Expr(Value(inner)) => IsNull(inner)
    case _ => false
  }

  lemma {:induction false} IsNullMeansNestedNull(v: Mixed)
    requires IsNull(v)
    ensures v == Null || (v.Expr? && v.expr.Value? && IsNull(v.expr.value))
  {
  }

  /** The right operand of a Compare is a Value node whose isNull() holds. */
  predicate IsNullValueNode(e: Expression) {
    e.Value? && IsNull(e.value)
  }

  /**
   * Compare's constructor: the operator text is the backing string, except that
   * = becomes IS and <> becomes IS NOT when the right operand is a null Value node.
   */
  function NewCompare(op: ComparisonOperator, e1: Expression, e2: Expression): (r: Expression)
    ensures r.Compare? && r.expression1 == e1 && r.expression2 == e2
    ensures r.operator == "IS" <==> op == Eq && IsNullValueNode(e2)
    ensures r.operator == "IS NOT" <==> op == Ne && IsNullValueNode(e2)
    ensures r.operator != "IS" && r.operator != "IS NOT" ==> r.operator == Symbol(op)
  {
    var text :=
      if IsNullValueNode(e2) && op == Eq then "IS"
      else if IsNullValueNode(e2) && op == Ne then "IS NOT"
      else Symbol(op);
    Compare(text, e1, e2)
  }

  /**
   * The quoting rules a connection supplies at render time. json_encode is
   * PHP's built-in encoder, opaque here, supplied beside them.
   */
  datatype RenderContext = RenderContext(
    quote: string -> string,
    quoteIdentifier: string -> string,
    jsonEncode: seq<Mixed> -> string)

  /** The class name PHP reports for an object value that cannot be rendered. */
  function ClassNameOf(p: PropertyExpression): string {
    match p
    case PropertyCompare(_, _) => "Gforces\\ActiveRecord\\PropertyExpressions\\Compare"
    case PropertyIn(_) => "Gforces\\ActiveRecord\\PropertyExpressions\\In"
    case PropertyNotIn(_) => "Gforces\\ActiveRecord\\PropertyExpressions\\NotIn"
    case PropertyBetween(_, _) => "Gforces\\ActiveRecord\\PropertyExpressions\\Between"
  }

  const DbExpressionClass := "Gforces\\ActiveRecord\\DbExpression"
}
