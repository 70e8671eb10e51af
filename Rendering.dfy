/**
 * Stringification of expression nodes: the __toString methods of the classes
 * under src/Expressions/. Each node has a `connection` field that may be still
 * uninitialised; here it is the parameter `conn`, None while unset. A composite
 * node copies its own connection into its children before stringifying them
 * (Expression::setConnection), so the children see the parent's `conn`; a Value
 * wrapping an Expression converts it without doing so, so that one sees None.
 */
module Rendering {
  import opened Wrappers
  import opened Strings
  import opened ExpressionTree

  const InvalidValueType := "Invalid value type: "

  function InvalidValue(what: string): Error {
    Error(RecordException, InvalidValueType + what)
  }

  /** An ActiveRecord exception reporting a value kind that cannot be rendered. */
  predicate IsInvalidValue(err: Error) {
    err.kind == RecordException && InvalidValueType <= err.message
  }

  /** Reading a typed property that was never assigned. */
  const UninitializedConnection :=
    Error(EngineError, "Typed property Gforces\\ActiveRecord\\Expression::$connection must not be accessed before initialization")

  /**
   * Compare, In and Not call `setConection` (Compare.php:25, In.php:21, Not.php:18),
   * a method no class defines; `Intended` calls setConnection as NotIn and Between do.
   */
  datatype Revision = AsWritten | Intended

  /** The method that is called but not defined, on the class of a Compare, In or Not node. */
  function MisspelledCall(e: Expression): Error {
    var cls := match e
      case Compare(_, _, _) => "Compare"
      case In(_, _) => "In"
      case _ => "Not";
    Error(EngineError, UndefinedSetConection(cls))
  }

  /** PHP's message for the call of the misspelled method on an expression class. */
  function UndefinedSetConection(cls: string): string {
    "Call to undefined method Gforces\\ActiveRecord\\Expressions\\" + cls + "::setConection()"
  }

  predicate CallsMisspelled(e: Expression) {
    e.Compare? || e.In? || e.Not?
  }

  /** $this->connection->quote($s) */
  function Quote(conn: Option<RenderContext>, s: string): (r: Result<string>)
    ensures conn.Some? ==> r == Success(conn.value.quote(s))
    ensures conn.None? ==> r == Failure(UninitializedConnection)
  {
    if conn.None? then Failure(UninitializedConnection) else Success(conn.value.quote(s))
  }

  /** The stringification of `e` under either revision of the source. */
  function RenderIn(rev: Revision, e: Expression, conn: Option<RenderContext>): Result<string>
    decreases e
  {
    if rev == AsWritten && CallsMisspelled(e) then Failure(MisspelledCall(e))
    else match e
    case Identifier(id) =>
      if conn.None? then Failure(UninitializedConnection) else Success(conn.value.quoteIdentifier(id))
    case Value(v) => RenderValueIn(rev, v, conn)
    case Compare(op, e1, e2) =>
      if conn.None? then Failure(UninitializedConnection)
      else
        var l :- RenderIn(rev, e1, conn);
        var r :- RenderIn(rev, e2, conn);
        Success(l + " " + op + " " + r)
    case In(x, vs) =>
      if conn.None? then Failure(UninitializedConnection)
      else
        var l :- RenderIn(rev, x, conn);
        var rs :- RenderAllIn(rev, vs, conn);
        Success(l + " IN (" + Join(", ", rs) + ")")
    case NotIn(x, vs) =>
      if conn.None? then Failure(UninitializedConnection)
      else
        var l :- RenderIn(rev, x, conn);
        var rs :- RenderAllIn(rev, vs, conn);
        Success(l + " NOT IN (" + Join(", ", rs) + ")")
    case Between(x, v1, v2) =>
      if conn.None? then Failure(UninitializedConnection)
      else
        var l :- RenderIn(rev, x, conn);
        var lo :- RenderIn(rev, v1, conn);
        var hi :- RenderIn(rev, v2, conn);
        Success(l + " BETWEEN " + lo + " AND " + hi)
    case Not(x) =>
      if conn.None? then Failure(UninitializedConnection)
      else
        var s :- RenderIn(rev, x, conn);
        Success("NOT " + s)
    case BooleanExpr(op, es) =>
      // setConnection reads the parent's connection once per child, so no child, no read
      if |es| > 0 && conn.None? then Failure(UninitializedConnection)
      else
        var rs :- RenderAllIn(rev, es, conn);
        var joined := Join(" " + OperatorName(op) + " ", rs);
        Success(if op == Or || op == Xor then "(" + joined + ")" else joined)
    case Simple(t) => Success(t)
  }

  /** The children of a node, stringified in order; the first exception wins. */
  function RenderAllIn(rev: Revision, es: seq<Expression>, conn: Option<RenderContext>): Result<seq<string>>
    decreases es
  {
    if |es| == 0 then Success([])
    else
      var h :- RenderIn(rev, es[0], conn);
      var t :- RenderAllIn(rev, es[1..], conn);
      Success([h] + t)
  }

  /** Value::__toString() and Value::quoteObjectValue(): the dispatch on the kind of value. */
  function RenderValueIn(rev: Revision, v: Mixed, conn: Option<RenderContext>): Result<string>
    decreases v
  {
    match v
    case Str(s) => Quote(conn, s)
    case Bool(b) => Success(if b then "1" else "0")
    case Int(i) => Success(IntToString(i))
    case Null => Success("NULL")
    case List(items) =>
      if conn.None? then Failure(UninitializedConnection) else Success(conn.value.quote(conn.value.jsonEncode(items)))
    case Expr(x) => RenderIn(rev, x, None)
    case Enum(IntBackedCase(_, n)) => Success(IntToString(n))
    case Enum(StringBackedCase(_, s)) => Quote(conn, s)
    case Enum(UnitCase(name)) => Quote(conn, name)
    case Date(d) => Quote(conn, FormatDateTime(d))
    case StringableProperty(t) => Quote(conn, t)
    case Property(p) => Failure(InvalidValue(ClassNameOf(p)))
    case Db(_) => Failure(InvalidValue(DbExpressionClass))
    case OtherObject(c) => Failure(InvalidValue(c))
    case Resource(_) => Failure(InvalidValue("resource"))
  }

  /** Expression::__toString(), with setConnection called where the source means it. */
  function Render(e: Expression, conn: Option<RenderContext>): Result<string> {
    RenderIn(Intended, e, conn)
  }

  function RenderAll(es: seq<Expression>, conn: Option<RenderContext>): Result<seq<string>> {
    RenderAllIn(Intended, es, conn)
  }

  function RenderValue(v: Mixed, conn: Option<RenderContext>): Result<string> {
    RenderValueIn(Intended, v, conn)
  }

  /** Expression::__toString() as the source is written. */
  function RenderAsWritten(e: Expression, conn: Option<RenderContext>): Result<string> {
    RenderIn(AsWritten, e, conn)
  }

  /**
   * (string) $value: PHP's conversion to string, as interpolation and
   * array_diff/array_diff_assoc apply it. An expression converted this way
   * has no connection.
   */
  function PhpString(v: Mixed): (r: Result<string>)
    ensures v.Int? ==> r == Success(IntToString(v.intValue))
    ensures v.Str? ==> r == Success(v.str)
    ensures v.Expr? ==> r == Render(v.expr, None)
  {
    match v
    case Null => Success("")
    case Bool(b) => Success(if b then "1" else "")
    case Int(i) => Success(IntToString(i))
    case Str(s) => Success(s)
    case StringableProperty(t) => Success(t)
    case Db(d) => Success(DbText(d))
    case Expr(x) => Render(x, None)
    case List(_) => Success("Array")  // with an "Array to string conversion" warning
    case Enum(_) => Failure(Error(EngineError, "Object of enum class could not be converted to string"))
    case Date(_) => Failure(Error(EngineError, "Object of class DateTime could not be converted to string"))
    case Property(p) => Failure(Error(EngineError, "Object of class " + ClassNameOf(p) + " could not be converted to string"))
    case OtherObject(c) => Failure(Error(EngineError, "Object of class " + c + " could not be converted to string"))
    case Resource(n) => Success("Resource id #" + IntToString(n))
  }

  /** The values a `string` parameter accepts in coercive typing mode: scalars other than null, and Stringable objects. */
  predicate CoercibleToString(v: Mixed) {
    v.Bool? || v.Int? || v.Str? || v.StringableProperty? || v.Db? || v.Expr?
  }

  /**
   * Passing `v` to the `string` parameter of a function declared in PHP, in
   * coercive typing mode: a coercible value converts as the cast does; null,
   * arrays, resources and objects without __toString are a TypeError.
   */
  function StringArgument(v: Mixed): (r: Result<string>)
    ensures CoercibleToString(v) ==> r == PhpString(v)
    ensures !CoercibleToString(v) ==> r.Failure? && r.error.kind == TypeError
  {
    if CoercibleToString(v) then PhpString(v)
    else Failure(Error(TypeError, "Argument #1 must be of type string"))
  }

  /**
   * Passing `v` to the `string` parameter of a built-in function such as
   * PDO::quote: the same, except that null is still coerced to "" (with a
   * deprecation notice since PHP 8.1).
   */
  function InternalStringArgument(v: Mixed): (r: Result<string>)
    ensures v.Null? ==> r == Success("")
    ensures !v.Null? ==> r == StringArgument(v)
  {
    if v.Null? then Success("") else StringArgument(v)
  }

  // ---------------------------------------------------------------------------
  // An independent account of which trees stringify (intended revision). A node
  // fails only on a value kind the dispatch does not know, or on a connection
  // it needs and does not have; `connected` says whether the node has one.

  predicate RenderableValue(v: Mixed, connected: bool)
    decreases v
  {
    match v
    case Property(_) => false
    case Db(_) => false
    case OtherObject(_) => false
    case Resource(_) => false
    case Expr(x) => Renderable(x, false)
    case Bool(_) => true
    case Int(_) => true
    case Null => true
    case Enum(IntBackedCase(_, _)) => true
    case _ => connected
  }

  predicate Renderable(e: Expression, connected: bool)
    decreases e
  {
    match e
    case Identifier(_) => connected
    case Simple(_) => true
    case Value(v) => RenderableValue(v, connected)
    case Compare(_, e1, e2) => connected && Renderable(e1, true) && Renderable(e2, true)
    case In(x, vs) => connected && Renderable(x, true) && AllRenderable(vs, true)
    case NotIn(x, vs) => connected && Renderable(x, true) && AllRenderable(vs, true)
    case Between(x, v1, v2) => connected && Renderable(x, true) && Renderable(v1, true) && Renderable(v2, true)
    case Not(x) => connected && Renderable(x, true)
    case BooleanExpr(_, es) => (|es| == 0 || connected) && AllRenderable(es, true)
  }

  predicate AllRenderable(es: seq<Expression>, connected: bool)
    decreases es
  {
    |es| == 0 || (Renderable(es[0], connected) && AllRenderable(es[1..], connected))
  }

  /** The only exceptions rendering raises. */
  predicate IsRenderError(err: Error) {
    IsInvalidValue(err) || err == UninitializedConnection
  }

  /** Stringification succeeds exactly on renderable trees, and fails only with a rendering error. */
  lemma {:induction false} RenderSucceedsIffRenderable(e: Expression, conn: Option<RenderContext>)
    ensures Render(e, conn).Success? <==> Renderable(e, conn.Some?)
    ensures Render(e, conn).Failure? ==> IsRenderError(Render(e, conn).error)
    decreases e, 1
  {
    match e
    case Identifier(_) =>
    case Simple(_) =>
    case Value(v) => RenderValueSucceedsIffRenderable(v, conn);
    case Compare(_, e1, e2) =>
      RenderSucceedsIffRenderable(e1, conn);
      RenderSucceedsIffRenderable(e2, conn);
    case In(x, vs) =>
      RenderSucceedsIffRenderable(x, conn);
      RenderAllSucceedsIffRenderable(vs, conn);
    case NotIn(x, vs) =>
      RenderSucceedsIffRenderable(x, conn);
      RenderAllSucceedsIffRenderable(vs, conn);
    case Between(x, v1, v2) =>
      RenderSucceedsIffRenderable(x, conn);
      RenderSucceedsIffRenderable(v1, conn);
      RenderSucceedsIffRenderable(v2, conn);
    case Not(x) => RenderSucceedsIffRenderable(x, conn);
    case BooleanExpr(_, es) => RenderAllSucceedsIffRenderable(es, conn);
  }

  lemma {:induction false} RenderValueSucceedsIffRenderable(v: Mixed, conn: Option<RenderContext>)
    ensures RenderValue(v, conn).Success? <==> RenderableValue(v, conn.Some?)
    ensures RenderValue(v, conn).Failure? ==> IsRenderError(RenderValue(v, conn).error)
    decreases v, 1
  {
    match v
    case Expr(x) => RenderSucceedsIffRenderable(x, None);
    case _ =>
  }

  lemma {:induction false} RenderAllSucceedsIffRenderable(es: seq<Expression>, conn: Option<RenderContext>)
    ensures RenderAll(es, conn).Success? <==> AllRenderable(es, conn.Some?)
    ensures RenderAll(es, conn).Failure? ==> IsRenderError(RenderAll(es, conn).error)
    ensures RenderAll(es, conn).Success? ==> |RenderAll(es, conn).value| == |es|
    decreases es, 1
  {
    if |es| > 0 {
      RenderSucceedsIffRenderable(es[0], conn);
      RenderAllSucceedsIffRenderable(es[1..], conn);
    }
  }

  /** The rendered children keep their count and order: the k-th text is the k-th child's. */
  lemma {:induction false} RenderAllElementwise(es: seq<Expression>, conn: Option<RenderContext>, k: nat)
    requires RenderAll(es, conn).Success?
    requires k < |es|
    ensures |RenderAll(es, conn).value| == |es|
    ensures Render(es[k], conn).Success? && RenderAll(es, conn).value[k] == Render(es[k], conn).value
  {
    RenderAllSucceedsIffRenderable(es, conn);
    if k > 0 {
      RenderAllElementwise(es[1..], conn, k - 1);
    }
  }

  /** Converted without a connection, a Simple node is its text and an Identifier throws. */
  lemma {:induction false} UnconnectedLeaves(t: string)
    ensures PhpString(Expr(Simple(t))) == Success(t)
    ensures PhpString(Expr(Identifier(t))) == Failure(UninitializedConnection)
  {
  }

  // ---------------------------------------------------------------------------
  // One step of the renderer on each composite node, under a connection.

  lemma {:induction false} RenderCompareStep(op: string, e1: Expression, e2: Expression, ctx: RenderContext)
    requires Render(e1, Some(ctx)).Success? && Render(e2, Some(ctx)).Success?
    ensures Render(Compare(op, e1, e2), Some(ctx)) ==
            Success(Render(e1, Some(ctx)).value + " " + op + " " + Render(e2, Some(ctx)).value)
  {
  }

  lemma {:induction false} RenderInStep(x: Expression, vs: seq<Expression>, ctx: RenderContext)
    requires Render(x, Some(ctx)).Success? && RenderAll(vs, Some(ctx)).Success?
    ensures Render(In(x, vs), Some(ctx)) ==
            Success(Render(x, Some(ctx)).value + " IN (" + Join(", ", RenderAll(vs, Some(ctx)).value) + ")")
    ensures Render(NotIn(x, vs), Some(ctx)) ==
            Success(Render(x, Some(ctx)).value + " NOT IN (" + Join(", ", RenderAll(vs, Some(ctx)).value) + ")")
  {
  }

  lemma {:induction false} RenderAllCons(e: Expression, es: seq<Expression>, conn: Option<RenderContext>)
    requires Render(e, conn).Success? && RenderAll(es, conn).Success?
    ensures RenderAll([e] + es, conn) == Success([Render(e, conn).value] + RenderAll(es, conn).value)
  {
    assert ([e] + es)[0] == e;
    assert ([e] + es)[1..] == es;
  }

  // ---------------------------------------------------------------------------
  // What each operator renders to.

  /** A NOT IN renders as the IN of the same operands with NOT before the parenthesis. */
  lemma {:induction false} NotInIsNegatedIn(x: Expression, vs: seq<Expression>, ctx: RenderContext)
    ensures Render(In(x, vs), Some(ctx)).Success? <==> Render(NotIn(x, vs), Some(ctx)).Success?
    ensures Render(In(x, vs), Some(ctx)).Success? ==> (
      var l := Render(x, Some(ctx)).value;
      var inText := Render(In(x, vs), Some(ctx)).value;
      inText[..|l|] == l &&
      Render(NotIn(x, vs), Some(ctx)).value == l + " NOT" + inText[|l|..])
  {
    if Render(In(x, vs), Some(ctx)).Success? {
      var l := Render(x, Some(ctx)).value;
      var rs := RenderAll(vs, Some(ctx)).value;
      var tail := " IN (" + Join(", ", rs) + ")";
      assert Render(In(x, vs), Some(ctx)).value == l + tail;
      assert (l + tail)[|l|..] == tail;
      assert l + " NOT" + tail == l + " NOT IN (" + Join(", ", rs) + ")";
    }
  }

  /** An OR or XOR group is parenthesised, an AND group is not. */
  lemma {:induction false} BooleanGrouping(op: BooleanOperator, es: seq<Expression>, ctx: RenderContext)
    requires RenderAll(es, Some(ctx)).Success?
    ensures var joined := Join(" " + OperatorName(op) + " ", RenderAll(es, Some(ctx)).value);
      Render(BooleanExpr(op, es), Some(ctx)) ==
        Success(if op == And then joined else "(" + joined + ")")
  {
  }

  /** An empty AND is the empty text, empty OR and XOR groups are "()", with or without a connection. */
  lemma {:induction false} EmptyBooleanExpr(conn: Option<RenderContext>)
    ensures Render(BooleanExpr(And, []), conn) == Success("")
    ensures Render(BooleanExpr(Or, []), conn) == Success("()")
    ensures Render(BooleanExpr(Xor, []), conn) == Success("()")
  {
    assert "(" + "" + ")" == "()";
  }

  /** A one-element AND is its element. */
  lemma {:induction false} SingletonAnd(e: Expression, ctx: RenderContext)
    ensures Render(BooleanExpr(And, [e]), Some(ctx)) == Render(e, Some(ctx))
  {
    assert [e][1..] == [];
    if Render(e, Some(ctx)).Success? {
      var h := Render(e, Some(ctx)).value;
      assert RenderAll([][..], Some(ctx)) == Success([]);
      assert RenderAll([e], Some(ctx)) == Success([h] + []);
      assert [h] + [] == [h];
      assert Join(" AND ", [h]) == h;
      assert Render(BooleanExpr(And, [e]), Some(ctx)) == Success(Join(" AND ", [h]));
    } else {
      assert RenderAll([e], Some(ctx)) == Failure(Render(e, Some(ctx)).error);
    }
  }

  /** Comparing with a null Value node renders IS NULL / IS NOT NULL; other operators keep their symbol. */
  lemma {:induction false} NullComparison(op: ComparisonOperator, name: string, ctx: RenderContext)
    ensures Render(NewCompare(op, Identifier(name), Value(Null)), Some(ctx)) ==
      Success(ctx.quoteIdentifier(name) + (if op == Eq then " IS" else if op == Ne then " IS NOT" else " " + Symbol(op)) + " NULL")
  {
    var q := ctx.quoteIdentifier(name);
    var c := NewCompare(op, Identifier(name), Value(Null));
    assert Render(Identifier(name), Some(ctx)) == Success(q);
    assert Render(Value(Null), Some(ctx)) == Success("NULL");
    RenderCompareStep(c.operator, Identifier(name), Value(Null), ctx);
    if op == Eq {
      assert q + " " + "IS" + " " + "NULL" == q + " IS" + " NULL";
    } else if op == Ne {
      assert q + " " + "IS NOT" + " " + "NULL" == q + " IS NOT" + " NULL";
    } else {
      assert q + " " + Symbol(op) + " " + "NULL" == q + (" " + Symbol(op)) + " NULL";
    }
  }

  /** A Simple "NULL" operand is not a Value node: the comparison keeps =. */
  lemma {:induction false} SimpleNullKeepsEquals(name: string, ctx: RenderContext)
    ensures Render(NewCompare(Eq, Identifier(name), Simple("NULL")), Some(ctx)) ==
            Success(ctx.quoteIdentifier(name) + " = NULL")
  {
    var q := ctx.quoteIdentifier(name);
    var c := NewCompare(Eq, Identifier(name), Simple("NULL"));
    assert c.operator == "=";
    assert Render(Identifier(name), Some(ctx)) == Success(q);
    assert Render(Simple("NULL"), Some(ctx)) == Success("NULL");
    assert Render(c, Some(ctx)) == Success(q + " " + "=" + " " + "NULL");
    assert q + " " + "=" + " " + "NULL" == q + " = NULL";
  }

  // ---------------------------------------------------------------------------
  // Between and Not.

  /**
   * A NOT node throws without a connection; with one, it is "NOT " before its
   * child's text, the child rendered under the same connection, or the child's
   * exception.
   */
  lemma {:induction false} NotRenders(x: Expression, conn: Option<RenderContext>)
    ensures conn.None? ==> Render(Not(x), conn) == Failure(UninitializedConnection)
    ensures conn.Some? ==> (Render(Not(x), conn) ==
      match Render(x, conn)
      case Success(t) => Success("NOT " + t)
      case Failure(err) => Failure(err))
  {
  }

  /** NOT adds no parentheses: NOT over an AND of two reads as NOT binding to the first operand only. */
  lemma {:induction false} NotOfAndUnparenthesised(a: Expression, b: Expression, ctx: RenderContext)
    requires Render(a, Some(ctx)).Success? && Render(b, Some(ctx)).Success?
    ensures Render(Not(BooleanExpr(And, [a, b])), Some(ctx)) ==
            Success("NOT " + Render(a, Some(ctx)).value + " AND " + Render(b, Some(ctx)).value)
  {
    var ta, tb := Render(a, Some(ctx)).value, Render(b, Some(ctx)).value;
    assert [b][1..] == [];
    assert RenderAll([b][1..], Some(ctx)) == Success([]);
    assert RenderAll([b], Some(ctx)) == Success([tb] + []);
    assert [tb] + [] == [tb];
    RenderAllCons(a, [b], Some(ctx));
    assert [a] + [b] == [a, b];
    assert RenderAll([a, b], Some(ctx)) == Success([ta] + [tb]);
    assert [ta] + [tb] == [ta, tb];
    assert [ta, tb][1..] == [tb];
    assert Join(" AND ", [ta, tb]) == ta + " AND " + Join(" AND ", [tb]);
    assert " " + OperatorName(And) + " " == " AND ";
    assert Render(BooleanExpr(And, [a, b]), Some(ctx)) == Success(ta + " AND " + tb);
    assert "NOT " + (ta + " AND " + tb) == "NOT " + ta + " AND " + tb;
  }

  /** Two NOTs are kept as they are, not cancelled. */
  lemma {:induction false} DoubleNotKept(e: Expression, ctx: RenderContext)
    requires Render(e, Some(ctx)).Success?
    ensures Render(Not(Not(e)), Some(ctx)) == Success("NOT NOT " + Render(e, Some(ctx)).value)
  {
    var t := Render(e, Some(ctx)).value;
    assert Render(Not(e), Some(ctx)) == Success("NOT " + t);
    assert "NOT " + ("NOT " + t) == "NOT NOT " + t;
  }

  /**
   * A BETWEEN node throws without a connection; with one, its three children
   * render under that connection, in construction order, and the first
   * exception wins. No parentheses are added and the bounds are not compared.
   */
  lemma {:induction false} BetweenRenders(x: Expression, lo: Expression, hi: Expression, conn: Option<RenderContext>)
    ensures conn.None? ==> Render(Between(x, lo, hi), conn) == Failure(UninitializedConnection)
    ensures conn.Some? ==> (Render(Between(x, lo, hi), conn) ==
      match Render(x, conn)
      case Failure(err) => Failure(err)
      case Success(t) =>
        match Render(lo, conn)
        case Failure(err) => Failure(err)
        case Success(tlo) =>
          match Render(hi, conn)
          case Failure(err) => Failure(err)
          case Success(thi) => Success(t + " BETWEEN " + tlo + " AND " + thi))
  {
  }

  // ---------------------------------------------------------------------------
  // The misspelled setConection.

  /** The first two quoting rules of a MySQL-like connection; json_encode stays a parameter. */
  function TestContext(json: seq<Mixed> -> string): (ctx: RenderContext)
    ensures forall s :: ctx.quote(s) == "'" + s + "'"
    ensures forall s :: ctx.quoteIdentifier(s) == "`" + s + "`"
    ensures ctx.jsonEncode == json
  {
    RenderContext(s => "'" + s + "'", s => "`" + s + "`", json)
  }

  /** `name` = 'John' renders under the intended revision. */
  lemma {:induction false} IntendedCompareRenders(json: seq<Mixed> -> string)
    ensures Render(NewCompare(Eq, Identifier("name"), Value(Str("John"))), Some(TestContext(json))) ==
            Success("`name` = 'John'")
  {
    var ctx := TestContext(json);
    var e := NewCompare(Eq, Identifier("name"), Value(Str("John")));
    assert e.operator == "=";
    assert "`" + "name" + "`" == "`name`" && "'" + "John" + "'" == "'John'";
    assert Render(Identifier("name"), Some(ctx)) == Success("`name`");
    assert Render(Value(Str("John")), Some(ctx)) == Success("'John'");
    assert Render(e, Some(ctx)) == Success("`name`" + " " + "=" + " " + "'John'");
    assert "`name`" + " " + "=" + " " + "'John'" == "`name` = 'John'";
  }

  /** The same comparison throws as the source is written: the method it calls does not exist. */
  lemma {:induction false} MisspelledSetConnectionBreaksCompare(json: seq<Mixed> -> string)
    ensures Render(NewCompare(Eq, Identifier("name"), Value(Str("John"))), Some(TestContext(json))).Success?
    ensures RenderAsWritten(NewCompare(Eq, Identifier("name"), Value(Str("John"))), Some(TestContext(json))) ==
            Failure(Error(EngineError, UndefinedSetConection("Compare")))
  {
    IntendedCompareRenders(json);
    var e := NewCompare(Eq, Identifier("name"), Value(Str("John")));
    assert CallsMisspelled(e);
    assert MisspelledCall(e) == Error(EngineError, UndefinedSetConection("Compare"));
  }

  /** A tree in which no Compare, In or Not node is reached renders the same under both revisions. */
  predicate FreeOfMisspelling(e: Expression)
    decreases e
  {
    match e
    case Compare(_, _, _) => false
    case In(_, _) => false
    case Not(_) => false
    case Value(Expr(x)) => FreeOfMisspelling(x)
    case NotIn(x, vs) => FreeOfMisspelling(x) && AllFreeOfMisspelling(vs)
    case Between(x, v1, v2) => FreeOfMisspelling(x) && FreeOfMisspelling(v1) && FreeOfMisspelling(v2)
    case BooleanExpr(_, es) => AllFreeOfMisspelling(es)
    case _ => true
  }

  predicate AllFreeOfMisspelling(es: seq<Expression>)
    decreases es
  {
    |es| == 0 || (FreeOfMisspelling(es[0]) && AllFreeOfMisspelling(es[1..]))
  }

  lemma {:induction false} RevisionsAgree(e: Expression, conn: Option<RenderContext>)
    requires FreeOfMisspelling(e)
    ensures RenderAsWritten(e, conn) == Render(e, conn)
    decreases e, 1
  {
    match e
    case Value(v) => ValueRevisionsAgree(v, conn);
    case NotIn(x, vs) =>
      RevisionsAgree(x, conn);
      RevisionsAgreeAll(vs, conn);
    case Between(x, v1, v2) =>
      RevisionsAgree(x, conn);
      RevisionsAgree(v1, conn);
      RevisionsAgree(v2, conn);
    case BooleanExpr(_, es) => RevisionsAgreeAll(es, conn);
    case Identifier(_) =>
    case Simple(_) =>
  }

  lemma {:induction false} ValueRevisionsAgree(v: Mixed, conn: Option<RenderContext>)
    requires FreeOfMisspelling(Value(v))
    ensures RenderAsWritten(Value(v), conn) == Render(Value(v), conn)
    decreases Value(v), 0
  {
    assert RenderAsWritten(Value(v), conn) == RenderValueIn(AsWritten, v, conn);
    assert Render(Value(v), conn) == RenderValueIn(Intended, v, conn);
    if v.Expr? {
      RevisionsAgree(v.expr, None);
    }
  }

  lemma {:induction false} RevisionsAgreeAll(es: seq<Expression>, conn: Option<RenderContext>)
    requires AllFreeOfMisspelling(es)
    ensures RenderAllIn(AsWritten, es, conn) == RenderAll(es, conn)
    decreases es, 1
  {
    if |es| > 0 {
      RevisionsAgree(es[0], conn);
      RevisionsAgreeAll(es[1..], conn);
    }
  }

  /** As written, a reachable Compare, In or Not node throws whatever the connection. */
  lemma {:induction false} AsWrittenCompareAlwaysThrows(e: Expression, conn: Option<RenderContext>)
    requires CallsMisspelled(e)
    ensures RenderAsWritten(e, conn) == Failure(MisspelledCall(e))
  {
  }

  /** The bounds are written in the order given, even when the lower exceeds the upper. */
  lemma {:induction false} ReversedBoundsKept(json: seq<Mixed> -> string)
    ensures Render(Between(Identifier("age"), Value(Int(10)), Value(Int(5))), Some(TestContext(json))) ==
            Success("`age` BETWEEN 10 AND 5")
  {
    var ctx := Some(TestContext(json));
    assert IntToString(10) == "10" && IntToString(5) == "5";
    assert "`" + "age" + "`" == "`age`";
    assert Render(Identifier("age"), ctx) == Success("`age`");
    assert Render(Value(Int(10)), ctx) == Success("10");
    assert Render(Value(Int(5)), ctx) == Success("5");
    BetweenRenders(Identifier("age"), Value(Int(10)), Value(Int(5)), ctx);
    assert "`age`" + " BETWEEN " + "10" + " AND " + "5" == "`age` BETWEEN 10 AND 5";
  }
}
