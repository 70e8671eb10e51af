/**
 * The static SQL builders of src/Base.php: queryPart, buildQuery, condition,
 * conditions, quoteValue(s), the INSERT/UPDATE/DELETE texts, getTableName and
 * the queries the finders issue. Every builder takes the quoting rules of the
 * class's resolved connection (`ctx`); resolving that connection is modelled
 * in the Connections module.
 */
module Statements {
  import opened Wrappers
  import opened Strings
  import opened ExpressionTree
  import opened Rendering
  import opened ExpressionBuilder

  // ---------------------------------------------------------------------------
  // getTableName

  /** preg_replace('/(.)([A-Z])/', "$1_$2", s): left to right, matches do not overlap. */
  function Underscore(s: string): (r: string)
    ensures |r| >= |s|
  {
    if |s| < 2 then s
    else if s[0] != '\n' && IsAsciiUpper(s[1]) then [s[0], '_', s[1]] + Underscore(s[2..])
    else [s[0]] + Underscore(s[1..])
  }

  /** getTableName: strtolower of the underscored class name. */
  function TableName(cls: string): (r: string)
    ensures forall k :: 0 <= k < |r| ==> !IsAsciiUpper(r[k])
  {
    ToLower(Underscore(cls))
  }

  /** s with every '_' removed. */
  function StripUnderscores(s: string): (r: string)
    ensures forall k :: 0 <= k < |r| ==> r[k] != '_'
  {
    if |s| == 0 then ""
    else if s[0] == '_' then StripUnderscores(s[1..])
    else [s[0]] + StripUnderscores(s[1..])
  }

  lemma {:induction false} StripUnderscoresAppend(a: string, b: string)
    ensures StripUnderscores(a + b) == StripUnderscores(a) + StripUnderscores(b)
  {
    if |a| > 0 {
      assert (a + b)[0] == a[0];
      assert (a + b)[1..] == a[1..] + b;
      StripUnderscoresAppend(a[1..], b);
    } else {
      assert a + b == b;
    }
  }

  /** The replacement only inserts '_': for a name without one, deleting them gives the name back. */
  lemma {:induction false} UnderscoreOnlyInserts(s: string)
    requires forall k :: 0 <= k < |s| ==> s[k] != '_'
    ensures StripUnderscores(Underscore(s)) == s
  {
    if |s| >= 2 {
      if s[0] != '\n' && IsAsciiUpper(s[1]) {
        UnderscoreOnlyInserts(s[2..]);
        StripUnderscoresAppend([s[0], '_', s[1]], Underscore(s[2..]));
        StripInserted(s[0], s[1]);
        assert s == [s[0], s[1]] + s[2..];
      } else {
        UnderscoreOnlyInserts(s[1..]);
        StripUnderscoresAppend([s[0]], Underscore(s[1..]));
        assert s == [s[0]] + s[1..];
      }
    } else if |s| == 1 {
      assert StripUnderscores(s) == [s[0]] + StripUnderscores(s[1..]);
    }
  }

  lemma {:induction false} StripInserted(a: char, b: char)
    requires a != '_' && b != '_'
    ensures StripUnderscores([a, '_', b]) == [a, b]
  {
    assert [a, '_', b][1..] == ['_', b];
    assert ['_', b][1..] == [b];
    assert StripUnderscores([b]) == [b] + StripUnderscores([]);
  }

  /**
   * A stretch with no capital after its first character, followed by text that
   * does not start with a capital, passes through unchanged.
   */
  lemma {:induction false} UnderscorePrefix(a: string, b: string)
    requires forall k :: 1 <= k < |a| ==> !IsAsciiUpper(a[k])
    requires |b| > 0 ==> !IsAsciiUpper(b[0])
    ensures Underscore(a + b) == a + Underscore(b)
  {
    if |a| > 0 {
      var t := a[1..] + b;
      assert a + b == [a[0]] + t;
      if |t| > 0 {
        if |a| >= 2 { assert t[0] == a[1]; } else { assert t[0] == b[0]; }
      }
      UnderscoreSingle(a[0], t);
      UnderscorePrefix(a[1..], b);
      assert a == [a[0]] + a[1..];
    } else {
      assert a + b == b;
    }
  }

  lemma {:induction false} UnderscoreSingle(c: char, t: string)
    requires |t| > 0 ==> !IsAsciiUpper(t[0])
    ensures Underscore([c] + t) == [c] + Underscore(t)
  {
    assert ([c] + t)[1..] == t;
  }

  lemma {:induction false} TableNameVehicle()
    ensures TableName("Vehicle") == "vehicle"
  {
    assert Underscore("Vehicle") == "Vehicle" by {
      UnderscorePrefix("Vehicle", "");
      assert "Vehicle" + "" == "Vehicle";
    }
    VehicleOwnerLower();
  }

  /** A word: one character, then no capitals and no newline. */
  predicate Word(w: string) {
    |w| > 0 && w[0] != '\n' && forall k :: 1 <= k < |w| ==> !IsAsciiUpper(w[k]) && w[k] != '\n'
  }

  lemma {:induction false} UnderscoreMatch(c: char, u: char, rest: string)
    requires c != '\n' && IsAsciiUpper(u)
    ensures Underscore([c, u] + rest) == [c, '_', u] + Underscore(rest)
  {
    assert ([c, u] + rest)[2..] == rest;
  }

  lemma {:induction false} TwoWordShape(w1: string, w2: string)
    requires |w1| > 0 && |w2| > 0
    ensures w1 + w2 == w1[..|w1| - 1] + ([w1[|w1| - 1], w2[0]] + w2[1..])
    ensures w1[..|w1| - 1] + ([w1[|w1| - 1], '_', w2[0]] + w2[1..]) == w1 + "_" + w2
  {
    assert w1 == w1[..|w1| - 1] + [w1[|w1| - 1]];
    assert w2 == [w2[0]] + w2[1..];
  }

  lemma {:induction false} TwoWordUnderscore(w1: string, w2: string)
    requires Word(w1) && Word(w2) && IsAsciiUpper(w2[0])
    ensures Underscore(w1 + w2) == w1 + "_" + w2
  {
    var init, last, tail := w1[..|w1| - 1], w1[|w1| - 1], w2[1..];
    UnderscorePrefix(tail, "");
    assert tail + "" == tail;
    UnderscoreMatch(last, w2[0], tail);
    var b := [last, w2[0]] + tail;
    if |init| > 0 {
      UnderscorePrefix(init, b);
    } else {
      assert init + b == b;
    }
    TwoWordShape(w1, w2);
  }

  /** Two CamelCase words give their lower-cased texts joined by one underscore. */
  lemma {:induction false} TwoWordTableName(w1: string, w2: string)
    requires Word(w1) && Word(w2) && IsAsciiUpper(w2[0])
    ensures TableName(w1 + w2) == ToLower(w1) + "_" + ToLower(w2)
  {
    TwoWordUnderscore(w1, w2);
    ToLowerAppend(w1 + "_", w2);
    ToLowerAppend(w1, "_");
  }

  /** A word lower-cases to its lower-cased initial followed by the rest unchanged. */
  lemma {:induction false} LowerWord(w: string)
    requires Word(w)
    ensures ToLower(w) == [LowerChar(w[0])] + w[1..]
  {
    var rest := ToLower(w[1..]);
    assert forall k :: 0 <= k < |w[1..]| ==> !IsAsciiUpper(w[1..][k]);
    assert rest == w[1..];
  }

  lemma {:induction false} TableNameVehicleOwner()
    ensures TableName("VehicleOwner") == "vehicle_owner"
  {
    VehicleOwnerWords();
    TwoWordTableName("Vehicle", "Owner");
    VehicleOwnerLower();
    assert "vehicle" + "_" + "owner" == "vehicle_owner";
  }

  lemma {:induction false} VehicleOwnerWords()
    ensures Word("Vehicle") && Word("Owner") && IsAsciiUpper("Owner"[0])
    ensures "Vehicle" + "Owner" == "VehicleOwner"
  {
  }

  lemma {:induction false} VehicleOwnerLower()
    ensures ToLower("Vehicle") == "vehicle" && ToLower("Owner") == "owner"
  {
    assert Word("Vehicle") && Word("Owner");
    LowerWord("Vehicle");
    LowerWord("Owner");
    assert LowerChar('V') == 'v' && LowerChar('O') == 'o';
  }

  /** The one-word class of the examples quotes to `table`. */
  lemma {:induction false} TestTable(json: seq<Mixed> -> string)
    ensures TableName("Table") == "table"
    ensures QuotedTable(TestContext(json), "Table") == "`table`"
  {
    assert Underscore("Table") == "Table";
  }

  /** Matches do not overlap: in "ABC", the "B" that ended one match cannot start the next. */
  lemma {:induction false} TableNameNoOverlap()
    ensures TableName("ABC") == "a_bc"
  {
    assert Underscore("ABC") == "A_BC";
  }

  /** getQuotedTableName */
  function QuotedTable(ctx: RenderContext, cls: string): string {
    ctx.quoteIdentifier(TableName(cls))
  }

  // ---------------------------------------------------------------------------
  // queryPart and buildQuery

  /** queryPart(prefix, part): " prefix part", or nothing when part is PHP-falsy. */
  function QueryPart(prefix: string, part: string): string {
    if Truthy(part) then " " + prefix + " " + part else ""
  }

  /** (string) of an `int $limit = null` parameter. */
  function OptionalIntText(n: Option<int>): (r: string)
    ensures n.None? ==> r == ""
  {
    match n
    case None => ""
    case Some(i) => IntToString(i)
  }

  /** The arguments of buildQuery. */
  datatype Query = Query(criteria: string, orderBy: string, limit: Option<int>, offset: Option<int>,
                         select: string, joins: string)

  /** buildQuery with the parameter defaults: everything empty, select '*'. */
  function DefaultQuery(): Query {
    Query("", "", None, None, "*", "")
  }

  /** buildQuery */
  function BuildQuery(ctx: RenderContext, cls: string, q: Query): string {
    "SELECT " + q.select + " FROM " + QuotedTable(ctx, cls)
      + QueryPart("", q.joins)
      + QueryPart("WHERE", q.criteria)
      + QueryPart("ORDER BY", q.orderBy)
      + QueryPart("LIMIT", OptionalIntText(q.limit))
      + QueryPart("OFFSET", OptionalIntText(q.offset))
  }

  // A second description of the same text: the clauses in their fixed order,
  // the falsy ones dropped, the rest each written as " PREFIX text".

  datatype Clause = Clause(prefix: string, text: string)

  function Clauses(q: Query): seq<Clause> {
    [Clause("", q.joins), Clause("WHERE", q.criteria), Clause("ORDER BY", q.orderBy),
     Clause("LIMIT", OptionalIntText(q.limit)), Clause("OFFSET", OptionalIntText(q.offset))]
  }

  function Present(cs: seq<Clause>): (r: seq<Clause>)
    ensures |r| <= |cs|
    ensures forall k :: 0 <= k < |r| ==> Truthy(r[k].text)
  {
    if |cs| == 0 then []
    else if Truthy(cs[0].text) then [cs[0]] + Present(cs[1..])
    else Present(cs[1..])
  }

  function Emit(cs: seq<Clause>): string {
    if |cs| == 0 then "" else " " + cs[0].prefix + " " + cs[0].text + Emit(cs[1..])
  }

  lemma {:induction false} EmitPresent(c: Clause, cs: seq<Clause>)
    ensures Emit(Present([c] + cs)) == QueryPart(c.prefix, c.text) + Emit(Present(cs))
  {
    assert ([c] + cs)[0] == c;
    assert ([c] + cs)[1..] == cs;
    if Truthy(c.text) {
      assert Present([c] + cs) == [c] + Present(cs);
      assert ([c] + Present(cs))[1..] == Present(cs);
    }
  }

  /** buildQuery is SELECT .. FROM .. followed by the non-empty clauses, in their fixed order. */
  lemma {:induction false} BuildQueryLayout(ctx: RenderContext, cls: string, q: Query)
    ensures BuildQuery(ctx, cls, q) ==
            "SELECT " + q.select + " FROM " + QuotedTable(ctx, cls) + Emit(Present(Clauses(q)))
  {
    var c0, c1, c2, c3, c4 := Clause("", q.joins), Clause("WHERE", q.criteria), Clause("ORDER BY", q.orderBy),
      Clause("LIMIT", OptionalIntText(q.limit)), Clause("OFFSET", OptionalIntText(q.offset));
    var t4: seq<Clause> := [c4];
    var t3, t2, t1, t0 := [c3] + t4, [c2] + ([c3] + t4), [c1] + ([c2] + ([c3] + t4)), [c0] + ([c1] + ([c2] + ([c3] + t4)));
    assert t0 == Clauses(q);
    EmitPresent(c4, []);
    assert [c4] + [] == t4;
    EmitPresent(c3, t4);
    EmitPresent(c2, t3);
    EmitPresent(c1, t2);
    EmitPresent(c0, t1);
    var p0, p1, p2, p3, p4 := QueryPart(c0.prefix, c0.text), QueryPart(c1.prefix, c1.text), QueryPart(c2.prefix, c2.text),
      QueryPart(c3.prefix, c3.text), QueryPart(c4.prefix, c4.text);
    assert Emit(Present(t0)) == p0 + (p1 + (p2 + (p3 + (p4 + ""))));
    ConcatFive("SELECT " + q.select + " FROM " + QuotedTable(ctx, cls), p0, p1, p2, p3, p4);
  }

  lemma {:induction false} ConcatFive(h: string, p0: string, p1: string, p2: string, p3: string, p4: string)
    ensures h + p0 + p1 + p2 + p3 + p4 == h + (p0 + (p1 + (p2 + (p3 + (p4 + "")))))
  {
    assert p4 + "" == p4;
  }

  /** A null limit or offset, and a limit or offset of 0, add nothing to the query. */
  lemma {:induction false} NoLimitClause(ctx: RenderContext, cls: string, q: Query)
    requires q.limit.None? || q.limit == Some(0)
    requires q.offset.None? || q.offset == Some(0)
    ensures BuildQuery(ctx, cls, q) ==
            "SELECT " + q.select + " FROM " + QuotedTable(ctx, cls)
              + QueryPart("", q.joins) + QueryPart("WHERE", q.criteria) + QueryPart("ORDER BY", q.orderBy)
  {
    assert IntToString(0) == "0";
  }

  /** The joins clause has an empty prefix, so non-empty joins begin with two spaces. */
  lemma {:induction false} JoinsClause(joins: string)
    requires Truthy(joins)
    ensures QueryPart("", joins) == "  " + joins
  {
  }

  /** `SELECT * FROM `table`` for the defaults. */
  lemma {:induction false} DefaultQueryText(json: seq<Mixed> -> string)
    ensures BuildQuery(TestContext(json), "Table", DefaultQuery()) == "SELECT * FROM `table`"
  {
    TestTable(json);
    assert "SELECT " + "*" + " FROM " + "`table`" == "SELECT * FROM `table`";
  }

  /** With every clause present, they follow the table in the order joins, WHERE, ORDER BY, LIMIT, OFFSET. */
  lemma {:induction false} AllClauses(ctx: RenderContext, cls: string, q: Query)
    requires Truthy(q.joins) && Truthy(q.criteria) && Truthy(q.orderBy)
    requires q.limit.Some? && q.limit.value != 0 && q.offset.Some? && q.offset.value != 0
    ensures BuildQuery(ctx, cls, q) ==
      "SELECT " + q.select + " FROM " + QuotedTable(ctx, cls) + ("  " + q.joins) + (" WHERE " + q.criteria)
        + (" ORDER BY " + q.orderBy) + (" LIMIT " + IntToString(q.limit.value)) + (" OFFSET " + IntToString(q.offset.value))
  {
    TailClauses(q);
    JoinsClause(q.joins);
  }

  /** Without joins the same order holds, with no gap after the table. */
  lemma {:induction false} ClausesWithoutJoins(ctx: RenderContext, cls: string, q: Query)
    requires q.joins == "" && Truthy(q.criteria) && Truthy(q.orderBy)
    requires q.limit.Some? && q.limit.value != 0 && q.offset.Some? && q.offset.value != 0
    ensures BuildQuery(ctx, cls, q) ==
      "SELECT " + q.select + " FROM " + QuotedTable(ctx, cls) + (" WHERE " + q.criteria)
        + (" ORDER BY " + q.orderBy) + (" LIMIT " + IntToString(q.limit.value)) + (" OFFSET " + IntToString(q.offset.value))
  {
    TailClauses(q);
    assert QueryPart("", q.joins) == "";
    assert "SELECT " + q.select + " FROM " + QuotedTable(ctx, cls) + "" == "SELECT " + q.select + " FROM " + QuotedTable(ctx, cls);
  }

  lemma {:induction false} TailClauses(q: Query)
    requires Truthy(q.criteria) && Truthy(q.orderBy)
    requires q.limit.Some? && q.limit.value != 0 && q.offset.Some? && q.offset.value != 0
    ensures QueryPart("WHERE", q.criteria) == " WHERE " + q.criteria
    ensures QueryPart("ORDER BY", q.orderBy) == " ORDER BY " + q.orderBy
    ensures QueryPart("LIMIT", OptionalIntText(q.limit)) == " LIMIT " + IntToString(q.limit.value)
    ensures QueryPart("OFFSET", OptionalIntText(q.offset)) == " OFFSET " + IntToString(q.offset.value)
  {
    TextClause("WHERE", q.criteria, " WHERE ");
    TextClause("ORDER BY", q.orderBy, " ORDER BY ");
    IntToStringTruthy(q.limit.value);
    TextClause("LIMIT", IntToString(q.limit.value), " LIMIT ");
    IntToStringTruthy(q.offset.value);
    TextClause("OFFSET", IntToString(q.offset.value), " OFFSET ");
  }

  lemma {:induction false} TextClause(prefix: string, part: string, spaced: string)
    requires Truthy(part) && spaced == " " + prefix + " "
    ensures QueryPart(prefix, part) == spaced + part
  {
  }

  lemma {:induction false} LimitOffsetTexts()
    ensures IntToString(100) == "100" && IntToString(200) == "200"
  {
    assert NatToString(100) == "100" && NatToString(200) == "200";
  }

  lemma {:induction false} FullQueryAt(ctx: RenderContext, cls: string)
    requires QuotedTable(ctx, cls) == "`table`"
    ensures BuildQuery(ctx, cls, FindAllArguments("criteria", "id", Some(100), Some(200), "*")) ==
            "SELECT " + "*" + " FROM " + "`table`" + (" WHERE " + "criteria") + (" ORDER BY " + "id")
              + (" LIMIT " + "100") + (" OFFSET " + "200")
  {
    var q := FindAllArguments("criteria", "id", Some(100), Some(200), "*");
    assert q.select == "*" && q.criteria == "criteria" && q.orderBy == "id" && q.joins == "";
    assert q.limit == Some(100) && q.offset == Some(200);
    ClausesWithoutJoins(ctx, cls, q);
    LimitOffsetTexts();
  }

  /** findAll('criteria', 'id', 100, 200) on a class whose table is `table`. */
  lemma {:induction false} FullQueryText(json: seq<Mixed> -> string)
    ensures BuildQuery(TestContext(json), "Table", FindAllArguments("criteria", "id", Some(100), Some(200), "*")) ==
            "SELECT " + "*" + " FROM " + "`table`" + (" WHERE " + "criteria") + (" ORDER BY " + "id")
              + (" LIMIT " + "100") + (" OFFSET " + "200")
  {
    TestTable(json);
    FullQueryAt(TestContext(json), "Table");
  }

  // ---------------------------------------------------------------------------
  // quoteValue, condition and conditions

  /**
   * quoteValue, followed by the string conversion implode applies to its result:
   * a bool is intval'd, an int stays bare, null is the text NULL, anything else
   * is passed to the connection's quote(string), which coerces it.
   */
  function QuoteValue(ctx: RenderContext, v: Mixed): (r: Result<string>)
    ensures v.Bool? ==> r == Success(if v.boolValue then "1" else "0")
    ensures v.Int? ==> r == Success(IntToString(v.intValue))
    ensures v.Null? ==> r == Success("NULL")
    ensures v.Str? ==> r == Success(ctx.quote(v.str))
    ensures v.List? ==> r.Failure? && r.error.kind == TypeError
  {
    match v
    case Bool(b) => Success(if b then "1" else "0")
    case Int(i) => Success(IntToString(i))
    case Null => Success("NULL")
    case _ => QuotedArgument(ctx, v)
  }

  /** The connection's quote(string $string) applied to a value PHP coerces to string. */
  function QuotedArgument(ctx: RenderContext, v: Mixed): (r: Result<string>)
    ensures r.Success? <==> InternalStringArgument(v).Success?
    ensures r.Success? ==> r.value == ctx.quote(InternalStringArgument(v).value)
  {
    var s :- InternalStringArgument(v);
    Success(ctx.quote(s))
  }

  /** `prefix` before a successful text; the failure unchanged. */
  function Prefixed(prefix: string, r: Result<string>): (p: Result<string>)
    ensures p.Success? <==> r.Success?
    ensures p.Success? ==> p.value == prefix + r.value
  {
    if r.Success? then Success(prefix + r.value) else r
  }

  /** quoteValues: one text per value, in order; the first failure ends it. */
  function QuoteValues(ctx: RenderContext, vs: seq<Mixed>): (r: Result<seq<string>>)
    ensures r.Success? <==> forall k :: 0 <= k < |vs| ==> QuoteValue(ctx, vs[k]).Success?
    ensures r.Success? ==> |r.value| == |vs|
    ensures r.Success? ==> forall k :: 0 <= k < |vs| ==> QuoteValue(ctx, vs[k]) == Success(r.value[k])
  {
    if |vs| == 0 then Success([])
    else
      var h :- QuoteValue(ctx, vs[0]);
      var t :- QuoteValues(ctx, vs[1..]);
      Success([h] + t)
  }

  /** condition(attribute, value), dispatched on gettype(value). */
  function Condition(ctx: RenderContext, attribute: string, v: Mixed): (r: Result<string>)
    ensures v.Bool? ==> r == Success(ctx.quoteIdentifier(attribute) + " = " + (if v.boolValue then "1" else "0"))
    ensures v.Int? ==> r == Success(ctx.quoteIdentifier(attribute) + " = " + IntToString(v.intValue))
    ensures v.Null? ==> r == Success(ctx.quoteIdentifier(attribute) + " IS NULL")
    ensures v.Str? ==> r == Success(ctx.quoteIdentifier(attribute) + " = " + ctx.quote(v.str))
    ensures v.List? ==> (r.Success? <==> QuoteValues(ctx, v.items).Success?)
    ensures v.List? && r.Success? ==>
              r.value == ctx.quoteIdentifier(attribute) + " IN (" + Join(", ", QuoteValues(ctx, v.items).value) + ")"
  {
    var q := ctx.quoteIdentifier(attribute);
    match v
    case Bool(b) => Success(q + " = " + (if b then "1" else "0"))
    case Int(i) => Success(q + " = " + IntToString(i))
    case Null => Success(q + " IS NULL")
    case List(items) =>
      var vs :- QuoteValues(ctx, items);
      Success(q + " IN (" + Join(", ", vs) + ")")
    case _ => Prefixed(q + " = ", QuotedArgument(ctx, v))
  }

  /** The texts of the conditions of an ordered attribute array. */
  function ConditionTexts(ctx: RenderContext, attributes: seq<(string, Mixed)>): (r: Result<seq<string>>)
    ensures r.Success? <==> forall k :: 0 <= k < |attributes| ==> Condition(ctx, attributes[k].0, attributes[k].1).Success?
    ensures r.Success? ==> |r.value| == |attributes|
    ensures r.Success? ==>
      forall k :: 0 <= k < |attributes| ==> Condition(ctx, attributes[k].0, attributes[k].1) == Success(r.value[k])
  {
    if |attributes| == 0 then Success([])
    else
      var h :- Condition(ctx, attributes[0].0, attributes[0].1);
      var t :- ConditionTexts(ctx, attributes[1..]);
      Success([h] + t)
  }

  /** conditions(attributes): the conditions joined with " AND ". */
  function Conditions(ctx: RenderContext, attributes: seq<(string, Mixed)>): (r: Result<string>)
    ensures r.Success? <==> ConditionTexts(ctx, attributes).Success?
    ensures r.Success? ==> r.value == Join(" AND ", ConditionTexts(ctx, attributes).value)
  {
    var texts :- ConditionTexts(ctx, attributes);
    Success(Join(" AND ", texts))
  }

  /** The values condition renders exactly as the equivalent expression does. */
  predicate Plain(v: Mixed) {
    v.Null? || v.Bool? || v.Int? || v.Str?
  }

  /**
   * For null, booleans, ints, strings and arrays of those, condition(a, v) and
   * the expression buildForAttribute(a, v) produce the same SQL text.
   */
  lemma {:induction false} ConditionAgreesWithExpression(ctx: RenderContext, attribute: string, v: Mixed)
    requires Plain(v) || (v.List? && forall k :: 0 <= k < |v.items| ==> Plain(v.items[k]))
    ensures Condition(ctx, attribute, v) == Render(BuildForAttribute(attribute, v), Some(ctx))
  {
    if v.Null? {
      NullConditionAgrees(ctx, attribute);
    } else if v.List? {
      ListConditionAgrees(ctx, attribute, v.items);
    } else {
      PlainConditionAgrees(ctx, attribute, v);
    }
  }

  lemma {:induction false} NullConditionAgrees(ctx: RenderContext, attribute: string)
    ensures Condition(ctx, attribute, Null) == Render(BuildForAttribute(attribute, Null), Some(ctx))
  {
    var q := ctx.quoteIdentifier(attribute);
    NullComparison(Eq, attribute, ctx);
    assert q + " IS" + " NULL" == q + " IS NULL";
  }

  lemma {:induction false} ListConditionAgrees(ctx: RenderContext, attribute: string, items: seq<Mixed>)
    requires forall k :: 0 <= k < |items| ==> Plain(items[k])
    ensures Condition(ctx, attribute, List(items)) == Render(BuildForAttribute(attribute, List(items)), Some(ctx))
  {
    assert Render(Identifier(attribute), Some(ctx)) == Success(ctx.quoteIdentifier(attribute));
    PlainValuesAgree(ctx, items);
    RenderInStep(Identifier(attribute), ValueExpressions(items), ctx);
  }

  lemma {:induction false} PlainConditionAgrees(ctx: RenderContext, attribute: string, v: Mixed)
    requires Plain(v) && !v.Null?
    ensures Condition(ctx, attribute, v) == Render(BuildForAttribute(attribute, v), Some(ctx))
  {
    PlainValueAgrees(ctx, v);
    ComparisonAgrees(ctx, attribute, v, QuoteValue(ctx, v).value);
  }

  lemma {:induction false} ComparisonAgrees(ctx: RenderContext, attribute: string, v: Mixed, text: string)
    requires Plain(v) && !v.Null?
    requires QuoteValue(ctx, v) == Success(text) && Render(Value(v), Some(ctx)) == Success(text)
    ensures Condition(ctx, attribute, v) == Render(BuildForAttribute(attribute, v), Some(ctx))
  {
    var q := ctx.quoteIdentifier(attribute);
    assert Condition(ctx, attribute, v) == Success(q + " = " + text);
    assert Render(Identifier(attribute), Some(ctx)) == Success(q);
    assert !IsNull(v);
    assert BuildForAttribute(attribute, v) == Compare("=", Identifier(attribute), Value(v));
    RenderCompareStep("=", Identifier(attribute), Value(v), ctx);
    assert q + " " + "=" + " " + text == q + " = " + text;
  }

  /** A plain value quotes as a Value node renders it. */
  lemma {:induction false} PlainValueAgrees(ctx: RenderContext, v: Mixed)
    requires Plain(v)
    ensures QuoteValue(ctx, v) == Render(Value(v), Some(ctx))
    ensures QuoteValue(ctx, v).Success?
  {
    assert Render(Value(v), Some(ctx)) == RenderValueIn(Intended, v, Some(ctx));
  }

  lemma {:induction false} PlainValuesAgree(ctx: RenderContext, items: seq<Mixed>)
    requires forall k :: 0 <= k < |items| ==> Plain(items[k])
    ensures QuoteValues(ctx, items) == RenderAll(ValueExpressions(items), Some(ctx))
  {
    if |items| > 0 {
      PlainValuesAgree(ctx, items[1..]);
      assert ValueExpressions(items) == [Value(items[0])] + ValueExpressions(items[1..]);
      PlainValueAgrees(ctx, items[0]);
      RenderAllCons(Value(items[0]), ValueExpressions(items[1..]), Some(ctx));
    }
  }

  /**
   * Where the two differ: an enum or a DateTime, which an expression renders,
   * cannot be passed to quote(string), so condition fails with a TypeError.
   */
  lemma {:induction false} ConditionRejectsEnumAndDate(ctx: RenderContext, attribute: string, v: Mixed)
    requires v.Enum? || v.Date?
    ensures Condition(ctx, attribute, v).Failure?
    ensures Render(BuildForAttribute(attribute, v), Some(ctx)).Success?
  {
    BuildForAttributeEquality(attribute, v, ctx);
  }

  /** An expression value passes through quote: `updated_at` = 'NOW()' under the test quoting. */
  lemma {:induction false} ConditionQuotesExpression(ctx: RenderContext, attribute: string)
    ensures Condition(ctx, attribute, Expr(Now())) == Success(ctx.quoteIdentifier(attribute) + " = " + ctx.quote("NOW()"))
  {
    assert Render(Now(), None) == Success("NOW()");
  }

  // ---------------------------------------------------------------------------
  // insert, updateAll, remove

  function QuoteIdentifiers(ctx: RenderContext, names: seq<string>): (r: seq<string>)
    ensures |r| == |names|
    ensures forall k :: 0 <= k < |names| ==> r[k] == ctx.quoteIdentifier(names[k])
  {
    if |names| == 0 then [] else [ctx.quoteIdentifier(names[0])] + QuoteIdentifiers(ctx, names[1..])
  }

  function Keys(attributes: seq<(string, Mixed)>): (r: seq<string>)
    ensures |r| == |attributes|
    ensures forall k :: 0 <= k < |attributes| ==> r[k] == attributes[k].0
  {
    if |attributes| == 0 then [] else [attributes[0].0] + Keys(attributes[1..])
  }

  function Values(attributes: seq<(string, Mixed)>): (r: seq<Mixed>)
    ensures |r| == |attributes|
    ensures forall k :: 0 <= k < |attributes| ==> r[k] == attributes[k].1
  {
    if |attributes| == 0 then [] else [attributes[0].1] + Values(attributes[1..])
  }

  /** The statement insert(attributes, ignoreDuplicates) executes. */
  function InsertSql(ctx: RenderContext, cls: string, attributes: seq<(string, Mixed)>, ignoreDuplicates: bool): (r: Result<string>)
    ensures r.Success? <==> QuoteValues(ctx, Values(attributes)).Success?
    ensures r.Success? ==> (r.value ==
      "INSERT " + (if ignoreDuplicates then "IGNORE " else "") + "INTO " + QuotedTable(ctx, cls)
        + " (" + Join(",", QuoteIdentifiers(ctx, Keys(attributes))) + ") VALUES ("
        + Join(",", QuoteValues(ctx, Values(attributes)).value) + ")")
  {
    var columns := Join(",", QuoteIdentifiers(ctx, Keys(attributes)));
    var values :- QuoteValues(ctx, Values(attributes));
    Success("INSERT " + (if ignoreDuplicates then "IGNORE " else "") + "INTO " + QuotedTable(ctx, cls)
      + " (" + columns + ") VALUES (" + Join(",", values) + ")")
  }

  /** The k-th column and the k-th value of an INSERT come from the same attribute. */
  lemma {:induction false} InsertAligned(ctx: RenderContext, attributes: seq<(string, Mixed)>, k: nat)
    requires k < |attributes|
    requires QuoteValues(ctx, Values(attributes)).Success?
    ensures QuoteIdentifiers(ctx, Keys(attributes))[k] == ctx.quoteIdentifier(attributes[k].0)
    ensures QuoteValue(ctx, attributes[k].1) == Success(QuoteValues(ctx, Values(attributes)).value[k])
  {
  }

  lemma {:induction false} InsertExampleAt(ctx: RenderContext, cls: string, attributes: seq<(string, Mixed)>, ignore: bool)
    requires ctx.quote("Smith") == "'Smith'"
    requires ctx.quoteIdentifier("name") == "`name`"
    requires ctx.quoteIdentifier("age") == "`age`"
    requires ctx.quoteIdentifier("role") == "`role`"
    requires QuotedTable(ctx, cls) == "`table`"
    requires attributes == [("name", Str("Smith")), ("age", Int(20)), ("role", Null)]
    ensures InsertSql(ctx, cls, attributes, ignore) == Success(
      "INSERT " + (if ignore then "IGNORE " else "") + "INTO " + "`table`"
        + " (" + "`name`,`age`,`role`" + ") VALUES (" + "'Smith',20,NULL" + ")")
  {
    InsertColumnsExample(ctx, attributes);
    InsertValuesExample(ctx, attributes);
  }

  lemma {:induction false} InsertColumnsExample(ctx: RenderContext, attributes: seq<(string, Mixed)>)
    requires ctx.quoteIdentifier("name") == "`name`"
    requires ctx.quoteIdentifier("age") == "`age`"
    requires ctx.quoteIdentifier("role") == "`role`"
    requires attributes == [("name", Str("Smith")), ("age", Int(20)), ("role", Null)]
    ensures Join(",", QuoteIdentifiers(ctx, Keys(attributes))) == "`name`,`age`,`role`"
  {
    var cols := QuoteIdentifiers(ctx, Keys(attributes));
    assert cols == ["`name`", "`age`", "`role`"];
    JoinThree(",", "`name`", "`age`", "`role`");
    assert "`name`" + "," + "`age`" + "," + "`role`" == "`name`,`age`,`role`";
  }

  lemma {:induction false} InsertValuesExample(ctx: RenderContext, attributes: seq<(string, Mixed)>)
    requires ctx.quote("Smith") == "'Smith'"
    requires attributes == [("name", Str("Smith")), ("age", Int(20)), ("role", Null)]
    ensures QuoteValues(ctx, Values(attributes)).Success?
    ensures Join(",", QuoteValues(ctx, Values(attributes)).value) == "'Smith',20,NULL"
  {
    assert Values(attributes) == [Str("Smith"), Int(20), Null];
    QuoteThreeValues(ctx);
    JoinThree(",", "'Smith'", "20", "NULL");
    assert "'Smith'" + "," + "20" + "," + "NULL" == "'Smith',20,NULL";
  }

  lemma {:induction false} QuoteThreeValues(ctx: RenderContext)
    requires ctx.quote("Smith") == "'Smith'"
    ensures QuoteValues(ctx, [Str("Smith"), Int(20), Null]) == Success(["'Smith'", "20", "NULL"])
  {
    var vs := [Str("Smith"), Int(20), Null];
    assert IntToString(20) == "20" by { assert NatToString(20) == "20"; }
    assert QuoteValue(ctx, vs[0]) == Success("'Smith'");
    assert QuoteValue(ctx, vs[1]) == Success("20");
    assert QuoteValue(ctx, vs[2]) == Success("NULL");
    var r := QuoteValues(ctx, vs);
    assert r.Success?;
    assert r.value == ["'Smith'", "20", "NULL"];
  }

  lemma {:induction false} JoinThree(sep: string, a: string, b: string, c: string)
    ensures Join(sep, [a, b, c]) == a + sep + b + sep + c
  {
    assert [a, b, c][1..] == [b, c];
    assert [b, c][1..] == [c];
  }

  /** insert(['name' => 'Smith', 'age' => 20, 'role' => null]) with and without IGNORE. */
  lemma {:induction false} InsertExample(json: seq<Mixed> -> string, ignore: bool)
    ensures InsertSql(TestContext(json), "Table", [("name", Str("Smith")), ("age", Int(20)), ("role", Null)], ignore) ==
      Success("INSERT " + (if ignore then "IGNORE " else "") + "INTO " + "`table`"
        + " (" + "`name`,`age`,`role`" + ") VALUES (" + "'Smith',20,NULL" + ")")
  {
    var ctx := TestContext(json);
    TestTable(json);
    assert ctx.quote("Smith") == "'" + "Smith" + "'";
    assert ctx.quoteIdentifier("name") == "`" + "name" + "`";
    assert ctx.quoteIdentifier("age") == "`" + "age" + "`";
    assert ctx.quoteIdentifier("role") == "`" + "role" + "`";
    InsertExampleAt(ctx, "Table", [("name", Str("Smith")), ("age", Int(20)), ("role", Null)], ignore);
  }

  function Assignments(ctx: RenderContext, attributes: seq<(string, Mixed)>): (r: Result<seq<string>>)
    ensures r.Success? <==> QuoteValues(ctx, Values(attributes)).Success?
    ensures r.Success? ==> |r.value| == |attributes|
    ensures r.Success? ==> forall k :: 0 <= k < |attributes| ==>
      r.value[k] == ctx.quoteIdentifier(attributes[k].0) + " = " + QuoteValues(ctx, Values(attributes)).value[k]
  {
    if |attributes| == 0 then Success([])
    else
      assert Values(attributes) == [attributes[0].1] + Values(attributes[1..]);
      var v :- QuoteValue(ctx, attributes[0].1);
      var t :- Assignments(ctx, attributes[1..]);
      Success([ctx.quoteIdentifier(attributes[0].0) + " = " + v] + t)
  }

  /**
   * The statement updateAll(attributes, condition) executes: none for an empty
   * array, which returns before the connection is touched.
   */
  function UpdateAllSql(ctx: RenderContext, cls: string, attributes: seq<(string, Mixed)>, condition: string): (r: Result<Option<string>>)
    ensures |attributes| == 0 ==> r == Success(None)
    ensures |attributes| > 0 ==> (r.Success? <==> QuoteValues(ctx, Values(attributes)).Success?)
    ensures |attributes| > 0 && r.Success? ==> r.value.Some?
    ensures |attributes| > 0 && r.Success? ==> (r.value.value ==
      "UPDATE " + QuotedTable(ctx, cls) + " SET " + Join(", ", Assignments(ctx, attributes).value) + QueryPart("WHERE", condition))
  {
    if |attributes| == 0 then Success(None)
    else
      var values :- Assignments(ctx, attributes);
      Success(Some("UPDATE " + QuotedTable(ctx, cls) + " SET " + Join(", ", values) + QueryPart("WHERE", condition)))
  }

  lemma {:induction false} UpdateAllExampleAt(ctx: RenderContext, cls: string)
    requires ctx.quote("value") == "'value'"
    requires ctx.quoteIdentifier("attribute") == "`attribute`"
    requires QuotedTable(ctx, cls) == "`table`"
    ensures UpdateAllSql(ctx, cls, [("attribute", Str("value"))], "criteria") ==
            Success(Some("UPDATE " + "`table`" + " SET " + "`attribute` = 'value'" + " WHERE criteria"))
  {
    OneAssignmentExample(ctx);
    assert Join(", ", ["`attribute` = 'value'"]) == "`attribute` = 'value'";
    WhereCriteria();
  }

  lemma {:induction false} OneAssignmentExample(ctx: RenderContext)
    requires ctx.quote("value") == "'value'"
    requires ctx.quoteIdentifier("attribute") == "`attribute`"
    ensures Assignments(ctx, [("attribute", Str("value"))]) == Success(["`attribute` = 'value'"])
  {
    assert Values([("attribute", Str("value"))]) == [Str("value")];
    var a := Assignments(ctx, [("attribute", Str("value"))]).value;
    assert a == ["`attribute`" + " = " + "'value'"];
    assert "`attribute`" + " = " + "'value'" == "`attribute` = 'value'";
  }

  lemma {:induction false} WhereCriteria()
    ensures QueryPart("WHERE", "criteria") == " WHERE criteria"
  {
    assert " " + "WHERE" + " " + "criteria" == " WHERE criteria";
  }

  /** updateAll(['attribute' => 'value'], 'criteria') */
  lemma {:induction false} UpdateAllExample(json: seq<Mixed> -> string)
    ensures UpdateAllSql(TestContext(json), "Table", [("attribute", Str("value"))], "criteria") ==
            Success(Some("UPDATE " + "`table`" + " SET " + "`attribute` = 'value'" + " WHERE criteria"))
  {
    var ctx := TestContext(json);
    TestTable(json);
    assert ctx.quote("value") == "'" + "value" + "'";
    assert ctx.quoteIdentifier("attribute") == "`" + "attribute" + "`";
    UpdateAllExampleAt(ctx, "Table");
  }

  /** The statement remove() executes for a persisted object with the given id value. */
  function DeleteByIdSql(ctx: RenderContext, cls: string, id: Mixed): (r: Result<string>)
    ensures r.Success? <==> InternalStringArgument(id).Success?
    ensures r.Success? ==> r.value == "DELETE FROM " + QuotedTable(ctx, cls) + " WHERE id = " + ctx.quote(InternalStringArgument(id).value)
  {
    var s :- InternalStringArgument(id);
    Success("DELETE FROM " + QuotedTable(ctx, cls) + " WHERE id = " + ctx.quote(s))
  }

  /**
   * PDO::quote is a built-in function, so a null id reaches it as "": a stored
   * record whose id is null deletes the rows whose id is the quoted empty string.
   */
  lemma {:induction false} NullIdDeletesEmptyId(ctx: RenderContext, cls: string)
    ensures DeleteByIdSql(ctx, cls, Null) == Success("DELETE FROM " + QuotedTable(ctx, cls) + " WHERE id = " + ctx.quote(""))
  {
  }

  // ---------------------------------------------------------------------------
  // The finders' queries; the rows they fetch are inputs.

  /** findAll's default order. */
  const FindAllOrder := "id ASC"

  /** findAll(criteria, orderBy, limit, offset, select) */
  function FindAllArguments(criteria: string, orderBy: string, limit: Option<int>, offset: Option<int>, select: string): Query {
    Query(criteria, orderBy, limit, offset, select, "")
  }

  /** findFirst(criteria, orderBy): the same query limited to one row. */
  function FindFirstQuery(ctx: RenderContext, cls: string, criteria: string, orderBy: string): string {
    BuildQuery(ctx, cls, Query(criteria, orderBy, Some(1), None, "*", ""))
  }

  /** findFirstByAttribute(attribute, value, orderBy) */
  function FindFirstByAttributeQuery(ctx: RenderContext, cls: string, attribute: string, v: Mixed, orderBy: string): (r: Result<string>)
    ensures r.Success? <==> Condition(ctx, attribute, v).Success?
    ensures r.Success? ==> r.value == FindFirstQuery(ctx, cls, Condition(ctx, attribute, v).value, orderBy)
  {
    var c :- Condition(ctx, attribute, v);
    Success(FindFirstQuery(ctx, cls, c, orderBy))
  }

  /** findFirstByAttributes(attributes, orderBy) */
  function FindFirstByAttributesQuery(ctx: RenderContext, cls: string, attributes: seq<(string, Mixed)>, orderBy: string): (r: Result<string>)
    ensures r.Success? <==> Conditions(ctx, attributes).Success?
    ensures r.Success? ==> r.value == FindFirstQuery(ctx, cls, Conditions(ctx, attributes).value, orderBy)
  {
    var c :- Conditions(ctx, attributes);
    Success(FindFirstQuery(ctx, cls, c, orderBy))
  }

  /** find(id): the query findFirstByAttribute('id', id) issues. */
  function FindQuery(ctx: RenderContext, cls: string, id: int): (r: string)
    ensures FindFirstByAttributeQuery(ctx, cls, "id", Int(id), "") == Success(r)
  {
    FindFirstQuery(ctx, cls, ctx.quoteIdentifier("id") + " = " + IntToString(id), "")
  }

  /** findFirst without an order is the criteria then LIMIT 1. */
  lemma {:induction false} FindFirstText(ctx: RenderContext, cls: string, criteria: string)
    requires Truthy(criteria)
    ensures FindFirstQuery(ctx, cls, criteria, "") ==
            "SELECT * FROM " + QuotedTable(ctx, cls) + (" WHERE " + criteria) + " LIMIT 1"
  {
    var head := "SELECT " + "*" + " FROM " + QuotedTable(ctx, cls);
    assert QueryPart("WHERE", criteria) == " WHERE " + criteria;
    assert QueryPart("LIMIT", OptionalIntText(Some(1))) == " LIMIT 1" by { assert IntToString(1) == "1"; }
    assert head + "" == head;
    assert head + (" WHERE " + criteria) + "" == head + (" WHERE " + criteria);
    assert head + (" WHERE " + criteria) + " LIMIT 1" + "" == head + (" WHERE " + criteria) + " LIMIT 1";
    assert "SELECT " + "*" + " FROM " == "SELECT * FROM ";
  }

  /** find reads `SELECT * FROM t WHERE `id` = n LIMIT 1`. */
  lemma {:induction false} FindQueryText(ctx: RenderContext, cls: string, id: int)
    ensures FindQuery(ctx, cls, id) ==
            "SELECT * FROM " + QuotedTable(ctx, cls) + (" WHERE " + (ctx.quoteIdentifier("id") + " = " + IntToString(id))) + " LIMIT 1"
  {
    var c := ctx.quoteIdentifier("id") + " = " + IntToString(id);
    assert Truthy(c) by { assert |c| > 1; }
    FindFirstText(ctx, cls, c);
  }

  /** find(id)'s result: the first fetched row, or the not-found exception. */
  function FindResult<T>(rows: seq<T>, id: int, cls: string): (r: Result<T>)
    ensures |rows| > 0 <==> r.Success?
    ensures |rows| > 0 ==> r.value == rows[0]
    ensures |rows| == 0 ==> r.error == Error(RecordException, "object with id " + IntToString(id) + " of type " + cls + " not found")
  {
    if |rows| > 0 then Success(rows[0])
    else Failure(Error(RecordException, "object with id " + IntToString(id) + " of type " + cls + " not found"))
  }

  /** findFirst's result: the first row, or null. */
  function FirstRow<T>(rows: seq<T>): (r: Option<T>)
    ensures r.Some? <==> |rows| > 0
    ensures r.Some? ==> r.value == rows[0]
  {
    if |rows| > 0 then Some(rows[0]) else None
  }

  /** count(criteria) */
  function CountQuery(ctx: RenderContext, cls: string, criteria: string): string {
    BuildQuery(ctx, cls, Query(criteria, "", None, None, "COUNT(*)", ""))
  }

  /** count selects COUNT(*) from the table, filtered when the criteria are truthy, never ordered or limited. */
  lemma {:induction false} CountQueryText(ctx: RenderContext, cls: string, criteria: string)
    ensures Truthy(criteria) ==> CountQuery(ctx, cls, criteria) == "SELECT COUNT(*) FROM " + QuotedTable(ctx, cls) + (" WHERE " + criteria)
    ensures !Truthy(criteria) ==> CountQuery(ctx, cls, criteria) == "SELECT COUNT(*) FROM " + QuotedTable(ctx, cls)
  {
    var head := "SELECT " + "COUNT(*)" + " FROM " + QuotedTable(ctx, cls);
    assert "SELECT " + "COUNT(*)" + " FROM " == "SELECT COUNT(*) FROM ";
    assert OptionalIntText(None) == "";
    assert QueryPart("", "") == "" && QueryPart("ORDER BY", "") == "" && QueryPart("LIMIT", "") == "" && QueryPart("OFFSET", "") == "";
    if Truthy(criteria) {
      assert QueryPart("WHERE", criteria) == " WHERE " + criteria;
      assert head + "" + (" WHERE " + criteria) + "" + "" + "" == head + (" WHERE " + criteria);
    } else {
      assert QueryPart("WHERE", criteria) == "";
      assert head + "" + "" + "" + "" + "" == head;
    }
  }
}
