/**
 * The query builder: the mutable query record `QueryAttributes`, the renderer that turns it
 * into T-SQL text (`SqlQueryBuilder`, specified by the function `Render`) and the anti-join
 * composer `CheckIfQueryResultsExistsOnTable`.
 *
 * The context-resolution step applied to condition values is not part of this model; it is
 * the parameter `contextCheck`. Logging of the rendered text is left out.
 */
module QueryBuilder {
  import opened Wrappers
  import opened Strings
  import opened Vocabulary

  /** `JoinClause`: a join kind, the joined table and the two columns of the ON equality. */
  datatype JoinClause = JoinClause(join: JoinType, table2: string, t1ColumnName: string, t2ColumnName: string)

  /** `OrderBy`: the column to sort by and the direction. */
  datatype OrderBy = OrderBy(columnName: string, order: OrderType)

  /** `QueryConditions`: one filter, a connective, a column, an operator and a raw value. */
  datatype QueryCondition = QueryCondition(statement: Statement, column: string, operator: Operator, value: string)

  /**
   * The contents of a `QueryAttributes` record at one moment. `select`, `from`, `groupBy`,
   * `having` and `orderBy` are `None` while the Java field is still `null`.
   */
  datatype Query = Query(
    select: Option<string>,
    noLock: bool,
    from: Option<string>,
    joins: seq<JoinClause>,
    conditions: seq<QueryCondition>,
    groupBy: Option<string>,
    having: Option<string>,
    orderBy: Option<OrderBy>)

  /** What Java string concatenation writes for a possibly-`null` string. */
  function Text(s: Option<string>): string {
    if s.Some? then s.value else "null"
  }

  // ---------------------------------------------------------------------------------------
  // Selection factories: the selection templates with their placeholders filled in.

  function TopAllSelection(maxValues: Int32): (r: string)
    ensures r == "TOP(" + IntToString(maxValues) + ") * "
  {
    var n := IntToString(maxValues);
    ReplacePlaceholder(TopAll.Value(), "TOP(", "{number}", ") * ", n, 0);
    ReplaceAll(TopAll.Value(), "{number}", n)
  }

  function TopColumnSelection(maxValues: Int32, column: string): (r: string)
    ensures r == "TOP(" + IntToString(maxValues) + ") " + column + " AS singleResult"
  {
    var n := IntToString(maxValues);
    assert '{' !in n;
    TopColumnFilled(n, column);
    ReplaceAll(ReplaceAll(TopColumn.Value(), "{number}", n), "{column}", column)
  }

  /** The two placeholders of the top-column template are filled one after the other. */
  lemma TopColumnFilled(n: string, column: string)
    requires '{' !in n
    ensures ReplaceAll(ReplaceAll(TopColumn.Value(), "{number}", n), "{column}", column)
            == "TOP(" + n + ") " + column + " AS singleResult"
  {
    var rest := ") " + "{column}" + " AS singleResult";
    ReplacePlaceholder(TopColumn.Value(), "TOP(", "{number}", rest, n, 4);
    var numbered := "TOP(" + n + ") ";
    AppendAssoc("TOP(" + n, ") " + "{column}", " AS singleResult");
    AppendAssoc("TOP(" + n, ") ", "{column}");
    ReplacePlaceholder(numbered + "{column}" + " AS singleResult", numbered, "{column}", " AS singleResult", column, 0);
  }

  function CountOfSelection(column: string): (r: string)
    ensures r == "COUNT(" + column + ") AS singleResult"
  {
    ReplacePlaceholder(CountOf.Value(), "COUNT(", "{column}", ") AS singleResult", column, 0);
    ReplaceAll(CountOf.Value(), "{column}", column)
  }

  function DistinctSelection(column: string): (r: string)
    ensures r == "DISTINCT " + column
  {
    ReplacePlaceholder(Distinct.Value(), "DISTINCT ", "{column}", "", column, 0);
    ReplaceAll(Distinct.Value(), "{column}", column)
  }

  // ---------------------------------------------------------------------------------------
  // The rendering of one query, as a function of the record's contents.

  /** The SELECT and FROM lines, with the lock hint right after the table name. */
  function BaseQuery(q: Query): string {
    Select.Value() + Text(q.select) + "\n"
      + From.Value() + Text(q.from) + (if q.noLock then NoLock.Value() else "") + "\n"
  }

  function JoinLine(j: JoinClause): string {
    j.join.Value() + j.table2 + " ON " + j.t1ColumnName + " = " + j.t2ColumnName + "\n"
  }

  /** `v` with a `WITHIN-<unit>-N` marker rewritten to `DATEADD(<UNIT>, -N, GETDATE())`. */
  function ExpandWithin(v: string, marker: string, unit: string): string {
    if Contains(v, marker) then "DATEADD(" + unit + ", -" + ReplaceAll(v, marker, "") + ", GETDATE())"
    else v
  }

  /**
   * The value-rewrite chain of a condition: context resolution, quoting when the raw value
   * holds `CONTEXT-`, then the hour and the minute expansions, each applied unconditionally
   * in this order.
   */
  function RewriteValue(contextCheck: string -> string, raw: string): string {
    var resolved := contextCheck(raw);
    var quoted := if Contains(raw, "CONTEXT-") then "'" + resolved + "'" else resolved;
    var hours := ExpandWithin(quoted, "WITHIN-hs-", "HOUR");
    ExpandWithin(hours, "WITHIN-min-", "MINUTE")
  }

  /** One condition line; a rewritten value holding `no-value` is left out. */
  function ConditionLine(contextCheck: string -> string, c: QueryCondition): string {
    var value := RewriteValue(contextCheck, c.value);
    c.statement.Value() + c.column + c.operator.Value()
      + (if Contains(value, "no-value") then "" else value) + "\n"
  }

  function ConditionLineOf(contextCheck: string -> string): QueryCondition -> string {
    c => ConditionLine(contextCheck, c)
  }

  /** The lines of `xs`, in list order. */
  function Concat<T>(xs: seq<T>, line: T -> string): string {
    if xs == [] then "" else Concat(xs[..|xs| - 1], line) + line(xs[|xs| - 1])
  }

  function GroupByClause(q: Query): string {
    if q.groupBy.Some? then GroupBy.Value() + q.groupBy.value + "\n" else ""
  }

  function HavingClause(q: Query): string {
    if q.having.Some? then ReplaceAll(Having.Value(), "{condition}", q.having.value) + "\n" else ""
  }

  function OrderByClause(q: Query): string {
    if q.orderBy.Some? then MainStatement.OrderBy.Value() + q.orderBy.value.columnName + q.orderBy.value.order.Value()
    else ""
  }

  /** The text `sqlQueryBuilder` returns for a record holding `q`. */
  function Render(q: Query, contextCheck: string -> string): string {
    BaseQuery(q) + Concat(q.joins, JoinLine) + Concat(q.conditions, ConditionLineOf(contextCheck))
      + GroupByClause(q) + HavingClause(q) + OrderByClause(q)
  }

  // ---------------------------------------------------------------------------------------
  // The mutable query record.

  class QueryAttributes {
    var select: Option<string>
    var noLock: bool
    var from: Option<string>
    var joins: seq<JoinClause>
    var conditions: seq<QueryCondition>
    var groupBy: Option<string>
    var having: Option<string>
    var orderBy: Option<OrderBy>

    function Snapshot(): Query
      reads this
    {
      Query(select, noLock, from, joins, conditions, groupBy, having, orderBy)
    }

    /** A record with empty join and condition lists and every other field unset. */
    constructor ()
      ensures Snapshot() == Query(None, false, None, [], [], None, None, None)
    {
      select := None;
      noLock := false;
      from := None;
      joins := [];
      conditions := [];
      groupBy := None;
      having := None;
      orderBy := None;
    }

    /** Stores a selection template as it is, placeholders included. */
    method SetSelect(selection: SelectionType)
      modifies this
      ensures Snapshot() == old(Snapshot()).(select := Some(selection.Value()))
    {
      select := Some(selection.Value());
    }

    method SelectTopAll(maxValues: Int32)
      modifies this
      ensures Snapshot() == old(Snapshot()).(select := Some("TOP(" + IntToString(maxValues) + ") * "))
    {
      select := Some(TopAllSelection(maxValues));
    }

    method SelectTopFromColumn(maxValues: Int32, column: string)
      modifies this
      ensures Snapshot()
        == old(Snapshot()).(select := Some("TOP(" + IntToString(maxValues) + ") " + column + " AS singleResult"))
    {
      select := Some(TopColumnSelection(maxValues, column));
    }

    method SelectAll()
      modifies this
      ensures Snapshot() == old(Snapshot()).(select := Some("*"))
    {
      select := Some(All.Value());
    }

    method SelectDistinct(column: string)
      modifies this
      ensures Snapshot() == old(Snapshot()).(select := Some("DISTINCT " + column))
    {
      select := Some(DistinctSelection(column));
    }

    method CountAll()
      modifies this
      ensures Snapshot() == old(Snapshot()).(select := Some("COUNT(*) AS singleResult"))
    {
      select := Some(SelectionType.CountAll.Value());
    }

    method CountOf(column: string)
      modifies this
      ensures Snapshot() == old(Snapshot()).(select := Some("COUNT(" + column + ") AS singleResult"))
    {
      select := Some(CountOfSelection(column));
    }

    /**
     * `setOrderBy(columnName, type)`: `ok` is false exactly when `OrderType.valueOf(type)`
     * throws, and then the record is left as it was.
     */
    method SetOrderByType(columnName: string, orderType: string) returns (ok: bool)
      modifies this
      ensures ok <==> orderType == "DESC" || orderType == "ASC"
      ensures ok ==> Snapshot() == old(Snapshot()).(orderBy :=
                       Some(OrderBy.OrderBy(columnName, if orderType == "DESC" then Desc else Asc)))
      ensures !ok ==> Snapshot() == old(Snapshot())
    {
      var order := OrderTypeValueOf(orderType);
      ok := order.Some?;
      if ok {
        orderBy := Some(OrderBy.OrderBy(columnName, order.value));
      }
    }

    /** `setOrderBy(columnName)`: descending by default. */
    method SetOrderBy(columnName: string)
      modifies this
      ensures Snapshot() == old(Snapshot()).(orderBy := Some(OrderBy.OrderBy(columnName, Desc)))
    {
      orderBy := Some(OrderBy.OrderBy(columnName, Desc));
    }

    method SetWhere(keyAttribute: string, operator: Operator, value: string)
      modifies this
      ensures Snapshot()
        == old(Snapshot()).(conditions := old(conditions) + [QueryCondition(Where, keyAttribute, operator, value)])
    {
      conditions := conditions + [QueryCondition(Where, keyAttribute, operator, value)];
    }

    method SetAnd(keyAttribute: string, operator: Operator, value: string)
      modifies this
      ensures Snapshot()
        == old(Snapshot()).(conditions := old(conditions) + [QueryCondition(And, keyAttribute, operator, value)])
    {
      conditions := conditions + [QueryCondition(And, keyAttribute, operator, value)];
    }

    method InnerJoin(table2: string, t1ColumnName: string, t2ColumnName: string)
      modifies this
      ensures Snapshot()
        == old(Snapshot()).(joins := old(joins) + [JoinClause(JoinType.InnerJoin, table2, t1ColumnName, t2ColumnName)])
    {
      joins := joins + [JoinClause(JoinType.InnerJoin, table2, t1ColumnName, t2ColumnName)];
    }

    method RightJoin(table2: string, t1ColumnName: string, t2ColumnName: string)
      modifies this
      ensures Snapshot()
        == old(Snapshot()).(joins := old(joins) + [JoinClause(JoinType.RightJoin, table2, t1ColumnName, t2ColumnName)])
    {
      joins := joins + [JoinClause(JoinType.RightJoin, table2, t1ColumnName, t2ColumnName)];
    }

    method LeftJoin(table2: string, t1ColumnName: string, t2ColumnName: string)
      modifies this
      ensures Snapshot()
        == old(Snapshot()).(joins := old(joins) + [JoinClause(JoinType.LeftJoin, table2, t1ColumnName, t2ColumnName)])
    {
      joins := joins + [JoinClause(JoinType.LeftJoin, table2, t1ColumnName, t2ColumnName)];
    }

    // The setters the record's annotation generates for the remaining fields.

    method SetFrom(table: string)
      modifies this
      ensures Snapshot() == old(Snapshot()).(from := Some(table))
    {
      from := Some(table);
    }

    method SetNoLock(flag: bool)
      modifies this
      ensures Snapshot() == old(Snapshot()).(noLock := flag)
    {
      noLock := flag;
    }

    method SetGroupBy(columns: string)
      modifies this
      ensures Snapshot() == old(Snapshot()).(groupBy := Some(columns))
    {
      groupBy := Some(columns);
    }

    method SetHaving(condition: string)
      modifies this
      ensures Snapshot() == old(Snapshot()).(having := Some(condition))
    {
      having := Some(condition);
    }
  }

  // ---------------------------------------------------------------------------------------
  // The renderer and the anti-join composer.

  /**
   * `sqlQueryBuilder`: grows the text clause by clause. It modifies nothing, so the record
   * is the same afterwards and a second call returns the same text.
   */
  method SqlQueryBuilder(queryAttributes: QueryAttributes, contextCheck: string -> string)
    returns (sqlQuery: string)
    ensures sqlQuery == Render(queryAttributes.Snapshot(), contextCheck)
  {
    var q := queryAttributes.Snapshot();
    var builder := Select.Value() + Text(queryAttributes.select) + "\n"
      + From.Value() + Text(queryAttributes.from)
      + (if queryAttributes.noLock then NoLock.Value() else "") + "\n";
    assert builder == BaseQuery(q);
    var base := builder;

    var joins := queryAttributes.joins;
    var i := 0;
    while i < |joins|
      invariant 0 <= i <= |joins|
      invariant builder == base + Concat(joins[..i], JoinLine)
    {
      var join := joins[i];
      var line := join.join.Value() + join.table2 + " ON " + join.t1ColumnName + " = " + join.t2ColumnName + "\n";
      assert line == JoinLine(join);
      ConcatSnoc(joins, i, JoinLine);
      AppendAssoc(base, Concat(joins[..i], JoinLine), line);
      builder := builder + line;
      i := i + 1;
    }
    assert joins[..i] == joins;
    var body := builder;

    var conditions := queryAttributes.conditions;
    var k := 0;
    while k < |conditions|
      invariant 0 <= k <= |conditions|
      invariant builder == body + Concat(conditions[..k], ConditionLineOf(contextCheck))
    {
      var line := RenderCondition(contextCheck, conditions[k]);
      assert line == ConditionLineOf(contextCheck)(conditions[k]);
      ConcatSnoc(conditions, k, ConditionLineOf(contextCheck));
      AppendAssoc(body, Concat(conditions[..k], ConditionLineOf(contextCheck)), line);
      builder := builder + line;
      k := k + 1;
    }
    assert conditions[..k] == conditions;

    ghost var afterConditions := builder;
    if queryAttributes.groupBy.Some? {
      builder := builder + (GroupBy.Value() + queryAttributes.groupBy.value + "\n");
    } else {
      assert builder + "" == builder;
    }
    assert builder == afterConditions + GroupByClause(q);
    ghost var afterGroupBy := builder;
    if queryAttributes.having.Some? {
      builder := builder + (ReplaceAll(Having.Value(), "{condition}", queryAttributes.having.value) + "\n");
    } else {
      assert builder + "" == builder;
    }
    assert builder == afterGroupBy + HavingClause(q);
    ghost var afterHaving := builder;
    if queryAttributes.orderBy.Some? {
      builder := builder + (MainStatement.OrderBy.Value() + queryAttributes.orderBy.value.columnName
                            + queryAttributes.orderBy.value.order.Value());
    } else {
      assert builder + "" == builder;
    }
    assert builder == afterHaving + OrderByClause(q);
    sqlQuery := builder;
  }

  /**
   * The body of the condition loop of `sqlQueryBuilder`: the value goes through the rewrite
   * chain step by step, then the line is assembled.
   */
  method RenderCondition(contextCheck: string -> string, entry: QueryCondition) returns (line: string)
    ensures line == ConditionLine(contextCheck, entry)
  {
    var value := RewriteConditionValue(contextCheck, entry.value);
    var head := entry.statement.Value() + entry.column + entry.operator.Value();
    line := head;
    if !Contains(value, "no-value") {
      line := line + value;
    } else {
      assert head + "" == head;
    }
    assert line == head + (if Contains(value, "no-value") then "" else value);
    line := line + "\n";
  }

  /** The value-rewrite chain of `sqlQueryBuilder`, one reassignment per rule. */
  method RewriteConditionValue(contextCheck: string -> string, raw: string) returns (value: string)
    ensures value == RewriteValue(contextCheck, raw)
  {
    value := contextCheck(raw);
    if Contains(raw, "CONTEXT-") {
      value := "'" + value + "'";
    }
    value := ExpandDuration(value, "WITHIN-hs-", "HOUR");
    value := ExpandDuration(value, "WITHIN-min-", "MINUTE");
  }

  /** One `WITHIN-` rule: a value holding `marker` becomes a `DATEADD` going back `unit`s. */
  method ExpandDuration(value: string, marker: string, unit: string) returns (expanded: string)
    ensures expanded == ExpandWithin(value, marker, unit)
  {
    expanded := value;
    if Contains(value, marker) {
      expanded := "DATEADD(" + unit + ", -" + ReplaceAll(value, marker, "") + ", GETDATE())";
    }
  }

  lemma AppendAssoc(a: string, b: string, c: string)
    ensures a + b + c == a + (b + c)
  {
  }

  /** Taking one more element of `xs` adds its line at the end. */
  lemma ConcatSnoc<T>(xs: seq<T>, i: nat, line: T -> string)
    requires i < |xs|
    ensures Concat(xs[..i + 1], line) == Concat(xs[..i], line) + line(xs[i])
  {
    assert xs[..i + 1][..i] == xs[..i];
  }

  /**
   * `checkIfQueryResultsExistsOnTable`: counts the rows of the rendered query that have no
   * partner in `table2Name`. The existence check is plain concatenation; it does not go
   * through the value-rewrite chain.
   */
  function CheckIfQueryResultsExistsOnTable(
    inputQuery: QueryAttributes, contextCheck: string -> string,
    table2Name: string, t1ColumnName: string, t2ColumnName: string): (sqlQuery: string)
    reads inputQuery
    ensures var existence := "SELECT 1 FROM " + table2Name + " WHERE " + table2Name + "." + t2ColumnName
                             + " = result." + t1ColumnName;
            sqlQuery == "SELECT COUNT(*) AS singleResult FROM (" + Render(inputQuery.Snapshot(), contextCheck)
                        + ") AS result  WHERE  NOT EXISTS (" + existence + ")"
  {
    var auxQuery := Select.Value() + "1" + From.Value() + table2Name + Where.Value() + table2Name
      + "." + t2ColumnName + Is.Value() + "result." + t1ColumnName;
    var inner := Render(inputQuery.Snapshot(), contextCheck);
    var head := Select.Value() + SelectionType.CountAll.Value() + From.Value() + "(" + inner + ") AS result ";
    var tail := Where.Value() + ReplaceAll(NotExists.Value(), "{column}", auxQuery);
    AntiJoinHead(inner);
    ExistenceCheckText(auxQuery, table2Name, t1ColumnName, t2ColumnName);
    NotExistsText(auxQuery);
    AntiJoinJoined(inner, auxQuery);
    head + tail
  }

  lemma AntiJoinHead(inner: string)
    ensures Select.Value() + SelectionType.CountAll.Value() + From.Value() + "(" + inner + ") AS result "
            == "SELECT COUNT(*) AS singleResult FROM (" + inner + ") AS result "
  {
  }

  lemma ExistenceCheckText(auxQuery: string, table2Name: string, t1ColumnName: string, t2ColumnName: string)
    requires auxQuery == Select.Value() + "1" + From.Value() + table2Name + Where.Value() + table2Name
                         + "." + t2ColumnName + Is.Value() + "result." + t1ColumnName
    ensures auxQuery == "SELECT 1 FROM " + table2Name + " WHERE " + table2Name + "." + t2ColumnName
                        + " = result." + t1ColumnName
  {
  }

  lemma NotExistsText(existence: string)
    ensures Where.Value() + ReplaceAll(NotExists.Value(), "{column}", existence)
            == " WHERE " + " NOT EXISTS (" + existence + ")"
  {
    ReplacePlaceholder(NotExists.Value(), " NOT EXISTS (", "{column}", ")", existence, 0);
  }

  lemma AntiJoinJoined(inner: string, existence: string)
    ensures "SELECT COUNT(*) AS singleResult FROM (" + inner + ") AS result " + (" WHERE " + " NOT EXISTS (" + existence + ")")
            == "SELECT COUNT(*) AS singleResult FROM (" + inner + ") AS result  WHERE  NOT EXISTS (" + existence + ")"
  {
  }
}
