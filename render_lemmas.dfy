/**
 * Properties of the rendered text: clause order, insertion of joins and conditions, the lock
 * hint and the optional tail clauses.
 */
module RenderProperties {
  import opened Wrappers
  import opened Strings
  import opened Vocabulary
  import opened QueryBuilder

  // ---------------------------------------------------------------------------------------
  // Lists of lines

  /** The lines of a concatenated list are those of its parts, in order. */
  lemma {:induction false} ConcatAppend<T>(a: seq<T>, b: seq<T>, line: T -> string)
    ensures Concat(a + b, line) == Concat(a, line) + Concat(b, line)
    decreases |b|
  {
    if b == [] {
      assert a + b == a;
    } else {
      var init, last := b[..|b| - 1], b[|b| - 1];
      assert (a + b)[..|a + b| - 1] == a + init;
      assert (a + b)[|a + b| - 1] == last;
      ConcatAppend(a, init, line);
      AppendAssoc(Concat(a, line), Concat(init, line), line(last));
    }
  }

  // ---------------------------------------------------------------------------------------
  // The head of the query

  /** Every rendering begins with the SELECT line and the FROM line. */
  lemma RenderStartsWithBase(q: Query, contextCheck: string -> string)
    ensures "SELECT " + Text(q.select) + "\n FROM " + Text(q.from)
            + (if q.noLock then " WITH (NOLOCK) " else "") + "\n" <= Render(q, contextCheck)
  {
    var base := "SELECT " + Text(q.select) + "\n FROM " + Text(q.from)
                + (if q.noLock then " WITH (NOLOCK) " else "") + "\n";
    BaseQueryText(q);
    var rest := Concat(q.joins, JoinLine) + Concat(q.conditions, ConditionLineOf(contextCheck))
                + GroupByClause(q) + HavingClause(q) + OrderByClause(q);
    RenderSplit(q, contextCheck);
    assert Render(q, contextCheck) == base + rest;
  }

  /** A query with only a selection and a table renders as exactly those two lines. */
  lemma BareQuery(q: Query, contextCheck: string -> string)
    requires q.joins == [] && q.conditions == []
    requires q.groupBy.None? && q.having.None? && q.orderBy.None?
    ensures Render(q, contextCheck)
            == "SELECT " + Text(q.select) + "\n FROM " + Text(q.from)
               + (if q.noLock then " WITH (NOLOCK) " else "") + "\n"
  {
    BaseQueryText(q);
    RenderSplit(q, contextCheck);
    var rest := Concat(q.joins, JoinLine) + Concat(q.conditions, ConditionLineOf(contextCheck))
                + GroupByClause(q) + HavingClause(q) + OrderByClause(q);
    assert rest == "";
  }

  /**
   * Setting the no-lock flag inserts ` WITH (NOLOCK) ` right after the table name and changes
   * nothing else.
   */
  lemma NoLockInsertsHint(q: Query, contextCheck: string -> string)
    ensures var head := "SELECT " + Text(q.select) + "\n FROM " + Text(q.from);
            var plain := Render(q.(noLock := false), contextCheck);
            head <= plain
            && Render(q.(noLock := true), contextCheck) == head + " WITH (NOLOCK) " + plain[|head|..]
  {
    var head := "SELECT " + Text(q.select) + "\n FROM " + Text(q.from);
    var off, on := q.(noLock := false), q.(noLock := true);
    var rest := Concat(q.joins, JoinLine) + Concat(q.conditions, ConditionLineOf(contextCheck))
                + GroupByClause(q) + HavingClause(q) + OrderByClause(q);
    BaseQueryText(off);
    BaseQueryText(on);
    assert BaseQuery(off) == head + "\n" by {
      assert head + "" == head;
    }
    RenderSplit(off, contextCheck);
    RenderSplit(on, contextCheck);
    var plain := Render(off, contextCheck);
    AppendAssoc(head, "\n", rest);
    assert plain == head + ("\n" + rest);
    assert plain[|head|..] == "\n" + rest;
    AppendAssoc(head + " WITH (NOLOCK) ", "\n", rest);
  }

  /** `BaseQuery` spelled out. */
  lemma BaseQueryText(q: Query)
    ensures BaseQuery(q) == "SELECT " + Text(q.select) + "\n FROM " + Text(q.from)
                            + (if q.noLock then " WITH (NOLOCK) " else "") + "\n"
  {
    var hint := if q.noLock then " WITH (NOLOCK) " else "";
    assert BaseQuery(q) == "SELECT " + Text(q.select) + "\n" + " FROM " + Text(q.from) + hint + "\n";
  }

  /** The rendering is the head followed by everything after it. */
  lemma RenderSplit(q: Query, contextCheck: string -> string)
    ensures Render(q, contextCheck)
            == BaseQuery(q) + (Concat(q.joins, JoinLine) + Concat(q.conditions, ConditionLineOf(contextCheck))
                               + GroupByClause(q) + HavingClause(q) + OrderByClause(q))
  {
    var b, j, c := BaseQuery(q), Concat(q.joins, JoinLine), Concat(q.conditions, ConditionLineOf(contextCheck));
    var g, h, o := GroupByClause(q), HavingClause(q), OrderByClause(q);
    AppendAssoc(b, j, c);
    AppendAssoc(b, j + c, g);
    AppendAssoc(b, j + c + g, h);
    AppendAssoc(b, j + c + g + h, o);
  }

  /** The rendering split after the join lines. */
  lemma RenderSplitAfterJoins(q: Query, contextCheck: string -> string)
    ensures Render(q, contextCheck)
            == (BaseQuery(q) + Concat(q.joins, JoinLine))
               + (Concat(q.conditions, ConditionLineOf(contextCheck)) + GroupByClause(q) + HavingClause(q) + OrderByClause(q))
  {
    var p, c := BaseQuery(q) + Concat(q.joins, JoinLine), Concat(q.conditions, ConditionLineOf(contextCheck));
    var g, h, o := GroupByClause(q), HavingClause(q), OrderByClause(q);
    AppendAssoc(p, c, g);
    AppendAssoc(p, c + g, h);
    AppendAssoc(p, c + g + h, o);
  }

  /** The rendering split after the condition lines. */
  lemma RenderSplitAfterConditions(q: Query, contextCheck: string -> string)
    ensures Render(q, contextCheck)
            == (BaseQuery(q) + Concat(q.joins, JoinLine) + Concat(q.conditions, ConditionLineOf(contextCheck)))
               + (GroupByClause(q) + HavingClause(q) + OrderByClause(q))
  {
    var p := BaseQuery(q) + Concat(q.joins, JoinLine) + Concat(q.conditions, ConditionLineOf(contextCheck));
    var g, h, o := GroupByClause(q), HavingClause(q), OrderByClause(q);
    AppendAssoc(p, g, h);
    AppendAssoc(p, g + h, o);
  }

  // ---------------------------------------------------------------------------------------
  // Joins and conditions

  /**
   * Appending a join to the record inserts exactly its line after the lines of the joins
   * already there; the text before and after that point is unchanged.
   */
  lemma RenderAfterJoin(q: Query, j: JoinClause, contextCheck: string -> string)
    ensures var r := Render(q, contextCheck);
            var n := |BaseQuery(q) + Concat(q.joins, JoinLine)|;
            n <= |r|
            && Render(q.(joins := q.joins + [j]), contextCheck)
               == r[..n] + (j.join.Value() + j.table2 + " ON " + j.t1ColumnName + " = " + j.t2ColumnName + "\n") + r[n..]
  {
    var q' := q.(joins := q.joins + [j]);
    var p := BaseQuery(q) + Concat(q.joins, JoinLine);
    var rest := Concat(q.conditions, ConditionLineOf(contextCheck)) + GroupByClause(q) + HavingClause(q) + OrderByClause(q);
    var line := JoinLine(j);
    RenderSplitAfterJoins(q, contextCheck);
    RenderSplitAfterJoins(q', contextCheck);
    assert (q.joins + [j])[..|q.joins|] == q.joins;
    assert Concat(q'.joins, JoinLine) == Concat(q.joins, JoinLine) + line;
    AppendAssoc(BaseQuery(q), Concat(q.joins, JoinLine), line);
    var r := Render(q, contextCheck);
    assert r == p + rest;
    assert r[..|p|] == p && r[|p|..] == rest;
  }

  /**
   * Appending a condition to the record inserts exactly its line after the lines of the
   * conditions already there; the text before and after that point is unchanged.
   */
  lemma RenderAfterCondition(q: Query, c: QueryCondition, contextCheck: string -> string)
    ensures var r := Render(q, contextCheck);
            var n := |BaseQuery(q) + Concat(q.joins, JoinLine) + Concat(q.conditions, ConditionLineOf(contextCheck))|;
            n <= |r|
            && Render(q.(conditions := q.conditions + [c]), contextCheck)
               == r[..n] + ConditionLine(contextCheck, c) + r[n..]
  {
    var q' := q.(conditions := q.conditions + [c]);
    var pj := BaseQuery(q) + Concat(q.joins, JoinLine);
    var p := pj + Concat(q.conditions, ConditionLineOf(contextCheck));
    var rest := GroupByClause(q) + HavingClause(q) + OrderByClause(q);
    var line := ConditionLine(contextCheck, c);
    RenderSplitAfterConditions(q, contextCheck);
    RenderSplitAfterConditions(q', contextCheck);
    assert (q.conditions + [c])[..|q.conditions|] == q.conditions;
    assert Concat(q'.conditions, ConditionLineOf(contextCheck)) == Concat(q.conditions, ConditionLineOf(contextCheck)) + line;
    AppendAssoc(pj, Concat(q.conditions, ConditionLineOf(contextCheck)), line);
    var r := Render(q, contextCheck);
    assert r == p + rest;
    assert r[..|p|] == p && r[|p|..] == rest;
  }

  // ---------------------------------------------------------------------------------------
  // The optional tail clauses

  /** The HAVING template with its condition filled in. */
  lemma HavingText(condition: string)
    ensures ReplaceAll(Having.Value(), "{condition}", condition) + "\n" == " HAVING " + condition + " \n"
  {
    ReplacePlaceholder(Having.Value(), " HAVING ", "{condition}", " ", condition, 0);
    AppendAssoc(" HAVING " + condition, " ", "\n");
  }

  /**
   * GROUP BY, HAVING and ORDER BY each appear only when set, always in that order, at the end
   * of the text; ORDER BY ends without a line break.
   */
  lemma TailClauses(q: Query, contextCheck: string -> string)
    ensures Render(q, contextCheck)
            == Render(q.(groupBy := None, having := None, orderBy := None), contextCheck)
               + (if q.groupBy.Some? then " GROUP BY " + q.groupBy.value + "\n" else "")
               + (if q.having.Some? then " HAVING " + q.having.value + " \n" else "")
               + (if q.orderBy.Some?
                  then " ORDER BY " + q.orderBy.value.columnName + (if q.orderBy.value.order == Desc then " DESC" else " ASC")
                  else "")
  {
    var bare := q.(groupBy := None, having := None, orderBy := None);
    var p := BaseQuery(q) + Concat(q.joins, JoinLine) + Concat(q.conditions, ConditionLineOf(contextCheck));
    assert BaseQuery(bare) == BaseQuery(q);
    assert Render(bare, contextCheck) == p + "" + "" + "";
    assert p + "" + "" + "" == p;
    if q.having.Some? {
      HavingText(q.having.value);
    }
    assert q.orderBy.Some? ==>
      (OrderByClause(q)
       == " ORDER BY " + q.orderBy.value.columnName + (if q.orderBy.value.order == Desc then " DESC" else " ASC"));
  }

  /** When an ORDER BY clause is set, it is the final text. */
  lemma OrderByIsLast(q: Query, contextCheck: string -> string)
    requires q.orderBy.Some?
    ensures var r := Render(q, contextCheck);
            var last := " ORDER BY " + q.orderBy.value.columnName + q.orderBy.value.order.Value();
            |last| <= |r| && r[|r| - |last|..] == last
  {
    var r := Render(q, contextCheck);
    var o := OrderByClause(q);
    RenderSplitAfterConditions(q, contextCheck);
    var p := BaseQuery(q) + Concat(q.joins, JoinLine) + Concat(q.conditions, ConditionLineOf(contextCheck));
    var g, h := GroupByClause(q), HavingClause(q);
    AppendAssoc(p, g, h);
    AppendAssoc(p, g + h, o);
    assert r == (p + g + h) + o;
    assert r[|r| - |o|..] == o;
  }

  predicate EndsWithNewline(s: string) {
    |s| > 0 && s[|s| - 1] == '\n'
  }

  lemma AppendKeepsNewline(a: string, b: string)
    requires EndsWithNewline(a) && (b == "" || EndsWithNewline(b))
    ensures EndsWithNewline(a + b)
  {
    if b == "" {
      assert a + b == a;
    } else {
      assert (a + b)[|a + b| - 1] == b[|b| - 1];
    }
  }

  /** A list of lines that each end with a line break ends with one, unless it is empty. */
  lemma {:induction false} ConcatEndsWithNewline<T>(xs: seq<T>, line: T -> string)
    requires forall x :: x in xs ==> EndsWithNewline(line(x))
    ensures Concat(xs, line) == "" || EndsWithNewline(Concat(xs, line))
  {
    if xs != [] {
      var init, x := xs[..|xs| - 1], xs[|xs| - 1];
      assert x in xs;
      assert forall y :: y in init ==> y in xs;
      ConcatEndsWithNewline(init, line);
      if Concat(init, line) == "" {
        assert Concat(xs, line) == "" + line(x) == line(x);
      } else {
        AppendKeepsNewline(Concat(init, line), line(x));
      }
    }
  }

  /** Without ORDER BY, every emitted clause ends with a line break, so the text does too. */
  lemma EndsWithLineBreak(q: Query, contextCheck: string -> string)
    requires q.orderBy.None?
    ensures EndsWithNewline(Render(q, contextCheck))
  {
    var b, j, c := BaseQuery(q), Concat(q.joins, JoinLine), Concat(q.conditions, ConditionLineOf(contextCheck));
    var g, h := GroupByClause(q), HavingClause(q);
    assert OrderByClause(q) == "";
    assert Render(q, contextCheck) == b + j + c + g + h + "";
    assert b + j + c + g + h + "" == b + j + c + g + h;
    BaseQueryText(q);
    assert EndsWithNewline(b);
    forall x: JoinClause | x in q.joins ensures EndsWithNewline(JoinLine(x)) { }
    ConcatEndsWithNewline(q.joins, JoinLine);
    AppendKeepsNewline(b, j);
    forall x: QueryCondition | x in q.conditions ensures EndsWithNewline(ConditionLineOf(contextCheck)(x)) {
      assert ConditionLineOf(contextCheck)(x) == ConditionLine(contextCheck, x);
    }
    ConcatEndsWithNewline(q.conditions, ConditionLineOf(contextCheck));
    AppendKeepsNewline(b + j, c);
    AppendKeepsNewline(b + j + c, g);
    if q.having.Some? {
      HavingText(q.having.value);
    }
    AppendKeepsNewline(b + j + c + g, h);
  }
}
