/**
 * The closed tables of SQL fragments the builder concatenates: clause keywords, connectives,
 * selection templates with `{number}`/`{column}` placeholders, join kinds, order directions and
 * comparison operators. Each fragment carries the surrounding spaces the renderer relies on.
 */
module Vocabulary {
  import opened Wrappers

  /** Top-level clause keywords; `Having` is a template with a `{condition}` placeholder. */
  datatype MainStatement = Select | From | GroupBy | Having | OrderBy {
    /** Every keyword but `SELECT` opens with a space, and all of them close with one. */
    function Value(): (r: string)
      ensures |r| > 0 && r[|r| - 1] == ' '
      ensures r[0] == ' ' <==> this != Select
    {
      match this
      case Select => "SELECT "
      case From => " FROM "
      case GroupBy => " GROUP BY "
      case Having => " HAVING " + "{condition}" + " "
      case OrderBy => " ORDER BY "
    }
  }

  /** The connective that introduces a filter condition. */
  datatype Statement = Where | And {
    /** A connective is a keyword with a space on either side. */
    function Value(): (r: string)
      ensures |r| > 2 && r[0] == ' ' && r[|r| - 1] == ' '
      ensures ' ' !in r[1..|r| - 1]
    {
      match this
      case Where => " WHERE "
      case And => " AND "
    }
  }

  /**
   * Selection templates, filled in by the selection factories of the query record. Here and
   * in the other templates each placeholder is written as a piece of its own.
   */
  datatype SelectionType = All | TopColumn | TopAll | CountOf | CountAll | Distinct {
    function Value(): string {
      match this
      case All => "*"
      case TopColumn => "TOP(" + "{number}" + ") " + "{column}" + " AS singleResult"
      case TopAll => "TOP(" + "{number}" + ") * "
      case CountOf => "COUNT(" + "{column}" + ") AS singleResult"
      case CountAll => "COUNT(*) AS singleResult"
      case Distinct => "DISTINCT " + "{column}"
    }
  }

  datatype JoinType = Join | LeftJoin | RightJoin | InnerJoin | FullJoin {
    /** Every join kind starts with a space and ends with the keyword `JOIN` and a space. */
    function Value(): (r: string)
      ensures |r| >= 6 && r[0] == ' ' && r[|r| - 5..] == "JOIN "
    {
      match this
      case Join => " JOIN "
      case LeftJoin => " LEFT JOIN "
      case RightJoin => " RIGHT JOIN "
      case InnerJoin => " INNER JOIN "
      case FullJoin => " FULL OUTER JOIN "
    }
  }

  datatype OrderType = Desc | Asc {
    /** The direction as written after the ORDER BY column: its name, after a space. */
    function Value(): (r: string)
      ensures r == " " + Name()
    {
      match this
      case Desc => " DESC"
      case Asc => " ASC"
    }

    /** The constant's declared name, the string `OrderType.valueOf` accepts. */
    function Name(): (r: string)
      ensures r == "DESC" <==> this == Desc
      ensures r == "ASC" <==> this == Asc
    {
      match this
      case Desc => "DESC"
      case Asc => "ASC"
    }
  }

  /**
   * `OrderType.valueOf(name)`: the constant with exactly that name; any other string is the
   * `IllegalArgumentException` case, here `None`.
   */
  function OrderTypeValueOf(name: string): (r: Option<OrderType>)
    ensures r.Some? <==> name == "DESC" || name == "ASC"
    ensures r.Some? ==> r.value.Name() == name
    ensures forall t: OrderType :: name == t.Name() ==> r == Some(t)
  {
    if name == "DESC" then Some(Desc) else if name == "ASC" then Some(Asc) else None
  }

  /** Comparison operators, plus the lock hint; `Exists` and `NotExists` hold a `{column}` placeholder. */
  datatype Operator =
    | NoLock | Is | IsNot | IsNotEqual | IsGreaterThan | IsMinorThan
    | IsGreaterThanOrEqual | IsLessThanOrEqual | IsLike | IsNotLike | IsIn | IsNotIn
    | IsNull | IsNotNull | Exists | NotExists
  {
    /** Every operator starts with a space. */
    function Value(): (r: string)
      ensures |r| > 0 && r[0] == ' '
    {
      match this
      case NoLock => " WITH (NOLOCK) "
      case Is => " = "
      case IsNot => " != "
      case IsNotEqual => " <> "
      case IsGreaterThan => " > "
      case IsMinorThan => " < "
      case IsGreaterThanOrEqual => " >= "
      case IsLessThanOrEqual => " <= "
      case IsLike => " LIKE "
      case IsNotLike => " NOT LIKE "
      case IsIn => " IN "
      case IsNotIn => " NOT IN "
      case IsNull => " IS NULL "
      case IsNotNull => " IS NOT NULL "
      case Exists => " EXISTS (" + "{column}" + ")"
      case NotExists => " NOT EXISTS (" + "{column}" + ")"
    }
  }

  /** Of the clause keywords, only `HAVING` is a template (with `{condition}`). */
  lemma HavingIsTheOnlyTemplate(m: MainStatement)
    ensures '{' in m.Value() <==> m == Having
  {
    if m == Having {
      assert m.Value()[8] == '{';
    }
  }

  /** Every selection but `ALL` and `COUNT_ALL` holds a placeholder the factories fill. */
  lemma SelectionTemplates(t: SelectionType)
    ensures '{' in t.Value() <==> t != All && t != CountAll
  {
    match t
    case TopColumn => assert t.Value()[4] == '{';
    case TopAll => assert t.Value()[4] == '{';
    case CountOf => assert t.Value()[6] == '{';
    case Distinct => assert t.Value()[9] == '{';
    case _ =>
  }

  /**
   * Only `EXISTS` and `NOT EXISTS` hold a `{column}` placeholder. Condition lines copy it as it
   * is; only the anti-join composer fills the one of `NOT EXISTS`.
   */
  lemma ExistsOperatorsAreTemplates(op: Operator)
    ensures '{' in op.Value() <==> op == Exists || op == NotExists
  {
    match op
    case Exists => assert op.Value()[9] == '{';
    case NotExists => assert op.Value()[13] == '{';
    case _ =>
  }
}
