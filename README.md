# sql-query-builder in Dafny

A model of `QueryBuilder`, the core of the sql-query-builder library. The library
assembles SQL Server query text from a mutable record, `QueryAttributes`. The record holds:

- a selection;
- the table, with an optional `WITH (NOLOCK)` hint;
- a list of joins and a list of filtering conditions;
- optional GROUP BY, HAVING and ORDER BY parts.

`sqlQueryBuilder` renders the record line by line. While it writes each condition, it passes
the condition's value through a chain of rewrite rules:

- context lookup;
- quoting of `CONTEXT-` values;
- `WITHIN-hs-` and `WITHIN-min-` expansion to `DATEADD(..., GETDATE())`;
- omission of `no-value`.

`checkIfQueryResultsExistsOnTable` wraps a rendered query in an anti-join count.

Files:

- `wrappers.dfy`: `Option`. A Java `null` field is `None`.
- `strings.dfy`: the Java string operations the code relies on.
  - `Contains` is `String.contains`.
  - `ReplaceAll` is `String.replace`: every occurrence, left to right, no overlaps.
  - `IntToString` is `String.valueOf(int)` over the `Int32` newtype.
- `vocabulary.dfy`: the enums (`MainStatement`, `Statement`, `SelectionType`, `JoinType`,
  `OrderType`, `Operator`). Each has a `Value()` fragment, and there is `OrderType.valueOf`.
- `query_builder.dfy`:
  - the value records `JoinClause` (the Java class of that name, lines 62-84), `OrderBy`
    (lines 124-129) and `QueryCondition` (the class `QueryConditions`, lines 131-139), each a
    datatype with the Java fields;
  - `Query`, the contents of a `QueryAttributes` record at one moment (lines 141-150);
  - the class `QueryAttributes`, whose methods update its fields in place;
  - the specification function `Render`;
  - the method `SqlQueryBuilder`, a loop over joins and conditions proved equal to `Render`;
  - `CheckIfQueryResultsExistsOnTable`.
- `render_lemmas.dfy`: properties of the rendered text as a whole. These cover its layout, the
  effect of each record update, the clause order and the line breaks.
- `condition_lemmas.dfy`: properties of the value-rewrite chain and of one condition line.

`contextCheck` (from `utils.StringUtilities`) is not part of this model. The renderer and the
rewrite chain take it as a parameter, `contextCheck: string -> string`.

## Model

| member | source | states |
|---|---|---|
| Vocabulary.OrderTypeValueOf | src/main/java/io/github/soldelv/sql/builder/QueryBuilder.java:86-96 | `OrderType.valueOf` succeeds exactly for `"DESC"` and `"ASC"` and returns the constant of that name; every other name is an error |
| Vocabulary.MainStatement.Value | src/main/java/io/github/soldelv/sql/builder/QueryBuilder.java:20-33 | the clause keywords; every one but `SELECT ` opens with a space and all end with one, so the table name and column lists are separated from them |
| Vocabulary.HavingIsTheOnlyTemplate | src/main/java/io/github/soldelv/sql/builder/QueryBuilder.java:25 | of the clause keywords only `HAVING` holds a placeholder, `{condition}` |
| Vocabulary.Statement.Value | src/main/java/io/github/soldelv/sql/builder/QueryBuilder.java:35-45 | ` WHERE ` and ` AND `: one keyword with a space on either side |
| Vocabulary.SelectionType.Value | src/main/java/io/github/soldelv/sql/builder/QueryBuilder.java:47-60 | the six selection templates, with their `{number}`/`{column}` placeholders |
| Vocabulary.SelectionTemplates | src/main/java/io/github/soldelv/sql/builder/QueryBuilder.java:49-54 | every selection but `ALL` and `COUNT_ALL` holds a placeholder for the factories to fill |
| Vocabulary.JoinType.Value | src/main/java/io/github/soldelv/sql/builder/QueryBuilder.java:66-78 | every join kind starts with a space and ends with `JOIN ` |
| Vocabulary.OrderType.Value | src/main/java/io/github/soldelv/sql/builder/QueryBuilder.java:86-96 | the direction written after the ORDER BY column is a space followed by the constant's name |
| Vocabulary.OrderType.Name | src/main/java/io/github/soldelv/sql/builder/QueryBuilder.java:86-89 | the constant names `DESC` and `ASC` that `valueOf` matches, one per constant |
| Vocabulary.Operator.Value | src/main/java/io/github/soldelv/sql/builder/QueryBuilder.java:98-122 | every comparison operator starts with a space, so it is separated from the column before it |
| Vocabulary.ExistsOperatorsAreTemplates | src/main/java/io/github/soldelv/sql/builder/QueryBuilder.java:114-115 | only `EXISTS` and `NOT EXISTS` hold a placeholder, `{column}`; condition lines copy it as it is, and only the anti-join composer fills the one of `NOT EXISTS` |
| Strings.Contains | src/main/java/io/github/soldelv/sql/builder/QueryBuilder.java:251-261 | `String.contains`, an empty target included; its meaning is given by `Strings.ContainsIff` |
| Strings.ReplaceAll | src/main/java/io/github/soldelv/sql/builder/QueryBuilder.java:162-182 | `String.replace`: each non-overlapping occurrence found by the left-to-right scan is replaced, and an empty target puts the replacement before every character and at the end; see the lemmas below |
| Strings.ContainsIff | src/main/java/io/github/soldelv/sql/builder/QueryBuilder.java:251-261 | the `contains` tests used by the rewrite chain hold exactly when the text occurs at some index |
| Strings.ReplaceAbsent | src/main/java/io/github/soldelv/sql/builder/QueryBuilder.java:253 | `replace` of a target that does not occur leaves the text unchanged |
| Strings.ReplacePlaceholder | src/main/java/io/github/soldelv/sql/builder/QueryBuilder.java:162-182 | filling a template's single placeholder puts the replacement exactly where the placeholder was, however the replacement reads |
| Strings.ReplaceSkip | src/main/java/io/github/soldelv/sql/builder/QueryBuilder.java:253-255 | the scan copies a prefix without the pattern's first character unchanged and goes on after it |
| Strings.ReplaceConsumesMatch | src/main/java/io/github/soldelv/sql/builder/QueryBuilder.java:253-255 | a match at the scan position is replaced whole and the scan resumes after it, so no later match overlaps it |
| Strings.ReplaceLeftToRight | src/main/java/io/github/soldelv/sql/builder/QueryBuilder.java:253 | the example of the `String.replace` documentation: `"aaa".replace("aa", "b")` is `"ba"` |
| Strings.IntToString | src/main/java/io/github/soldelv/sql/builder/QueryBuilder.java:161-167 | `String.valueOf(int)`: a non-empty decimal numeral, with a leading `-` exactly for negative values |
| Strings.IntToStringRoundTrip | src/main/java/io/github/soldelv/sql/builder/QueryBuilder.java:162 | `String.valueOf(int)` is a decimal numeral (with `-` exactly for negatives) that parses back to the same int |
| QueryBuilder.TopAllSelection | src/main/java/io/github/soldelv/sql/builder/QueryBuilder.java:161-163 | the TOP_ALL template with its number filled in is `TOP(n) * ` |
| QueryBuilder.TopColumnSelection | src/main/java/io/github/soldelv/sql/builder/QueryBuilder.java:165-167 | the TOP_COLUMN template is `TOP(n) column AS singleResult`; the column is inserted unchanged even when it contains `{number}` |
| QueryBuilder.CountOfSelection | src/main/java/io/github/soldelv/sql/builder/QueryBuilder.java:181-183 | `COUNT(column) AS singleResult` |
| QueryBuilder.DistinctSelection | src/main/java/io/github/soldelv/sql/builder/QueryBuilder.java:173-175 | `DISTINCT column` |
| QueryBuilder.QueryAttributes.constructor | src/main/java/io/github/soldelv/sql/builder/QueryBuilder.java:152-155 | a new record has empty join and condition lists; every other field is unset |
| QueryBuilder.QueryAttributes.SetSelect | src/main/java/io/github/soldelv/sql/builder/QueryBuilder.java:157-159 | stores the raw template, placeholders included, and changes no other field |
| QueryBuilder.QueryAttributes.SelectTopAll | src/main/java/io/github/soldelv/sql/builder/QueryBuilder.java:161-163 | the selection becomes `TOP(n) * `; no other field changes |
| QueryBuilder.QueryAttributes.SelectTopFromColumn | src/main/java/io/github/soldelv/sql/builder/QueryBuilder.java:165-167 | the selection becomes `TOP(n) column AS singleResult`; no other field changes |
| QueryBuilder.QueryAttributes.SelectAll | src/main/java/io/github/soldelv/sql/builder/QueryBuilder.java:169-171 | the selection becomes `*`; no other field changes |
| QueryBuilder.QueryAttributes.SelectDistinct | src/main/java/io/github/soldelv/sql/builder/QueryBuilder.java:173-175 | the selection becomes `DISTINCT column`; no other field changes |
| QueryBuilder.QueryAttributes.CountAll | src/main/java/io/github/soldelv/sql/builder/QueryBuilder.java:177-179 | the selection becomes `COUNT(*) AS singleResult`; no other field changes |
| QueryBuilder.QueryAttributes.CountOf | src/main/java/io/github/soldelv/sql/builder/QueryBuilder.java:181-183 | the selection becomes `COUNT(column) AS singleResult`; no other field changes |
| QueryBuilder.QueryAttributes.SetOrderByType | src/main/java/io/github/soldelv/sql/builder/QueryBuilder.java:185-187 | succeeds exactly for `DESC`/`ASC` and then sets the ordering; on any other name it reports failure (the Java exception) and leaves the record unchanged |
| QueryBuilder.QueryAttributes.SetOrderBy | src/main/java/io/github/soldelv/sql/builder/QueryBuilder.java:189-191 | orders by the column, descending; replaces any earlier ordering |
| QueryBuilder.QueryAttributes.SetWhere | src/main/java/io/github/soldelv/sql/builder/QueryBuilder.java:193-195 | appends one WHERE condition at the end of the list; nothing else changes |
| QueryBuilder.QueryAttributes.SetAnd | src/main/java/io/github/soldelv/sql/builder/QueryBuilder.java:197-199 | appends one AND condition at the end of the list; nothing else changes |
| QueryBuilder.QueryAttributes.InnerJoin | src/main/java/io/github/soldelv/sql/builder/QueryBuilder.java:201-203 | appends one INNER JOIN at the end of the join list; nothing else changes |
| QueryBuilder.QueryAttributes.RightJoin | src/main/java/io/github/soldelv/sql/builder/QueryBuilder.java:205-207 | appends one RIGHT JOIN; nothing else changes |
| QueryBuilder.QueryAttributes.LeftJoin | src/main/java/io/github/soldelv/sql/builder/QueryBuilder.java:209-211 | appends one LEFT JOIN; nothing else changes |
| QueryBuilder.QueryAttributes.SetFrom | src/main/java/io/github/soldelv/sql/builder/QueryBuilder.java:145 | the generated setter of `from` |
| QueryBuilder.QueryAttributes.SetNoLock | src/main/java/io/github/soldelv/sql/builder/QueryBuilder.java:144 | the generated setter of `noLock` |
| QueryBuilder.QueryAttributes.SetGroupBy | src/main/java/io/github/soldelv/sql/builder/QueryBuilder.java:148 | the generated setter of `groupBy` |
| QueryBuilder.QueryAttributes.SetHaving | src/main/java/io/github/soldelv/sql/builder/QueryBuilder.java:149 | the generated setter of `having` |
| QueryBuilder.Text | src/main/java/io/github/soldelv/sql/builder/QueryBuilder.java:226-227 | what Java string concatenation writes for a `select` or `from` that may be `null`: the text, or `null` |
| QueryBuilder.BaseQuery | src/main/java/io/github/soldelv/sql/builder/QueryBuilder.java:226-228 | the SELECT line and the FROM line, with the lock hint right after the table name; spelled out by `RenderProperties.BaseQueryText` |
| QueryBuilder.JoinLine | src/main/java/io/github/soldelv/sql/builder/QueryBuilder.java:235-242 | one join line, `<join> t2 ON c1 = c2` and a line break; placed by `RenderProperties.RenderAfterJoin` |
| QueryBuilder.ExpandWithin | src/main/java/io/github/soldelv/sql/builder/QueryBuilder.java:252-255 | one `WITHIN-` rule as a function: a value holding the marker becomes a `DATEADD` with the marker deleted, any other value is kept; see `ConditionProperties.WithinHours` and `WithinMinutes` |
| QueryBuilder.GroupByClause | src/main/java/io/github/soldelv/sql/builder/QueryBuilder.java:267-268 | ` GROUP BY ` with the columns and a line break, only when set; see `RenderProperties.TailClauses` |
| QueryBuilder.HavingClause | src/main/java/io/github/soldelv/sql/builder/QueryBuilder.java:271-272 | the HAVING template filled with the condition, and a line break, only when set; see `RenderProperties.HavingText` |
| QueryBuilder.OrderByClause | src/main/java/io/github/soldelv/sql/builder/QueryBuilder.java:275-281 | ` ORDER BY `, the column and the direction, with no line break, only when set; see `RenderProperties.OrderByIsLast` |
| QueryBuilder.RewriteValue | src/main/java/io/github/soldelv/sql/builder/QueryBuilder.java:250-255 | the rewrite chain as a function: lookup, quoting, hour and then minute expansion; its outcomes are proved in `ConditionProperties` |
| QueryBuilder.ConditionLine | src/main/java/io/github/soldelv/sql/builder/QueryBuilder.java:257-262 | one condition line as a function; its layout is proved in `ConditionProperties` |
| QueryBuilder.Render | src/main/java/io/github/soldelv/sql/builder/QueryBuilder.java:225-287 | the text `sqlQueryBuilder` returns, as a function of the record; its layout is proved in `RenderProperties` |
| QueryBuilder.SqlQueryBuilder | src/main/java/io/github/soldelv/sql/builder/QueryBuilder.java:225-287 | the text grown by the loops over joins and conditions equals `Render` of the record's contents; the record is not modified |
| QueryBuilder.RenderCondition | src/main/java/io/github/soldelv/sql/builder/QueryBuilder.java:249-263 | one pass of the condition loop writes exactly the condition line of the entry |
| QueryBuilder.RewriteConditionValue | src/main/java/io/github/soldelv/sql/builder/QueryBuilder.java:250-255 | the rewrite rules applied in order: context lookup, quoting, hour expansion, then minute expansion |
| QueryBuilder.ExpandDuration | src/main/java/io/github/soldelv/sql/builder/QueryBuilder.java:252-255 | one `WITHIN-` rule: it fires exactly when the marker occurs, and then each non-overlapping occurrence found by the left-to-right scan is deleted (deleting can join the remains into a new marker, which stays) |
| QueryBuilder.CheckIfQueryResultsExistsOnTable | src/main/java/io/github/soldelv/sql/builder/QueryBuilder.java:301-315 | the anti-join query counts the rows of the rendered input query with no partner row in the second table: `SELECT COUNT(*) AS singleResult FROM (<query>) AS result  WHERE  NOT EXISTS (SELECT 1 FROM t2 WHERE t2.c2 = result.c1)` |
| RenderProperties.ConcatAppend | src/main/java/io/github/soldelv/sql/builder/QueryBuilder.java:234-243 | the lines of a list are the lines of its parts, in order |
| RenderProperties.RenderStartsWithBase | src/main/java/io/github/soldelv/sql/builder/QueryBuilder.java:226-229 | every query starts with the SELECT line and the FROM line (with the lock hint when set) |
| RenderProperties.BareQuery | src/main/java/io/github/soldelv/sql/builder/QueryBuilder.java:226-287 | with no joins, conditions or tail parts the query is exactly those two lines; an unset selection or table prints as `null` |
| RenderProperties.NoLockInsertsHint | src/main/java/io/github/soldelv/sql/builder/QueryBuilder.java:226-228 | turning `noLock` on inserts ` WITH (NOLOCK) ` right after the table name and changes nothing else |
| RenderProperties.RenderAfterJoin | src/main/java/io/github/soldelv/sql/builder/QueryBuilder.java:232-244 | adding a join to the record inserts exactly `<join> t2 ON c1 = c2\n` after the existing join lines; the text before and after is unchanged |
| RenderProperties.RenderAfterCondition | src/main/java/io/github/soldelv/sql/builder/QueryBuilder.java:247-264 | adding a condition inserts exactly its line after the existing condition lines; the text before and after is unchanged |
| RenderProperties.HavingText | src/main/java/io/github/soldelv/sql/builder/QueryBuilder.java:271-272 | the HAVING template with its condition filled in is ` HAVING c \n` |
| RenderProperties.TailClauses | src/main/java/io/github/soldelv/sql/builder/QueryBuilder.java:266-281 | GROUP BY, HAVING and ORDER BY are each written only when set, in that order, after the conditions |
| RenderProperties.OrderByIsLast | src/main/java/io/github/soldelv/sql/builder/QueryBuilder.java:274-281 | when set, `ORDER BY column DESC/ASC` is the final text, with no line break after it |
| RenderProperties.EndsWithLineBreak | src/main/java/io/github/soldelv/sql/builder/QueryBuilder.java:226-272 | without ORDER BY, every query ends with a line break |
| ConditionProperties.PlainValueUnchanged | src/main/java/io/github/soldelv/sql/builder/QueryBuilder.java:250-255 | a value that is not a context reference and has no `WITHIN-` marker is written as `contextCheck` returned it |
| ConditionProperties.ContextValueQuoted | src/main/java/io/github/soldelv/sql/builder/QueryBuilder.java:250-251 | a raw value containing `CONTEXT-` whose resolved value has no `WITHIN-` marker comes out single-quoted after the lookup |
| ConditionProperties.StripMarker | src/main/java/io/github/soldelv/sql/builder/QueryBuilder.java:253-255 | removing the marker from `marker + digits` leaves the digits |
| ConditionProperties.WithinHours | src/main/java/io/github/soldelv/sql/builder/QueryBuilder.java:252-253 | `WITHIN-hs-n` becomes `DATEADD(HOUR, -n, GETDATE())` |
| ConditionProperties.WithinMinutes | src/main/java/io/github/soldelv/sql/builder/QueryBuilder.java:254-255 | `WITHIN-min-n` becomes `DATEADD(MINUTE, -n, GETDATE())` |
| ConditionProperties.ContextAndWithinBothApply | src/main/java/io/github/soldelv/sql/builder/QueryBuilder.java:250-253 | a context reference that resolves to `WITHIN-hs-n` is quoted first and then expanded, giving `DATEADD(HOUR, -'n', GETDATE())` |
| ConditionProperties.PlainConditionLine | src/main/java/io/github/soldelv/sql/builder/QueryBuilder.java:257-262 | a plain condition is written as `statement column operator value` and a line break |
| ConditionProperties.NoValueOmitted | src/main/java/io/github/soldelv/sql/builder/QueryBuilder.java:261 | whenever the resolved value holds `no-value` (and no `WITHIN-` marker), the value is left out of the line, quoted or not; statement, column and operator remain |
| ConditionProperties.ContextNoValueOmitted | src/main/java/io/github/soldelv/sql/builder/QueryBuilder.java:250-261 | a `CONTEXT-` reference that resolves to `no-value` is rewritten to `'no-value'` and still dropped, since the test is on the rewritten value |
| ConditionProperties.WithinHoursConditionLine | src/main/java/io/github/soldelv/sql/builder/QueryBuilder.java:252-262 | a `WITHIN-hs-n` condition line carries the `DATEADD` expression as its value |
| ConditionProperties.ExistsKeepsPlaceholder | src/main/java/io/github/soldelv/sql/builder/QueryBuilder.java:114-115 | in a condition line, the EXISTS and NOT EXISTS operators keep their literal `{column}` placeholder |
| ConditionProperties.TwoConditions | src/main/java/io/github/soldelv/sql/builder/QueryBuilder.java:247-264 | conditions are written in list order, each on its own line: ` WHERE a = 1\n AND b = 2\n` |

## Left out

- Logging: the `Printer` field and the two `log.info` calls (lines 18, 284 and 312) write to a log. They do not affect the returned text.
- `contextCheck` (`utils.StringUtilities`) is not part of this model. It is a parameter: a total function from the raw value to the resolved value.
- Null elements and null enum fields are not modelled. These are a `null` join or condition element, join type, statement, operator or condition value. The Java code throws on them: on `join.getJoin()` or `entry.getValue().contains` (lines 236 and 250-251), and on the enum's `.value` (lines 258 and 260).
- Null names are not modelled: a join table, a join column or a condition column that is `null`. `StringBuilder.append` writes these as `null`; the model's names are plain strings. A `null` selection or table is modelled: `Option.None` prints as `null`, as Java string concatenation does.
- The `joins != null` and `conditions != null` guards (lines 233 and 248) are not modelled. The lists are sequences, so they cannot be null. Only the generated setters could make them null, and those raw list setters are left out.
- The remaining members that Lombok generates are left out: getters, `equals`/`hashCode`/`toString` and the setters of the two lists. They only read or overwrite one field. No setter taking a raw `select` or `orderBy` value is generated, because `setSelect` and `setOrderBy` are already declared.
- `SqlQueryBuilder` appends each join line and each condition line as one concatenation. The Java code makes several `StringBuilder.append` calls per line; the resulting text is the same.
- `RenderCondition`, `RewriteConditionValue` and `ExpandDuration` are the statement-by-statement form of the condition loop, as the source writes it. Their contracts tie them to `ConditionLine`, `RewriteValue` and `ExpandWithin`, and the properties are proved about those functions.
- `ExpandDuration` writes `DATEADD(` + unit + `, -`, where the source has one format string per unit. The text is identical.
- QueryAttributes.SetOrderByType: the `IllegalArgumentException` thrown by `OrderType.valueOf` is modelled as a `false` result with the record unchanged.
- `Int32`: Java `int` is a 32-bit range of unbounded Dafny integers. No arithmetic is done on it, so there is no wrap-around to model.
