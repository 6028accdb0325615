/**
 * Properties of the value-rewrite chain and of the condition lines built from it.
 */
module ConditionProperties {
  import opened Strings
  import opened Vocabulary
  import opened QueryBuilder

  predicate AllDigits(n: string) {
    forall k :: 0 <= k < |n| ==> IsDigit(n[k])
  }

  /** A value with no marker is emitted as context resolution returned it. */
  lemma PlainValueUnchanged(contextCheck: string -> string, raw: string)
    requires !Contains(raw, "CONTEXT-")
    requires !Contains(contextCheck(raw), "WITHIN-hs-") && !Contains(contextCheck(raw), "WITHIN-min-")
    ensures RewriteValue(contextCheck, raw) == contextCheck(raw)
  {
  }

  /** A raw value holding `CONTEXT-` is emitted single-quoted, after context resolution. */
  lemma ContextValueQuoted(contextCheck: string -> string, raw: string)
    requires Contains(raw, "CONTEXT-")
    requires !Contains(contextCheck(raw), "WITHIN-hs-") && !Contains(contextCheck(raw), "WITHIN-min-")
    ensures RewriteValue(contextCheck, raw) == "'" + contextCheck(raw) + "'"
  {
    WrappedNotContained(contextCheck(raw), "WITHIN-hs-", '\'');
    WrappedNotContained(contextCheck(raw), "WITHIN-min-", '\'');
  }

  /** Removing a leading marker from a marker followed by digits leaves the digits. */
  lemma StripMarker(marker: string, n: string)
    requires |marker| > 0 && !IsDigit(marker[0]) && AllDigits(n)
    ensures Contains(marker + n, marker)
    ensures ReplaceAll(marker + n, marker, "") == n
  {
    assert marker <= marker + n;
    ReplacePlaceholder(marker + n, "", marker, n, "", 0);
    assert "" + marker + n == marker + n;
    assert "" + "" + n == n;
  }

  /** The DATEADD call `ExpandWithin` writes, spelled out. */
  lemma ExpansionText(v: string, marker: string, unit: string)
    requires Contains(v, marker)
    ensures ExpandWithin(v, marker, unit) == "DATEADD(" + unit + ", -" + ReplaceAll(v, marker, "") + ", GETDATE())"
  {
  }

  /** `WITHIN-hs-N` becomes `DATEADD(HOUR, -N, GETDATE())`. */
  lemma WithinHours(contextCheck: string -> string, raw: string, n: string)
    requires !Contains(raw, "CONTEXT-")
    requires contextCheck(raw) == "WITHIN-hs-" + n && AllDigits(n)
    ensures RewriteValue(contextCheck, raw) == "DATEADD(HOUR, -" + n + ", GETDATE())"
  {
    StripMarker("WITHIN-hs-", n);
    var v := "DATEADD(HOUR, -" + n + ", GETDATE())";
    assert "DATEADD(" + "HOUR" + ", -" == "DATEADD(HOUR, -";
    assert ExpandWithin(contextCheck(raw), "WITHIN-hs-", "HOUR") == v;
    assert 'W' !in v;
    MissingCharNotContained(v, "WITHIN-min-", 0);
  }

  /** `WITHIN-min-N` becomes `DATEADD(MINUTE, -N, GETDATE())`. */
  lemma WithinMinutes(contextCheck: string -> string, raw: string, n: string)
    requires !Contains(raw, "CONTEXT-")
    requires contextCheck(raw) == "WITHIN-min-" + n && AllDigits(n)
    ensures RewriteValue(contextCheck, raw) == "DATEADD(MINUTE, -" + n + ", GETDATE())"
  {
    assert "WITHIN-hs-"[7] !in "WITHIN-min-" + n;
    MissingCharNotContained("WITHIN-min-" + n, "WITHIN-hs-", 7);
    StripMarker("WITHIN-min-", n);
    assert "DATEADD(" + "MINUTE" + ", -" == "DATEADD(MINUTE, -";
  }

  /**
   * The rules are not exclusive: a `CONTEXT-` value that resolves to `WITHIN-hs-N` is quoted
   * first and then expanded, so the quotes end up inside the DATEADD call.
   */
  lemma ContextAndWithinBothApply(contextCheck: string -> string, raw: string, n: string)
    requires Contains(raw, "CONTEXT-")
    requires contextCheck(raw) == "WITHIN-hs-" + n && AllDigits(n)
    ensures RewriteValue(contextCheck, raw) == "DATEADD(HOUR, -'" + n + "', GETDATE())"
  {
    QuotedHoursExpansion(n);
    var v := "DATEADD(HOUR, -'" + n + "', GETDATE())";
    assert 'W' !in v;
    MissingCharNotContained(v, "WITHIN-min-", 0);
  }

  lemma QuotedHoursExpansion(n: string)
    requires AllDigits(n)
    ensures ExpandWithin("'" + ("WITHIN-hs-" + n) + "'", "WITHIN-hs-", "HOUR") == "DATEADD(HOUR, -'" + n + "', GETDATE())"
  {
    var quoted := "'" + ("WITHIN-hs-" + n) + "'";
    QuotedMarkerStripped(n);
    ExpansionText(quoted, "WITHIN-hs-", "HOUR");
    assert "DATEADD(" + "HOUR" + ", -" == "DATEADD(HOUR, -";
    QuotedDateAdd(n);
  }

  lemma QuotedMarkerStripped(n: string)
    requires AllDigits(n)
    ensures Contains("'" + ("WITHIN-hs-" + n) + "'", "WITHIN-hs-")
    ensures ReplaceAll("'" + ("WITHIN-hs-" + n) + "'", "WITHIN-hs-", "") == "'" + n + "'"
  {
    var quoted := "'" + ("WITHIN-hs-" + n) + "'";
    AppendAssoc("'", "WITHIN-hs-" + n, "'");
    AppendAssoc("WITHIN-hs-", n, "'");
    AppendAssoc("'", "WITHIN-hs-", n + "'");
    assert quoted == "'" + "WITHIN-hs-" + (n + "'");
    assert OccursAt(quoted, "WITHIN-hs-", 1);
    ContainsIff(quoted, "WITHIN-hs-");
    ReplacePlaceholder(quoted, "'", "WITHIN-hs-", n + "'", "", 0);
    AppendAssoc("'", "", n + "'");
    AppendAssoc("'", n, "'");
  }

  lemma QuotedDateAdd(n: string)
    ensures "DATEADD(HOUR, -" + ("'" + n + "'") + ", GETDATE())" == "DATEADD(HOUR, -'" + n + "', GETDATE())"
  {
    AppendAssoc("DATEADD(HOUR, -", "'" + n, "'");
    AppendAssoc("DATEADD(HOUR, -", "'", n);
    assert "DATEADD(HOUR, -" + "'" == "DATEADD(HOUR, -'";
    AppendAssoc("DATEADD(HOUR, -'" + n, "'", ", GETDATE())");
    assert "'" + ", GETDATE())" == "', GETDATE())";
  }

  /** A plain value is written after the operator. */
  lemma PlainConditionLine(contextCheck: string -> string, c: QueryCondition)
    requires !Contains(c.value, "CONTEXT-")
    requires !Contains(contextCheck(c.value), "WITHIN-hs-") && !Contains(contextCheck(c.value), "WITHIN-min-")
    requires !Contains(contextCheck(c.value), "no-value")
    ensures ConditionLine(contextCheck, c)
            == c.statement.Value() + c.column + c.operator.Value() + contextCheck(c.value) + "\n"
  {
    PlainValueUnchanged(contextCheck, c.value);
  }

  /**
   * A resolved value holding the sentinel `no-value` is left out of the line, quoted or not:
   * only the connective, the column and the operator remain.
   */
  lemma NoValueOmitted(contextCheck: string -> string, c: QueryCondition)
    requires Contains(contextCheck(c.value), "no-value")
    requires !Contains(contextCheck(c.value), "WITHIN-hs-") && !Contains(contextCheck(c.value), "WITHIN-min-")
    ensures ConditionLine(contextCheck, c) == c.statement.Value() + c.column + c.operator.Value() + "\n"
  {
    var v := contextCheck(c.value);
    if Contains(c.value, "CONTEXT-") {
      ContextValueQuoted(contextCheck, c.value);
      QuotingKeepsOccurrence(v, "no-value");
    } else {
      PlainValueUnchanged(contextCheck, c.value);
    }
    var head := c.statement.Value() + c.column + c.operator.Value();
    assert head + "" == head;
  }

  /** Quoting a value keeps every occurrence it holds. */
  lemma QuotingKeepsOccurrence(v: string, pat: string)
    requires Contains(v, pat)
    ensures Contains("'" + v + "'", pat)
  {
    var w := "'" + v + "'";
    ContainsIff(v, pat);
    var i: nat :| OccursAt(v, pat, i);
    assert w[i + 1..i + 1 + |pat|] == v[i..i + |pat|];
    assert OccursAt(w, pat, i + 1);
    ContainsIff(w, pat);
  }

  /** A `CONTEXT-` reference that resolves to the sentinel is dropped even though it is quoted. */
  lemma ContextNoValueOmitted(contextCheck: string -> string, c: QueryCondition)
    requires Contains(c.value, "CONTEXT-") && contextCheck(c.value) == "no-value"
    ensures RewriteValue(contextCheck, c.value) == "'no-value'"
    ensures ConditionLine(contextCheck, c) == c.statement.Value() + c.column + c.operator.Value() + "\n"
  {
    MissingCharNotContained("no-value", "WITHIN-hs-", 0);
    MissingCharNotContained("no-value", "WITHIN-min-", 0);
    assert "no-value" <= "no-value";
    ContextValueQuoted(contextCheck, c.value);
    NoValueOmitted(contextCheck, c);
  }

  /** An hour offset is written as a DATEADD call after the operator. */
  lemma WithinHoursConditionLine(contextCheck: string -> string, c: QueryCondition, n: string)
    requires !Contains(c.value, "CONTEXT-")
    requires contextCheck(c.value) == "WITHIN-hs-" + n && AllDigits(n)
    ensures ConditionLine(contextCheck, c)
            == c.statement.Value() + c.column + c.operator.Value() + "DATEADD(HOUR, -" + n + ", GETDATE())" + "\n"
  {
    WithinHours(contextCheck, c.value, n);
    HourOffsetLacksSentinel(n);
  }

  lemma HourOffsetLacksSentinel(n: string)
    requires AllDigits(n)
    ensures !Contains("DATEADD(HOUR, -" + n + ", GETDATE())", "no-value")
  {
    var v := "DATEADD(HOUR, -" + n + ", GETDATE())";
    assert 'n' !in v;
    MissingCharNotContained(v, "no-value", 0);
  }

  /**
   * The operator fragment is copied as it is: `EXISTS` and `NOT EXISTS` keep their literal
   * `{column}` placeholder in a condition line.
   */
  lemma ExistsKeepsPlaceholder(contextCheck: string -> string, c: QueryCondition)
    requires c.operator == Exists || c.operator == NotExists
    ensures c.statement.Value() + c.column
            + (if c.operator == Exists then " EXISTS ({column})" else " NOT EXISTS ({column})")
            <= ConditionLine(contextCheck, c)
  {
    var v := RewriteValue(contextCheck, c.value);
    var head := c.statement.Value() + c.column + c.operator.Value();
    var shown := if Contains(v, "no-value") then "" else v;
    assert ConditionLine(contextCheck, c) == head + shown + "\n";
    AppendAssoc(head, shown, "\n");
    PrefixOfAppend(head, shown + "\n");
    if c.operator == Exists {
      assert c.operator.Value() == " EXISTS ({column})";
    } else {
      assert c.operator.Value() == " NOT EXISTS ({column})";
    }
  }

  lemma PrefixOfAppend(a: string, b: string)
    ensures a <= a + b
  {
    assert (a + b)[..|a|] == a;
  }

  /** Conditions are written in list order, each on its own line. */
  lemma TwoConditions(contextCheck: string -> string)
    requires contextCheck("1") == "1" && contextCheck("2") == "2"
    ensures Concat([QueryCondition(Where, "a", Is, "1"), QueryCondition(And, "b", Is, "2")], ConditionLineOf(contextCheck))
            == " WHERE a = 1\n AND b = 2\n"
  {
    var first, second := QueryCondition(Where, "a", Is, "1"), QueryCondition(And, "b", Is, "2");
    var cs := [first, second];
    assert cs[..1] == [first] && [first][..0] == [];
    forall raw: string | raw == "1" || raw == "2"
      ensures !Contains(raw, "CONTEXT-") && !Contains(raw, "WITHIN-hs-") && !Contains(raw, "WITHIN-min-")
              && !Contains(raw, "no-value")
    {
      MissingCharNotContained(raw, "CONTEXT-", 0);
      MissingCharNotContained(raw, "WITHIN-hs-", 0);
      MissingCharNotContained(raw, "WITHIN-min-", 0);
      MissingCharNotContained(raw, "no-value", 0);
    }
    PlainConditionLine(contextCheck, first);
    PlainConditionLine(contextCheck, second);
    assert Concat([first], ConditionLineOf(contextCheck)) == " WHERE a = 1\n";
  }
}
