/**
 * The "contains" condition kind (lib/searchgasm/search/condition_types/contains_condition.rb):
 * which columns it names, the aliases it answers to, and the parameterised
 * SQL fragment it compiles a value into.
 */
module ContainsCondition {
  import opened RubyValues

  /** A database column, as far as a condition kind looks at it. */
  datatype Column = Column(name: string)

  /**
   * A condition of this kind bound to one column; the quoted names come from
   * the database adapter.
   */
  datatype Condition = Condition(quotedTableName: string, quotedColumnName: string)

  /** What `to_conditions` returns: a SQL template and the values bound to its placeholders. */
  datatype SqlConditions = SqlConditions(template: string, binds: seq<string>)

  /**
   * `name_for_column`: no name at all unless the column is a string column,
   * otherwise whatever the generic condition naming gives. `string_column?`
   * and that generic naming are parameters.
   */
  function NameForColumn(column: Column, isStringColumn: Column -> bool, baseName: Column -> Option<string>): (name: Option<string>)
    ensures name.Some? ==> isStringColumn(column) && name == baseName(column)
    ensures isStringColumn(column) ==> name == baseName(column)
  {
    if !isStringColumn(column) then None else baseName(column)
  }

  /** `aliases_for_column`: the column name with `_like`, then with `_has`, whatever the column's type. */
  function AliasesForColumn(column: Column): (aliases: seq<string>)
    ensures |aliases| == 2
    ensures aliases[0] == column.name + "_like"
    ensures aliases[1] == column.name + "_has"
  {
    [column.name + "_like", column.name + "_has"]
  }

  /** Appending the same suffix to two strings gives equal results only for equal strings. */
  lemma SuffixCancels(x: string, y: string, suffix: string)
    requires x + suffix == y + suffix
    ensures x == y
  {
    assert |x| == |y|;
    assert x == (x + suffix)[..|x|];
    assert y == (y + suffix)[..|y|];
  }

  /**
   * An alias names exactly one column and one spelling: the two aliases of a
   * column differ, and two columns sharing an alias have the same name.
   */
  lemma AliasesIdentifyColumn(c1: Column, c2: Column, alias: string)
    requires alias in AliasesForColumn(c1) && alias in AliasesForColumn(c2)
    ensures c1.name == c2.name
    ensures AliasesForColumn(c1)[0] != AliasesForColumn(c1)[1]
  {
    var like1, has1 := c1.name + "_like", c1.name + "_has";
    var like2, has2 := c2.name + "_like", c2.name + "_has";
    assert like1[|like1| - 1] == 'e' && has1[|has1| - 1] == 's';
    assert like2[|like2| - 1] == 'e' && has2[|has2| - 1] == 's';
    if alias == like1 && alias == like2 {
      SuffixCancels(c1.name, c2.name, "_like");
    } else if alias == has1 && alias == has2 {
      SuffixCancels(c1.name, c2.name, "_has");
    } else {
      assert false;
    }
  }

  /** The SQL template: `<table>.<column> LIKE ?`. */
  function LikeTemplate(c: Condition): string {
    c.quotedTableName + "." + c.quotedColumnName + " LIKE ?"
  }

  /**
   * `to_conditions(value)`: a `LIKE` on the quoted column with the value,
   * wrapped in `%` wildcards and not escaped, as the only bind. `value` is
   * the value's `to_s`.
   */
  function ToConditions(c: Condition, value: string): (r: SqlConditions)
    ensures r.template == LikeTemplate(c)
    ensures |r.binds| == 1
    ensures |r.binds[0]| == |value| + 2
    ensures r.binds[0][0] == '%' && r.binds[0][|r.binds[0]| - 1] == '%'
    ensures r.binds[0][1..|r.binds[0]| - 1] == value
  {
    SqlConditions(LikeTemplate(c), ["%" + value + "%"])
  }

  /** The number of `?` placeholders in a SQL template. */
  function Placeholders(s: string): nat {
    if s == [] then 0 else (if s[0] == '?' then 1 else 0) + Placeholders(s[1..])
  }

  /** Placeholders of a concatenation are those of its parts. */
  lemma {:induction false} PlaceholdersAppend(a: string, b: string)
    ensures Placeholders(a + b) == Placeholders(a) + Placeholders(b)
  {
    if a == [] {
      assert a + b == b;
    } else {
      assert (a + b)[0] == a[0];
      assert (a + b)[1..] == a[1..] + b;
      PlaceholdersAppend(a[1..], b);
    }
  }

  /**
   * The template has one placeholder more than the quoted names hold, so
   * with ordinary quoted names it has exactly one placeholder per bind.
   */
  lemma PlaceholdersMatchBinds(c: Condition, value: string)
    ensures Placeholders(ToConditions(c, value).template)
      == Placeholders(c.quotedTableName) + Placeholders(c.quotedColumnName) + 1
    ensures Placeholders(c.quotedTableName) == 0 && Placeholders(c.quotedColumnName) == 0 ==>
      Placeholders(ToConditions(c, value).template) == |ToConditions(c, value).binds|
  {
    PlaceholdersAppend(c.quotedTableName, ".");
    PlaceholdersAppend(c.quotedTableName + ".", c.quotedColumnName);
    PlaceholdersAppend(c.quotedTableName + "." + c.quotedColumnName, " LIKE ?");
    assert Placeholders(".") == 0;
    assert Placeholders(" LIKE ?") == 1;
  }

  /** The value never reaches the template: two values give the same SQL and differ only in the bind. */
  lemma ValueOnlyInBinds(c: Condition, v1: string, v2: string)
    ensures ToConditions(c, v1).template == ToConditions(c, v2).template
    ensures ToConditions(c, v1).binds == ToConditions(c, v2).binds <==> v1 == v2
  {
  }

  /** The fragments for `name_contains = "Binary"` on accounts and `first_name_like = "Ben"` (an alias) on users. */
  lemma SanitizeExamples()
    ensures ToConditions(Condition("\"accounts\"", "\"name\""), "Binary")
      == SqlConditions("\"accounts\".\"name\" LIKE ?", ["%Binary%"])
    ensures ToConditions(Condition("\"users\"", "\"first_name\""), "Ben")
      == SqlConditions("\"users\".\"first_name\" LIKE ?", ["%Ben%"])
  {
    assert "\"accounts\"" + "." + "\"name\"" + " LIKE ?" == "\"accounts\".\"name\" LIKE ?";
    assert "%" + "Binary" + "%" == "%Binary%";
    assert "\"users\"" + "." + "\"first_name\"" + " LIKE ?" == "\"users\".\"first_name\" LIKE ?";
    assert "%" + "Ben" + "%" == "%Ben%";
  }
}
