/** Metadata of one MySQL column (pysk/db/column.py). */
module Columns {
  import opened Wrappers
  import opened Strs

  datatype Column = Column(
    name: Option<string>,
    dataType: Option<string>,
    allowsNull: bool,
    index: Option<string>,
    defaultValue: Option<string>,
    extra: string)

  /** `Column()`: the constructor's defaults. */
  function NewColumn(): (c: Column)
    ensures c.name.None? && c.dataType.None? && !c.allowsNull && c.index.None? && c.defaultValue.None?
    ensures c.extra == ""
  {
    Column(None, None, false, None, None, "")
  }

  /** `isPrimaryIndex()`. */
  predicate IsPrimaryIndex(c: Column) {
    c.index == Some("PRI")
  }

  /** `hasAutoIncrement()`: "auto_increment" occurs in `extra`. */
  predicate HasAutoIncrement(c: Column) {
    Contains(c.extra, "auto_increment")
  }

  /** `default()`: the SQL text of the default value, NULL or the value in single quotes. */
  function Default(c: Column): (r: string)
    ensures r == "NULL" <==> c.defaultValue.None?
    ensures c.defaultValue.Some? ==> |r| >= 2 && r[0] == '\'' && r[|r| - 1] == '\''
  {
    if c.defaultValue.None? then "NULL"
    else
      var r := "'" + c.defaultValue.value + "'";
      assert r[0] != "NULL"[0];
      r
  }

  /** Removing the quotes from `default()` gives the default value back. */
  lemma DefaultUnquotes(c: Column)
    requires c.defaultValue.Some?
    ensures var r := Default(c); r[1..|r| - 1] == c.defaultValue.value
  {
    var r := Default(c);
    assert r == "'" + c.defaultValue.value + "'";
  }

  /** An `extra` of exactly "auto_increment", or one that ends with it, marks auto increment. */
  lemma AutoIncrementSuffix(c: Column, prefix: string)
    requires c.extra == prefix + "auto_increment"
    ensures HasAutoIncrement(c)
  {
    assert IsPrefix("auto_increment", c.extra[|prefix|..]);
  }
}
