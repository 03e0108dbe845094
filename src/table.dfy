/** Column metadata of one MySQL table (pysk/db/table.py). */
module Tables {
  import opened Wrappers
  import opened Strs
  import opened Columns
  import Members

  class Table {
    var columns: seq<Column>

    /** `Table(columns)`: the given columns, appended in order. */
    constructor (cols: seq<Column>)
      ensures columns == cols
    {
      columns := [];
      new;
      for i := 0 to |cols|
        invariant columns == cols[..i]
      {
        AppendColumn(cols[i]);
        assert cols[..i + 1] == cols[..i] + [cols[i]];
      }
      assert cols[..|cols|] == cols;
    }

    /** `appendColumn(col)`. */
    method AppendColumn(col: Column)
      modifies this
      ensures columns == old(columns) + [col]
    {
      columns := columns + [col];
    }

    function NColumns(): nat
      reads this
    {
      |columns|
    }

    /** `format()`: "(%s,%s,…,%s)" with one "%s" per column. */
    function Format(): (r: string)
      reads this
      ensures |r| == (if NColumns() == 0 then 2 else 3 * NColumns() + 1)
      ensures r[0] == '(' && r[|r| - 1] == ')'
      ensures forall k :: 0 <= k < NColumns() ==> r[3 * k + 1] == '%' && r[3 * k + 2] == 's'
      ensures forall k :: 0 <= k < NColumns() - 1 ==> r[3 * k + 3] == ','
    {
      var p := Placeholders(NColumns());
      PlaceholdersShape(NColumns());
      var r := "(" + p + ")";
      assert forall k :: 0 <= k < NColumns() ==> r[3 * k + 1] == p[3 * k] && r[3 * k + 2] == p[3 * k + 1];
      assert forall k :: 0 <= k < NColumns() - 1 ==> r[3 * k + 3] == p[3 * k + 2];
      r
    }

    /** `getColumnByName(name)`: the first column with that name, or KeyError. */
    method GetColumnByName(name: Option<string>) returns (r: Result<Column>)
      ensures r.Ok? ==> exists i :: 0 <= i < |columns| && columns[i] == r.value && r.value.name == name &&
                          forall j :: 0 <= j < i ==> columns[j].name != name
      ensures r.Err? <==> forall i :: 0 <= i < |columns| ==> columns[i].name != name
      ensures r.Err? ==> r.error == KeyError("No such column: '" + Show(name) + "'")
    {
      for i := 0 to |columns|
        invariant forall j :: 0 <= j < i ==> columns[j].name != name
      {
        if columns[i].name == name {
          return Ok(columns[i]);
        }
      }
      return Err(KeyError("No such column: '" + Show(name) + "'"));
    }

    /** `toTuple(obj)`: the object's attribute for each column, in column order; `getattr`
        raises AttributeError for a column the object lacks. */
    function ToTuple(obj: Members.Object): (r: Result<seq<Members.Value>>)
      reads this
      ensures r.Ok? <==> forall i :: 0 <= i < NColumns() ==> columns[i].name.Some? && columns[i].name.value in obj
      ensures r.Ok? ==> |r.value| == NColumns() &&
                        forall i :: 0 <= i < NColumns() ==> r.value[i] == obj[columns[i].name.value]
    {
      Values(columns, obj)
    }
  }

  /** The attribute values for `cols`, stopping at the first one that is missing. */
  function Values(cols: seq<Column>, obj: Members.Object): (r: Result<seq<Members.Value>>)
    ensures r.Ok? <==> forall i :: 0 <= i < |cols| ==> cols[i].name.Some? && cols[i].name.value in obj
    ensures r.Ok? ==> |r.value| == |cols| && forall i :: 0 <= i < |cols| ==> r.value[i] == obj[cols[i].name.value]
  {
    if cols == [] then Ok([])
    else if cols[0].name.None? then Err(TypeError)
    else if cols[0].name.value !in obj then Err(AttributeError(cols[0].name.value))
    else
      var rest := Values(cols[1..], obj);
      assert rest.Ok? ==> forall i :: 1 <= i < |cols| ==> cols[i] == cols[1..][i - 1];
      if rest.Err? then
        assert exists i :: 1 <= i < |cols| && !(cols[i].name.Some? && cols[i].name.value in obj) by {
          var i :| 0 <= i < |cols[1..]| && !(cols[1..][i].name.Some? && cols[1..][i].name.value in obj);
          assert cols[i + 1] == cols[1..][i];
        }
        rest
      else
        var r := [obj[cols[0].name.value]] + rest.value;
        assert forall i :: 1 <= i < |cols| ==> r[i] == rest.value[i - 1];
        Ok(r)
  }
}
