/** The SQL statements of a Fabric row filter on Unity Catalog, and the filter a table has after some were executed. */
module UcStatements {
  import opened Optional
  import opened RowFilterLoop

  datatype Statement =
    | CreateFunction(routine: string, params: seq<Column>, body: string)
    | SetRowFilter(table: string, routine: string, on: seq<string>)
    | OtherStatement(text: string)

  /** What a function was last defined as. */
  function Defined(ss: seq<Statement>, routine: string): Option<(seq<Column>, string)> {
    if ss == [] then None
    else
      var last := ss[|ss| - 1];
      if last.CreateFunction? && last.routine == routine then Some((last.params, last.body))
      else Defined(ss[..|ss| - 1], routine)
  }

  /** The function a table is filtered by, and the columns it is passed. */
  function Chosen(ss: seq<Statement>, table: string): Option<(string, seq<string>)> {
    if ss == [] then None
    else
      var last := ss[|ss| - 1];
      if last.SetRowFilter? && last.table == table then Some((last.routine, last.on))
      else Chosen(ss[..|ss| - 1], table)
  }

  /** The row filter Unity Catalog describes for a table. */
  function FilterOf(ss: seq<Statement>, table: string): Option<UcRowFilter> {
    var chosen := Chosen(ss, table);
    if chosen.None? then None
    else
      var defined := Defined(ss, chosen.value.0);
      if defined.None? then None
      else Some(UcRowFilter(table, defined.value.0, defined.value.1, chosen.value.1))
  }

  /** The statements `_fabric_row_filter_uc_sql` returns. */
  function Statements(f: UcRowFilter, routine: string): seq<Statement> {
    [CreateFunction(routine, f.params, f.body), SetRowFilter(f.table, routine, f.on)]
  }

  /** The statement redefines the function, or gives the table another filter. */
  predicate Touches(x: Statement, table: string, routine: string) {
    match x
    case CreateFunction(other, _, _) => other == routine
    case SetRowFilter(other, _, _) => other == table
    case OtherStatement(_) => false
  }

  lemma {:induction false} UntouchedStays(ss: seq<Statement>, more: seq<Statement>, table: string, routine: string)
    requires forall x :: x in more ==> !Touches(x, table, routine)
    ensures Chosen(ss + more, table) == Chosen(ss, table)
    ensures Defined(ss + more, routine) == Defined(ss, routine)
  {
    if more == [] {
      assert ss + more == ss;
    } else {
      var n := |more| - 1;
      assert (ss + more)[..|ss + more| - 1] == ss + more[..n];
      assert (ss + more)[|ss + more| - 1] == more[n] && !Touches(more[n], table, routine);
      UntouchedStays(ss, more[..n], table, routine);
    }
  }

  /** Both statements executed: the table has exactly this filter, and keeps it while nothing touches it. */
  lemma SetIsRead(ss: seq<Statement>, f: UcRowFilter, routine: string, more: seq<Statement>)
    requires forall x :: x in more ==> !Touches(x, f.table, routine)
    ensures FilterOf(ss + Statements(f, routine) + more, f.table) == Some(f)
  {
    var both := ss + Statements(f, routine);
    assert both[..|both| - 1] == ss + [CreateFunction(routine, f.params, f.body)];
    var one := ss + [CreateFunction(routine, f.params, f.body)];
    assert one[..|one| - 1] == ss;
    assert Chosen(both, f.table) == Some((routine, f.on)) && Defined(both, routine) == Some((f.params, f.body));
    UntouchedStays(both, more, f.table, routine);
  }

  /** Every other table keeps its filter, unless it is filtered by the same function. */
  lemma OtherTablesStay(ss: seq<Statement>, f: UcRowFilter, routine: string, table: string)
    requires table != f.table && (Chosen(ss, table).Some? ==> Chosen(ss, table).value.0 != routine)
    ensures FilterOf(ss + Statements(f, routine), table) == FilterOf(ss, table)
  {
    var own := if Chosen(ss, table).Some? then Chosen(ss, table).value.0 else routine + "'";
    assert |routine + "'"| > |routine|;
    UntouchedStays(ss, Statements(f, routine), table, own);
  }
}
