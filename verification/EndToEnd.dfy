/** From an accepted inventory to a checked walk: the modules taken together. */
module EndToEnd {
  import opened Dispatch
  import opened History
  import opened Links
  import opened Lookup
  import opened Mib
  import opened Monitor
  import opened Oids
  import opened WalkCheck
  import opened Wrappers

  lemma {:induction false} AvailableWellFormed(reconcile: nat, log: Log)
    requires Legal(reconcile, log) && Available(log).Some?
    ensures WellFormed(Available(log).value)
  {
    if !Last(log).Accepted? {
      AvailableWellFormed(reconcile, Front(log));
    }
  }

  // ---------- a walk of a table reads its rows in order ----------

  lemma RowOrder(a: Row, b: Row)
    ensures Less(RowOid(a), RowOid(b)) <==> Before(a, b)
  {
    CommonPrefix(STATUS, [a.higher, a.lower], [b.higher, b.lower]);
    assert [a.higher, a.lower][1..] == [a.lower] && [b.higher, b.lower][1..] == [b.lower];
    assert Less([a.lower], [b.lower]) <==> a.lower < b.lower;
  }

  lemma UnderStatus(row: Row)
    ensures Less(STATUS, RowOid(row)) && STATUS <= RowOid(row)
  {
    assert STATUS + [] == STATUS;
    CommonPrefix(STATUS, [], [row.higher, row.lower]);
  }

  function IndexOf(name: Oid): Row
    requires |name| == |STATUS| + 2
  {
    Row(name[|STATUS|], name[|STATUS| + 1])
  }

  /** The walk a manager makes: GetNext from the column, each answer becoming the next start. */
  const COLUMN: SearchRange := SearchRange(Id(STATUS, 0), Id([], 0))

  /** The answers of the walk are the rows of the table, in order, all under the column, and nothing else. */
  lemma WalkReadsTable(t: Topology, k: nat)
    ensures var m := TableOf(t);
            var answer := GetNext(m, Advanced(m, COLUMN, k));
            if k < |m.names| then answer == VarBind(Id(m.names[k], 0), Integer(1)) && STATUS <= m.names[k]
            else answer.data == EndOfMibView
  {
    var m := TableOf(t);
    TableRows(t);
    forall o | o in m.names ensures InRange(COLUMN, o) && STATUS <= o {
      var row :| IsRow(t, row) && o == RowOid(row);
      UnderStatus(row);
    }
    AllRows(m.names, COLUMN);
    WalkComplete(m, COLUMN, k);
    assert k < |m.names| ==> m.names[k] in m.names;
  }

  lemma {:induction false} AllRows(names: seq<Oid>, range: SearchRange)
    requires forall o :: o in names ==> InRange(range, o)
    ensures RowsIn(names, range) == names
  {
    if names != [] {
      assert names[0] in names;
      AllRows(names[1..], range);
    }
  }

  lemma NamesAreRows(t: Topology)
    ensures forall o :: o in TableOf(t).names ==> |o| == |STATUS| + 2 && o == RowOid(IndexOf(o)) && IsRow(t, IndexOf(o))
  {
    TableRows(t);
    forall o | o in TableOf(t).names
      ensures |o| == |STATUS| + 2 && o == RowOid(IndexOf(o)) && IsRow(t, IndexOf(o))
    {
      var row :| IsRow(t, row) && o == RowOid(row);
      assert IndexOf(o) == row;
    }
  }

  /** The instance indexes read off a table, line by line. */
  ghost function WalkOf(t: Topology): (rows: seq<Row>)
    ensures |rows| == |TableOf(t).names|
    ensures forall i :: 0 <= i < |rows| ==> RowOid(rows[i]) == TableOf(t).names[i]
    ensures Serves(t, rows)
  {
    NamesAreRows(t);
    var names := TableOf(t).names;
    var rows := seq(|names|, (i: nat) requires i < |names| && |names[i]| == |STATUS| + 2 => IndexOf(names[i]));
    WalkServes(t, rows);
    rows
  }

  lemma WalkServes(t: Topology, rows: seq<Row>)
    requires |rows| == |TableOf(t).names|
    requires forall i :: 0 <= i < |rows| ==> RowOid(rows[i]) == TableOf(t).names[i]
    ensures Serves(t, rows)
  {
    TableRows(t);
    forall i, j | 0 <= i < j < |rows| ensures Before(rows[i], rows[j]) {
      RowOrder(rows[i], rows[j]);
    }
    forall row ensures row in rows <==> IsRow(t, row) {
      if row in rows {
        var i :| 0 <= i < |rows| && rows[i] == row;
        assert TableOf(t).names[i] in TableOf(t).names;
      }
      if IsRow(t, row) {
        assert RowOid(row) in TableOf(t).names;
        var i :| 0 <= i < |rows| && TableOf(t).names[i] == RowOid(row);
        SameOidSameRow(rows[i], row);
      }
    }
  }

  lemma SameOidSameRow(a: Row, b: Row)
    requires RowOid(a) == RowOid(b)
    ensures a == b
  {
    assert RowOid(a)[|STATUS|] == a.higher && RowOid(b)[|STATUS|] == b.higher;
    assert RowOid(a)[|STATUS| + 1] == a.lower && RowOid(b)[|STATUS| + 1] == b.lower;
  }

  /** The walk as the checker's input. */
  function ActiveLines(rows: seq<Row>): seq<Line> {
    if rows == [] then [] else ActiveLines(rows[..|rows| - 1]) + [Instance(rows[|rows| - 1], true)]
  }

  lemma {:induction false} LinesRead(rows: seq<Row>)
    ensures RowsRead(ActiveLines(rows)) == rows && forall line :: line in ActiveLines(rows) ==> Plain(line)
  {
    if rows != [] {
      LinesRead(rows[..|rows| - 1]);
      var front := ActiveLines(rows[..|rows| - 1]);
      assert ActiveLines(rows)[..|front|] == front;
    }
  }

  /**
   * Every table any run of the monitor ever publishes comes from the latest accepted inventory, and its walk
   * passes the independent checker for that inventory's interfaces.
   */
  lemma PublishedTablePasses(reconcile: nat, turns: seq<Turn>, indexes: seq<nat>)
    requires var log := After(reconcile, turns).log;
             Available(log).Some? && Expected(indexes) == Indices(Available(log).value)
    requires indexes != [] && 0 !in indexes
    ensures var links := Available(After(reconcile, turns).log).value;
            && WellFormed(links) && Published(After(reconcile, turns).log) == Some(TableOf(TopologyOf(links)))
            && Unobjectionable(Expected(indexes), ActiveLines(WalkOf(TopologyOf(links))))
  {
    RunsAreLegal(reconcile, turns);
    var links := Available(After(reconcile, turns).log).value;
    AvailableWellFormed(reconcile, After(reconcile, turns).log);
    TopologySound(links);
    var t := TopologyOf(links);
    var rows := WalkOf(t);
    LinesRead(rows);
    assert Stack(t) && Serves(t, rows) && t.interfaces == Expected(indexes);
    assert ServedWalk(Expected(indexes), rows);
    CheckerMatchesGenerator(indexes, ActiveLines(rows));
  }

  // ---------- what sessions see of a run ----------

  /** After the writes a history calls for, the cell sessions snapshot shows what it makes available, in order. */
  lemma {:induction false} SessionsSeePublished(log: Log)
    ensures AfterSteps(None, StepsOf(log)) == Published(log)
    ensures OrderlySteps(StepsOf(log)) && Orderly(Published(log))
  {
    if log != [] {
      SessionsSeePublished(Front(log));
      if Last(log).Accepted? {
        TableRows(TopologyOf(Last(log).links));
      }
    }
  }
}
