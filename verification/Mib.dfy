/** src/mib.rs: the ifStackTable and its ordered lookups. */
module Mib {
  import opened Links
  import opened Oids

  // ifStackStatus, IF-MIB (section 6 of RFC 2863).
  const STATUS: Oid := [1, 3, 6, 1, 2, 1, 31, 1, 2, 1, 3]
  const MAX_BULK_BINDINGS: nat := 4096

  /** An agentx ID: comparisons ignore the include flag. */
  datatype Id = Id(components: Oid, includeFlag: nat)

  datatype SearchRange = SearchRange(start: Id, end: Id)

  datatype Value = Integer(n: int) | NoSuchObject | NoSuchInstance | EndOfMibView

  datatype VarBind = VarBind(name: Id, data: Value)

  /** The BTreeMap of active rows, read as its increasing key listing; every stored value is Integer(1). */
  datatype Table = Table(names: seq<Oid>)

  /** One (higher, lower) instance index. */
  datatype Row = Row(higher: nat, lower: nat)

  function RowOid(row: Row): Oid {
    STATUS + [row.higher, row.lower]
  }

  // ---------- building the table ----------

  /** The RFC 2863 rows of a topology: its relationships, and a zero row for each missing side. */
  ghost predicate IsRow(t: Topology, row: Row) {
    || Relationship(row.higher, row.lower) in t.relationships
    || (row.higher == 0 && row.lower in t.interfaces && !Covered(t, row.lower))
    || (row.lower == 0 && row.higher in t.interfaces && !OnTop(t, row.higher))
  }

  /** Something runs over `index`. */
  ghost predicate Covered(t: Topology, index: nat) {
    exists r :: r in t.relationships && r.lower == index
  }

  /** `index` runs over something. */
  ghost predicate OnTop(t: Topology, index: nat) {
    exists r :: r in t.relationships && r.higher == index
  }

  ghost function RowsOf(t: Topology): set<Row> {
    (set r | r in t.relationships :: Row(r.higher, r.lower)) +
    (set i | i in t.interfaces && !Covered(t, i) :: Row(0, i)) +
    (set i | i in t.interfaces && !OnTop(t, i) :: Row(i, 0))
  }

  ghost function TableOf(t: Topology): Table {
    Table(Listing(set row | row in RowsOf(t) :: RowOid(row)))
  }

  lemma TableRows(t: Topology)
    ensures Increasing(TableOf(t).names)
    ensures forall row :: RowOid(row) in TableOf(t).names <==> IsRow(t, row)
    ensures forall o :: o in TableOf(t).names ==> exists row :: IsRow(t, row) && o == RowOid(row)
  {
    RowsAreRows(t);
    forall a, b | RowOid(a) == RowOid(b) ensures a == b {
      assert RowOid(a)[11] == a.higher && RowOid(a)[12] == a.lower;
      assert RowOid(b)[11] == b.higher && RowOid(b)[12] == b.lower;
    }
  }

  /**
   * The names a topology is served under, component by component: each relationship higher before lower, a zero
   * higher for an interface nothing runs over, a zero lower for one that runs over nothing.
   */
  lemma ServedNames(t: Topology)
    ensures forall higher: nat, lower: nat :: [1, 3, 6, 1, 2, 1, 31, 1, 2, 1, 3, higher, lower] in TableOf(t).names <==>
              || Relationship(higher, lower) in t.relationships
              || (higher == 0 && lower in t.interfaces && forall r :: r in t.relationships ==> r.lower != lower)
              || (lower == 0 && higher in t.interfaces && forall r :: r in t.relationships ==> r.higher != higher)
    ensures forall o :: o in TableOf(t).names ==> |o| == 13
  {
    TableRows(t);
    forall higher: nat, lower: nat
      ensures [1, 3, 6, 1, 2, 1, 31, 1, 2, 1, 3, higher, lower] in TableOf(t).names <==> IsRow(t, Row(higher, lower))
    {
      assert RowOid(Row(higher, lower)) == [1, 3, 6, 1, 2, 1, 31, 1, 2, 1, 3, higher, lower];
    }
  }

  /** Mib::from_rows. */
  method FromRows(rows: seq<Row>) returns (m: Table)
    ensures Increasing(m.names)
    ensures forall o :: o in m.names <==> exists row :: row in rows && o == RowOid(row)
  {
    var names: seq<Oid> := [];
    for i := 0 to |rows|
      invariant Increasing(names)
      invariant forall o :: o in names <==> exists j :: 0 <= j < i && o == RowOid(rows[j])
    {
      names := Insert(names, RowOid(rows[i]));
    }
    return Table(names);
  }

  /** Mib::from_topology. */
  method FromTopology(t: Topology) returns (m: Table)
    ensures m == TableOf(t)
  {
    var higher := set r | r in t.relationships :: r.higher;
    var lower := set r | r in t.relationships :: r.lower;
    var rows: seq<Row> := [];
    var stacked := t.relationships;
    while stacked != {}
      invariant stacked <= t.relationships
      invariant forall row :: row in rows <==> Relationship(row.higher, row.lower) in t.relationships - stacked
    {
      var r :| r in stacked;
      rows := rows + [Row(r.higher, r.lower)];
      stacked := stacked - {r};
    }
    var indices := t.interfaces;
    while indices != {}
      invariant indices <= t.interfaces
      invariant forall row :: row in rows <==>
                  IsRow(Topology(t.interfaces - indices, t.relationships), row)
    {
      var index :| index in indices;
      if index !in lower {
        rows := rows + [Row(0, index)];
      }
      if index !in higher {
        rows := rows + [Row(index, 0)];
      }
      indices := indices - {index};
    }
    assert t == Topology(t.interfaces - indices, t.relationships);
    m := FromRows(rows);
    TableRows(t);
    ListingUnique(m.names, TableOf(t).names);
  }

  // ---------- the table is a faithful encoding ----------

  /** No row is (0,0); on each side an interface has a zero row or real rows, never both and never neither. */
  lemma BoundaryRows(t: Topology)
    requires Consistent(t)
    ensures !IsRow(t, Row(0, 0))
    ensures forall i :: i in t.interfaces ==>
              (IsRow(t, Row(0, i)) <==> !exists h :: h != 0 && IsRow(t, Row(h, i)))
    ensures forall i :: i in t.interfaces ==>
              (IsRow(t, Row(i, 0)) <==> !exists l :: l != 0 && IsRow(t, Row(i, l)))
    ensures forall row :: IsRow(t, row) ==>
              row.higher in t.interfaces + {0} && row.lower in t.interfaces + {0} && row.higher != row.lower
  {
    forall i | i in t.interfaces
      ensures Covered(t, i) <==> exists h :: h != 0 && IsRow(t, Row(h, i))
      ensures OnTop(t, i) <==> exists l :: l != 0 && IsRow(t, Row(i, l))
    {
      if r :| r in t.relationships && r.lower == i {
        assert r == Relationship(r.higher, i);
        assert IsRow(t, Row(r.higher, i));
      }
      if h :| h != 0 && IsRow(t, Row(h, i)) {
        assert Relationship(h, i) in t.relationships;
      }
      if r :| r in t.relationships && r.higher == i {
        assert r == Relationship(i, r.lower);
        assert IsRow(t, Row(i, r.lower));
      }
      if l :| l != 0 && IsRow(t, Row(i, l)) {
        assert Relationship(i, l) in t.relationships;
      }
    }
  }

  /** Reading a topology back from table rows. */
  ghost function Decode(rows: set<Row>): Topology {
    Topology((set row | row in rows :: row.higher) + (set row | row in rows :: row.lower) - {0},
             set row | row in rows && row.higher != 0 && row.lower != 0 :: Relationship(row.higher, row.lower))
  }

  lemma DecodeRows(t: Topology)
    requires Consistent(t)
    ensures Decode(RowsOf(t)) == t
  {
    RowsAreRows(t);
    BoundaryRows(t);
    assert Decode(RowsOf(t)).interfaces == t.interfaces by {
      forall i | i in t.interfaces ensures i in Decode(RowsOf(t)).interfaces {
        EachInterfaceHasARow(t, i);
      }
    }
    forall r | r in t.relationships ensures r in Decode(RowsOf(t)).relationships {
      assert Row(r.higher, r.lower) in RowsOf(t);
    }
  }

  lemma RowsAreRows(t: Topology)
    ensures forall row :: row in RowsOf(t) <==> IsRow(t, row)
  {
  }

  lemma EachInterfaceHasARow(t: Topology, i: nat)
    requires i in t.interfaces
    ensures exists row :: row in RowsOf(t) && row.lower == i
  {
    if r :| r in t.relationships && r.lower == i {
      assert Row(r.higher, i) in RowsOf(t);
    } else {
      assert Row(0, i) in RowsOf(t);
    }
  }

  /** Different sound topologies are served as different tables. */
  lemma TableInjective(a: Topology, b: Topology)
    requires Consistent(a) && Consistent(b) && TableOf(a) == TableOf(b)
    ensures a == b
  {
    TableRows(a);
    TableRows(b);
    RowsAreRows(a);
    RowsAreRows(b);
    forall row ensures row in RowsOf(a) <==> row in RowsOf(b) {
      assert row in RowsOf(a) <==> IsRow(a, row);
      assert row in RowsOf(b) <==> IsRow(b, row);
    }
    assert RowsOf(a) == RowsOf(b);
    DecodeRows(a);
    DecodeRows(b);
  }
}
