/** src/mib.rs: Get, GetNext and GetBulk over the ordered rows. */
module Lookup {
  import opened Mib
  import opened Oids

  // ---------- the lookups ----------

  function Binding(name: Id, data: Value): VarBind {
    VarBind(name.(includeFlag := 0), data)
  }

  /** Mib::get. */
  function Get(m: Table, name: Id): VarBind {
    Binding(name,
            if name.components in m.names then Integer(1)
            else if AtMost(STATUS, name.components) && Less(name.components, Following(STATUS)) then NoSuchInstance
            else NoSuchObject)
  }

  predicate FromStart(range: SearchRange, name: Oid) {
    if range.start.includeFlag == 1 then AtMost(range.start.components, name) else Less(range.start.components, name)
  }

  /** ID::is_null: an end without components does not bound the range. */
  predicate BeforeEnd(range: SearchRange, name: Oid) {
    range.end.components == [] || Less(name, range.end.components)
  }

  predicate InRange(range: SearchRange, name: Oid) {
    FromStart(range, name) && BeforeEnd(range, name)
  }

  /** BTreeMap::range(start..).next(): the first key at or past the start. */
  function First(names: seq<Oid>, range: SearchRange): seq<Oid> {
    if names == [] then []
    else if FromStart(range, names[0]) then [names[0]]
    else First(names[1..], range)
  }

  /** Mib::get_next. */
  function GetNext(m: Table, range: SearchRange): VarBind {
    var first := First(m.names, range);
    if first != [] && BeforeEnd(range, first[0])
    then Binding(Id(first[0], 0), Integer(1))
    else Binding(range.start, EndOfMibView)
  }

  // ---------- Get: what a missing name is called ----------

  /** NoSuchInstance is exactly for absent names at or under the status column. */
  lemma GetClassifies(m: Table, name: Id)
    ensures Get(m, name).name == Id(name.components, 0)
    ensures Get(m, name).data == Integer(1) <==> name.components in m.names
    ensures Get(m, name).data == NoSuchInstance <==> name.components !in m.names && STATUS <= name.components
    ensures Get(m, name).data == NoSuchObject <==> name.components !in m.names && !(STATUS <= name.components)
  {
    SubtreeBand(STATUS, name.components);
  }

  // ---------- the rows a range covers ----------

  /** The in-range names, in table order. */
  function RowsIn(names: seq<Oid>, range: SearchRange): (r: seq<Oid>)
    ensures forall o :: o in r <==> o in names && InRange(range, o)
  {
    if names == [] then []
    else
      assert names == [names[0]] + names[1..];
      (if InRange(range, names[0]) then [names[0]] else []) + RowsIn(names[1..], range)
  }

  lemma {:induction false} RowsInIncreasing(names: seq<Oid>, range: SearchRange)
    requires Increasing(names)
    ensures Increasing(RowsIn(names, range))
  {
    if names != [] {
      var rest := RowsIn(names[1..], range);
      RowsInIncreasing(names[1..], range);
      forall o | o in rest ensures Less(names[0], o) {
        var i :| 0 <= i < |names[1..]| && names[1..][i] == o;
        assert names[i + 1] == o;
      }
    }
  }

  lemma {:induction false} NoRows(names: seq<Oid>, range: SearchRange)
    requires forall o :: o in names ==> !InRange(range, o)
    ensures RowsIn(names, range) == []
  {
    if names != [] {
      assert names[0] in names;
      NoRows(names[1..], range);
    }
  }

  /** GetNext answers with the head of the in-range rows. */
  lemma {:induction false} GetNextIsHead(m: Table, range: SearchRange)
    requires Increasing(m.names)
    ensures var rows := RowsIn(m.names, range);
            GetNext(m, range) == if rows == [] then VarBind(Id(range.start.components, 0), EndOfMibView)
                                 else VarBind(Id(rows[0], 0), Integer(1))
    decreases m.names
  {
    var names := m.names;
    if names != [] {
      if !FromStart(range, names[0]) {
        GetNextIsHead(Table(names[1..]), range);
      } else if !BeforeEnd(range, names[0]) {
        forall o | o in names ensures !InRange(range, o) {
          var i :| 0 <= i < |names| && names[i] == o;
          if i > 0 && InRange(range, o) {
            Transitive(names[0], o, range.end.components);
            assert false;
          }
        }
        NoRows(names, range);
      }
    }
  }

  /** Section 5.2 of RFC 2741: the least name in the range, or the range start and the end of the view. */
  lemma GetNextLeast(m: Table, range: SearchRange)
    requires Increasing(m.names)
    ensures var b, start, end := GetNext(m, range), range.start.components, range.end.components;
            b.name.includeFlag == 0 &&
            if exists o :: o in m.names && (Less(start, o) || (range.start.includeFlag == 1 && o == start)) &&
                           (end == [] || Less(o, end))
            then
              && b.data == Integer(1) && b.name.components in m.names
              && (Less(start, b.name.components) || (range.start.includeFlag == 1 && b.name.components == start))
              && (end == [] || Less(b.name.components, end))
              && forall o :: o in m.names && (Less(start, o) || (range.start.includeFlag == 1 && o == start)) ==>
                   o == b.name.components || Less(b.name.components, o)
            else
              b.data == EndOfMibView && b.name.components == start
  {
    var start, end := range.start.components, range.end.components;
    if o :| o in m.names && (Less(start, o) || (range.start.includeFlag == 1 && o == start)) &&
            (end == [] || Less(o, end))
    {
      FoundLeast(m, range, o);
    } else {
      NoneFound(m, range);
    }
  }

  /** With some row in range, GetNext finds the least name from the start on. */
  lemma FoundLeast(m: Table, range: SearchRange, o: Oid)
    requires Increasing(m.names) && o in m.names && InRange(range, o)
    ensures var b := GetNext(m, range);
            && b.name.includeFlag == 0 && b.data == Integer(1) && b.name.components in m.names
            && InRange(range, b.name.components)
            && forall x :: x in m.names && FromStart(range, x) ==> AtMost(b.name.components, x)
  {
    GetNextIsHead(m, range);
    var rows := RowsIn(m.names, range);
    assert o in rows && rows[0] in rows;
    forall x | x in m.names && FromStart(range, x) ensures AtMost(rows[0], x) {
      HeadIsLeast(m.names, range, x);
    }
  }

  lemma NoneFound(m: Table, range: SearchRange)
    requires Increasing(m.names) && forall o :: o in m.names ==> !InRange(range, o)
    ensures GetNext(m, range) == VarBind(Id(range.start.components, 0), EndOfMibView)
  {
    GetNextIsHead(m, range);
    NoRows(m.names, range);
  }

  /** No name at or past the start comes before the first in-range row. */
  lemma HeadIsLeast(names: seq<Oid>, range: SearchRange, o: Oid)
    requires Increasing(names) && RowsIn(names, range) != [] && o in names && FromStart(range, o)
    ensures AtMost(RowsIn(names, range)[0], o)
  {
    var rows := RowsIn(names, range);
    RowsInIncreasing(names, range);
    assert rows[0] in rows;
    Total(rows[0], o);
    if Less(o, rows[0]) {
      if BeforeEnd(range, rows[0]) && range.end.components != [] {
        Transitive(o, rows[0], range.end.components);
      }
      assert o in rows;
      var i :| 0 <= i < |rows| && rows[i] == o;
      if i == 0 {
        Irreflexive(o);
      } else {
        Transitive(o, rows[0], o);
        Irreflexive(o);
      }
    }
  }

  /** Get and an inclusive GetNext agree on every served row. */
  lemma GetAgreesWithInclusiveNext(m: Table, name: Oid)
    requires Increasing(m.names)
    ensures name in m.names <==>
              GetNext(m, SearchRange(Id(name, 1), Id([], 0))) == Get(m, Id(name, 0)) &&
              Get(m, Id(name, 0)).data == Integer(1)
  {
    var range := SearchRange(Id(name, 1), Id([], 0));
    GetNextLeast(m, range);
    if name in m.names {
      assert InRange(range, name);
      var least := GetNext(m, range).name.components;
      if least != name {
        Transitive(name, least, name);
        Irreflexive(name);
        assert false;
      }
    }
  }

  // ---------- walks ----------

  /** The range after GetNext's answer becomes its start. */
  function Advance(m: Table, range: SearchRange): SearchRange {
    range.(start := GetNext(m, range).name)
  }

  /** One GetNext step uses up exactly the head of the in-range rows. */
  lemma AdvanceRows(m: Table, range: SearchRange)
    requires Increasing(m.names)
    ensures var rows := RowsIn(m.names, range);
            RowsIn(m.names, Advance(m, range)) == if rows == [] then [] else rows[1..]
  {
    GetNextIsHead(m, range);
    var rows, next := RowsIn(m.names, range), Advance(m, range);
    RowsInIncreasing(m.names, range);
    RowsInIncreasing(m.names, next);
    if rows == [] {
      forall o | o in m.names ensures !InRange(next, o) {
        assert InRange(next, o) ==> InRange(range, o);
      }
      NoRows(m.names, next);
    } else {
      assert rows[0] in rows;
      HeadOnce(rows);
      forall o ensures o in RowsIn(m.names, next) <==> o in rows[1..] {
        if o in m.names && InRange(next, o) {
          if Less(range.start.components, rows[0]) {
            Transitive(range.start.components, rows[0], o);
          }
          Irreflexive(rows[0]);
          assert o in rows;
        }
        if o in rows[1..] {
          var i :| 0 <= i < |rows[1..]| && rows[1..][i] == o;
          assert rows[i + 1] == o;
        }
      }
      assert forall i, j :: 0 <= i < j < |rows[1..]| ==> rows[1..][i] == rows[i + 1] && rows[1..][j] == rows[j + 1];
      ListingUnique(RowsIn(m.names, next), rows[1..]);
    }
  }

  /** The range after `k` GetNext steps. */
  function Advanced(m: Table, range: SearchRange, k: nat): SearchRange {
    if k == 0 then range else Advance(m, Advanced(m, range, k - 1))
  }

  /** The closed form of the k-th answer of a walk (section 7.2.3.3 of RFC 2741). */
  function Nth(m: Table, range: SearchRange, k: nat): VarBind {
    var rows := RowsIn(m.names, range);
    if k < |rows| then VarBind(Id(rows[k], 0), Integer(1))
    else VarBind(Id(if rows == [] then range.start.components else rows[|rows| - 1], 0), EndOfMibView)
  }

  lemma {:induction false} AdvancedRows(m: Table, range: SearchRange, k: nat)
    requires Increasing(m.names)
    ensures ReachedAfter(m, range, k, Advanced(m, range, k))
  {
    if k > 0 {
      AdvancedRows(m, range, k - 1);
      AdvanceOnce(m, range, k - 1, Advanced(m, range, k - 1));
    }
  }

  /** `now` has the rows after the first `k` left, and starts at the k-th answer. */
  predicate ReachedAfter(m: Table, range: SearchRange, k: nat, now: SearchRange) {
    && RowsIn(m.names, now) == Rest(RowsIn(m.names, range), k)
    && now == if k == 0 then range else range.(start := Nth(m, range, k - 1).name)
  }

  lemma AdvanceOnce(m: Table, range: SearchRange, k: nat, now: SearchRange)
    requires Increasing(m.names) && ReachedAfter(m, range, k, now)
    ensures ReachedAfter(m, range, k + 1, Advance(m, now))
  {
    AdvanceRows(m, now);
    NextAnswer(m, range, k, now);
    RestShrinks(RowsIn(m.names, range), k);
  }

  lemma NextAnswer(m: Table, range: SearchRange, k: nat, now: SearchRange)
    requires Increasing(m.names) && ReachedAfter(m, range, k, now)
    ensures GetNext(m, now) == Nth(m, range, k)
  {
    GetNextIsHead(m, now);
    RestShrinks(RowsIn(m.names, range), k);
  }

  /** What is left after the first `k` rows. */
  function Rest(rows: seq<Oid>, k: nat): seq<Oid> {
    if k <= |rows| then rows[k..] else []
  }

  lemma RestShrinks(rows: seq<Oid>, k: nat)
    ensures Rest(rows, k) == [] <==> k >= |rows|
    ensures k < |rows| ==> Rest(rows, k)[0] == rows[k] && Rest(rows, k + 1) == Rest(rows, k)[1..]
    ensures k >= |rows| ==> Rest(rows, k + 1) == []
  {
  }

  /**
   * A walk yields every in-range row once, in table order, and then the end of the view for ever,
   * under the last name returned.
   */
  lemma WalkComplete(m: Table, range: SearchRange, k: nat)
    requires Increasing(m.names)
    ensures GetNext(m, Advanced(m, range, k)) == Nth(m, range, k)
  {
    AdvancedRows(m, range, k);
    NextAnswer(m, range, k, Advanced(m, range, k));
  }
}
