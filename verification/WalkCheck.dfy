/** packaging/ifstack-walk-check.awk: the independent validator of an ifStackStatus walk. */
module WalkCheck {
  import opened Links
  import opened Mib

  /** One line of a walk after field splitting. */
  datatype Line = Unparsed | Instance(row: Row, active: bool)

  /** Instance indexes in RFC order: by higher, then by lower. */
  predicate Before(a: Row, b: Row) {
    a.higher < b.higher || (a.higher == b.higher && a.lower < b.lower)
  }

  ghost predicate InOrder(rows: seq<Row>) {
    forall i, j :: 0 <= i < j < |rows| ==> Before(rows[i], rows[j])
  }

  /** The walk of the table of some stack on these interfaces. */
  ghost predicate ServedWalk(interfaces: set<nat>, rows: seq<Row>) {
    exists t: Topology :: t.interfaces == interfaces && Stack(t) && Serves(t, rows)
  }

  /** An irreflexive relation on the interfaces. */
  ghost predicate Stack(t: Topology) {
    forall r :: r in t.relationships ==> r.higher in t.interfaces && r.lower in t.interfaces && r.higher != r.lower
  }

  /** `rows` lists the table of `t` in order. */
  ghost predicate Serves(t: Topology, rows: seq<Row>) {
    InOrder(rows) && forall row :: row in rows <==> IsRow(t, row)
  }

  // ---------- what the script's rules say of the rows read so far ----------

  /** The per-row rule: no 0.0, no self relationship, no unknown interface. */
  predicate Allowed(expected: set<nat>, row: Row) {
    if row.higher == 0 && row.lower == 0 then false
    else if row.higher != 0 && row.lower != 0 then
      row.higher != row.lower && row.higher in expected && row.lower in expected
    else if row.higher == 0 then row.lower in expected
    else row.higher in expected
  }

  predicate Real(row: Row) {
    row.higher != 0 && row.lower != 0
  }

  /** What the script remembers of the instances it has read. */
  datatype Arrays = Arrays(runsOver: set<nat>, coveredBy: set<nat>, zeroHigher: set<nat>, zeroLower: set<nat>)
  {
    function With(row: Row): Arrays {
      if Real(row) then this.(runsOver := runsOver + {row.higher}, coveredBy := coveredBy + {row.lower})
      else if row.lower != 0 then this.(zeroHigher := zeroHigher + {row.lower})
      else if row.higher != 0 then this.(zeroLower := zeroLower + {row.higher})
      else this
    }

    /** The END rule: on each side, a zero row exactly when there is no real row. */
    predicate SidesComplete(i: nat) {
      && (i in coveredBy <==> i !in zeroHigher)
      && (i in runsOver <==> i !in zeroLower)
    }
  }

  function ArraysOf(read: seq<Row>): Arrays {
    if read == [] then Arrays({}, {}, {}, {})
    else ArraysOf(read[..|read| - 1]).With(read[|read| - 1])
  }

  predicate Plain(line: Line) {
    line.Instance? && line.active
  }

  function RowsRead(lines: seq<Line>): seq<Row> {
    if lines == [] then []
    else
      var last := lines[|lines| - 1];
      var before := RowsRead(lines[..|lines| - 1]);
      if last.Instance? then before + [last.row] else before
  }

  /** No line breaks a rule, judged against the lines before it. */
  ghost predicate Clean(expected: set<nat>, lines: seq<Line>) {
    lines == [] ||
    var before, line := lines[..|lines| - 1], lines[|lines| - 1];
    && Clean(expected, before) && Plain(line) && Allowed(expected, line.row)
    && (RowsRead(before) == [] || Before(RowsRead(before)[|RowsRead(before)| - 1], line.row))
  }

  lemma OneMoreLine(expected: set<nat>, before: seq<Line>, line: Line)
    ensures var read := RowsRead(before);
            && RowsRead(before + [line]) == (if line.Instance? then read + [line.row] else read)
            && (Clean(expected, before + [line]) <==>
                  && Clean(expected, before) && Plain(line) && Allowed(expected, line.row)
                  && (|read| > 0 ==> Before(read[|read| - 1], line.row)))
  {
    assert (before + [line])[..|before|] == before;
  }

  lemma {:induction false} CleanMeans(expected: set<nat>, lines: seq<Line>)
    ensures Clean(expected, lines) <==>
              AllPlain(lines) && AllAllowed(expected, RowsRead(lines)) && InOrder(RowsRead(lines))
  {
    if lines != [] {
      var before, line := lines[..|lines| - 1], lines[|lines| - 1];
      CleanMeans(expected, before);
      OneMorePlain(before, line);
      assert lines == before + [line];
      if line.Instance? {
        OneMoreInOrder(RowsRead(before), line.row);
        OneMoreAllowed(expected, RowsRead(before), line.row);
      }
    }
  }

  ghost predicate AllPlain(lines: seq<Line>) {
    forall line :: line in lines ==> Plain(line)
  }

  ghost predicate AllAllowed(expected: set<nat>, rows: seq<Row>) {
    forall row :: row in rows ==> Allowed(expected, row)
  }

  lemma OneMorePlain(before: seq<Line>, line: Line)
    ensures AllPlain(before + [line]) <==> AllPlain(before) && Plain(line)
  {
    assert line in before + [line];
    assert forall x :: x in before ==> x in before + [line];
  }

  lemma OneMoreAllowed(expected: set<nat>, rows: seq<Row>, row: Row)
    ensures AllAllowed(expected, rows + [row]) <==> AllAllowed(expected, rows) && Allowed(expected, row)
  {
    assert row in rows + [row];
    assert forall x :: x in rows ==> x in rows + [row];
  }

  lemma OneMoreInOrder(read: seq<Row>, row: Row)
    ensures InOrder(read + [row]) <==> InOrder(read) && (read == [] || Before(read[|read| - 1], row))
  {
    var more := read + [row];
    if InOrder(more) {
      forall i, j | 0 <= i < j < |read| ensures Before(read[i], read[j]) {
        assert more[i] == read[i] && more[j] == read[j];
      }
      assert read != [] ==> Before(more[|read| - 1], more[|read|]);
    }
  }

  lemma {:induction false} ArraysMean(read: seq<Row>, i: nat)
    ensures var arrays := ArraysOf(read);
            && (i in arrays.runsOver <==> exists row :: row in read && Real(row) && row.higher == i)
            && (i in arrays.coveredBy <==> exists row :: row in read && Real(row) && row.lower == i)
            && (i in arrays.zeroHigher <==> i != 0 && Row(0, i) in read)
            && (i in arrays.zeroLower <==> i != 0 && Row(i, 0) in read)
  {
    if read != [] {
      var before, row := read[..|read| - 1], read[|read| - 1];
      ArraysMean(before, i);
      assert forall x :: x in read <==> x in before || x == row;
    }
  }

  /** The script's variables while it reads lines. */
  datatype Notes = Notes(arrays: Arrays, previous: Row, rows: nat, invalid: bool)

  /** The main rule of the script, on values. */
  function Noted(expected: set<nat>, notes: Notes, line: Line): Notes {
    if line.Unparsed? then notes.(invalid := true)
    else
      var broken := !line.active || !Allowed(expected, line.row) ||
        (notes.rows > 0 && !Before(notes.previous, line.row));
      Notes(notes.arrays.With(line.row), line.row, notes.rows + 1, notes.invalid || broken)
  }

  /** The variables say what has been read, and `invalid` says whether a rule has been broken. */
  ghost predicate Tracks(expected: set<nat>, sound: bool, lines: seq<Line>, notes: Notes) {
    var read := RowsRead(lines);
    && notes.rows == |read|
    && (read != [] ==> notes.previous == read[|read| - 1])
    && notes.arrays == ArraysOf(read)
    && (notes.invalid <==> !(sound && Clean(expected, lines)))
  }

  lemma TracksLine(expected: set<nat>, sound: bool, lines: seq<Line>, notes: Notes, line: Line)
    requires Tracks(expected, sound, lines, notes)
    ensures Tracks(expected, sound, lines + [line], Noted(expected, notes, line))
  {
    OneMoreLine(expected, lines, line);
    if line.Instance? {
      var read := RowsRead(lines) + [line.row];
      assert read[..|read| - 1] == RowsRead(lines);
      assert ArraysOf(read) == ArraysOf(RowsRead(lines)).With(line.row);
    }
  }

  class Validator {
    var expected: set<nat>
    var runsOver: set<nat>
    var coveredBy: set<nat>
    var zeroHigher: set<nat>
    var zeroLower: set<nat>
    var previousHigher: nat
    var previousLower: nat
    var rows: nat
    var invalid: bool

    ghost function View(): Notes
      reads this
    {
      Notes(Arrays(runsOver, coveredBy, zeroHigher, zeroLower), Row(previousHigher, previousLower), rows, invalid)
    }

    /** BEGIN: the interface indexes the container really has, all positive and at least one. */
    constructor (indexes: seq<nat>)
      ensures View() == Notes(Arrays({}, {}, {}, {}), Row(0, 0), 0, indexes == [] || 0 in indexes)
      ensures expected == Expected(indexes)
    {
      var known: set<nat> := {};
      var rejected := false;
      for k := 0 to |indexes|
        invariant known == set i | i in indexes[..k] && i != 0
        invariant rejected <==> 0 in indexes[..k]
      {
        assert indexes[..k + 1] == indexes[..k] + [indexes[k]];
        if indexes[k] == 0 {
          rejected := true;
        } else {
          known := known + {indexes[k]};
        }
      }
      assert indexes[..|indexes|] == indexes;
      assert indexes != [] && indexes[0] != 0 ==> indexes[0] in known;
      if known == {} {
        rejected := true;
      }
      expected, invalid := known, rejected;
      runsOver, coveredBy, zeroHigher, zeroLower := {}, {}, {}, {};
      previousHigher, previousLower, rows := 0, 0, 0;
    }

    /** The main rule, applied to one line. */
    method ReadLine(line: Line)
      modifies `runsOver, `coveredBy, `zeroHigher, `zeroLower, `previousHigher, `previousLower, `rows, `invalid
      ensures View() == Noted(expected, old(View()), line)
    {
      if line.Unparsed? {
        invalid := true;
        return;
      }
      var rejected := !line.active;
      var higher, lower := line.row.higher, line.row.lower;
      if higher == 0 && lower == 0 {
        rejected := true;
      } else if higher != 0 && lower != 0 {
        rejected := rejected || higher == lower;
        rejected := rejected || higher !in expected;
        rejected := rejected || lower !in expected;
        runsOver := runsOver + {higher};
        coveredBy := coveredBy + {lower};
      } else if higher == 0 {
        rejected := rejected || lower !in expected;
        zeroHigher := zeroHigher + {lower};
      } else {
        rejected := rejected || higher !in expected;
        zeroLower := zeroLower + {higher};
      }
      rejected := rejected || (rows > 0 &&
        (higher < previousHigher || (higher == previousHigher && lower <= previousLower)));
      invalid := invalid || rejected;
      previousHigher := higher;
      previousLower := lower;
      rows := rows + 1;
    }

    /** END: whether the walk is accepted. */
    method Finish() returns (accepted: bool)
      modifies `invalid
      ensures accepted <==> !old(invalid) && rows > 0 &&
                            forall i :: i in expected ==> old(View()).arrays.SidesComplete(i)
    {
      if rows == 0 {
        invalid := true;
      }
      var left := expected;
      while left != {}
        invariant left <= expected
        invariant invalid <==> !(!old(invalid) && rows > 0 &&
                                 forall i :: i in expected - left ==> View().arrays.SidesComplete(i))
      {
        var i :| i in left;
        if i in coveredBy {
          if i in zeroHigher {
            invalid := true;
          }
        } else if i !in zeroHigher {
          invalid := true;
        }
        if i in runsOver {
          if i in zeroLower {
            invalid := true;
          }
        } else if i !in zeroLower {
          invalid := true;
        }
        assert i in expected - (left - {i});
        left := left - {i};
      }
      assert expected - left == expected;
      return !invalid;
    }
  }

  // ---------- the checker accepts exactly the generator's walks ----------

  /** The main rules and END raise no objection. */
  ghost predicate Unobjectionable(expected: set<nat>, lines: seq<Line>) {
    && Clean(expected, lines)
    && RowsRead(lines) != []
    && forall i :: i in expected ==> ArraysOf(RowsRead(lines)).SidesComplete(i)
  }

  /** The interfaces BEGIN expects. */
  function Expected(indexes: seq<nat>): set<nat> {
    set i | i in indexes && i != 0
  }

  /** The whole script, over the kernel's interface indexes and the lines of a walk. */
  method Check(indexes: seq<nat>, lines: seq<Line>) returns (accepted: bool)
    ensures accepted <==> indexes != [] && 0 !in indexes && Unobjectionable(Expected(indexes), lines)
    ensures accepted <==>
            && indexes != [] && 0 !in indexes
            && (forall line :: line in lines ==> line.Instance? && line.active)
            && ServedWalk((set i | i in indexes), RowsRead(lines))
    ensures accepted ==>
            |RowsRead(lines)| == |lines| && forall i :: 0 <= i < |lines| ==> RowsRead(lines)[i] == lines[i].row
  {
    var validator := new Validator(indexes);
    ghost var sound := indexes != [] && 0 !in indexes;
    for k := 0 to |lines|
      invariant validator.expected == Expected(indexes)
      invariant Tracks(Expected(indexes), sound, lines[..k], validator.View())
    {
      TracksLine(Expected(indexes), sound, lines[..k], validator.View(), lines[k]);
      validator.ReadLine(lines[k]);
      assert lines[..k + 1] == lines[..k] + [lines[k]];
    }
    assert lines[..|lines|] == lines;
    accepted := validator.Finish();
    CheckMeans(indexes, lines);
  }

  /** A row relates two different expected interfaces, or is a zero row of one; 0.0 never passes. */
  predicate RowPasses(indexes: seq<nat>, row: Row) {
    && row != Row(0, 0)
    && (row.higher == 0 || row.higher in indexes) && (row.lower == 0 || row.lower in indexes)
    && row.higher != row.lower
  }

  /** Every rule of the script, spelled out over the lines: shape, rows, order, and each interface's two sides. */
  lemma ScriptRules(indexes: seq<nat>, lines: seq<Line>)
    requires 0 !in indexes
    ensures var rows := RowsRead(lines);
            Unobjectionable(Expected(indexes), lines) <==>
              && (forall line :: line in lines ==> line.Instance? && line.active)
              && rows != []
              && (forall row :: row in rows ==> RowPasses(indexes, row))
              && (forall i, j :: 0 <= i < j < |rows| ==>
                    rows[i].higher < rows[j].higher ||
                    (rows[i].higher == rows[j].higher && rows[i].lower < rows[j].lower))
              && (forall i :: i in indexes ==>
                    && (Row(0, i) in rows <==> !exists row :: row in rows && row.higher != 0 && row.lower == i)
                    && (Row(i, 0) in rows <==> !exists row :: row in rows && row.lower != 0 && row.higher == i))
  {
    var rows := RowsRead(lines);
    CleanMeans(Expected(indexes), lines);
    forall row | row in rows ensures Allowed(Expected(indexes), row) <==> RowPasses(indexes, row) {
    }
    forall i | i in indexes
      ensures ArraysOf(rows).SidesComplete(i) <==>
              && (Row(0, i) in rows <==> !exists row :: row in rows && row.higher != 0 && row.lower == i)
              && (Row(i, 0) in rows <==> !exists row :: row in rows && row.lower != 0 && row.higher == i)
    {
      ArraysMean(rows, i);
    }
  }

  lemma CheckMeans(indexes: seq<nat>, lines: seq<Line>)
    ensures indexes != [] && 0 !in indexes && Unobjectionable(Expected(indexes), lines) <==>
            && indexes != [] && 0 !in indexes
            && (forall line :: line in lines ==> line.Instance? && line.active)
            && ServedWalk((set i | i in indexes), RowsRead(lines))
    ensures (forall line :: line in lines ==> line.Instance?) ==>
            |RowsRead(lines)| == |lines| && forall i :: 0 <= i < |lines| ==> RowsRead(lines)[i] == lines[i].row
  {
    if indexes != [] && 0 !in indexes {
      CheckerMatchesGenerator(indexes, lines);
      assert Expected(indexes) == set i | i in indexes;
    }
    if forall line :: line in lines ==> line.Instance? {
      EveryLineRead(lines);
    }
  }

  /** When every line is an instance, the rows read are the lines' in order. */
  lemma {:induction false} EveryLineRead(lines: seq<Line>)
    requires forall line :: line in lines ==> line.Instance?
    ensures |RowsRead(lines)| == |lines| && forall i :: 0 <= i < |lines| ==> RowsRead(lines)[i] == lines[i].row
  {
    if lines != [] {
      var front := lines[..|lines| - 1];
      assert forall i :: 0 <= i < |front| ==> front[i] == lines[i];
      EveryLineRead(front);
    }
  }

  /** The script accepts exactly the walks of tables of stacks on the expected interfaces. */
  lemma CheckerMatchesGenerator(indexes: seq<nat>, lines: seq<Line>)
    requires indexes != [] && 0 !in indexes
    ensures Unobjectionable(Expected(indexes), lines)
       <==> (forall line :: line in lines ==> line.Instance? && line.active)
            && ServedWalk(Expected(indexes), RowsRead(lines))
  {
    assert indexes[0] in Expected(indexes);
    CleanMeans(Expected(indexes), lines);
    AcceptedIsServed(Expected(indexes), RowsRead(lines));
  }

  /** The script's rules hold of a list of rows. */
  ghost predicate Passes(expected: set<nat>, read: seq<Row>) {
    && (forall row :: row in read ==> Allowed(expected, row))
    && InOrder(read)
    && read != []
    && forall i :: i in expected ==> ArraysOf(read).SidesComplete(i)
  }

  lemma AcceptedIsServed(expected: set<nat>, read: seq<Row>)
    requires expected != {} && 0 !in expected
    ensures Passes(expected, read) <==> ServedWalk(expected, read)
  {
    if Passes(expected, read) {
      PassingIsServed(expected, read);
    }
    if t: Topology :| t.interfaces == expected && Stack(t) && Serves(t, read) {
      ServedPasses(t, read);
    }
  }

  /** The stack a passing walk describes. */
  ghost function StackOf(expected: set<nat>, read: seq<Row>): Topology {
    Topology(expected, set row | row in read && Real(row) :: Relationship(row.higher, row.lower))
  }

  lemma PassingIsServed(expected: set<nat>, read: seq<Row>)
    requires 0 !in expected && Passes(expected, read)
    ensures Stack(StackOf(expected, read)) && Serves(StackOf(expected, read), read)
  {
    var t := StackOf(expected, read);
    forall i
      ensures Covered(t, i) <==> i in ArraysOf(read).coveredBy
      ensures OnTop(t, i) <==> i in ArraysOf(read).runsOver
    {
      ArraysMean(read, i);
      if row :| row in read && Real(row) && row.lower == i {
        assert Relationship(row.higher, row.lower) in t.relationships;
      }
      if row :| row in read && Real(row) && row.higher == i {
        assert Relationship(row.higher, row.lower) in t.relationships;
      }
    }
    forall row ensures row in read <==> IsRow(t, row) {
      ArraysMean(read, row.lower);
      ArraysMean(read, row.higher);
      if row in read {
        assert Allowed(expected, row);
        assert row == Row(row.higher, row.lower);
        assert row.higher == 0 ==> ArraysOf(read).SidesComplete(row.lower);
        assert row.lower == 0 ==> ArraysOf(read).SidesComplete(row.higher);
      } else {
        assert row == Row(row.higher, row.lower);
        if row.higher == 0 && row.lower in expected {
          assert ArraysOf(read).SidesComplete(row.lower);
        }
        if row.lower == 0 && row.higher in expected {
          assert ArraysOf(read).SidesComplete(row.higher);
        }
      }
    }
  }

  lemma ServedPasses(t: Topology, read: seq<Row>)
    requires 0 !in t.interfaces && t.interfaces != {} && Stack(t) && Serves(t, read)
    ensures Passes(t.interfaces, read)
  {
    forall row | row in read ensures Allowed(t.interfaces, row) {
      assert IsRow(t, row);
    }
    forall i | i in t.interfaces ensures ArraysOf(read).SidesComplete(i) {
      SidesOfTable(t, read, i);
    }
    var i :| i in t.interfaces;
    assert ArraysOf(read).SidesComplete(i);
  }

  lemma SidesOfTable(t: Topology, read: seq<Row>, i: nat)
    requires 0 !in t.interfaces && Stack(t) && Serves(t, read) && i in t.interfaces
    ensures ArraysOf(read).SidesComplete(i)
    ensures read != []
  {
    ArraysMean(read, i);
    assert Covered(t, i) <==> i in ArraysOf(read).coveredBy by {
      if r :| r in t.relationships && r.lower == i {
        assert r == Relationship(r.higher, r.lower);
        assert IsRow(t, Row(r.higher, r.lower));
      }
    }
    assert OnTop(t, i) <==> i in ArraysOf(read).runsOver by {
      if r :| r in t.relationships && r.higher == i {
        assert r == Relationship(r.higher, r.lower);
        assert IsRow(t, Row(r.higher, r.lower));
      }
    }
    assert i in ArraysOf(read).zeroHigher <==> !Covered(t, i) by {
      assert IsRow(t, Row(0, i)) <==> !Covered(t, i);
    }
    assert i in ArraysOf(read).zeroLower <==> !OnTop(t, i) by {
      assert IsRow(t, Row(i, 0)) <==> !OnTop(t, i);
    }
  }
}
