/** Object identifiers in the lexicographic order every AgentX range refers to. */
module Oids {
  type Oid = seq<nat>

  predicate Less(a: Oid, b: Oid) {
    if b == [] then false
    else if a == [] then true
    else if a[0] != b[0] then a[0] < b[0]
    else Less(a[1..], b[1..])
  }

  predicate AtMost(a: Oid, b: Oid) {
    a == b || Less(a, b)
  }

  /** The first component that differs decides, and a proper prefix comes first. */
  predicate FirstDifference(a: Oid, b: Oid, i: nat) {
    && i <= |a| && i < |b| && a[..i] == b[..i]
    && (i == |a| || a[i] < b[i])
  }

  lemma {:induction false} LessMeans(a: Oid, b: Oid)
    ensures Less(a, b) <==> exists i: nat :: FirstDifference(a, b, i)
  {
    if b != [] && a != [] && a[0] == b[0] {
      LessMeans(a[1..], b[1..]);
      if i: nat :| FirstDifference(a[1..], b[1..], i) {
        assert a[..i + 1] == [a[0]] + a[1..][..i] && b[..i + 1] == [b[0]] + b[1..][..i];
        assert FirstDifference(a, b, i + 1);
      }
      if i: nat :| FirstDifference(a, b, i) {
        assert i > 0;
        assert a[1..][..i - 1] == a[..i][1..] && b[1..][..i - 1] == b[..i][1..];
        assert FirstDifference(a[1..], b[1..], i - 1);
      }
    } else if b != [] {
      assert a == [] || a[0] < b[0] ==> FirstDifference(a, b, 0);
      if i: nat :| FirstDifference(a, b, i) {
        assert i > 0 ==> a[..i][0] == b[..i][0];
      }
    }
  }

  lemma {:induction false} Irreflexive(a: Oid)
    ensures !Less(a, a)
  {
    if a != [] {
      Irreflexive(a[1..]);
    }
  }

  lemma {:induction false} Transitive(a: Oid, b: Oid, c: Oid)
    requires Less(a, b) && Less(b, c)
    ensures Less(a, c)
  {
    if a != [] && a[0] == b[0] == c[0] {
      Transitive(a[1..], b[1..], c[1..]);
    }
  }

  lemma {:induction false} Total(a: Oid, b: Oid)
    ensures a == b || Less(a, b) || Less(b, a)
  {
    if a != [] && b != [] && a[0] == b[0] {
      Total(a[1..], b[1..]);
      assert a == [a[0]] + a[1..] && b == [b[0]] + b[1..];
    }
  }

  lemma {:induction false} CommonPrefix(p: Oid, a: Oid, b: Oid)
    ensures Less(p + a, p + b) <==> Less(a, b)
  {
    if p == [] {
      assert p + a == a && p + b == b;
    } else {
      assert (p + a)[1..] == p[1..] + a && (p + b)[1..] == p[1..] + b;
      CommonPrefix(p[1..], a, b);
    }
  }

  /** The sibling that follows `p`: its last component one higher. */
  function Following(p: Oid): Oid
    requires p != []
  {
    p[|p| - 1 := p[|p| - 1] + 1]
  }

  /** Between an identifier and its following sibling lies exactly its subtree. */
  lemma {:induction false} SubtreeBand(p: Oid, o: Oid)
    requires p != []
    ensures AtMost(p, o) && Less(o, Following(p)) <==> p <= o
  {
    if o != [] && o[0] == p[0] {
      if |p| == 1 {
        assert p <= o && p[1..] == [];
        assert o == p || Less(p, o) by {
          assert o[1..] == [] ==> o == p;
        }
      } else {
        SubtreeBand(p[1..], o[1..]);
        assert Following(p)[1..] == Following(p[1..]);
        assert p <= o <==> p[1..] <= o[1..];
        assert p == o <==> p[1..] == o[1..] by {
          assert p == [p[0]] + p[1..] && o == [o[0]] + o[1..];
        }
      }
    } else if o != [] && |p| == 1 && o[0] == p[0] + 1 {
      assert Following(p)[1..] == [];
    }
  }

  // ---------- strictly increasing listings: what a BTreeMap's keys read as ----------

  ghost predicate Increasing(names: seq<Oid>) {
    forall i, j :: 0 <= i < j < |names| ==> Less(names[i], names[j])
  }

  /** Insert a key; a key already present is replaced by itself. */
  function Insert(names: seq<Oid>, o: Oid): (r: seq<Oid>)
    ensures forall x :: x in r <==> x == o || x in names
    ensures Increasing(names) ==> Increasing(r)
  {
    if names == [] then [o]
    else if names[0] == o then names
    else if Less(o, names[0]) then
      HeadBelow(names, o);
      [o] + names
    else
      Total(o, names[0]);
      var rest := Insert(names[1..], o);
      assert names == [names[0]] + names[1..];
      HeadStays(names[0], names[1..], rest, o);
      [names[0]] + rest
  }

  lemma HeadBelow(names: seq<Oid>, o: Oid)
    requires names != [] && Less(o, names[0])
    ensures Increasing(names) ==> forall i :: 0 <= i < |names| ==> Less(o, names[i])
  {
    if Increasing(names) {
      forall i | 0 <= i < |names| ensures Less(o, names[i]) {
        if i > 0 {
          Transitive(o, names[0], names[i]);
        }
      }
    }
  }

  lemma HeadStays(head: Oid, tail: seq<Oid>, grown: seq<Oid>, o: Oid)
    requires Less(head, o) && forall x :: x in grown ==> x == o || x in tail
    requires Increasing(tail) ==> Increasing(grown)
    ensures Increasing([head] + tail) ==> Increasing([head] + grown)
  {
    if Increasing([head] + tail) {
      var all := [head] + tail;
      forall i, j | 0 <= i < j < |tail| ensures Less(tail[i], tail[j]) {
        assert all[i + 1] == tail[i] && all[j + 1] == tail[j];
      }
      forall x | x in grown ensures Less(head, x) {
        if x != o {
          var i :| 0 <= i < |tail| && tail[i] == x;
          assert all[0] == head && all[i + 1] == x;
        }
      }
    }
  }

  /** The listing of a finite set of identifiers. */
  ghost function Listing(s: set<Oid>): (r: seq<Oid>)
    ensures Increasing(r)
    ensures forall x :: x in r <==> x in s
  {
    if s == {} then [] else var x :| x in s; Insert(Listing(s - {x}), x)
  }

  /** A set has one increasing listing. */
  lemma {:induction false} ListingUnique(a: seq<Oid>, b: seq<Oid>)
    requires Increasing(a) && Increasing(b)
    requires forall x :: x in a <==> x in b
    ensures a == b
  {
    assert (a != [] ==> a[0] in a) && (b != [] ==> b[0] in b);
    if a != [] && b != [] {
      assert a[0] in b && b[0] in a;
      if a[0] != b[0] {
        var i :| 0 <= i < |b| && b[i] == a[0];
        var j :| 0 <= j < |a| && a[j] == b[0];
        Transitive(a[0], b[0], a[0]);
        Irreflexive(a[0]);
        assert false;
      }
      HeadOnce(a);
      HeadOnce(b);
      assert a == [a[0]] + a[1..] && b == [b[0]] + b[1..];
      ListingUnique(a[1..], b[1..]);
    }
  }

  lemma HeadOnce(names: seq<Oid>)
    requires names != [] && Increasing(names)
    ensures forall x :: x in names[1..] <==> x in names && x != names[0]
  {
    forall x | x in names[1..] ensures x in names && x != names[0] {
      var i :| 0 <= i < |names[1..]| && names[1..][i] == x;
      assert Less(names[0], names[i + 1]);
      Irreflexive(x);
    }
  }
}
