/** Facts about sequences taken up to reordering. */
module Sequences {

  /** Two sequences hold the same elements equally often. */
  ghost predicate Permuted<T>(a: seq<T>, b: seq<T>) {
    multiset(a) == multiset(b)
  }

  /** Where an element sits twice, the multiset counts it twice, and conversely. */
  lemma {:induction false} CountsTwice<T>(s: seq<T>, x: T)
    ensures multiset(s)[x] >= 2 <==> exists i, j :: 0 <= i < j < |s| && s[i] == x && s[j] == x
  {
    if s == [] {
    } else {
      var front, last := s[..|s| - 1], s[|s| - 1];
      assert s == front + [last];
      CountsTwice(front, x);
      if multiset(s)[x] >= 2 && multiset(front)[x] < 2 {
        assert x in multiset(front) && last == x;
        var i :| 0 <= i < |front| && front[i] == x;
        assert s[i] == x && s[|s| - 1] == x;
      }
      if i, j :| 0 <= i < j < |s| && s[i] == x && s[j] == x {
        if j < |front| {
          assert front[i] == x && front[j] == x;
        } else {
          assert front[i] == x;
          assert x in multiset(front);
        }
      }
      if i, j :| 0 <= i < j < |front| && front[i] == x && front[j] == x {
        assert s[i] == x && s[j] == x;
      }
    }
  }

  /** Everything `f` gives for each element of `s`, in order. */
  function FlatMap<A, B>(f: A -> seq<B>, s: seq<A>): seq<B> {
    if s == [] then [] else FlatMap(f, s[..|s| - 1]) + f(s[|s| - 1])
  }

  lemma {:induction false} FlatMapConcat<A, B>(f: A -> seq<B>, s: seq<A>, t: seq<A>)
    ensures FlatMap(f, s + t) == FlatMap(f, s) + FlatMap(f, t)
  {
    if t == [] {
      assert s + t == s;
    } else {
      assert (s + t)[..|s + t| - 1] == s + t[..|t| - 1];
      FlatMapConcat(f, s, t[..|t| - 1]);
    }
  }

  lemma FlatMapAppend<A, B>(f: A -> seq<B>, s: seq<A>, x: A)
    ensures FlatMap(f, s + [x]) == FlatMap(f, s) + f(x)
  {
    assert (s + [x])[..|s|] == s;
  }

  /** When `f` gives one thing for each element, the things stand in the order of the elements. */
  lemma {:induction false} FlatMapSingles<A, B>(f: A -> seq<B>, s: seq<A>)
    requires forall i :: 0 <= i < |s| ==> |f(s[i])| == 1
    ensures |FlatMap(f, s)| == |s| && forall i :: 0 <= i < |s| ==> f(s[i]) == [FlatMap(f, s)[i]]
  {
    if s != [] {
      FlatMapSingles(f, s[..|s| - 1]);
    }
  }

  /** What is gathered comes from some element, and everything of every element is gathered. */
  lemma {:induction false} FlatMapMembers<A, B>(f: A -> seq<B>, s: seq<A>, y: B)
    ensures y in FlatMap(f, s) <==> exists x :: x in s && y in f(x)
  {
    if s != [] {
      var front, last := s[..|s| - 1], s[|s| - 1];
      FlatMapMembers(f, front, y);
      assert forall x :: x in s <==> x in front || x == last;
    }
  }

  /** Something is gathered exactly when some element gives something. */
  lemma {:induction false} FlatMapSome<A, B>(f: A -> seq<B>, s: seq<A>)
    ensures FlatMap(f, s) != [] <==> exists i :: 0 <= i < |s| && f(s[i]) != []
  {
    if s != [] {
      var front, last := s[..|s| - 1], |s| - 1;
      FlatMapSome(f, front);
      assert forall i :: 0 <= i < last ==> front[i] == s[i];
      assert FlatMap(f, s) == FlatMap(f, front) + f(s[last]);
    }
  }

  /** Two elements both give something. */
  predicate GivesTwice<A, B>(f: A -> seq<B>, s: seq<A>) {
    exists i, j :: 0 <= i < j < |s| && f(s[i]) != [] && f(s[j]) != []
  }

  lemma GivesTwiceMore<A, B>(f: A -> seq<B>, front: seq<A>, x: A)
    ensures GivesTwice(f, front + [x]) <==>
            GivesTwice(f, front) || (f(x) != [] && exists i :: 0 <= i < |front| && f(front[i]) != [])
  {
    var s := front + [x];
    assert forall i :: 0 <= i < |front| ==> front[i] == s[i];
    if i :| 0 <= i < |front| && f(front[i]) != [] {
      assert f(s[i]) != [] && s[|front|] == x;
    }
    if i, j :| 0 <= i < j < |front| && f(front[i]) != [] && f(front[j]) != [] {
      assert f(s[i]) != [] && f(s[j]) != [];
    }
    if i, j :| 0 <= i < j < |s| && f(s[i]) != [] && f(s[j]) != [] {
      assert f(front[i]) != [];
      assert j < |front| ==> f(front[j]) != [];
    }
  }

  /** Two things are gathered exactly when two elements give one each, if none gives more. */
  lemma {:induction false} FlatMapTwice<A, B>(f: A -> seq<B>, s: seq<A>)
    requires forall x :: |f(x)| <= 1
    ensures |FlatMap(f, s)| >= 2 <==> GivesTwice(f, s)
  {
    if s != [] {
      var front, x := s[..|s| - 1], s[|s| - 1];
      FlatMapTwice(f, front);
      FlatMapSome(f, front);
      GivesTwiceMore(f, front, x);
      assert s == front + [x] && FlatMap(f, s) == FlatMap(f, front) + f(x);
    }
  }

  lemma FlatMapOne<A, B>(f: A -> seq<B>, x: A)
    ensures FlatMap(f, [x]) == f(x)
  {
    assert [x][..0] == [] && FlatMap(f, []) + f(x) == f(x);
  }

  lemma FlatMapSplit<A, B>(f: A -> seq<B>, before: seq<A>, x: A, after: seq<A>)
    ensures FlatMap(f, before + [x] + after) == FlatMap(f, before) + f(x) + FlatMap(f, after)
  {
    FlatMapAppend(f, before, x);
    FlatMapConcat(f, before + [x], after);
  }

  /** One element's part can be taken out of what is gathered. */
  lemma FlatMapWithout<A, B>(f: A -> seq<B>, before: seq<A>, x: A, after: seq<A>)
    ensures multiset(FlatMap(f, before + [x] + after)) == multiset(FlatMap(f, before + after)) + multiset(f(x))
  {
    FlatMapSplit(f, before, x, after);
    FlatMapConcat(f, before, after);
    MiddleOut(FlatMap(f, before), f(x), FlatMap(f, after));
  }

  lemma MiddleOut<B>(before: seq<B>, middle: seq<B>, after: seq<B>)
    ensures multiset(before + middle + after) == multiset(before + after) + multiset(middle)
  {
  }

  /** Taking the same element out of two permuted sequences leaves permuted sequences. */
  lemma PermutedWithout<A>(front: seq<A>, x: A, before: seq<A>, after: seq<A>)
    requires Permuted(front + [x], before + [x] + after)
    ensures Permuted(front, before + after)
  {
    MiddleOut(front, [x], []);
    MiddleOut(before, [x], after);
    assert front + [x] + [] == front + [x] && front + [] == front;
    assert multiset(front) == multiset(front + [x]) - multiset([x]);
    assert multiset(before + after) == multiset(before + [x] + after) - multiset([x]);
  }

  /** What is gathered from a permuted sequence is gathered equally often. */
  lemma {:induction false} FlatMapPermuted<A, B>(f: A -> seq<B>, a: seq<A>, b: seq<A>)
    requires Permuted(a, b)
    ensures Permuted(FlatMap(f, a), FlatMap(f, b))
    decreases |a|, 0
  {
    assert |a| == |multiset(a)| == |multiset(b)| == |b|;
    if a != [] {
      var front, x := a[..|a| - 1], a[|a| - 1];
      assert x in multiset(a) && x in multiset(b);
      var i :| 0 <= i < |b| && b[i] == x;
      assert a == front + [x] && b == b[..i] + [x] + b[i + 1..];
      FlatMapPermutedStep(f, front, x, b[..i], b[i + 1..]);
    }
  }

  lemma {:induction false} FlatMapPermutedStep<A, B>(f: A -> seq<B>, front: seq<A>, x: A, before: seq<A>, after: seq<A>)
    requires Permuted(front + [x], before + [x] + after)
    ensures Permuted(FlatMap(f, front + [x]), FlatMap(f, before + [x] + after))
    decreases |front|, 1
  {
    PermutedWithout(front, x, before, after);
    FlatMapPermuted(f, front, before + after);
    FlatMapAppend(f, front, x);
    FlatMapWithout(f, before, x, after);
  }
}
