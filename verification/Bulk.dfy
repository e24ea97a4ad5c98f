/** src/mib.rs: Mib::get_bulk and its closed form. */
module Bulk {
  import opened Lookup
  import opened Mib
  import opened Numbers
  import opened Oids

  // ---------- the closed form ----------

  /** Answers to the non-repeaters. */
  function Singles(m: Table, ranges: seq<SearchRange>): (r: seq<VarBind>) {
    seq(|ranges|, (i: nat) requires i < |ranges| => Nth(m, ranges[i], 0))
  }

  /** The k-th answer of every repeater. */
  function Round(m: Table, repeaters: seq<SearchRange>, k: nat): (r: seq<VarBind>) {
    seq(|repeaters|, (i: nat) requires i < |repeaters| => Nth(m, repeaters[i], k))
  }

  function Rounds(m: Table, repeaters: seq<SearchRange>, n: nat): (r: seq<VarBind>)
    ensures |r| == n * |repeaters|
  {
    if n == 0 then [] else Rounds(m, repeaters, n - 1) + Round(m, repeaters, n - 1)
  }

  /** The longest in-range row count among the repeaters. */
  function Longest(m: Table, repeaters: seq<SearchRange>): (longest: nat)
    ensures forall r :: r in repeaters ==> |RowsIn(m.names, r)| <= longest
    ensures longest == 0 || exists r :: r in repeaters && |RowsIn(m.names, r)| == longest
  {
    if repeaters == [] then 0
    else
      var rest := Longest(m, repeaters[1..]);
      assert repeaters == [repeaters[0]] + repeaters[1..] && repeaters[0] in repeaters;
      assert forall r :: r in repeaters[1..] ==> r in repeaters;
      if |RowsIn(m.names, repeaters[0])| > rest then |RowsIn(m.names, repeaters[0])| else rest
  }

  /** Everything a GETBULK would answer if responses were unbounded. */
  function Unbounded(m: Table, ranges: seq<SearchRange>, nonRepeaters: nat, maxRepetitions: nat): seq<VarBind> {
    var count := Min(nonRepeaters, |ranges|);
    Singles(m, ranges[..count]) +
    Rounds(m, ranges[count..], RoundCount(m, ranges[count..], maxRepetitions))
  }

  function Response(m: Table, ranges: seq<SearchRange>, nonRepeaters: nat, maxRepetitions: nat): seq<VarBind> {
    Truncate(Unbounded(m, ranges, nonRepeaters, maxRepetitions))
  }

  lemma {:induction false} RoundsGrow(m: Table, repeaters: seq<SearchRange>, k: nat, n: nat)
    requires k <= n
    ensures Rounds(m, repeaters, k) <= Rounds(m, repeaters, n)
    ensures k < n ==> Rounds(m, repeaters, k) + Round(m, repeaters, k) <= Rounds(m, repeaters, n)
  {
    if k < n {
      RoundsGrow(m, repeaters, k, n - 1);
    }
  }

  lemma RoundsAt(m: Table, repeaters: seq<SearchRange>, n: nat, k: nat, r: nat)
    requires k < n && r < |repeaters|
    ensures k * |repeaters| + r < |Rounds(m, repeaters, n)|
    ensures Rounds(m, repeaters, n)[k * |repeaters| + r] == Nth(m, repeaters[r], k)
  {
    RoundsGrow(m, repeaters, k, n);
    var upTo := Rounds(m, repeaters, k) + Round(m, repeaters, k);
    assert upTo[|Rounds(m, repeaters, k)| + r] == Round(m, repeaters, k)[r];
  }

  lemma TruncateAt(a: seq<VarBind>, b: seq<VarBind>, at: nat)
    requires at < |b|
    ensures |a| + at < MAX_BULK_BINDINGS ==>
              |a| + at < |Truncate(a + b)| && Truncate(a + b)[|a| + at] == b[at]
  {
  }

  /** How many rounds of repetitions are answered before every repeater has reported its end. */
  function RoundCount(m: Table, repeaters: seq<SearchRange>, maxRepetitions: nat): nat {
    Min(maxRepetitions, Longest(m, repeaters) + 1)
  }

  lemma BulkLength(m: Table, ranges: seq<SearchRange>, nonRepeaters: nat, maxRepetitions: nat)
    ensures var c := Min(nonRepeaters, |ranges|);
            var repeaters := ranges[c..];
            |Response(m, ranges, nonRepeaters, maxRepetitions)|
            == Min(4096, c + Min(maxRepetitions, Longest(m, repeaters) + 1) * |repeaters|)
  {
  }

  lemma BulkSingle(m: Table, ranges: seq<SearchRange>, nonRepeaters: nat, maxRepetitions: nat, i: nat)
    requires i < Min(nonRepeaters, |ranges|) && i < MAX_BULK_BINDINGS
    ensures i < |Response(m, ranges, nonRepeaters, maxRepetitions)|
    ensures Response(m, ranges, nonRepeaters, maxRepetitions)[i] == Nth(m, ranges[i], 0)
  {
  }

  lemma RepetitionAt(m: Table, first: seq<VarBind>, repeaters: seq<SearchRange>, n: nat, k: nat, r: nat)
    requires k < n && r < |repeaters|
    ensures var at := |first| + (k * |repeaters| + r);
            var response := Truncate(first + Rounds(m, repeaters, n));
            at < MAX_BULK_BINDINGS ==> at < |response| && response[at] == Nth(m, repeaters[r], k)
  {
    RoundsAt(m, repeaters, n, k, r);
    TruncateAt(first, Rounds(m, repeaters, n), k * |repeaters| + r);
  }

  /** Binding c + k*R + r is the k-th answer of repeater r. */
  lemma BulkRepetition(m: Table, ranges: seq<SearchRange>, nonRepeaters: nat, maxRepetitions: nat, k: nat, r: nat)
    requires r < |ranges[Min(nonRepeaters, |ranges|)..]|
    requires k < maxRepetitions && k <= Longest(m, ranges[Min(nonRepeaters, |ranges|)..])
    ensures var repeaters := ranges[Min(nonRepeaters, |ranges|)..];
            var response := Response(m, ranges, nonRepeaters, maxRepetitions);
            var at := Min(nonRepeaters, |ranges|) + (k * |repeaters| + r);
            at < MAX_BULK_BINDINGS ==> at < |response| && response[at] == Nth(m, repeaters[r], k)
  {
    var c := Min(nonRepeaters, |ranges|);
    RepetitionAt(m, Singles(m, ranges[..c]), ranges[c..], RoundCount(m, ranges[c..], maxRepetitions), k, r);
  }

  // ---------- the loop ----------

  /** The ranges of all repeaters after `k` rounds. */
  function AdvancedAll(m: Table, repeaters: seq<SearchRange>, k: nat): (r: seq<SearchRange>) {
    seq(|repeaters|, (i: nat) requires i < |repeaters| => Advanced(m, repeaters[i], k))
  }

  /** Mib::get_bulk. */
  method GetBulk(m: Table, ranges: seq<SearchRange>, nonRepeaters: nat, maxRepetitions: nat)
    returns (result: seq<VarBind>)
    requires Increasing(m.names)
    ensures result == Response(m, ranges, nonRepeaters, maxRepetitions)
  {
    var count := Min(nonRepeaters, |ranges|);
    result := AnswerSingles(m, ranges[..count]);
    ghost var longest := Longest(m, ranges[count..]);
    LongestMeans(m, ranges[count..]);
    result := Repeat(m, Singles(m, ranges[..count]), ranges[count..], maxRepetitions, longest, result);
  }

  /** The repetitions, up to the early stop or a full response. */
  method Repeat(m: Table, ghost first: seq<VarBind>, original: seq<SearchRange>, maxRepetitions: nat,
                ghost longest: nat, singles: seq<VarBind>)
    returns (result: seq<VarBind>)
    requires Increasing(m.names) && singles == Truncate(first) && EndsAfter(m, original, longest)
    ensures result == Answered(m, first, original, Min(maxRepetitions, longest + 1))
  {
    NoRounds(m, first, original);
    result := singles;
    var repeaters := original;
    var n := 0;
    var exhausted := false;
    while n < maxRepetitions && !exhausted
      invariant n <= maxRepetitions
      invariant Underway(m, first, original, longest, n, repeaters, exhausted, result)
    {
      var full;
      result, repeaters, exhausted, full := RepeatOnce(m, first, original, longest, n, repeaters, result);
      n := n + 1;
      if full {
        Cut(m, first, original, n, Min(maxRepetitions, longest + 1));
        return;
      }
    }
  }

  /** The first round that is all end-of-view is round `longest`. */
  ghost predicate EndsAfter(m: Table, original: seq<SearchRange>, longest: nat) {
    forall k: nat :: Exhausted(m, original, k) <==> k >= longest
  }

  /** The variables of get_bulk after `n` rounds. */
  predicate Underway(m: Table, first: seq<VarBind>, original: seq<SearchRange>, longest: nat, n: nat,
                     repeaters: seq<SearchRange>, exhausted: bool, result: seq<VarBind>) {
    && n <= longest + 1
    && (exhausted <==> n == longest + 1)
    && repeaters == AdvancedAll(m, original, n)
    && result == Answered(m, first, original, n)
  }

  /** One repetition. */
  method RepeatOnce(m: Table, ghost first: seq<VarBind>, ghost original: seq<SearchRange>, ghost longest: nat,
                    ghost n: nat, before: seq<SearchRange>, answered: seq<VarBind>)
    returns (result: seq<VarBind>, repeaters: seq<SearchRange>, exhausted: bool, full: bool)
    requires Increasing(m.names) && EndsAfter(m, original, longest)
    requires Underway(m, first, original, longest, n, before, false, answered)
    ensures if full then result == Answered(m, first, original, n + 1) && |result| == MAX_BULK_BINDINGS
            else Underway(m, first, original, longest, n + 1, repeaters, exhausted, result)
  {
    NextRound(m, first, original, n);
    result, repeaters, exhausted, full := BulkRound(m, original, before, n, answered);
  }

  /** The response so far after `n` rounds. */
  function Answered(m: Table, first: seq<VarBind>, repeaters: seq<SearchRange>, n: nat): (r: seq<VarBind>)
    ensures |r| <= MAX_BULK_BINDINGS
  {
    Truncate(first + Rounds(m, repeaters, n))
  }

  /** The first MAX_BULK_BINDINGS answers. */
  function Truncate(all: seq<VarBind>): seq<VarBind> {
    all[..Min(MAX_BULK_BINDINGS, |all|)]
  }

  lemma NoRounds(m: Table, first: seq<VarBind>, repeaters: seq<SearchRange>)
    ensures Answered(m, first, repeaters, 0) == Truncate(first)
    ensures AdvancedAll(m, repeaters, 0) == repeaters
  {
    assert first + [] == first;
  }

  lemma NextRound(m: Table, first: seq<VarBind>, repeaters: seq<SearchRange>, n: nat)
    ensures Truncate(Answered(m, first, repeaters, n) + Round(m, repeaters, n)) == Answered(m, first, repeaters, n + 1)
  {
    TruncateTwice(first + Rounds(m, repeaters, n), Round(m, repeaters, n));
    assert first + Rounds(m, repeaters, n) + Round(m, repeaters, n) == first + Rounds(m, repeaters, n + 1);
  }

  lemma TruncateTwice(a: seq<VarBind>, b: seq<VarBind>)
    ensures Truncate(Truncate(a) + b) == Truncate(a + b)
  {
  }

  /** Once full, further rounds change nothing. */
  lemma Cut(m: Table, first: seq<VarBind>, repeaters: seq<SearchRange>, n: nat, rounds: nat)
    requires n <= rounds
    requires |Answered(m, first, repeaters, n)| == MAX_BULK_BINDINGS
    ensures Answered(m, first, repeaters, n) == Answered(m, first, repeaters, rounds)
  {
    RoundsGrow(m, repeaters, n, rounds);
    var part, whole := first + Rounds(m, repeaters, n), first + Rounds(m, repeaters, rounds);
    assert part == whole[..|part|];
  }

  /** The non-repeaters' answers, never more than a response holds. */
  method AnswerSingles(m: Table, ranges: seq<SearchRange>) returns (result: seq<VarBind>)
    requires Increasing(m.names)
    ensures result == Truncate(Singles(m, ranges))
  {
    result := [];
    for i := 0 to Min(|ranges|, MAX_BULK_BINDINGS)
      invariant result == Singles(m, ranges)[..i]
    {
      WalkComplete(m, ranges[i], 0);
      result := result + [GetNext(m, ranges[i])];
    }
  }

  /** One pass over the repeaters, stopping as soon as the response is full. */
  method BulkRound(m: Table, ghost original: seq<SearchRange>, ranges: seq<SearchRange>, ghost k: nat,
                   before: seq<VarBind>)
    returns (result: seq<VarBind>, repeaters: seq<SearchRange>, exhausted: bool, full: bool)
    requires Increasing(m.names)
    requires ranges == AdvancedAll(m, original, k)
    requires |before| <= MAX_BULK_BINDINGS
    ensures full ==> |result| == MAX_BULK_BINDINGS
    ensures result == Truncate(before + Round(m, original, k))
    ensures !full ==> repeaters == AdvancedAll(m, original, k + 1)
    ensures !full ==> (exhausted <==> Exhausted(m, original, k))
  {
    result, repeaters, exhausted, full := before, ranges, true, false;
    for i := 0 to |ranges|
      invariant |repeaters| == |ranges|
      invariant forall j :: 0 <= j < i ==> repeaters[j] == Advanced(m, original[j], k + 1)
      invariant forall j :: i <= j < |ranges| ==> repeaters[j] == Advanced(m, original[j], k)
      invariant result == before + Round(m, original, k)[..i]
      invariant |result| <= MAX_BULK_BINDINGS
      invariant exhausted <==> forall j :: 0 <= j < i ==> Nth(m, original[j], k).data == EndOfMibView
    {
      if |result| == MAX_BULK_BINDINGS {
        full := true;
        assert |before| + i == MAX_BULK_BINDINGS;
        return;
      }
      var range := repeaters[i];
      WalkComplete(m, original[i], k);
      var next := GetNext(m, range);
      exhausted := exhausted && next.data == EndOfMibView;
      repeaters := repeaters[i := range.(start := next.name)];
      result := result + [next];
    }
  }

  lemma LongestMeans(m: Table, repeaters: seq<SearchRange>)
    ensures EndsAfter(m, repeaters, Longest(m, repeaters))
  {
    forall k: nat ensures Exhausted(m, repeaters, k) <==> k >= Longest(m, repeaters) {
      AllExhausted(m, repeaters, k);
    }
  }

  /** The k-th round is all end-of-view. */
  predicate Exhausted(m: Table, repeaters: seq<SearchRange>, k: nat) {
    forall i :: 0 <= i < |repeaters| ==> Nth(m, repeaters[i], k).data == EndOfMibView
  }

  /** A round is all end-of-view exactly when it lies past the longest repeater. */
  lemma AllExhausted(m: Table, repeaters: seq<SearchRange>, k: nat)
    ensures Exhausted(m, repeaters, k) <==> k >= Longest(m, repeaters)
  {
    if k < Longest(m, repeaters) {
      var r :| r in repeaters && |RowsIn(m.names, r)| == Longest(m, repeaters);
      var i :| 0 <= i < |repeaters| && repeaters[i] == r;
      assert Nth(m, repeaters[i], k).data == Integer(1);
    } else {
      forall i | 0 <= i < |repeaters| ensures Nth(m, repeaters[i], k).data == EndOfMibView {
        assert repeaters[i] in repeaters;
      }
    }
  }
}
