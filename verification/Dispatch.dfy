/** src/session.rs: dispatch answers each read request from one published table, while the monitor keeps publishing. */
module Dispatch {
  import opened Actor
  import opened Bulk
  import opened History
  import opened Lookup
  import opened Mib
  import opened Numbers
  import opened Oids
  import opened Wrappers

  const MAX_OID_SUBIDS: nat := 128

  datatype Request =
    | GetRequest(ranges: seq<SearchRange>)
    | GetNextRequest(ranges: seq<SearchRange>)
    | GetBulkRequest(ranges: seq<SearchRange>, nonRepeaters: nat, maxRepetitions: nat)

  datatype Reply = ParseError | ProcessingError | Bindings(bindings: seq<VarBind>)

  predicate ValidRange(range: SearchRange) {
    && |range.start.components| <= MAX_OID_SUBIDS && |range.end.components| <= MAX_OID_SUBIDS
    && range.start.includeFlag <= 1
  }

  /** The answer to the i-th range of a Get or GetNext. */
  function AnswerOne(m: Table, request: Request, i: nat): VarBind
    requires i < |request.ranges|
  {
    if request.GetRequest? then Get(m, request.ranges[i].start) else GetNext(m, request.ranges[i])
  }

  function Answers(m: Table, request: Request, n: nat): (r: seq<VarBind>)
    requires n <= |request.ranges|
    ensures |r| == n && forall i :: 0 <= i < n ==> r[i] == AnswerOne(m, request, i)
  {
    if n == 0 then [] else Answers(m, request, n - 1) + [AnswerOne(m, request, n - 1)]
  }

  predicate AllValid(ranges: seq<SearchRange>) {
    forall range :: range in ranges ==> ValidRange(range)
  }

  /** What a request means on one table version. */
  function Answer(version: Option<Table>, request: Request): Reply {
    if !AllValid(request.ranges) then ParseError
    else if version.None? then ProcessingError
    else if request.GetBulkRequest? then
      Bindings(Response(version.value, request.ranges, request.nonRepeaters, request.maxRepetitions))
    else Bindings(Answers(version.value, request, |request.ranges|))
  }

  predicate TooLong(range: SearchRange) {
    |range.start.components| > 128 || |range.end.components| > 128
  }

  /** Which request is refused, and which lookup answers each range of the others. */
  lemma AnswerRules(version: Option<Table>, request: Request)
    ensures var refused := exists range :: range in request.ranges && (TooLong(range) || range.start.includeFlag > 1);
            && (Answer(version, request) == ParseError <==> refused)
            && (Answer(version, request) == ProcessingError <==> !refused && version.None?)
            && (!refused && version.Some? ==>
                  && (request.GetBulkRequest? ==>
                        Answer(version, request) == Bindings(Response(version.value, request.ranges,
                                                                      request.nonRepeaters, request.maxRepetitions)))
                  && (!request.GetBulkRequest? ==>
                        && |Answer(version, request).bindings| == |request.ranges|
                        && forall i :: 0 <= i < |request.ranges| ==>
                             Answer(version, request).bindings[i] ==
                               if request.GetRequest? then Get(version.value, request.ranges[i].start)
                               else GetNext(version.value, request.ranges[i])))
  {
    if !AllValid(request.ranges) {
      var range :| range in request.ranges && !ValidRange(range);
      assert TooLong(range) || range.start.includeFlag > 1;
    }
  }

  // ---------- the monitor thread, as seen from a session ----------

  /** The publication after some steps of the monitor. */
  function AfterSteps(version: Option<Table>, steps: seq<Publishing>): Option<Table> {
    if steps == [] then version
    else
      match steps[|steps| - 1]
      case Publish(m) => Some(m)
      case Withdraw => None
  }

  /** The monitor only ever publishes ordered tables. */
  ghost predicate Orderly(version: Option<Table>) {
    version.Some? ==> Increasing(version.value.names)
  }

  ghost predicate OrderlySteps(steps: seq<Publishing>) {
    forall s :: s in steps && s.Publish? ==> Increasing(s.table.names)
  }

  /** The monitor thread runs for a while. */
  method Interleave(cell: Publication, steps: seq<Publishing>)
    modifies cell
    ensures cell.table == AfterSteps(old(cell.table), steps) && cell.steps == old(cell.steps) + steps
  {
    for i := 0 to |steps|
      invariant cell.table == AfterSteps(old(cell.table), steps[..i]) && cell.steps == old(cell.steps) + steps[..i]
    {
      match steps[i] {
        case Publish(m) => cell.Publish(m);
        case Withdraw => cell.Unavailable();
      }
    }
    assert steps[..|steps|] == steps;
  }

  /** All the monitor's steps in these gaps. */
  function AllSteps(gaps: seq<seq<Publishing>>): seq<Publishing> {
    if gaps == [] then [] else AllSteps(gaps[..|gaps| - 1]) + gaps[|gaps| - 1]
  }

  lemma StepsCompose(version: Option<Table>, a: seq<Publishing>, b: seq<Publishing>)
    ensures AfterSteps(version, a + b) == AfterSteps(AfterSteps(version, a), b)
  {
    assert b == [] ==> a + b == a;
  }

  lemma OrderlyAfter(version: Option<Table>, steps: seq<Publishing>)
    requires Orderly(version) && OrderlySteps(steps)
    ensures Orderly(AfterSteps(version, steps))
  {
    assert steps != [] ==> steps[|steps| - 1] in steps;
  }

  /** validate_oid on every range, and the include flags. */
  method Validate(ranges: seq<SearchRange>) returns (valid: bool)
    ensures valid <==> AllValid(ranges)
  {
    for i := 0 to |ranges|
      invariant forall j :: 0 <= j < i ==> ValidRange(ranges[j])
    {
      if !ValidRange(ranges[i]) {
        assert ranges[i] in ranges;
        return false;
      }
    }
    return true;
  }

  /** The ranges of a Get or GetNext, evaluated one by one on the table they were given. */
  method Evaluate(cell: Publication, m: Table, request: Request, gaps: seq<seq<Publishing>>)
    returns (bindings: seq<VarBind>)
    requires |gaps| == |request.ranges|
    modifies cell
    ensures bindings == Answers(m, request, |request.ranges|)
    ensures cell.table == AfterSteps(old(cell.table), AllSteps(gaps))
  {
    bindings := [];
    for i := 0 to |request.ranges|
      invariant bindings == Answers(m, request, i)
      invariant cell.table == AfterSteps(old(cell.table), AllSteps(gaps[..i]))
    {
      StepsCompose(old(cell.table), AllSteps(gaps[..i]), gaps[i]);
      assert gaps[..i + 1][..i] == gaps[..i];
      Interleave(cell, gaps[i]);
      var range := request.ranges[i];
      bindings := bindings + [if request.GetRequest? then Get(m, range.start) else GetNext(m, range)];
    }
    assert gaps[..|gaps|] == gaps;
  }

  lemma {:induction false} AllStepsSplit(gaps: seq<seq<Publishing>>, i: nat)
    requires i <= |gaps|
    ensures AllSteps(gaps) == AllSteps(gaps[..i]) + AllSteps(gaps[i..])
  {
    if i == |gaps| {
      assert gaps[..i] == gaps;
    } else {
      var front := gaps[..|gaps| - 1];
      AllStepsSplit(front, i);
      assert front[..i] == gaps[..i] && gaps[i..][..|gaps[i..]| - 1] == front[i..];
    }
  }

  /** The steps of the gaps from `i` on are those of gap `i` and then those of the rest. */
  lemma StepsFrom(version: Option<Table>, gaps: seq<seq<Publishing>>, i: nat)
    requires i < |gaps|
    ensures AfterSteps(version, AllSteps(gaps[i..]))
         == AfterSteps(AfterSteps(version, gaps[i]), AllSteps(gaps[i + 1..]))
    ensures gaps[0..] == gaps
  {
    var rest := gaps[i..];
    AllStepsSplit(rest, 1);
    assert rest[..1] == [gaps[i]] && rest[1..] == gaps[i + 1..] && [gaps[i]][..0] == [];
    assert AllSteps([gaps[i]]) == [] + gaps[i] == gaps[i];
    StepsCompose(version, gaps[i], AllSteps(gaps[i + 1..]));
  }

  /**
   * A GetBulk, evaluated on the table it was given; the monitor runs before the non-repeaters and before each
   * repetition, and takes what is left of its steps after the last one.
   */
  method EvaluateBulk(cell: Publication, m: Table, ranges: seq<SearchRange>, nonRepeaters: nat, maxRepetitions: nat,
                      gaps: seq<seq<Publishing>>)
    returns (bindings: seq<VarBind>)
    requires Increasing(m.names) && |gaps| == maxRepetitions + 1
    modifies cell
    ensures bindings == Response(m, ranges, nonRepeaters, maxRepetitions)
    ensures cell.table == AfterSteps(old(cell.table), AllSteps(gaps))
  {
    var count := Min(nonRepeaters, |ranges|);
    ghost var first, longest := Singles(m, ranges[..count]), Longest(m, ranges[count..]);
    StepsFrom(cell.table, gaps, 0);
    Interleave(cell, gaps[0]);
    bindings := AnswerSingles(m, ranges[..count]);
    LongestMeans(m, ranges[count..]);
    bindings := RepeatAmid(cell, m, first, ranges[count..], longest, bindings, gaps[1..]);
  }

  /** The repetitions of a GetBulk amid the monitor's steps. */
  method RepeatAmid(cell: Publication, m: Table, ghost first: seq<VarBind>, original: seq<SearchRange>,
                    ghost longest: nat, singles: seq<VarBind>, gaps: seq<seq<Publishing>>)
    returns (result: seq<VarBind>)
    requires Increasing(m.names) && singles == Truncate(first) && EndsAfter(m, original, longest)
    modifies cell
    ensures result == Answered(m, first, original, Min(|gaps|, longest + 1))
    ensures cell.table == AfterSteps(old(cell.table), AllSteps(gaps))
  {
    NoRounds(m, first, original);
    result := singles;
    var repeaters := original;
    var n := 0;
    var exhausted, full := false, false;
    assert gaps[0..] == gaps;
    while n < |gaps| && !exhausted && !full
      invariant n <= |gaps|
      invariant AfterSteps(cell.table, AllSteps(gaps[n..])) == AfterSteps(old(cell.table), AllSteps(gaps))
      invariant if full then result == Answered(m, first, original, Min(|gaps|, longest + 1))
                else Underway(m, first, original, longest, n, repeaters, exhausted, result)
    {
      StepsFrom(cell.table, gaps, n);
      Interleave(cell, gaps[n]);
      result, repeaters, exhausted, full := RepeatOnce(m, first, original, longest, n, repeaters, result);
      n := n + 1;
      if full {
        Cut(m, first, original, n, Min(|gaps|, longest + 1));
      }
    }
    Interleave(cell, AllSteps(gaps[n..]));
  }

  /** The passes a request takes: one a range, or the non-repeaters and every repetition. */
  function Passes(request: Request): nat {
    if request.GetBulkRequest? then request.maxRepetitions + 1 else |request.ranges|
  }

  /**
   * dispatch of a read request. The monitor may run before the snapshot (`earlier`) and again before each pass
   * over the ranges (`gaps`). The reply is the pure answer on the one version current at the snapshot, and the
   * publication ends where the monitor alone took it.
   */
  method DispatchRead(cell: Publication, request: Request, earlier: seq<Publishing>, gaps: seq<seq<Publishing>>)
    returns (reply: Reply)
    requires |gaps| == Passes(request)
    requires Orderly(cell.table) && OrderlySteps(earlier)
    modifies cell
    ensures reply == Answer(AfterSteps(old(cell.table), earlier), request)
    ensures reply == ParseError <==>
              exists range :: range in request.ranges && (TooLong(range) || range.start.includeFlag > 1)
    ensures reply == ProcessingError ==> AfterSteps(old(cell.table), earlier) == None
    ensures reply.Bindings? ==> AfterSteps(old(cell.table), earlier).Some?
    ensures reply.Bindings? && request.GetRequest? ==>
              && |reply.bindings| == |request.ranges|
              && forall i :: 0 <= i < |request.ranges| ==>
                   reply.bindings[i] == Get(AfterSteps(old(cell.table), earlier).value, request.ranges[i].start)
    ensures reply.Bindings? && request.GetNextRequest? ==>
              && |reply.bindings| == |request.ranges|
              && forall i :: 0 <= i < |request.ranges| ==>
                   reply.bindings[i] == GetNext(AfterSteps(old(cell.table), earlier).value, request.ranges[i])
    ensures reply.Bindings? && request.GetBulkRequest? ==>
              reply.bindings == Response(AfterSteps(old(cell.table), earlier).value, request.ranges,
                                         request.nonRepeaters, request.maxRepetitions)
    ensures cell.table == AfterSteps(old(cell.table), earlier + AllSteps(gaps))
  {
    AnswerRules(AfterSteps(cell.table, earlier), request);
    StepsCompose(cell.table, earlier, AllSteps(gaps));
    OrderlyAfter(cell.table, earlier);
    var valid := Validate(request.ranges);
    Interleave(cell, earlier);
    if !valid {
      Interleave(cell, AllSteps(gaps));
      return ParseError;
    }
    var snapshot := cell.table;
    if snapshot.None? {
      Interleave(cell, AllSteps(gaps));
      return ProcessingError;
    }
    var bindings;
    match request {
      case GetBulkRequest(ranges, nonRepeaters, maxRepetitions) =>
        bindings := EvaluateBulk(cell, snapshot.value, ranges, nonRepeaters, maxRepetitions, gaps);
      case _ =>
        bindings := Evaluate(cell, snapshot.value, request, gaps);
    }
    return Bindings(bindings);
  }
}
