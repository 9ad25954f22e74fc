/** How a judge pass comes to its end: when it counts as stopped, what a stop leaves unrecorded, what
    its counters count, and what a returned call means for the next launch. */
module JudgePassEnds {
  import opened Options
  import opened JudgeTypes
  import opened JudgeCascade
  import opened JudgePass
  import opened JudgePassTrace
  import opened JudgePassLaws
  import opened PassPlan

  // ---- Stopped or not ----------------------------------------------------------------------

  lemma {:induction false} SkipRestStays(p: Pass)
    ensures SkipRest(p).stopped == p.stopped && SkipRest(p).stopAt == p.stopAt
    decreases |p.queue| - p.next
  {
    if p.next < |p.queue| { SkipRestStays(SkipNext(p)); }
  }

  lemma {:induction false} NoStopNoDrop(p: Pass, acts: seq<Act>, q: Pass)
    requires Trace(p, acts, q) && p.stopAt.None? && !p.stopped
    ensures !q.stopped && q.stopAt.None?
    decreases |acts|
  {
    if acts != [] { NoStopNoDrop(Act1(p, acts[0]), acts[1..], q); }
  }

  /** Without a stop request no pass ever ends as stopped. */
  lemma NeverStoppedUnasked(queue: seq<Key>, workers: nat, ceiling: real, rounds: seq<Round>)
    ensures !Finish(Run(queue, workers, ceiling, None, rounds)).stopped
  {
    var p := Run(queue, workers, ceiling, None, rounds);
    var acts := RunTrace(queue, workers, ceiling, None, rounds);
    NoStopNoDrop(Start(queue, workers, ceiling, None), acts, p);
    SkipRestStays(LastChecked(p));
  }

  /** A pass that did not fail ends as stopped exactly when a stop abandoned what was in flight, or
      candidates were left on the queue. */
  lemma StoppedExactlyWhen(queue: seq<Key>, workers: nat, ceiling: real, stopAt: Option<nat>, rounds: seq<Round>,
                           p: Pass)
    requires workers > 0 && p == Run(queue, workers, ceiling, stopAt, rounds) && p.pending == map[] && !p.failed
    ensures Finish(p).stopped <==> p.stopped || p.next < |queue|
  {
    RunIdle(queue, workers, ceiling, stopAt, rounds, p);
    SkipRestStays(LastChecked(p));
  }

  lemma SubmitSeesStop(p: Pass)
    requires StopSeen(p)
    ensures var q := SubmitMore(p);
            q.next == p.next && q.pending == p.pending && q.rows == p.rows && q.sum == p.sum && q.log == p.log
  {}

  /** Once a stop is seen the next round abandons all that is in flight, and nothing is recorded or
      started from there on, whatever still comes back. */
  lemma StopRecordsNothingMore(p: Pass, rounds: seq<Round>)
    requires StopSeen(p) && p.pending != map[] && rounds != []
    ensures var q := Rounds(p, rounds);
            && q.stopped && q.pending == map[] && q.inFlight == [] && q.abandoned == p.pending.Keys
            && q.next == p.next && q.rows == p.rows && q.sum == p.sum && q.log == p.log
  {
    var m := OneRound(p, rounds[0]);
    assert m.pending == map[];
    assert Rounds(p, rounds) == Rounds(m, rounds[1..]) == m;
  }

  // ---- What the counters count -----------------------------------------------------------------

  function Count(log: seq<Entry>, fate: Fate): nat {
    if log == [] then 0 else Count(log[..|log| - 1], fate) + if log[|log| - 1].fate == fate then 1 else 0
  }

  lemma {:induction false} TallyCounts(log: seq<Entry>)
    ensures var s := Tally(log);
            && s.judged == Count(log, Judged) + Count(log, ParseFailure) && s.parseFailed == Count(log, ParseFailure)
            && s.timedOut == Count(log, TimedOut) && s.callFailed == Count(log, CallFailed)
            && s.noArtifacts == Count(log, NoArtifacts) && s.overBudget == Count(log, OverBudget)
  {
    if log != [] { TallyCounts(log[..|log| - 1]); }
  }

  /** Between any two acts every counter is the number of candidates with its fate, and a parse failure
      counts as judged as well. */
  lemma CountersCount(queue: seq<Key>, workers: nat, ceiling: real, stopAt: Option<nat>, acts: seq<Act>, p: Pass)
    requires Trace(Start(queue, workers, ceiling, stopAt), acts, p)
    ensures p.sum.judged == Count(p.log, Judged) + Count(p.log, ParseFailure)
    ensures p.sum.parseFailed == Count(p.log, ParseFailure) && p.sum.timedOut == Count(p.log, TimedOut)
    ensures p.sum.callFailed == Count(p.log, CallFailed) && p.sum.noArtifacts == Count(p.log, NoArtifacts)
    ensures p.sum.overBudget == Count(p.log, OverBudget)
  {
    EveryPointKeeps(queue, workers, ceiling, stopAt, acts, p);
    TallyCounts(p.log);
  }

  // ---- What a returned call means for the next launch ----------------------------------------------

  /** What became of the call, told by its script and headroom alone. */
  predicate GotVerdict(h: Completion, remaining: real) {
    h.Ran? && var v := RunCascade(h.script, remaining); v.Recorded? && !v.parseFailed
  }

  predicate Unparsed(h: Completion, remaining: real) {
    h.Ran? && var v := RunCascade(h.script, remaining); v.Recorded? && v.parseFailed
  }

  predicate RanOut(h: Completion, remaining: real) {
    h.Ran? && FirstFailure(h.script, remaining) == Some(RanOutOfTime)
  }

  lemma OneRow(table: seq<Row>, p: Pass, more: seq<Row>, k: Key)
    requires RowsFor(table + p.rows, k) == [] && |more| <= 1 && (more != [] ==> more[0].key == k)
    ensures RowsFor(table + (p.rows + more), k) == more
  {
    if more == [] {
      assert p.rows + more == p.rows;
    } else {
      RowsForAppend(table + p.rows, more[0], k);
      assert table + (p.rows + more) == table + p.rows + [more[0]] && more == [more[0]];
    }
  }

  /** The row written is the verdict, the parse failure or the timeout that it was, and there is none for
      anything else. */
  lemma ReturnWrites(p: Pass, i: nat, h: Completion)
    requires i in p.pending && i < |p.queue|
    ensures var q, k := Complete(p, i, h), p.queue[i];
            && (GotVerdict(h, p.pending[i]) ==> q.rows == p.rows + [Row(k, Verdict)])
            && (Unparsed(h, p.pending[i]) ==> q.rows == p.rows + [Row(k, NoVerdictParseFailed)])
            && (RanOut(h, p.pending[i]) ==> q.rows == p.rows + [Row(k, NoVerdictTimeout)])
            && (!GotVerdict(h, p.pending[i]) && !Unparsed(h, p.pending[i]) && !RanOut(h, p.pending[i])
               ==> q.rows == p.rows)
  {
    if h.Ran? { CascadeFallsAs(h.script, p.pending[i]); }
  }

  /** A candidate without a row comes back: afterwards no launch short of a re-judge takes it up again
      after a verdict; one that retries takes it up after a timeout or a parse failure; every one does
      after a failed call, an error or missing artifacts. */
  lemma ReturnedKeyOpenExactlyWhen(table: seq<Row>, p: Pass, i: nat, h: Completion, mode: Mode)
    requires i in p.pending && i < |p.queue| && RowsFor(table + p.rows, p.queue[i]) == [] && !mode.rejudge
    ensures Open(table + Complete(p, i, h).rows, p.queue[i], mode) <==>
              && !GotVerdict(h, p.pending[i])
              && (mode.retryNoVerdict || !(Unparsed(h, p.pending[i]) || RanOut(h, p.pending[i])))
  {
    var k := p.queue[i];
    var more: seq<Row> := RowWritten(h, p.pending[i], k);
    Apart(h, p.pending[i]);
    ReturnWrites(p, i, h);
    assert Complete(p, i, h).rows == p.rows + more;
    OneRow(table, p, more, k);
    OpenByRows(table + (p.rows + more), k, more, mode);
  }

  function RowWritten(h: Completion, remaining: real, k: Key): seq<Row> {
    if GotVerdict(h, remaining) then [Row(k, Verdict)]
    else if Unparsed(h, remaining) then [Row(k, NoVerdictParseFailed)]
    else if RanOut(h, remaining) then [Row(k, NoVerdictTimeout)]
    else []
  }

  lemma Apart(h: Completion, remaining: real)
    ensures GotVerdict(h, remaining) ==> !Unparsed(h, remaining) && !RanOut(h, remaining)
    ensures Unparsed(h, remaining) ==> !RanOut(h, remaining)
  {
    if h.Ran? { CascadeFallsAs(h.script, remaining); }
  }

  lemma OpenByRows(table: seq<Row>, k: Key, rows: seq<Row>, mode: Mode)
    requires RowsFor(table, k) == rows && |rows| <= 1 && !mode.rejudge
    ensures Open(table, k, mode) <==> rows == [] || (mode.retryNoVerdict && !rows[0].status.Verdict?)
  {}

  /** Its counter is the one of what became of it. */
  lemma ReturnCounts(p: Pass, i: nat, h: Completion)
    requires i in p.pending && i < |p.queue|
    ensures var s, t := p.sum, Complete(p, i, h).sum;
            && t.judged == s.judged + (if GotVerdict(h, p.pending[i]) || Unparsed(h, p.pending[i]) then 1 else 0)
            && t.parseFailed == s.parseFailed + (if Unparsed(h, p.pending[i]) then 1 else 0)
            && t.timedOut == s.timedOut + (if RanOut(h, p.pending[i]) then 1 else 0)
            && t.callFailed == s.callFailed + (if h.Ran? && FirstFailure(h.script, p.pending[i]) == Some(Unanswered)
               then 1 else 0)
            && t.noArtifacts == s.noArtifacts + (if h.MissingArtifacts? then 1 else 0)
  {
    if h.Ran? { CascadeFallsAs(h.script, p.pending[i]); }
  }
}
