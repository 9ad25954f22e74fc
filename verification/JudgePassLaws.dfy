/** What every run of a judge pass keeps: each candidate has exactly one fate, and the counters,
    the written rows and the live list are those fates. */
module JudgePassLaws {
  import opened Options
  import opened JudgeTypes
  import opened JudgeCascade
  import opened JudgePass
  import opened JudgePassTrace

  // ---- Reading the log -------------------------------------------------------------------

  function Idx(log: seq<Entry>): set<nat> {
    if log == [] then {} else Idx(log[..|log| - 1]) + {log[|log| - 1].idx}
  }

  /** One more fate in the ledger: a parse failure is a judgment too, an error is counted
      nowhere. */
  function Add(s: Summary, e: Entry): Summary {
    match e.fate
    case Judged => s.(judged := s.judged + 1, spend := s.spend + e.paid)
    case ParseFailure => s.(judged := s.judged + 1, parseFailed := s.parseFailed + 1, spend := s.spend + e.paid)
    case TimedOut => s.(timedOut := s.timedOut + 1)
    case CallFailed => s.(callFailed := s.callFailed + 1)
    case Errored => s
    case NoArtifacts => s.(noArtifacts := s.noArtifacts + 1)
    case OverBudget => s.(overBudget := s.overBudget + 1)
  }

  function Tally(log: seq<Entry>): Summary {
    if log == [] then Summary(0, 0, 0, 0, 0, 0, 0.0) else Add(Tally(log[..|log| - 1]), log[|log| - 1])
  }

  function Errors(log: seq<Entry>): nat {
    if log == [] then 0 else Errors(log[..|log| - 1]) + if log[|log| - 1].fate.Errored? then 1 else 0
  }

  function RowFor(e: Entry, queue: seq<Key>): seq<Row> {
    if e.idx >= |queue| then []
    else match e.fate
      case Judged => [Row(queue[e.idx], Verdict)]
      case ParseFailure => [Row(queue[e.idx], NoVerdictParseFailed)]
      case TimedOut => [Row(queue[e.idx], NoVerdictTimeout)]
      case _ => []
  }

  function RowsOf(log: seq<Entry>, queue: seq<Key>): seq<Row> {
    if log == [] then [] else RowsOf(log[..|log| - 1], queue) + RowFor(log[|log| - 1], queue)
  }

  lemma Append(log: seq<Entry>, e: Entry, queue: seq<Key>)
    ensures Idx(log + [e]) == Idx(log) + {e.idx}
    ensures Tally(log + [e]) == Add(Tally(log), e)
    ensures Errors(log + [e]) == Errors(log) + if e.fate.Errored? then 1 else 0
    ensures RowsOf(log + [e], queue) == RowsOf(log, queue) + RowFor(e, queue)
  {
    assert (log + [e])[..|log|] == log;
  }

  lemma {:induction false} TallyAddsUp(log: seq<Entry>)
    ensures var s := Tally(log);
            s.judged + s.timedOut + s.callFailed + s.noArtifacts + s.overBudget + Errors(log) == |log|
  {
    if log != [] { TallyAddsUp(log[..|log| - 1]); }
  }

  // ---- Parts of what was taken off the queue ----------------------------------------------

  function Below(n: nat): (r: set<nat>)
    ensures forall i :: i in r <==> 0 <= i < n
  {
    if n == 0 then {} else Below(n - 1) + {n - 1}
  }

  ghost predicate Split(settled: set<nat>, flying: set<nat>, gone: set<nat>, n: nat) {
    settled !! flying && settled !! gone && flying !! gone && settled + flying + gone == Below(n)
  }

  /** The three parts with their sizes: `count` log entries, none of them a repeat. */
  ghost predicate Parts(settled: set<nat>, count: nat, flying: set<nat>, gone: set<nat>, n: nat, workers: nat) {
    && Split(settled, flying, gone, n)
    && |settled| == count && count + |flying| + |gone| == n
    && |flying| <= workers && |gone| <= workers && (flying != {} ==> gone == {})
  }

  lemma SplitSkip(a: set<nat>, b: set<nat>, c: set<nat>, n: nat)
    requires Split(a, b, c, n)
    ensures n !in a && Split(a + {n}, b, c, n + 1) && |a + {n}| == |a| + 1
  {
    var all := a + b + c;
    assert n !in all;
    assert a + {n} + b + c == all + {n};
  }

  lemma PartsSkip(a: set<nat>, k: nat, b: set<nat>, c: set<nat>, n: nat, w: nat)
    requires Parts(a, k, b, c, n, w)
    ensures n !in a && Parts(a + {n}, k + 1, b, c, n + 1, w)
  {
    SplitSkip(a, b, c, n);
  }

  lemma PartsLaunch(a: set<nat>, k: nat, b: set<nat>, c: set<nat>, n: nat, w: nat)
    requires Parts(a, k, b, c, n, w) && |b| < w && c == {}
    ensures n !in b && Parts(a, k, b + {n}, c, n + 1, w)
  {}

  lemma PartsReturn(a: set<nat>, k: nat, b: set<nat>, c: set<nat>, n: nat, w: nat, i: nat)
    requires Parts(a, k, b, c, n, w) && i in b
    ensures i !in a && Parts(a + {i}, k + 1, b - {i}, c, n, w)
  {}

  lemma PartsDrop(a: set<nat>, k: nat, b: set<nat>, n: nat, w: nat)
    requires Parts(a, k, b, {}, n, w)
    ensures Parts(a, k, {}, b, n, w)
  {}

  /** Settled, in flight and abandoned positions partition what was taken off the queue, and
      nothing is settled twice. */
  ghost predicate Partition(p: Pass) {
    && p.next <= |p.queue|
    && Parts(Idx(p.log), |p.log|, p.pending.Keys, p.abandoned, p.next, p.workers)
    && (p.stopped ==> p.pending.Keys == {}) && (!p.stopped ==> p.abandoned == {})
  }

  lemma SkipFrame(p: Pass)
    requires p.next < |p.queue|
    ensures var q := SkipNext(p);
            && Idx(q.log) == Idx(p.log) + {p.next} && |q.log| == |p.log| + 1 && q.next == p.next + 1
            && q.pending == p.pending && q.abandoned == p.abandoned && q.stopped == p.stopped
            && q.queue == p.queue && q.workers == p.workers
  {
    Append(p.log, Entry(p.next, OverBudget, 0.0), p.queue);
  }

  lemma PartitionOf(q: Pass, a: set<nat>, k: nat, b: set<nat>, c: set<nat>)
    requires Parts(a, k, b, c, q.next, q.workers) && q.next <= |q.queue|
    requires Idx(q.log) == a && |q.log| == k && q.pending.Keys == b && q.abandoned == c
    requires (q.stopped ==> b == {}) && (!q.stopped ==> c == {})
    ensures Partition(q)
  {}

  lemma OneMoreSettled(p: Pass, q: Pass)
    requires Partition(p) && p.next < |p.queue|
    requires Idx(q.log) == Idx(p.log) + {p.next} && |q.log| == |p.log| + 1 && q.next == p.next + 1
    requires q.pending == p.pending && q.abandoned == p.abandoned && q.stopped == p.stopped
    requires q.queue == p.queue && q.workers == p.workers
    ensures Partition(q)
  {
    PartsSkip(Idx(p.log), |p.log|, p.pending.Keys, p.abandoned, p.next, p.workers);
    PartitionOf(q, Idx(p.log) + {p.next}, |p.log| + 1, p.pending.Keys, p.abandoned);
  }

  lemma SkipKeepsPartition(p: Pass)
    requires Partition(p) && p.next < |p.queue|
    ensures Partition(SkipNext(p))
  {
    SkipFrame(p);
    OneMoreSettled(p, SkipNext(p));
  }

  lemma LaunchFrame(p: Pass)
    requires p.next < |p.queue|
    ensures var q := SubmitNext(p);
            && q.pending.Keys == p.pending.Keys + {p.next} && q.inFlight == p.inFlight + [p.queue[p.next]]
            && q.log == p.log && q.next == p.next + 1 && q.abandoned == p.abandoned && q.stopped == p.stopped
            && q.queue == p.queue && q.workers == p.workers && q.ceiling == p.ceiling
  {}

  lemma LaunchKeepsPartition(p: Pass)
    requires Partition(p) && Room(p) && !p.stopped
    ensures p.next !in p.pending && Partition(SubmitNext(p))
  {
    LaunchFrame(p);
    var q := SubmitNext(p);
    assert |p.pending.Keys| == |p.pending|;
    PartsLaunch(Idx(p.log), |p.log|, p.pending.Keys, p.abandoned, p.next, p.workers);
  }

  lemma ReturnFrame(p: Pass, i: nat, c: Completion)
    requires i in p.pending && i < |p.queue|
    ensures var q := Complete(p, i, c);
            && q.log == p.log + [EntryFor(i, c, p.pending[i])] && q.pending == p.pending - {i}
            && q.pending.Keys == p.pending.Keys - {i} && q.inFlight == Without(p.inFlight, p.queue[i])
            && q.queue == p.queue && q.workers == p.workers && q.ceiling == p.ceiling && q.next == p.next
            && q.abandoned == p.abandoned && q.stopped == p.stopped
  {
    assert (p.pending - {i}).Keys == p.pending.Keys - {i};
  }

  /** A returned call is settled once: it leaves the pending set and enters the log. */
  lemma ReturnKeepsPartition(p: Pass, i: nat, c: Completion)
    requires Partition(p) && i in p.pending && i < |p.queue|
    ensures Partition(Complete(p, i, c))
  {
    ReturnFrame(p, i, c);
    Append(p.log, EntryFor(i, c, p.pending[i]), p.queue);
    PartsReturn(Idx(p.log), |p.log|, p.pending.Keys, p.abandoned, p.next, p.workers, i);
  }

  lemma DropKeepsPartition(p: Pass)
    requires Partition(p) && p.pending != map[]
    ensures Partition(Abandon(p))
  {
    assert p.pending.Keys != {};
    assert Abandon(p).pending.Keys == {};
    PartsDrop(Idx(p.log), |p.log|, p.pending.Keys, p.next, p.workers);
  }

  lemma ActKeepsPartition(p: Pass, a: Act)
    requires Partition(p) && Legal(p, a)
    ensures Partition(Act1(p, a))
  {
    match a
    case Check =>
    case Skip => SkipKeepsPartition(p);
    case Launch => LaunchKeepsPartition(p);
    case Return(i, c) => ReturnKeepsPartition(p, i, c);
    case Drop => DropKeepsPartition(p);
  }

  // ---- The ledger and the table say what the log says --------------------------------------

  ghost predicate Ledger(p: Pass) {
    && p.sum == Tally(p.log)
    && p.rows == RowsOf(p.log, p.queue)
    && (!p.failed ==> p.streak < MAX_CONSECUTIVE_CALL_FAILURES && Errors(p.log) == 0)
  }

  /** One more entry, counted and written as its fate says. */
  lemma EntryKeepsLedger(p: Pass, e: Entry, q: Pass)
    requires Ledger(p) && q.queue == p.queue && q.log == p.log + [e]
    requires q.sum == Add(p.sum, e) && q.rows == p.rows + RowFor(e, p.queue)
    requires !q.failed ==> !p.failed && q.streak < MAX_CONSECUTIVE_CALL_FAILURES && !e.fate.Errored?
    ensures Ledger(q)
  {
    Append(p.log, e, p.queue);
  }

  lemma OutcomeKeepsLedger(p: Pass, i: nat, v: Outcome)
    requires Ledger(p) && i < |p.queue|
    ensures Ledger(RecordOutcome(p, i, v))
  {
    assert p.rows + [] == p.rows;
    EntryKeepsLedger(p, Entry(i, FateOf(v), Spent(v)), RecordOutcome(p, i, v));
  }

  lemma ReturnKeepsLedger(p: Pass, i: nat, c: Completion)
    requires Ledger(p) && i in p.pending && i < |p.queue|
    ensures Ledger(Complete(p, i, c))
  {
    match c
    case Ran(script) => OutcomeKeepsLedger(TakeBack(p, i), i, RunCascade(script, p.pending[i]));
    case MissingArtifacts =>
      assert p.rows + [] == p.rows;
      EntryKeepsLedger(p, Entry(i, NoArtifacts, 0.0), Complete(p, i, c));
  }

  lemma SkipKeepsLedger(p: Pass)
    requires Ledger(p) && p.next < |p.queue|
    ensures Ledger(SkipNext(p))
  {
    assert p.rows + [] == p.rows;
    EntryKeepsLedger(p, Entry(p.next, OverBudget, 0.0), SkipNext(p));
  }

  lemma ActKeepsLedger(p: Pass, a: Act)
    requires Ledger(p) && Legal(p, a)
    ensures Ledger(Act1(p, a))
  {
    match a
    case Check =>
    case Skip => SkipKeepsLedger(p);
    case Launch =>
    case Return(i, c) => ReturnKeepsLedger(p, i, c);
    case Drop =>
  }

  lemma {:induction false} TraceKeeps(p: Pass, acts: seq<Act>, q: Pass)
    requires Partition(p) && Ledger(p) && Trace(p, acts, q)
    ensures Partition(q) && Ledger(q)
    decreases |acts|
  {
    if acts != [] {
      ActKeepsPartition(p, acts[0]);
      ActKeepsLedger(p, acts[0]);
      TraceKeeps(Act1(p, acts[0]), acts[1..], q);
    }
  }

  /** Between any two acts of every run each candidate taken off the queue is in flight, abandoned or
      settled exactly once, and the counters and the table are the settled fates. */
  lemma EveryPointKeeps(queue: seq<Key>, workers: nat, ceiling: real, stopAt: Option<nat>, acts: seq<Act>, p: Pass)
    requires Trace(Start(queue, workers, ceiling, stopAt), acts, p)
    ensures Partition(p) && Ledger(p)
    ensures p.queue == queue && p.workers == workers && p.ceiling == ceiling && p.stopAt == stopAt
  {
    TraceKeeps(Start(queue, workers, ceiling, stopAt), acts, p);
    TraceFrame(Start(queue, workers, ceiling, stopAt), acts, p);
  }

  /** In particular after any rounds. */
  lemma EveryRunKeeps(queue: seq<Key>, workers: nat, ceiling: real, stopAt: Option<nat>, rounds: seq<Round>)
    ensures var p := Run(queue, workers, ceiling, stopAt, rounds);
            Partition(p) && Ledger(p) && p.queue == queue && p.workers == workers && p.ceiling == ceiling
              && p.stopAt == stopAt
  {
    var acts := RunTrace(queue, workers, ceiling, stopAt, rounds);
    EveryPointKeeps(queue, workers, ceiling, stopAt, acts, Run(queue, workers, ceiling, stopAt, rounds));
  }

  // ---- The breaker -------------------------------------------------------------------------

  /** Call failures since the last candidate that came back with an answer, or without artifacts;
      timeouts, errors and skips in between neither count nor reset. */
  function FailuresInARow(log: seq<Entry>): nat {
    if log == [] then 0
    else
      var before := FailuresInARow(log[..|log| - 1]);
      match log[|log| - 1].fate
      case CallFailed => before + 1
      case Judged => 0
      case ParseFailure => 0
      case NoArtifacts => 0
      case _ => before
  }

  /** An error, or eight call failures in a row. */
  predicate Breaks(log: seq<Entry>) {
    log != [] && (log[|log| - 1].fate.Errored? || FailuresInARow(log) >= 8)
  }

  predicate Broke(log: seq<Entry>) {
    log != [] && (Broke(log[..|log| - 1]) || Breaks(log))
  }

  ghost predicate Breaker(p: Pass) {
    p.streak == FailuresInARow(p.log) && (p.failed <==> Broke(p.log))
  }

  predicate IsAnswer(f: Fate) {
    f.Judged? || f.ParseFailure?
  }

  lemma OneMoreFate(log: seq<Entry>, e: Entry)
    ensures var n := FailuresInARow(log);
            FailuresInARow(log + [e]) == if e.fate.CallFailed? then n + 1
                                         else if IsAnswer(e.fate) || e.fate.NoArtifacts? then 0 else n
    ensures Broke(log + [e]) <==> Broke(log) || e.fate.Errored?
                                  || (e.fate.CallFailed? && FailuresInARow(log) + 1 >= MAX_CONSECUTIVE_CALL_FAILURES)
  {
    assert (log + [e])[..|log|] == log;
  }

  lemma EntryKeepsBreaker(p: Pass, e: Entry, q: Pass)
    requires Breaker(p) && q.log == p.log + [e]
    requires q.streak == if e.fate.CallFailed? then p.streak + 1
                         else if IsAnswer(e.fate) || e.fate.NoArtifacts? then 0 else p.streak
    requires q.failed <==>
               p.failed || e.fate.Errored? || (e.fate.CallFailed? && p.streak + 1 >= MAX_CONSECUTIVE_CALL_FAILURES)
    ensures Breaker(q)
  {
    OneMoreFate(p.log, e);
  }

  lemma OutcomeKeepsBreaker(p: Pass, i: nat, v: Outcome)
    requires Breaker(p) && i < |p.queue|
    ensures Breaker(RecordOutcome(p, i, v))
  {
    EntryKeepsBreaker(p, Entry(i, FateOf(v), Spent(v)), RecordOutcome(p, i, v));
  }

  lemma ReturnKeepsBreaker(p: Pass, i: nat, c: Completion)
    requires Breaker(p) && i in p.pending && i < |p.queue|
    ensures Breaker(Complete(p, i, c))
  {
    match c
    case Ran(script) => OutcomeKeepsBreaker(TakeBack(p, i), i, RunCascade(script, p.pending[i]));
    case MissingArtifacts => EntryKeepsBreaker(p, Entry(i, NoArtifacts, 0.0), Complete(p, i, c));
  }

  lemma ActKeepsBreaker(p: Pass, a: Act)
    requires Breaker(p) && Legal(p, a)
    ensures Breaker(Act1(p, a))
  {
    match a
    case Check =>
    case Skip => EntryKeepsBreaker(p, Entry(p.next, OverBudget, 0.0), SkipNext(p));
    case Launch =>
    case Return(i, c) => ReturnKeepsBreaker(p, i, c);
    case Drop =>
  }

  lemma {:induction false} TraceKeepsBreaker(p: Pass, acts: seq<Act>, q: Pass)
    requires Breaker(p) && Trace(p, acts, q)
    ensures Breaker(q)
    decreases |acts|
  {
    if acts != [] {
      ActKeepsBreaker(p, acts[0]);
      TraceKeepsBreaker(Act1(p, acts[0]), acts[1..], q);
    }
  }

  lemma {:induction false} BrokeSomewhere(log: seq<Entry>)
    ensures Broke(log) <==> exists k :: 0 < k <= |log| && Breaks(log[..k])
  {
    if log != [] {
      var n := |log| - 1;
      BrokeSomewhere(log[..n]);
      assert log[..|log|] == log;
      assert forall k :: 0 < k <= n ==> log[..n][..k] == log[..k];
      if Broke(log[..n]) {
        var k :| 0 < k <= n && Breaks(log[..n][..k]);
        assert Breaks(log[..k]);
      }
    }
  }

  /** Between any two acts of every run the pass has failed exactly when at some point of its log an
      error came back or the eighth call failure in a row did. */
  lemma FailsExactlyWhen(queue: seq<Key>, workers: nat, ceiling: real, stopAt: Option<nat>, acts: seq<Act>, p: Pass)
    requires Trace(Start(queue, workers, ceiling, stopAt), acts, p)
    ensures p.failed <==> exists k :: 0 < k <= |p.log| && Breaks(p.log[..k])
  {
    TraceKeepsBreaker(Start(queue, workers, ceiling, stopAt), acts, p);
    BrokeSomewhere(p.log);
  }

  // ---- The end of a pass -------------------------------------------------------------------

  /** With nothing in flight the pass is over: the queue is exhausted, or it failed, or a stop
      was seen. */
  ghost predicate IdleMeansOver(p: Pass) {
    p.pending == map[] ==> p.next >= |p.queue| || p.failed || StopSeen(p)
  }

  lemma {:induction false} SubmitMoreIdle(p: Pass)
    requires p.workers > 0
    ensures IdleMeansOver(SubmitMore(p))
    decreases |p.queue| - p.next
  {
    if Room(p) && !StopSeen(p) { SubmitMoreIdle(SubmitOne(p.(checks := p.checks + 1))); }
  }

  lemma OneRoundIdle(p: Pass, done: Round, q: Pass)
    requires p.workers > 0 && !p.stopped && p.pending != map[] && q == OneRound(p, done)
    ensures q.workers == p.workers && IdleMeansOver(q) && (q.stopped ==> q.pending == map[])
  {
    var a := RoundTrace(p, done);
    TraceFrame(p, a, q);
    if !StopSeen(p) {
      var r := p.(checks := p.checks + 1);
      var b := CompleteTrace(r, done);
      TraceFrame(r, b, CompleteAll(r, done));
      SubmitMoreIdle(CompleteAll(r, done));
    }
  }

  lemma {:induction false} RoundsIdle(p: Pass, rounds: seq<Round>)
    requires p.workers > 0 && IdleMeansOver(p) && (p.stopped ==> p.pending == map[])
    ensures IdleMeansOver(Rounds(p, rounds))
    decreases |rounds|
  {
    if rounds != [] && p.pending != map[] {
      var q := OneRound(p, rounds[0]);
      OneRoundIdle(p, rounds[0], q);
      RoundsIdle(q, rounds[1..]);
    }
  }

  lemma {:induction false} SkipRestKeeps(p: Pass)
    requires Partition(p) && Ledger(p)
    ensures var q := SkipRest(p);
            && Partition(q) && Ledger(q) && q.next == |p.queue| && q.abandoned == p.abandoned && q.pending == p.pending
            && q.failed == p.failed && q.stopped == p.stopped && q.workers == p.workers
            && (p.next == |p.queue| ==> q == p)
    decreases |p.queue| - p.next
  {
    if p.next < |p.queue| {
      SkipKeepsPartition(p);
      SkipKeepsLedger(p);
      SkipRestKeeps(SkipNext(p));
    }
  }

  /** The buckets of a finished pass. */
  ghost predicate AllCounted(q: Pass, total: nat) {
    q.sum.judged + q.sum.timedOut + q.sum.callFailed + q.sum.noArtifacts + q.sum.overBudget + |q.abandoned| == total
  }

  lemma SettledCounts(q: Pass)
    requires Partition(q) && Ledger(q) && q.pending == map[] && !q.failed
    ensures AllCounted(q, q.next) && |q.abandoned| <= q.workers
  {
    TallyAddsUp(q.log);
    assert q.pending.Keys == {};
  }

  /** A settled pass at the end of its queue, against the same pass before the last check. */
  ghost predicate Ended(q: Pass, p: Pass) {
    !q.failed ==>
      && AllCounted(q, |p.queue|) && |q.abandoned| <= p.workers
      && (!q.stopped ==> q.abandoned == {} && q.sum == p.sum)
  }

  lemma LastCheckKeeps(p: Pass, m: Pass)
    requires Partition(p) && Ledger(p) && IdleMeansOver(p) && p.pending == map[] && m == LastChecked(p)
    ensures Partition(m) && Ledger(m) && m.pending == map[] && m.failed == p.failed && m.queue == p.queue
    ensures m.workers == p.workers && m.sum == p.sum && (!m.failed && !m.stopped ==> m.next == |m.queue|)
  {
    assert p.pending.Keys == {};
  }

  lemma EndCounts(m: Pass)
    requires Partition(m) && Ledger(m) && m.pending == map[] && !m.failed
    requires !m.stopped ==> m.next == |m.queue|
    ensures Ended(SkipRest(m), m)
  {
    SkipRestKeeps(m);
    SettledCounts(SkipRest(m));
  }

  lemma FinishCounts(p: Pass, m: Pass, q: Pass)
    requires Partition(p) && Ledger(p) && IdleMeansOver(p) && p.pending == map[]
    requires m == LastChecked(p) && q == Finish(p) && !p.failed
    ensures Ended(q, p)
  {
    LastCheckKeeps(p, m);
    EndCounts(m);
  }

  /** Once nothing is pending the rounds are over for one of the loop's own reasons. */
  lemma RunIdle(queue: seq<Key>, workers: nat, ceiling: real, stopAt: Option<nat>, rounds: seq<Round>, p: Pass)
    requires workers > 0 && p == Run(queue, workers, ceiling, stopAt, rounds)
    ensures IdleMeansOver(p) && p.queue == queue && p.next <= |queue|
  {
    EveryRunKeeps(queue, workers, ceiling, stopAt, rounds);
    var s := Start(queue, workers, ceiling, stopAt);
    SubmitMoreIdle(s);
    var a := SubmitTrace(s);
    TraceFrame(s, a, SubmitMore(s));
    RoundsIdle(SubmitMore(s), rounds);
  }

  /** Every candidate of a finished pass is counted exactly once: judged, timed out, call failed,
      artifacts missing, skipped, or, after an operator's stop only, abandoned in flight, of
      which there are at most `workers`. Without a stop the end of the pass skips nothing that
      the budget gate did not skip. */
  lemma EveryCandidateCounted(queue: seq<Key>, workers: nat, ceiling: real, stopAt: Option<nat>, rounds: seq<Round>,
                              p: Pass)
    requires workers > 0 && p == Run(queue, workers, ceiling, stopAt, rounds) && p.pending == map[]
    ensures p.queue == queue && p.workers == workers && Ended(Finish(p), p)
  {
    EveryRunKeeps(queue, workers, ceiling, stopAt, rounds);
    RunIdle(queue, workers, ceiling, stopAt, rounds, p);
    if !p.failed { FinishCounts(p, LastChecked(p), Finish(p)); }
  }

  /** After a failure is set nothing new starts, from the very next act on; what was in flight is still
      drained. */
  lemma NothingStartsAfterFailure(p: Pass, acts: seq<Act>, q: Pass)
    requires Trace(p, acts, q) && p.failed
    ensures q.failed && q.next == p.next && q.pending.Keys <= p.pending.Keys
  {
    TraceFrame(p, acts, q);
  }

  // ---- The rows ----------------------------------------------------------------------------

  /** The key is the queue's at some settled position. */
  ghost predicate FromLog(k: Key, settled: set<nat>, queue: seq<Key>) {
    exists i :: i in settled && i < |queue| && k == queue[i]
  }

  lemma {:induction false} IdxAtMost(log: seq<Entry>)
    ensures |Idx(log)| <= |log|
  {
    if log != [] { IdxAtMost(log[..|log| - 1]); }
  }

  lemma AddOne(s: set<nat>, i: nat)
    ensures |s + {i}| == |s| + if i in s then 0 else 1
  {
    if i in s { assert s + {i} == s; }
  }

  lemma LastIsNew(log: seq<Entry>)
    requires log != [] && |Idx(log)| == |log|
    ensures var n := |log| - 1; log[n].idx !in Idx(log[..n]) && |Idx(log[..n])| == n
  {
    var n := |log| - 1;
    IdxAtMost(log[..n]);
    AddOne(Idx(log[..n]), log[n].idx);
  }

  ghost predicate RowsFrom(rows: seq<Row>, settled: set<nat>, queue: seq<Key>) {
    && (forall j :: 0 <= j < |rows| ==> FromLog(rows[j].key, settled, queue))
    && (forall j, k :: 0 <= j < k < |rows| ==> rows[j].key != rows[k].key)
  }

  lemma RowsFromMore(rows: seq<Row>, settled: set<nat>, queue: seq<Key>, i: nat, more: seq<Row>)
    requires RowsFrom(rows, settled, queue) && Distinct(queue) && i !in settled
    requires |more| <= 1 && (more != [] ==> i < |queue| && more[0].key == queue[i])
    ensures RowsFrom(rows + more, settled + {i}, queue)
  {
    forall k | FromLog(k, settled, queue) ensures FromLog(k, settled + {i}, queue) && (i < |queue| ==> k != queue[i]) {
      var j :| j in settled && j < |queue| && k == queue[j];
      assert j in settled + {i};
    }
    if more != [] { assert i in settled + {i} && FromLog(queue[i], settled + {i}, queue); }
    assert forall j :: 0 <= j < |rows| ==> (rows + more)[j] == rows[j];
  }

  /** A pass writes at most one row per key, and only for keys of its queue. */
  lemma {:induction false} RowsDistinct(log: seq<Entry>, queue: seq<Key>)
    requires |Idx(log)| == |log| && Distinct(queue)
    ensures RowsFrom(RowsOf(log, queue), Idx(log), queue)
  {
    if log != [] {
      var n := |log| - 1;
      LastIsNew(log);
      RowsDistinct(log[..n], queue);
      RowsFromMore(RowsOf(log[..n], queue), Idx(log[..n]), queue, log[n].idx, RowFor(log[n], queue));
    }
  }

  /** So do all the rows written up to any act of any run. */
  lemma RunRowsDistinct(queue: seq<Key>, workers: nat, ceiling: real, stopAt: Option<nat>, acts: seq<Act>, p: Pass)
    requires Distinct(queue) && Trace(Start(queue, workers, ceiling, stopAt), acts, p)
    ensures RowsFrom(p.rows, Below(p.next), queue)
  {
    EveryPointKeeps(queue, workers, ceiling, stopAt, acts, p);
    RowsDistinct(p.log, queue);
    forall k | FromLog(k, Idx(p.log), queue) ensures FromLog(k, Below(p.next), queue) {
      var i :| i in Idx(p.log) && i < |queue| && k == queue[i];
      assert i in Below(p.next);
    }
  }

  // ---- The live view -----------------------------------------------------------------------

  /** The in-flight list shown to operators is the pending set, key by key. */
  ghost predicate LiveMatches(flying: seq<Key>, pending: set<nat>, queue: seq<Key>) {
    && Distinct(flying) && |flying| == |pending|
    && (forall i :: i in pending ==> i < |queue| && queue[i] in flying)
    && (forall k :: k in flying ==> FromLog(k, pending, queue))
  }

  lemma {:induction false} WithoutSpec(s: seq<Key>, k: Key)
    requires Distinct(s)
    ensures var t := Without(s, k);
            && Distinct(t) && (forall x :: x in t <==> x in s && x != k)
            && |t| == |s| - if k in s then 1 else 0
  {
    if s != [] {
      var n := |s| - 1;
      WithoutSpec(s[..n], k);
      assert s == s[..n] + [s[n]];
      assert s[n] !in s[..n];
    }
  }

  lemma LaunchLive(flying: seq<Key>, pending: set<nat>, queue: seq<Key>, i: nat)
    requires LiveMatches(flying, pending, queue) && Distinct(queue) && i < |queue| && i !in pending
    ensures LiveMatches(flying + [queue[i]], pending + {i}, queue)
  {
    assert queue[i] !in flying by {
      assert forall j :: j in pending && j < |queue| ==> queue[j] != queue[i];
      assert !FromLog(queue[i], pending, queue);
    }
    forall k | k in flying + [queue[i]] ensures FromLog(k, pending + {i}, queue) {
      if k in flying { var j :| j in pending && j < |queue| && k == queue[j]; assert j in pending + {i}; }
      else { assert i in pending + {i}; }
    }
  }

  lemma ReturnLive(flying: seq<Key>, pending: set<nat>, queue: seq<Key>, i: nat)
    requires LiveMatches(flying, pending, queue) && Distinct(queue) && i in pending && i < |queue|
    ensures LiveMatches(Without(flying, queue[i]), pending - {i}, queue)
  {
    WithoutSpec(flying, queue[i]);
    forall k | k in Without(flying, queue[i]) ensures FromLog(k, pending - {i}, queue) {
      var j :| j in pending && j < |queue| && k == queue[j];
      assert j in pending - {i};
    }
  }

  ghost predicate Live(p: Pass) {
    LiveMatches(p.inFlight, p.pending.Keys, p.queue)
  }

  lemma LaunchKeepsLive(p: Pass)
    requires Partition(p) && Room(p) && !p.stopped && Distinct(p.queue) && Live(p)
    ensures Live(SubmitNext(p))
  {
    LaunchFrame(p);
    LaunchKeepsPartition(p);
    LaunchLive(p.inFlight, p.pending.Keys, p.queue, p.next);
  }

  lemma ReturnKeepsLive(p: Pass, i: nat, c: Completion)
    requires i in p.pending && i < |p.queue| && Distinct(p.queue) && Live(p)
    ensures Live(Complete(p, i, c))
  {
    ReturnLive(p.inFlight, p.pending.Keys, p.queue, i);
    ReturnFrame(p, i, c);
  }

  lemma ActKeepsLive(p: Pass, a: Act)
    requires Partition(p) && Legal(p, a) && Distinct(p.queue) && Live(p)
    ensures Live(Act1(p, a))
  {
    match a
    case Check =>
    case Skip =>
    case Launch => LaunchKeepsLive(p);
    case Return(i, c) => ReturnKeepsLive(p, i, c);
    case Drop => assert Abandon(p).pending.Keys == {};
  }

  lemma {:induction false} TraceKeepsLive(p: Pass, acts: seq<Act>, q: Pass)
    requires Partition(p) && Trace(p, acts, q) && Distinct(p.queue) && Live(p)
    ensures Live(q)
    decreases |acts|
  {
    if acts != [] {
      ActKeepsPartition(p, acts[0]);
      ActKeepsLive(p, acts[0]);
      Frame(p, acts[0]);
      TraceKeepsLive(Act1(p, acts[0]), acts[1..], q);
    }
  }

  /** Between any two acts of every run over distinct keys, the live list is the pending set and no
      more than `workers` candidates are in flight. */
  lemma LiveViewIsPending(queue: seq<Key>, workers: nat, ceiling: real, stopAt: Option<nat>, acts: seq<Act>, p: Pass)
    requires Distinct(queue) && Trace(Start(queue, workers, ceiling, stopAt), acts, p)
    ensures LiveMatches(p.inFlight, p.pending.Keys, queue) && |p.pending| <= workers
  {
    EveryPointKeeps(queue, workers, ceiling, stopAt, acts, p);
    TraceKeepsLive(Start(queue, workers, ceiling, stopAt), acts, p);
  }
}
