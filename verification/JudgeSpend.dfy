/** The spend ceiling: what the submission gate, the in-flight bound and the cascade's own gate
    together guarantee of the recorded spend, and what they do not of the charges behind it. */
module JudgeSpend {
  import opened Options
  import opened JudgeTypes
  import opened JudgeCascade
  import opened JudgePass
  import opened JudgePassTrace
  import opened JudgePassLaws
  import opened Multiples

  /** Every sub-call costs between nothing and c. */
  ghost predicate CheapRounds(rounds: seq<Round>, c: real) {
    forall k, x :: 0 <= k < |rounds| && x in rounds[k] && x.1.Ran? ==> Cheap(x.1.script, c)
  }

  predicate CheapAct(a: Act, c: real) {
    a.Return? && a.how.Ran? ==> Cheap(a.how.script, c)
  }

  ghost predicate CheapActs(acts: seq<Act>, c: real) {
    c >= 0.0 && forall i :: 0 <= i < |acts| ==> CheapAct(acts[i], c)
  }

  lemma CheapTrace(rounds: seq<Round>, acts: seq<Act>, c: real)
    requires CheapRounds(rounds, c) && SuppliesAll(rounds, acts) && c >= 0.0
    ensures CheapActs(acts, c)
  {
    forall i | 0 <= i < |acts| ensures CheapAct(acts[i], c) {
      if acts[i].Return? && acts[i].how.Ran? {
        var x := (acts[i].idx, acts[i].how);
        var k :| 0 <= k < |rounds| && (acts[i].idx, acts[i].how) in rounds[k];
        assert x in rounds[k] && x.1.Ran?;
      }
    }
  }

  lemma {:induction false} TimesGrows(a: nat, b: nat, x: real)
    requires a <= b && x >= 0.0
    ensures 0.0 <= Times(a, x) <= Times(b, x)
    decreases b
  {
    if a < b { TimesGrows(a, b - 1, x); } else if a > 0 { TimesGrows(a - 1, b - 1, x); }
  }

  // ---- How far past the ceiling -------------------------------------------------------------

  /** What one cascade can cost at most: four sub-calls, or, below a ceiling of three, less than the
      ceiling and one; nothing starts below a ceiling of zero. */
  function Worst(ceiling: real, c: real): (worst: real)
    ensures c >= 0.0 ==> worst >= 0.0
  {
    if ceiling <= 0.0 then 0.0 else if ceiling < 3.0 * c then ceiling + c else 4.0 * c
  }

  /** The ceiling, one sub-call past it, and a worst cascade for every other worker. */
  function Limit(ceiling: real, workers: nat, c: real): real {
    ceiling + c + if workers == 0 then 0.0 else Times(workers - 1, Worst(ceiling, c))
  }

  /** Counting every call in flight at its worst, the spend is within the limit. */
  ghost predicate Clear(spend: real, flying: nat, limit: real, worst: real) {
    spend + Times(flying, worst) < limit
  }

  /** The same when one of them is bounded by its own headroom and a sub-call. */
  ghost predicate ClearBut(spend: real, headroom: real, others: nat, limit: real, c: real, worst: real) {
    headroom > 0.0 && spend + headroom + c + Times(others, worst) <= limit
  }

  ghost predicate Headroom(pending: map<nat, real>) {
    forall i :: i in pending ==> pending[i] > 0.0
  }

  ghost predicate AtMost(pending: map<nat, real>, ceiling: real) {
    forall i :: i in pending ==> pending[i] <= ceiling
  }

  /** Nothing spent and nothing in flight; or the spend is clear, if need be but for one call. */
  ghost predicate WithinReach(spend: real, pending: map<nat, real>, limit: real, c: real, worst: real) {
    || (spend == 0.0 && pending == map[])
    || Clear(spend, |pending.Keys|, limit, worst)
    || exists j :: j in pending && ClearBut(spend, pending[j], |pending.Keys| - 1, limit, c, worst)
  }

  ghost predicate SpendKept(p: Pass, c: real) {
    && p.sum.spend >= 0.0 && Headroom(p.pending) && AtMost(p.pending, p.ceiling)
    && WithinReach(p.sum.spend, p.pending, Limit(p.ceiling, p.workers, c), c, Worst(p.ceiling, c))
  }

  lemma LaunchHeadroom(p: Pass)
    requires Headroom(p.pending) && Room(p) && p.sum.spend < p.ceiling
    ensures Headroom(SubmitNext(p).pending)
  {}

  lemma LaunchReach(spend: real, ceiling: real, others: nat, workers: nat, c: real)
    requires spend < ceiling && others < workers && c >= 0.0
    ensures ClearBut(spend, ceiling - spend, others, Limit(ceiling, workers, c), c, Worst(ceiling, c))
  {
    TimesGrows(others, workers - 1, Worst(ceiling, c));
  }

  lemma ReachBut(spend: real, pending: map<nat, real>, limit: real, c: real, worst: real, j: nat)
    requires j in pending && ClearBut(spend, pending[j], |pending.Keys| - 1, limit, c, worst)
    ensures WithinReach(spend, pending, limit, c, worst)
  {}

  /** The call just started is the one bounded by its headroom. */
  lemma LaunchKeepsSpend(p: Pass, c: real)
    requires SpendKept(p, c) && Partition(p) && Legal(p, Launch) && c >= 0.0
    ensures SpendKept(SubmitNext(p), c)
  {
    LaunchHeadroom(p);
    LaunchKeepsPartition(p);
    LaunchFrame(p);
    var q, n := SubmitNext(p), |p.pending.Keys|;
    assert n == |p.pending| < p.workers;
    assert |q.pending.Keys| == |p.pending.Keys + {p.next}| == n + 1;
    LaunchReach(p.sum.spend, p.ceiling, n, p.workers, c);
    ReachBut(q.sum.spend, q.pending, Limit(p.ceiling, p.workers, c), c, Worst(p.ceiling, c), p.next);
  }

  lemma SpendAfter(p: Pass, i: nat, h: Completion)
    requires i in p.pending && i < |p.queue|
    ensures Complete(p, i, h).sum.spend ==
            p.sum.spend + if h.Ran? && RunCascade(h.script, p.pending[i]).Recorded?
                          then Spent(RunCascade(h.script, p.pending[i])) else 0.0
  {}

  lemma TimesLess(n: nat, x: real)
    requires n > 0
    ensures Times(n, x) == Times(n - 1, x) + x
  {}

  /** One call back: it cost no more than the worst, and less than its headroom and a sub-call. */
  lemma ReturnWithinReach(spend: real, pending: map<nat, real>, limit: real, c: real, worst: real, i: nat, cost: real)
    requires WithinReach(spend, pending, limit, c, worst) && i in pending && c >= 0.0
    requires 0.0 <= cost <= worst && cost < pending[i] + c
    ensures WithinReach(spend + cost, pending - {i}, limit, c, worst)
  {
    var n, rest := |pending.Keys|, pending - {i};
    assert rest.Keys == pending.Keys - {i} && |rest.Keys| == n - 1;
    if Clear(spend, n, limit, worst) {
      TimesLess(n, worst);
    } else {
      var j :| j in pending && ClearBut(spend, pending[j], n - 1, limit, c, worst);
      if j == i {
        assert Clear(spend + cost, n - 1, limit, worst);
      } else {
        assert j in rest && rest[j] == pending[j];
        assert |rest.Keys - {j}| == n - 2;
        TimesLess(n - 1, worst);
        assert ClearBut(spend + cost, rest[j], |rest.Keys| - 1, limit, c, worst);
      }
    }
  }

  /** What a returned call adds to the ledger. */
  lemma ReturnCost(p: Pass, i: nat, h: Completion, c: real, cost: real)
    requires SpendKept(p, c) && i in p.pending && i < |p.queue| && CheapAct(Return(i, h), c) && c >= 0.0
    requires cost == Complete(p, i, h).sum.spend - p.sum.spend
    ensures 0.0 <= cost <= Worst(p.ceiling, c) && cost < p.pending[i] + c
  {
    SpendAfter(p, i, h);
    if h.Ran? { CascadeCost(h.script, p.pending[i], c); }
  }

  lemma ReturnKeepsSpend(p: Pass, i: nat, h: Completion, c: real)
    requires SpendKept(p, c) && i in p.pending && i < |p.queue| && CheapAct(Return(i, h), c) && c >= 0.0
    ensures SpendKept(Complete(p, i, h), c)
  {
    var cost := Complete(p, i, h).sum.spend - p.sum.spend;
    ReturnFrame(p, i, h);
    ReturnCost(p, i, h, c, cost);
    ReturnWithinReach(p.sum.spend, p.pending, Limit(p.ceiling, p.workers, c), c, Worst(p.ceiling, c), i, cost);
  }

  lemma ReachBounds(spend: real, pending: map<nat, real>, limit: real, c: real, worst: real)
    requires WithinReach(spend, pending, limit, c, worst) && c >= 0.0 && worst >= 0.0
    ensures spend == 0.0 || spend < limit
  {
    if Clear(spend, |pending.Keys|, limit, worst) {
      TimesGrows(0, |pending.Keys|, worst);
    } else if pending != map[] {
      var j :| j in pending && ClearBut(spend, pending[j], |pending.Keys| - 1, limit, c, worst);
      TimesGrows(0, |pending.Keys| - 1, worst);
    }
  }

  lemma DropKeepsSpend(p: Pass, c: real)
    requires SpendKept(p, c) && c >= 0.0
    ensures SpendKept(Abandon(p), c)
  {
    ReachBounds(p.sum.spend, p.pending, Limit(p.ceiling, p.workers, c), c, Worst(p.ceiling, c));
    assert Abandon(p).pending.Keys == {};
  }

  lemma ActKeepsSpend(p: Pass, a: Act, c: real)
    requires SpendKept(p, c) && Partition(p) && Legal(p, a) && CheapAct(a, c) && c >= 0.0
    ensures SpendKept(Act1(p, a), c)
  {
    match a
    case Check =>
    case Skip =>
    case Launch => LaunchKeepsSpend(p, c);
    case Return(i, h) => ReturnKeepsSpend(p, i, h, c);
    case Drop => DropKeepsSpend(p, c);
  }

  lemma {:induction false} TraceKeepsSpend(p: Pass, acts: seq<Act>, q: Pass, c: real)
    requires SpendKept(p, c) && Partition(p) && Trace(p, acts, q) && CheapActs(acts, c)
    ensures SpendKept(q, c)
    decreases |acts|
  {
    if acts != [] {
      ActKeepsPartition(p, acts[0]);
      ActKeepsSpend(p, acts[0], c);
      TraceKeepsSpend(Act1(p, acts[0]), acts[1..], q, c);
    }
  }

  lemma SpendWithinLimit(queue: seq<Key>, workers: nat, ceiling: real, stopAt: Option<nat>, acts: seq<Act>, c: real,
                         p: Pass)
    requires CheapActs(acts, c) && Trace(Start(queue, workers, ceiling, stopAt), acts, p)
    ensures p.sum.spend == 0.0 || p.sum.spend < Limit(ceiling, workers, c)
  {
    var s := Start(queue, workers, ceiling, stopAt);
    TraceKeepsSpend(s, acts, p, c);
    TraceFrame(s, acts, p);
    ReachBounds(p.sum.spend, p.pending, Limit(ceiling, workers, c), c, Worst(ceiling, c));
  }

  lemma LimitIs(ceiling: real, workers: nat, c: real, worst: real, limit: real)
    requires workers > 0 && worst == Worst(ceiling, c) && limit == Limit(ceiling, workers, c)
    ensures limit == ceiling + c + (workers - 1) as real * worst
  {
    TimesIsProduct(workers - 1, worst);
  }

  /** When no sub-call costs more than c, the recorded spend stays less than one sub-call, and a worst
      cascade for every worker but one, past the ceiling, between any two acts of every run. */
  lemma SpendBounded(queue: seq<Key>, workers: nat, ceiling: real, stopAt: Option<nat>, acts: seq<Act>, c: real,
                     worst: real, p: Pass)
    requires workers > 0 && CheapActs(acts, c) && Trace(Start(queue, workers, ceiling, stopAt), acts, p)
    requires worst == Worst(ceiling, c)
    ensures p.sum.spend == 0.0 || p.sum.spend < ceiling + c + (workers - 1) as real * worst
  {
    SpendWithinLimit(queue, workers, ceiling, stopAt, acts, c, p);
    LimitIs(ceiling, workers, c, worst, Limit(ceiling, workers, c));
  }

  /** With one worker it stays below the ceiling plus a single sub-call. */
  lemma OneWorkerSpendBounded(queue: seq<Key>, ceiling: real, stopAt: Option<nat>, acts: seq<Act>, c: real, p: Pass)
    requires CheapActs(acts, c) && Trace(Start(queue, 1, ceiling, stopAt), acts, p)
    ensures p.sum.spend == 0.0 || p.sum.spend < ceiling + c
  {
    SpendWithinLimit(queue, 1, ceiling, stopAt, acts, c, p);
  }

  // ---- A run that spends as it is told -----------------------------------------------------------

  /** First `fillers` candidates that come back one at a time for y each, then one per worker that come
      back together for three calls of a and one of c each. */
  datatype Load = Load(workers: nat, ceiling: real, fillers: nat, y: real, a: real, c: real)

  ghost predicate Fits(l: Load) {
    l.workers > 0 && 0.0 <= l.y <= l.c && 0.0 <= l.a <= l.c && Times(l.fillers, l.y) + 3.0 * l.a < l.ceiling
  }

  function Fill(y: real): Script {
    Script(Answer(Some(y), 1, false), Broken, Broken, Broken)
  }

  function Long(a: real, c: real): Script {
    Script(Answer(Some(a), 0, true), Answer(Some(a), 0, true), Answer(Some(a), 0, true), Answer(Some(c), 0, true))
  }

  lemma FillRecorded(y: real, remaining: real)
    ensures RunCascade(Fill(y), remaining) == Recorded(Primary, 1, y, false)
  {
    Stage(Stages(Fill(y)), Primary, Fill(y).primary, 0, 0.0, false, remaining);
  }

  lemma LongRecorded(a: real, c: real, remaining: real)
    requires a >= 0.0 && remaining > 3.0 * a
    ensures RunCascade(Long(a, c), remaining) == Recorded(Failed, 4, 3.0 * a + c, true)
  {
    var sc := Long(a, c);
    var s := Stages(sc);
    StagesUnfold(sc);
    Stage(s, Primary, sc.primary, 0, 0.0, false, remaining);
    Stage(s[1..], Retry, sc.retry, 1, a, true, remaining);
    Stage(s[1..][1..], Transcribe, sc.transcribe, 2, a + a, true, remaining);
    Stage(s[1..][1..][1..], Plain, sc.plain, 3, a + a + a, true, remaining);
  }

  /** Queue positions from i on, below k. */
  ghost predicate Window(w: set<nat>, i: nat, k: nat) {
    forall j: nat :: j in w <==> i <= j < k
  }

  lemma {:induction false} WindowSize(w: set<nat>, i: nat, k: nat)
    requires i <= k && Window(w, i, k)
    ensures |w| == k - i
    decreases k
  {
    if i < k {
      WindowSize(w - {k - 1}, i, k - 1);
      assert w == w - {k - 1} + {k - 1};
    } else {
      assert w == {};
    }
  }

  ghost predicate Roomy(pending: map<nat, real>, a: real) {
    forall j :: j in pending ==> pending[j] > 3.0 * a
  }

  /** An unstopped pass over such a queue that has recorded this much, with positions i to k in flight. */
  ghost predicate Busy(p: Pass, l: Load, spend: real, i: nat, k: nat) {
    && p.workers == l.workers && p.ceiling == l.ceiling && p.stopAt.None? && !p.failed && p.sum.spend == spend
    && |p.queue| == l.fillers + l.workers && p.next == k && i <= k <= |p.queue|
    && Window(p.pending.Keys, i, k) && Roomy(p.pending, l.a)
  }

  lemma BusySize(p: Pass, l: Load, spend: real, i: nat, k: nat)
    requires Busy(p, l, spend, i, k)
    ensures |p.pending| == k - i
  {
    WindowSize(p.pending.Keys, i, k);
    assert |p.pending| == |p.pending.Keys|;
  }

  lemma StartOne(p: Pass, b: Pass)
    requires Room(p) && p.stopAt.None? && p.sum.spend < p.ceiling && b == SubmitNext(p.(checks := p.checks + 1))
    ensures SubmitMore(p) == SubmitMore(b)
  {
    SubmitStep(p, p.(checks := p.checks + 1), b);
  }

  lemma SubmitStep(p: Pass, q: Pass, b: Pass)
    requires Room(p) && !StopSeen(p) && q == p.(checks := p.checks + 1) && b == SubmitOne(q)
    ensures SubmitMore(p) == SubmitMore(b)
  {}

  lemma BusyMore(p: Pass, l: Load, spend: real, i: nat, k: nat, b: Pass)
    requires Busy(p, l, spend, i, k) && k < |p.queue| && spend + 3.0 * l.a < l.ceiling
    requires b == SubmitNext(p.(checks := p.checks + 1))
    ensures Busy(b, l, spend, i, k + 1)
  {
    assert b.pending.Keys == p.pending.Keys + {k};
  }

  lemma OneStarted(p: Pass, l: Load, spend: real, i: nat, k: nat, b: Pass)
    requires Fits(l) && Busy(p, l, spend, i, k) && k < |p.queue| && k - i < l.workers && spend + 3.0 * l.a < l.ceiling
    requires b == SubmitNext(p.(checks := p.checks + 1))
    ensures SubmitMore(p) == SubmitMore(b) && Busy(b, l, spend, i, k + 1)
  {
    BusySize(p, l, spend, i, k);
    StartOne(p, b);
    BusyMore(p, l, spend, i, k, b);
  }

  lemma NoMoreStarted(p: Pass, l: Load, spend: real, i: nat, k: nat)
    requires Busy(p, l, spend, i, k) && (k == |p.queue| || k - i == l.workers)
    ensures SubmitMore(p) == p
  {
    BusySize(p, l, spend, i, k);
  }

  lemma {:induction false} AllStarted(p: Pass, l: Load, k: nat, q: Pass)
    requires Fits(l) && Busy(p, l, 0.0, 0, k) && k <= l.workers && q == SubmitMore(p)
    ensures Busy(q, l, 0.0, 0, l.workers)
    decreases l.workers - k
  {
    if k < l.workers {
      TimesGrows(0, l.fillers, l.y);
      var b := SubmitNext(p.(checks := p.checks + 1));
      OneStarted(p, l, 0.0, 0, k, b);
      AllStarted(b, l, k + 1, q);
    } else {
      NoMoreStarted(p, l, 0.0, 0, k);
    }
  }

  lemma OneBack(p: Pass, l: Load, spend: real, i: nat, k: nat, sc: Script, cost: real, q: Pass)
    requires Busy(p, l, spend, i, k) && i < k && q == Complete(p, i, Ran(sc))
    requires RunCascade(sc, p.pending[i]).Recorded? && Spent(RunCascade(sc, p.pending[i])) == cost
    ensures Busy(q, l, spend + cost, i + 1, k)
  {
    ReturnFrame(p, i, Ran(sc));
    SpendAfter(p, i, Ran(sc));
  }

  lemma OneByOne(p: Pass, i: nat, h: Completion)
    requires i in p.pending && i < |p.queue|
    ensures CompleteAll(p, [(i, h)]) == Complete(p, i, h)
  {
    var none: Round := [];
    assert [(i, h)][1..] == none;
    assert CompleteAll(p, [(i, h)]) == CompleteAll(Complete(p, i, h), none);
  }

  lemma RoundWithoutStop(b: Pass, done: Round)
    requires b.stopAt.None?
    ensures OneRound(b, done) == SubmitMore(CompleteAll(b.(checks := b.checks + 1), done))
  {}

  lemma FillBack(r: Pass, l: Load, spend: real, i: nat, k: nat, m: Pass)
    requires i < k && Busy(r, l, spend, i, k) && m == CompleteAll(r, [(i, Ran(Fill(l.y)))])
    ensures Busy(m, l, spend + l.y, i + 1, k)
  {
    OneByOne(r, i, Ran(Fill(l.y)));
    FillRecorded(l.y, r.pending[i]);
    OneBack(r, l, spend, i, k, Fill(l.y), l.y, m);
  }

  lemma Replaced(m: Pass, l: Load, spend: real, i: nat, k: nat, q: Pass)
    requires Fits(l) && Busy(m, l, spend, i, k) && k < |m.queue| && k - i == l.workers - 1
    requires spend + 3.0 * l.a < l.ceiling && q == SubmitMore(m)
    ensures Busy(q, l, spend, i, k + 1)
  {
    var b := SubmitNext(m.(checks := m.checks + 1));
    OneStarted(m, l, spend, i, k, b);
    NoMoreStarted(b, l, spend, i, k + 1);
  }

  /** A filler comes back and the next candidate takes its place. */
  lemma FillRound(p: Pass, l: Load, spend: real, i: nat, k: nat, q: Pass)
    requires Fits(l) && Busy(p, l, spend, i, k) && k < |p.queue| && k - i == l.workers
    requires spend + l.y + 3.0 * l.a < l.ceiling && q == OneRound(p, [(i, Ran(Fill(l.y)))])
    ensures Busy(q, l, spend + l.y, i + 1, k + 1)
  {
    var r := p.(checks := p.checks + 1);
    RoundWithoutStop(p, [(i, Ran(Fill(l.y)))]);
    FillBack(r, l, spend, i, k, CompleteAll(r, [(i, Ran(Fill(l.y)))]));
    Replaced(CompleteAll(r, [(i, Ran(Fill(l.y)))]), l, spend + l.y, i + 1, k, q);
  }

  function Answers(i: nat, k: nat, sc: Script): Round
    decreases k - i
  {
    if i >= k then [] else [(i, Ran(sc))] + Answers(i + 1, k, sc)
  }

  lemma AnswersStep(p: Pass, i: nat, k: nat, sc: Script, m: Pass)
    requires i < k && i in p.pending && i < |p.queue| && m == Complete(p, i, Ran(sc))
    ensures CompleteAll(p, Answers(i, k, sc)) == CompleteAll(m, Answers(i + 1, k, sc))
  {
    var done := Answers(i, k, sc);
    assert done[0] == (i, Ran(sc)) && done[1..] == Answers(i + 1, k, sc);
  }

  lemma {:induction false} AllBack(p: Pass, l: Load, spend: real, i: nat, k: nat, q: Pass)
    requires Fits(l) && Busy(p, l, spend, i, k) && q == CompleteAll(p, Answers(i, k, Long(l.a, l.c)))
    ensures Busy(q, l, spend + Times(k - i, 3.0 * l.a + l.c), k, k)
    decreases k - i
  {
    if i < k {
      var sc, cost := Long(l.a, l.c), 3.0 * l.a + l.c;
      var m := Complete(p, i, Ran(sc));
      LongRecorded(l.a, l.c, p.pending[i]);
      OneBack(p, l, spend, i, k, sc, cost, m);
      AnswersStep(p, i, k, sc, m);
      AllBack(m, l, spend + cost, i + 1, k, q);
    }
  }

  lemma NothingLeft(m: Pass, l: Load, spend: real, k: nat, q: Pass)
    requires Busy(m, l, spend, k, k) && k == |m.queue| && q == SubmitMore(m)
    ensures q.sum.spend == spend
  {
    NoMoreStarted(m, l, spend, k, k);
  }

  lemma LastRound(p: Pass, l: Load, spend: real, i: nat, k: nat, done: Round, q: Pass)
    requires Fits(l) && Busy(p, l, spend, i, k) && k == |p.queue|
    requires done == Answers(i, k, Long(l.a, l.c)) && q == OneRound(p, done)
    ensures q.sum.spend == spend + Times(k - i, 3.0 * l.a + l.c)
  {
    var r := p.(checks := p.checks + 1);
    RoundWithoutStop(p, done);
    AllBack(r, l, spend, i, k, CompleteAll(r, done));
    NothingLeft(CompleteAll(r, done), l, spend + Times(k - i, 3.0 * l.a + l.c), k, q);
  }

  function RoundsFrom(l: Load, i: nat): seq<Round>
    decreases l.fillers - i
  {
    if i < l.fillers then [[(i, Ran(Fill(l.y)))]] + RoundsFrom(l, i + 1)
    else [Answers(l.fillers, l.workers + l.fillers, Long(l.a, l.c))]
  }

  lemma OneRoundMore(p: Pass, rounds: seq<Round>, first: Round, rest: seq<Round>)
    requires rounds == [first] + rest && p.pending != map[]
    ensures Rounds(p, rounds) == Rounds(OneRound(p, first), rest)
  {
    assert rounds[0] == first && rounds[1..] == rest;
  }

  lemma FillersFit(l: Load, i: nat)
    requires Fits(l) && i < l.fillers
    ensures Times(i, l.y) + l.y == Times(i + 1, l.y) && Times(i + 1, l.y) + 3.0 * l.a < l.ceiling
  {
    TimesGrows(i + 1, l.fillers, l.y);
  }

  lemma RoundsSplit(l: Load, i: nat, first: Round)
    requires i < l.fillers && first == [(i, Ran(Fill(l.y)))]
    ensures RoundsFrom(l, i) == [first] + RoundsFrom(l, i + 1)
  {}

  lemma RoundsEnd(l: Load)
    ensures RoundsFrom(l, l.fillers) == [Answers(l.fillers, l.workers + l.fillers, Long(l.a, l.c))]
  {}

  lemma MidRound(p: Pass, l: Load, i: nat, rounds: seq<Round>, rest: seq<Round>, q: Pass) returns (m: Pass)
    requires Fits(l) && i < l.fillers && Busy(p, l, Times(i, l.y), i, l.workers + i) && p.pending != map[]
    requires rounds == [[(i, Ran(Fill(l.y)))]] + rest && q == Rounds(p, rounds)
    ensures Busy(m, l, Times(i + 1, l.y), i + 1, l.workers + i + 1) && q == Rounds(m, rest)
  {
    var first: Round := [(i, Ran(Fill(l.y)))];
    m := OneRound(p, first);
    OneRoundMore(p, rounds, first, rest);
    FillersFit(l, i);
    FillRound(p, l, Times(i, l.y), i, l.workers + i, m);
  }

  lemma OnlyRound(p: Pass, rounds: seq<Round>, last: Round, q: Pass)
    requires rounds == [last] && p.pending != map[] && q == Rounds(p, rounds)
    ensures q == OneRound(p, last)
  {
    var none: seq<Round> := [];
    OneRoundMore(p, rounds, last, none);
  }

  lemma EndRound(p: Pass, l: Load, spend: real, i: nat, k: nat, rounds: seq<Round>, q: Pass)
    requires Fits(l) && Busy(p, l, spend, i, k) && k == |p.queue| && p.pending != map[]
    requires rounds == [Answers(i, k, Long(l.a, l.c))] && q == Rounds(p, rounds)
    ensures q.sum.spend == spend + Times(k - i, 3.0 * l.a + l.c)
  {
    OnlyRound(p, rounds, rounds[0], q);
    LastRound(p, l, spend, i, k, rounds[0], q);
  }

  lemma SomeFlying(p: Pass, l: Load, spend: real, i: nat, k: nat)
    requires Busy(p, l, spend, i, k) && i < k
    ensures p.pending != map[]
  {
    assert i in p.pending.Keys;
  }

  ghost predicate Filling(p: Pass, l: Load, i: nat) {
    i <= l.fillers && Busy(p, l, Times(i, l.y), i, l.workers + i)
  }

  lemma LoadStep(p: Pass, l: Load, i: nat, rounds: seq<Round>, q: Pass) returns (m: Pass, rest: seq<Round>)
    requires Fits(l) && i < l.fillers && Filling(p, l, i) && rounds == RoundsFrom(l, i) && q == Rounds(p, rounds)
    ensures Filling(m, l, i + 1) && rest == RoundsFrom(l, i + 1) && q == Rounds(m, rest)
  {
    SomeFlying(p, l, Times(i, l.y), i, l.workers + i);
    rest := RoundsFrom(l, i + 1);
    RoundsSplit(l, i, [(i, Ran(Fill(l.y)))]);
    m := MidRound(p, l, i, rounds, rest, q);
  }

  lemma LoadEnd(p: Pass, l: Load, spend: real, i: nat, k: nat, rounds: seq<Round>, q: Pass)
    requires Fits(l) && Busy(p, l, spend, i, k) && i == l.fillers && k == l.workers + l.fillers
    requires rounds == [Answers(i, k, Long(l.a, l.c))] && q == Rounds(p, rounds)
    ensures q.sum.spend == spend + Times(l.workers, 3.0 * l.a + l.c)
  {
    SomeFlying(p, l, spend, i, k);
    EndRound(p, l, spend, i, k, rounds, q);
  }

  lemma LoadDone(p: Pass, l: Load, i: nat, rounds: seq<Round>, q: Pass)
    requires Fits(l) && i == l.fillers && Filling(p, l, i) && rounds == RoundsFrom(l, i) && q == Rounds(p, rounds)
    ensures q.sum.spend == Times(i, l.y) + Times(l.workers, 3.0 * l.a + l.c)
  {
    RoundsEnd(l);
    LoadEnd(p, l, Times(i, l.y), i, l.workers + i, rounds, q);
  }

  lemma {:induction false} LoadFrom(p: Pass, l: Load, i: nat, rounds: seq<Round>, q: Pass)
    requires Fits(l) && Filling(p, l, i) && rounds == RoundsFrom(l, i) && q == Rounds(p, rounds)
    ensures q.sum.spend == Times(l.fillers, l.y) + Times(l.workers, 3.0 * l.a + l.c)
    decreases l.fillers - i
  {
    if i < l.fillers {
      var m, rest := LoadStep(p, l, i, rounds, q);
      LoadFrom(m, l, i + 1, rest, q);
    } else {
      LoadDone(p, l, i, rounds, q);
    }
  }

  function ManyKeys(n: nat): (queue: seq<Key>)
    ensures |queue| == n
  {
    seq(n, (i: nat) => Key("", i))
  }

  function Loaded(l: Load): Pass {
    Run(ManyKeys(l.fillers + l.workers), l.workers, l.ceiling, None, RoundsFrom(l, 0))
  }

  lemma FirstStarted(l: Load, queue: seq<Key>, b: Pass)
    requires Fits(l) && |queue| == l.fillers + l.workers && b == SubmitMore(Start(queue, l.workers, l.ceiling, None))
    ensures Filling(b, l, 0)
  {
    var s := Start(queue, l.workers, l.ceiling, None);
    AllStarted(s, l, 0, b);
  }

  lemma RunIs(queue: seq<Key>, l: Load, rounds: seq<Round>, b: Pass)
    requires b == SubmitMore(Start(queue, l.workers, l.ceiling, None))
    ensures Run(queue, l.workers, l.ceiling, None, rounds) == Rounds(b, rounds)
  {}

  lemma LoadedStarts(l: Load, q: Pass) returns (b: Pass)
    requires Fits(l) && q == Loaded(l)
    ensures Filling(b, l, 0) && q == Rounds(b, RoundsFrom(l, 0))
  {
    var queue := ManyKeys(l.fillers + l.workers);
    b := SubmitMore(Start(queue, l.workers, l.ceiling, None));
    FirstStarted(l, queue, b);
    RunIs(queue, l, RoundsFrom(l, 0), b);
  }

  lemma LoadedSpends(l: Load, q: Pass)
    requires Fits(l) && q == Loaded(l)
    ensures q.sum.spend == Times(l.fillers, l.y) + Times(l.workers, 3.0 * l.a + l.c)
  {
    var b := LoadedStarts(l, q);
    LoadFrom(b, l, 0, RoundsFrom(l, 0), q);
  }

  lemma {:induction false} AnswersSame(i: nat, k: nat, sc: Script)
    ensures forall x :: x in Answers(i, k, sc) ==> x.1 == Ran(sc)
    decreases k - i
  {
    if i < k { AnswersSame(i + 1, k, sc); }
  }

  lemma {:induction false} LoadIsCheap(l: Load, i: nat)
    requires Fits(l)
    ensures CheapRounds(RoundsFrom(l, i), l.c)
    decreases l.fillers - i
  {
    if i < l.fillers {
      LoadIsCheap(l, i + 1);
      var rounds, rest := RoundsFrom(l, i), RoundsFrom(l, i + 1);
      forall k: int, x: (nat, Completion) | 0 <= k < |rounds| && x in rounds[k] && x.1.Ran?
        ensures Cheap(x.1.script, l.c)
      {
        if k > 0 { assert rounds[k] == rest[k - 1]; }
      }
    } else {
      AnswersSame(l.fillers, l.workers + l.fillers, Long(l.a, l.c));
    }
  }

  // ---- The limit is approached --------------------------------------------------------------------

  /** A sum in equal parts of at most c. */
  lemma EqualParts(s: real, c: real) returns (k: nat, y: real)
    requires s >= 0.0 && c > 0.0
    ensures 0.0 <= y <= c && Times(k, y) == s
  {
    k := (s / c).Floor + 1;
    y := PartOf(s, c, k);
    TimesIsProduct(k, y);
  }

  lemma PartOf(s: real, c: real, k: nat) returns (y: real)
    requires s >= 0.0 && c > 0.0 && k > 0 && s / c < k as real
    ensures 0.0 <= y <= c && k as real * y == s
  {
    y := s / k as real;
    assert s == (s / c) * c;
    Scaled(s / c, k as real, c);
    if y > c { ScaledMore(c, y, k as real); }
  }

  lemma Scaled(x: real, n: real, c: real)
    requires x < n && c > 0.0
    ensures x * c < n * c
  {}

  lemma ScaledMore(c: real, y: real, n: real)
    requires c < y && n > 0.0
    ensures n * c < n * y
  {}

  lemma {:induction false} TimesMinus(n: nat, x: real, d: real)
    ensures Times(n, x - d) == Times(n, x) - Times(n, d)
  {
    if n > 0 { TimesMinus(n - 1, x, d); }
  }

  lemma LimitByWorkers(ceiling: real, workers: nat, c: real)
    requires workers > 0 && 0.0 < ceiling <= 3.0 * c
    ensures Limit(ceiling, workers, c) == Times(workers, ceiling + c)
  {
    assert Worst(ceiling, c) == ceiling + c;
  }

  /** Above a ceiling of three sub-calls: fill up to just under three of the ceiling. */
  lemma ApproachedAbove(workers: nat, ceiling: real, c: real, bit: real) returns (l: Load)
    requires workers > 0 && c > 0.0 && ceiling > 3.0 * c && bit > 0.0
    ensures Fits(l) && l.workers == workers && l.ceiling == ceiling && l.c == c
    ensures Times(l.fillers, l.y) + Times(workers, 3.0 * l.a + c) >= Limit(ceiling, workers, c) - bit
  {
    var less := if bit < ceiling - 3.0 * c then bit else ceiling - 3.0 * c;
    var k, y := EqualParts(ceiling - 3.0 * c - less, c);
    l := Load(workers, ceiling, k, y, c, c);
    assert Times(workers, 4.0 * c) == Times(workers - 1, 4.0 * c) + 4.0 * c;
    assert 3.0 * l.a + c == 4.0 * c == Worst(ceiling, c);
  }

  /** Up to that ceiling: every worker just under the ceiling and a sub-call. */
  lemma ApproachedBelow(workers: nat, ceiling: real, c: real, bit: real) returns (l: Load)
    requires workers > 0 && 0.0 < ceiling <= 3.0 * c && bit > 0.0
    ensures Fits(l) && l.workers == workers && l.ceiling == ceiling && l.c == c
    ensures Times(l.fillers, l.y) + Times(workers, 3.0 * l.a + c) >= Limit(ceiling, workers, c) - bit
  {
    var share := Share(workers, bit);
    var less := if share < ceiling then share else ceiling;
    l := Load(workers, ceiling, 0, 0.0, (ceiling - less) / 3.0, c);
    assert 3.0 * l.a + c == ceiling + c - less;
    LimitByWorkers(ceiling, workers, c);
    TimesMinus(workers, ceiling + c, less);
    TimesMonotone(workers, less, share);
  }

  lemma Share(n: nat, bit: real) returns (share: real)
    requires n > 0 && bit > 0.0
    ensures share > 0.0 && Times(n, share) == bit
  {
    share := bit / n as real;
    TimesIsProduct(n, share);
    assert n as real * share == bit;
    if share <= 0.0 { NotPositive(n as real, share); }
  }

  lemma NotPositive(n: real, x: real)
    requires n > 0.0 && x <= 0.0
    ensures n * x <= 0.0
  {}

  /** For every number of workers, every positive ceiling and cost of a sub-call, and every bit more
      than nothing, a run that ends no more than that bit short of the limit. */
  lemma LimitApproached(workers: nat, ceiling: real, c: real, bit: real) returns (queue: seq<Key>, rounds: seq<Round>)
    requires workers > 0 && ceiling > 0.0 && c > 0.0 && bit > 0.0
    ensures CheapRounds(rounds, c)
    ensures Run(queue, workers, ceiling, None, rounds).sum.spend >= Limit(ceiling, workers, c) - bit
  {
    var l;
    if ceiling > 3.0 * c {
      l := ApproachedAbove(workers, ceiling, c, bit);
    } else {
      l := ApproachedBelow(workers, ceiling, c, bit);
    }
    queue, rounds := ManyKeys(l.fillers + l.workers), RoundsFrom(l, 0);
    LoadedSpends(l, Loaded(l));
    LoadIsCheap(l, 0);
  }

  // ---- One sub-call per worker ----------------------------------------------------------------------

  /** The spend is at most one sub-call per worker past the ceiling. */
  ghost predicate OneCallEach(queue: seq<Key>, workers: nat, ceiling: real, stopAt: Option<nat>, rounds: seq<Round>,
                              c: real) {
    var spend := Run(queue, workers, ceiling, stopAt, rounds).sum.spend;
    spend == 0.0 || spend <= ceiling + Times(workers, c)
  }

  lemma {:induction false} NothingFlies(p: Pass, acts: seq<Act>, q: Pass)
    requires Trace(p, acts, q) && p.workers == 0 && p.pending == map[]
    ensures q.sum.spend == p.sum.spend
    decreases |acts|
  {
    if acts != [] { NothingFlies(Act1(p, acts[0]), acts[1..], q); }
  }

  lemma {:induction false} TimesOfNothing(n: nat)
    ensures Times(n, 0.0) == 0.0
  {
    if n > 0 { TimesOfNothing(n - 1); }
  }

  lemma LimitSmall(workers: nat, ceiling: real, c: real)
    requires c >= 0.0 && workers > 0 && (workers == 1 || c == 0.0 || ceiling <= 0.0)
    ensures Limit(ceiling, workers, c) <= ceiling + Times(workers, c)
  {
    TimesOfNothing(workers - 1);
    TimesGrows(0, workers - 1, c);
  }

  lemma FewKeepIt(queue: seq<Key>, workers: nat, ceiling: real, stopAt: Option<nat>, rounds: seq<Round>, c: real)
    requires CheapRounds(rounds, c) && c >= 0.0 && (workers <= 1 || c == 0.0 || ceiling <= 0.0)
    ensures OneCallEach(queue, workers, ceiling, stopAt, rounds, c)
  {
    var p := Run(queue, workers, ceiling, stopAt, rounds);
    var acts := RunTrace(queue, workers, ceiling, stopAt, rounds);
    CheapTrace(rounds, acts, c);
    if workers == 0 {
      NothingFlies(Start(queue, 0, ceiling, stopAt), acts, p);
    } else {
      SpendWithinLimit(queue, workers, ceiling, stopAt, acts, c, p);
      LimitSmall(workers, ceiling, c);
    }
  }

  /** With two workers or more the limit is past it by more than nothing. */
  lemma LimitLarge(workers: nat, ceiling: real, c: real) returns (more: real)
    requires workers > 1 && c > 0.0 && ceiling > 0.0
    ensures more > 0.0 && Limit(ceiling, workers, c) >= ceiling + Times(workers, c) + more
  {
    more := Worst(ceiling, c) - c;
    TimesMinus(workers - 1, Worst(ceiling, c), c);
    TimesGrows(1, workers - 1, more);
  }

  lemma ManyBreakIt(workers: nat, ceiling: real, c: real) returns (queue: seq<Key>, rounds: seq<Round>)
    requires workers > 1 && c > 0.0 && ceiling > 0.0
    ensures CheapRounds(rounds, c) && !OneCallEach(queue, workers, ceiling, None, rounds, c)
  {
    var more := LimitLarge(workers, ceiling, c);
    queue, rounds := LimitApproached(workers, ceiling, c, more / 2.0);
    TimesGrows(0, workers, c);
  }

  /** That a pass overshoots by at most one sub-call per worker in flight is true of all its runs
      exactly with at most one worker, or when nothing costs anything or may start at all. */
  lemma OneCallEachExactlyWhen(workers: nat, ceiling: real, c: real)
    requires c >= 0.0
    ensures (forall queue, stopAt, rounds :: CheapRounds(rounds, c) ==>
               OneCallEach(queue, workers, ceiling, stopAt, rounds, c))
            <==> workers <= 1 || c == 0.0 || ceiling <= 0.0
  {
    if workers <= 1 || c == 0.0 || ceiling <= 0.0 {
      forall queue, stopAt, rounds | CheapRounds(rounds, c)
        ensures OneCallEach(queue, workers, ceiling, stopAt, rounds, c)
      {
        FewKeepIt(queue, workers, ceiling, stopAt, rounds, c);
      }
    } else {
      var queue, rounds := ManyBreakIt(workers, ceiling, c);
    }
  }

  // ---- Nobody is skipped below the ceiling ----------------------------------------------------

  ghost predicate SkipsDue(p: Pass) {
    Headroom(p.pending) && (p.sum.overBudget > 0 ==> p.sum.spend >= p.ceiling)
  }

  lemma ReturnKeepsSkips(p: Pass, i: nat, h: Completion, c: real)
    requires SkipsDue(p) && i in p.pending && i < |p.queue| && CheapAct(Return(i, h), c) && c >= 0.0
    ensures SkipsDue(Complete(p, i, h))
  {
    ReturnFrame(p, i, h);
    SpendAfter(p, i, h);
    if h.Ran? { CascadeCost(h.script, p.pending[i], c); }
    assert Complete(p, i, h).sum.overBudget == p.sum.overBudget;
  }

  lemma ActKeepsSkips(p: Pass, a: Act, c: real)
    requires SkipsDue(p) && Legal(p, a) && CheapAct(a, c) && c >= 0.0
    ensures SkipsDue(Act1(p, a))
  {
    match a
    case Check =>
    case Skip =>
    case Launch => LaunchHeadroom(p);
    case Return(i, h) => ReturnKeepsSkips(p, i, h, c);
    case Drop =>
  }

  lemma {:induction false} TraceKeepsSkips(p: Pass, acts: seq<Act>, q: Pass, c: real)
    requires SkipsDue(p) && Trace(p, acts, q) && CheapActs(acts, c)
    ensures SkipsDue(q)
    decreases |acts|
  {
    if acts != [] {
      ActKeepsSkips(p, acts[0], c);
      TraceKeepsSkips(Act1(p, acts[0]), acts[1..], q, c);
    }
  }

  /** Between any two acts of every run: while the recorded spend is below the ceiling no candidate has
      been skipped for it. */
  lemma NoSkipBelowCeiling(queue: seq<Key>, workers: nat, ceiling: real, stopAt: Option<nat>, acts: seq<Act>, c: real,
                           p: Pass)
    requires CheapActs(acts, c) && Trace(Start(queue, workers, ceiling, stopAt), acts, p)
    ensures p.sum.spend < ceiling ==> p.sum.overBudget == 0
  {
    var s := Start(queue, workers, ceiling, stopAt);
    TraceKeepsSkips(s, acts, p, c);
    TraceFrame(s, acts, p);
  }

  lemma {:induction false} SkipRestCounts(p: Pass)
    requires p.next <= |p.queue|
    ensures var q := SkipRest(p);
            q.sum.spend == p.sum.spend && q.sum.overBudget == p.sum.overBudget + (|p.queue| - p.next)
            && q.stopped == p.stopped
    decreases |p.queue| - p.next
  {
    if p.next < |p.queue| { SkipRestCounts(SkipNext(p)); }
  }

  /** The report at the end can still show skips below the ceiling: exactly when the pass did not fail
      and left candidates on its queue, which only an operator's stop makes it do. */
  lemma SkippedBelowCeilingExactlyWhen(queue: seq<Key>, workers: nat, ceiling: real, stopAt: Option<nat>,
                                       rounds: seq<Round>, c: real, p: Pass, f: Pass)
    requires workers > 0 && CheapRounds(rounds, c) && c >= 0.0
    requires p == Run(queue, workers, ceiling, stopAt, rounds) && p.pending == map[] && f == Finish(p)
    ensures (f.sum.overBudget > 0 && f.sum.spend < ceiling)
            <==> (!p.failed && p.next < |queue| && p.sum.spend < ceiling)
    ensures f.sum.overBudget > 0 && f.sum.spend < ceiling ==> f.stopped && f.sum.overBudget == |queue| - p.next
  {
    var acts := RunTrace(queue, workers, ceiling, stopAt, rounds);
    CheapTrace(rounds, acts, c);
    NoSkipBelowCeiling(queue, workers, ceiling, stopAt, acts, c, p);
    RunIdle(queue, workers, ceiling, stopAt, rounds, p);
    if !p.failed { SkipRestCounts(LastChecked(p)); }
  }

  /** A stop that is there from the start: nothing is spent and the one candidate is over budget. */
  lemma StoppedAtOnce(k: Key, p: Pass)
    requires p == Run([k], 1, 5.0, Some(0), [])
    ensures p.pending == map[] && Finish(p).sum.overBudget == 1 && Finish(p).sum.spend == 0.0 && Finish(p).stopped
  {
    var s := Start([k], 1, 5.0, Some(0));
    assert SubmitMore(s) == s.(checks := 1) == p;
    SkipRestCounts(LastChecked(p));
  }

  // ---- Recorded is not charged ----------------------------------------------------------------

  /** What the sub-calls of the settled candidates cost. */
  function Charged(log: seq<Entry>): real {
    if log == [] then 0.0 else Charged(log[..|log| - 1]) + log[|log| - 1].paid
  }

  ghost predicate PaidNonNegative(log: seq<Entry>) {
    forall i :: 0 <= i < |log| ==> log[i].paid >= 0.0
  }

  /** No candidate that ended without a judgment had paid for a sub-call. */
  ghost predicate NothingLost(log: seq<Entry>) {
    forall i :: 0 <= i < |log| && !IsAnswer(log[i].fate) ==> log[i].paid == 0.0
  }

  lemma {:induction false} ChargedAgainstSpend(log: seq<Entry>)
    requires PaidNonNegative(log)
    ensures Tally(log).spend <= Charged(log)
    ensures Tally(log).spend == Charged(log) <==> NothingLost(log)
  {
    if log != [] {
      var n := |log| - 1;
      ChargedAgainstSpend(log[..n]);
      assert log == log[..n] + [log[n]];
      if NothingLost(log[..n]) && (IsAnswer(log[n].fate) || log[n].paid == 0.0) { assert NothingLost(log); }
      if NothingLost(log) { assert NothingLost(log[..n]); }
    }
  }

  ghost predicate PaidKept(p: Pass) {
    PaidNonNegative(p.log) && Headroom(p.pending)
  }

  lemma {:induction false} TraceKeepsPaid(p: Pass, acts: seq<Act>, q: Pass, c: real)
    requires PaidKept(p) && Trace(p, acts, q) && CheapActs(acts, c)
    ensures PaidKept(q)
    decreases |acts|
  {
    if acts != [] {
      var a := acts[0];
      if a.Return? {
        ReturnFrame(p, a.idx, a.how);
        if a.how.Ran? { CascadeCost(a.how.script, p.pending[a.idx], c); }
      }
      TraceKeepsPaid(Act1(p, a), acts[1..], q, c);
    }
  }

  /** By the log: no candidate was cut short after a paid sub-call. */
  lemma RecordedIsChargedByLog(queue: seq<Key>, workers: nat, ceiling: real, stopAt: Option<nat>, acts: seq<Act>,
                                     c: real, p: Pass)
    requires CheapActs(acts, c) && Trace(Start(queue, workers, ceiling, stopAt), acts, p)
    ensures p.sum.spend <= Charged(p.log)
    ensures p.sum.spend == Charged(p.log) <==> NothingLost(p.log)
  {
    TraceKeepsPaid(Start(queue, workers, ceiling, stopAt), acts, p, c);
    EveryPointKeeps(queue, workers, ceiling, stopAt, acts, p);
    ChargedAgainstSpend(p.log);
  }

  /** The act takes back a cascade that its script and headroom make pay without a judgment. */
  predicate LosesCost(p: Pass, a: Act) {
    a.Return? && a.how.Ran? && a.idx in p.pending && Loses(a.how.script, p.pending[a.idx])
  }

  ghost predicate KeepsCosts(p: Pass, acts: seq<Act>)
    decreases |acts|
  {
    acts != [] && Legal(p, acts[0]) ==> !LosesCost(p, acts[0]) && KeepsCosts(Act1(p, acts[0]), acts[1..])
  }

  /** What was charged and not recorded. */
  function Gap(p: Pass): real {
    Charged(p.log) - p.sum.spend
  }

  lemma ChargedMore(log: seq<Entry>, e: Entry)
    ensures Charged(log + [e]) == Charged(log) + e.paid
  {
    assert (log + [e])[..|log|] == log;
  }

  lemma ReturnCharges(p: Pass, i: nat, h: Completion, c: real)
    requires Headroom(p.pending) && i in p.pending && i < |p.queue| && CheapAct(Return(i, h), c) && c >= 0.0
    ensures Gap(Complete(p, i, h)) >= Gap(p) && (Gap(Complete(p, i, h)) == Gap(p) <==> !LosesCost(p, Return(i, h)))
  {
    ReturnFrame(p, i, h);
    SpendAfter(p, i, h);
    ChargedMore(p.log, EntryFor(i, h, p.pending[i]));
    if h.Ran? {
      CascadeCost(h.script, p.pending[i], c);
      CascadeLosesExactlyWhen(h.script, p.pending[i]);
    }
  }

  lemma ActCharges(p: Pass, a: Act, c: real)
    requires Headroom(p.pending) && Legal(p, a) && CheapAct(a, c) && c >= 0.0
    ensures Headroom(Act1(p, a).pending) && Gap(Act1(p, a)) >= Gap(p)
    ensures Gap(Act1(p, a)) == Gap(p) <==> !LosesCost(p, a)
  {
    match a
    case Check =>
    case Skip => ChargedMore(p.log, Entry(p.next, OverBudget, 0.0));
    case Launch => LaunchHeadroom(p);
    case Return(i, h) =>
      ReturnFrame(p, i, h);
      ReturnCharges(p, i, h, c);
    case Drop =>
  }

  lemma {:induction false} TraceCharges(p: Pass, acts: seq<Act>, q: Pass, c: real)
    requires Headroom(p.pending) && Trace(p, acts, q) && CheapActs(acts, c)
    ensures Gap(q) >= Gap(p) && (Gap(q) == Gap(p) <==> KeepsCosts(p, acts))
    decreases |acts|
  {
    if acts != [] {
      ActCharges(p, acts[0], c);
      TraceCharges(Act1(p, acts[0]), acts[1..], q, c);
    }
  }

  /** Between any two acts of every run the ledger equals what the provider charged for the settled
      candidates exactly when no cascade came back whose script and headroom make it pay without a
      judgment; otherwise it is short. */
  lemma RecordedIsChargedExactlyWhen(queue: seq<Key>, workers: nat, ceiling: real, stopAt: Option<nat>, acts: seq<Act>,
                                     c: real, p: Pass)
    requires CheapActs(acts, c) && Trace(Start(queue, workers, ceiling, stopAt), acts, p)
    ensures p.sum.spend <= Charged(p.log)
    ensures p.sum.spend == Charged(p.log) <==> KeepsCosts(Start(queue, workers, ceiling, stopAt), acts)
  {
    TraceCharges(Start(queue, workers, ceiling, stopAt), acts, p, c);
  }

  /** A primary answer that costs 1 and scores nothing, then a retry that times out. */
  const PAID_THEN_TIMED_OUT: Script :=
    Script(Answer(Some(1.0), 0, false), NoAnswer(true), NoAnswer(true), NoAnswer(true))

  function OneEach(k: nat, n: nat): seq<Round>
    decreases n - k
  {
    if k >= n then [] else [[(k, Ran(PAID_THEN_TIMED_OUT))]] + OneEach(k + 1, n)
  }

  /** Candidate k alone in flight with the whole ceiling of 2 as headroom. */
  ghost predicate Losing(p: Pass, k: nat) {
    && p.workers == 1 && p.ceiling == 2.0 && p.stopAt.None? && !p.failed && p.sum.spend == 0.0
    && k < |p.queue| && p.next == k + 1 && p.pending == map[k := 2.0]
  }

  lemma LosesOne()
    ensures RunCascade(PAID_THEN_TIMED_OUT, 2.0) == CutShort(true, 1.0) && Cheap(PAID_THEN_TIMED_OUT, 1.0)
  {
    var s := Stages(PAID_THEN_TIMED_OUT);
    assert s[0] == (Primary, PAID_THEN_TIMED_OUT.primary);
    assert s[1..][0] == (Retry, NoAnswer(true));
    assert Cascade(s[1..], 1, 1.0, false, 2.0) == CutShort(true, 1.0);
  }

  /** The timeout comes back: its sub-call is charged and not recorded. */
  lemma LosingReturn(p: Pass, k: nat, done: Round, m: Pass)
    requires Losing(p, k) && done == [(k, Ran(PAID_THEN_TIMED_OUT))]
             && m == CompleteAll(p.(checks := p.checks + 1), done)
    ensures Charged(m.log) == Charged(p.log) + 1.0 && m.sum.spend == 0.0 && m.pending == map[]
    ensures m.queue == p.queue && m.next == p.next && m.workers == 1 && m.ceiling == 2.0 && m.stopAt.None? && !m.failed
  {
    LosesOne();
    var m' := Complete(p.(checks := p.checks + 1), k, Ran(PAID_THEN_TIMED_OUT));
    assert done[1..] == [];
    assert m == CompleteAll(m', []) == m';
    assert m.log == p.log + [Entry(k, TimedOut, 1.0)] && m.log[..|p.log|] == p.log;
  }

  /** An idle pass with nothing recorded launches one more, or is at its end. */
  lemma LosingLaunch(m: Pass, q: Pass)
    requires m.workers == 1 && m.ceiling == 2.0 && m.stopAt.None? && !m.failed && m.sum.spend == 0.0
    requires m.pending == map[] && m.next <= |m.queue| && q == SubmitMore(m)
    ensures q.log == m.log && q.queue == m.queue
    ensures if m.next < |m.queue| then Losing(q, m.next) else q.pending == map[] && q.sum.spend == 0.0 && !q.failed
  {
    if m.next < |m.queue| {
      var b := SubmitNext(m.(checks := m.checks + 1));
      assert q == SubmitMore(b);
      assert |b.pending| == 1 && !Room(b);
      assert b.pending == map[m.next := 2.0];
    }
  }

  lemma LosingStep(p: Pass, k: nat, done: Round, q: Pass)
    requires Losing(p, k) && done == [(k, Ran(PAID_THEN_TIMED_OUT))] && q == OneRound(p, done)
    ensures Charged(q.log) == Charged(p.log) + 1.0 && q.queue == p.queue
    ensures if k + 1 < |p.queue| then Losing(q, k + 1)
            else q.pending == map[] && q.sum.spend == 0.0 && !q.failed
  {
    var m := CompleteAll(p.(checks := p.checks + 1), done);
    LosingReturn(p, k, done, m);
    LosingLaunch(m, q);
  }

  lemma {:induction false} LosingRun(p: Pass, k: nat, q: Pass)
    requires Losing(p, k) && q == Rounds(p, OneEach(k, |p.queue|))
    ensures Charged(q.log) == Charged(p.log) + (|p.queue| - k) as real && q.sum.spend == 0.0 && !q.failed
    decreases |p.queue| - k
  {
    var rounds := OneEach(k, |p.queue|);
    var rest := OneEach(k + 1, |p.queue|);
    assert rounds[0] == [(k, Ran(PAID_THEN_TIMED_OUT))] && rounds[1..] == rest;
    assert k in p.pending && p.pending != map[];
    var m := OneRound(p, rounds[0]);
    LosingStep(p, k, rounds[0], m);
    assert q == Rounds(m, rest);
    if k + 1 < |p.queue| { LosingRun(m, k + 1, q); }
  }

  /** So the ceiling bounds the ledger and not the charges: with a ceiling of two sub-calls, n
      candidates can be charged n sub-calls while the recorded spend stays at zero and the pass
      neither fails nor stops. */
  lemma ChargesUnbounded(queue: seq<Key>, p: Pass)
    requires queue != [] && p == Run(queue, 1, 2.0, None, OneEach(0, |queue|))
    ensures Charged(p.log) == |queue| as real && p.sum.spend == 0.0 && !p.failed
  {
    var b := SubmitMore(Start(queue, 1, 2.0, None));
    LosingLaunch(Start(queue, 1, 2.0, None), b);
    LosingRun(b, 0, p);
  }
}
