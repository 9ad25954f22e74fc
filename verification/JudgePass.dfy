/** One judge pass over its selected queue: at most `workers` candidates in flight, a budget gate
    before each submission, a breaker on consecutive call failures, a stop request that abandons
    what is in flight, and a fate for every candidate. Which calls come back in a round, in what
    order and how, and at which check the stop request is first seen, are inputs. */
module JudgePass {
  import opened Options
  import opened JudgeTypes
  import opened JudgeCascade

  const MAX_CONSECUTIVE_CALL_FAILURES: nat := 8

  /** What a worker ran into: the artifacts were missing, or the cascade ran on this script. */
  datatype Completion = MissingArtifacts | Ran(script: Script)

  /** One `wait`: the futures that came back, named by queue position, in processing order. */
  type Round = seq<(nat, Completion)>

  datatype Fate = Judged | ParseFailure | TimedOut | CallFailed | Errored | NoArtifacts | OverBudget

  /** What became of a queue position, and what its sub-calls cost. */
  datatype Entry = Entry(idx: nat, fate: Fate, paid: real)

  /** The pass's ledger. */
  datatype Summary = Summary(judged: nat, parseFailed: nat, timedOut: nat, callFailed: nat,
                             noArtifacts: nat, overBudget: nat, spend: real)

  datatype Pass = Pass(queue: seq<Key>, workers: nat, ceiling: real, stopAt: Option<nat>,
                       next: nat, pending: map<nat, real>, inFlight: seq<Key>,
                       failed: bool, streak: nat, stopped: bool, checks: nat,
                       sum: Summary, rows: seq<Row>, log: seq<Entry>, abandoned: set<nat>)

  function Start(queue: seq<Key>, workers: nat, ceiling: real, stopAt: Option<nat>): Pass {
    Pass(queue, workers, ceiling, stopAt, 0, map[], [], false, 0, false, 0,
         Summary(0, 0, 0, 0, 0, 0, 0.0), [], [], {})
  }

  predicate StopSeen(p: Pass) {
    p.stopAt.Some? && p.checks >= p.stopAt.value
  }

  predicate Room(p: Pass) {
    p.next < |p.queue| && |p.pending| < p.workers && !p.failed
  }

  // ---- Submission ------------------------------------------------------------------------

  function SkipNext(p: Pass): Pass
    requires p.next < |p.queue|
  {
    p.(next := p.next + 1, sum := p.sum.(overBudget := p.sum.overBudget + 1),
       log := p.log + [Entry(p.next, OverBudget, 0.0)])
  }

  function SubmitNext(p: Pass): Pass
    requires p.next < |p.queue|
  {
    p.(next := p.next + 1, pending := p.pending[p.next := p.ceiling - p.sum.spend],
       inFlight := p.inFlight + [p.queue[p.next]])
  }

  function SubmitOne(p: Pass): Pass
    requires p.next < |p.queue|
  {
    if p.sum.spend >= p.ceiling then SkipNext(p) else SubmitNext(p)
  }

  function SubmitMore(p: Pass): Pass
    decreases |p.queue| - p.next
  {
    if !Room(p) then p
    else
      var q := p.(checks := p.checks + 1);
      if StopSeen(p) then q else SubmitMore(SubmitOne(q))
  }

  // ---- Completion ------------------------------------------------------------------------

  function Without(s: seq<Key>, k: Key): seq<Key> {
    if s == [] then []
    else Without(s[..|s| - 1], k) + if s[|s| - 1] == k then [] else [s[|s| - 1]]
  }

  function TakeBack(p: Pass, i: nat): Pass
    requires i in p.pending && i < |p.queue|
  {
    p.(pending := p.pending - {i}, inFlight := Without(p.inFlight, p.queue[i]))
  }

  function FateOf(v: Outcome): Fate {
    match v
    case Recorded(_, _, _, bad) => if bad then ParseFailure else Judged
    case CutShort(timedOut, _) => if timedOut then TimedOut else CallFailed
    case Raised(_) => Errored
  }

  /** What a completion amounts to, given the headroom its cascade was started with. */
  function EntryFor(i: nat, c: Completion, remaining: real): Entry {
    match c
    case MissingArtifacts => Entry(i, NoArtifacts, 0.0)
    case Ran(script) => var v := RunCascade(script, remaining); Entry(i, FateOf(v), Spent(v))
  }

  function RecordOutcome(p: Pass, i: nat, v: Outcome): Pass
    requires i < |p.queue|
  {
    var s, log := p.sum, p.log + [Entry(i, FateOf(v), Spent(v))];
    match v
    case Recorded(_, _, cost, bad) =>
      p.(log := log, streak := 0,
         sum := s.(judged := s.judged + 1, spend := s.spend + cost,
                   parseFailed := s.parseFailed + if bad then 1 else 0),
         rows := p.rows + [Row(p.queue[i], if bad then NoVerdictParseFailed else Verdict)])
    case CutShort(timedOut, _) =>
      if timedOut then
        p.(log := log, sum := s.(timedOut := s.timedOut + 1), rows := p.rows + [Row(p.queue[i], NoVerdictTimeout)])
      else
        p.(log := log, sum := s.(callFailed := s.callFailed + 1), streak := p.streak + 1,
           failed := p.failed || p.streak + 1 >= MAX_CONSECUTIVE_CALL_FAILURES)
    case Raised(_) => p.(log := log, failed := true)
  }

  function Complete(p: Pass, i: nat, c: Completion): Pass
    requires i in p.pending && i < |p.queue|
  {
    var t := TakeBack(p, i);
    match c
    case MissingArtifacts =>
      t.(log := p.log + [EntryFor(i, c, p.pending[i])], streak := 0,
        sum := p.sum.(noArtifacts := p.sum.noArtifacts + 1))
    case Ran(script) => RecordOutcome(t, i, RunCascade(script, p.pending[i]))
  }

  /** Only futures still pending can come back. */
  function CompleteAll(p: Pass, done: Round): Pass
    decreases |done|
  {
    if done == [] then p
    else
      var (i, c) := done[0];
      CompleteAll(if i in p.pending && i < |p.queue| then Complete(p, i, c) else p, done[1..])
  }

  // ---- The loop --------------------------------------------------------------------------

  function Abandon(p: Pass): Pass {
    p.(stopped := true, abandoned := p.pending.Keys, pending := map[], inFlight := [])
  }

  function OneRound(p: Pass, done: Round): Pass {
    var q := p.(checks := p.checks + 1);
    if StopSeen(p) then Abandon(q) else SubmitMore(CompleteAll(q, done))
  }

  function Rounds(p: Pass, rounds: seq<Round>): Pass
    decreases |rounds|
  {
    if rounds == [] || p.pending == map[] then p else Rounds(OneRound(p, rounds[0]), rounds[1..])
  }

  /** Unsubmitted candidates left over at the end are counted as skipped. */
  function SkipRest(p: Pass): Pass
    decreases |p.queue| - p.next
  {
    if p.next >= |p.queue| then p else SkipRest(SkipNext(p))
  }

  /** A stop that lands with candidates still queued is a stop even with nothing in flight. */
  function LastChecked(p: Pass): Pass {
    p.(checks := p.checks + 1, stopped := p.stopped || (StopSeen(p) && p.next < |p.queue|))
  }

  function Finish(p: Pass): Pass {
    if p.failed then LastChecked(p) else SkipRest(LastChecked(p))
  }

  function Run(queue: seq<Key>, workers: nat, ceiling: real, stopAt: Option<nat>, rounds: seq<Round>): Pass {
    Rounds(SubmitMore(Start(queue, workers, ceiling, stopAt)), rounds)
  }

  // ---- The same, as the object that the pass updates in place ------------------------------

  class PassRun {
    const queue: seq<Key>
    const workers: nat
    const ceiling: real
    const stopAt: Option<nat>
    var next: nat
    var pending: map<nat, real>
    var inFlight: seq<Key>
    var failed: bool
    var streak: nat
    var stopped: bool
    var checks: nat
    var sum: Summary
    var rows: seq<Row>
    ghost var log: seq<Entry>
    ghost var abandoned: set<nat>

    ghost function View(): Pass
      reads this
    {
      Pass(queue, workers, ceiling, stopAt, next, pending, inFlight, failed, streak, stopped, checks, sum, rows, log,
        abandoned)
    }

    constructor (queue: seq<Key>, workers: nat, ceiling: real, stopAt: Option<nat>)
      ensures View() == Start(queue, workers, ceiling, stopAt)
    {
      this.queue, this.workers, this.ceiling, this.stopAt := queue, workers, ceiling, stopAt;
      next, pending, inFlight, failed, streak, stopped, checks := 0, map[], [], false, 0, false, 0;
      sum, rows := Summary(0, 0, 0, 0, 0, 0, 0.0), [];
      log, abandoned := [], {};
    }

    method StopRequested() returns (b: bool)
      modifies this`checks
      ensures b == StopSeen(old(View())) && View() == old(View()).(checks := old(checks) + 1)
    {
      b := stopAt.Some? && checks >= stopAt.value;
      checks := checks + 1;
    }

    /** The next candidate is skipped when the ceiling is reached, else started with the
        headroom left. */
    method SubmitCandidate()
      requires next < |queue|
      modifies this`next, this`sum, this`pending, this`inFlight, this`log
      ensures View() == SubmitOne(old(View()))
    {
      var i := next;
      next := next + 1;
      if sum.spend >= ceiling {
        sum := sum.(overBudget := sum.overBudget + 1);
        log := log + [Entry(i, OverBudget, 0.0)];
        return;
      }
      pending := pending[i := ceiling - sum.spend];
      inFlight := inFlight + [queue[i]];
    }

    method Submit()
      modifies this
      ensures View() == SubmitMore(old(View()))
    {
      ghost var goal := SubmitMore(View());
      while next < |queue| && |pending| < workers && !failed
        invariant goal == SubmitMore(View())
        decreases |queue| - next
      {
        ghost var p := View();
        assert Room(p);
        var stop := StopRequested();
        if stop {
          assert goal == View();
          break;
        }
        SubmitCandidate();
      }
    }

    /** The worker's cascade, with the headroom it was started with; its outcome goes to the
        ledger, and to the results table when it is a judgment or a timeout. */
    method CompleteOne(i: nat, c: Completion)
      requires i in pending && i < |queue|
      modifies this
      ensures View() == Complete(old(View()), i, c)
    {
      var remaining := pending[i];
      pending := pending - {i};
      DropInFlight(queue[i]);
      match c {
        case MissingArtifacts =>
          streak := 0;
          sum := sum.(noArtifacts := sum.noArtifacts + 1);
          log := log + [Entry(i, NoArtifacts, 0.0)];
        case Ran(script) =>
          var v := JudgeWithCascade(script, remaining);
          RecordResult(i, v);
      }
    }

    method DropInFlight(k: Key)
      modifies this`inFlight
      ensures inFlight == Without(old(inFlight), k)
    {
      var kept: seq<Key> := [];
      for j := 0 to |inFlight|
        invariant kept == Without(inFlight[..j], k)
        invariant inFlight == old(inFlight)
      {
        assert inFlight[..j + 1][..j] == inFlight[..j];
        if inFlight[j] != k {
          kept := kept + [inFlight[j]];
        }
      }
      assert inFlight[..|inFlight|] == inFlight;
      inFlight := kept;
    }

    method RecordResult(i: nat, v: Outcome)
      requires i < |queue|
      modifies this`failed, this`streak, this`sum, this`rows, this`log
      ensures View() == RecordOutcome(old(View()), i, v)
    {
      match v {
        case Recorded(_, _, cost, parseFailed) =>
          streak := 0;
          rows := rows + [Row(queue[i], if parseFailed then NoVerdictParseFailed else Verdict)];
          sum := sum.(judged := sum.judged + 1, spend := sum.spend + cost);
          if parseFailed {
            sum := sum.(parseFailed := sum.parseFailed + 1);
          }
          log := log + [Entry(i, if parseFailed then ParseFailure else Judged, cost)];
        case CutShort(timedOut, paid) =>
          if timedOut {
            rows := rows + [Row(queue[i], NoVerdictTimeout)];
            sum := sum.(timedOut := sum.timedOut + 1);
            log := log + [Entry(i, TimedOut, paid)];
            return;
          }
          sum := sum.(callFailed := sum.callFailed + 1);
          streak := streak + 1;
          if streak >= MAX_CONSECUTIVE_CALL_FAILURES && !failed {
            failed := true;
          }
          log := log + [Entry(i, CallFailed, paid)];
        case Raised(paid) =>
          if !failed {
            failed := true;
          }
          log := log + [Entry(i, Errored, paid)];
      }
    }

    method CompleteRound(done: Round)
      modifies this
      ensures View() == CompleteAll(old(View()), done)
    {
      ghost var goal := CompleteAll(View(), done);
      for k := 0 to |done|
        invariant goal == CompleteAll(View(), done[k..])
      {
        var (i, c) := done[k];
        assert done[k..][0] == done[k] && done[k..][1..] == done[k + 1..];
        if i in pending && i < |queue| {
          CompleteOne(i, c);
        }
      }
    }

    /** One turn of the loop: a stop abandons what is in flight without waiting for it. */
    method DriveRound(done: Round)
      modifies this
      ensures View() == OneRound(old(View()), done)
    {
      var stop := StopRequested();
      if stop {
        stopped, abandoned, pending, inFlight := true, pending.Keys, map[], [];
        return;
      }
      CompleteRound(done);
      Submit();
    }

    /** Rounds until nothing is pending or the rounds given run out. */
    method Drive(rounds: seq<Round>)
      modifies this
      ensures View() == Rounds(SubmitMore(old(View())), rounds)
    {
      Submit();
      ghost var goal := Rounds(View(), rounds);
      var k := 0;
      while k < |rounds| && pending != map[]
        invariant 0 <= k <= |rounds| && goal == Rounds(View(), rounds[k..])
        decreases |rounds| - k
      {
        assert rounds[k..][0] == rounds[k] && rounds[k..][1..] == rounds[k + 1..];
        DriveRound(rounds[k]);
        k := k + 1;
      }
    }

    method End()
      modifies this
      ensures View() == Finish(old(View()))
    {
      var stop := StopRequested();
      if stop && next < |queue| {
        stopped := true;
      }
      if failed {
        return;
      }
      ghost var goal := SkipRest(View());
      while next < |queue|
        invariant goal == SkipRest(View())
        decreases |queue| - next
      {
        ghost var i := next;
        next := next + 1;
        sum := sum.(overBudget := sum.overBudget + 1);
        log := log + [Entry(i, OverBudget, 0.0)];
      }
    }
  }
}
