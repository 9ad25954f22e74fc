/** A judge pass seen as a sequence of single acts, so that what each act keeps every run keeps. */
module JudgePassTrace {
  import opened Options
  import opened JudgeTypes
  import opened JudgeCascade
  import opened JudgePass

  datatype Act = Check | Skip | Launch | Return(idx: nat, how: Completion) | Drop

  predicate Legal(p: Pass, a: Act) {
    match a
    case Check => true
    case Skip => Room(p) && !p.stopped && p.sum.spend >= p.ceiling
    case Launch => Room(p) && !p.stopped && p.sum.spend < p.ceiling
    case Return(i, _) => i in p.pending && i < |p.queue|
    case Drop => p.pending != map[] && StopSeen(p)
  }

  function Act1(p: Pass, a: Act): Pass
    requires Legal(p, a)
  {
    match a
    case Check => p.(checks := p.checks + 1)
    case Skip => SkipNext(p)
    case Launch => SubmitNext(p)
    case Return(i, c) => Complete(p, i, c)
    case Drop => Abandon(p)
  }

  ghost predicate Trace(p: Pass, acts: seq<Act>, q: Pass)
    decreases |acts|
  {
    if acts == [] then p == q else Legal(p, acts[0]) && Trace(Act1(p, acts[0]), acts[1..], q)
  }

  lemma {:induction false} Join(p: Pass, a: seq<Act>, m: Pass, b: seq<Act>, q: Pass)
    requires Trace(p, a, m) && Trace(m, b, q)
    ensures Trace(p, a + b, q)
    decreases |a|
  {
    if a == [] {
      assert a + b == b;
    } else {
      Join(Act1(p, a[0]), a[1..], m, b, q);
      assert (a + b)[1..] == a[1..] + b;
    }
  }

  lemma Single(p: Pass, a: Act)
    requires Legal(p, a)
    ensures Trace(p, [a], Act1(p, a))
  {
    assert [a][1..] == [];
  }

  lemma {:induction false} SubmitTrace(p: Pass) returns (acts: seq<Act>)
    requires !p.stopped
    ensures Trace(p, acts, SubmitMore(p)) && !SubmitMore(p).stopped
    ensures forall i :: 0 <= i < |acts| ==> !acts[i].Return?
    decreases |p.queue| - p.next
  {
    acts := [];
    if Room(p) {
      var q := p.(checks := p.checks + 1);
      Single(p, Check);
      acts := [Check];
      if !StopSeen(p) {
        var a := if q.sum.spend >= q.ceiling then Skip else Launch;
        Single(q, a);
        var rest := SubmitTrace(SubmitOne(q));
        Join(q, [a], SubmitOne(q), rest, SubmitMore(p));
        Join(p, [Check], q, [a] + rest, SubmitMore(p));
        acts := [Check] + ([a] + rest);
      }
    }
  }

  /** Every script a trace runs is one the rounds supplied. */
  ghost predicate Supplies(done: Round, acts: seq<Act>) {
    forall i :: 0 <= i < |acts| && acts[i].Return? ==> (acts[i].idx, acts[i].how) in done
  }

  lemma {:induction false} CompleteTrace(p: Pass, done: Round) returns (acts: seq<Act>)
    ensures Trace(p, acts, CompleteAll(p, done)) && Supplies(done, acts) && CompleteAll(p, done).stopped == p.stopped
    decreases |done|
  {
    acts := [];
    if done != [] {
      var (i, c) := done[0];
      if i in p.pending && i < |p.queue| {
        var rest := CompleteTrace(Complete(p, i, c), done[1..]);
        Single(p, Return(i, c));
        Join(p, [Return(i, c)], Complete(p, i, c), rest, CompleteAll(p, done));
        acts := [Return(i, c)] + rest;
      } else {
        acts := CompleteTrace(p, done[1..]);
      }
    }
  }

  lemma RoundTrace(p: Pass, done: Round) returns (acts: seq<Act>)
    requires p.pending != map[] && !p.stopped
    ensures Trace(p, acts, OneRound(p, done)) && Supplies(done, acts)
    ensures var q := OneRound(p, done); q.stopped ==> q.pending == map[]
  {
    var q := p.(checks := p.checks + 1);
    Single(p, Check);
    if StopSeen(p) {
      Single(q, Drop);
      Join(p, [Check], q, [Drop], Abandon(q));
      acts := [Check] + [Drop];
    } else {
      var a := CompleteTrace(q, done);
      var m := CompleteAll(q, done);
      var b := SubmitTrace(m);
      Join(q, a, m, b, SubmitMore(m));
      Join(p, [Check], q, a + b, SubmitMore(m));
      acts := [Check] + (a + b);
    }
  }

  ghost predicate SuppliesAll(rounds: seq<Round>, acts: seq<Act>) {
    forall i :: 0 <= i < |acts| && acts[i].Return?
      ==> exists k :: 0 <= k < |rounds| && (acts[i].idx, acts[i].how) in rounds[k]
  }

  lemma {:induction false} RoundsTrace(p: Pass, rounds: seq<Round>) returns (acts: seq<Act>)
    requires p.stopped ==> p.pending == map[]
    ensures Trace(p, acts, Rounds(p, rounds)) && SuppliesAll(rounds, acts)
    decreases |rounds|
  {
    acts := [];
    if rounds != [] && p.pending != map[] {
      var a := RoundTrace(p, rounds[0]);
      var m := OneRound(p, rounds[0]);
      var b := RoundsTrace(m, rounds[1..]);
      Join(p, a, m, b, Rounds(p, rounds));
      acts := a + b;
      forall i | 0 <= i < |acts| && acts[i].Return?
        ensures exists k :: 0 <= k < |rounds| && (acts[i].idx, acts[i].how) in rounds[k]
      {
        if i >= |a| {
          var k :| 0 <= k < |rounds[1..]| && (acts[i].idx, acts[i].how) in rounds[1..][k];
          assert rounds[k + 1] == rounds[1..][k];
        }
      }
    }
  }

  /** Every point a pass can be seen at is reached by a trace from its start. */
  lemma RunTrace(queue: seq<Key>, workers: nat, ceiling: real, stopAt: Option<nat>, rounds: seq<Round>)
    returns (acts: seq<Act>)
    ensures Trace(Start(queue, workers, ceiling, stopAt), acts, Run(queue, workers, ceiling, stopAt, rounds))
    ensures SuppliesAll(rounds, acts)
  {
    var p := Start(queue, workers, ceiling, stopAt);
    var a := SubmitTrace(p);
    var b := RoundsTrace(SubmitMore(p), rounds);
    Join(p, a, SubmitMore(p), b, Rounds(SubmitMore(p), rounds));
    acts := a + b;
  }

  /** Cut a trace anywhere: what it has reached by then is a point of it like its end. So what holds at
      the end of every trace from a start holds between any two acts of a run, inside a round too. */
  lemma {:induction false} EveryPrefixIsATrace(p: Pass, acts: seq<Act>, k: nat, q: Pass) returns (m: Pass)
    requires Trace(p, acts, q) && k <= |acts|
    ensures Trace(p, acts[..k], m) && Trace(m, acts[k..], q)
    decreases k
  {
    if k == 0 {
      m := p;
      assert acts[0..] == acts;
    } else {
      m := EveryPrefixIsATrace(Act1(p, acts[0]), acts[1..], k - 1, q);
      assert acts[..k][1..] == acts[1..][..k - 1] && acts[1..][k - 1..] == acts[k..];
    }
  }

  lemma Frame(p: Pass, a: Act)
    requires Legal(p, a)
    ensures var q := Act1(p, a);
            && q.queue == p.queue && q.workers == p.workers && q.ceiling == p.ceiling && q.stopAt == p.stopAt
            && q.checks >= p.checks && (p.failed ==> q.failed && q.next == p.next && q.pending.Keys <= p.pending.Keys)
  {}

  lemma {:induction false} TraceFrame(p: Pass, acts: seq<Act>, q: Pass)
    requires Trace(p, acts, q)
    ensures q.queue == p.queue && q.workers == p.workers && q.ceiling == p.ceiling && q.stopAt == p.stopAt
    ensures p.failed ==> q.failed && q.next == p.next && q.pending.Keys <= p.pending.Keys
    decreases |acts|
  {
    if acts != [] {
      Frame(p, acts[0]);
      TraceFrame(Act1(p, acts[0]), acts[1..], q);
    }
  }
}
