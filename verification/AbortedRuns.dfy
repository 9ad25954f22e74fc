/** The aborted runs: Aurora's, and the set in the cache that readers look at. An abort commits to Aurora
    and then adds the run to the set; reconciles and launches write what they read of Aurora's, but a
    reconcile that skips its flag write skips the set with it. */
module AbortedRuns {
  import opened Options
  import opened ControlHash
  import opened PauseProtocol

  /** `wanted` are the runs that Aurora has as aborting or aborted, `shown` the set in the cache. */
  datatype Abs = Abs(sys: Sys, wanted: set<string>, shown: set<string>)

  /** A step of the pause protocol, with whether its read of the aborted runs succeeds; an abort's
      commit to Aurora; and its write to the cache. */
  datatype Event = Other(step: Step, idsOk: bool) | Intend(run: string) | Show(run: string, audit: Audit)

  predicate Can(s: Abs, e: Event) {
    match e
    case Other(step, _) => !step.Abort? && Enabled(s.sys, step)
    case Intend(_) => true
    case Show(run, _) => run in s.wanted
  }

  function IdsRead(s: Abs, ok: bool): Option<set<string>> {
    if ok then Some(s.wanted) else None
  }

  /** The set after a step of the pause protocol. */
  function ShownAfter(s: Abs, e: Step, idsOk: bool): set<string> {
    match e
    case Reconcile(hashOk, stampOk, _) =>
      AbortedAfter(s.sys.hash, s.shown, hashOk, StampRead(s.sys, stampOk), IdsRead(s, idsOk))
    case Launch(_, _) => AbortedWritten(s.shown, IdsRead(s, idsOk))
    case _ => s.shown
  }

  function Do(s: Abs, e: Event): Abs
    requires Can(s, e)
  {
    match e
    case Other(step, idsOk) => Abs(Apply(s.sys, step), s.wanted, ShownAfter(s, step, idsOk))
    case Intend(run) => s.(wanted := s.wanted + {run})
    case Show(run, audit) => Abs(Apply(s.sys, Abort(audit)), s.wanted, s.shown + {run})
  }

  ghost predicate Runs(s: Abs, events: seq<Event>, t: Abs)
    decreases |events|
  {
    if events == [] then s == t else Can(s, events[0]) && Runs(Do(s, events[0]), events[1..], t)
  }

  // ---- What one reconcile does to the set ----------------------------------------------------

  predicate Skips(s: Abs, e: Event) {
    e.Other? && e.step.Reconcile? && SkipsWrite(s.sys.hash, e.step.hashOk, StampRead(s.sys, e.step.stampOk))
  }

  /** A reconcile leaves the set as a write of what it read exactly when it does not skip, or the set
      was that already. */
  lemma RefreshedExactlyWhen(s: Abs, e: Event)
    requires Can(s, e) && e.Other? && e.step.Reconcile?
    ensures var written := AbortedWritten(s.shown, IdsRead(s, e.idsOk));
            Do(s, e).shown == written <==> !Skips(s, e) || s.shown == written
  {}

  // ---- While nothing else happens every reconcile skips -----------------------------------------

  /** Clock ticks, heartbeats, aborts, and reconciles that read the stamps. */
  predicate Routine(e: Event) {
    match e
    case Other(step, _) => step.Tick? || step.Heartbeat? || (step.Reconcile? && step.hashOk && step.stampOk)
    case _ => true
  }

  ghost predicate AllRoutine(events: seq<Event>) {
    forall i :: 0 <= i < |events| ==> Routine(events[i])
  }

  /** The runs whose write to the cache is among the events. */
  function Shows(events: seq<Event>): set<string> {
    if events == [] then {} else (if events[0].Show? then {events[0].run} else {}) + Shows(events[1..])
  }

  ghost predicate Settled(s: Abs) {
    s.sys.op.None? && s.sys.hash.updated == Some(s.sys.row.updatedAt)
  }

  lemma RoutineStep(s: Abs, e: Event)
    requires Settled(s) && Can(s, e) && Routine(e)
    ensures Settled(Do(s, e)) && Do(s, e).shown == s.shown + Shows([e]) && s.wanted <= Do(s, e).wanted
    ensures e.Other? && e.step.Reconcile? ==> Skips(s, e)
  {
    assert [e][1..] == [];
    assert Shows([e]) == (if e.Show? then {e.run} else {}) + {};
  }

  /** With no operator action and no launch the set changes by the aborts' own writes only, however
      many reconciles succeed. */
  lemma {:induction false} ShownIsWritten(s: Abs, events: seq<Event>, t: Abs)
    requires Settled(s) && Runs(s, events, t) && AllRoutine(events)
    ensures Settled(t) && t.shown == s.shown + Shows(events) && s.wanted <= t.wanted
    decreases |events|
  {
    if events != [] {
      var e, rest := events[0], events[1..];
      RoutineStep(s, e);
      ShownIsWritten(Do(s, e), rest, t);
      assert [e][0] == e && [e][1..] == [];
      assert Shows(events) == Shows([e]) + Shows(rest);
    }
  }

  /** So an abort that Aurora has is shown exactly when its own write to the cache came through; one
      whose write failed is never published. From any boot with reads that succeed, however the
      pause protocol ran before. */
  lemma AbortShownExactlyWhen(row: Row, left: Hash, now: real, before: seq<Step>, s: Abs, events: seq<Event>, t: Abs,
                              run: string)
    requires Leads(Boot(row, left, now, true, true), before, s.sys) && ReadsSucceed(before) && s.sys.op.None?
    requires run !in s.shown && Runs(s, events, t) && AllRoutine(events)
    ensures run in t.shown <==> run in Shows(events)
  {
    RunKeepsAgreed(Boot(row, left, now, true, true), before, s.sys);
    ShownIsWritten(s, events, t);
  }

  /** And that is what a reader gets: from a fresh hash and a set that can be read, an abort exactly when
      its own write to the cache came through, and the pools as the hash has them. */
  lemma ReaderSeesAbortExactlyWhen(row: Row, left: Hash, now: real, before: seq<Step>, s: Abs, events: seq<Event>,
                                   t: Abs, run: string)
    requires Leads(Boot(row, left, now, true, true), before, s.sys) && ReadsSucceed(before) && s.sys.op.None?
    requires run !in s.shown && Runs(s, events, t) && AllRoutine(events) && Fresh(Some(t.sys.hash), t.sys.now)
    ensures run in ReadAs(Some(t.sys.hash), Some(t.shown), t.sys.now).aborted <==> run in Shows(events)
  {
    AbortShownExactlyWhen(row, left, now, before, s, events, t, run);
    ReadMeans(Some(t.sys.hash), Some(t.shown), t.sys.now, "harness");
  }

  // ---- Two concrete runs -----------------------------------------------------------------------------

  const CALM: Sys := Sys(Row(NONE_PAUSED, 1.0), Hash(NONE_PAUSED, Some(0.0), Some(1.0), None), 0.0, None)

  const RECONCILE: Event := Other(Reconcile(true, true, true), true)

  lemma TwoEvents(s: Abs, a: Event, m: Abs, b: Event, t: Abs)
    requires Can(s, a) && m == Do(s, a) && Can(m, b) && t == Do(m, b)
    ensures Runs(s, [a, b], t)
  {
    assert [a, b][1..] == [b] && [b][1..] == [];
    assert Runs(t, [], t);
    assert Runs(m, [b], t);
  }

  /** An abort commits and its write to the cache fails; the reconcile that follows reads everything
      and leaves the run out of the set. */
  lemma AbortNotPublished() returns (events: seq<Event>, t: Abs)
    ensures Runs(Abs(CALM, {}, {}), events, t) && events == [Intend("run-1"), RECONCILE]
    ensures "run-1" in t.wanted && t.shown == {}
  {
    var s := Abs(CALM, {}, {});
    var m := Do(s, Intend("run-1"));
    t := Do(m, RECONCILE);
    events := [Intend("run-1"), RECONCILE];
    TwoEvents(s, Intend("run-1"), m, RECONCILE, t);
  }

  /** A launch that cannot read the aborted runs deletes the set, aborted runs and all. */
  lemma AbortForgotten() returns (events: seq<Event>, t: Abs)
    ensures Runs(Abs(CALM, {"run-1"}, {}), events, t)
    ensures events == [Show("run-1", NO_AUDIT), Other(Launch(true, true), false)]
    ensures "run-1" in t.wanted && t.shown == {}
  {
    var s := Abs(CALM, {"run-1"}, {});
    var m := Do(s, Show("run-1", NO_AUDIT));
    t := Do(m, Other(Launch(true, true), false));
    events := [Show("run-1", NO_AUDIT), Other(Launch(true, true), false)];
    TwoEvents(s, Show("run-1", NO_AUDIT), m, Other(Launch(true, true), false), t);
  }

  /** A write adds to the set what it read, and never takes a run out but by deleting the whole set. */
  lemma WriteAddsOrDeletes(s: Abs, run: string, ids: set<string>)
    ensures run in AbortedWritten(s.shown, Some(ids)) <==> ids != {} && (run in s.shown || run in ids)
    ensures run !in AbortedWritten(s.shown, None)
  {}

  /** A write of the set drops a run that Aurora has exactly when its read of the aborted runs failed. */
  lemma ForgetsExactlyWhen(s: Abs, run: string, idsOk: bool)
    requires run in s.wanted
    ensures run !in AbortedWritten(s.shown, IdsRead(s, idsOk)) <==> !idsOk
  {}
}
