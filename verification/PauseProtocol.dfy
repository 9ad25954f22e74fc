/** The pause protocol as a transition system with an atomic reconcile and launch publish: operator
    actions commit to Aurora first and then merge into the hash; heartbeats, abort requests,
    reconciles and run launches, with any of their Aurora and cache reads failing, interleave
    freely. */
module PauseProtocol {
  import opened Options
  import opened ControlHash

  /** An operator action that has committed to Aurora and not yet reached the hash. */
  datatype Op = Op(pools: set<string>, paused: bool)

  datatype Sys = Sys(row: Row, hash: Hash, now: real, op: Option<Op>)

  /** `hashOk` says that the step's own read of the hash succeeds, `stampOk` and `flagsOk` that its
      reads of the row do. */
  datatype Step =
    | Tick(dt: real)
    | Commit(pools: set<string>, paused: bool, at: real)
    | Publish(audit: Audit, hashOk: bool)
    | Heartbeat
    | Abort(audit: Audit)
    | Reconcile(hashOk: bool, stampOk: bool, flagsOk: bool)
    | Launch(flagsOk: bool, stampOk: bool)

  /** Time moves forward; operator actions are serialised, name known pools and commit with
      increasing timestamps. */
  predicate Enabled(s: Sys, e: Step) {
    match e
    case Tick(dt) => dt >= 0.0
    case Commit(pools, _, at) => s.op.None? && pools <= POOLS && at > s.row.updatedAt
    case Publish(_, _) => s.op.Some? && s.op.value.pools <= POOLS
    case _ => true
  }

  function StampRead(s: Sys, ok: bool): Option<real> {
    if ok then Some(s.row.updatedAt) else None
  }

  function FlagsOf(row: Row, ok: bool): Option<Flags> {
    if ok then Some(row.flags) else None
  }

  function Apply(s: Sys, e: Step): Sys
    requires Enabled(s, e)
  {
    match e
    case Tick(dt) => s.(now := s.now + dt)
    case Commit(pools, paused, at) =>
      s.(row := Row(Merged(s.row.flags, pools, paused), at), op := Some(Op(pools, paused)))
    case Publish(audit, hashOk) =>
      var op := s.op.value;
      s.(hash := Paused(s.hash, hashOk, op.pools, op.paused, s.now, s.row.updatedAt, audit), op := None)
    case Heartbeat => s.(hash := Beaten(s.hash, s.now))
    case Abort(audit) => s.(hash := Beaten(s.hash, s.now).(audit := Some(audit)))
    case Reconcile(hashOk, stampOk, flagsOk) =>
      s.(hash := Reconciled(s.hash, hashOk, StampRead(s, stampOk), FlagsOf(s.row, flagsOk), s.now))
    case Launch(flagsOk, stampOk) =>
      s.(hash := Written(s.hash, FlagsRead(FlagsOf(s.row, flagsOk)), s.now, StampRead(s, stampOk)))
  }

  /** The steps lead from s to t, each enabled when it is taken. */
  ghost predicate Leads(s: Sys, steps: seq<Step>, t: Sys)
    decreases |steps|
  {
    if steps == [] then s == t
    else Enabled(s, steps[0]) && Leads(Apply(s, steps[0]), steps[1..], t)
  }

  /** Boot publishes over whatever an earlier process left in the hash. */
  function Boot(row: Row, left: Hash, now: real, stampOk: bool, flagsOk: bool): Sys {
    Sys(row, Written(left, FlagsRead(FlagsOf(row, flagsOk)), now, if stampOk then Some(row.updatedAt) else None),
        now, None)
  }

  // ---- A pause in Aurora is never missing from the hash ---------------------------------

  /** An action in flight has left its pools in Aurora as it wanted them. */
  ghost predicate InFlight(s: Sys) {
    s.op.Some? ==>
      && s.op.value.pools <= POOLS
      && forall p :: p in s.op.value.pools ==> s.row.flags[p] == s.op.value.paused
  }

  ghost predicate Covered(s: Sys) {
    && POOLS <= s.hash.pools.Keys && s.hash.published.Some? && InFlight(s)
    && forall p :: p in POOLS && (s.op.None? || p !in s.op.value.pools) && s.row.flags[p] ==> Says(s.hash, p)
  }

  /** Every operator's merge reads the hash it merges over. */
  ghost predicate MergesRead(steps: seq<Step>) {
    forall i :: 0 <= i < |steps| && steps[i].Publish? ==> steps[i].hashOk
  }

  lemma StepKeepsCovered(s: Sys, e: Step)
    requires Covered(s) && Enabled(s, e) && (e.Publish? ==> e.hashOk)
    ensures Covered(Apply(s, e))
  {}

  lemma {:induction false} RunKeepsCovered(s: Sys, steps: seq<Step>, t: Sys)
    requires Covered(s) && Leads(s, steps, t) && MergesRead(steps)
    ensures Covered(t)
    decreases |steps|
  {
    if steps != [] {
      StepKeepsCovered(s, steps[0]);
      RunKeepsCovered(Apply(s, steps[0]), steps[1..], t);
    }
  }

  /** Whatever happened since boot, failed reads by reconciles and launches included, with no
      operator action in flight a reader sees a pool running only if Aurora has it running and the
      hash was published within the last 90 seconds. The one read that has to succeed is the one
      an operator's merge makes of the hash. */
  lemma RunningOnlyIfAuroraSaysSo(row: Row, left: Hash, now: real, stampOk: bool, flagsOk: bool, steps: seq<Step>,
                                  t: Sys, aborted: Option<set<string>>, p: string)
    requires Leads(Boot(row, left, now, stampOk, flagsOk), steps, t) && MergesRead(steps)
    requires t.op.None? && p in POOLS && p !in ReadAs(Some(t.hash), aborted, t.now).paused
    ensures !t.row.flags[p]
    ensures t.hash.published.Some? && t.now - t.hash.published.value <= 90.0
  {
    RunKeepsCovered(Boot(row, left, now, stampOk, flagsOk), steps, t);
  }

  /** Had it failed, the merge would have started from all running: a merge keeps every pause of
      Aurora's exactly when it could read the hash or names every pool that Aurora has paused. */
  lemma MergeCoversExactlyWhen(s: Sys, audit: Audit, hashOk: bool)
    requires Covered(s) && s.op.Some?
    ensures Covered(Apply(s, Publish(audit, hashOk)))
            <==> hashOk || forall p :: p in POOLS && s.row.flags[p] ==> p in s.op.value.pools
  {
    var t := Apply(s, Publish(audit, hashOk));
    if !hashOk {
      forall p | p in POOLS ensures Says(t.hash, p) <==> p in s.op.value.pools && s.op.value.paused {}
      if p :| p in POOLS && s.row.flags[p] && p !in s.op.value.pools {
        assert !Says(t.hash, p) && t.row.flags[p];
      }
    }
  }

  // ---- With every read succeeding the two agree -----------------------------------------

  /** Reconciles and launches read the row, merges the hash; reconcile's own read of the hash's
      stamp may fail. */
  ghost predicate ReadsSucceed(steps: seq<Step>) {
    forall i :: 0 <= i < |steps| ==> ReadsWell(steps[i])
  }

  predicate ReadsWell(e: Step) {
    match e
    case Publish(_, hashOk) => hashOk
    case Reconcile(_, stampOk, flagsOk) => stampOk && flagsOk
    case Launch(flagsOk, stampOk) => stampOk && flagsOk
    case _ => true
  }

  /** The hash carries the row's stamp and flags, but for the pools of an action in flight. */
  ghost predicate Agreed(s: Sys) {
    && Covered(s)
    && (s.op.None? ==> s.hash.updated == Some(s.row.updatedAt))
    && forall p :: p in POOLS && (s.op.None? || p !in s.op.value.pools) ==> Says(s.hash, p) == s.row.flags[p]
  }

  lemma StepKeepsAgreed(s: Sys, e: Step)
    requires Agreed(s) && Enabled(s, e) && ReadsWell(e)
    ensures Agreed(Apply(s, e))
  {}

  lemma {:induction false} RunKeepsAgreed(s: Sys, steps: seq<Step>, t: Sys)
    requires Agreed(s) && Leads(s, steps, t) && ReadsSucceed(steps)
    ensures Agreed(t)
    decreases |steps|
  {
    if steps != [] {
      StepKeepsAgreed(s, steps[0]);
      RunKeepsAgreed(Apply(s, steps[0]), steps[1..], t);
    }
  }

  /** While no read has failed, a settled hash holds exactly Aurora's flags. */
  lemma HashEqualsAurora(row: Row, left: Hash, now: real, steps: seq<Step>, t: Sys)
    requires Leads(Boot(row, left, now, true, true), steps, t) && ReadsSucceed(steps) && t.op.None?
    ensures Current(t.hash) == t.row.flags && t.hash.updated == Some(t.row.updatedAt)
  {
    RunKeepsAgreed(Boot(row, left, now, true, true), steps, t);
  }

  // ---- A dead publisher -----------------------------------------------------------------

  function Elapsed(steps: seq<Step>): real {
    if steps == [] then 0.0 else (if steps[0].Tick? then steps[0].dt else 0.0) + Elapsed(steps[1..])
  }

  /** Neither a heartbeat nor anything else that writes the hash. */
  ghost predicate Silent(steps: seq<Step>) {
    forall i :: 0 <= i < |steps| ==> steps[i].Tick? || steps[i].Commit?
  }

  lemma {:induction false} SilentRun(s: Sys, steps: seq<Step>, t: Sys)
    requires Leads(s, steps, t) && Silent(steps)
    ensures t.hash == s.hash && t.now == s.now + Elapsed(steps)
    decreases |steps|
  {
    if steps != [] { SilentRun(Apply(s, steps[0]), steps[1..], t); }
  }

  /** Once nothing has written the hash for more than 90 seconds every pool reads paused. */
  lemma DeadPublisherPauses(s: Sys, steps: seq<Step>, t: Sys, aborted: Option<set<string>>)
    requires Leads(s, steps, t) && Silent(steps) && Elapsed(steps) > 90.0
    requires s.hash.published.Some? && s.hash.published.value <= s.now
    ensures ReadAs(Some(t.hash), aborted, t.now).paused == POOLS
  {
    SilentRun(s, steps, t);
  }

  /** A step that writes the hash. */
  predicate WritesHash(e: Step) {
    e.Publish? || e.Heartbeat? || e.Abort? || e.Reconcile? || e.Launch?
  }

  lemma {:induction false} PublishedGrows(s: Sys, steps: seq<Step>, t: Sys)
    requires Leads(s, steps, t) && s.hash.published.Some? && s.hash.published.value <= s.now
    ensures t.hash.published.Some? && s.hash.published.value <= t.hash.published.value <= t.now
    ensures t.now == s.now + Elapsed(steps)
    decreases |steps|
  {
    if steps != [] { PublishedGrows(Apply(s, steps[0]), steps[1..], t); }
  }

  /** And for 90 seconds after any write of the hash, a heartbeat's included, whatever else happens, it is
      read for what it says. */
  lemma EveryWriteFreshens(s: Sys, e: Step, steps: seq<Step>, t: Sys, aborted: Option<set<string>>)
    requires Enabled(s, e) && WritesHash(e) && Leads(Apply(s, e), steps, t) && Elapsed(steps) <= 90.0
    ensures !ReadAs(Some(t.hash), aborted, t.now).stale
  {
    PublishedGrows(Apply(s, e), steps, t);
  }

  // ---- What a reader sees ---------------------------------------------------------------

  /** Over every run from boot in which no read but that of the hash's stamp fails, a reader of the settled
      hash within 90 seconds of its last write sees exactly Aurora's paused pools. */
  lemma SettledReadIsAurora(row: Row, left: Hash, now: real, steps: seq<Step>, t: Sys, aborted: Option<set<string>>,
                            p: string)
    requires Leads(Boot(row, left, now, true, true), steps, t) && ReadsSucceed(steps) && t.op.None?
    requires Fresh(Some(t.hash), t.now)
    ensures var v := ReadAs(Some(t.hash), aborted, t.now);
            !v.stale && (p in v.paused <==> p in {"harness", "eval", "gateway"} && t.row.flags[p])
  {
    RunKeepsAgreed(Boot(row, left, now, true, true), steps, t);
    ReadMeans(Some(t.hash), aborted, t.now, p);
  }

  /** The audit of the last operator action among the steps. */
  function LastAudit(steps: seq<Step>, before: Option<Audit>): Option<Audit> {
    if steps == [] then before
    else LastAudit(steps[1..], match steps[0]
                               case Publish(audit, _) => Some(audit)
                               case Abort(audit) => Some(audit)
                               case _ => before)
  }

  /** A fresh hash names whoever acted last, and why; heartbeats, reconciles and launches leave that alone. */
  lemma {:induction false} AuditIsLast(s: Sys, steps: seq<Step>, t: Sys)
    requires Leads(s, steps, t)
    ensures t.hash.audit == LastAudit(steps, s.hash.audit)
    decreases |steps|
  {
    if steps != [] { AuditIsLast(Apply(s, steps[0]), steps[1..], t); }
  }

  // ---- What a failed read of the row leaves behind ----------------------------------------

  /** Aurora has a pool running that no action in flight is about to set. */
  ghost predicate SomeRunning(s: Sys) {
    exists p :: p in POOLS && (s.op.None? || p !in s.op.value.pools) && !s.row.flags[p]
  }

  /** A reconcile or a launch breaks the agreement exactly when it writes without having read the
      flags and Aurora has a pool running, whether or not an operator action is in flight. */
  lemma FailedReadLosesExactlyWhen(s: Sys, e: Step)
    requires Agreed(s) && (e.Reconcile? || e.Launch?)
    ensures var writes := e.Launch? || !SkipsWrite(s.hash, e.hashOk, StampRead(s, e.stampOk));
            !Agreed(Apply(s, e)) <==> writes && !e.flagsOk && SomeRunning(s)
  {
    var t := Apply(s, e);
    if (e.Launch? || !SkipsWrite(s.hash, e.hashOk, StampRead(s, e.stampOk))) && !e.flagsOk {
      assert forall p :: p in POOLS ==> Says(t.hash, p);
      if SomeRunning(s) {
        var p :| p in POOLS && (s.op.None? || p !in s.op.value.pools) && !s.row.flags[p];
        assert Says(t.hash, p) && !t.row.flags[p];
      }
    }
  }

  /** With an action in flight one good stamp is enough to lose it: the reconcile pauses everything,
      and the action then stamps that as current, with its own pools alone as it wanted them. */
  lemma FailedFlagsOutliveAction(s: Sys, hashOk: bool, stampOk: bool, audit: Audit)
    requires Agreed(s) && s.op.Some? && !SkipsWrite(s.hash, hashOk, StampRead(s, stampOk))
    ensures var t := Apply(Apply(s, Reconcile(hashOk, stampOk, false)), Publish(audit, true));
            && t.hash.updated == Some(t.row.updatedAt) && t.row == s.row
            && forall p :: p in POOLS ==>
                 (Says(t.hash, p) <==> (if p in s.op.value.pools then s.op.value.paused else true))
  {}

  /** Aurora has every pool running; a pause of the harness has committed, the reconcile behind it
      reads its stamp and not its flags, and the pause publishes: eval is paused as well. */
  lemma FailedFlagsPauseMore() returns (steps: seq<Step>, t: Sys)
    ensures Leads(Boot(Row(NONE_PAUSED, 1.0), Hash(map[], None, None, None), 0.0, true, true), steps, t)
    ensures !t.row.flags["eval"] && Says(t.hash, "eval")
    ensures t.op.None? && t.hash.updated == Some(t.row.updatedAt)
  {
    var s0 := Boot(Row(NONE_PAUSED, 1.0), Hash(map[], None, None, None), 0.0, true, true);
    var a, b, c := Commit({"harness"}, true, 2.0), Reconcile(true, true, false), Publish(NO_AUDIT, true);
    var s1 := Apply(s0, a);
    var s2 := Apply(s1, b);
    t := Apply(s2, c);
    steps := [a, b, c];
    assert steps[1..] == [b, c] && steps[1..][1..] == [c] && steps[1..][1..][1..] == [];
    assert Leads(t, [], t);
    assert Leads(s2, [c], t);
    assert Leads(s1, [b, c], t);
  }

  /** Every pool paused under the row's own stamp. */
  ghost predicate StuckPaused(s: Sys) {
    s.op.None? && s.hash.updated == Some(s.row.updatedAt) && forall p :: p in POOLS ==> Says(s.hash, p)
  }

  /** A step that writes flags it has read from the row: a launch does, a reconcile only when it
      misses a stamp. */
  ghost predicate Rereads(s: Sys, e: Step) {
    || (e.Launch? && e.flagsOk)
    || (e.Reconcile? && e.flagsOk && !SkipsWrite(s.hash, e.hashOk, StampRead(s, e.stampOk)))
  }

  /** What ends it: an operator's commit, or such a step while Aurora has a pool running. */
  lemma StuckEndsExactlyWhen(s: Sys, e: Step)
    requires StuckPaused(s) && Enabled(s, e)
    ensures !StuckPaused(Apply(s, e)) <==> e.Commit? || (Rereads(s, e) && SomeRunning(s))
  {
    if Rereads(s, e) && SomeRunning(s) {
      var p :| p in POOLS && !s.row.flags[p];
      assert !Says(Apply(s, e).hash, p);
    }
  }

  /** No operator action, no run launch that reads the flags, and no reconcile that misses a stamp
      but reads the flags. */
  ghost predicate Unattended(steps: seq<Step>) {
    forall i :: 0 <= i < |steps| ==>
      && !steps[i].Commit? && !steps[i].Publish? && (steps[i].Launch? ==> !steps[i].flagsOk)
      && (steps[i].Reconcile? ==> (steps[i].hashOk && steps[i].stampOk) || !steps[i].flagsOk)
  }

  lemma {:induction false} StuckStays(s: Sys, steps: seq<Step>, t: Sys)
    requires StuckPaused(s) && Leads(s, steps, t) && Unattended(steps)
    ensures StuckPaused(t) && t.row == s.row
    decreases |steps|
  {
    if steps != [] {
      StuckEndsExactlyWhen(s, steps[0]);
      StuckStays(Apply(s, steps[0]), steps[1..], t);
    }
  }

  lemma FailedReconcilePausesAll(s: Sys, hashOk: bool)
    requires Agreed(s) && s.op.None?
    ensures StuckPaused(Apply(s, Reconcile(hashOk, false, false)))
  {}

  lemma StuckReadsPaused(t: Sys, aborted: Option<set<string>>)
    requires StuckPaused(t)
    ensures ReadAs(Some(t.hash), aborted, t.now).paused == POOLS
  {
    assert (set p | p in POOLS && Says(t.hash, p)) == POOLS;
  }

  /** After one reconcile with failed reads the stamp in the hash still equals Aurora's, so every
      later reconcile that reads the stamps takes the skip branch: all pools stay paused, whatever
      Aurora says, until an operator acts or a run launch publishes. */
  lemma FailedReadSticks(row: Row, left: Hash, now: real, before: seq<Step>, s: Sys, hashOk: bool, after: seq<Step>,
                         t: Sys, aborted: Option<set<string>>)
    requires Leads(Boot(row, left, now, true, true), before, s) && ReadsSucceed(before) && s.op.None?
    requires Leads(Apply(s, Reconcile(hashOk, false, false)), after, t) && Unattended(after)
    ensures ReadAs(Some(t.hash), aborted, t.now).paused == POOLS && t.row == s.row
  {
    RunKeepsAgreed(Boot(row, left, now, true, true), before, s);
    FailedReconcilePausesAll(s, hashOk);
    StuckStays(Apply(s, Reconcile(hashOk, false, false)), after, t);
    StuckReadsPaused(t, aborted);
  }

  /** And the operator's resume merges over the hash, not over Aurora: the pools it does not
      name stay paused even where Aurora has them running. */
  lemma ResumeLeavesOthersPaused(s: Sys, pools: set<string>, at: real, audit: Audit)
    requires StuckPaused(s) && Enabled(s, Commit(pools, false, at))
    ensures var t := Apply(Apply(s, Commit(pools, false, at)), Publish(audit, true));
            && t.hash.updated == Some(t.row.updatedAt)
            && forall p :: p in POOLS ==> (Says(t.hash, p) <==> p !in pools)
  {}
}
