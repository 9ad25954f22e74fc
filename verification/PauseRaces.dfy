/** The pause protocol with reconcile and the launch-time publish split into their separate
    reads and write, interleaved with operator actions. Aurora reads succeed here; the cache reads
    that a merge and reconcile's guard make may fail. */
module PauseRaces {
  import opened Options
  import opened ControlHash
  import opened PauseProtocol

  /** Where reconcile stands: the row's stamp read, the guard passed, the flags read. */
  datatype Rec = Idle | HasStamp(at: real) | Passed(at: real) | HasFlags(at: real, flags: Flags)

  /** Where a publish stands: it reads the flags first and the stamp second. */
  datatype Pub = NoPub | PubFlags(flags: Flags) | PubBoth(flags: Flags, at: real)

  datatype Race = Race(sys: Sys, rec: Rec, pub: Pub)

  datatype Move =
    | Do(step: Step)
    | RecStamp | RecGuard(hashOk: bool) | RecFlags | RecWrite
    | PubReadFlags | PubReadStamp | PubWrite

  predicate Can(r: Race, e: Move) {
    match e
    case Do(step) => !step.Reconcile? && !step.Launch? && Enabled(r.sys, step)
    case RecStamp => r.rec.Idle?
    case RecGuard(_) => r.rec.HasStamp?
    case RecFlags => r.rec.Passed?
    case RecWrite => r.rec.HasFlags?
    case PubReadFlags => r.pub.NoPub?
    case PubReadStamp => r.pub.PubFlags?
    case PubWrite => r.pub.PubBoth?
  }

  function Move1(r: Race, e: Move): Race
    requires Can(r, e)
  {
    var s := r.sys;
    match e
    case Do(step) => r.(sys := Apply(s, step))
    case RecStamp => r.(rec := HasStamp(s.row.updatedAt))
    case RecGuard(hashOk) =>
      if SkipsWrite(s.hash, hashOk, Some(r.rec.at)) then Race(s.(hash := Beaten(s.hash, s.now)), Idle, r.pub)
      else r.(rec := Passed(r.rec.at))
    case RecFlags => r.(rec := HasFlags(r.rec.at, s.row.flags))
    case RecWrite => Race(s.(hash := Written(s.hash, r.rec.flags, s.now, Some(r.rec.at))), Idle, r.pub)
    case PubReadFlags => r.(pub := PubFlags(s.row.flags))
    case PubReadStamp => r.(pub := PubBoth(r.pub.flags, s.row.updatedAt))
    case PubWrite => Race(s.(hash := Written(s.hash, r.pub.flags, s.now, Some(r.pub.at))), r.rec, NoPub)
  }

  ghost predicate Reaches(r: Race, moves: seq<Move>, r': Race)
    decreases |moves|
  {
    if moves == [] then r == r'
    else Can(r, moves[0]) && Reaches(Move1(r, moves[0]), moves[1..], r')
  }

  lemma {:induction false} ReachesJoin(r: Race, a: seq<Move>, m: Race, b: seq<Move>, r': Race)
    requires Reaches(r, a, m) && Reaches(m, b, r')
    ensures Reaches(r, a + b, r')
    decreases |a|
  {
    if a == [] {
      assert a + b == b;
    } else {
      ReachesJoin(Move1(r, a[0]), a[1..], m, b, r');
      assert (a + b)[1..] == a[1..] + b;
    }
  }

  // ---- Reconcile reads the stamp first ---------------------------------------------------

  /** The stamp in hand is no newer than the row, and flags read after a stamp that is still
      the row's are still the row's. */
  ghost predicate Honest(r: Race) {
    && (!r.rec.Idle? ==> r.rec.at <= r.sys.row.updatedAt)
    && (r.rec.HasFlags? && r.rec.at == r.sys.row.updatedAt ==> r.rec.flags == r.sys.row.flags)
  }

  lemma {:induction false} RunKeepsHonest(r: Race, moves: seq<Move>, r': Race)
    requires Honest(r) && Reaches(r, moves, r')
    ensures Honest(r')
    decreases |moves|
  {
    if moves != [] { RunKeepsHonest(Move1(r, moves[0]), moves[1..], r'); }
  }

  ghost predicate Matches(h: Hash, row: Row) {
    Current(h) == row.flags
  }

  /** From any start with no reconcile under way and any interleaving, a reconcile that writes
      never leaves the row's current stamp beside older flags. */
  lemma ReconcileWriteIsHonest(r: Race, moves: seq<Move>, m: Race)
    requires r.rec.Idle? && Reaches(r, moves, m) && m.rec.HasFlags?
    ensures var r' := Move1(m, RecWrite);
            && r'.sys.hash.updated.Some? && r'.sys.hash.updated.value <= r'.sys.row.updatedAt
            && (r'.sys.hash.updated.value == r'.sys.row.updatedAt ==> Matches(r'.sys.hash, r'.sys.row))
  {
    RunKeepsHonest(r, moves, m);
  }

  /** Clock ticks, heartbeats and abort requests only. */
  ghost predicate Quiet(moves: seq<Move>) {
    forall i :: 0 <= i < |moves| ==>
      moves[i].Do? && (moves[i].step.Tick? || moves[i].step.Heartbeat? || moves[i].step.Abort?)
  }

  lemma {:induction false} QuietKeeps(r: Race, moves: seq<Move>, r': Race)
    requires Reaches(r, moves, r') && Quiet(moves)
    ensures r'.sys.hash.pools == r.sys.hash.pools && r'.sys.hash.updated == r.sys.hash.updated
    ensures r'.sys.row == r.sys.row && r'.rec == r.rec
    decreases |moves|
  {
    if moves != [] { QuietKeeps(Move1(r, moves[0]), moves[1..], r'); }
  }

  /** One whole reconcile with nothing in between. */
  function Undisturbed(r: Race, hashOk: bool): Race
    requires r.rec.Idle?
  {
    var g := Move1(Move1(r, RecStamp), RecGuard(hashOk));
    if g.rec.Idle? then g else Move1(Move1(g, RecFlags), RecWrite)
  }

  /** So after a reconcile's write, with no operator action in between, the next undisturbed
      reconcile leaves the hash with Aurora's flags, even when it cannot read the hash's stamp;
      stamps are seconds since 1970. */
  lemma NextReconcileRestores(r: Race, moves: seq<Move>, m: Race, quiet: seq<Move>, q: Race, hashOk: bool)
    requires r.rec.Idle? && Reaches(r, moves, m) && m.rec.HasFlags?
    requires Reaches(Move1(m, RecWrite), quiet, q) && Quiet(quiet) && (hashOk || q.sys.row.updatedAt > 0.0)
    ensures q.rec.Idle? && Matches(Undisturbed(q, hashOk).sys.hash, q.sys.row)
  {
    ReconcileWriteIsHonest(r, moves, m);
    QuietKeeps(Move1(m, RecWrite), quiet, q);
  }

  // ---- What an undisturbed reconcile can no longer repair ---------------------------------

  /** A settled hash that carries the row's stamp with other flags. */
  ghost predicate Lost(r: Race) {
    r.sys.op.None? && r.rec.Idle? && r.pub.NoPub? && r.sys.hash.updated == Some(r.sys.row.updatedAt)
      && !Matches(r.sys.hash, r.sys.row)
  }

  /** No operator action, no launch, and every guard reads the hash's stamp. */
  ghost predicate NoOperator(moves: seq<Move>) {
    forall i :: 0 <= i < |moves| ==>
      && !(moves[i].Do? && (moves[i].step.Commit? || moves[i].step.Publish?)) && !moves[i].PubReadFlags?
      && (moves[i].RecGuard? ==> moves[i].hashOk)
  }

  /** The same, with a reconcile possibly under way. */
  ghost predicate LostOrChecking(r: Race, pools: map<string, bool>) {
    && r.sys.op.None? && r.pub.NoPub? && r.sys.hash.updated == Some(r.sys.row.updatedAt)
    && (r.rec.Idle? || r.rec == HasStamp(r.sys.row.updatedAt)) && r.sys.hash.pools == pools
  }

  lemma {:induction false} LostStays(r: Race, moves: seq<Move>, r': Race)
    requires LostOrChecking(r, r.sys.hash.pools) && Reaches(r, moves, r') && NoOperator(moves)
    ensures LostOrChecking(r', r.sys.hash.pools) && r'.sys.row == r.sys.row
    decreases |moves|
  {
    if moves != [] { LostStays(Move1(r, moves[0]), moves[1..], r'); }
  }

  /** Reconcile alone never repairs a lost hash: its guard sees the current stamp and skips. */
  lemma LostIsForever(r: Race, moves: seq<Move>, r': Race)
    requires Lost(r) && Reaches(r, moves, r') && NoOperator(moves)
    ensures !Matches(r'.sys.hash, r'.sys.row) && r'.sys.row == r.sys.row
  {
    LostStays(r, moves, r');
  }

  // ---- The publish at launch reads the flags first ----------------------------------------

  ghost predicate NoPublish(moves: seq<Move>) {
    forall i :: 0 <= i < |moves| ==> !moves[i].PubReadFlags? && !moves[i].PubReadStamp? && !moves[i].PubWrite?
  }

  ghost predicate NoCommit(moves: seq<Move>) {
    forall i :: 0 <= i < |moves| ==> !(moves[i].Do? && moves[i].step.Commit?)
  }

  /** The row moves only by commits, each with a later stamp; a publish in hand waits. */
  lemma {:induction false} RowHistory(r: Race, moves: seq<Move>, r': Race)
    requires Reaches(r, moves, r') && NoPublish(moves)
    ensures r'.pub == r.pub && r.sys.row.updatedAt <= r'.sys.row.updatedAt
    ensures NoCommit(moves) ==> r'.sys.row == r.sys.row
    ensures !NoCommit(moves) ==> r.sys.row.updatedAt < r'.sys.row.updatedAt
    decreases |moves|
  {
    if moves != [] {
      RowHistory(Move1(r, moves[0]), moves[1..], r');
      if NoCommit(moves[1..]) && !(moves[0].Do? && moves[0].step.Commit?) {
        assert NoCommit(moves);
      }
    }
  }

  /** A publish with arbitrary moves between its reads and before its write leaves the current
      stamp beside other flags exactly when nothing commits after the stamp read and the
      commits between its two reads changed the flags. */
  lemma PublishLosesExactlyWhen(r: Race, between: seq<Move>, m: Race, after: seq<Move>, w: Race)
    requires r.pub.NoPub?
    requires Reaches(Move1(r, PubReadFlags), between, m) && NoPublish(between)
    requires m.pub.PubFlags? && Reaches(Move1(m, PubReadStamp), after, w) && NoPublish(after)
    ensures w.pub.PubBoth?
    ensures var r' := Move1(w, PubWrite);
            (r'.sys.hash.updated == Some(r'.sys.row.updatedAt) && !Matches(r'.sys.hash, r'.sys.row))
            <==> (NoCommit(after) && m.sys.row.flags != r.sys.row.flags)
  {
    RowHistory(Move1(r, PubReadFlags), between, m);
    RowHistory(Move1(m, PubReadStamp), after, w);
    var r' := Move1(w, PubWrite);
    assert Current(r'.sys.hash) == r.sys.row.flags;
  }

  // ---- The operator's merge ----------------------------------------------------------------

  /** The operator's second half ends with Aurora's flags exactly when the flags it merges over,
      the hash's or, for a hash that it cannot read, all running, agree with Aurora on the pools it
      does not name. */
  lemma MergeExactlyWhen(s: Sys, audit: Audit, hashOk: bool)
    requires s.op.Some? && InFlight(s)
    ensures Matches(Apply(s, Publish(audit, hashOk)).hash, s.row)
            <==> forall p :: p in POOLS && p !in s.op.value.pools ==> (hashOk && Says(s.hash, p)) == s.row.flags[p]
  {
    var h, op := Apply(s, Publish(audit, hashOk)).hash, s.op.value;
    assert forall p :: p in POOLS ==> Says(h, p) == if p in op.pools then op.paused else hashOk && Says(s.hash, p);
    if forall p :: p in POOLS && p !in op.pools ==> (hashOk && Says(s.hash, p)) == s.row.flags[p] {
      assert Current(h) == s.row.flags;
    } else {
      var p :| p in POOLS && p !in op.pools && (hashOk && Says(s.hash, p)) != s.row.flags[p];
      assert Current(h)[p] != s.row.flags[p];
    }
  }

  // ---- When a pause is kept -----------------------------------------------------------------

  /** The move writes nothing old: a reconcile's write bears the row's stamp, a launch's write the
      row's stamp and flags, and a merge could read the hash. */
  predicate WritesFresh(r: Race, e: Move) {
    match e
    case RecWrite => r.rec.HasFlags? && r.rec.at == r.sys.row.updatedAt
    case PubWrite => r.pub.PubBoth? && r.pub.at == r.sys.row.updatedAt && r.pub.flags == r.sys.row.flags
    case Do(step) => step.Publish? ==> step.hashOk
    case _ => true
  }

  ghost predicate AllFresh(r: Race, moves: seq<Move>)
    decreases |moves|
  {
    moves != [] && Can(r, moves[0]) ==> WritesFresh(r, moves[0]) && AllFresh(Move1(r, moves[0]), moves[1..])
  }

  lemma MoveKeepsAgreed(r: Race, e: Move)
    requires Can(r, e) && Honest(r) && Agreed(r.sys) && WritesFresh(r, e)
    ensures Agreed(Move1(r, e).sys) && Honest(Move1(r, e))
  {
    if e.Do? { StepKeepsAgreed(r.sys, e.step); }
  }

  /** Over every interleaving of reconciles' and launches' reads and writes with operator actions in
      which no write is of something old, a settled hash carries Aurora's flags and stamp. */
  lemma {:induction false} FreshWritesAgree(r: Race, moves: seq<Move>, r': Race)
    requires Honest(r) && Agreed(r.sys) && Reaches(r, moves, r') && AllFresh(r, moves)
    ensures Agreed(r'.sys) && (r'.sys.op.None? ==> Matches(r'.sys.hash, r'.sys.row))
    decreases |moves|
  {
    if moves == [] {
      if r.sys.op.None? { assert Current(r.sys.hash) == r.sys.row.flags; }
    } else {
      MoveKeepsAgreed(r, moves[0]);
      FreshWritesAgree(Move1(r, moves[0]), moves[1..], r');
    }
  }

  /** And a reconcile's write of something old breaks the agreement exactly when no action is in
      flight, or Aurora has since changed a pool that the one in flight does not name. */
  lemma StaleWriteBreaksExactlyWhen(r: Race)
    requires Agreed(r.sys) && r.rec.HasFlags? && r.rec.at != r.sys.row.updatedAt
    ensures var op := r.sys.op;
            !Agreed(Move1(r, RecWrite).sys) <==>
              op.None? || exists p :: p in POOLS && p !in op.value.pools && r.rec.flags[p] != r.sys.row.flags[p]
  {
    var h := Move1(r, RecWrite).sys.hash;
    assert forall p :: p in POOLS ==> Says(h, p) == r.rec.flags[p];
    if r.sys.op.Some? {
      if p :| p in POOLS && p !in r.sys.op.value.pools && r.rec.flags[p] != r.sys.row.flags[p] {
        assert Says(h, p) != r.sys.row.flags[p];
      }
    }
  }

  // ---- Three concrete interleavings that lose a pause -----------------------------------------

  const BY: Audit := Audit("operator", "")

  function Settled(): Race {
    Race(Sys(Row(NONE_PAUSED, 1.0), Hash(NONE_PAUSED, Some(0.0), Some(1.0), None), 0.0, None), Idle, NoPub)
  }

  const PAUSE_HARNESS: Move := Do(Commit({"harness"}, true, 2.0))

  /** A run launch reads the flags, the operator pauses the harness pool and publishes, the
      launch reads the new stamp and writes the old flags under it. */
  lemma LaunchPublishLosesPause() returns (moves: seq<Move>, r': Race)
    ensures Reaches(Settled(), moves, r') && Lost(r')
    ensures r'.sys.row.flags["harness"] && !Says(r'.sys.hash, "harness")
  {
    var r0 := Settled();
    var r1 := Move1(r0, PubReadFlags);
    var r2 := Move1(r1, PAUSE_HARNESS);
    var r3 := Move1(r2, Do(Publish(BY, true)));
    var r4 := Move1(r3, PubReadStamp);
    r' := Move1(r4, PubWrite);
    moves := [PubReadFlags, PAUSE_HARNESS, Do(Publish(BY, true)), PubReadStamp, PubWrite];
    FiveMoves(r0, moves, r1, r2, r3, r4, r');
    assert Current(r'.sys.hash)["harness"] != r'.sys.row.flags["harness"];
  }

  lemma FiveMoves(r0: Race, moves: seq<Move>, r1: Race, r2: Race, r3: Race, r4: Race, r5: Race)
    requires |moves| == 5
    requires Can(r0, moves[0]) && r1 == Move1(r0, moves[0])
    requires Can(r1, moves[1]) && r2 == Move1(r1, moves[1])
    requires Can(r2, moves[2]) && r3 == Move1(r2, moves[2])
    requires Can(r3, moves[3]) && r4 == Move1(r3, moves[3])
    requires Can(r4, moves[4]) && r5 == Move1(r4, moves[4])
    ensures Reaches(r0, moves, r5)
  {
    var m1, m2, m3, m4 := moves[1..], moves[2..], moves[3..], moves[4..];
    assert m1[1..] == m2 && m2[1..] == m3 && m3[1..] == m4 && m4[1..] == [];
    assert Reaches(r5, [], r5);
    assert Reaches(r4, m4, r5);
    assert Reaches(r3, m3, r5);
    assert Reaches(r2, m2, r5);
    assert Reaches(r1, m1, r5);
  }

  /** With the harness pool paused, the operator pauses the eval pool while the hash cannot be read:
      the merge starts from all running and resumes the harness pool under the current stamp. */
  lemma FailedMergeLosesPause() returns (moves: seq<Move>, r': Race)
    ensures Reaches(Settled(), moves, r') && Lost(r')
    ensures r'.sys.row.flags["harness"] && "harness" !in ReadAs(Some(r'.sys.hash), None, r'.sys.now).paused
  {
    var r1 := Move1(Settled(), PAUSE_HARNESS);
    var r2 := Move1(r1, Do(Publish(BY, true)));
    var r3 := Move1(r2, Do(Heartbeat));
    var r4 := Move1(r3, Do(Commit({"eval"}, true, 3.0)));
    r' := Move1(r4, Do(Publish(BY, false)));
    moves := [PAUSE_HARNESS, Do(Publish(BY, true)), Do(Heartbeat), Do(Commit({"eval"}, true, 3.0)),
      Do(Publish(BY, false))];
    FiveMoves(Settled(), moves, r1, r2, r3, r4, r');
    assert !Says(r'.sys.hash, "harness");
    assert Current(r'.sys.hash)["harness"] != r'.sys.row.flags["harness"];
  }

  const HARNESS_PAUSED: Flags := map["harness" := true, "eval" := false, "gateway" := false]

  /** One action committed and published, with a reconcile holding its stamp and flags. */
  function Caught(): Race {
    Race(Sys(Row(HARNESS_PAUSED, 2.0), Hash(HARNESS_PAUSED, Some(0.0), Some(2.0), Some(BY)), 0.0, None),
         HasFlags(2.0, HARNESS_PAUSED), NoPub)
  }

  lemma ReachCaught() returns (moves: seq<Move>)
    ensures Reaches(Settled(), moves, Caught())
  {
    moves := [PAUSE_HARNESS, RecStamp, RecGuard(true), RecFlags, Do(Publish(BY, true))];
    var r1 := Move1(Settled(), moves[0]);
    assert r1.sys.row.flags == HARNESS_PAUSED;
    var r2 := Move1(r1, moves[1]);
    var r3 := Move1(r2, moves[2]);
    var r4 := Move1(r3, moves[3]);
    var r5 := Move1(r4, moves[4]);
    assert r5.sys.hash.pools == HARNESS_PAUSED;
    FiveMoves(Settled(), moves, r1, r2, r3, r4, r5);
  }

  /** A reconcile caught between its reads and its write writes after a second action has
      published; a third action then merges over the stale flags and stamps them current. The
      second action's pause of the eval pool is gone for good. */
  lemma StaleMergeLosesPause() returns (moves: seq<Move>, r': Race)
    ensures Reaches(Settled(), moves, r') && Lost(r')
    ensures r'.sys.row.flags["eval"] && !Says(r'.sys.hash, "eval")
  {
    var a := ReachCaught();
    var b := [Do(Commit({"eval"}, true, 3.0)), Do(Publish(BY, true)), Do(Commit({"gateway"}, true, 4.0)), RecWrite,
        Do(Publish(BY, true))];
    var r6 := Move1(Caught(), b[0]);
    var r7 := Move1(r6, b[1]);
    var r8 := Move1(r7, b[2]);
    var r9 := Move1(r8, b[3]);
    r' := Move1(r9, b[4]);
    FiveMoves(Caught(), b, r6, r7, r8, r9, r');
    moves := a + b;
    ReachesJoin(Settled(), a, Caught(), b, r');
    assert Current(r'.sys.hash)["eval"] != r'.sys.row.flags["eval"];
  }
}
