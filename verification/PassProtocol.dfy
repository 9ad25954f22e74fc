/** Several passes over one run's results table, serialised by the lock row: launched, refused,
    ended (done, stopped or failed alike), killed before their cleanup ran, and cleaned up. */
module PassProtocol {
  import opened Options
  import opened JudgeTypes
  import opened PassPlan
  import opened JudgePass
  import opened JudgePassLaws
  import JudgePassTrace

  type Id = string

  /** The lock table's one row, keyed by the model alias. */
  class PassLock {
    var holder: Option<Id>

    constructor ()
      ensures holder == None
    {
      holder := None;
    }

    /** The unique constraint refuses a second row. */
    method Claim(id: Id) returns (ok: bool)
      modifies this
      ensures ok <==> old(holder).None?
      ensures holder == Claimed(old(holder), id)
    {
      ok := holder.None?;
      if ok {
        holder := Some(id);
      }
    }

    /** Only the row naming this pass is deleted, so a repeat or a late call does nothing. */
    method Release(id: Id)
      modifies this
      ensures holder == Released(old(holder), id)
    {
      if holder == Some(id) {
        holder := None;
      }
    }

    method Cleanup(id: Id) returns (lockHeld: bool)
      modifies this
      ensures lockHeld <==> old(holder) == Some(id)
      ensures holder == Released(old(holder), id)
    {
      lockHeld := holder == Some(id);
      Release(id);
    }
  }

  function Claimed(holder: Option<Id>, id: Id): Option<Id> {
    if holder.None? then Some(id) else holder
  }

  function Released(holder: Option<Id>, id: Id): Option<Id> {
    if holder == Some(id) then None else holder
  }

  // ---- The transition system -------------------------------------------------------------

  datatype Stage = Starting | Holding | Judging(left: set<Key>) | Refused | Ended | Dead

  datatype Member = Member(mode: Mode, stage: Stage)

  datatype Sys = Sys(table: seq<Row>, lock: Option<Id>, passes: map<Id, Member>)

  datatype Step =
    | Launch(id: Id, mode: Mode)
    | Claim(id: Id)
    | Queue(id: Id, keys: seq<Key>)
    | Write(id: Id, row: Row)
    | End(id: Id)
    | Crash(id: Id)
    | Cleanup(id: Id)

  predicate PastClaim(s: Sys, id: Id) {
    id in s.passes && (s.passes[id].stage.Holding? || s.passes[id].stage.Judging?)
  }

  /** What the code allows; cleaning up is left to the operator's judgment. */
  predicate Can(s: Sys, e: Step) {
    match e
    case Launch(id, _) => id !in s.passes
    case Claim(id) => id in s.passes && s.passes[id].stage.Starting?
    case Queue(id, keys) =>
      id in s.passes && s.passes[id].stage.Holding? && forall k :: k in keys ==> Open(s.table, k, s.passes[id].mode)
    case Write(id, row) => id in s.passes && s.passes[id].stage.Judging? && row.key in s.passes[id].stage.left
    case End(id) => PastClaim(s, id)
    case Crash(id) => PastClaim(s, id) || (id in s.passes && s.passes[id].stage.Starting?)
    case Cleanup(id) => id in s.passes
  }

  function To(s: Sys, id: Id, stage: Stage): Sys
    requires id in s.passes
  {
    s.(passes := s.passes[id := Member(s.passes[id].mode, stage)])
  }

  function Do(s: Sys, e: Step): Sys
    requires Can(s, e)
  {
    match e
    case Launch(id, mode) => s.(passes := s.passes[id := Member(mode, Starting)])
    case Claim(id) => To(s, id, if s.lock.None? then Holding else Refused).(lock := Claimed(s.lock, id))
    case Queue(id, keys) => To(s, id, Judging(set k | k in keys))
    case Write(id, row) => To(s, id, Judging(s.passes[id].stage.left - {row.key})).(table := s.table + [row])
    case End(id) => To(s, id, Ended).(lock := Released(s.lock, id))
    case Crash(id) => To(s, id, Dead)
    case Cleanup(id) => s.(lock := Released(s.lock, id))
  }

  /** Cleanup is not run on a pass that is past its claim and alive. */
  predicate Careful(s: Sys, e: Step) {
    Can(s, e) && (e.Cleanup? ==> !PastClaim(s, e.id))
  }

  ghost predicate Leads(s: Sys, steps: seq<Step>, t: Sys)
    decreases |steps|
  {
    if steps == [] then s == t else Careful(s, steps[0]) && Leads(Do(s, steps[0]), steps[1..], t)
  }

  // ---- At most one pass past its claim -----------------------------------------------------

  /** Whoever is past its claim is the one the lock row names. */
  ghost predicate Exclusive(s: Sys) {
    forall id :: PastClaim(s, id) ==> s.lock == Some(id)
  }

  /** And still has only open keys left to write. */
  ghost predicate Fresh(s: Sys) {
    forall id, k :: id in s.passes && s.passes[id].stage.Judging? && k in s.passes[id].stage.left ==>
                      Open(s.table, k, s.passes[id].mode)
  }

  lemma StepKeepsExclusive(s: Sys, e: Step)
    requires Exclusive(s) && Careful(s, e)
    ensures Exclusive(Do(s, e))
  {
    var t := Do(s, e);
    forall id | PastClaim(t, id) ensures t.lock == Some(id) {
      if id != e.id { assert PastClaim(s, id); }
    }
  }

  lemma WriteKeepsFresh(s: Sys, id: Id, row: Row)
    requires Exclusive(s) && Fresh(s) && Can(s, Write(id, row))
    ensures Fresh(Do(s, Write(id, row)))
  {
    var t := Do(s, Write(id, row));
    forall i, k | i in t.passes && t.passes[i].stage.Judging? && k in t.passes[i].stage.left
      ensures Open(t.table, k, t.passes[i].mode)
    {
      assert PastClaim(s, i) && PastClaim(s, id);
      assert i == id;
      RowsForAppend(s.table, row, k);
      assert Open(s.table, k, s.passes[id].mode);
    }
  }

  lemma StepKeepsFresh(s: Sys, e: Step)
    requires Exclusive(s) && Fresh(s) && Careful(s, e)
    ensures Fresh(Do(s, e))
  {
    if e.Write? {
      WriteKeepsFresh(s, e.id, e.row);
    } else {
      var t := Do(s, e);
      forall i, k | i in t.passes && t.passes[i].stage.Judging? && k in t.passes[i].stage.left
        ensures Open(t.table, k, t.passes[i].mode)
      {
        if i != e.id { assert i in s.passes && s.passes[i].stage.Judging?; }
      }
    }
  }

  lemma {:induction false} RunKeeps(s: Sys, steps: seq<Step>, t: Sys)
    requires Exclusive(s) && Fresh(s) && Leads(s, steps, t)
    ensures Exclusive(t) && Fresh(t)
    decreases |steps|
  {
    if steps != [] {
      StepKeepsExclusive(s, steps[0]);
      StepKeepsFresh(s, steps[0]);
      RunKeeps(Do(s, steps[0]), steps[1..], t);
    }
  }

  function Boot(table: seq<Row>): Sys {
    Sys(table, None, map[])
  }

  lemma BootRuns(table: seq<Row>, steps: seq<Step>, t: Sys)
    requires Leads(Boot(table), steps, t)
    ensures Exclusive(t) && Fresh(t)
  {
    RunKeeps(Boot(table), steps, t);
  }

  /** At every point of every interleaving at most one pass is past its claim. */
  lemma OnePassAtATime(table: seq<Row>, steps: seq<Step>, t: Sys, a: Id, b: Id)
    requires Leads(Boot(table), steps, t) && PastClaim(t, a) && PastClaim(t, b)
    ensures a == b
  {
    RunKeeps(Boot(table), steps, t);
  }

  /** Whoever the lock names is past its claim, or died before it could let go. */
  ghost predicate Owned(s: Sys) {
    s.lock.Some? ==> var id := s.lock.value; id in s.passes && (PastClaim(s, id) || s.passes[id].stage.Dead?)
  }

  lemma {:induction false} RunKeepsOwned(s: Sys, steps: seq<Step>, t: Sys)
    requires Owned(s) && Exclusive(s) && Leads(s, steps, t)
    ensures Owned(t)
    decreases |steps|
  {
    if steps != [] {
      StepKeepsExclusive(s, steps[0]);
      RunKeepsOwned(Do(s, steps[0]), steps[1..], t);
    }
  }

  /** Over every interleaving a claim is refused only because of a pass that is past its own, or of a
      dead one that nobody cleaned up: ended passes never stand in the way. */
  lemma RefusedOnlyByHolder(table: seq<Row>, steps: seq<Step>, t: Sys, id: Id)
    requires Leads(Boot(table), steps, t) && Can(t, Claim(id))
    ensures Do(t, Claim(id)).passes[id].stage.Holding? <==> t.lock.None?
    ensures Do(t, Claim(id)).passes[id].stage.Refused? ==>
              exists other :: other in t.passes && (PastClaim(t, other) || t.passes[other].stage.Dead?)
  {
    RunKeepsOwned(Boot(table), steps, t);
    if t.lock.Some? { assert t.lock.value in t.passes; }
  }

  /** After its end, or its cleanup, a pass no longer holds the lock, and a claim by another succeeds if
      it was the one that held it. */
  lemma EndFreesLock(s: Sys, id: Id, e: Step, other: Id)
    requires (e == End(id) || e == Cleanup(id)) && Can(s, e) && s.lock == Some(id)
    requires other != id && Can(s, Claim(other))
    ensures Do(s, e).lock == None && Can(Do(s, e), Claim(other))
    ensures Do(Do(s, e), Claim(other)).passes[other].stage.Holding?
  {}

  /** Cleaning up a pass keeps that exactly when the pass is not past its claim. */
  lemma CleanupSafeExactlyWhen(s: Sys, id: Id)
    requires Exclusive(s) && Can(s, Cleanup(id))
    ensures Exclusive(Do(s, Cleanup(id))) <==> !PastClaim(s, id)
  {
    var t := Do(s, Cleanup(id));
    forall i ensures PastClaim(t, i) <==> PastClaim(s, i) {}
    if PastClaim(s, id) {
      assert s.lock == Some(id) && t.lock == None;
      assert PastClaim(t, id);
    }
  }

  /** The steps as the code allows them, careful or not. */
  ghost predicate Allows(s: Sys, steps: seq<Step>, t: Sys)
    decreases |steps|
  {
    if steps == [] then s == t else Can(s, steps[0]) && Allows(Do(s, steps[0]), steps[1..], t)
  }

  lemma First(s: Sys, e: Step, m: Sys, rest: seq<Step>, t: Sys)
    requires Can(s, e) && Do(s, e) == m && Allows(m, rest, t)
    ensures Allows(s, [e] + rest, t)
  {
    assert ([e] + rest)[1..] == rest;
  }

  const RESUME: Mode := Mode(false, false)

  /** Pass "a" past its claim with one key left. */
  function Live(k: Key): Sys {
    Sys([], Some("a"), map["a" := Member(RESUME, Judging({k}))])
  }

  lemma LiveReached(k: Key)
    ensures Allows(Boot([]), [Launch("a", RESUME)] + ([Claim("a")] + ([Queue("a", [k])] + [])), Live(k))
  {
    var s1 := Sys([], None, map["a" := Member(RESUME, Starting)]);
    var s2 := Sys([], Some("a"), map["a" := Member(RESUME, Holding)]);
    assert Allows(Live(k), [], Live(k));
    assert (set x | x in [k]) == {k};
    First(s2, Queue("a", [k]), Live(k), [], Live(k));
    First(s1, Claim("a"), s2, [Queue("a", [k])] + [], Live(k));
    First(Boot([]), Launch("a", RESUME), s1, [Claim("a")] + ([Queue("a", [k])] + []), Live(k));
  }

  function Both(k: Key, a: set<Key>, b: Stage, table: seq<Row>): Sys {
    Sys(table, if b.Starting? then None else Some("b"),
      map["a" := Member(RESUME, Judging(a)), "b" := Member(RESUME, b)])
  }

  lemma SecondReached(k: Key)
    ensures Allows(Live(k), [Cleanup("a")] + ([Launch("b", RESUME)] + ([Claim("b")] + ([Queue("b", [k])] + []))),
            Both(k, {k}, Judging({k}), []))
  {
    var t := Both(k, {k}, Judging({k}), []);
    var s1 := Live(k).(lock := None);
    assert Allows(t, [], t);
    assert (set x | x in [k]) == {k};
    First(Both(k, {k}, Holding, []), Queue("b", [k]), t, [], t);
    First(Both(k, {k}, Starting, []), Claim("b"), Both(k, {k}, Holding, []), [Queue("b", [k])] + [], t);
    First(s1, Launch("b", RESUME), Both(k, {k}, Starting, []), [Claim("b")] + ([Queue("b", [k])] + []), t);
    First(Live(k), Cleanup("a"), s1, [Launch("b", RESUME)] + ([Claim("b")] + ([Queue("b", [k])] + [])), t);
  }

  /** With the cleanup of a live pass the same attempt is judged twice. */
  lemma LiveCleanupDuplicates(k: Key) returns (a: seq<Step>, b: seq<Step>, c: seq<Step>, t: Sys)
    ensures Allows(Boot([]), a, Live(k)) && PastClaim(Live(k), "a") && |b| > 0 && b[0] == Cleanup("a")
    ensures exists m :: Allows(Live(k), b, m) && Allows(m, c, t)
    ensures RowsFor(t.table, k) == [Row(k, Verdict), Row(k, Verdict)]
  {
    var r, none := Row(k, Verdict), {k} - {k};
    LiveReached(k);
    SecondReached(k);
    a := [Launch("a", RESUME)] + ([Claim("a")] + ([Queue("a", [k])] + []));
    b := [Cleanup("a")] + ([Launch("b", RESUME)] + ([Claim("b")] + ([Queue("b", [k])] + [])));
    var m := Both(k, {k}, Judging({k}), []);
    t := Both(k, none, Judging(none), [r, r]);
    c := [Write("a", r)] + ([Write("b", r)] + []);
    assert Allows(t, [], t);
    First(Both(k, none, Judging({k}), [r]), Write("b", r), t, [], t);
    First(m, Write("a", r), Both(k, none, Judging({k}), [r]), [Write("b", r)] + [], t);
    RowsForAppend([], r, k);
    RowsForAppend([r], r, k);
    assert [] + [r] == [r] && [r] + [r] == [r, r];
  }

  // ---- What the table keeps ---------------------------------------------------------------

  /** What a pass may add to a key that has these rows: a re-judge anything, any other pass the first
      row, and with retrying on another one after a row without a verdict. */
  predicate Due(rows: seq<Row>, mode: Mode) {
    mode.rejudge || rows == [] || (mode.retryNoVerdict && !rows[|rows| - 1].status.Verdict?)
  }

  /** The resume rule takes up exactly the keys that are due. */
  lemma OpenExactlyWhenDue(table: seq<Row>, k: Key, mode: Mode)
    ensures Open(table, k, mode) <==> Due(RowsFor(table, k), mode)
  {}

  /** Over every interleaving, re-judges included, whatever a pass can write is due: a pass that is no
      re-judge finds the key without a row, or, with retrying on, its last row without a verdict. */
  lemma WritesAreDue(table: seq<Row>, steps: seq<Step>, t: Sys, id: Id, row: Row)
    requires Leads(Boot(table), steps, t) && Can(t, Write(id, row))
    ensures Due(RowsFor(t.table, row.key), t.passes[id].mode)
  {
    BootRuns(table, steps, t);
    assert Open(t.table, row.key, t.passes[id].mode);
  }

  /** The step writes a row for k on behalf of a pass that neither re-judges nor retries. */
  predicate PlainWrite(s: Sys, e: Step, k: Key) {
    e.Write? && e.row.key == k && e.id in s.passes && s.passes[e.id].mode == RESUME
  }

  /** How many of the steps do. */
  ghost function PlainWrites(s: Sys, steps: seq<Step>, k: Key): nat
    decreases |steps|
  {
    if steps == [] || !Can(s, steps[0]) then 0
    else (if PlainWrite(s, steps[0], k) then 1 else 0) + PlainWrites(Do(s, steps[0]), steps[1..], k)
  }

  lemma PlainStep(s: Sys, e: Step, k: Key)
    requires Exclusive(s) && Fresh(s) && Careful(s, e)
    ensures RowsFor(s.table, k) != [] ==> RowsFor(Do(s, e).table, k) != [] && !PlainWrite(s, e, k)
    ensures PlainWrite(s, e, k) ==> RowsFor(Do(s, e).table, k) != []
  {
    if e.Write? {
      RowsForAppend(s.table, e.row, k);
      assert Open(s.table, e.row.key, s.passes[e.id].mode);
    }
  }

  lemma {:induction false} PlainWritesFrom(s: Sys, steps: seq<Step>, t: Sys, k: Key)
    requires Exclusive(s) && Fresh(s) && Leads(s, steps, t)
    ensures PlainWrites(s, steps, k) <= if RowsFor(s.table, k) == [] then 1 else 0
    decreases |steps|
  {
    if steps != [] {
      var e := steps[0];
      PlainStep(s, e, k);
      StepKeepsExclusive(s, e);
      StepKeepsFresh(s, e);
      PlainWritesFrom(Do(s, e), steps[1..], t, k);
    }
  }

  /** Over every interleaving with whatever re-judging and retrying passes, all the passes that do
      neither write together at most one row for a key, and none when the table had one. */
  lemma PlainPassesWriteOnce(table: seq<Row>, steps: seq<Step>, t: Sys, k: Key)
    requires Leads(Boot(table), steps, t)
    ensures PlainWrites(Boot(table), steps, k) <= if RowsFor(table, k) == [] then 1 else 0
  {
    PlainWritesFrom(Boot(table), steps, t, k);
  }

  /** A step that writes k does so for no re-judge, and for a retrying pass only if `retry`. */
  predicate Modest(s: Sys, e: Step, k: Key, retry: bool) {
    e.Write? && e.row.key == k && e.id in s.passes ==>
      !s.passes[e.id].mode.rejudge && (s.passes[e.id].mode.retryNoVerdict ==> retry)
  }

  /** No re-judge writes k; others may be running, or may have written other keys. */
  ghost predicate AllModest(s: Sys, steps: seq<Step>, k: Key, retry: bool)
    decreases |steps|
  {
    steps != [] && Can(s, steps[0]) ==>
      Modest(s, steps[0], k, retry) && AllModest(Do(s, steps[0]), steps[1..], k, retry)
  }

  /** A key with a row is closed; when retrying is on, only a verdict closes it. */
  predicate Closed(table: seq<Row>, k: Key, retry: bool) {
    Latest(table, k).Some? && (retry ==> Latest(table, k).value.Verdict?)
  }

  lemma ClosedStepKeepsRows(s: Sys, e: Step, k: Key, retry: bool)
    requires Exclusive(s) && Fresh(s) && Careful(s, e) && Modest(s, e, k, retry) && Closed(s.table, k, retry)
    ensures RowsFor(Do(s, e).table, k) == RowsFor(s.table, k)
  {
    if e.Write? {
      RowsForAppend(s.table, e.row, k);
      assert Open(s.table, e.row.key, s.passes[e.id].mode);
    }
  }

  /** Once a key is closed no further row is written for it but by a re-judge: with retrying off
      whatever its last row says, with retrying on when it is a verdict. */
  lemma {:induction false} ClosedIsFinal(s: Sys, steps: seq<Step>, t: Sys, k: Key, retry: bool)
    requires Exclusive(s) && Fresh(s) && Leads(s, steps, t) && AllModest(s, steps, k, retry)
    requires Closed(s.table, k, retry)
    ensures RowsFor(t.table, k) == RowsFor(s.table, k)
    decreases |steps|
  {
    if steps != [] {
      var e := steps[0];
      ClosedStepKeepsRows(s, e, k, retry);
      StepKeepsExclusive(s, e);
      StepKeepsFresh(s, e);
      ClosedIsFinal(Do(s, e), steps[1..], t, k, retry);
    }
  }

  /** Only the last of a key's rows may be one that closes it. */
  ghost predicate ClosedLast(rows: seq<Row>, retry: bool) {
    (|rows| > 1 ==> retry) && forall i :: 0 <= i < |rows| - 1 ==> !rows[i].status.Verdict?
  }

  lemma ClosedLastMore(was: seq<Row>, now: seq<Row>, k: Key, r: Row, retry: bool)
    requires ClosedLast(was, retry) && now == was + if r.key == k then [r] else []
    requires r.key == k ==> was == [] || (retry && !was[|was| - 1].status.Verdict?)
    ensures ClosedLast(now, retry)
  {
    forall i | 0 <= i < |now| - 1 ensures !now[i].status.Verdict? {
      assert now[i] == was[i];
    }
  }

  lemma StepKeepsClosedLast(s: Sys, e: Step, k: Key, retry: bool)
    requires Exclusive(s) && Fresh(s) && Careful(s, e) && Modest(s, e, k, retry)
             && ClosedLast(RowsFor(s.table, k), retry)
    ensures ClosedLast(RowsFor(Do(s, e).table, k), retry)
  {
    if e.Write? {
      RowsForAppend(s.table, e.row, k);
      assert Open(s.table, e.row.key, s.passes[e.id].mode);
      var was, now := RowsFor(s.table, k), RowsFor(Do(s, e).table, k);
      ClosedLastMore(was, now, k, e.row, retry);
    }
  }

  lemma {:induction false} RunKeepsClosedLast(s: Sys, steps: seq<Step>, t: Sys, k: Key, retry: bool)
    requires Exclusive(s) && Fresh(s) && Leads(s, steps, t) && AllModest(s, steps, k, retry)
    requires ClosedLast(RowsFor(s.table, k), retry)
    ensures ClosedLast(RowsFor(t.table, k), retry)
    decreases |steps|
  {
    if steps != [] {
      var e := steps[0];
      StepKeepsClosedLast(s, e, k, retry);
      StepKeepsExclusive(s, e);
      StepKeepsFresh(s, e);
      RunKeepsClosedLast(Do(s, e), steps[1..], t, k, retry);
    }
  }

  /** For a key without a row, over every interleaving in which no re-judge writes it: at most one row;
      with retrying on, at most one verdict, and nothing after it. */
  lemma AtMostOneVerdictPerKey(table: seq<Row>, steps: seq<Step>, t: Sys, k: Key, retry: bool)
    requires Leads(Boot(table), steps, t) && AllModest(Boot(table), steps, k, retry) && RowsFor(table, k) == []
    ensures !retry ==> |RowsFor(t.table, k)| <= 1
    ensures forall i :: 0 <= i < |RowsFor(t.table, k)| - 1 ==> !RowsFor(t.table, k)[i].status.Verdict?
  {
    RunKeepsClosedLast(Boot(table), steps, t, k, retry);
  }

  // ---- A scheduler run is a run of writes ---------------------------------------------------

  function Writes(id: Id, rows: seq<Row>): seq<Step> {
    if rows == [] then [] else [Write(id, rows[0])] + Writes(id, rows[1..])
  }

  ghost predicate DistinctKeys(rows: seq<Row>) {
    forall i, j :: 0 <= i < j < |rows| ==> rows[i].key != rows[j].key
  }

  lemma {:induction false} RowsAreWrites(s: Sys, id: Id, rows: seq<Row>, t: Sys)
    requires id in s.passes && s.passes[id].stage.Judging? && DistinctKeys(rows)
    requires forall i :: 0 <= i < |rows| ==> rows[i].key in s.passes[id].stage.left
    requires t == To(s, id, Judging(s.passes[id].stage.left - set r | r in rows :: r.key)).(table := s.table + rows)
    ensures Leads(s, Writes(id, rows), t)
    decreases |rows|
  {
    var left := s.passes[id].stage.left;
    if rows == [] {
      assert left - (set r | r in rows :: r.key) == left;
      assert s.passes[id := Member(s.passes[id].mode, Judging(left))] == s.passes;
    } else {
      var m := Do(s, Write(id, rows[0]));
      assert rows == [rows[0]] + rows[1..];
      assert left - (set r | r in rows :: r.key) == left - {rows[0].key} - (set r | r in rows[1..] :: r.key);
      assert s.table + rows == s.table + [rows[0]] + rows[1..];
      assert t.passes == m.passes[id := Member(s.passes[id].mode,
             Judging(left - {rows[0].key} - (set r | r in rows[1..] :: r.key)))];
      RowsAreWrites(m, id, rows[1..], t);
      assert Writes(id, rows)[1..] == Writes(id, rows[1..]);
    }
  }

  /** What a scheduler run over a queue of distinct keys has written by any act is a run of this
      system's writes by that pass. */
  lemma SchedulerRunIsWrites(s: Sys, id: Id, queue: seq<Key>, workers: nat, ceiling: real, stopAt: Option<nat>,
                             acts: seq<JudgePassTrace.Act>, p: Pass) returns (t: Sys)
    requires id in s.passes && s.passes[id].stage == Judging(set k | k in queue) && Distinct(queue)
    requires JudgePassTrace.Trace(Start(queue, workers, ceiling, stopAt), acts, p)
    ensures t.table == s.table + p.rows && Leads(s, Writes(id, p.rows), t)
  {
    RunRowsDistinct(queue, workers, ceiling, stopAt, acts, p);
    forall i | 0 <= i < |p.rows| ensures p.rows[i].key in queue {
      assert FromLog(p.rows[i].key, Below(p.next), queue);
    }
    t := To(s, id, Judging(s.passes[id].stage.left - set r | r in p.rows :: r.key)).(table := s.table + p.rows);
    RowsAreWrites(s, id, p.rows, t);
  }
}
