/** The control hash in Valkey and the operations on it: the publisher's writes, the operator's
    merge, the heartbeat, the guarded reconcile and the fail-closed read. Aurora's single
    control row is the truth the hash is published from. */
module ControlHash {
  import opened Options

  const POOLS: set<string> := {"harness", "eval", "gateway"}
  const STALE_AFTER_S: real := 90.0

  /** A flag for every pool. */
  type Flags = f: map<string, bool> | f.Keys == POOLS witness map["harness" := true, "eval" := true, "gateway" := true]

  const ALL_PAUSED: Flags := map["harness" := true, "eval" := true, "gateway" := true]
  const NONE_PAUSED: Flags := map["harness" := false, "eval" := false, "gateway" := false]

  datatype Audit = Audit(updatedBy: string, reason: string)

  const NO_AUDIT: Audit := Audit("", "")

  /** The fields present in `control:flags`; absent fields are simply missing. */
  datatype Hash = Hash(pools: map<string, bool>, published: Option<real>, updated: Option<real>, audit: Option<Audit>)

  /** Aurora's control_state row. */
  datatype Row = Row(flags: Flags, updatedAt: real)

  datatype View = View(paused: set<string>, aborted: set<string>, publishedAt: real, stale: bool, audit: Audit)

  predicate Empty(h: Hash) {
    h.pools == map[] && h.published.None? && h.updated.None? && h.audit.None?
  }

  function ValueOr(o: Option<real>, d: real): real {
    match o case Some(v) => v case None => d
  }

  /** A pool reads as paused only when its field is there and says so. */
  predicate Says(h: Hash, p: string) {
    p in h.pools && h.pools[p]
  }

  // ---- What each operation makes of the hash --------------------------------------------

  function Written(h: Hash, flags: Flags, now: real, updatedAt: Option<real>): Hash {
    h.(pools := h.pools + flags, published := Some(now), updated := if updatedAt.Some? then updatedAt else h.updated)
  }

  function Beaten(h: Hash, now: real): Hash {
    h.(published := Some(now))
  }

  function Current(h: Hash): Flags {
    map p | p in POOLS :: Says(h, p)
  }

  function Merged(flags: Flags, pools: set<string>, paused: bool): (r: Flags)
    requires pools <= POOLS
    ensures forall p :: p in POOLS ==> r[p] == if p in pools then paused else flags[p]
  {
    map p | p in POOLS :: if p in pools then paused else flags[p]
  }

  function Names(pools: seq<string>): (r: set<string>)
    ensures forall p :: p in r <==> p in pools
  {
    set p | p in pools
  }

  lemma MergeOneMore(flags: Flags, pools: seq<string>, i: nat, paused: bool)
    requires i < |pools| && forall p :: p in pools[..i + 1] ==> p in POOLS
    ensures Merged(flags, Names(pools[..i + 1]), paused) == Merged(flags, Names(pools[..i]), paused)[pools[i] := paused]
  {
    assert pools[..i + 1] == pools[..i] + [pools[i]];
  }

  /** The flags a merge starts from: a hash that cannot be read counts as all running. */
  function MergeBase(h: Hash, readable: bool): Flags {
    if readable then Current(h) else NONE_PAUSED
  }

  function Paused(h: Hash, readable: bool, pools: set<string>, paused: bool, now: real, updatedAt: real,
                  audit: Audit): Hash
    requires pools <= POOLS
  {
    Hash(h.pools + Merged(MergeBase(h, readable), pools, paused), Some(now), Some(updatedAt), Some(audit))
  }

  /** The hash's stamp as reconcile sees it; one that cannot be read counts as absent. */
  function Stamp(h: Hash, readable: bool): real {
    if readable then ValueOr(h.updated, 0.0) else 0.0
  }

  predicate SkipsWrite(h: Hash, readable: bool, rowUpdatedAt: Option<real>) {
    rowUpdatedAt.Some? && Stamp(h, readable) >= rowUpdatedAt.value
  }

  function FlagsRead(row: Option<Flags>): Flags {
    match row case Some(f) => f case None => ALL_PAUSED
  }

  function Reconciled(h: Hash, readable: bool, rowUpdatedAt: Option<real>, flags: Option<Flags>, now: real): Hash {
    if SkipsWrite(h, readable, rowUpdatedAt) then Beaten(h, now) else Written(h, FlagsRead(flags), now, rowUpdatedAt)
  }

  /** What writing a read of Aurora's aborted runs makes of the set: None is a read that failed. */
  function AbortedWritten(aborted: set<string>, runIds: Option<set<string>>): set<string> {
    if runIds.None? || runIds.value == {} then {} else aborted + runIds.value
  }

  /** And what a reconcile does: a skipped flag write skips the set too. */
  function AbortedAfter(h: Hash, aborted: set<string>, readable: bool, rowUpdatedAt: Option<real>,
                        runIds: Option<set<string>>): set<string> {
    if SkipsWrite(h, readable, rowUpdatedAt) then aborted else AbortedWritten(aborted, runIds)
  }

  /** What a reader concludes from the hash and the aborted set at clock value `now`; None is a
      read that failed. */
  function ReadAs(h: Option<Hash>, aborted: Option<set<string>>, now: real): View {
    if h.None? || Empty(h.value) then View(POOLS, {}, 0.0, true, NO_AUDIT)
    else
      var at := ValueOr(h.value.published, 0.0);
      if now - at > STALE_AFTER_S then View(POOLS, {}, at, true, NO_AUDIT)
      else View((set p | p in POOLS && Says(h.value, p)), if aborted.Some? then aborted.value else {}, at, false,
                if h.value.audit.Some? then h.value.audit.value else NO_AUDIT)
  }

  /** The hash was read, has some field, and was published no more than 90 seconds ago. */
  predicate Fresh(h: Option<Hash>, now: real) {
    && h.Some? && (h.value.pools != map[] || h.value.published.Some? || h.value.updated.Some? || h.value.audit.Some?)
    && now - (if h.value.published.Some? then h.value.published.value else 0.0) <= 90.0
  }

  /** A reader of a fresh hash sees a pool paused exactly when its field is there and says so, the aborted
      runs exactly as the set has them, and who acted last and why; a reader of any other sees all
      three pools paused, no aborted run and nobody. */
  lemma ReadMeans(h: Option<Hash>, aborted: Option<set<string>>, now: real, p: string)
    ensures var v := ReadAs(h, aborted, now); v.stale <==> !Fresh(h, now)
    ensures var v := ReadAs(h, aborted, now);
            p in v.paused <==> p in {"harness", "eval", "gateway"} &&
                               (Fresh(h, now) ==> p in h.value.pools && h.value.pools[p])
    ensures var v := ReadAs(h, aborted, now);
            if Fresh(h, now)
            then && (aborted.Some? ==> v.aborted == aborted.value) && (aborted.None? ==> v.aborted == {})
                 && (h.value.audit.Some? ==> v.audit == h.value.audit.value)
                 && (h.value.audit.None? ==> v.audit == Audit("", ""))
                 && (h.value.published.Some? ==> v.publishedAt == h.value.published.value)
            else v.aborted == {} && v.audit == Audit("", "")
  {}

  // ---- The store ------------------------------------------------------------------------

  class Valkey {
    var hash: Hash
    var aborted: set<string>

    constructor ()
      ensures Empty(hash) && aborted == {}
    {
      hash := Hash(map[], None, None, None);
      aborted := {};
    }

    /** A pool is reported running only by a fresh hash that does not say it is paused. */
    method Read(reachable: bool, setReachable: bool, now: real) returns (v: View)
      ensures v == ReadAs(if reachable then Some(hash) else None, if setReachable then Some(aborted) else None, now)
      ensures forall p :: p in POOLS && p !in v.paused ==>
                reachable && !Says(hash, p) && now - ValueOr(hash.published, 0.0) <= STALE_AFTER_S
    {
      if !reachable || Empty(hash) {
        return View(POOLS, {}, 0.0, true, NO_AUDIT);
      }
      var publishedAt := ValueOr(hash.published, 0.0);
      if now - publishedAt > STALE_AFTER_S {
        return View(POOLS, {}, publishedAt, true, NO_AUDIT);
      }
      var ids := if setReachable then aborted else {};
      var audit := if hash.audit.Some? then hash.audit.value else NO_AUDIT;
      v := View((set p | p in POOLS && Says(hash, p)), ids, publishedAt, false, audit);
    }

    method WriteFlags(flags: Flags, now: real, updatedAt: Option<real>)
      modifies this`hash
      ensures hash == Written(old(hash), flags, now, updatedAt)
    {
      hash := hash.(pools := hash.pools + flags, published := Some(now));
      if updatedAt.Some? {
        hash := hash.(updated := updatedAt);
      }
    }

    method Heartbeat(now: real)
      modifies this`hash
      ensures hash == Beaten(old(hash), now)
    {
      hash := hash.(published := Some(now));
    }

    /** Merges the named pools over the hash, or over all running when the hash cannot be read;
        refuses and writes nothing when a name is unknown, wherever in the list it stands. */
    method SetPause(pools: seq<string>, paused: bool, audit: Audit, readable: bool, now: real, updatedAt: real)
      returns (ok: bool)
      modifies this`hash
      ensures ok <==> forall p :: p in pools ==> p in POOLS
      ensures ok ==> hash == Paused(old(hash), readable, Names(pools), paused, now, updatedAt, audit)
      ensures !ok ==> hash == old(hash)
    {
      var current := if readable then Current(hash) else NONE_PAUSED;
      ghost var start := current;
      var i := 0;
      while i < |pools|
        invariant 0 <= i <= |pools|
        invariant hash == old(hash)
        invariant forall p :: p in pools[..i] ==> p in POOLS
        invariant current == Merged(start, Names(pools[..i]), paused)
      {
        if pools[i] !in POOLS {
          return false;
        }
        assert pools[..i + 1] == pools[..i] + [pools[i]];
        MergeOneMore(start, pools, i, paused);
        current := current[pools[i] := paused];
        i := i + 1;
      }
      assert pools[..i] == pools;
      hash := Hash(hash.pools + current, Some(now), Some(updatedAt), Some(audit));
      ok := true;
    }

    method RequestAbort(runId: string, audit: Audit, now: real)
      modifies this
      ensures aborted == old(aborted) + {runId}
      ensures hash == Beaten(old(hash), now).(audit := Some(audit))
    {
      aborted := aborted + {runId};
      hash := hash.(audit := Some(audit), published := Some(now));
    }

    method WriteAborted(runIds: set<string>)
      modifies this`aborted
      ensures aborted == if runIds == {} then {} else old(aborted) + runIds
    {
      if runIds != {} {
        aborted := aborted + runIds;
      } else {
        aborted := {};
      }
    }

    /** The three Aurora reads arrive as options, None for one that failed; the hash's own stamp may be
        unreadable too. A skipped write leaves the aborted set as it was. */
    method ReconcileFromDb(rowUpdatedAt: Option<real>, readable: bool, flags: Option<Flags>,
                           runIds: Option<set<string>>, now: real)
      modifies this
      ensures hash == Reconciled(old(hash), readable, rowUpdatedAt, flags, now)
      ensures aborted == AbortedAfter(old(hash), old(aborted), readable, rowUpdatedAt, runIds)
    {
      var stamp := if readable then ValueOr(hash.updated, 0.0) else 0.0;
      if rowUpdatedAt.Some? && stamp >= rowUpdatedAt.value {
        Heartbeat(now);
        return;
      }
      WriteFlags(FlagsRead(flags), now, rowUpdatedAt);
      WriteAborted(if runIds.Some? then runIds.value else {});
    }

    method PublishFromDb(flags: Option<Flags>, rowUpdatedAt: Option<real>, runIds: Option<set<string>>, now: real)
      modifies this
      ensures hash == Written(old(hash), FlagsRead(flags), now, rowUpdatedAt)
      ensures aborted == AbortedWritten(old(aborted), runIds)
    {
      WriteFlags(FlagsRead(flags), now, rowUpdatedAt);
      WriteAborted(if runIds.Some? then runIds.value else {});
    }
  }
}
