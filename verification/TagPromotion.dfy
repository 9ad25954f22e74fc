/** Promoting an instance image: the digest the task tag names is backed up before the tag is
    pointed elsewhere, and the process may die before any of its tag writes. */
module TagPromotion {
  import opened Options

  type Digest = string

  /** One instance's tags: the one tasks pull, the last push, the backup and its dated siblings. */
  datatype Tag = Inst | Official | Prev | PrevAt(stamp: int)

  datatype Result = Nothing | Unchanged | Promoted(backup: Option<Tag>) | Died

  type Tags = map<Tag, Digest>

  /** Where the digest in use would be backed up, if there is one to replace. */
  function Backup(tags: Tags, now: int): Tag {
    if Prev in tags then PrevAt(now) else Prev
  }

  predicate Replaces(tags: Tags) {
    Official in tags && Inst in tags && tags[Inst] != tags[Official]
  }

  /** The tags after a promotion that got through at most `writes` tag writes. */
  function Promote(tags: Tags, now: int, writes: nat): Tags {
    if Official !in tags || (Inst in tags && tags[Inst] == tags[Official]) || writes == 0 then tags
    else if Inst !in tags then tags[Inst := tags[Official]]
    else
      var saved := tags[Backup(tags, now) := tags[Inst]];
      if writes == 1 then saved else saved[Inst := tags[Official]]
  }

  class Registry {
    var tags: Tags

    constructor (tags: Tags)
      ensures this.tags == tags
    {
      this.tags := tags;
    }

    method Put(tag: Tag, digest: Digest)
      modifies this
      ensures tags == old(tags)[tag := digest]
    {
      tags := tags[tag := digest];
    }

    method PromoteInst(now: int, writes: nat) returns (r: Result)
      modifies this
      ensures tags == Promote(old(tags), now, writes)
      ensures r.Nothing? <==> Official !in old(tags)
      ensures r.Unchanged? <==> Official in old(tags) && Inst in old(tags) && old(tags)[Inst] == old(tags)[Official]
      ensures r.Promoted? ==> Inst in tags && Official in old(tags) && tags[Inst] == old(tags)[Official]
                              && r.backup == if Inst in old(tags) then Some(Backup(old(tags), now)) else None
    {
      if Official !in tags {
        return Nothing;
      }
      var new_, left, backup := tags[Official], writes, None;
      if Inst in tags {
        var previous := tags[Inst];
        if previous == new_ {
          return Unchanged;
        }
        var tag := Prev;
        if tag in tags {
          tag := PrevAt(now);
        }
        if left == 0 {
          return Died;
        }
        Put(tag, previous);
        backup, left := Some(tag), left - 1;
      }
      if left == 0 {
        return Died;
      }
      Put(Inst, new_);
      r := Promoted(backup);
    }
  }

  // ---- Runs ----------------------------------------------------------------------------------

  datatype Step = Push(digest: Digest) | Promotion(now: int, writes: nat)

  /** The tags, and every digest the task tag has ever named. */
  datatype Sys = Sys(tags: Tags, named: set<Digest>)

  function Names(tags: Tags): set<Digest> {
    if Inst in tags then {tags[Inst]} else {}
  }

  function Do(s: Sys, e: Step): Sys {
    var tags := match e case Push(d) => s.tags[Official := d]
        case Promotion(now, writes) => Promote(s.tags, now, writes);
    Sys(tags, s.named + Names(tags))
  }

  function DoAll(s: Sys, steps: seq<Step>): Sys
    decreases |steps|
  {
    if steps == [] then s else DoAll(Do(s, steps[0]), steps[1..])
  }

  /** No promotion reads a clock value that another one read or that dates an existing backup. */
  ghost predicate DistinctClocks(tags: Tags, steps: seq<Step>) {
    && (forall i :: 0 <= i < |steps| && steps[i].Promotion? ==> PrevAt(steps[i].now) !in tags)
    && (forall i, j :: 0 <= i < j < |steps| && steps[i].Promotion? && steps[j].Promotion? ==>
          steps[i].now != steps[j].now)
  }

  ghost predicate Held(s: Sys) {
    Names(s.tags) <= s.named && forall d :: d in s.named ==> Kept(s.tags, d)
  }

  /** A tag that pushes do not touch names the digest. */
  ghost predicate Kept(tags: Tags, d: Digest) {
    exists t :: t in tags && t != Official && tags[t] == d
  }

  predicate IsBackup(t: Tag) {
    t.Prev? || t.PrevAt?
  }

  ghost predicate BackupsKept(tags: Tags, tags': Tags) {
    forall t :: t in tags && IsBackup(t) ==> t in tags' && tags'[t] == tags[t]
  }

  /** A promotion, died or not, moves an existing backup exactly when its clock reads the date of
      one that holds another digest. */
  lemma PromotionMovesBackupExactlyWhen(tags: Tags, now: int, writes: nat)
    ensures !BackupsKept(tags, Promote(tags, now, writes)) <==>
            Replaces(tags) && writes > 0 && Prev in tags && PrevAt(now) in tags && tags[PrevAt(now)] != tags[Inst]
  {
    if Replaces(tags) && writes > 0 && Prev in tags && PrevAt(now) in tags && tags[PrevAt(now)] != tags[Inst] {
      assert IsBackup(PrevAt(now)) && Promote(tags, now, writes)[PrevAt(now)] == tags[Inst];
    }
  }

  /** The digest whose only tag is the dated backup that a promotion overwrites, and which is not the
      one being promoted either. */
  ghost predicate Overwrites(tags: Tags, now: int, writes: nat, d: Digest) {
    && Replaces(tags) && writes > 0 && Prev in tags && PrevAt(now) in tags && tags[PrevAt(now)] == d != tags[Inst]
    && (forall t :: t in tags && t != Official && t != PrevAt(now) ==> tags[t] != d)
    && !(writes > 1 && tags[Official] == d)
  }

  /** A promotion, died or not, loses a digest that a tag had kept exactly when it overwrites it. */
  lemma PromotionLosesDigestExactlyWhen(tags: Tags, now: int, writes: nat, d: Digest)
    requires Kept(tags, d)
    ensures !Kept(Promote(tags, now, writes), d) <==> Overwrites(tags, now, writes, d)
  {
    var after := Promote(tags, now, writes);
    if !Overwrites(tags, now, writes, d) {
      if Replaces(tags) && writes > 0 && d == tags[Inst] {
        assert after[Backup(tags, now)] == d;
      } else if Replaces(tags) && writes > 1 && tags[Official] == d {
        assert after[Inst] == d;
      } else {
        var t :| t in tags && t != Official && tags[t] == d
                 && (Replaces(tags) && writes > 0 && Prev in tags && PrevAt(now) in tags ==> t != PrevAt(now));
        assert t in after && after[t] == d;
      }
    }
  }

  /** A promotion that gets through both writes points the task tag at the last push, with what it pointed at
      before under a backup tag of its own; one that gets through the first has made the backup. */
  lemma PromotionDone(tags: Tags, now: int, writes: nat)
    requires Official in tags
    ensures var t := Promote(tags, now, writes);
            && (writes >= 2 || (writes == 1 && Inst !in tags) ==> Inst in t && t[Inst] == tags[Official])
            && (writes >= 1 && Inst in tags && tags[Inst] != tags[Official] ==>
                  var backup := if Prev in tags then PrevAt(now) else Prev; backup in t && t[backup] == tags[Inst])
            && Official in t && t[Official] == tags[Official]
  {}

  lemma StepHolds(s: Sys, e: Step)
    requires Held(s) && (e.Promotion? ==> PrevAt(e.now) !in s.tags)
    ensures Held(Do(s, e)) && BackupsKept(s.tags, Do(s, e).tags)
  {
    var t := Do(s, e).tags;
    forall d | d in Do(s, e).named ensures Kept(t, d) {
      if d in s.named {
        var x :| x in s.tags && x != Official && s.tags[x] == d;
        if x in t && t[x] == d {
        } else {
          assert x == Inst && t[Backup(s.tags, e.now)] == d;
        }
      } else {
        assert t[Inst] == d;
      }
    }
  }

  lemma ClocksStayDistinct(s: Sys, steps: seq<Step>)
    requires steps != [] && DistinctClocks(s.tags, steps)
    ensures DistinctClocks(Do(s, steps[0]).tags, steps[1..])
  {
    var rest := steps[1..];
    forall i | 0 <= i < |rest| && rest[i].Promotion? ensures PrevAt(rest[i].now) !in Do(s, steps[0]).tags {
      assert rest[i] == steps[i + 1];
    }
    forall i, j | 0 <= i < j < |rest| && rest[i].Promotion? && rest[j].Promotion? ensures rest[i].now != rest[j].now {
      assert rest[i] == steps[i + 1] && rest[j] == steps[j + 1];
    }
  }

  lemma {:induction false} RunHolds(s: Sys, steps: seq<Step>)
    requires Held(s) && DistinctClocks(s.tags, steps)
    ensures Held(DoAll(s, steps)) && BackupsKept(s.tags, DoAll(s, steps).tags) && s.named <= DoAll(s, steps).named
    decreases |steps|
  {
    if steps != [] {
      assert steps[0].Promotion? ==> PrevAt(steps[0].now) !in s.tags;
      StepHolds(s, steps[0]);
      ClocksStayDistinct(s, steps);
      RunHolds(Do(s, steps[0]), steps[1..]);
    }
  }

  /** Over any pushes and promotions with distinct clock values, each of them free to die before
      any of its writes: whatever the task tag ever named is still named by a tag that pushes do
      not touch, and no backup is ever moved. */
  lemma NoDigestLost(tags: Tags, steps: seq<Step>, k: nat, d: Digest)
    requires DistinctClocks(tags, steps) && k <= |steps|
    requires d in Names(DoAll(Sys(tags, Names(tags)), steps[..k]).tags)
    ensures var t := DoAll(Sys(tags, Names(tags)), steps).tags;
            && Kept(t, d)
            && BackupsKept(tags, t) && BackupsKept(DoAll(Sys(tags, Names(tags)), steps[..k]).tags, t)
  {
    var s := Sys(tags, Names(tags));
    assert Held(s);
    RunSplits(s, steps, k);
    RunHolds(s, steps[..k]);
    RunHolds(DoAll(s, steps[..k]), steps[k..]);
    RunHolds(s, steps);
  }

  lemma {:induction false} RunSplits(s: Sys, steps: seq<Step>, k: nat)
    requires DistinctClocks(s.tags, steps) && k <= |steps|
    ensures DoAll(s, steps) == DoAll(DoAll(s, steps[..k]), steps[k..])
    ensures DistinctClocks(DoAll(s, steps[..k]).tags, steps[k..])
    ensures DistinctClocks(s.tags, steps[..k])
    decreases k
  {
    if k == 0 {
      assert steps[..0] == [] && steps[0..] == steps;
    } else {
      ClocksStayDistinct(s, steps);
      RunSplits(Do(s, steps[0]), steps[1..], k - 1);
      assert steps[..k][0] == steps[0] && steps[..k][1..] == steps[1..][..k - 1] && steps[1..][k - 1..] == steps[k..];
    }
  }

  /** Two promotions within one second after a first: the second overwrites the backup the first
      has just made, and the digest in it is gone. */
  lemma SameSecondLosesDigest(now: int)
    ensures var s := Sys(map[Inst := "b", Prev := "a", Official := "c"], {"a", "b"});
            var t := DoAll(s, [Promotion(now, 2), Push("d"), Promotion(now, 2)]);
            "b" in t.named && forall x :: x in t.tags ==> t.tags[x] != "b"
  {
    var s := Sys(map[Inst := "b", Prev := "a", Official := "c"], {"a", "b"});
    var steps := [Promotion(now, 2), Push("d"), Promotion(now, 2)];
    var s1 := Do(s, steps[0]);
    var s2 := Do(s1, steps[1]);
    var s3 := Do(s2, steps[2]);
    assert steps[1..] == [Push("d"), Promotion(now, 2)] && steps[1..][1..] == [Promotion(now, 2)]
           && steps[1..][1..][1..] == [];
    assert DoAll(s, steps) == DoAll(s1, steps[1..]) == DoAll(s2, steps[1..][1..]) == DoAll(s3, []);
  }
}
