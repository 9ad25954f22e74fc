/** Grouping the dataset mirror by repository, and what the whole sharded build makes of it: the
    mirror's instances, each built by exactly one worker. */
module RepoMap {
  import opened Options
  import opened Text
  import opened Sorting
  import opened LptSharding

  /** The mirror's row for an instance names its repository, or leaves it empty. */
  function RepoOf(id: string, field: string -> string): string {
    if field(id) != "" then field(id) else UpTo(id, "__")
  }

  /** The row's repository, or else what stands before the double underscore. */
  lemma RepoMeans(org: string, rest: string, field: string -> string)
    requires '_' !in org
    ensures var id := org + "__" + rest;
            && (field(id) != "" ==> RepoOf(id, field) == field(id))
            && (field(id) == "" ==> RepoOf(id, field) == org)
  {
    UpToMark(org, '_', "__", rest);
  }

  // ---- The grouping loop -----------------------------------------------------------------

  /** Where the repository stands among those seen so far. */
  function Find(envs: seq<Env>, repo: string): (r: Option<nat>)
    ensures r.Some? ==> r.value < |envs| && envs[r.value].name == repo
    ensures r.None? ==> forall e :: e in envs ==> e.name != repo
  {
    if envs == [] then None
    else
      var n := |envs| - 1;
      assert envs == envs[..n] + [envs[n]];
      if envs[n].name == repo then Some(n) else Find(envs[..n], repo)
  }

  function Added(envs: seq<Env>, repo: string, id: string): seq<Env> {
    match Find(envs, repo)
    case None => envs + [Env(repo, [id])]
    case Some(i) => envs[i := Env(repo, envs[i].instances + [id])]
  }

  function Grouped(ids: seq<string>, field: string -> string): seq<Env> {
    if ids == [] then []
    else
      var n := |ids| - 1;
      Added(Grouped(ids[..n], field), RepoOf(ids[n], field), ids[n])
  }

  method ComputeRepoMap(mirror: seq<string>, field: string -> string) returns (envs: seq<Env>)
    ensures envs == Grouped(Sort(StrLe, mirror), field)
  {
    var ids := Sort(StrLe, mirror);
    envs := [];
    for k := 0 to |ids|
      invariant envs == Grouped(ids[..k], field)
    {
      assert ids[..k + 1][..k] == ids[..k];
      envs := Added(envs, RepoOf(ids[k], field), ids[k]);
    }
    assert ids[..|ids|] == ids;
  }

  // ---- What the map holds ----------------------------------------------------------------

  ghost predicate OnePerName(envs: seq<Env>) {
    forall i, j :: 0 <= i < j < |envs| ==> envs[i].name != envs[j].name
  }

  /** The ids of one repository, in order. */
  function OfRepo(ids: seq<string>, field: string -> string, repo: string): seq<string> {
    if ids == [] then []
    else
      var n := |ids| - 1;
      OfRepo(ids[..n], field, repo) + if RepoOf(ids[n], field) == repo then [ids[n]] else []
  }

  ghost predicate HoldsExactly(envs: seq<Env>, ids: seq<string>, field: string -> string) {
    forall i :: 0 <= i < |envs| ==> envs[i].instances == OfRepo(ids, field, envs[i].name) && envs[i].instances != []
  }

  /** Every repository that occurs, once, with exactly its ids. */
  ghost predicate IsRepoMap(envs: seq<Env>, ids: seq<string>, field: string -> string) {
    && OnePerName(envs) && HoldsExactly(envs, ids, field)
    && (forall id :: id in ids ==> Find(envs, RepoOf(id, field)).Some?)
  }

  lemma OneMoreOfRepo(ids: seq<string>, id: string, field: string -> string, repo: string)
    ensures OfRepo(ids + [id], field, repo) == OfRepo(ids, field, repo) + if RepoOf(id, field) == repo then [id] else []
  {
    assert (ids + [id])[..|ids|] == ids;
  }

  lemma {:induction false} NoneOfRepo(ids: seq<string>, field: string -> string, repo: string)
    requires forall id :: id in ids ==> RepoOf(id, field) != repo
    ensures OfRepo(ids, field, repo) == []
  {
    if ids != [] {
      var n := |ids| - 1;
      assert ids[n] in ids;
      NoneOfRepo(ids[..n], field, repo);
    }
  }

  lemma AddedOnePerName(envs: seq<Env>, repo: string, id: string)
    requires OnePerName(envs)
    ensures OnePerName(Added(envs, repo, id))
  {}

  lemma AddedFindable(envs: seq<Env>, repo: string, id: string, name: string)
    requires name == repo || Find(envs, name).Some?
    ensures Find(Added(envs, repo, id), name).Some?
  {
    var now := Added(envs, repo, id);
    if name == repo {
      var i := if Find(envs, repo).Some? then Find(envs, repo).value else |envs|;
      assert now[i] in now && now[i].name == name;
    } else {
      var i := Find(envs, name).value;
      assert now[i] in now && now[i].name == name;
    }
  }

  lemma OneMoreHolds(envs: seq<Env>, ids: seq<string>, id: string, field: string -> string, i: nat)
    requires IsRepoMap(envs, ids, field)
    requires i < |Added(envs, RepoOf(id, field), id)|
    ensures var e := Added(envs, RepoOf(id, field), id)[i];
            e.instances == OfRepo(ids + [id], field, e.name) && e.instances != []
  {
    var repo := RepoOf(id, field);
    var e := Added(envs, repo, id)[i];
    OneMoreOfRepo(ids, id, field, e.name);
    if i == |envs| {
      forall x | x in ids ensures RepoOf(x, field) != repo {}
      NoneOfRepo(ids, field, repo);
    } else if e.name != repo {
      assert e == envs[i];
    }
  }

  lemma AddedIsRepoMap(envs: seq<Env>, ids: seq<string>, id: string, field: string -> string, now: seq<Env>,
                       all: seq<string>)
    requires IsRepoMap(envs, ids, field) && now == Added(envs, RepoOf(id, field), id) && all == ids + [id]
    ensures IsRepoMap(now, all, field)
  {
    AddedOnePerName(envs, RepoOf(id, field), id);
    forall i | 0 <= i < |now| ensures now[i].instances == OfRepo(all, field, now[i].name) && now[i].instances != [] {
      OneMoreHolds(envs, ids, id, field, i);
    }
    forall x | x in all ensures Find(now, RepoOf(x, field)).Some? {
      AddedFindable(envs, RepoOf(id, field), id, RepoOf(x, field));
    }
  }

  lemma {:induction false} GroupedIsRepoMap(ids: seq<string>, field: string -> string)
    ensures IsRepoMap(Grouped(ids, field), ids, field)
  {
    if ids != [] {
      var n := |ids| - 1;
      GroupedIsRepoMap(ids[..n], field);
      assert ids == ids[..n] + [ids[n]];
      AddedIsRepoMap(Grouped(ids[..n], field), ids[..n], ids[n], field, Grouped(ids, field), ids);
    }
  }

  // ---- The order of the keys ---------------------------------------------------------------

  function Keys(envs: seq<Env>): (r: seq<string>)
    ensures |r| == |envs| && forall i :: 0 <= i < |r| ==> r[i] == envs[i].name
  {
    seq(|envs|, i requires 0 <= i < |envs| => envs[i].name)
  }

  function Repos(ids: seq<string>, field: string -> string): set<string> {
    set id | id in ids :: RepoOf(id, field)
  }

  /** Position j is in order: its repository has been seen, or sorts after all that have. */
  ghost predicate InOrder(ids: seq<string>, field: string -> string, j: nat)
    requires j < |ids|
  {
    var seen, repo := Repos(ids[..j], field), RepoOf(ids[j], field);
    repo in seen || forall r :: r in seen ==> StrLe(r, repo)
  }

  lemma AddedKeys(envs: seq<Env>, repo: string, id: string)
    ensures Keys(Added(envs, repo, id)) == if repo in Keys(envs) then Keys(envs) else Keys(envs) + [repo]
  {
    var m := Find(envs, repo);
    if m.Some? {
      assert Keys(envs)[m.value] == repo;
    } else {
      assert forall i :: 0 <= i < |envs| ==> envs[i] in envs;
    }
  }

  lemma ReposOneMore(ids: seq<string>, id: string, field: string -> string)
    ensures Repos(ids + [id], field) == Repos(ids, field) + {RepoOf(id, field)}
  {
    forall r | r in Repos(ids, field) ensures r in Repos(ids + [id], field) {
      var x :| x in ids && RepoOf(x, field) == r;
      assert x in ids + [id];
    }
    assert id in ids + [id];
  }

  ghost predicate SameNames(keys: seq<string>, repos: set<string>) {
    forall r :: r in keys <==> r in repos
  }

  lemma SameNamesStep(envs: seq<Env>, most: seq<string>, id: string, field: string -> string, now: seq<Env>,
                      all: seq<string>)
    requires SameNames(Keys(envs), Repos(most, field)) && now == Added(envs, RepoOf(id, field), id)
             && all == most + [id]
    ensures SameNames(Keys(now), Repos(all, field))
  {
    AddedKeys(envs, RepoOf(id, field), id);
    ReposOneMore(most, id, field);
  }

  lemma {:induction false} KeysAreRepos(ids: seq<string>, field: string -> string)
    ensures SameNames(Keys(Grouped(ids, field)), Repos(ids, field))
  {
    if ids != [] {
      var n := |ids| - 1;
      KeysAreRepos(ids[..n], field);
      assert ids == ids[..n] + [ids[n]];
      SameNamesStep(Grouped(ids[..n], field), ids[..n], ids[n], field, Grouped(ids, field), ids);
    }
  }

  lemma SortedOneMore(s: seq<string>, x: string)
    ensures IsSorted(StrLe, s + [x]) <==> IsSorted(StrLe, s) && forall y :: y in s ==> StrLe(y, x)
  {
    if IsSorted(StrLe, s + [x]) {
      forall i, j | 0 <= i < j < |s| ensures StrLe(s[i], s[j]) { assert (s + [x])[i] == s[i] && (s + [x])[j] == s[j]; }
      forall y | y in s ensures StrLe(y, x) {
        var i :| 0 <= i < |s| && s[i] == y;
        assert (s + [x])[i] == y && (s + [x])[|s|] == x;
      }
    }
  }

  lemma InOrderOneMore(most: seq<string>, id: string, all: seq<string>, field: string -> string)
    requires all == most + [id]
    ensures (forall j :: 0 <= j < |all| ==> InOrder(all, field, j))
            <==> (forall j :: 0 <= j < |most| ==> InOrder(most, field, j)) && InOrder(all, field, |most|)
    ensures Repos(all[..|most|], field) == Repos(most, field)
  {
    assert all[..|most|] == most;
    forall j | 0 <= j < |most| ensures InOrder(most, field, j) == InOrder(all, field, j) {
      assert most[..j] == all[..j] && most[j] == all[j];
    }
  }

  lemma KeysOneMore(was: seq<string>, repo: string, now: seq<string>, seen: set<string>)
    requires (forall r :: r in was <==> r in seen) && now == if repo in was then was else was + [repo]
    ensures IsSorted(StrLe, now) <==> IsSorted(StrLe, was) && (repo in seen || forall r :: r in seen ==> StrLe(r, repo))
  {
    if repo !in was { SortedOneMore(was, repo); }
  }

  ghost predicate SortedIffInOrder(envs: seq<Env>, ids: seq<string>, field: string -> string) {
    IsSorted(StrLe, Keys(envs)) <==> forall j :: 0 <= j < |ids| ==> InOrder(ids, field, j)
  }

  lemma KeysStep(envs: seq<Env>, most: seq<string>, id: string, field: string -> string, now: seq<Env>,
                 all: seq<string>)
    requires envs == Grouped(most, field) && SortedIffInOrder(envs, most, field)
    requires now == Added(envs, RepoOf(id, field), id) && all == most + [id]
    ensures SortedIffInOrder(now, all, field)
  {
    KeysAreRepos(most, field);
    AddedKeys(envs, RepoOf(id, field), id);
    KeysOneMore(Keys(envs), RepoOf(id, field), Keys(now), Repos(most, field));
    InOrderOneMore(most, id, all, field);
  }

  /** The keys come out sorted exactly when, down the sorted ids, every new repository sorts after
      those already seen. */
  lemma {:induction false} KeysSortedExactlyWhen(ids: seq<string>, field: string -> string)
    ensures SortedIffInOrder(Grouped(ids, field), ids, field)
  {
    if ids != [] {
      var n := |ids| - 1;
      KeysSortedExactlyWhen(ids[..n], field);
      assert ids == ids[..n] + [ids[n]];
      KeysStep(Grouped(ids[..n], field), ids[..n], ids[n], field, Grouped(ids, field), ids);
    }
  }

  /** Two instances whose repositories sort the other way round: z/a of a__1 comes before a/z of b__1. */
  lemma KeysUnsortedExample(field: string -> string)
    requires field("a__1") == "z/a" && field("b__1") == "a/z"
    ensures IsSorted(StrLe, ["a__1", "b__1"]) && !IsSorted(StrLe, Keys(Grouped(["a__1", "b__1"], field)))
  {
    var ids := ["a__1", "b__1"];
    assert StrLe("a__1", "b__1") && !StrLe("z/a", "a/z");
    assert ids[..1] == ["a__1"] && "a__1" in ids[..1];
    assert "z/a" in Repos(ids[..1], field) && Repos(ids[..1], field) == {"z/a"};
    assert !InOrder(ids, field, 1);
    KeysSortedExactlyWhen(ids, field);
  }

  // ---- Nothing is lost in the grouping -----------------------------------------------------

  lemma AddedFlat(envs: seq<Env>, repo: string, id: string)
    ensures multiset(Flatten(Added(envs, repo, id))) == multiset(Flatten(envs)) + multiset{id}
  {
    match Find(envs, repo)
    case None =>
      FlattenLast(envs + [Env(repo, [id])], envs, Env(repo, [id]));
    case Some(i) =>
      GrownFlat(envs, i, repo, id);
  }

  lemma GrownFlat(envs: seq<Env>, i: nat, repo: string, id: string)
    requires i < |envs| && envs[i].name == repo
    ensures multiset(Flatten(envs[i := Env(repo, envs[i].instances + [id])])) == multiset(Flatten(envs)) + multiset{id}
  {
    var e, grown := envs[i], Env(repo, envs[i].instances + [id]);
    var before, after := envs[..i], envs[i + 1..];
    Around(envs, before, e, after);
    Around(envs[i := grown], before, grown, after);
  }

  lemma Around(envs: seq<Env>, before: seq<Env>, e: Env, after: seq<Env>)
    requires envs == before + [e] + after
    ensures multiset(Flatten(envs)) == multiset(Flatten(before)) + multiset(e.instances) + multiset(Flatten(after))
  {
    FlattenAppend(before + [e], after);
    FlattenLast(before + [e], before, e);
  }

  ghost predicate KeepsAll(envs: seq<Env>, ids: seq<string>) {
    multiset(Flatten(envs)) == multiset(ids)
  }

  lemma AddedKeepsAll(envs: seq<Env>, ids: seq<string>, repo: string, id: string, now: seq<Env>, all: seq<string>)
    requires KeepsAll(envs, ids) && now == Added(envs, repo, id) && all == ids + [id]
    ensures KeepsAll(now, all)
  {
    AddedFlat(envs, repo, id);
  }

  lemma {:induction false} GroupedKeepsAll(ids: seq<string>, field: string -> string)
    ensures KeepsAll(Grouped(ids, field), ids)
  {
    if ids != [] {
      var n := |ids| - 1;
      GroupedKeepsAll(ids[..n], field);
      assert ids == ids[..n] + [ids[n]];
      AddedKeepsAll(Grouped(ids[..n], field), ids[..n], RepoOf(ids[n], field), ids[n], Grouped(ids, field), ids);
    }
  }

  // ---- The whole build ---------------------------------------------------------------------

  lemma NamesAreOrdered()
    ensures TotalPreorder(StrLe)
  {
    forall a, b ensures StrLe(a, b) || StrLe(b, a) { StrLeTotal(a, b); }
    forall a, b, c | StrLe(a, b) && StrLe(b, c) ensures StrLe(a, c) { StrLeTransitive(a, b, c); }
  }

  lemma MirrorOrderIgnored(mirror: seq<string>, mirror': seq<string>)
    requires multiset(mirror) == multiset(mirror')
    ensures Sort(StrLe, mirror) == Sort(StrLe, mirror')
  {
    NamesAreOrdered();
    SortSpec(StrLe, mirror);
    SortSpec(StrLe, mirror');
    forall x, y | StrLe(x, y) && StrLe(y, x) ensures x == y { StrLeTotal(x, y); }
    SortedUnique(StrLe, Sort(StrLe, mirror), Sort(StrLe, mirror'));
  }

  lemma SameEnvs(envs: seq<Env>, grouped: seq<Env>)
    requires multiset(envs) == multiset(grouped) && OnePerName(grouped)
    ensures DistinctNames(envs)
  {
    forall a, c | a in envs && c in envs && a.name == c.name ensures a == c {
      assert a in multiset(envs) && c in multiset(envs);
      var i :| 0 <= i < |grouped| && grouped[i] == a;
      var j :| 0 <= j < |grouped| && grouped[j] == c;
    }
  }

  /** The m workers together build exactly the mirror's instances, none left out and none built
      twice, whatever the repositories and the weights. */
  lemma BuildCoversMirror(mirror: seq<string>, field: string -> string, weight: string -> real, m: nat)
    requires m > 0
    ensures Union(Shards(Grouped(Sort(StrLe, mirror), field), weight, m)) == multiset(mirror)
  {
    NamesAreOrdered();
    SortSpec(StrLe, mirror);
    GroupedKeepsAll(Sort(StrLe, mirror), field);
    ShardsPartitionInstances(Grouped(Sort(StrLe, mirror), field), weight, m);
  }

  /** Two workers that list the mirror in different orders, and hold the map in different orders
      too, agree on every shard. */
  lemma WorkersAgree(mirror: seq<string>, mirror': seq<string>, field: string -> string, weight: string -> real,
                     envs: seq<Env>, envs': seq<Env>, b: nat, m: nat)
    requires m > 0 && multiset(mirror) == multiset(mirror')
    requires multiset(envs) == multiset(Grouped(Sort(StrLe, mirror), field))
    requires multiset(envs') == multiset(Grouped(Sort(StrLe, mirror'), field))
    ensures ShardOf(envs, weight, b, m) == ShardOf(envs', weight, b, m)
  {
    MirrorOrderIgnored(mirror, mirror');
    GroupedIsRepoMap(Sort(StrLe, mirror), field);
    SameEnvs(envs, Grouped(Sort(StrLe, mirror), field));
    ShardIgnoresOrder(envs, envs', weight, b, m);
  }
}
