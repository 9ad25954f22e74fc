/** The build's shard partition: repositories sorted heaviest first, each to the least-loaded
    shard, and one shard's instances returned in repository-name order. Every worker computes the
    whole partition for itself, so what it returns has to be the same from any iteration order. */
module LptSharding {
  import opened Sorting
  import opened ListScheduling
  import opened Multiples

  datatype Env = Env(name: string, instances: seq<string>)

  datatype ShardResult = Shard(instances: seq<string>) | BadDenominator | BadNumerator

  // ---- Weights -------------------------------------------------------------------------

  function Weigh(weight: string -> real, instances: seq<string>): real {
    if instances == [] then 0.0 else weight(instances[0]) + Weigh(weight, instances[1..])
  }

  function Weights(weight: string -> real, envs: seq<Env>): (ws: seq<real>)
    ensures |ws| == |envs|
    ensures forall i :: 0 <= i < |ws| ==> ws[i] == Weigh(weight, envs[i].instances)
  {
    seq(|envs|, i requires 0 <= i < |envs| => Weigh(weight, envs[i].instances))
  }

  // ---- The two sort keys ---------------------------------------------------------------

  predicate HeavierFirst(weight: string -> real, a: Env, b: Env) {
    var wa, wb := Weigh(weight, a.instances), Weigh(weight, b.instances);
    wa > wb || (wa == wb && StrLe(a.name, b.name))
  }

  predicate NameFirst(a: Env, b: Env) {
    StrLe(a.name, b.name)
  }

  function ByWeight(weight: string -> real): (Env, Env) -> bool {
    (a, b) => HeavierFirst(weight, a, b)
  }

  function ByName(): (Env, Env) -> bool {
    (a, b) => NameFirst(a, b)
  }

  lemma KeysAreOrders(weight: string -> real)
    ensures TotalPreorder(ByWeight(weight)) && TotalPreorder(ByName())
  {
    forall a: Env, b: Env ensures (HeavierFirst(weight, a, b) || HeavierFirst(weight, b, a))
      && (NameFirst(a, b) || NameFirst(b, a)) {
      StrLeTotal(a.name, b.name);
    }
    forall a: Env, b: Env, c: Env | NameFirst(a, b) && NameFirst(b, c) ensures NameFirst(a, c) {
      StrLeTransitive(a.name, b.name, c.name);
    }
    forall a: Env, b: Env, c: Env | HeavierFirst(weight, a, b) && HeavierFirst(weight, b, c)
      ensures HeavierFirst(weight, a, c) {
      if StrLe(a.name, b.name) && StrLe(b.name, c.name) { StrLeTransitive(a.name, b.name, c.name); }
    }
  }

  // ---- The partition as a function of the repository map --------------------------------

  function Flatten(envs: seq<Env>): seq<string> {
    if envs == [] then [] else envs[0].instances + Flatten(envs[1..])
  }

  /** The repositories a bin received, in placement order. */
  function BinEnvs(envs: seq<Env>, asg: seq<nat>, b: nat): seq<Env>
    requires |envs| == |asg|
  {
    if envs == [] then []
    else
      var n := |envs| - 1;
      BinEnvs(envs[..n], asg[..n], b) + if asg[n] == b then [envs[n]] else []
  }

  function Placed(envs: seq<Env>, weight: string -> real, m: nat): (asg: seq<nat>)
    requires m > 0
    ensures |asg| == |envs|
  {
    Greedy(Weights(weight, envs), m)
  }

  function ShardEnvs(envMap: seq<Env>, weight: string -> real, b: nat, m: nat): seq<Env>
    requires m > 0
  {
    var sorted := Sort(ByWeight(weight), envMap);
    Sort(ByName(), BinEnvs(sorted, Placed(sorted, weight, m), b))
  }

  function ShardOf(envMap: seq<Env>, weight: string -> real, b: nat, m: nat): seq<string>
    requires m > 0
  {
    Flatten(ShardEnvs(envMap, weight, b, m))
  }

  // ---- The loop ------------------------------------------------------------------------

  function Bins(envs: seq<Env>, asg: seq<nat>, m: nat): seq<seq<Env>>
    requires |envs| == |asg|
  {
    seq(m, (b: nat) => BinEnvs(envs, asg, b))
  }

  lemma PlaceNext(ws: seq<real>, w: real, envs: seq<Env>, e: Env, asg: seq<nat>, idx: nat, m: nat)
    requires |ws| == |envs| == |asg| && idx < m
    ensures var loads, bins := Loads(ws, asg, m), Bins(envs, asg, m);
            && Loads(ws + [w], asg + [idx], m) == loads[idx := loads[idx] + w]
            && Bins(envs + [e], asg + [idx], m) == bins[idx := bins[idx] + [e]]
  {
    assert (ws + [w])[..|ws|] == ws && (envs + [e])[..|envs|] == envs && (asg + [idx])[..|asg|] == asg;
    var loads, loads' := Loads(ws, asg, m), Loads(ws + [w], asg + [idx], m);
    var bins, bins' := Bins(envs, asg, m), Bins(envs + [e], asg + [idx], m);
    forall b: nat | b < m
      ensures loads'[b] == if b == idx then loads[b] + w else loads[b]
      ensures bins'[b] == if b == idx then bins[b] + [e] else bins[b]
    {
      assert bins[b] + [] == bins[b];
    }
    assert loads' == loads[idx := loads[idx] + w];
    assert bins' == bins[idx := bins[idx] + [e]];
  }

  /** The repositories are in the bins that the assignment names. */
  ghost predicate InBins(envs: seq<Env>, ws: seq<real>, asg: seq<nat>, m: nat, loads: seq<real>, bins: seq<seq<Env>>) {
    |envs| == |ws| == |asg| && loads == Loads(ws, asg, m) && bins == Bins(envs, asg, m)
  }

  lemma InBinsNext(envs: seq<Env>, e: Env, ws: seq<real>, w: real, asg: seq<nat>, idx: nat, m: nat, loads: seq<real>,
                   bins: seq<seq<Env>>)
    requires InBins(envs, ws, asg, m, loads, bins) && idx < m == |loads| == |bins|
    ensures InBins(envs + [e], ws + [w], asg + [idx], m, loads[idx := loads[idx] + w], bins[idx := bins[idx] + [e]])
  {
    PlaceNext(ws, w, envs, e, asg, idx, m);
  }

  lemma GreedyMore(ws: seq<real>, w: real, asg: seq<nat>, m: nat, loads: seq<real>)
    requires m > 0 && |asg| == |ws| && asg == Greedy(ws, m) && loads == Loads(ws, asg, m)
    ensures Greedy(ws + [w], m) == asg + [ArgMin(loads)]
  {
    assert (ws + [w])[..|ws|] == ws;
  }

  /** The first k repositories are in the bins greedy puts them in. */
  ghost predicate PackedUpTo(sorted: seq<Env>, weight: string -> real, k: nat, done: seq<Env>, ws: seq<real>,
                             asg: seq<nat>, m: nat, loads: seq<real>, bins: seq<seq<Env>>)
    requires m > 0
  {
    && k <= |sorted| && done == sorted[..k] && ws == Weights(weight, done) && asg == Greedy(ws, m)
    && |loads| == |bins| == m && InBins(done, ws, asg, m, loads, bins)
  }

  lemma WeightsMore(weight: string -> real, envs: seq<Env>, e: Env)
    ensures Weights(weight, envs + [e]) == Weights(weight, envs) + [Weigh(weight, e.instances)]
  {}

  lemma PackNext(sorted: seq<Env>, weight: string -> real, k: nat, done: seq<Env>, ws: seq<real>, asg: seq<nat>, m: nat,
                 loads: seq<real>, bins: seq<seq<Env>>, idx: nat, load: real)
    requires k < |sorted| && m > 0 && PackedUpTo(sorted, weight, k, done, ws, asg, m, loads, bins)
    requires idx == ArgMin(loads) && load == Weigh(weight, sorted[k].instances)
    ensures PackedUpTo(sorted, weight, k + 1, done + [sorted[k]], ws + [load], asg + [idx], m,
                       loads[idx := loads[idx] + load], bins[idx := bins[idx] + [sorted[k]]])
  {
    WeightsMore(weight, done, sorted[k]);
    GreedyMore(ws, load, asg, m, loads);
    InBinsNext(done, sorted[k], ws, load, asg, idx, m, loads, bins);
    assert sorted[..k + 1] == sorted[..k] + [sorted[k]];
  }

  lemma PackStarts(sorted: seq<Env>, weight: string -> real, m: nat, loads: seq<real>, bins: seq<seq<Env>>)
    requires m > 0 && loads == seq(m, _ => 0.0) && bins == seq(m, _ => [])
    ensures PackedUpTo(sorted, weight, 0, [], [], [], m, loads, bins)
  {}

  lemma PackEnds(sorted: seq<Env>, weight: string -> real, k: nat, done: seq<Env>, ws: seq<real>, asg: seq<nat>, m: nat,
                 loads: seq<real>, bins: seq<seq<Env>>)
    requires m > 0 && k == |sorted| && PackedUpTo(sorted, weight, k, done, ws, asg, m, loads, bins)
    ensures bins == Bins(sorted, Placed(sorted, weight, m), m)
  {
    assert done == sorted;
  }

  /** The packing loop. */
  method Pack(sorted: seq<Env>, weight: string -> real, numShards: nat) returns (binEnvs: seq<seq<Env>>)
    requires numShards > 0
    ensures binEnvs == Bins(sorted, Placed(sorted, weight, numShards), numShards)
  {
    var binLoads := seq(numShards, _ => 0.0);
    binEnvs := seq(numShards, _ => []);
    ghost var done, ws, asg := [], [], [];
    PackStarts(sorted, weight, numShards, binLoads, binEnvs);
    for k := 0 to |sorted|
      invariant PackedUpTo(sorted, weight, k, done, ws, asg, numShards, binLoads, binEnvs)
    {
      var idx, load := ArgMin(binLoads), Weigh(weight, sorted[k].instances);
      PackNext(sorted, weight, k, done, ws, asg, numShards, binLoads, binEnvs, idx, load);
      binEnvs := binEnvs[idx := binEnvs[idx] + [sorted[k]]];
      binLoads := binLoads[idx := binLoads[idx] + load];
      done, ws, asg := done + [sorted[k]], ws + [load], asg + [idx];
    }
    PackEnds(sorted, weight, |sorted|, done, ws, asg, numShards, binLoads, binEnvs);
  }

  /** One worker's computation. */
  method LptShard(envMap: seq<Env>, weight: string -> real, shardIndex: int, numShards: int) returns (r: ShardResult)
    ensures r == if numShards <= 0 then BadDenominator
                 else if !(0 <= shardIndex < numShards) then BadNumerator
                 else Shard(ShardOf(envMap, weight, shardIndex, numShards))
  {
    if numShards <= 0 {
      return BadDenominator;
    }
    if !(0 <= shardIndex < numShards) {
      return BadNumerator;
    }
    var binEnvs := Pack(Sort(ByWeight(weight), envMap), weight, numShards);
    r := Shard(Flatten(Sort(ByName(), binEnvs[shardIndex])));
  }

  // ---- The partition -------------------------------------------------------------------

  lemma {:induction false} FlattenAppend(a: seq<Env>, b: seq<Env>)
    ensures Flatten(a + b) == Flatten(a) + Flatten(b)
  {
    if a == [] {
      assert a + b == b;
    } else {
      FlattenAppend(a[1..], b);
      assert (a + b)[1..] == a[1..] + b && (a + b)[0] == a[0];
      var x, y, z := a[0].instances, Flatten(a[1..]), Flatten(b);
      assert x + (y + z) == (x + y) + z;
    }
  }

  lemma {:induction false} WeighAppend(weight: string -> real, a: seq<string>, b: seq<string>)
    ensures Weigh(weight, a + b) == Weigh(weight, a) + Weigh(weight, b)
  {
    if a == [] {
      assert a + b == b;
    } else {
      WeighAppend(weight, a[1..], b);
      assert (a + b)[1..] == a[1..] + b;
    }
  }

  /** Sorting repositories moves their instances around but neither drops nor repeats one, and
      leaves the weight of the list alone. */
  lemma {:induction false} InsertKeepsInstances(le: (Env, Env) -> bool, x: Env, s: seq<Env>, weight: string -> real)
    ensures multiset(Flatten(Insert(le, x, s))) == multiset(x.instances) + multiset(Flatten(s))
    ensures Weigh(weight, Flatten(Insert(le, x, s))) == Weigh(weight, x.instances) + Weigh(weight, Flatten(s))
  {
    if s == [] || le(x, s[0]) {
      FlattenAppend([x], s);
      assert Flatten([x]) == x.instances + [] == x.instances;
      WeighAppend(weight, x.instances, Flatten(s));
    } else {
      var t := Insert(le, x, s[1..]);
      InsertKeepsInstances(le, x, s[1..], weight);
      assert ([s[0]] + t)[1..] == t;
      WeighAppend(weight, s[0].instances, Flatten(t));
      WeighAppend(weight, s[0].instances, Flatten(s[1..]));
    }
  }

  lemma {:induction false} SortKeepsInstances(le: (Env, Env) -> bool, s: seq<Env>, weight: string -> real)
    ensures multiset(Flatten(Sort(le, s))) == multiset(Flatten(s))
    ensures Weigh(weight, Flatten(Sort(le, s))) == Weigh(weight, Flatten(s))
  {
    if s != [] {
      SortKeepsInstances(le, s[1..], weight);
      InsertKeepsInstances(le, s[0], Sort(le, s[1..]), weight);
      WeighAppend(weight, s[0].instances, Flatten(s[1..]));
    }
  }

  lemma {:induction false} BinLoadIsWeight(envs: seq<Env>, asg: seq<nat>, b: nat, weight: string -> real)
    requires |envs| == |asg|
    ensures Weigh(weight, Flatten(BinEnvs(envs, asg, b))) == Load(Weights(weight, envs), asg, b)
  {
    if envs != [] {
      var n := |envs| - 1;
      BinLoadIsWeight(envs[..n], asg[..n], b, weight);
      assert Weights(weight, envs)[..n] == Weights(weight, envs[..n]);
      var rest := BinEnvs(envs[..n], asg[..n], b);
      if asg[n] == b {
        FlattenAppend(rest, [envs[n]]);
        assert Flatten([envs[n]]) == envs[n].instances + [] == envs[n].instances;
        WeighAppend(weight, Flatten(rest), envs[n].instances);
      } else {
        assert BinEnvs(envs, asg, b) == rest;
      }
    }
  }

  /** All parts of a partition together. */
  function Union(parts: seq<seq<string>>): multiset<string> {
    if parts == [] then multiset{} else Union(parts[..|parts| - 1]) + multiset(parts[|parts| - 1])
  }

  lemma {:induction false} UnionOfEmpty(parts: seq<seq<string>>)
    requires forall i :: 0 <= i < |parts| ==> parts[i] == []
    ensures Union(parts) == multiset{}
  {
    if parts != [] { UnionOfEmpty(parts[..|parts| - 1]); }
  }

  lemma {:induction false} UnionSame(parts: seq<seq<string>>, parts': seq<seq<string>>)
    requires |parts| == |parts'|
    requires forall i :: 0 <= i < |parts| ==> multiset(parts[i]) == multiset(parts'[i])
    ensures Union(parts) == Union(parts')
  {
    if parts != [] { UnionSame(parts[..|parts| - 1], parts'[..|parts| - 1]); }
  }

  lemma {:induction false} UnionGrow(parts: seq<seq<string>>, i: nat, more: seq<string>)
    requires i < |parts|
    ensures Union(parts[i := parts[i] + more]) == Union(parts) + multiset(more)
  {
    var n := |parts| - 1;
    var parts' := parts[i := parts[i] + more];
    if i == n {
      assert parts'[..n] == parts[..n];
    } else {
      UnionGrow(parts[..n], i, more);
      assert parts'[..n] == parts[..n][i := parts[i] + more];
    }
  }

  lemma {:induction false} PartCount(parts: seq<seq<string>>, i: nat, x: string)
    requires i < |parts|
    ensures multiset(parts[i])[x] <= Union(parts)[x]
  {
    var n := |parts| - 1;
    if i < n { PartCount(parts[..n], i, x); }
  }

  lemma {:induction false} TwoPartsCount(parts: seq<seq<string>>, i: nat, j: nat, x: string)
    requires i < j < |parts|
    ensures multiset(parts[i])[x] + multiset(parts[j])[x] <= Union(parts)[x]
  {
    var n := |parts| - 1;
    if j < n { TwoPartsCount(parts[..n], i, j, x); } else { PartCount(parts[..n], i, x); }
  }

  /** The bins' instances, bin by bin. */
  function BinContents(envs: seq<Env>, asg: seq<nat>, m: nat): (parts: seq<seq<string>>)
    requires |envs| == |asg|
    ensures |parts| == m && forall b: nat :: b < m ==> parts[b] == Flatten(BinEnvs(envs, asg, b))
  {
    seq(m, (b: nat) => Flatten(BinEnvs(envs, asg, b)))
  }

  lemma FlattenOne(e: Env)
    ensures Flatten([e]) == e.instances
  {
    assert [e][1..] == [];
    assert Flatten([e]) == e.instances + [];
  }

  lemma FlattenLast(envs: seq<Env>, rest: seq<Env>, e: Env)
    requires envs == rest + [e]
    ensures Flatten(envs) == Flatten(rest) + e.instances
  {
    FlattenAppend(rest, [e]);
    FlattenOne(e);
  }

  lemma BinContentsStep(rest: seq<Env>, e: Env, asg: seq<nat>, b: nat, m: nat)
    requires |rest| == |asg| && b < m
    ensures var was := BinContents(rest, asg, m);
            BinContents(rest + [e], asg + [b], m) == was[b := was[b] + e.instances]
  {
    var was, all := BinContents(rest, asg, m), BinContents(rest + [e], asg + [b], m);
    assert (rest + [e])[..|rest|] == rest && (asg + [b])[..|asg|] == asg;
    forall c: nat | c < m ensures all[c] == if c == b then was[c] + e.instances else was[c] {
      var had := BinEnvs(rest, asg, c);
      if c == b {
        FlattenLast(BinEnvs(rest + [e], asg + [b], c), had, e);
      } else {
        assert had + [] == had;
      }
    }
  }

  lemma OneMorePlaced(rest: seq<Env>, e: Env, asg: seq<nat>, b: nat, m: nat)
    requires |rest| == |asg| && b < m && Union(BinContents(rest, asg, m)) == multiset(Flatten(rest))
    ensures Union(BinContents(rest + [e], asg + [b], m)) == multiset(Flatten(rest + [e]))
  {
    UnionGrow(BinContents(rest, asg, m), b, e.instances);
    BinContentsStep(rest, e, asg, b, m);
    FlattenLast(rest + [e], rest, e);
  }

  /** Every placement keeps every instance. */
  ghost predicate Conserved(envs: seq<Env>, asg: seq<nat>, m: nat) {
    |envs| == |asg| && Union(BinContents(envs, asg, m)) == multiset(Flatten(envs))
  }

  lemma OneMore(envs: seq<Env>, rest: seq<Env>, e: Env, asg: seq<nat>, was: seq<nat>, b: nat, m: nat)
    requires envs == rest + [e] && asg == was + [b] && b < m && Conserved(rest, was, m)
    ensures Conserved(envs, asg, m)
  {
    OneMorePlaced(rest, e, was, b, m);
  }

  lemma {:induction false} BinsConserve(envs: seq<Env>, asg: seq<nat>, m: nat)
    requires |envs| == |asg| && forall i :: 0 <= i < |asg| ==> asg[i] < m
    ensures Conserved(envs, asg, m)
  {
    if envs == [] {
      UnionOfEmpty(BinContents(envs, asg, m));
    } else {
      var n := |envs| - 1;
      BinsConserve(envs[..n], asg[..n], m);
      OneMore(envs, envs[..n], envs[n], asg, asg[..n], asg[n], m);
    }
  }

  /** What the m workers return, shard by shard. */
  function Shards(envMap: seq<Env>, weight: string -> real, m: nat): (parts: seq<seq<string>>)
    requires m > 0
    ensures |parts| == m && forall b: nat :: b < m ==> parts[b] == ShardOf(envMap, weight, b, m)
  {
    seq(m, (b: nat) => ShardOf(envMap, weight, b, m))
  }

  lemma ShardIsBin(envMap: seq<Env>, sorted: seq<Env>, asg: seq<nat>, weight: string -> real, b: nat, m: nat)
    requires m > 0 && sorted == Sort(ByWeight(weight), envMap) && asg == Placed(sorted, weight, m)
    ensures multiset(ShardOf(envMap, weight, b, m)) == multiset(Flatten(BinEnvs(sorted, asg, b)))
    ensures Weigh(weight, ShardOf(envMap, weight, b, m)) == Weigh(weight, Flatten(BinEnvs(sorted, asg, b)))
  {
    SortKeepsInstances(ByName(), BinEnvs(sorted, asg, b), weight);
  }

  /** The independently computed shards cover the instances exactly: as multisets, nothing is
      built twice and nothing is left out. */
  lemma ShardsPartitionInstances(envMap: seq<Env>, weight: string -> real, m: nat)
    requires m > 0
    ensures Union(Shards(envMap, weight, m)) == multiset(Flatten(envMap))
  {
    var sorted := Sort(ByWeight(weight), envMap);
    var asg := Placed(sorted, weight, m);
    var parts, bins := Shards(envMap, weight, m), BinContents(sorted, asg, m);
    forall b: nat | b < m ensures multiset(parts[b]) == multiset(bins[b]) {
      ShardIsBin(envMap, sorted, asg, weight, b, m);
    }
    UnionSame(parts, bins);
    BinsConserve(sorted, asg, m);
    SortKeepsInstances(ByWeight(weight), envMap, weight);
  }

  /** When no instance is listed twice, no two shards share an instance. */
  lemma ShardsDisjoint(envMap: seq<Env>, weight: string -> real, i: nat, j: nat, m: nat, x: string)
    requires i < j < m
    requires multiset(Flatten(envMap))[x] <= 1
    ensures !(x in ShardOf(envMap, weight, i, m) && x in ShardOf(envMap, weight, j, m))
  {
    ShardsPartitionInstances(envMap, weight, m);
    TwoPartsCount(Shards(envMap, weight, m), i, j, x);
  }

  // ---- Independence of iteration order --------------------------------------------------

  ghost predicate DistinctNames(envs: seq<Env>) {
    forall a, b :: a in envs && b in envs && a.name == b.name ==> a == b
  }

  /** Two iteration orders of the same repository map give the same shard. */
  lemma ShardIgnoresOrder(envMap: seq<Env>, envMap': seq<Env>, weight: string -> real, b: nat, m: nat)
    requires m > 0 && DistinctNames(envMap) && multiset(envMap) == multiset(envMap')
    ensures ShardOf(envMap, weight, b, m) == ShardOf(envMap', weight, b, m)
  {
    KeysAreOrders(weight);
    var le := ByWeight(weight);
    SortSpec(le, envMap);
    SortSpec(le, envMap');
    var s, s' := Sort(le, envMap), Sort(le, envMap');
    forall x, y | x in s && y in s && le(x, y) && le(y, x) ensures x == y {
      assert x in multiset(s) && y in multiset(s);
      assert x in envMap && y in envMap;
      StrLeTotal(x.name, y.name);
    }
    SortedUnique(le, s, s');
  }

  // ---- Order -----------------------------------------------------------------------------

  lemma {:induction false} BinFrom(envs: seq<Env>, asg: seq<nat>, b: nat, e: Env)
    requires |envs| == |asg| && e in BinEnvs(envs, asg, b)
    ensures e in envs
  {
    var n := |envs| - 1;
    if e in BinEnvs(envs[..n], asg[..n], b) { BinFrom(envs[..n], asg[..n], b, e); }
  }

  /** A shard comes back repository by repository, in the order of their names. */
  lemma ShardInNameOrder(envMap: seq<Env>, weight: string -> real, b: nat, m: nat) returns (es: seq<Env>)
    requires m > 0
    ensures ShardOf(envMap, weight, b, m) == Flatten(es) && (forall e :: e in es ==> e in envMap)
    ensures forall i, j :: 0 <= i < j < |es| ==> StrLe(es[i].name, es[j].name)
  {
    KeysAreOrders(weight);
    var sorted := Sort(ByWeight(weight), envMap);
    var bin := BinEnvs(sorted, Placed(sorted, weight, m), b);
    es := ShardEnvs(envMap, weight, b, m);
    SortSpec(ByName(), bin);
    SortSpec(ByWeight(weight), envMap);
    forall i, j | 0 <= i < j < |es| ensures StrLe(es[i].name, es[j].name) { assert ByName()(es[i], es[j]); }
    forall e | e in es ensures e in envMap {
      assert e in multiset(es) && e in bin;
      BinFrom(sorted, Placed(sorted, weight, m), b, e);
      assert e in multiset(sorted);
    }
  }

  /** Repositories are placed heaviest first, and equally heavy ones in the order of their names. */
  lemma PlacedHeaviestFirst(envMap: seq<Env>, weight: string -> real, i: nat, j: nat)
    requires i < j < |Sort(ByWeight(weight), envMap)|
    ensures var a, b := Sort(ByWeight(weight), envMap)[i], Sort(ByWeight(weight), envMap)[j];
            var wa, wb := Weigh(weight, a.instances), Weigh(weight, b.instances);
            wa > wb || (wa == wb && StrLe(a.name, b.name))
  {
    KeysAreOrders(weight);
    SortSpec(ByWeight(weight), envMap);
    var s := Sort(ByWeight(weight), envMap);
    assert ByWeight(weight)(s[i], s[j]);
  }

  /** A repository weighs what its instances weigh together. */
  lemma {:induction false} WeighMeans(weight: string -> real, instances: seq<string>)
    ensures Weigh(weight, instances) == Sum(seq(|instances|, i requires 0 <= i < |instances| => weight(instances[i])))
  {
    var ws := seq(|instances|, i requires 0 <= i < |instances| => weight(instances[i]));
    if instances != [] {
      var n := |instances| - 1;
      var most, last := instances[..n], instances[n];
      WeighMeans(weight, most);
      assert ws[..n] == seq(n, i requires 0 <= i < n => weight(most[i]));
      WeighAppend(weight, most, [last]);
      assert instances == most + [last] && [last][1..] == [];
    }
  }

  // ---- Balance -------------------------------------------------------------------------

  lemma {:induction false} WeighNonNegative(weight: string -> real, instances: seq<string>)
    requires forall i :: weight(i) >= 0.0
    ensures Weigh(weight, instances) >= 0.0
  {
    if instances != [] { WeighNonNegative(weight, instances[1..]); }
  }

  lemma SortedWeightsDescend(envMap: seq<Env>, weight: string -> real)
    requires forall i :: weight(i) >= 0.0
    ensures var ws := Weights(weight, Sort(ByWeight(weight), envMap)); Descending(ws) && NonNegative(ws)
  {
    KeysAreOrders(weight);
    var sorted := Sort(ByWeight(weight), envMap);
    SortSpec(ByWeight(weight), envMap);
    var ws := Weights(weight, sorted);
    forall i, j | 0 <= i < j < |ws| ensures ws[i] >= ws[j] { assert ByWeight(weight)(sorted[i], sorted[j]); }
    forall i | 0 <= i < |ws| ensures ws[i] >= 0.0 { WeighNonNegative(weight, sorted[i].instances); }
  }

  lemma AsTimes(m: nat, l: real, t: real)
    requires m > 0
    ensures Times(3 * m, l) <= Times(4 * m - 1, t) <==> 3.0 * m as real * l <= (4 * m - 1) as real * t
  {
    TimesIsProduct(3 * m, l);
    TimesIsProduct(4 * m - 1, t);
    assert (3 * m) as real == 3.0 * m as real;
  }

  lemma GreedyTop(ws: seq<real>, m: nat, b: nat, other: seq<nat>, t: real) returns (top: real)
    requires b < m && Descending(ws) && NonNegative(ws) && Valid(ws, other, m) && Heaviest(ws, other, m, t)
    ensures Load(ws, Greedy(ws, m), b) <= top && Times(3 * m, top) <= Times(4 * m - 1, t)
  {
    top := SomeHeaviest(ws, Greedy(ws, m), m);
    DescendingBound(ws, m, other, top, t);
    AsTimes(m, top, t);
  }

  lemma BinsBalanced(ws: seq<real>, m: nat, b: nat, other: seq<nat>, t: real)
    requires b < m && Descending(ws) && NonNegative(ws) && Valid(ws, other, m) && Heaviest(ws, other, m, t)
    ensures Times(3 * m, Load(ws, Greedy(ws, m), b)) <= Times(4 * m - 1, t)
  {
    var top := GreedyTop(ws, m, b, other, t);
    TimesMonotone(3 * m, Load(ws, Greedy(ws, m), b), top);
  }

  /** The heaviest shard weighs at most (4/3 - 1/(3m)) times the heaviest shard of every other
      way to give each repository to one of the m shards. */
  lemma ShardsBalanced(envMap: seq<Env>, sorted: seq<Env>, weight: string -> real, m: nat, b: nat, other: seq<nat>,
                       t: real, l: real)
    requires b < m && forall i :: weight(i) >= 0.0
    requires sorted == Sort(ByWeight(weight), envMap)
    requires |other| == |sorted| && forall i :: 0 <= i < |other| ==> other[i] < m
    requires forall c: nat :: c < m ==> Weigh(weight, Flatten(BinEnvs(sorted, other, c))) <= t
    requires exists c: nat :: c < m && Weigh(weight, Flatten(BinEnvs(sorted, other, c))) == t
    requires l == Weigh(weight, ShardOf(envMap, weight, b, m))
    ensures 3.0 * m as real * l <= (4 * m - 1) as real * t
  {
    var ws, asg := Weights(weight, sorted), Placed(sorted, weight, m);
    SortedWeightsDescend(envMap, weight);
    forall c: nat | c < m ensures Load(ws, other, c) == Weigh(weight, Flatten(BinEnvs(sorted, other, c))) {
      BinLoadIsWeight(sorted, other, c, weight);
    }
    ShardIsBin(envMap, sorted, asg, weight, b, m);
    BinLoadIsWeight(sorted, asg, b, weight);
    BinsBalanced(ws, m, b, other, t);
    AsTimes(m, l, t);
  }

  lemma {:induction false} SomeHeaviest(ws: seq<real>, asg: seq<nat>, m: nat) returns (l: real)
    requires |ws| == |asg| && m > 0
    ensures Heaviest(ws, asg, m, l)
  {
    l := Load(ws, asg, m - 1);
    if m > 1 {
      var l' := SomeHeaviest(ws, asg, m - 1);
      if l < l' { l := l'; }
    }
  }
}
