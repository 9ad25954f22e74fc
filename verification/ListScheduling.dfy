/** Greedy list scheduling of weighted jobs on identical machines, and Graham's bounds for it.
    An assignment names a bin for every job; `Load` is what a bin carries. */
module ListScheduling {
  import opened Multiples

  function Load(ws: seq<real>, asg: seq<nat>, b: nat): real
    requires |ws| == |asg|
  {
    if ws == [] then 0.0
    else
      var n := |ws| - 1;
      Load(ws[..n], asg[..n], b) + (if asg[n] == b then ws[n] else 0.0)
  }

  function Loads(ws: seq<real>, asg: seq<nat>, m: nat): seq<real>
    requires |ws| == |asg|
  {
    seq(m, (b: nat) => Load(ws, asg, b))
  }

  predicate Valid(ws: seq<real>, asg: seq<nat>, m: nat) {
    |ws| == |asg| && forall i :: 0 <= i < |asg| ==> asg[i] < m
  }

  predicate NonNegative(ws: seq<real>) {
    forall i :: 0 <= i < |ws| ==> ws[i] >= 0.0
  }

  predicate Descending(ws: seq<real>) {
    forall i, j :: 0 <= i < j < |ws| ==> ws[i] >= ws[j]
  }

  /** The lowest-numbered bin of least load. */
  function ArgMin(loads: seq<real>): (r: nat)
    requires loads != []
    ensures r < |loads|
    ensures forall j :: 0 <= j < |loads| ==> loads[r] <= loads[j]
    ensures forall j :: 0 <= j < r ==> loads[r] < loads[j]
  {
    var n := |loads| - 1;
    if n == 0 then 0
    else
      var best := ArgMin(loads[..n]);
      if loads[n] < loads[best] then n else best
  }

  /** Every job in turn to the least-loaded bin. */
  function Greedy(ws: seq<real>, m: nat): (asg: seq<nat>)
    requires m > 0
    ensures Valid(ws, asg, m)
  {
    if ws == [] then []
    else
      var n := |ws| - 1;
      var asg := Greedy(ws[..n], m);
      asg + [ArgMin(Loads(ws[..n], asg, m))]
  }

  /** l is the load of the heaviest of the m bins. */
  ghost predicate Heaviest(ws: seq<real>, asg: seq<nat>, m: nat, l: real)
    requires |ws| == |asg|
  {
    && (forall b: nat :: b < m ==> Load(ws, asg, b) <= l)
    && (exists b: nat :: b < m && Load(ws, asg, b) == l)
  }

  // ---- Sums over bins ------------------------------------------------------------------

  function SumLoads(ws: seq<real>, asg: seq<nat>, m: nat): real
    requires |ws| == |asg|
  {
    if m == 0 then 0.0 else SumLoads(ws, asg, m - 1) + Load(ws, asg, m - 1)
  }

  lemma {:induction false} SumLoadsStep(ws: seq<real>, asg: seq<nat>, m: nat)
    requires |ws| == |asg| > 0
    ensures var n := |ws| - 1;
            SumLoads(ws, asg, m) ==
            SumLoads(ws[..n], asg[..n], m) + (if asg[n] < m then ws[n] else 0.0)
  {
    if m > 0 {
      SumLoadsStep(ws, asg, m - 1);
    }
  }

  lemma {:induction false} SumLoadsEmpty(m: nat)
    ensures SumLoads([], [], m) == 0.0
  {
    if m > 0 { SumLoadsEmpty(m - 1); }
  }

  /** The bins together carry every job exactly once. */
  lemma {:induction false} LoadsConserveWeight(ws: seq<real>, asg: seq<nat>, m: nat)
    requires Valid(ws, asg, m)
    ensures SumLoads(ws, asg, m) == Sum(ws)
  {
    if ws == [] {
      SumLoadsEmpty(m);
    } else {
      SumLoadsStep(ws, asg, m);
      LoadsConserveWeight(ws[..|ws| - 1], asg[..|ws| - 1], m);
    }
  }

  lemma {:induction false} SumLoadsAtMost(ws: seq<real>, asg: seq<nat>, m: nat, t: real)
    requires |ws| == |asg|
    requires forall b: nat :: b < m ==> Load(ws, asg, b) <= t
    ensures SumLoads(ws, asg, m) <= Times(m, t)
  {
    if m > 0 { SumLoadsAtMost(ws, asg, m - 1, t); }
  }

  lemma {:induction false} SumLoadsAtLeast(ws: seq<real>, asg: seq<nat>, m: nat, t: real)
    requires |ws| == |asg|
    requires forall b: nat :: b < m ==> Load(ws, asg, b) >= t
    ensures SumLoads(ws, asg, m) >= Times(m, t)
  {
    if m > 0 { SumLoadsAtLeast(ws, asg, m - 1, t); }
  }

  // ---- Prefixes ------------------------------------------------------------------------

  lemma {:induction false} PrefixMonotone(ws: seq<real>, asg: seq<nat>, k: nat, b: nat)
    requires |ws| == |asg| && k <= |ws| && NonNegative(ws)
    ensures Load(ws[..k], asg[..k], b) <= Load(ws, asg, b)
    ensures Sum(ws[..k]) <= Sum(ws)
    ensures Load(ws, asg, b) >= 0.0
    decreases |ws|
  {
    if k == |ws| {
      assert ws[..k] == ws && asg[..k] == asg;
      if k > 0 { PrefixMonotone(ws[..k - 1], asg[..k - 1], k - 1, b); }
    } else {
      var n := |ws| - 1;
      PrefixMonotone(ws[..n], asg[..n], k, b);
      assert ws[..n][..k] == ws[..k] && asg[..n][..k] == asg[..k];
    }
  }

  lemma {:induction false} GreedyPrefix(ws: seq<real>, m: nat, k: nat)
    requires m > 0 && k <= |ws|
    ensures Greedy(ws, m)[..k] == Greedy(ws[..k], m)
    decreases |ws|
  {
    if k == |ws| {
      assert ws[..k] == ws;
    } else {
      var n := |ws| - 1;
      GreedyPrefix(ws[..n], m, k);
      assert ws[..n][..k] == ws[..k];
      var g, p := Greedy(ws, m), Greedy(ws[..n], m);
      assert g[..n] == p && g[..k] == p[..k];
    }
  }

  lemma {:induction false} JobBelowMax(ws: seq<real>, asg: seq<nat>, i: nat)
    requires |ws| == |asg| && i < |ws| && NonNegative(ws)
    ensures ws[i] <= Load(ws, asg, asg[i])
  {
    PrefixMonotone(ws, asg, i + 1, asg[i]);
    PrefixMonotone(ws, asg, i, asg[i]);
    PrefixMonotone(ws[..i], asg[..i], i, asg[i]);
    assert ws[..i + 1][..i] == ws[..i] && asg[..i + 1][..i] == asg[..i];
  }

  /** The last job a loaded bin received: from then on its load is final. */
  lemma {:induction false} LastJobOn(ws: seq<real>, asg: seq<nat>, b: nat) returns (k: nat)
    requires |ws| == |asg| && Load(ws, asg, b) > 0.0
    ensures k < |ws| && asg[k] == b
    ensures Load(ws[..k], asg[..k], b) + ws[k] == Load(ws, asg, b)
  {
    var n := |ws| - 1;
    if asg[n] == b {
      k := n;
    } else {
      k := LastJobOn(ws[..n], asg[..n], b);
      assert ws[..n][..k] == ws[..k] && asg[..n][..k] == asg[..k];
    }
  }

  // ---- The averaging bound -------------------------------------------------------------

  /** The bin greedy picks for job k is no heavier than any other bin at that point. */
  lemma GreedyPicksLeast(ws: seq<real>, m: nat, k: nat, c: nat)
    requires m > 0 && k < |ws| && c < m
    ensures var g := Greedy(ws, m);
            Load(ws[..k], g[..k], g[k]) <= Load(ws[..k], g[..k], c)
  {
    var g := Greedy(ws, m);
    var p, q := ws[..k], ws[..k + 1];
    GreedyPrefix(ws, m, k);
    GreedyPrefix(ws, m, k + 1);
    assert q[..k] == p;
    assert g[..k + 1][k] == g[k];
    var loads := Loads(p, g[..k], m);
    assert g[k] == ArgMin(loads);
    assert loads[c] == Load(p, g[..k], c) && loads[g[k]] == Load(p, g[..k], g[k]);
  }

  /** A bin whose last job is k carries at most the average of the optimum plus (1 - 1/m) of
      that job, whatever the other assignment. */
  lemma AverageBound(ws: seq<real>, m: nat, other: seq<nat>, t: real, k: nat)
    requires m > 0 && NonNegative(ws) && Valid(ws, other, m) && k < |ws|
    requires forall b: nat :: b < m ==> Load(ws, other, b) <= t
    ensures var g := Greedy(ws, m);
            Times(m, Load(ws[..k], g[..k], g[k])) + ws[k] <= Times(m, t)
  {
    var g := Greedy(ws, m);
    var p := ws[..k];
    var l := Load(p, g[..k], g[k]);
    forall c: nat | c < m ensures Load(p, g[..k], c) >= l { GreedyPicksLeast(ws, m, k, c); }
    SumLoadsAtLeast(p, g[..k], m, l);
    LoadsConserveWeight(p, g[..k], m);
    PrefixMonotone(ws, other, k + 1, 0);
    assert ws[..k + 1][..k] == p;
    LoadsConserveWeight(ws, other, m);
    SumLoadsAtMost(ws, other, m, t);
  }

  lemma HeaviestNonNegative(ws: seq<real>, asg: seq<nat>, m: nat, l: real)
    requires |ws| == |asg| && NonNegative(ws) && Heaviest(ws, asg, m, l)
    ensures l >= 0.0
  {
    var b: nat :| b < m && Load(ws, asg, b) == l;
    PrefixMonotone(ws, asg, |ws|, b);
  }

  /** The heaviest greedy bin and its last job k: m bins as light as it was before k, and k
      itself, together fit in m times t. */
  lemma HeaviestBin(ws: seq<real>, m: nat, other: seq<nat>, l: real, t: real) returns (k: nat)
    requires m > 0 && NonNegative(ws) && Valid(ws, other, m) && l > 0.0
    requires Heaviest(ws, Greedy(ws, m), m, l)
    requires forall b: nat :: b < m ==> Load(ws, other, b) <= t
    ensures k < |ws| && 0.0 <= ws[k] <= t
    ensures Load(ws[..k], Greedy(ws, m)[..k], Greedy(ws, m)[k]) == l - ws[k]
    ensures Times(m, l - ws[k]) + ws[k] <= Times(m, t)
  {
    var g := Greedy(ws, m);
    var b: nat :| b < m && Load(ws, g, b) == l;
    k := LastJobOn(ws, g, b);
    AverageBound(ws, m, other, t, k);
    JobBelowMax(ws, other, k);
  }

  lemma Scale(r: real, x: real, y: real)
    requires 0.0 <= r && x <= y
    ensures r * x <= r * y
  {}

  lemma TwoMachines(m: nat, l: real, t: real, w: real)
    requires m > 0 && Times(m, l - w) + w <= Times(m, t) && w <= t
    ensures m as real * l <= (2 * m - 1) as real * t
  {
    TimesIsProduct(m, l - w);
    TimesIsProduct(m, t);
    var r := m as real;
    Scale(r - 1.0, w, t);
    assert (2 * m - 1) as real == 2.0 * r - 1.0;
    assert r * (l - w) == r * l - r * w;
    assert (r - 1.0) * w == r * w - w && (r - 1.0) * t == r * t - t;
    assert (2.0 * r - 1.0) * t == r * t + r * t - t;
  }

  lemma ThirdOfMachines(m: nat, l: real, t: real, w: real)
    requires m > 0 && Times(m, l - w) + w <= Times(m, t) && 3.0 * w <= t
    ensures 3.0 * m as real * l <= (4 * m - 1) as real * t
  {
    TimesIsProduct(m, l - w);
    TimesIsProduct(m, t);
    var r := m as real;
    Scale(r - 1.0, 3.0 * w, t);
    assert (4 * m - 1) as real == 4.0 * r - 1.0;
    assert r * (l - w) == r * l - r * w;
    assert (r - 1.0) * (3.0 * w) == 3.0 * (r * w) - 3.0 * w && (r - 1.0) * t == r * t - t;
    assert (4.0 * r - 1.0) * t == 3.0 * (r * t) + (r * t - t);
  }

  lemma AtMostAsHeavy(m: nat, l: real, t: real)
    requires m > 0 && l <= t && 0.0 <= t
    ensures m as real * l <= (2 * m - 1) as real * t
    ensures 3.0 * m as real * l <= (4 * m - 1) as real * t
  {
    var r := m as real;
    Scale(r, l, t);
    Scale(t, 1.0, r);
    assert (4 * m - 1) as real == 4.0 * r - 1.0;
    assert (2 * m - 1) as real == 2.0 * r - 1.0;
  }

  /** Graham's bound for jobs in any order: at most (2 - 1/m) times the heaviest bin of every
      other assignment. */
  lemma AnyOrderBound(ws: seq<real>, m: nat, other: seq<nat>, l: real, t: real)
    requires m > 0 && NonNegative(ws) && Valid(ws, other, m)
    requires Heaviest(ws, Greedy(ws, m), m, l) && Heaviest(ws, other, m, t)
    ensures m as real * l <= (2 * m - 1) as real * t
  {
    HeaviestNonNegative(ws, other, m, t);
    if l > t {
      var k := HeaviestBin(ws, m, other, l, t);
      TwoMachines(m, l, t, ws[k]);
    } else {
      AtMostAsHeavy(m, l, t);
    }
  }

  // ---- Large jobs: the counting argument ------------------------------------------------

  /** Each job counted once, and once more when it leaves no room under t for a job of size x. */
  function Marks(ws: seq<real>, x: real, t: real): (vs: seq<real>)
    ensures |vs| == |ws|
    ensures forall i :: 0 <= i < |ws| ==> vs[i] == if ws[i] > t - x then 2.0 else 1.0
  {
    seq(|ws|, i requires 0 <= i < |ws| => if ws[i] > t - x then 2.0 else 1.0)
  }

  ghost predicate One(ws: seq<real>, vs: seq<real>, l: real, v: real)
    requires |ws| == |vs|
  {
    exists i :: 0 <= i < |ws| && l == ws[i] && v == vs[i]
  }

  ghost predicate Two(ws: seq<real>, vs: seq<real>, l: real, v: real)
    requires |ws| == |vs|
  {
    exists i, j :: 0 <= i < |ws| && 0 <= j < |ws| && l == ws[i] + ws[j] && v == vs[i] + vs[j]
  }

  /** What a bin holds: nothing, one job, two jobs, or at least three. */
  ghost predicate Holds(ws: seq<real>, vs: seq<real>, l: real, v: real, x: real)
    requires |ws| == |vs|
  {
    (l == 0.0 && v == 0.0) || One(ws, vs, l, v) || Two(ws, vs, l, v) || (l >= 3.0 * x && v >= 3.0)
  }

  ghost predicate AtLeast(ws: seq<real>, vs: seq<real>, x: real) {
    |ws| == |vs| && x >= 0.0 && forall i :: 0 <= i < |ws| ==> ws[i] >= x && vs[i] >= 1.0
  }

  lemma HoldsStill(ws: seq<real>, vs: seq<real>, n: nat, l: real, v: real, x: real)
    requires |ws| == |vs| && n <= |ws| && Holds(ws[..n], vs[..n], l, v, x)
    ensures Holds(ws, vs, l, v, x)
  {
    if One(ws[..n], vs[..n], l, v) {
      var i :| 0 <= i < n && l == ws[..n][i] && v == vs[..n][i];
      assert l == ws[i] && v == vs[i];
    } else if Two(ws[..n], vs[..n], l, v) {
      var i, j :| 0 <= i < n && 0 <= j < n && l == ws[..n][i] + ws[..n][j] && v == vs[..n][i] + vs[..n][j];
      assert l == ws[i] + ws[j] && v == vs[i] + vs[j];
    }
  }

  lemma HoldsMore(ws: seq<real>, vs: seq<real>, k: nat, l: real, v: real, x: real)
    requires AtLeast(ws, vs, x) && k < |ws| && Holds(ws, vs, l, v, x)
    ensures Holds(ws, vs, l + ws[k], v + vs[k], x)
  {
    if l == 0.0 && v == 0.0 {
      assert One(ws, vs, l + ws[k], v + vs[k]);
    } else if One(ws, vs, l, v) {
      var i :| 0 <= i < |ws| && l == ws[i] && v == vs[i];
      assert Two(ws, vs, l + ws[k], v + vs[k]);
    }
  }

  lemma {:induction false} Occupancy(ws: seq<real>, vs: seq<real>, asg: seq<nat>, b: nat, x: real)
    requires |ws| == |asg| && AtLeast(ws, vs, x)
    ensures Holds(ws, vs, Load(ws, asg, b), Load(vs, asg, b), x)
  {
    if ws != [] {
      var n := |ws| - 1;
      var l, v := Load(ws[..n], asg[..n], b), Load(vs[..n], asg[..n], b);
      Occupancy(ws[..n], vs[..n], asg[..n], b, x);
      HoldsStill(ws, vs, n, l, v, x);
      if asg[n] == b { HoldsMore(ws, vs, n, l, v, x); }
    }
  }

  lemma FullBin(ws: seq<real>, asg: seq<nat>, b: nat, x: real, t: real)
    requires |ws| == |asg| && 0.0 <= x <= t
    requires forall i :: 0 <= i < |ws| ==> ws[i] >= x
    requires Load(ws, asg, b) > t - x
    ensures Load(Marks(ws, x, t), asg, b) >= 2.0
  {
    var vs := Marks(ws, x, t);
    Occupancy(ws, vs, asg, b, x);
  }

  lemma RoomyBin(ws: seq<real>, asg: seq<nat>, b: nat, x: real, t: real)
    requires |ws| == |asg| && 0.0 <= x && t < 3.0 * x
    requires forall i :: 0 <= i < |ws| ==> ws[i] >= x
    requires Load(ws, asg, b) <= t
    ensures Load(Marks(ws, x, t), asg, b) <= 2.0
  {
    var vs := Marks(ws, x, t);
    Occupancy(ws, vs, asg, b, x);
  }

  /** Two counts of the same marks: were every bin of g full, g's jobs would carry 2m marks
      already, while the other assignment has room for 2m marks and places one job more. */
  lemma SomeBinHasRoom(ws: seq<real>, p: seq<real>, x: real, m: nat, g: seq<nat>, other: seq<nat>, t: real)
    requires ws == p + [x] && Valid(p, g, m) && Valid(ws, other, m) && 0.0 <= x <= t < 3.0 * x
    requires forall i :: 0 <= i < |ws| ==> ws[i] >= x
    requires forall c: nat :: c < m ==> Load(ws, other, c) <= t
    ensures exists c: nat :: c < m && Load(p, g, c) <= t - x
  {
    if forall c: nat :: c < m ==> Load(p, g, c) > t - x {
      var vs, vp := Marks(ws, x, t), Marks(p, x, t);
      assert vs[..|p|] == vp && Sum(vs) >= Sum(vp) + 1.0;
      forall i | 0 <= i < |p| ensures p[i] >= x { assert ws[i] == p[i]; }
      forall c: nat | c < m ensures Load(vp, g, c) >= 2.0 { FullBin(p, g, c, x, t); }
      forall c: nat | c < m ensures Load(vs, other, c) <= 2.0 { RoomyBin(ws, other, c, x, t); }
      SumLoadsAtLeast(vp, g, m, 2.0);
      LoadsConserveWeight(vp, g, m);
      LoadsConserveWeight(vs, other, m);
      SumLoadsAtMost(vs, other, m, 2.0);
      assert false;
    }
  }

  /** When every job is larger than a third of what some assignment achieves, descending
      greedy is at least as good as that assignment. */
  lemma {:induction false} LargeJobsOptimal(ws: seq<real>, m: nat, other: seq<nat>, t: real, b: nat)
    requires m > 0 && b < m && NonNegative(ws) && Descending(ws) && Valid(ws, other, m)
    requires forall c: nat :: c < m ==> Load(ws, other, c) <= t
    requires forall i :: 0 <= i < |ws| ==> t < 3.0 * ws[i]
    ensures Load(ws, Greedy(ws, m), b) <= t
  {
    if ws == [] {
      assert Load(ws, other, b) <= t;
    } else {
      var n := |ws| - 1;
      var p, o, g := ws[..n], other[..n], Greedy(ws, m);
      GreedyPrefix(ws, m, n);
      forall c: nat | c < m ensures Load(p, o, c) <= t { PrefixMonotone(ws, other, n, c); }
      LargeJobsOptimal(p, m, o, t, b);
      if b == g[n] {
        JobBelowMax(ws, other, n);
        SomeBinHasRoom(ws, p, ws[n], m, g[..n], other, t);
        var c: nat :| c < m && Load(p, g[..n], c) <= t - ws[n];
        GreedyPicksLeast(ws, m, n, c);
      }
    }
  }

  lemma {:induction false} LargeLastJob(ws: seq<real>, m: nat, other: seq<nat>, t: real, k: nat)
    requires m > 0 && k < |ws| && NonNegative(ws) && Descending(ws) && Valid(ws, other, m)
    requires forall c: nat :: c < m ==> Load(ws, other, c) <= t
    requires t < 3.0 * ws[k]
    ensures var g := Greedy(ws, m); Load(ws[..k], g[..k], g[k]) + ws[k] <= t
  {
    var g := Greedy(ws, m);
    var q, o := ws[..k + 1], other[..k + 1];
    forall c: nat | c < m ensures Load(q, o, c) <= t { PrefixMonotone(ws, other, k + 1, c); }
    forall i | 0 <= i < |q| ensures t < 3.0 * q[i] { assert ws[i] >= ws[k]; }
    LargeJobsOptimal(q, m, o, t, g[k]);
    GreedyPrefix(ws, m, k + 1);
    assert q[..k] == ws[..k] && g[..k + 1][..k] == g[..k];
  }

  /** Graham's bound for longest-processing-time-first: at most (4/3 - 1/(3m)) times the
      heaviest bin of every other assignment. */
  lemma DescendingBound(ws: seq<real>, m: nat, other: seq<nat>, l: real, t: real)
    requires m > 0 && NonNegative(ws) && Descending(ws) && Valid(ws, other, m)
    requires Heaviest(ws, Greedy(ws, m), m, l) && Heaviest(ws, other, m, t)
    ensures 3.0 * m as real * l <= (4 * m - 1) as real * t
  {
    HeaviestNonNegative(ws, other, m, t);
    if l > t {
      var k := HeaviestBin(ws, m, other, l, t);
      if t < 3.0 * ws[k] { LargeLastJob(ws, m, other, t, k); }
      ThirdOfMachines(m, l, t, ws[k]);
    } else {
      AtMostAsHeavy(m, l, t);
    }
  }

  lemma LoadAppend(ws: seq<real>, asg: seq<nat>, w: real, b: nat, c: nat)
    requires |ws| == |asg|
    ensures Load(ws + [w], asg + [b], c) == Load(ws, asg, c) + if b == c then w else 0.0
  {
    assert (ws + [w])[..|ws|] == ws && (asg + [b])[..|ws|] == asg;
  }

  ghost predicate Carries(ws: seq<real>, asg: seq<nat>, l0: real, l1: real) {
    |ws| == |asg| && Load(ws, asg, 0) == l0 && Load(ws, asg, 1) == l1
  }

  lemma CarriesAppend(ws: seq<real>, asg: seq<nat>, l0: real, l1: real, w: real, b: nat)
    requires Carries(ws, asg, l0, l1)
    ensures Carries(ws + [w], asg + [b], l0 + (if b == 0 then w else 0.0), l1 + (if b == 1 then w else 0.0))
  {
    LoadAppend(ws, asg, w, b, 0);
    LoadAppend(ws, asg, w, b, 1);
  }

  lemma ArgMinOfTwo(l0: real, l1: real)
    ensures ArgMin([l0, l1]) == if l1 < l0 then 1 else 0
  {
    var s := [l0, l1];
    var r := ArgMin(s);
    assert s[r] <= s[0] && s[r] <= s[1];
  }

  lemma GreedyAppend(ws: seq<real>, asg: seq<nat>, l0: real, l1: real, w: real)
    requires asg == Greedy(ws, 2) && Carries(ws, asg, l0, l1)
    ensures Greedy(ws + [w], 2) == asg + [if l1 < l0 then 1 else 0]
  {
    assert (ws + [w])[..|ws|] == ws;
    assert Loads(ws, asg, 2) == [l0, l1];
    ArgMinOfTwo(l0, l1);
  }

  /** Graham's example: two bins, weights 3, 3, 2, 2, 2. */
  const GRAHAM: seq<real> := [3.0, 3.0, 2.0, 2.0, 2.0]

  lemma GrahamGreedy()
    ensures Greedy(GRAHAM, 2) == [0, 1, 0, 1, 0] && Carries(GRAHAM, [0, 1, 0, 1, 0], 7.0, 5.0)
  {
    var w1, w2, w3, w4 := [3.0], [3.0, 3.0], [3.0, 3.0, 2.0], [3.0, 3.0, 2.0, 2.0];
    assert [] + [3.0] == w1 && w1 + [3.0] == w2 && w2 + [2.0] == w3 && w3 + [2.0] == w4 && w4 + [2.0] == GRAHAM;
    GreedyAppend([], [], 0.0, 0.0, 3.0);
    CarriesAppend([], [], 0.0, 0.0, 3.0, 0);
    GreedyAppend(w1, [0], 3.0, 0.0, 3.0);
    CarriesAppend(w1, [0], 3.0, 0.0, 3.0, 1);
    GreedyAppend(w2, [0, 1], 3.0, 3.0, 2.0);
    CarriesAppend(w2, [0, 1], 3.0, 3.0, 2.0, 0);
    GreedyAppend(w3, [0, 1, 0], 5.0, 3.0, 2.0);
    CarriesAppend(w3, [0, 1, 0], 5.0, 3.0, 2.0, 1);
    GreedyAppend(w4, [0, 1, 0, 1], 5.0, 5.0, 2.0);
    CarriesAppend(w4, [0, 1, 0, 1], 5.0, 5.0, 2.0, 0);
  }

  lemma GrahamOptimum()
    ensures Carries(GRAHAM, [0, 0, 1, 1, 1], 6.0, 6.0)
  {
    var w1, w2, w3, w4 := [3.0], [3.0, 3.0], [3.0, 3.0, 2.0], [3.0, 3.0, 2.0, 2.0];
    assert [] + [3.0] == w1 && w1 + [3.0] == w2 && w2 + [2.0] == w3 && w3 + [2.0] == w4 && w4 + [2.0] == GRAHAM;
    CarriesAppend([], [], 0.0, 0.0, 3.0, 0);
    CarriesAppend(w1, [0], 3.0, 0.0, 3.0, 0);
    CarriesAppend(w2, [0, 0], 6.0, 0.0, 2.0, 1);
    CarriesAppend(w3, [0, 0, 1], 6.0, 2.0, 2.0, 1);
    assert [0, 0, 1] + [1] == [0, 0, 1, 1] && [0, 0, 1, 1] + [1] == [0, 0, 1, 1, 1];
    CarriesAppend(w4, [0, 0, 1, 1], 6.0, 4.0, 2.0, 1);
  }

  /** The descending bound is attained, so no smaller factor holds for every input. */
  lemma DescendingBoundAttained()
    ensures Descending(GRAHAM) && NonNegative(GRAHAM)
    ensures Heaviest(GRAHAM, Greedy(GRAHAM, 2), 2, 7.0) && Heaviest(GRAHAM, [0, 0, 1, 1, 1], 2, 6.0)
    ensures 3.0 * 2.0 * 7.0 == (4 * 2 - 1) as real * 6.0
  {
    GrahamGreedy();
    GrahamOptimum();
  }
}
