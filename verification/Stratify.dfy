/** Which of the eligible candidates a pass judges: all that must be judged, and from every
    (harness, outcome) stratum enough of the rest to reach its quota, whatever the shuffle. */
module Stratify {
  import opened JudgeTypes

  datatype Stratum = Stratum(harness: string, outcome: string)

  /** One line of the strata report. */
  datatype Line = Line(eligible: nat, sampled: nat)

  function StratumOf(c: Candidate): Stratum {
    Stratum(c.harness, c.outcome)
  }

  /** The name a stratum goes by in the report. */
  function Label(st: Stratum): string {
    st.harness + "|" + st.outcome
  }

  /** The strata in the order they are first seen. */
  function StrataOf(cs: seq<Candidate>): seq<Stratum> {
    if cs == [] then []
    else
      var before, st := StrataOf(cs[..|cs| - 1]), StratumOf(cs[|cs| - 1]);
      if st in before then before else before + [st]
  }

  function Keep<T(!new)>(p: T -> bool, s: seq<T>): (r: seq<T>)
    ensures forall x :: x in r <==> x in s && p(x)
  {
    if s == [] then []
    else
      var n := |s| - 1;
      assert s == s[..n] + [s[n]];
      Keep(p, s[..n]) + if p(s[n]) then [s[n]] else []
  }

  function Members(cs: seq<Candidate>, st: Stratum): seq<Candidate> {
    Keep((c: Candidate) => StratumOf(c) == st, cs)
  }

  function Always(cs: seq<Candidate>): seq<Candidate> {
    Keep((c: Candidate) => c.alwaysJudge, cs)
  }

  function Others(cs: seq<Candidate>): seq<Candidate> {
    Keep((c: Candidate) => !c.alwaysJudge, cs)
  }

  function Min(a: int, b: int): int { if b < a then b else a }

  function Max(a: int, b: int): int { if b > a then b else a }

  /** Rounding to the nearest integer, halves to the even one. */
  function Round(x: real): (n: int)
    ensures n as real - 0.5 <= x <= n as real + 0.5
    ensures (x == n as real + 0.5 || x == n as real - 0.5) ==> n % 2 == 0
  {
    var low := x.Floor;
    var part := x - low as real;
    if part < 0.5 || (part == 0.5 && low % 2 == 0) then low else low + 1
  }

  /** How many of a stratum's members a pass judges. */
  function Quota(members: nat, always: nat, rate: real, minPerStratum: int): (q: nat)
    ensures q >= always
  {
    Max(always, Min(members, Max(Min(minPerStratum, members), Round(members as real * rate))))
  }

  ghost predicate Keyed(cs: seq<Candidate>) {
    forall i, j :: 0 <= i < j < |cs| ==> cs[i].key != cs[j].key
  }

  ghost predicate Permutes(shuffle: (nat, seq<Candidate>) -> seq<Candidate>) {
    forall i, s :: multiset(shuffle(i, s)) == multiset(s)
  }

  // ---- Lists without repeats -------------------------------------------------------------

  lemma {:induction false} DistinctCounts<T>(s: seq<T>)
    ensures Distinct(s) <==> forall x :: x in s ==> multiset(s)[x] == 1
  {
    if s != [] {
      var n := |s| - 1;
      DistinctCounts(s[..n]);
      assert s == s[..n] + [s[n]];
      if Distinct(s) { assert s[n] !in s[..n]; }
      if forall x :: x in s ==> multiset(s)[x] == 1 {
        forall x | x in s[..n] ensures multiset(s[..n])[x] == 1 { assert multiset(s)[x] == 1; }
        assert multiset(s)[s[n]] == 1;
        assert s[n] !in s[..n];
      }
    }
  }

  lemma PermutationDistinct<T>(s: seq<T>, t: seq<T>)
    requires Distinct(s) && multiset(s) == multiset(t)
    ensures Distinct(t) && |t| == |s| && forall x :: x in t <==> x in s
  {
    DistinctCounts(s);
    DistinctCounts(t);
    assert forall x :: x in t <==> x in multiset(t);
    assert |s| == |multiset(s)| && |t| == |multiset(t)|;
  }

  lemma {:induction false} KeepDistinct<T(!new)>(p: T -> bool, s: seq<T>)
    requires Distinct(s)
    ensures Distinct(Keep(p, s))
  {
    if s != [] {
      KeepDistinct(p, s[..|s| - 1]);
      assert s[|s| - 1] !in s[..|s| - 1];
    }
  }

  lemma {:induction false} KeepSplits<T(!new)>(p: T -> bool, q: T -> bool, s: seq<T>)
    requires forall x :: x in s ==> q(x) == !p(x)
    ensures |Keep(p, s)| + |Keep(q, s)| == |s|
  {
    if s != [] {
      var n := |s| - 1;
      forall x | x in s[..n] ensures q(x) == !p(x) { assert x in s; }
      KeepSplits(p, q, s[..n]);
    }
  }

  lemma {:induction false} KeepAgree<T(!new)>(p: T -> bool, q: T -> bool, s: seq<T>)
    requires forall x :: x in s ==> p(x) == q(x)
    ensures Keep(p, s) == Keep(q, s)
  {
    if s != [] {
      var n := |s| - 1;
      forall x | x in s[..n] ensures p(x) == q(x) { assert x in s; }
      KeepAgree(p, q, s[..n]);
    }
  }

  lemma KeepLast<T(!new)>(p: T -> bool, s: seq<T>, x: T)
    ensures Keep(p, s + [x]) == Keep(p, s) + if p(x) then [x] else []
  {
    assert (s + [x])[..|s|] == s;
  }

  lemma Regroup<T>(all: seq<T>, a: seq<T>, b: seq<T>, y: seq<T>, z: seq<T>)
    requires all == (a + b) + y && z == b + y
    ensures all == a + z
  {}

  lemma {:induction false} KeepAppend<T(!new)>(p: T -> bool, s: seq<T>, t: seq<T>)
    ensures Keep(p, s + t) == Keep(p, s) + Keep(p, t)
  {
    if t == [] {
      assert s + t == s;
    } else {
      var n := |t| - 1;
      var u, x := t[..n], t[n];
      KeepAppend(p, s, u);
      assert u + [x] == t && s + t == (s + u) + [x];
      KeepLast(p, s + u, x);
      KeepLast(p, u, x);
      Regroup(Keep(p, s + t), Keep(p, s), Keep(p, u), if p(x) then [x] else [], Keep(p, t));
    }
  }

  lemma {:induction false} KeepAll<T(!new)>(p: T -> bool, s: seq<T>)
    ensures (forall x :: x in s ==> p(x)) ==> Keep(p, s) == s
    ensures (forall x :: x in s ==> !p(x)) ==> Keep(p, s) == []
  {
    if s != [] {
      var n := |s| - 1;
      assert s == s[..n] + [s[n]];
      KeepAll(p, s[..n]);
    }
  }

  lemma {:induction false} KeepTwice<T(!new)>(p: T -> bool, q: T -> bool, s: seq<T>)
    ensures Keep(p, Keep(q, s)) == Keep(q, Keep(p, s))
  {
    if s != [] {
      var n := |s| - 1;
      KeepTwice(p, q, s[..n]);
      var one := [s[n]];
      assert one[..0] == [];
      KeepAppend(p, Keep(q, s[..n]), if q(s[n]) then one else []);
      KeepAppend(q, Keep(p, s[..n]), if p(s[n]) then one else []);
    }
  }

  /** Two repeat-free lists of which one contains the other and is no longer are the same set. */
  lemma {:induction false} SameSizeCovers<T(!new)>(big: seq<T>, small: seq<T>)
    requires Distinct(big) && Distinct(small) && |small| == |big|
    requires forall x :: x in small ==> x in big
    ensures forall x :: x in big ==> x in small
  {
    if small != [] {
      var n := |small| - 1;
      var last := small[n];
      assert last in big;
      var k :| 0 <= k < |big| && big[k] == last;
      var rest := big[..k] + big[k + 1..];
      assert forall x :: x in big <==> x in rest || x == last;
      assert last !in rest && last !in small[..n];
      forall x | x in small[..n] ensures x in rest { assert x in small; }
      SameSizeCovers(rest, small[..n]);
    }
  }

  // ---- The selection ---------------------------------------------------------------------

  function KeysOf(cs: seq<Candidate>): (r: set<Key>)
    ensures forall k :: k in r <==> exists c :: c in cs && c.key == k
  {
    set c | c in cs :: c.key
  }

  ghost predicate Chosen(cs: seq<Candidate>, selected: seq<Candidate>) {
    && Distinct(selected)
    && (forall c :: c in selected ==> c in cs)
    && (forall c :: c in cs && c.alwaysJudge ==> c in selected)
  }

  ghost predicate Filled(cs: seq<Candidate>, selected: seq<Candidate>, st: Stratum, rate: real, minPerStratum: int) {
    |Members(selected, st)| == Quota(|Members(cs, st)|, |Always(Members(cs, st))|, rate, minPerStratum)
  }

  /** Done strata hold their quota, the others their always-judge members only. */
  ghost predicate Quotas(cs: seq<Candidate>, selected: seq<Candidate>, done: seq<Stratum>, rate: real,
                         minPerStratum: int) {
    && (forall st :: st in done ==> Filled(cs, selected, st, rate, minPerStratum))
    && (forall st :: st !in done ==> Members(selected, st) == Always(Members(cs, st)))
  }

  lemma KeyedMeansSame(cs: seq<Candidate>, c: Candidate, d: Candidate)
    requires Keyed(cs) && c in cs && d in cs && c.key == d.key
    ensures c == d
  {}

  /** Before its turn, a stratum's members with a selected key are its always-judge members. */
  lemma UntouchedStratum(cs: seq<Candidate>, selected: seq<Candidate>, done: seq<Stratum>, st: Stratum, rate: real,
                         minPerStratum: int)
    requires Keyed(cs) && Chosen(cs, selected) && Quotas(cs, selected, done, rate, minPerStratum) && st !in done
    ensures Distinct(Members(cs, st))
    ensures forall c :: c in Members(cs, st) ==> (c.key in KeysOf(selected) <==> c.alwaysJudge)
  {
    KeepDistinct((c: Candidate) => StratumOf(c) == st, cs);
    forall c | c in Members(cs, st) && c.key in KeysOf(selected) ensures c.alwaysJudge {
      var d :| d in selected && d.key == c.key;
      KeyedMeansSame(cs, c, d);
      assert c in Members(selected, st);
      assert c in Always(Members(cs, st));
    }
  }

  lemma MembersAfterPick(selected: seq<Candidate>, picked: seq<Candidate>, st: Stratum, t: Stratum)
    requires forall c :: c in picked ==> StratumOf(c) == st
    ensures Members(selected + picked, t) == Members(selected, t) + (if t == st then picked else [])
  {
    KeepAppend((c: Candidate) => StratumOf(c) == t, selected, picked);
    KeepAll((c: Candidate) => StratumOf(c) == t, picked);
  }

  lemma PickIsNew(cs: seq<Candidate>, selected: seq<Candidate>, st: Stratum, c: Candidate)
    requires Members(selected, st) == Always(Members(cs, st)) && StratumOf(c) == st && !c.alwaysJudge
    ensures c !in selected
  {
    assert c !in Always(Members(cs, st));
    assert c !in Members(selected, st);
  }

  /** picked is what one turn of the strata loop may add. */
  ghost predicate Pickable(cs: seq<Candidate>, st: Stratum, picked: seq<Candidate>, rate: real, minPerStratum: int) {
    && Distinct(picked) && (forall c :: c in picked ==> c in Members(cs, st) && !c.alwaysJudge)
    && |Always(Members(cs, st))| + |picked| == Quota(|Members(cs, st)|, |Always(Members(cs, st))|, rate, minPerStratum)
  }

  lemma PickKeepsChosen(cs: seq<Candidate>, selected: seq<Candidate>, st: Stratum, picked: seq<Candidate>)
    requires Chosen(cs, selected) && Members(selected, st) == Always(Members(cs, st)) && Distinct(picked)
    requires forall c :: c in picked ==> c in Members(cs, st) && !c.alwaysJudge
    ensures Chosen(cs, selected + picked) && KeysOf(selected + picked) == KeysOf(selected) + KeysOf(picked)
  {
    forall c | c in picked ensures c !in selected { PickIsNew(cs, selected, st, c); }
    var all := selected + picked;
    assert forall c :: c in all <==> c in selected || c in picked;
  }

  lemma PickKeepsQuotas(cs: seq<Candidate>, selected: seq<Candidate>, done: seq<Stratum>, st: Stratum,
                        picked: seq<Candidate>,
                        rate: real, minPerStratum: int)
    requires Quotas(cs, selected, done, rate, minPerStratum) && st !in done
             && Pickable(cs, st, picked, rate, minPerStratum)
    ensures Quotas(cs, selected + picked, done + [st], rate, minPerStratum)
  {
    var all := selected + picked;
    forall t: Stratum ensures Members(all, t) == Members(selected, t) + (if t == st then picked else []) {
      MembersAfterPick(selected, picked, st, t);
    }
    forall t | t in done + [st] ensures Filled(cs, all, t, rate, minPerStratum) {
      if t != st { assert t in done && Members(all, t) == Members(selected, t); }
    }
    forall t | t !in done + [st] ensures Members(all, t) == Always(Members(cs, t)) {
      assert t !in done && t != st;
    }
  }

  lemma NoMembers(cs: seq<Candidate>, st: Stratum)
    requires forall c :: c in cs ==> StratumOf(c) != st
    ensures Members(cs, st) == []
  {
    KeepAll((c: Candidate) => StratumOf(c) == st, cs);
  }

  ghost predicate Grouped(cs: seq<Candidate>, order: seq<Stratum>, groups: map<Stratum, seq<Candidate>>) {
    && order == StrataOf(cs) && Distinct(order) && (forall st :: st in order <==> st in groups)
    && (forall st :: st in groups ==> groups[st] == Members(cs, st))
    && (forall c :: c in cs ==> StratumOf(c) in groups)
  }

  lemma GroupOneMore(cs: seq<Candidate>, order: seq<Stratum>, groups: map<Stratum, seq<Candidate>>, c: Candidate)
    requires Grouped(cs, order, groups)
    ensures var st := StratumOf(c);
            var order' := if st in groups then order else order + [st];
            var groups' := if st in groups then groups else groups[st := []];
            Grouped(cs + [c], order', groups'[st := groups'[st] + [c]])
  {
    var st := StratumOf(c);
    assert (cs + [c])[..|cs|] == cs;
    if st !in groups { NoMembers(cs, st); }
  }

  lemma GroupNext(cs: seq<Candidate>, i: nat, order: seq<Stratum>, groups: map<Stratum, seq<Candidate>>)
    requires i < |cs| && Grouped(cs[..i], order, groups)
    ensures var st := StratumOf(cs[i]);
            var order' := if st in groups then order else order + [st];
            var groups' := if st in groups then groups else groups[st := []];
            Grouped(cs[..i + 1], order', groups'[st := groups'[st] + [cs[i]]])
  {
    var done, more := cs[..i], cs[..i + 1];
    assert more == done + [cs[i]];
    GroupOneMore(done, order, groups, cs[i]);
  }

  /** The strata in the order they are first seen, each with its members in order. */
  method Group(cs: seq<Candidate>) returns (order: seq<Stratum>, groups: map<Stratum, seq<Candidate>>)
    ensures Grouped(cs, order, groups)
  {
    order, groups := [], map[];
    for i := 0 to |cs|
      invariant Grouped(cs[..i], order, groups)
    {
      var st := StratumOf(cs[i]);
      GroupNext(cs, i, order, groups);
      if st !in groups {
        order, groups := order + [st], groups[st := []];
      }
      groups := groups[st := groups[st] + [cs[i]]];
    }
    assert cs[..|cs|] == cs;
  }

  lemma StartSelecting(cs: seq<Candidate>, rate: real, minPerStratum: int)
    requires Keyed(cs)
    ensures Chosen(cs, Always(cs)) && Quotas(cs, Always(cs), [], rate, minPerStratum)
  {
    KeepDistinct((c: Candidate) => c.alwaysJudge, cs);
    forall st: Stratum ensures Members(Always(cs), st) == Always(Members(cs, st)) {
      KeepTwice((c: Candidate) => StratumOf(c) == st, (c: Candidate) => c.alwaysJudge, cs);
    }
  }

  /** One turn of the strata loop. */
  method Pick(members: seq<Candidate>, keys: set<Key>, rate: real, minPerStratum: int,
              shuffle: (nat, seq<Candidate>) -> seq<Candidate>, j: nat)
    returns (picked: seq<Candidate>, line: Line)
    requires Permutes(shuffle) && Distinct(members)
    requires forall c :: c in members ==> (c.key in keys <==> c.alwaysJudge)
    ensures Distinct(picked) && forall c :: c in picked ==> c in members && !c.alwaysJudge
    ensures |Always(members)| + |picked| == Quota(|members|, |Always(members)|, rate, minPerStratum)
    ensures line == Line(|members|, |Always(members)| + |picked|) && picked <= shuffle(j, Others(members))
  {
    var chosen, left := (c: Candidate) => c.key in keys, (c: Candidate) => c.key !in keys;
    var already := |Keep(chosen, members)|;
    var remaining := Keep(left, members);
    KeepAgree(chosen, (c: Candidate) => c.alwaysJudge, members);
    KeepAgree(left, (c: Candidate) => !c.alwaysJudge, members);
    KeepSplits(chosen, left, members);
    KeepDistinct(left, members);
    var shuffled := shuffle(j, remaining);
    PermutationDistinct(remaining, shuffled);

    var floor := Min(minPerStratum, |members|);
    var byRate := Round(|members| as real * rate);
    var target := Max(0, Min(Max(floor, byRate) - already, |remaining|));
    picked := shuffled[..target];
    line := Line(|members|, already + |picked|);
    forall c | c in picked ensures c in members && !c.alwaysJudge { assert c in shuffled; }
  }

  /** A stratum's eligible members, and how many of them are judged. */
  function LineDue(cs: seq<Candidate>, rate: real, minPerStratum: int): Stratum -> Line {
    (st: Stratum) => Line(|Members(cs, st)|, Quota(|Members(cs, st)|, |Always(Members(cs, st))|, rate, minPerStratum))
  }

  // ---- The order of the selection ----------------------------------------------------------

  /** Stratum by stratum, each with a prefix of its shuffled candidates. */
  ghost predicate Blocks(cs: seq<Candidate>, rest: seq<Candidate>, done: seq<Stratum>,
                         shuffle: (nat, seq<Candidate>) -> seq<Candidate>)
    decreases |done|
  {
    if done == [] then rest == []
    else
      var n := |done| - 1;
      exists k :: 0 <= k <= |rest| && Blocks(cs, rest[..k], done[..n], shuffle)
                  && rest[k..] <= shuffle(n, Others(Members(cs, done[n])))
  }

  /** The always-judge candidates first, in the order given. */
  ghost predicate Ordered(cs: seq<Candidate>, selected: seq<Candidate>, done: seq<Stratum>,
                          shuffle: (nat, seq<Candidate>) -> seq<Candidate>) {
    Always(cs) <= selected && Blocks(cs, selected[|Always(cs)|..], done, shuffle)
  }

  lemma OrderedNext(cs: seq<Candidate>, selected: seq<Candidate>, done: seq<Stratum>,
                    shuffle: (nat, seq<Candidate>) -> seq<Candidate>, st: Stratum, picked: seq<Candidate>)
    requires Ordered(cs, selected, done, shuffle) && picked <= shuffle(|done|, Others(Members(cs, st)))
    ensures Ordered(cs, selected + picked, done + [st], shuffle)
  {
    var a := |Always(cs)|;
    var was, now, all := selected[a..], (selected + picked)[a..], done + [st];
    assert now[..|was|] == was && now[|was|..] == picked && all[..|done|] == done;
  }

  // ---- The report ----------------------------------------------------------------------------

  /** Position i is the last stratum with this name. */
  ghost predicate LastWith(done: seq<Stratum>, name: string, i: nat) {
    i < |done| && Label(done[i]) == name && forall j :: i < j < |done| ==> Label(done[j]) != name
  }

  ghost predicate Speaks(line: Line, name: string, done: seq<Stratum>, due: Stratum -> Line) {
    exists i: nat :: LastWith(done, name, i) && line == due(done[i])
  }

  /** A line for every name: the line due to the last stratum that goes by it. */
  ghost predicate Report(strata: map<string, Line>, done: seq<Stratum>, due: Stratum -> Line) {
    && (forall st :: st in done ==> Label(st) in strata)
    && (forall l :: l in strata ==> Speaks(strata[l], l, done, due))
  }

  lemma LastStays(done: seq<Stratum>, st: Stratum, name: string, line: Line, due: Stratum -> Line)
    requires Speaks(line, name, done, due) && Label(st) != name
    ensures Speaks(line, name, done + [st], due)
  {
    var i: nat :| LastWith(done, name, i) && line == due(done[i]);
    assert LastWith(done + [st], name, i) && (done + [st])[i] == done[i];
  }

  lemma ReportNext(strata: map<string, Line>, done: seq<Stratum>, due: Stratum -> Line, st: Stratum)
    requires Report(strata, done, due)
    ensures Report(strata[Label(st) := due(st)], done + [st], due)
  {
    var more, now := done + [st], strata[Label(st) := due(st)];
    assert LastWith(more, Label(st), |done|) && more[|done|] == st;
    forall l | l in now && l != Label(st) ensures Speaks(now[l], l, more, due) {
      LastStays(done, st, l, strata[l], due);
    }
  }

  ghost predicate OwnLabels(order: seq<Stratum>) {
    forall i, j :: 0 <= i < j < |order| ==> Label(order[i]) != Label(order[j])
  }

  function LabelsOf(order: seq<Stratum>): set<string> {
    set st | st in order :: Label(st)
  }

  lemma LabelsOneMore(most: seq<Stratum>, st: Stratum, order: seq<Stratum>)
    requires order == most + [st]
    ensures LabelsOf(order) == LabelsOf(most) + {Label(st)}
    ensures OwnLabels(order) <==> OwnLabels(most) && Label(st) !in LabelsOf(most)
  {
    if Label(st) in LabelsOf(most) {
      var x :| x in most && Label(x) == Label(st);
      var i :| 0 <= i < |most| && most[i] == x;
      assert order[i] == x && order[|most|] == st;
    } else {
      forall i | 0 <= i < |most| ensures Label(order[i]) != Label(st) { assert most[i] in most; }
      if OwnLabels(order) {
        forall i, j | 0 <= i < j < |most| ensures Label(most[i]) != Label(most[j]) {
          assert order[i] == most[i] && order[j] == most[j];
        }
      }
    }
  }

  lemma {:induction false} LabelsCount(order: seq<Stratum>)
    ensures |LabelsOf(order)| <= |order|
    ensures |LabelsOf(order)| == |order| <==> OwnLabels(order)
  {
    if order != [] {
      var n := |order| - 1;
      var most, l := order[..n], Label(order[n]);
      LabelsCount(most);
      assert order == most + [order[n]];
      LabelsOneMore(most, order[n], order);
      if l in LabelsOf(most) { assert LabelsOf(order) == LabelsOf(most); }
    }
  }

  lemma ReportNames(strata: map<string, Line>, order: seq<Stratum>, due: Stratum -> Line)
    requires Report(strata, order, due)
    ensures strata.Keys == LabelsOf(order)
  {
    forall l | l in strata ensures l in LabelsOf(order) {
      var i: nat :| LastWith(order, l, i) && strata[l] == due(order[i]);
      assert order[i] in order;
    }
  }

  /** The report has a line for every stratum of its own exactly when no two strata share a label,
      and then every stratum's line is the one due to it. */
  lemma ReportFullExactlyWhen(strata: map<string, Line>, order: seq<Stratum>, due: Stratum -> Line)
    requires Report(strata, order, due)
    ensures |strata| == |order| <==> OwnLabels(order)
    ensures OwnLabels(order) ==> forall st :: st in order ==> Label(st) in strata && strata[Label(st)] == due(st)
  {
    LabelsCount(order);
    ReportNames(strata, order, due);
    assert |strata.Keys| == |strata|;
    if OwnLabels(order) {
      forall st | st in order ensures Label(st) in strata && strata[Label(st)] == due(st) {
        var i :| 0 <= i < |order| && order[i] == st;
        var j: nat :| LastWith(order, Label(st), j) && strata[Label(st)] == due(order[j]);
        assert i == j;
      }
    }
  }

  lemma {:induction false} OneHarness(cs: seq<Candidate>, harness: string)
    requires forall c :: c in cs ==> c.harness == harness
    ensures Distinct(StrataOf(cs)) && forall st :: st in StrataOf(cs) ==> st.harness == harness
  {
    if cs != [] {
      var n := |cs| - 1;
      assert cs[n] in cs;
      OneHarness(cs[..n], harness);
    }
  }

  lemma SameLabel(harness: string, a: string, b: string)
    requires Label(Stratum(harness, a)) == Label(Stratum(harness, b))
    ensures a == b
  {
    var n := |harness| + 1;
    assert (harness + "|" + a)[n..] == a && (harness + "|" + b)[n..] == b;
  }

  /** The candidates of one run have one harness, so that no two of their strata share a label. */
  lemma OneHarnessOwnLabels(cs: seq<Candidate>, harness: string)
    requires forall c :: c in cs ==> c.harness == harness
    ensures OwnLabels(StrataOf(cs))
  {
    var order := StrataOf(cs);
    OneHarness(cs, harness);
    forall i, j | 0 <= i < j < |order| ensures Label(order[i]) != Label(order[j]) {
      assert order[i] in order && order[j] in order;
      if Label(order[i]) == Label(order[j]) { SameLabel(harness, order[i].outcome, order[j].outcome); }
    }
  }

  /** Two strata of a list that mixes harnesses can. */
  lemma LabelsCollide()
    ensures Label(Stratum("a|b", "c")) == Label(Stratum("a", "b|c"))
    ensures !OwnLabels([Stratum("a|b", "c"), Stratum("a", "b|c")])
  {
    var x, y := Stratum("a|b", "c"), Stratum("a", "b|c");
    assert Label(x) == "a|b|c" == Label(y);
    assert [x, y][0] == x && [x, y][1] == y;
  }

  // ---- The strata loop -----------------------------------------------------------------------

  ghost predicate Sampling(cs: seq<Candidate>, selected: seq<Candidate>, strata: map<string, Line>, done: seq<Stratum>,
                           rate: real, minPerStratum: int, shuffle: (nat, seq<Candidate>) -> seq<Candidate>) {
    && Chosen(cs, selected) && Quotas(cs, selected, done, rate, minPerStratum) && Ordered(cs, selected, done, shuffle)
    && Report(strata, done, LineDue(cs, rate, minPerStratum))
  }

  lemma PickedLine(cs: seq<Candidate>, st: Stratum, picked: seq<Candidate>, rate: real, minPerStratum: int)
    requires Pickable(cs, st, picked, rate, minPerStratum)
    ensures LineDue(cs, rate, minPerStratum)(st) == Line(|Members(cs, st)|, |Always(Members(cs, st))| + |picked|)
  {}

  lemma SampleNext(cs: seq<Candidate>, selected: seq<Candidate>, strata: map<string, Line>, done: seq<Stratum>,
                   rate: real, minPerStratum: int, shuffle: (nat, seq<Candidate>) -> seq<Candidate>,
                   st: Stratum, picked: seq<Candidate>, line: Line)
    requires Sampling(cs, selected, strata, done, rate, minPerStratum, shuffle) && st !in done
    requires Pickable(cs, st, picked, rate, minPerStratum) && picked <= shuffle(|done|, Others(Members(cs, st)))
    requires line == LineDue(cs, rate, minPerStratum)(st)
    ensures Sampling(cs, selected + picked, strata[Label(st) := line], done + [st], rate, minPerStratum, shuffle)
    ensures KeysOf(selected + picked) == KeysOf(selected) + KeysOf(picked)
  {
    PickKeepsChosen(cs, selected, st, picked);
    PickKeepsQuotas(cs, selected, done, st, picked, rate, minPerStratum);
    OrderedNext(cs, selected, done, shuffle, st, picked);
    ReportNext(strata, done, LineDue(cs, rate, minPerStratum), st);
  }

  /** No key twice, every always-judge candidate and those first, exactly the quota from every stratum
      in the order of the strata and of their shuffles, and a report of the quotas. */
  ghost predicate IsSample(cs: seq<Candidate>, selected: seq<Candidate>, strata: map<string, Line>, rate: real,
                           minPerStratum: int, shuffle: (nat, seq<Candidate>) -> seq<Candidate>) {
    && Keyed(selected) && (forall c :: c in selected ==> c in cs)
    && (forall c :: c in cs && c.alwaysJudge ==> c in selected)
    && (forall st :: Filled(cs, selected, st, rate, minPerStratum))
    && Ordered(cs, selected, StrataOf(cs), shuffle) && Report(strata, StrataOf(cs), LineDue(cs, rate, minPerStratum))
  }

  /** One stratum's turn. */
  method Turn(ghost cs: seq<Candidate>, selected: seq<Candidate>, keys: set<Key>, strata: map<string, Line>,
              ghost done: seq<Stratum>, st: Stratum, members: seq<Candidate>, rate: real, minPerStratum: int,
              shuffle: (nat, seq<Candidate>) -> seq<Candidate>, j: nat)
    returns (selected': seq<Candidate>, keys': set<Key>, strata': map<string, Line>)
    requires Keyed(cs) && Permutes(shuffle) && Sampling(cs, selected, strata, done, rate, minPerStratum, shuffle)
    requires keys == KeysOf(selected) && st !in done && members == Members(cs, st) && j == |done|
    ensures Sampling(cs, selected', strata', done + [st], rate, minPerStratum, shuffle) && keys' == KeysOf(selected')
  {
    UntouchedStratum(cs, selected, done, st, rate, minPerStratum);
    var picked, line := Pick(members, keys, rate, minPerStratum, shuffle, j);
    PickedLine(cs, st, picked, rate, minPerStratum);
    SampleNext(cs, selected, strata, done, rate, minPerStratum, shuffle, st, picked, line);
    selected', keys', strata' := selected + picked, keys + KeysOf(picked), strata[Label(st) := line];
  }

  lemma StartSampling(cs: seq<Candidate>, rate: real, minPerStratum: int,
                      shuffle: (nat, seq<Candidate>) -> seq<Candidate>)
    requires Keyed(cs)
    ensures Sampling(cs, Always(cs), map[], [], rate, minPerStratum, shuffle)
  {
    StartSelecting(cs, rate, minPerStratum);
  }

  lemma PrefixNext(order: seq<Stratum>, j: nat, done: seq<Stratum>, next: seq<Stratum>)
    requires j < |order| && Distinct(order) && done == order[..j] && next == done + [order[j]]
    ensures next == order[..j + 1] && order[j] !in done
  {}

  method Select(cs: seq<Candidate>, rate: real, minPerStratum: int, shuffle: (nat, seq<Candidate>) -> seq<Candidate>)
    returns (selected: seq<Candidate>, strata: map<string, Line>)
    requires Keyed(cs) && Permutes(shuffle)
    ensures IsSample(cs, selected, strata, rate, minPerStratum, shuffle)
  {
    var order, groups := Group(cs);
    selected := Always(cs);
    var keys := KeysOf(selected);
    strata := map[];
    StartSampling(cs, rate, minPerStratum, shuffle);
    ghost var done: seq<Stratum> := [];
    for j := 0 to |order|
      invariant done == order[..j] && keys == KeysOf(selected)
      invariant Sampling(cs, selected, strata, done, rate, minPerStratum, shuffle)
    {
      var st := order[j];
      ghost var next := done + [st];
      PrefixNext(order, j, done, next);
      selected, keys, strata := Turn(cs, selected, keys, strata, done, st, groups[st], rate, minPerStratum, shuffle, j);
      done := next;
    }
    assert done == order;
    AllSampled(cs, selected, strata, order, rate, minPerStratum, shuffle);
  }

  lemma AllSampled(cs: seq<Candidate>, selected: seq<Candidate>, strata: map<string, Line>, order: seq<Stratum>,
                   rate: real, minPerStratum: int, shuffle: (nat, seq<Candidate>) -> seq<Candidate>)
    requires Keyed(cs) && Sampling(cs, selected, strata, order, rate, minPerStratum, shuffle)
    requires order == StrataOf(cs) && forall c :: c in cs ==> StratumOf(c) in order
    ensures IsSample(cs, selected, strata, rate, minPerStratum, shuffle)
  {
    forall st ensures Filled(cs, selected, st, rate, minPerStratum) {
      if st !in order {
        NoMembers(cs, st);
        NoMembers(selected, st);
      }
    }
    forall i, j | 0 <= i < j < |selected| ensures selected[i].key != selected[j].key {
      assert selected[i] in cs && selected[j] in cs;
    }
  }

  /** One run's report has a line for every stratum, and the right one. */
  lemma OneRunReportsFully(cs: seq<Candidate>, selected: seq<Candidate>, strata: map<string, Line>, rate: real,
                           minPerStratum: int, shuffle: (nat, seq<Candidate>) -> seq<Candidate>, harness: string)
    requires IsSample(cs, selected, strata, rate, minPerStratum, shuffle)
    requires forall c :: c in cs ==> c.harness == harness
    ensures |strata| == |StrataOf(cs)|
    ensures forall st :: st in StrataOf(cs) ==>
              Label(st) in strata && strata[Label(st)] == Line(|Members(cs, st)|, |Members(selected, st)|)
  {
    OneHarnessOwnLabels(cs, harness);
    ReportFullExactlyWhen(strata, StrataOf(cs), LineDue(cs, rate, minPerStratum));
    forall st | st in StrataOf(cs)
      ensures Label(st) in strata && strata[Label(st)] == Line(|Members(cs, st)|, |Members(selected, st)|)
    {
      assert Filled(cs, selected, st, rate, minPerStratum);
      assert strata[Label(st)] == LineDue(cs, rate, minPerStratum)(st);
    }
  }

  // ---- What a quota means ------------------------------------------------------------------

  /** Candidates with this harness and outcome. */
  function CountIn(cs: seq<Candidate>, harness: string, outcome: string): nat {
    if cs == [] then 0
    else
      var c := cs[|cs| - 1];
      CountIn(cs[..|cs| - 1], harness, outcome) + if c.harness == harness && c.outcome == outcome then 1 else 0
  }

  /** And among them those that must be judged. */
  function CountAlways(cs: seq<Candidate>, harness: string, outcome: string): nat {
    if cs == [] then 0
    else
      var c := cs[|cs| - 1];
      CountAlways(cs[..|cs| - 1], harness, outcome)
      + if c.harness == harness && c.outcome == outcome && c.alwaysJudge then 1 else 0
  }

  lemma AlwaysLast(cs: seq<Candidate>, c: Candidate)
    ensures Always(cs + [c]) == Always(cs) + if c.alwaysJudge then [c] else []
  {
    assert (cs + [c])[..|cs|] == cs;
  }

  lemma {:induction false} MembersCount(cs: seq<Candidate>, harness: string, outcome: string)
    ensures |Members(cs, Stratum(harness, outcome))| == CountIn(cs, harness, outcome)
    ensures |Always(Members(cs, Stratum(harness, outcome)))| == CountAlways(cs, harness, outcome)
  {
    if cs != [] {
      var st, n := Stratum(harness, outcome), |cs| - 1;
      MembersCount(cs[..n], harness, outcome);
      var c := cs[n];
      assert StratumOf(c) == st <==> c.harness == harness && c.outcome == outcome;
      AlwaysLast(Members(cs[..n], st), c);
      assert Members(cs, st) == Members(cs[..n], st) + if StratumOf(c) == st then [c] else [];
      assert Members(cs[..n], st) + [] == Members(cs[..n], st);
    }
  }

  lemma QuotaMeans(n: nat, a: nat, rate: real, minPerStratum: int, k: nat)
    requires a <= n && k == Quota(n, a, rate, minPerStratum)
    ensures a <= k <= n
    ensures k >= minPerStratum || k == n
    ensures k as real >= n as real * rate - 0.5 || k == n
    ensures k == a || k <= minPerStratum || k as real <= n as real * rate + 0.5
  {
    var r := Round(n as real * rate);
  }

  /** For every harness and outcome: all that must be judged, and no more than there are; enough for the
      floor and for the rate, unless that is everybody; and no more than one of the three asks for. */
  lemma SampleMeans(cs: seq<Candidate>, selected: seq<Candidate>, rate: real, minPerStratum: int, harness: string,
                    outcome: string, n: nat, a: nat, k: nat)
    requires Filled(cs, selected, Stratum(harness, outcome), rate, minPerStratum)
    requires n == CountIn(cs, harness, outcome) && a == CountAlways(cs, harness, outcome)
    requires k == CountIn(selected, harness, outcome)
    ensures a <= k <= n
    ensures k >= minPerStratum || k == n
    ensures k as real >= n as real * rate - 0.5 || k == n
    ensures k == a || k <= minPerStratum || k as real <= n as real * rate + 0.5
  {
    MembersCount(cs, harness, outcome);
    MembersCount(selected, harness, outcome);
    KeepSplits((c: Candidate) => c.alwaysJudge, (c: Candidate) => !c.alwaysJudge,
      Members(cs, Stratum(harness, outcome)));
    QuotaMeans(n, a, rate, minPerStratum, k);
  }

  /** The strata of more candidates are those seen so far, and then the new ones. */
  lemma {:induction false} StrataGrow(a: seq<Candidate>, b: seq<Candidate>)
    ensures StrataOf(a) <= StrataOf(a + b)
  {
    if b == [] {
      assert a + b == a;
    } else {
      StrataGrow(a, b[..|b| - 1]);
      assert (a + b)[..|a + b| - 1] == a + b[..|b| - 1];
    }
  }

  /** At rate 1.0 every candidate is selected, whatever the floor and the shuffles were. */
  lemma FullRateSelectsAll(cs: seq<Candidate>, selected: seq<Candidate>, minPerStratum: int)
    requires Keyed(cs) && Keyed(selected) && forall c :: c in selected ==> c in cs
    requires forall st :: Filled(cs, selected, st, 1.0, minPerStratum)
    ensures forall c :: c in cs ==> c in selected
  {
    forall c | c in cs ensures c in selected {
      var st := StratumOf(c);
      var all, some := Members(cs, st), Members(selected, st);
      KeepDistinct((c: Candidate) => StratumOf(c) == st, cs);
      KeepDistinct((c: Candidate) => StratumOf(c) == st, selected);
      KeepSplits((c: Candidate) => c.alwaysJudge, (c: Candidate) => !c.alwaysJudge, all);
      assert Filled(cs, selected, st, 1.0, minPerStratum);
      assert |all| as real * 1.0 == |all| as real;
      SameSizeCovers(all, some);
      assert c in all;
    }
  }
}
