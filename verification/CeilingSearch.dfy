/** The search for a provider's safe concurrency: the target first, then bisection downwards.
    What each call of each probe comes back with is a parameter, different from probe to probe. */
module CeilingSearch {
  import opened Options

  /** One call: its status, whether a refusal is classified as overload, when it completed, and
      the usage it reported. */
  datatype Call = Call(status: int, overload: bool, completedAt: real, tokens: Option<nat>)

  datatype Batch = Batch(concurrency: int, window: real, tokensInWindow: nat, successes: nat, overloads: nat,
                         errors: nat) {
    predicate Overloaded() { overloads > 0 }

    predicate Inconclusive() { successes == 0 && overloads == 0 && errors > 0 }

    function Tpm(): real {
      if window <= 0.0 then 0.0 else tokensInWindow as real / window * 60.0
    }
  }

  /** A refusal names its last probe; the trail is what had been fired until then. */
  datatype Discovery = Found(safe: int, tpm: real, probes: seq<Batch>) | Refused(probes: seq<Batch>)

  // ---- One probe -------------------------------------------------------------------------------

  predicate Success(c: Call) { c.status == 200 }

  predicate Overload(c: Call) { !Success(c) && c.overload }

  function Count(p: Call -> bool, calls: seq<Call>): nat {
    if calls == [] then 0 else Count(p, calls[..|calls| - 1]) + if p(calls[|calls| - 1]) then 1 else 0
  }

  /** Usage counts towards the rate only when it was reported, and in time. */
  function TokensIn(calls: seq<Call>, window: real): nat {
    if calls == [] then 0
    else
      var c := calls[|calls| - 1];
      var counts := Success(c) && c.tokens.Some? && c.completedAt <= window;
      TokensIn(calls[..|calls| - 1], window) + if counts then c.tokens.value else 0
  }

  lemma {:induction false} EveryCallCounted(calls: seq<Call>)
    ensures Count(Success, calls) + Count(Overload, calls) + Count((c: Call) => !Success(c) && !Overload(c), calls)
            == |calls|
  {
    if calls != [] { EveryCallCounted(calls[..|calls| - 1]); }
  }

  function BatchOf(level: int, calls: seq<Call>, window: real): Batch {
    Batch(level, window, TokensIn(calls, window), Count(Success, calls), Count(Overload, calls),
          Count((c: Call) => !Success(c) && !Overload(c), calls))
  }

  method Tally(level: int, calls: seq<Call>, window: real) returns (b: Batch)
    ensures b == BatchOf(level, calls, window)
    ensures b.successes + b.overloads + b.errors == |calls|
  {
    var successes: nat, overloads: nat, errors: nat, tokens: nat := 0, 0, 0, 0;
    for i := 0 to |calls|
      invariant Batch(level, window, tokens, successes, overloads, errors) == BatchOf(level, calls[..i], window)
    {
      var c := calls[i];
      assert calls[..i + 1][..i] == calls[..i];
      if c.status == 200 {
        successes := successes + 1;
        if c.tokens.Some? && c.completedAt <= window {
          tokens := tokens + c.tokens.value;
        }
      } else if c.overload {
        overloads := overloads + 1;
      } else {
        errors := errors + 1;
      }
    }
    assert calls[..|calls|] == calls;
    EveryCallCounted(calls);
    b := Batch(level, window, tokens, successes, overloads, errors);
  }

  /** The provider as the search sees it: call k of the n-th probe, fired at some level. */
  datatype Provider = Provider(call: (nat, int, nat) -> Call, window: real)

  function Calls(p: Provider, n: nat, level: int): seq<Call> {
    seq(if level > 0 then level else 0, (k: nat) => p.call(n, level, k))
  }

  function ProbeOf(p: Provider, n: nat, level: int): Batch {
    BatchOf(level, Calls(p, n, level), p.window)
  }

  method Probe(p: Provider, n: nat, level: int) returns (b: Batch)
    ensures b == ProbeOf(p, n, level) && b.concurrency == level
    ensures level > 0 && !b.Overloaded() && !b.Inconclusive() ==> b.successes > 0
  {
    b := Tally(level, Calls(p, n, level), p.window);
  }

  // ---- The search ------------------------------------------------------------------------------

  function Pow2(n: nat): nat {
    if n == 0 then 1 else 2 * Pow2(n - 1)
  }

  /** How often a width can be halved, rounding up, until it is within the tolerance. */
  function Halvings(w: int, tolerance: int): nat
    requires tolerance >= 1
    decreases w
  {
    if w <= tolerance then 0 else 1 + Halvings((w + 1) / 2, tolerance)
  }

  lemma {:induction false} HalvingsMonotone(w: int, w': int, tolerance: int)
    requires tolerance >= 1 && w <= w'
    ensures Halvings(w, tolerance) <= Halvings(w', tolerance)
    decreases w'
  {
    if w > tolerance { HalvingsMonotone((w + 1) / 2, (w' + 1) / 2, tolerance); }
  }

  /** Logarithmically many: halving n times takes a width of more than 2^(n-1) tolerances. */
  lemma {:induction false} HalvingsLogarithmic(w: int, tolerance: int)
    requires tolerance >= 1 && w > tolerance
    ensures Pow2(Halvings(w, tolerance) - 1) * tolerance < w
    decreases w
  {
    var half := (w + 1) / 2;
    if half > tolerance {
      HalvingsLogarithmic(half, tolerance);
      var n := Halvings(half, tolerance);
      assert Pow2(n) * tolerance == 2 * (Pow2(n - 1) * tolerance);
    }
  }

  /** Every probe in the trail was fired, in order, at the level it says. */
  ghost predicate Trail(p: Provider, probes: seq<Batch>) {
    forall i :: 0 <= i < |probes| ==> probes[i] == ProbeOf(p, i, probes[i].concurrency)
  }

  ghost predicate SafeProbe(b: Batch, level: int) {
    b.concurrency == level && !b.Overloaded() && (level > 0 ==> b.successes > 0)
  }

  ghost predicate SomeOverloadedBy(probes: seq<Batch>, level: int) {
    exists i :: 0 <= i < |probes| && probes[i].Overloaded() && probes[i].concurrency <= level
  }

  /** The answer was itself probed, without overload and, above zero, with at least one success,
      and the rate reported is the rate measured there. */
  ghost predicate Backed(safe: int, tpm: real, probes: seq<Batch>) {
    exists i :: 0 <= i < |probes| && SafeProbe(probes[i], safe) && tpm == probes[i].Tpm()
  }

  /** An answer other than the target has an overloaded probe no more than the tolerance above
      it; zero that is not backed has one at the floor. */
  ghost predicate Bracketed(probes: seq<Batch>, safe: int, tpm: real, target: int, floor: int, tolerance: int) {
    || (safe == target && probes != [] && SafeProbe(probes[0], target))
    || (SomeOverloadedBy(probes, target) && Backed(safe, tpm, probes) && SomeOverloadedBy(probes, safe + tolerance))
    || (SomeOverloadedBy(probes, target) && safe == 0 && SomeOverloadedBy(probes, floor))
  }

  /** The bisection under way: the upper end was probed and overloaded, the lower end is the floor
      still taken on trust or a level probed safe. */
  ghost predicate Searching(p: Provider, probes: seq<Batch>, lo: int, hi: int, last: Option<Batch>, target: int,
                            floor: int) {
    && Trail(p, probes) && SomeOverloadedBy(probes, target) && SomeOverloadedBy(probes, hi)
    && (last.None? ==> lo == floor)
    && (last.Some? ==> last.value in probes && SafeProbe(last.value, lo))
  }

  lemma OverloadedStays(probes: seq<Batch>, b: Batch, level: int)
    requires SomeOverloadedBy(probes, level)
    ensures SomeOverloadedBy(probes + [b], level)
  {
    var i :| 0 <= i < |probes| && probes[i].Overloaded() && probes[i].concurrency <= level;
    assert (probes + [b])[i] == probes[i];
  }

  lemma OneMoreProbe(p: Provider, probes: seq<Batch>, lo: int, hi: int, last: Option<Batch>, target: int, floor: int,
                     b: Batch)
    requires Searching(p, probes, lo, hi, last, target, floor) && b == ProbeOf(p, |probes|, b.concurrency)
    ensures Searching(p, probes + [b], lo, hi, last, target, floor)
    ensures b.Overloaded() ==> SomeOverloadedBy(probes + [b], b.concurrency)
    ensures b in probes + [b]
  {
    OverloadedStays(probes, b, target);
    OverloadedStays(probes, b, hi);
    assert (probes + [b])[|probes|] == b;
  }

  lemma BackedBy(probes: seq<Batch>, b: Batch, safe: int)
    requires b in probes && SafeProbe(b, safe)
    ensures Backed(safe, b.Tpm(), probes)
  {
    var i :| 0 <= i < |probes| && probes[i] == b;
    assert SafeProbe(probes[i], safe) && b.Tpm() == probes[i].Tpm();
  }

  lemma WithinTolerance(probes: seq<Batch>, a: int, b: int)
    requires SomeOverloadedBy(probes, a) && a <= b
    ensures SomeOverloadedBy(probes, b)
  {
    var i :| 0 <= i < |probes| && probes[i].Overloaded() && probes[i].concurrency <= a;
    assert probes[i].concurrency <= b;
  }

  // ---- The turns of the loop ---------------------------------------------------------------

  /** The two ends after k turns, of which the first fires probe n. */
  function Ends(p: Provider, n: nat, lo: int, hi: int, k: nat): (int, int)
    decreases k
  {
    if k == 0 then (lo, hi)
    else
      var mid := (lo + hi) / 2;
      if ProbeOf(p, n, mid).Overloaded() then Ends(p, n + 1, lo, mid, k - 1) else Ends(p, n + 1, mid, hi, k - 1)
  }

  lemma {:induction false} EndsOneMore(p: Provider, n: nat, lo: int, hi: int, k: nat)
    ensures var (lo', hi') := Ends(p, n, lo, hi, k);
            Ends(p, n, lo, hi, k + 1) == Ends(p, n + k, lo', hi', 1)
    decreases k
  {
    if k > 0 {
      var mid := (lo + hi) / 2;
      if ProbeOf(p, n, mid).Overloaded() {
        EndsOneMore(p, n + 1, lo, mid, k - 1);
      } else {
        EndsOneMore(p, n + 1, mid, hi, k - 1);
      }
    }
  }

  ghost predicate Wide(p: Provider, n: nat, lo: int, hi: int, tolerance: int, k: nat) {
    forall j: nat :: j < k ==> Ends(p, n, lo, hi, j).1 - Ends(p, n, lo, hi, j).0 > tolerance
  }

  /** The loop is over after at most k turns: its ends are close enough, or a probe said nothing. */
  predicate StopsWithin(p: Provider, n: nat, lo: int, hi: int, tolerance: int, k: nat)
    decreases k
  {
    hi - lo <= tolerance ||
    (k > 0 &&
     var mid := (lo + hi) / 2;
     var b := ProbeOf(p, n, mid);
     b.Inconclusive() || if b.Overloaded() then StopsWithin(p, n + 1, lo, mid, tolerance, k - 1)
                         else StopsWithin(p, n + 1, mid, hi, tolerance, k - 1))
  }

  /** The search comes to an end: at its first probe, or when the loop does. */
  ghost predicate Terminates(p: Provider, target: int, floor: int, tolerance: int) {
    !ProbeOf(p, 0, target).Overloaded() || exists k :: StopsWithin(p, 1, floor, target, tolerance, k)
  }

  /** A positive tolerance bounds the turns by the halvings of the width, whatever the provider. */
  lemma {:induction false} HalvingsSuffice(p: Provider, n: nat, lo: int, hi: int, tolerance: int)
    requires tolerance >= 1
    ensures StopsWithin(p, n, lo, hi, tolerance, Halvings(hi - lo, tolerance))
    decreases hi - lo
  {
    if hi - lo > tolerance {
      var mid := (lo + hi) / 2;
      var k := Halvings((hi - lo + 1) / 2, tolerance);
      if ProbeOf(p, n, mid).Overloaded() {
        HalvingsSuffice(p, n + 1, lo, mid, tolerance);
        HalvingsMonotone(mid - lo, (hi - lo + 1) / 2, tolerance);
        StopsLater(p, n + 1, lo, mid, tolerance, Halvings(mid - lo, tolerance), k);
      } else {
        HalvingsSuffice(p, n + 1, mid, hi, tolerance);
        HalvingsMonotone(hi - mid, (hi - lo + 1) / 2, tolerance);
        StopsLater(p, n + 1, mid, hi, tolerance, Halvings(hi - mid, tolerance), k);
      }
    }
  }

  lemma {:induction false} StopsLater(p: Provider, n: nat, lo: int, hi: int, tolerance: int, k: nat, k': nat)
    requires StopsWithin(p, n, lo, hi, tolerance, k) && k <= k'
    ensures StopsWithin(p, n, lo, hi, tolerance, k')
    decreases k
  {
    if hi - lo > tolerance {
      var mid := (lo + hi) / 2;
      var b := ProbeOf(p, n, mid);
      if b.Inconclusive() {
      } else if b.Overloaded() {
        StopsLater(p, n + 1, lo, mid, tolerance, k - 1, k' - 1);
      } else {
        StopsLater(p, n + 1, mid, hi, tolerance, k - 1, k' - 1);
      }
    }
  }

  /** How far the loop is: `done` turns taken, at most `left` to go. */
  ghost predicate Turned(p: Provider, n: nat, target: int, floor: int, tolerance: int, lo: int, hi: int, done: nat,
                         left: nat) {
    && StopsWithin(p, n + done, lo, hi, tolerance, left)
    && (lo, hi) == Ends(p, n, floor, target, done) && Wide(p, n, floor, target, tolerance, done)
  }

  lemma OneMoreTurn(p: Provider, n: nat, target: int, floor: int, tolerance: int, lo: int, hi: int, done: nat,
                    left: nat)
    requires Turned(p, n, target, floor, tolerance, lo, hi, done, left) && hi - lo > tolerance
    ensures left > 0
    ensures var mid := (lo + hi) / 2;
            var b := ProbeOf(p, n + done, mid);
            !b.Inconclusive() ==>
              if b.Overloaded() then Turned(p, n, target, floor, tolerance, lo, mid, done + 1, left - 1)
              else Turned(p, n, target, floor, tolerance, mid, hi, done + 1, left - 1)
  {
    EndsOneMore(p, n, floor, target, done);
  }

  ghost predicate Bisecting(p: Provider, start: seq<Batch>, target: int, floor: int, tolerance: int, probes: seq<Batch>,
                            lo: int, hi: int, last: Option<Batch>, left: nat) {
    && |start| <= |probes| && Searching(p, probes, lo, hi, last, target, floor)
    && Turned(p, |start|, target, floor, tolerance, lo, hi, |probes| - |start|, left)
  }

  lemma BisectStep(p: Provider, start: seq<Batch>, target: int, floor: int, tolerance: int, probes: seq<Batch>,
                   lo: int, hi: int, last: Option<Batch>, left: nat, b: Batch)
    requires Bisecting(p, start, target, floor, tolerance, probes, lo, hi, last, left) && hi - lo > tolerance
    requires b == ProbeOf(p, |probes|, (lo + hi) / 2) && b.concurrency == (lo + hi) / 2
    requires b.concurrency > 0 && !b.Overloaded() && !b.Inconclusive() ==> b.successes > 0
    ensures left > 0 && Trail(p, probes + [b])
    ensures !b.Inconclusive() ==>
              if b.Overloaded()
              then Bisecting(p, start, target, floor, tolerance, probes + [b], lo, b.concurrency, last, left - 1)
              else Bisecting(p, start, target, floor, tolerance, probes + [b], b.concurrency, hi, Some(b), left - 1)
  {
    OneMoreProbe(p, probes, lo, hi, last, target, floor, b);
    OneMoreTurn(p, |start|, target, floor, tolerance, lo, hi, |probes| - |start|, left);
  }

  /** The loop; it stops early at a probe that says nothing. */
  method Bisect(p: Provider, start: seq<Batch>, target: int, floor: int, tolerance: int)
    returns (probes: seq<Batch>, safeLo: int, unsafeHi: int, lastSafe: Option<Batch>, refused: bool)
    requires Searching(p, start, floor, target, None, target, floor)
    requires exists k :: StopsWithin(p, |start|, floor, target, tolerance, k)
    ensures Trail(p, probes) && |start| <= |probes|
    ensures tolerance >= 1 ==> |probes| <= |start| + Halvings(target - floor, tolerance)
    ensures refused ==> |probes| > |start| && probes[|probes| - 1].Inconclusive()
    ensures !refused ==> unsafeHi - safeLo <= tolerance
    ensures !refused ==> Searching(p, probes, safeLo, unsafeHi, lastSafe, target, floor)
    ensures !refused ==> (safeLo, unsafeHi) == Ends(p, |start|, floor, target, |probes| - |start|)
    ensures !refused ==> Wide(p, |start|, floor, target, tolerance, |probes| - |start|)
  {
    probes, safeLo, unsafeHi, lastSafe, refused := start, floor, target, None, false;
    ghost var turns :| StopsWithin(p, |start|, floor, target, tolerance, turns);
    if tolerance >= 1 {
      HalvingsSuffice(p, |start|, floor, target, tolerance);
      turns := Halvings(target - floor, tolerance);
    }
    ghost var left: nat := turns;
    while unsafeHi - safeLo > tolerance
      invariant |probes| + left == |start| + turns
      invariant Bisecting(p, start, target, floor, tolerance, probes, safeLo, unsafeHi, lastSafe, left)
      decreases left
    {
      var mid := (safeLo + unsafeHi) / 2;
      var result := Probe(p, |probes|, mid);
      BisectStep(p, start, target, floor, tolerance, probes, safeLo, unsafeHi, lastSafe, left, result);
      probes := probes + [result];
      left := left - 1;
      if result.Inconclusive() {
        refused := true;
        return;
      }
      if result.Overloaded() {
        unsafeHi := mid;
      } else {
        safeLo, lastSafe := mid, Some(result);
      }
    }
  }

  /** The floor's own probe, fired when the loop found nothing safe. */
  lemma FloorProbed(p: Provider, probes: seq<Batch>, lo: int, hi: int, target: int, floor: int, b: Batch)
    requires Searching(p, probes, lo, hi, None, target, floor)
    requires b == ProbeOf(p, |probes|, floor) && b.concurrency == floor
    requires floor > 0 && !b.Overloaded() && !b.Inconclusive() ==> b.successes > 0
    ensures Trail(p, probes + [b])
    ensures b.Overloaded() ==> SomeOverloadedBy(probes + [b], target) && SomeOverloadedBy(probes + [b], floor)
    ensures !b.Overloaded() && !b.Inconclusive() ==> Searching(p, probes + [b], lo, hi, Some(b), target, floor)
  {
    OneMoreProbe(p, probes, lo, hi, None, target, floor, b);
  }

  lemma Answered(p: Provider, probes: seq<Batch>, lo: int, hi: int, last: Batch, target: int, floor: int,
                 tolerance: int)
    requires Searching(p, probes, lo, hi, Some(last), target, floor) && hi - lo <= tolerance
    ensures Bracketed(probes, lo, last.Tpm(), target, floor, tolerance) && Backed(lo, last.Tpm(), probes)
  {
    WithinTolerance(probes, hi, lo + tolerance);
    BackedBy(probes, last, lo);
  }

  // ---- What the probes' calls came back with -----------------------------------------------------

  /** The call was refused, and the refusal was one of overload. */
  predicate RefusedCall(p: Provider, n: nat, level: int, k: nat) {
    p.call(n, level, k).status != 200 && p.call(n, level, k).overload
  }

  /** Probe n at this level: no call refused as overload, and some call a success. */
  ghost predicate CleanAt(p: Provider, n: nat, level: int) {
    && (forall k: nat :: k < level ==> !RefusedCall(p, n, level, k))
    && (exists k: nat :: k < level && p.call(n, level, k).status == 200)
  }

  ghost predicate RefusedAt(p: Provider, n: nat, level: int) {
    exists k: nat :: k < level && RefusedCall(p, n, level, k)
  }

  /** The tokens of the first k calls that succeeded, reported them and were back in time. */
  function Earned(p: Provider, n: nat, level: int, k: nat): nat {
    if k == 0 then 0
    else
      var c := p.call(n, level, k - 1);
      Earned(p, n, level, k - 1) +
      if c.status == 200 && c.tokens.Some? && c.completedAt <= p.window then c.tokens.value else 0
  }

  function RateAt(p: Provider, n: nat, level: nat): real {
    if p.window <= 0.0 then 0.0 else Earned(p, n, level, level) as real / p.window * 60.0
  }

  lemma {:induction false} CountSome(q: Call -> bool, calls: seq<Call>)
    ensures Count(q, calls) > 0 <==> exists k :: 0 <= k < |calls| && q(calls[k])
  {
    if calls != [] {
      var m := |calls| - 1;
      CountSome(q, calls[..m]);
      if k :| 0 <= k < m && q(calls[..m][k]) { assert q(calls[k]); }
      if k :| 0 <= k < |calls| && q(calls[k]) { if k < m { assert q(calls[..m][k]); } }
    }
  }

  lemma {:induction false} EarnedIn(p: Provider, n: nat, level: int, k: nat)
    requires k <= |Calls(p, n, level)|
    ensures TokensIn(Calls(p, n, level)[..k], p.window) == Earned(p, n, level, k)
  {
    if k > 0 {
      EarnedIn(p, n, level, k - 1);
      assert Calls(p, n, level)[..k][..k - 1] == Calls(p, n, level)[..k - 1];
    }
  }

  lemma ProbeMeans(p: Provider, n: nat, level: int, b: Batch)
    requires b == ProbeOf(p, n, level)
    ensures b.Overloaded() <==> RefusedAt(p, n, level)
    ensures b.successes > 0 <==> exists k: nat :: k < level && p.call(n, level, k).status == 200
    ensures level >= 0 ==> b.Tpm() == RateAt(p, n, level)
  {
    var calls := Calls(p, n, level);
    CountSome(Overload, calls);
    CountSome(Success, calls);
    if k :| 0 <= k < |calls| && Overload(calls[k]) { assert RefusedCall(p, n, level, k); }
    if RefusedAt(p, n, level) {
      var k: nat :| k < level && RefusedCall(p, n, level, k);
      assert Overload(calls[k]);
    }
    if k :| 0 <= k < |calls| && Success(calls[k]) { assert p.call(n, level, k).status == 200; }
    if exists k: nat :: k < level && p.call(n, level, k).status == 200 {
      var k: nat :| k < level && p.call(n, level, k).status == 200;
      assert Success(calls[k]);
    }
    EarnedIn(p, n, level, |calls|);
    assert calls[..|calls|] == calls;
  }

  /** The answer's own probe: none of its calls was refused as overload, one succeeded, and the rate is
      that of its tokens. */
  ghost predicate AnswerCalled(p: Provider, probes: seq<Batch>, safe: int, tpm: real) {
    exists n :: 0 <= n < |probes| && safe > 0 && probes[n].concurrency == safe && CleanAt(p, n, safe)
      && tpm == RateAt(p, n, safe)
  }

  lemma BackedByCalls(p: Provider, probes: seq<Batch>, safe: int, tpm: real)
    requires Trail(p, probes) && Backed(safe, tpm, probes) && safe > 0
    ensures AnswerCalled(p, probes, safe, tpm)
  {
    var n :| 0 <= n < |probes| && SafeProbe(probes[n], safe) && tpm == probes[n].Tpm();
    ProbeMeans(p, n, safe, probes[n]);
    assert CleanAt(p, n, safe);
  }

  /** Some probe at or below the level had a call refused as overload. */
  ghost predicate RefusedBy(p: Provider, probes: seq<Batch>, level: int) {
    exists n :: 0 <= n < |probes| && probes[n].concurrency <= level && RefusedAt(p, n, probes[n].concurrency)
  }

  lemma OverloadedByCalls(p: Provider, probes: seq<Batch>, level: int)
    requires Trail(p, probes) && SomeOverloadedBy(probes, level)
    ensures RefusedBy(p, probes, level)
  {
    var n :| 0 <= n < |probes| && probes[n].Overloaded() && probes[n].concurrency <= level;
    ProbeMeans(p, n, probes[n].concurrency, probes[n]);
  }

  /** Some calls, and every one of them failed for a reason other than overload. */
  ghost predicate ToldNothing(p: Provider, n: nat, level: int) {
    level > 0 && forall k: nat :: k < level ==> p.call(n, level, k).status != 200 && !p.call(n, level, k).overload
  }

  lemma InconclusiveMeans(p: Provider, n: nat, level: int)
    ensures ProbeOf(p, n, level).Inconclusive() <==> ToldNothing(p, n, level)
  {
    var calls := Calls(p, n, level);
    EveryCallCounted(calls);
    CountSome(Overload, calls);
    CountSome(Success, calls);
    if ToldNothing(p, n, level) {
      assert forall k :: 0 <= k < |calls| ==> !Overload(calls[k]) && !Success(calls[k]);
    } else if level > 0 {
      var k: nat :| k < level && !(p.call(n, level, k).status != 200 && !p.call(n, level, k).overload);
      assert Success(calls[k]) || Overload(calls[k]);
    }
  }

  /** What an answer says of the calls: above zero, its own probe was clean; short of the target, a probe
      no more than the tolerance above it, or at the floor, was not. */
  lemma AnswerMeans(p: Provider, probes: seq<Batch>, safe: int, tpm: real, target: int, floor: int, tolerance: int)
    requires Trail(p, probes) && Bracketed(probes, safe, tpm, target, floor, tolerance)
    requires safe > 0 ==> Backed(safe, tpm, probes)
    ensures safe > 0 ==> AnswerCalled(p, probes, safe, tpm)
    ensures safe != target ==>
              RefusedBy(p, probes, safe + tolerance) || (safe == 0 && RefusedBy(p, probes, floor))
  {
    if safe > 0 { BackedByCalls(p, probes, safe, tpm); }
    if SomeOverloadedBy(probes, safe + tolerance) { OverloadedByCalls(p, probes, safe + tolerance); }
    if SomeOverloadedBy(probes, floor) { OverloadedByCalls(p, probes, floor); }
  }

  /** The answer brackets the ceiling and says of the calls what it should. */
  ghost predicate RightAnswer(p: Provider, probes: seq<Batch>, safe: int, tpm: real, target: int, floor: int,
                              tolerance: int) {
    && Trail(p, probes) && Bracketed(probes, safe, tpm, target, floor, tolerance)
    && (safe > 0 ==> Backed(safe, tpm, probes) && AnswerCalled(p, probes, safe, tpm))
    && (safe != target ==> RefusedBy(p, probes, safe + tolerance) || (safe == 0 && RefusedBy(p, probes, floor)))
  }

  lemma TopAnswers(p: Provider, top: Batch, target: int, floor: int, tolerance: int)
    requires top == ProbeOf(p, 0, target) && SafeProbe(top, target)
    ensures RightAnswer(p, [top], target, top.Tpm(), target, floor, tolerance)
  {
    BackedBy([top], top, target);
    AnswerMeans(p, [top], target, top.Tpm(), target, floor, tolerance);
  }

  lemma FloorAnswers(p: Provider, probes: seq<Batch>, last: Batch, target: int, floor: int, tolerance: int)
    requires Trail(p, probes) && SomeOverloadedBy(probes, target) && SomeOverloadedBy(probes, floor)
    ensures RightAnswer(p, probes, 0, last.Tpm(), target, floor, tolerance)
  {
    AnswerMeans(p, probes, 0, last.Tpm(), target, floor, tolerance);
  }

  lemma LoopAnswers(p: Provider, probes: seq<Batch>, lo: int, hi: int, last: Batch, target: int, floor: int,
                    tolerance: int)
    requires Searching(p, probes, lo, hi, Some(last), target, floor) && hi - lo <= tolerance
    ensures RightAnswer(p, probes, lo, last.Tpm(), target, floor, tolerance)
  {
    Answered(p, probes, lo, hi, last, target, floor, tolerance);
    AnswerMeans(p, probes, lo, last.Tpm(), target, floor, tolerance);
  }

  ghost predicate RightRefusal(p: Provider, probes: seq<Batch>) {
    Trail(p, probes) && probes != [] && ToldNothing(p, |probes| - 1, probes[|probes| - 1].concurrency)
  }

  lemma Refuses(p: Provider, probes: seq<Batch>)
    requires Trail(p, probes) && probes != [] && probes[|probes| - 1].Inconclusive()
    ensures RightRefusal(p, probes)
  {
    InconclusiveMeans(p, |probes| - 1, probes[|probes| - 1].concurrency);
  }

  method FindCeiling(p: Provider, target: int, floor: int, tolerance: int) returns (r: Discovery)
    requires Terminates(p, target, floor, tolerance)
    ensures tolerance >= 1 ==> |r.probes| <= 2 + Halvings(target - floor, tolerance)
    ensures r.Refused? ==> RightRefusal(p, r.probes)
    ensures r.Found? ==> RightAnswer(p, r.probes, r.safe, r.tpm, target, floor, tolerance)
  {
    var top := Probe(p, 0, target);
    var probes := [top];
    if top.Inconclusive() {
      Refuses(p, probes);
      return Refused(probes);
    }
    if !top.Overloaded() {
      TopAnswers(p, top, target, floor, tolerance);
      return Found(target, top.Tpm(), probes);
    }

    assert probes[0].Overloaded() && probes[0].concurrency == target;
    var safeLo, unsafeHi, lastSafe, refused;
    probes, safeLo, unsafeHi, lastSafe, refused := Bisect(p, probes, target, floor, tolerance);
    if refused {
      Refuses(p, probes);
      return Refused(probes);
    }
    if lastSafe.None? {
      var floorResult := Probe(p, |probes|, floor);
      FloorProbed(p, probes, safeLo, unsafeHi, target, floor, floorResult);
      probes := probes + [floorResult];
      if floorResult.Inconclusive() {
        Refuses(p, probes);
        return Refused(probes);
      }
      if floorResult.Overloaded() {
        FloorAnswers(p, probes, floorResult, target, floor, tolerance);
        return Found(0, floorResult.Tpm(), probes);
      }
      lastSafe := Some(floorResult);
    }
    LoopAnswers(p, probes, safeLo, unsafeHi, lastSafe.value, target, floor, tolerance);
    r := Found(safeLo, lastSafe.value.Tpm(), probes);
  }

  /** Overload depends on the level alone and, once it sets in, stays. */
  ghost predicate Threshold(p: Provider, over: int -> bool) {
    && (forall n, level :: ProbeOf(p, n, level).Overloaded() == over(level))
    && (forall a, b :: a <= b && over(a) ==> over(b))
  }

  lemma OverloadedByIsOver(p: Provider, over: int -> bool, probes: seq<Batch>, level: int)
    requires Threshold(p, over) && Trail(p, probes) && SomeOverloadedBy(probes, level)
    ensures over(level)
  {
    var i :| 0 <= i < |probes| && probes[i].Overloaded() && probes[i].concurrency <= level;
    assert ProbeOf(p, i, probes[i].concurrency).Overloaded();
  }

  /** For such a provider: the target itself holds, or overload sets in within the tolerance
      above the answer and not at it, or the floor is already too much. */
  lemma CeilingTight(p: Provider, over: int -> bool, probes: seq<Batch>, safe: int, tpm: real, target: int, floor: int,
                     tolerance: int)
    requires Threshold(p, over) && Trail(p, probes) && Bracketed(probes, safe, tpm, target, floor, tolerance)
    ensures || (safe == target && !over(target))
            || (over(target) && !over(safe) && over(safe + tolerance) && safe < target)
            || (over(target) && safe == 0 && over(floor))
  {
    if safe == target && SafeProbe(probes[0], target) {
      assert !ProbeOf(p, 0, target).Overloaded();
    } else {
      OverloadedByIsOver(p, over, probes, target);
      if SomeOverloadedBy(probes, floor) { OverloadedByIsOver(p, over, probes, floor); }
      if SomeOverloadedBy(probes, safe + tolerance) { OverloadedByIsOver(p, over, probes, safe + tolerance); }
      if Backed(safe, tpm, probes) {
        var i :| 0 <= i < |probes| && SafeProbe(probes[i], safe) && tpm == probes[i].Tpm();
        assert !ProbeOf(p, i, safe).Overloaded();
      }
    }
  }

  // ---- Which tolerances the search ends for -------------------------------------------------

  ghost predicate Conclusive(p: Provider) {
    forall n, level :: !ProbeOf(p, n, level).Inconclusive()
  }

  /** The ends never cross, and never meet while the lower one is not overloaded. */
  lemma {:induction false} NeverStops(p: Provider, over: int -> bool, n: nat, lo: int, hi: int, tolerance: int, k: nat)
    requires Threshold(p, over) && Conclusive(p) && over(hi) && lo <= hi
    requires tolerance < 0 || (tolerance == 0 && !over(lo))
    ensures !StopsWithin(p, n, lo, hi, tolerance, k)
    decreases k
  {
    if k > 0 {
      var mid := (lo + hi) / 2;
      assert ProbeOf(p, n, mid).Overloaded() == over(mid) && !ProbeOf(p, n, mid).Inconclusive();
      if over(mid) {
        NeverStops(p, over, n + 1, lo, mid, tolerance, k - 1);
      } else {
        NeverStops(p, over, n + 1, mid, hi, tolerance, k - 1);
      }
    }
  }

  /** With an overloaded lower end every turn brings the upper end down. */
  lemma {:induction false} EndsMeet(p: Provider, over: int -> bool, n: nat, lo: int, hi: int)
    requires Threshold(p, over) && over(lo) && lo <= hi
    ensures StopsWithin(p, n, lo, hi, 0, hi - lo)
    decreases hi - lo
  {
    if lo < hi {
      var mid := (lo + hi) / 2;
      assert ProbeOf(p, n, mid).Overloaded() == over(mid);
      EndsMeet(p, over, n + 1, lo, mid);
      StopsLater(p, n + 1, lo, mid, 0, mid - lo, hi - lo - 1);
    }
  }

  /** From an overloaded target no lower than the floor, where every probe says something, the search ends
      exactly for a tolerance of at least one, or of zero when even the floor is overloaded. */
  lemma EndsExactlyWhen(p: Provider, over: int -> bool, target: int, floor: int, tolerance: int)
    requires Threshold(p, over) && Conclusive(p) && floor <= target && over(target)
    ensures Terminates(p, target, floor, tolerance) <==> (tolerance >= 1 || (tolerance == 0 && over(floor)))
  {
    assert ProbeOf(p, 0, target).Overloaded();
    if tolerance >= 1 {
      HalvingsSuffice(p, 1, floor, target, tolerance);
    } else if tolerance == 0 && over(floor) {
      EndsMeet(p, over, 1, floor, target);
    } else {
      forall k ensures !StopsWithin(p, 1, floor, target, tolerance, k) {
        NeverStops(p, over, 1, floor, target, tolerance, k);
      }
    }
  }

  /** Overloaded from two calls at once on. */
  function Stiff(): Provider {
    Provider((n: nat, level: int, k: nat) => StiffCall(level), 60.0)
  }

  function StiffCall(level: int): Call {
    if level >= 2 then Call(429, true, 0.0, None) else Call(200, false, 0.0, None)
  }

  lemma {:induction false} CountAllOrNone(p: Call -> bool, calls: seq<Call>, c: Call)
    requires forall i :: 0 <= i < |calls| ==> calls[i] == c
    ensures Count(p, calls) == if p(c) then |calls| else 0
  {
    if calls != [] { CountAllOrNone(p, calls[..|calls| - 1], c); }
  }

  lemma StiffProbe(n: nat, level: int)
    ensures var b := ProbeOf(Stiff(), n, level); b.Overloaded() == (level >= 2) && !b.Inconclusive()
  {
    var calls := Calls(Stiff(), n, level);
    CountAllOrNone(Overload, calls, StiffCall(level));
    CountAllOrNone((x: Call) => !Success(x) && !Overload(x), calls, StiffCall(level));
  }

  /** With a tolerance of zero the search between one and two calls for that provider has no end. */
  lemma StandsStill()
    ensures !Terminates(Stiff(), 2, 1, 0)
  {
    forall n, level
      ensures var b := ProbeOf(Stiff(), n, level); b.Overloaded() == (level >= 2) && !b.Inconclusive()
    {
      StiffProbe(n, level);
    }
    EndsExactlyWhen(Stiff(), (level: int) => level >= 2, 2, 1, 0);
  }
}
