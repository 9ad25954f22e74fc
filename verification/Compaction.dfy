/** The pruning agent: when the measured and estimated prompt nears the window, long tool outputs
    in the middle of the conversation are replaced by stubs, until a pass no longer pays. */
module Compaction {
  import opened Options
  import opened Text

  /** `rawOutput` says that the extra data carries an observation; `promptTokens` is zero when the
      provider reported none. */
  datatype Extra = Extra(rawOutput: bool, returncode: string, promptTokens: nat)

  datatype Message = Message(role: string, content: string, extra: Extra, toolCallId: Option<string>)

  datatype Config = Config(contextWindow: nat, outputReserve: nat, compactAt: nat, keepTail: nat, headChars: nat)

  const MARGIN: nat := 200

  // ---- The trigger ----------------------------------------------------------------------------

  function Threshold(c: Config): nat {
    if c.compactAt > 0 then c.compactAt
    else if c.contextWindow <= c.outputReserve then 0
    else c.contextWindow - c.outputReserve
  }

  /** The last reported prompt size, and the text appended since. */
  function Measured(ms: seq<Message>): nat {
    if ms == [] then 0
    else
      var last := ms[|ms| - 1];
      if last.extra.promptTokens > 0 then last.extra.promptTokens else Measured(ms[..|ms| - 1])
  }

  function CharsSince(ms: seq<Message>): Option<nat> {
    if ms == [] then None
    else
      var last := ms[|ms| - 1];
      if last.extra.promptTokens > 0 then Some(0)
      else match CharsSince(ms[..|ms| - 1]) case None => None case Some(n) => Some(n + |last.content|)
  }

  function EstimatedSince(ms: seq<Message>): nat {
    match CharsSince(ms) case None => 0 case Some(n) => n / 4
  }

  function Applied(ms: seq<Message>): nat {
    Measured(ms) + EstimatedSince(ms)
  }

  method MeasuredPromptTokens(ms: seq<Message>) returns (tokens: nat)
    ensures tokens == Measured(ms)
  {
    var i := |ms|;
    assert ms[..i] == ms;
    while i > 0
      invariant 0 <= i <= |ms| && Measured(ms) == Measured(ms[..i])
    {
      i := i - 1;
      assert ms[..i + 1][..i] == ms[..i];
      if ms[i].extra.promptTokens > 0 {
        return ms[i].extra.promptTokens;
      }
    }
    tokens := 0;
  }

  method EstimateSince(ms: seq<Message>) returns (tokens: nat)
    ensures tokens == EstimatedSince(ms)
  {
    var total, seen, i := 0, false, |ms|;
    assert ms[..i] == ms;
    while i > 0 && !seen
      invariant 0 <= i <= |ms|
      invariant seen ==> CharsSince(ms) == Some(total)
      invariant !seen ==> CharsSince(ms) == match CharsSince(ms[..i]) case None => None case Some(n) => Some(n + total)
      decreases i, !seen
    {
      assert ms[..i][..i - 1] == ms[..i - 1];
      if ms[i - 1].extra.promptTokens > 0 {
        seen := true;
      } else {
        i := i - 1;
        total := total + |ms[i].content|;
      }
    }
    tokens := if seen then total / 4 else 0;
  }

  predicate Reports(m: Message) {
    m.extra.promptTokens > 0
  }

  /** Message i is the last one that reports a prompt size. */
  ghost predicate LastReport(ms: seq<Message>, i: nat) {
    i < |ms| && Reports(ms[i]) && forall j :: i < j < |ms| ==> !Reports(ms[j])
  }

  lemma CharsLast(ms: seq<Message>, m: Message)
    ensures Chars(ms + [m]) == Chars(ms) + |m.content|
  {
    assert (ms + [m])[..|ms|] == ms;
  }

  lemma {:induction false} SinceReport(ms: seq<Message>, i: nat)
    requires LastReport(ms, i)
    ensures Measured(ms) == ms[i].extra.promptTokens && CharsSince(ms) == Some(Chars(ms[i + 1..]))
  {
    var n := |ms| - 1;
    if i < n {
      assert !Reports(ms[n]);
      SinceReport(ms[..n], i);
      assert ms[i + 1..] == ms[..n][i + 1..] + [ms[n]];
      CharsLast(ms[..n][i + 1..], ms[n]);
    }
  }

  lemma {:induction false} NoReport(ms: seq<Message>)
    requires forall i :: 0 <= i < |ms| ==> !Reports(ms[i])
    ensures Measured(ms) == 0 && CharsSince(ms) == None
  {
    if ms != [] {
      assert !Reports(ms[|ms| - 1]);
      NoReport(ms[..|ms| - 1]);
    }
  }

  /** Appended text never lowers it. */
  lemma AppliedGrows(ms: seq<Message>, i: nat, m: Message)
    requires LastReport(ms, i) && !Reports(m)
    ensures Applied(ms + [m]) >= Applied(ms)
  {
    var more := ms + [m];
    assert LastReport(more, i) && more[i + 1..] == ms[i + 1..] + [m];
    SinceReport(ms, i);
    SinceReport(more, i);
    CharsLast(ms[i + 1..], m);
  }

  /** The prompt is taken to be the last size reported plus a quarter of the text since, and nothing
      at all before any report. */
  lemma AppliedMeans(ms: seq<Message>, i: nat)
    ensures LastReport(ms, i) ==> Applied(ms) == ms[i].extra.promptTokens + Chars(ms[i + 1..]) / 4
    ensures (forall j :: 0 <= j < |ms| ==> !Reports(ms[j])) ==> Applied(ms) == 0
  {
    if LastReport(ms, i) { SinceReport(ms, i); }
    if forall j :: 0 <= j < |ms| ==> !Reports(ms[j]) { NoReport(ms); }
  }

  predicate Fires(c: Config, ms: seq<Message>, exhausted: bool) {
    Threshold(c) > 0 && Applied(ms) >= Threshold(c) && |ms| > 2 + c.keepTail && !exhausted
  }

  /** A pass fires exactly when there is a threshold, the prompt last reported and a quarter of the text since
      reach it, more than the head and the tail is there, and none has latched; and never before a report. */
  lemma FiresExactlyWhen(c: Config, ms: seq<Message>, i: nat, exhausted: bool, threshold: int)
    requires threshold == if c.compactAt > 0 then c.compactAt as int
                          else if c.contextWindow > c.outputReserve then c.contextWindow - c.outputReserve else 0
    ensures LastReport(ms, i) ==>
              (Fires(c, ms, exhausted) <==>
                 threshold > 0 && ms[i].extra.promptTokens + Chars(ms[i + 1..]) / 4 >= threshold
                 && |ms| > 2 + c.keepTail && !exhausted)
    ensures (forall j :: 0 <= j < |ms| ==> !Reports(ms[j])) ==> !Fires(c, ms, exhausted)
  {
    AppliedMeans(ms, i);
  }

  // ---- The stub -------------------------------------------------------------------------------

  function Boilerplate(length: nat, returncode: string): string {
    "\n[compacted: " + Decimal(length) + " chars elided, returncode=" + returncode
    + ". Full output is in the trajectory. Continue from your most recent conclusion.]"
  }

  predicate Stubbable(c: Config, m: Message) {
    m.extra.rawOutput && (m.role == "tool" || m.role == "user") && |m.content| > c.headChars + MARGIN
  }

  function Stub(c: Config, m: Message): Message
    requires c.headChars <= |m.content|
  {
    Message(m.role, m.content[..c.headChars] + Boilerplate(|m.content|, m.extra.returncode),
            Extra(false, m.extra.returncode, 0), m.toolCallId)
  }

  function Pruned(c: Config, m: Message): Message {
    if Stubbable(c, m) then Stub(c, m) else m
  }

  function PrunedAll(c: Config, ms: seq<Message>): (r: seq<Message>)
    ensures |r| == |ms| && forall i :: 0 <= i < |ms| ==> r[i] == Pruned(c, ms[i])
  {
    seq(|ms|, i requires 0 <= i < |ms| => Pruned(c, ms[i]))
  }

  function Chars(ms: seq<Message>): nat {
    if ms == [] then 0 else Chars(ms[..|ms| - 1]) + |ms[|ms| - 1].content|
  }

  // ---- A pass ----------------------------------------------------------------------------------

  /** A negative slice bound of zero is no bound: with nothing to keep, the tail is everything and
      the middle is empty. */
  function TailOf(c: Config, ms: seq<Message>): seq<Message>
    requires |ms| > 2 + c.keepTail
  {
    if c.keepTail == 0 then ms else ms[|ms| - c.keepTail..]
  }

  function MiddleOf(c: Config, ms: seq<Message>): seq<Message>
    requires |ms| > 2 + c.keepTail
  {
    if c.keepTail == 0 then [] else ms[2..|ms| - c.keepTail]
  }

  predicate Unpaid(before: nat, after: nat) {
    before > 0 && 10 * after > 9 * before
  }

  datatype Agent = Agent(messages: seq<Message>, passes: nat, exhausted: bool)

  function Compacted(c: Config, a: Agent): Agent {
    if !Fires(c, a.messages, a.exhausted) then a
    else
      var middle := MiddleOf(c, a.messages);
      var pruned := PrunedAll(c, middle);
      Agent(a.messages[..2] + pruned + TailOf(c, a.messages), a.passes + 1,
            a.exhausted || Unpaid(Chars(middle), Chars(pruned)))
  }

  method PruneMiddle(c: Config, middle: seq<Message>) returns (pruned: seq<Message>)
    ensures pruned == PrunedAll(c, middle)
  {
    pruned := [];
    for i := 0 to |middle|
      invariant |pruned| == i && forall j :: 0 <= j < i ==> pruned[j] == Pruned(c, middle[j])
    {
      var m := middle[i];
      if m.extra.rawOutput && (m.role == "tool" || m.role == "user") {
        if |m.content| <= c.headChars + MARGIN {
          pruned := pruned + [m];
        } else {
          pruned := pruned + [Stub(c, m)];
        }
      } else {
        pruned := pruned + [m];
      }
    }
  }

  class PruningAgent {
    const config: Config
    var messages: seq<Message>
    var passes: nat
    var exhausted: bool

    function View(): Agent
      reads this
    {
      Agent(messages, passes, exhausted)
    }

    constructor (config: Config)
      ensures View() == Agent([], 0, false) && this.config == config
    {
      this.config := config;
      messages, passes, exhausted := [], 0, false;
    }

    method CompactIfNeeded()
      modifies this
      ensures View() == Compacted(config, old(View()))
    {
      var threshold := Threshold(config);
      if threshold == 0 {
        return;
      }
      var ms := messages;
      var measured := MeasuredPromptTokens(ms);
      var estimated := EstimateSince(ms);
      var applied := measured + estimated;
      if applied < threshold {
        return;
      }
      if |ms| <= 2 + config.keepTail {
        return;
      }
      if exhausted {
        return;
      }
      assert Fires(config, ms, exhausted);
      var head, tail, middle := ms[..2], TailOf(config, ms), MiddleOf(config, ms);
      var pruned := PruneMiddle(config, middle);
      messages := head + pruned + tail;
      passes := passes + 1;
      var charsBefore, charsAfter := Chars(middle), Chars(pruned);
      if charsBefore > 0 && 10 * charsAfter > 9 * charsBefore {
        exhausted := true;
      }
    }
  }

  // ---- What a pass keeps -------------------------------------------------------------------------

  /** Everything but the stubbed texts: position, role, tool call and the text's head. */
  ghost predicate Faithful(c: Config, was: Message, now: Message) {
    now == was || (Stubbable(c, was) && now == Stub(c, was))
  }

  lemma PassAt(c: Config, a: Agent, i: nat)
    requires c.keepTail >= 1 && Fires(c, a.messages, a.exhausted) && i < |a.messages|
    ensures var ms := Compacted(c, a).messages;
            && |ms| == |a.messages|
            && ms[i] == if 2 <= i < |a.messages| - c.keepTail then Pruned(c, a.messages[i]) else a.messages[i]
  {}

  /** A pass keeps count, order, roles, tool call ids, the first two messages and the tail. */
  lemma PassKeeps(c: Config, a: Agent)
    requires c.keepTail >= 1
    ensures var ms := Compacted(c, a).messages;
            && |ms| == |a.messages|
            && (forall i :: 0 <= i < |ms| ==>
                  ms[i].role == a.messages[i].role && ms[i].toolCallId == a.messages[i].toolCallId)
            && (forall i :: 0 <= i < |ms| && (i < 2 || i >= |ms| - c.keepTail) ==> ms[i] == a.messages[i])
            && (forall i :: 0 <= i < |ms| ==> Faithful(c, a.messages[i], ms[i]))
  {
    if Fires(c, a.messages, a.exhausted) {
      forall i | 0 <= i < |a.messages|
        ensures |Compacted(c, a).messages| == |a.messages| && Faithful(c, a.messages[i], Compacted(c, a).messages[i])
        ensures (i < 2 || i >= |a.messages| - c.keepTail) ==> Compacted(c, a).messages[i] == a.messages[i]
      {
        PassAt(c, a, i);
      }
    }
  }

  /** With nothing kept at the tail a pass does not prune at all: it repeats the first two
      messages in front of the conversation. */
  lemma NoTailRepeatsHead(c: Config, a: Agent)
    requires c.keepTail == 0 && Fires(c, a.messages, a.exhausted)
    ensures Compacted(c, a).messages == a.messages[..2] + a.messages && !Compacted(c, a).exhausted
  {
    assert a.messages[..2] + [] + a.messages == a.messages[..2] + a.messages;
  }

  /** What the boilerplate holds besides the two numbers. */
  const FIXED_CHARS: nat := 118

  lemma BoilerplateLength(length: nat, returncode: string)
    ensures |Boilerplate(length, returncode)| == FIXED_CHARS + |Decimal(length)| + |returncode|
  {
    assert |"\n[compacted: "| == 13 && |" chars elided, returncode="| == 26;
    assert |". Full output is in the trajectory. Continue from your most recent conclusion.]"| == 79;
  }

  /** A stub saves text exactly when its fixed text, the digits of the length and the return code are
      together shorter than what it leaves out; with at most 82 characters for the two it always does. */
  lemma StubSavesExactlyWhen(c: Config, m: Message)
    requires Stubbable(c, m)
    ensures var written := FIXED_CHARS + |Decimal(|m.content|)| + |m.extra.returncode|;
            && (|Stub(c, m).content| < |m.content| <==> written < |m.content| - c.headChars)
            && (|Decimal(|m.content|)| + |m.extra.returncode| <= 82 ==> |Stub(c, m).content| < |m.content|)
  {
    BoilerplateLength(|m.content|, m.extra.returncode);
  }

  /** Every stub of the pass fits the margin. */
  ghost predicate FitsMargin(c: Config, ms: seq<Message>) {
    forall i :: 0 <= i < |ms| && Stubbable(c, ms[i])
      ==> |Boilerplate(|ms[i].content|, ms[i].extra.returncode)| <= MARGIN
  }

  lemma PrunedShorter(c: Config, m: Message)
    requires Stubbable(c, m) ==> |Boilerplate(|m.content|, m.extra.returncode)| <= MARGIN
    ensures |Pruned(c, m).content| <= |m.content|
    ensures Stubbable(c, m) ==> |Pruned(c, m).content| < |m.content|
  {
    if Stubbable(c, m) {
      BoilerplateLength(|m.content|, m.extra.returncode);
      StubSavesExactlyWhen(c, m);
    }
  }

  lemma {:induction false} PruningShrinks(c: Config, ms: seq<Message>)
    requires FitsMargin(c, ms)
    ensures Chars(PrunedAll(c, ms)) <= Chars(ms)
    ensures (exists i :: 0 <= i < |ms| && Stubbable(c, ms[i])) ==> Chars(PrunedAll(c, ms)) < Chars(ms)
  {
    if ms != [] {
      var n := |ms| - 1;
      assert PrunedAll(c, ms)[..n] == PrunedAll(c, ms[..n]);
      PruningShrinks(c, ms[..n]);
      PrunedShorter(c, ms[n]);
      if i :| 0 <= i < n && Stubbable(c, ms[i]) { assert Stubbable(c, ms[..n][i]); }
    }
  }

  lemma {:induction false} CharsAppend(a: seq<Message>, b: seq<Message>)
    ensures Chars(a + b) == Chars(a) + Chars(b)
  {
    if b == [] {
      assert a + b == a;
    } else {
      CharsAppend(a, b[..|b| - 1]);
      assert (a + b)[..|a + b| - 1] == a + b[..|b| - 1];
    }
  }

  /** No pass makes the conversation longer while its stubs fit the margin. */
  lemma PassShrinks(c: Config, a: Agent)
    requires c.keepTail >= 1 && FitsMargin(c, a.messages)
    ensures Chars(Compacted(c, a).messages) <= Chars(a.messages)
  {
    if Fires(c, a.messages, a.exhausted) {
      var head, middle, tail := a.messages[..2], MiddleOf(c, a.messages), TailOf(c, a.messages);
      assert a.messages == head + middle + tail;
      forall i | 0 <= i < |middle| && Stubbable(c, middle[i])
        ensures |Boilerplate(|middle[i].content|, middle[i].extra.returncode)| <= MARGIN
      {
        assert middle[i] == a.messages[i + 2];
      }
      PruningShrinks(c, middle);
      CharsAppend(head + middle, tail);
      CharsAppend(head, middle);
      CharsAppend(head + PrunedAll(c, middle), tail);
      CharsAppend(head, PrunedAll(c, middle));
    }
  }

  // ---- Runs ----------------------------------------------------------------------------------------

  datatype Step = Say(m: Message) | Query

  /** The agent, every message ever appended, and how many passes had text to prune. */
  datatype Run = Run(agent: Agent, ever: seq<Message>, textPasses: nat)

  function Next(c: Config, r: Run, e: Step): Run {
    match e
    case Say(m) => Run(r.agent.(messages := r.agent.messages + [m]), r.ever + [m], r.textPasses)
    case Query =>
      var text := Fires(c, r.agent.messages, r.agent.exhausted) && Chars(MiddleOf(c, r.agent.messages)) > 0;
      Run(Compacted(c, r.agent), r.ever, r.textPasses + if text then 1 else 0)
  }

  function Play(c: Config, r: Run, steps: seq<Step>): Run {
    if steps == [] then r else Next(c, Play(c, r, steps[..|steps| - 1]), steps[|steps| - 1])
  }

  const FRESH: Run := Run(Agent([], 0, false), [], 0)

  /** A pass changes a message exactly when it lies between the first two and the tail and is a raw tool or
      user output longer than what the stub keeps by more than 200 characters. */
  lemma PassStubsExactlyWhen(c: Config, a: Agent, i: nat)
    requires c.keepTail >= 1 && Fires(c, a.messages, a.exhausted) && i < |a.messages|
    ensures var m := a.messages[i];
            Compacted(c, a).messages[i] != m <==>
              && 2 <= i < |a.messages| - c.keepTail && m.extra.rawOutput && (m.role == "tool" || m.role == "user")
              && |m.content| > c.headChars + 200
  {
    PassAt(c, a, i);
  }

  /** A stub keeps the head of the text and says how long the text was and what the command returned; it
      is no longer a raw output and reports no prompt. */
  lemma StubShows(c: Config, m: Message)
    requires Stubbable(c, m)
    ensures var s := Stub(c, m);
            && s.content[..c.headChars] == m.content[..c.headChars] && ValueOf(Decimal(|m.content|)) == |m.content|
            && s.content[c.headChars..] ==
               "\n[compacted: " + Decimal(|m.content|) + " chars elided, returncode=" + m.extra.returncode
               + ". Full output is in the trajectory. Continue from your most recent conclusion.]"
            && !s.extra.rawOutput && s.extra.promptTokens == 0 && s.extra.returncode == m.extra.returncode
  {
    DecimalMeans(|m.content|);
  }

  /** A pass latches exactly when it had text to prune and reclaimed less than a tenth of it. */
  lemma LatchesExactlyWhen(c: Config, a: Agent, middle: nat)
    requires c.keepTail >= 1 && Fires(c, a.messages, a.exhausted)
    requires middle == Chars(a.messages[2..|a.messages| - c.keepTail])
    ensures Compacted(c, a).exhausted <==>
              middle > 0 && 10 * (Chars(a.messages) - Chars(Compacted(c, a).messages)) < middle
  {
    var head, mid, tail := a.messages[..2], MiddleOf(c, a.messages), TailOf(c, a.messages);
    assert a.messages == head + mid + tail;
    CharsAppend(head + mid, tail);
    CharsAppend(head, mid);
    CharsAppend(head + PrunedAll(c, mid), tail);
    CharsAppend(head, PrunedAll(c, mid));
  }

  /** All that was appended, in full, behind two more messages for every pass there has been. */
  ghost predicate Unpruned(r: Run) {
    && |r.agent.messages| == 2 * r.agent.passes + |r.ever| && r.agent.messages[2 * r.agent.passes..] == r.ever
    && !r.agent.exhausted
  }

  /** So with nothing kept at the tail no run ever shortens anything: every pass adds two messages, none
      is ever the last one, and what was appended stays in full. */
  lemma {:induction false} NoTailNeverPrunes(c: Config, steps: seq<Step>)
    requires c.keepTail == 0
    ensures Unpruned(Play(c, FRESH, steps))
  {
    if steps != [] {
      var r := Play(c, FRESH, steps[..|steps| - 1]);
      NoTailNeverPrunes(c, steps[..|steps| - 1]);
      if steps[|steps| - 1].Query? && Fires(c, r.agent.messages, r.agent.exhausted) {
        NoTailRepeatsHead(c, r.agent);
        var ms, now := r.agent.messages, Compacted(c, r.agent).messages;
        assert now[2..] == ms;
        assert now[2 * (r.agent.passes + 1)..] == ms[2 * r.agent.passes..];
      }
    }
  }

  /** Three messages, the last of which reports a prompt of one token, and a threshold of one. */
  lemma NoTailExample()
    ensures var c := Config(0, 0, 1, 0, 0);
            var m := Message("assistant", "x", Extra(false, "", 1), None);
            Play(c, FRESH, [Say(m), Say(m), Say(m), Query]).agent == Agent([m, m, m, m, m], 1, false)
  {
    var c, m := Config(0, 0, 1, 0, 0), Message("assistant", "x", Extra(false, "", 1), None);
    var steps := [Say(m), Say(m), Say(m), Query];
    assert steps[..3] == [Say(m), Say(m), Say(m)] && steps[..3][..2] == [Say(m), Say(m)];
    assert steps[..3][..2][..1] == [Say(m)] && steps[..3][..2][..1][..0] == [];
    assert Play(c, FRESH, steps[..3][..2][..1]).agent.messages == [m];
    assert Play(c, FRESH, steps[..3][..2]).agent.messages == [m, m];
    var r := Play(c, FRESH, steps[..3]);
    assert r.agent.messages == [m, m, m] && !r.agent.exhausted && r.agent.passes == 0;
    assert Applied([m, m, m]) == 1;
    NoTailRepeatsHead(c, r.agent);
    assert [m, m, m][..2] + [m, m, m] == [m, m, m, m, m];
  }

  /** Each message is the one appended there, verbatim or stubbed once from the original. */
  ghost predicate StubbedOnce(c: Config, r: Run) {
    |r.agent.messages| == |r.ever| && forall i :: 0 <= i < |r.ever| ==> Faithful(c, r.ever[i], r.agent.messages[i])
  }

  lemma PruneFaithful(c: Config, was: Message, now: Message)
    requires Faithful(c, was, now)
    ensures Faithful(c, was, Pruned(c, now))
  {}

  lemma QueryKeepsStubbedOnce(c: Config, r: Run)
    requires c.keepTail >= 1 && StubbedOnce(c, r)
    ensures StubbedOnce(c, Next(c, r, Query))
  {
    PassKeeps(c, r.agent);
    var ms := Compacted(c, r.agent).messages;
    forall i | 0 <= i < |r.ever| ensures Faithful(c, r.ever[i], ms[i]) {
      PruneFaithful(c, r.ever[i], r.agent.messages[i]);
      if Fires(c, r.agent.messages, r.agent.exhausted) { PassAt(c, r.agent, i); }
    }
  }

  /** Over any run no stub is ever stubbed again, and nothing else in a message ever changes. */
  lemma {:induction false} NoStubStubbedTwice(c: Config, steps: seq<Step>)
    requires c.keepTail >= 1
    ensures StubbedOnce(c, Play(c, FRESH, steps))
  {
    if steps != [] {
      NoStubStubbedTwice(c, steps[..|steps| - 1]);
      if steps[|steps| - 1].Query? { QueryKeepsStubbedOnce(c, Play(c, FRESH, steps[..|steps| - 1])); }
    }
  }

  function Outputs(ms: seq<Message>): nat {
    if ms == [] then 0 else Outputs(ms[..|ms| - 1]) + if ms[|ms| - 1].extra.rawOutput then 1 else 0
  }

  lemma {:induction false} OutputsAppend(a: seq<Message>, b: seq<Message>)
    ensures Outputs(a + b) == Outputs(a) + Outputs(b)
  {
    if b == [] {
      assert a + b == a;
    } else {
      OutputsAppend(a, b[..|b| - 1]);
      assert (a + b)[..|a + b| - 1] == a + b[..|b| - 1];
    }
  }

  /** Pruning that leaves every tool output in place leaves every text in place. */
  lemma {:induction false} PruningCosts(c: Config, ms: seq<Message>)
    ensures Outputs(PrunedAll(c, ms)) <= Outputs(ms)
    ensures Outputs(PrunedAll(c, ms)) == Outputs(ms) ==> Chars(PrunedAll(c, ms)) == Chars(ms)
  {
    if ms != [] {
      var n := |ms| - 1;
      assert PrunedAll(c, ms)[..n] == PrunedAll(c, ms[..n]);
      PruningCosts(c, ms[..n]);
    }
  }

  /** Text passes are paid for by outputs turned into stubs, but for the one that latches. */
  ghost predicate Paid(r: Run) {
    r.textPasses + Outputs(r.agent.messages) <= Outputs(r.ever) + if r.agent.exhausted then 1 else 0
  }

  lemma QueryKeepsPaid(c: Config, r: Run)
    requires c.keepTail >= 1 && Paid(r)
    ensures Paid(Next(c, r, Query))
  {
    var a := r.agent;
    if Fires(c, a.messages, a.exhausted) {
      var head, middle, tail := a.messages[..2], MiddleOf(c, a.messages), TailOf(c, a.messages);
      assert a.messages == head + middle + tail;
      PruningCosts(c, middle);
      OutputsAppend(head + middle, tail);
      OutputsAppend(head, middle);
      OutputsAppend(head + PrunedAll(c, middle), tail);
      OutputsAppend(head, PrunedAll(c, middle));
    }
  }

  lemma {:induction false} PaidAlways(c: Config, steps: seq<Step>)
    requires c.keepTail >= 1
    ensures Paid(Play(c, FRESH, steps))
  {
    if steps != [] {
      var r := Play(c, FRESH, steps[..|steps| - 1]);
      PaidAlways(c, steps[..|steps| - 1]);
      match steps[|steps| - 1]
      case Query => QueryKeepsPaid(c, r);
      case Say(m) =>
        OutputsAppend(r.agent.messages, [m]);
        OutputsAppend(r.ever, [m]);
    }
  }

  /** Over any run the passes that had text to prune number at most the tool outputs ever appended,
      plus one. */
  lemma TextPassesBounded(c: Config, steps: seq<Step>)
    requires c.keepTail >= 1
    ensures Play(c, FRESH, steps).textPasses <= Outputs(Play(c, FRESH, steps).ever) + 1
  {
    PaidAlways(c, steps);
  }
}
