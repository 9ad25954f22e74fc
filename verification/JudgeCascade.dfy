/** The recovery cascade for one candidate: up to four paid sub-calls, each later one gated on
    what the candidate has spent so far. */
module JudgeCascade {
  import opened Options
  import opened Multiples

  const JUDGE_MAX_ATTEMPTS: nat := 4

  datatype Method = Primary | Retry | Transcribe | Plain | Failed

  /** What one sub-call does: answer (with its cost when the usage was readable, how many
      dimensions it scored and whether it exposed reasoning), answer what cannot be read as scores and
      raise after its cost is added, get no answer, or raise. */
  datatype SubCall =
    | Answer(cost: Option<real>, scored: nat, reasoning: bool)
    | Garbled(cost: Option<real>)
    | NoAnswer(timedOut: bool)
    | Broken

  datatype Script = Script(primary: SubCall, retry: SubCall, transcribe: SubCall, plain: SubCall)

  /** How the cascade ends: a judgment with its whole cost, or an exception after `paid` was
      already spent on earlier sub-calls. */
  datatype Outcome =
    | Recorded(how: Method, attempts: nat, cost: real, parseFailed: bool)
    | CutShort(timedOut: bool, paid: real)
    | Raised(paid: real)

  function Cost(call: SubCall): real {
    if (call.Answer? || call.Garbled?) && call.cost.Some? then call.cost.value else 0.0
  }

  predicate Gate(attempts: nat, total: real, remaining: real) {
    attempts < JUDGE_MAX_ATTEMPTS && total < remaining
  }

  /** The straight-line cascade. */
  method JudgeWithCascade(sc: Script, spendRemaining: real) returns (v: Outcome)
    ensures v == Cascade(Stages(sc), 0, 0.0, false, spendRemaining)
  {
    var attempts: seq<(Method, SubCall)> := [];
    var totalCost := 0.0;
    StagesUnfold(sc);
    ghost var stages := Stages(sc);
    ghost var goal := Cascade(stages, 0, 0.0, false, spendRemaining);

    match sc.primary {
      case NoAnswer(t) => return CutShort(t, totalCost);
      case Broken => return Raised(totalCost);
      case Garbled(_) => return Raised(totalCost + Cost(sc.primary));
      case Answer(_, scored, _) =>
        attempts := attempts + [(Primary, sc.primary)];
        totalCost := totalCost + Cost(sc.primary);
        if scored > 0 { return Recorded(Primary, |attempts|, totalCost, false); }
    }

    assert goal == Cascade(stages[1..], 1, totalCost, sc.primary.reasoning, spendRemaining);
    if Gate(|attempts|, totalCost, spendRemaining) {
      match sc.retry {
        case NoAnswer(t) => return CutShort(t, totalCost);
        case Broken => return Raised(totalCost);
        case Garbled(_) => return Raised(totalCost + Cost(sc.retry));
        case Answer(_, scored, _) =>
          attempts := attempts + [(Retry, sc.retry)];
          totalCost := totalCost + Cost(sc.retry);
          if scored > 0 { return Recorded(Retry, |attempts|, totalCost, false); }
      }
    }

    var reasoning := exists i :: 0 <= i < |attempts| && attempts[i].1.Answer? && attempts[i].1.reasoning;
    assert reasoning == (sc.primary.reasoning || (|attempts| == 2 && sc.retry.reasoning)) by {
      assert attempts[0].1 == sc.primary;
      if |attempts| == 2 { assert attempts[1].1 == sc.retry; }
    }
    assert goal == Cascade(stages[1..][1..], |attempts|, totalCost, reasoning, spendRemaining);
    ghost var thought := reasoning;
    if reasoning && Gate(|attempts|, totalCost, spendRemaining) {
      match sc.transcribe {
        case NoAnswer(t) => return CutShort(t, totalCost);
        case Broken => return Raised(totalCost);
        case Garbled(_) => return Raised(totalCost + Cost(sc.transcribe));
        case Answer(_, scored, _) =>
          attempts := attempts + [(Transcribe, sc.transcribe)];
          totalCost := totalCost + Cost(sc.transcribe);
          if scored > 0 { return Recorded(Transcribe, |attempts|, totalCost, false); }
      }
    }
    assert goal == Cascade(stages[1..][1..][1..], |attempts|, totalCost, thought, spendRemaining);

    if Gate(|attempts|, totalCost, spendRemaining) {
      match sc.plain {
        case NoAnswer(t) => return CutShort(t, totalCost);
        case Broken => return Raised(totalCost);
        case Garbled(_) => return Raised(totalCost + Cost(sc.plain));
        case Answer(_, scored, _) =>
          attempts := attempts + [(Plain, sc.plain)];
          totalCost := totalCost + Cost(sc.plain);
          if scored > 0 { return Recorded(Plain, |attempts|, totalCost, false); }
          thought := thought || sc.plain.reasoning;
      }
    }
    assert goal == Cascade(stages[1..][1..][1..][1..], |attempts|, totalCost, thought, spendRemaining);
    return Recorded(Failed, |attempts|, totalCost, true);
  }

  // ---- The same as one rule applied down a list of stages --------------------------------

  function Stages(sc: Script): seq<(Method, SubCall)> {
    [(Primary, sc.primary), (Retry, sc.retry), (Transcribe, sc.transcribe), (Plain, sc.plain)]
  }

  lemma StagesUnfold(sc: Script)
    ensures var s := Stages(sc);
            && s[1..] == [(Retry, sc.retry), (Transcribe, sc.transcribe), (Plain, sc.plain)]
            && s[1..][1..] == [(Transcribe, sc.transcribe), (Plain, sc.plain)]
            && s[1..][1..][1..] == [(Plain, sc.plain)]
            && s[1..][1..][1..][1..] == []
  {}

  predicate Starts(how: Method, attempts: nat, total: real, reasoning: bool, remaining: real) {
    how.Primary? || (Gate(attempts, total, remaining) && (how.Transcribe? ==> reasoning))
  }

  function Cascade(stages: seq<(Method, SubCall)>, attempts: nat, total: real, reasoning: bool,
                   remaining: real): Outcome {
    if stages == [] then Recorded(Failed, attempts, total, true)
    else
      var (how, call) := stages[0];
      if !Starts(how, attempts, total, reasoning, remaining) then
        Cascade(stages[1..], attempts, total, reasoning, remaining)
      else match call
        case NoAnswer(t) => CutShort(t, total)
        case Broken => Raised(total)
        case Garbled(_) => Raised(total + Cost(call))
        case Answer(_, scored, thought) =>
          if scored > 0 then Recorded(how, attempts + 1, total + Cost(call), false)
          else Cascade(stages[1..], attempts + 1, total + Cost(call), reasoning || thought, remaining)
  }

  function RunCascade(sc: Script, remaining: real): Outcome {
    Cascade(Stages(sc), 0, 0.0, false, remaining)
  }

  // ---- What a cascade can cost -----------------------------------------------------------

  predicate Cheap(sc: Script, c: real) {
    && 0.0 <= Cost(sc.primary) <= c && 0.0 <= Cost(sc.retry) <= c
    && 0.0 <= Cost(sc.transcribe) <= c && 0.0 <= Cost(sc.plain) <= c
  }

  predicate CheapStages(stages: seq<(Method, SubCall)>, c: real) {
    forall i :: 0 <= i < |stages| ==> 0.0 <= Cost(stages[i].1) <= c
  }

  function Spent(v: Outcome): real {
    match v case Recorded(_, _, cost, _) => cost case CutShort(_, paid) => paid case Raised(paid) => paid
  }

  lemma {:induction false} CascadeBounded(stages: seq<(Method, SubCall)>, attempts: nat, total: real, reasoning: bool,
                                          remaining: real, c: real)
    requires CheapStages(stages, c) && c >= 0.0 && 0.0 <= total < remaining + c
    requires forall i :: 0 <= i < |stages| && stages[i].0.Primary? ==> total == 0.0 < remaining && i == 0
    ensures var v := Cascade(stages, attempts, total, reasoning, remaining);
            && total <= Spent(v) <= total + Times(|stages|, c) && Spent(v) < remaining + c
            && (v.Recorded? ==> attempts <= v.attempts <= attempts + |stages|)
  {
    if stages != [] {
      var (how, call) := stages[0];
      TimesMonotone(|stages| - 1, 0.0, c);
      TimesIsProduct(|stages| - 1, 0.0);
      if !Starts(how, attempts, total, reasoning, remaining) {
        CascadeBounded(stages[1..], attempts, total, reasoning, remaining, c);
      } else if call.Answer? && call.scored == 0 {
        CascadeBounded(stages[1..], attempts + 1, total + Cost(call), reasoning || call.reasoning, remaining, c);
      }
    }
  }

  /** A cascade started with some headroom costs at most four sub-calls, and its last sub-call
      alone can carry it past the headroom. */
  lemma CascadeCost(sc: Script, remaining: real, c: real)
    requires Cheap(sc, c) && remaining > 0.0
    ensures var v := RunCascade(sc, remaining);
            && 0.0 <= Spent(v) <= 4.0 * c && Spent(v) < remaining + c
            && (v.Recorded? ==> v.attempts <= JUDGE_MAX_ATTEMPTS)
  {
    var s := Stages(sc);
    assert s[0].0 == Primary && s[1].0 == Retry && s[2].0 == Transcribe && s[3].0 == Plain;
    assert s[0].1 == sc.primary && s[1].1 == sc.retry && s[2].1 == sc.transcribe && s[3].1 == sc.plain;
    CascadeBounded(s, 0, 0.0, false, remaining, c);
    TimesIsProduct(4, c);
  }

  /** The call of that name scored something. */
  ghost predicate ScoredUnder(stages: seq<(Method, SubCall)>, how: Method) {
    exists i :: 0 <= i < |stages| && stages[i].0 == how && stages[i].1.Answer? && stages[i].1.scored > 0
  }

  lemma {:induction false} CascadeHonestFrom(stages: seq<(Method, SubCall)>, attempts: nat, total: real,
                                             reasoning: bool, remaining: real)
    requires forall i :: 0 <= i < |stages| ==> !stages[i].0.Failed?
    ensures var v := Cascade(stages, attempts, total, reasoning, remaining);
            v.Recorded? ==>
              && v.attempts >= attempts
              && (v.parseFailed <==> v.how.Failed?)
              && (!v.parseFailed ==> ScoredUnder(stages, v.how))
              && (v.parseFailed && v.attempts == attempts ==> v.cost == total)
  {
    if stages != [] {
      var (how, call) := stages[0];
      var rest := stages[1..];
      if !Starts(how, attempts, total, reasoning, remaining) {
        CascadeHonestFrom(rest, attempts, total, reasoning, remaining);
        var v := Cascade(rest, attempts, total, reasoning, remaining);
        if v.Recorded? && !v.parseFailed {
          var i :| 0 <= i < |rest| && rest[i].0 == v.how && rest[i].1.Answer? && rest[i].1.scored > 0;
          assert stages[i + 1] == rest[i];
        }
      } else if call.Answer? && call.scored == 0 {
        CascadeHonestFrom(rest, attempts + 1, total + Cost(call), reasoning || call.reasoning, remaining);
        var v := Cascade(rest, attempts + 1, total + Cost(call), reasoning || call.reasoning, remaining);
        if v.Recorded? && !v.parseFailed {
          var i :| 0 <= i < |rest| && rest[i].0 == v.how && rest[i].1.Answer? && rest[i].1.scored > 0;
          assert stages[i + 1] == rest[i];
        }
      } else {
        assert stages[0] == (how, call);
      }
    }
  }

  /** A verdict is reported only under the name of a call that scored something, and a parse
      failure only after the primary call answered without scoring anything. */
  lemma CascadeHonest(sc: Script, remaining: real)
    ensures var v := RunCascade(sc, remaining);
            v.Recorded? ==>
              && v.attempts >= 1
              && (v.parseFailed <==> v.how.Failed?)
              && (!v.parseFailed ==> ScoredUnder(Stages(sc), v.how))
              && (v.parseFailed ==> sc.primary.Answer? && sc.primary.scored == 0)
  {
    var s := Stages(sc);
    assert s[0] == (Primary, sc.primary);
    CascadeHonestFrom(s, 0, 0.0, false, remaining);
    if sc.primary.Answer? && sc.primary.scored == 0 {
      var rest := s[1..];
      assert forall i :: 0 <= i < |rest| ==> rest[i] == s[i + 1];
      CascadeHonestFrom(rest, 1, 0.0 + Cost(sc.primary), sc.primary.reasoning, remaining);
    }
  }

  predicate Unscored(call: SubCall) {
    call.Answer? && call.scored == 0
  }

  /** One stage of the cascade. */
  lemma Stage(stages: seq<(Method, SubCall)>, how: Method, call: SubCall, attempts: nat, total: real, reasoning: bool,
              remaining: real)
    requires stages != [] && stages[0] == (how, call)
    ensures Cascade(stages, attempts, total, reasoning, remaining)
            == if !Starts(how, attempts, total, reasoning, remaining)
              then Cascade(stages[1..], attempts, total, reasoning, remaining)
               else if call.NoAnswer? then CutShort(call.timedOut, total)
               else if call.Broken? || call.Garbled? then Raised(total + Cost(call))
               else if call.scored > 0 then Recorded(how, attempts + 1, total + Cost(call), false)
               else Cascade(stages[1..], attempts + 1, total + Cost(call), reasoning || call.reasoning, remaining)
  {}

  /** With no headroom left nothing more is tried. */
  lemma {:induction false} SpentOut(stages: seq<(Method, SubCall)>, attempts: nat, total: real, reasoning: bool,
                                    remaining: real)
    requires total >= remaining && forall i :: 0 <= i < |stages| ==> !stages[i].0.Primary?
    ensures Cascade(stages, attempts, total, reasoning, remaining) == Recorded(Failed, attempts, total, true)
  {
    if stages != [] { SpentOut(stages[1..], attempts, total, reasoning, remaining); }
  }

  /** The calls come in their order and none is left out but for two reasons: a result under a later
      name means that every call before it answered and scored nothing, the transcription alone being
      skipped when neither earlier call exposed reasoning; a parse failure means that they all did,
      or that the headroom is spent. The cost is that of exactly those calls. */
  lemma CascadeInOrder(sc: Script, remaining: real)
    ensures var v := RunCascade(sc, remaining);
            var think := sc.primary.Answer? && sc.retry.Answer? && (sc.primary.reasoning || sc.retry.reasoning);
            var one := Cost(sc.primary);
            var two := one + Cost(sc.retry);
            var three := two + if think then Cost(sc.transcribe) else 0.0;
            v.Recorded? ==> match v.how
              case Primary => v.attempts == 1 && v.cost == one
              case Retry => v.attempts == 2 && v.cost == two && Unscored(sc.primary)
              case Transcribe => v.attempts == 3 && v.cost == three && think && Unscored(sc.primary)
                && Unscored(sc.retry)
              case Plain => v.attempts == (if think then 4 else 3) && v.cost == three + Cost(sc.plain)
                            && Unscored(sc.primary) && Unscored(sc.retry) && (think ==> Unscored(sc.transcribe))
              case Failed =>
                v.cost >= remaining || (v.attempts == (if think then 4 else 3) && v.cost == three + Cost(sc.plain))
  {
    var s := Stages(sc);
    StagesUnfold(sc);
    Stage(s, Primary, sc.primary, 0, 0.0, false, remaining);
    if Unscored(sc.primary) { FromRetry(sc, s[1..], remaining); }
  }

  lemma FromRetry(sc: Script, rest: seq<(Method, SubCall)>, remaining: real)
    requires Unscored(sc.primary) && rest == [(Retry, sc.retry), (Transcribe, sc.transcribe), (Plain, sc.plain)]
    ensures var v, think := Cascade(rest, 1, Cost(sc.primary), sc.primary.reasoning, remaining),
                            sc.retry.Answer? && (sc.primary.reasoning || sc.retry.reasoning);
            var two := Cost(sc.primary) + Cost(sc.retry);
            var three := two + if think then Cost(sc.transcribe) else 0.0;
            v.Recorded? ==> match v.how
              case Primary => false
              case Retry => v.attempts == 2 && v.cost == two
              case Transcribe => v.attempts == 3 && v.cost == three && think && Unscored(sc.retry)
              case Plain => v.attempts == (if think then 4 else 3) && v.cost == three + Cost(sc.plain)
                            && Unscored(sc.retry) && (think ==> Unscored(sc.transcribe))
              case Failed =>
                v.cost >= remaining || (v.attempts == (if think then 4 else 3) && v.cost == three + Cost(sc.plain))
  {
    var one := Cost(sc.primary);
    if one >= remaining {
      SpentOut(rest, 1, one, sc.primary.reasoning, remaining);
    } else {
      Stage(rest, Retry, sc.retry, 1, one, sc.primary.reasoning, remaining);
      if Unscored(sc.retry) {
        FromTranscribe(sc, rest[1..], one + Cost(sc.retry), sc.primary.reasoning || sc.retry.reasoning, remaining);
      }
    }
  }

  lemma FromTranscribe(sc: Script, rest: seq<(Method, SubCall)>, two: real, think: bool, remaining: real)
    requires rest == [(Transcribe, sc.transcribe), (Plain, sc.plain)]
    ensures var v, three := Cascade(rest, 2, two, think, remaining), two + if think then Cost(sc.transcribe) else 0.0;
            v.Recorded? ==> match v.how
              case Primary => false
              case Retry => false
              case Transcribe => v.attempts == 3 && v.cost == three && think
              case Plain => v.attempts == (if think then 4 else 3) && v.cost == three + Cost(sc.plain)
                && (think ==> Unscored(sc.transcribe))
              case Failed =>
                v.cost >= remaining || (v.attempts == (if think then 4 else 3) && v.cost == three + Cost(sc.plain))
  {
    if two >= remaining {
      SpentOut(rest, 2, two, think, remaining);
    } else {
      Stage(rest, Transcribe, sc.transcribe, 2, two, think, remaining);
      if think && Unscored(sc.transcribe) {
        FromPlain(sc, rest[1..], 3, two + Cost(sc.transcribe), true, remaining);
      } else if !think {
        FromPlain(sc, rest[1..], 2, two, false, remaining);
      }
    }
  }

  lemma FromPlain(sc: Script, rest: seq<(Method, SubCall)>, attempts: nat, total: real, think: bool, remaining: real)
    requires rest == [(Plain, sc.plain)] && attempts < 4
    ensures var v := Cascade(rest, attempts, total, think, remaining);
            v.Recorded? ==>
              || (v.how.Plain? && v.attempts == attempts + 1 && v.cost == total + Cost(sc.plain))
              || (v.how.Failed? && (v.cost >= remaining
                || (v.attempts == attempts + 1 && v.cost == total + Cost(sc.plain))))
  {
    if total >= remaining {
      SpentOut(rest, attempts, total, think, remaining);
    } else {
      Stage(rest, Plain, sc.plain, attempts, total, think, remaining);
      assert rest[1..] == [];
    }
  }

  // ---- When a cascade loses what it cost ---------------------------------------------------

  /** The call yields no judgment, and it or a call before it has cost something. */
  predicate Falls(call: SubCall, before: real) {
    !call.Answer? && before + Cost(call) > 0.0
  }

  predicate PlainLoses(sc: Script, before: real, remaining: real) {
    before < remaining && Falls(sc.plain, before)
  }

  predicate TranscribeLoses(sc: Script, before: real, remaining: real) {
    before < remaining &&
    (Falls(sc.transcribe, before) ||
     (Unscored(sc.transcribe) && PlainLoses(sc, before + Cost(sc.transcribe), remaining)))
  }

  predicate RetryLoses(sc: Script, before: real, remaining: real)
    requires Unscored(sc.primary)
  {
    before < remaining &&
    (Falls(sc.retry, before) ||
     (Unscored(sc.retry) && if sc.primary.reasoning || sc.retry.reasoning
                            then TranscribeLoses(sc, before + Cost(sc.retry), remaining)
                            else PlainLoses(sc, before + Cost(sc.retry), remaining)))
  }

  /** Read off the script and the headroom: some call that the gates let start falls, after calls that
      answered and scored nothing. */
  predicate Loses(sc: Script, remaining: real) {
    Falls(sc.primary, 0.0) || (Unscored(sc.primary) && RetryLoses(sc, Cost(sc.primary), remaining))
  }

  /** It paid for sub-calls and brought back no judgment. */
  predicate Lost(v: Outcome) {
    !v.Recorded? && Spent(v) > 0.0
  }

  lemma LostAtPlain(sc: Script, rest: seq<(Method, SubCall)>, attempts: nat, total: real, think: bool, remaining: real)
    requires rest == [(Plain, sc.plain)] && attempts < 4
    ensures Lost(Cascade(rest, attempts, total, think, remaining)) <==> PlainLoses(sc, total, remaining)
  {
    if total >= remaining {
      SpentOut(rest, attempts, total, think, remaining);
    } else {
      Stage(rest, Plain, sc.plain, attempts, total, think, remaining);
      assert rest[1..] == [];
    }
  }

  lemma LostAtTranscribe(sc: Script, rest: seq<(Method, SubCall)>, total: real, think: bool, remaining: real)
    requires rest == [(Transcribe, sc.transcribe), (Plain, sc.plain)]
    ensures Lost(Cascade(rest, 2, total, think, remaining))
            <==> if think then TranscribeLoses(sc, total, remaining) else PlainLoses(sc, total, remaining)
  {
    if total >= remaining {
      SpentOut(rest, 2, total, think, remaining);
    } else {
      Stage(rest, Transcribe, sc.transcribe, 2, total, think, remaining);
      if !think {
        LostAtPlain(sc, rest[1..], 2, total, false, remaining);
      } else if Unscored(sc.transcribe) {
        LostAtPlain(sc, rest[1..], 3, total + Cost(sc.transcribe), true, remaining);
      }
    }
  }

  lemma LostAtRetry(sc: Script, rest: seq<(Method, SubCall)>, total: real, remaining: real)
    requires rest == [(Retry, sc.retry), (Transcribe, sc.transcribe), (Plain, sc.plain)] && Unscored(sc.primary)
    ensures Lost(Cascade(rest, 1, total, sc.primary.reasoning, remaining)) <==> RetryLoses(sc, total, remaining)
  {
    if total >= remaining {
      SpentOut(rest, 1, total, sc.primary.reasoning, remaining);
    } else {
      Stage(rest, Retry, sc.retry, 1, total, sc.primary.reasoning, remaining);
      if Unscored(sc.retry) {
        LostAtTranscribe(sc, rest[1..], total + Cost(sc.retry), sc.primary.reasoning || sc.retry.reasoning, remaining);
      }
    }
  }

  /** A cascade pays without a judgment exactly when its script and its headroom make it. */
  lemma CascadeLosesExactlyWhen(sc: Script, remaining: real)
    ensures Lost(RunCascade(sc, remaining)) <==> Loses(sc, remaining)
  {
    var s := Stages(sc);
    StagesUnfold(sc);
    Stage(s, Primary, sc.primary, 0, 0.0, false, remaining);
    if Unscored(sc.primary) { LostAtRetry(sc, s[1..], Cost(sc.primary), remaining); }
  }

  // ---- How a cascade that brings back no judgment ends ----------------------------------------

  datatype Failure = RanOutOfTime | Unanswered | Threw

  function FailureOf(call: SubCall): Option<Failure> {
    match call
    case Answer(_, _, _) => None
    case Garbled(_) => Some(Threw)
    case NoAnswer(timedOut) => Some(if timedOut then RanOutOfTime else Unanswered)
    case Broken => Some(Threw)
  }

  /** The first failure among the calls made: a call is made while those before it answered and scored
      nothing and their cost is below the headroom, the transcription only with reasoning to work on. */
  function FirstFailure(sc: Script, remaining: real): Option<Failure> {
    var think := (sc.primary.Answer? && sc.primary.reasoning) || (sc.retry.Answer? && sc.retry.reasoning);
    var one := Cost(sc.primary);
    var two := one + Cost(sc.retry);
    var three := two + if think then Cost(sc.transcribe) else 0.0;
    if !Unscored(sc.primary) then FailureOf(sc.primary)
    else if one >= remaining then None
    else if !Unscored(sc.retry) then FailureOf(sc.retry)
    else if two >= remaining then None
    else if think && !Unscored(sc.transcribe) then FailureOf(sc.transcribe)
    else if three >= remaining then None
    else FailureOf(sc.plain)
  }

  function EndedIn(v: Outcome): Option<Failure> {
    match v
    case Recorded(_, _, _, _) => None
    case CutShort(timedOut, _) => Some(if timedOut then RanOutOfTime else Unanswered)
    case Raised(_) => Some(Threw)
  }

  /** A cascade is cut short or raises exactly as the first failure among its calls does. */
  lemma CascadeFallsAs(sc: Script, remaining: real)
    ensures EndedIn(RunCascade(sc, remaining)) == FirstFailure(sc, remaining)
  {
    var s := Stages(sc);
    StagesUnfold(sc);
    Stage(s, Primary, sc.primary, 0, 0.0, false, remaining);
    if Unscored(sc.primary) { FallsFromRetry(sc, s[1..], remaining); }
  }

  lemma FallsFromRetry(sc: Script, rest: seq<(Method, SubCall)>, remaining: real)
    requires Unscored(sc.primary) && rest == [(Retry, sc.retry), (Transcribe, sc.transcribe), (Plain, sc.plain)]
    ensures EndedIn(Cascade(rest, 1, Cost(sc.primary), sc.primary.reasoning, remaining)) == FirstFailure(sc, remaining)
  {
    var one := Cost(sc.primary);
    if one >= remaining {
      SpentOut(rest, 1, one, sc.primary.reasoning, remaining);
    } else {
      Stage(rest, Retry, sc.retry, 1, one, sc.primary.reasoning, remaining);
      if Unscored(sc.retry) { FallsFromTranscribe(sc, rest[1..], remaining); }
    }
  }

  lemma FallsFromTranscribe(sc: Script, rest: seq<(Method, SubCall)>, remaining: real)
    requires Unscored(sc.primary) && Unscored(sc.retry) && Cost(sc.primary) < remaining
    requires rest == [(Transcribe, sc.transcribe), (Plain, sc.plain)]
    ensures EndedIn(Cascade(rest, 2, Cost(sc.primary) + Cost(sc.retry), sc.primary.reasoning
            || sc.retry.reasoning, remaining))
            == FirstFailure(sc, remaining)
  {
    var two, think := Cost(sc.primary) + Cost(sc.retry), sc.primary.reasoning || sc.retry.reasoning;
    if two >= remaining {
      SpentOut(rest, 2, two, think, remaining);
    } else {
      Stage(rest, Transcribe, sc.transcribe, 2, two, think, remaining);
      if !think {
        FallsAtPlain(sc, rest[1..], 2, two, false, remaining);
      } else if Unscored(sc.transcribe) {
        FallsAtPlain(sc, rest[1..], 3, two + Cost(sc.transcribe), true, remaining);
      }
    }
  }

  lemma FallsAtPlain(sc: Script, rest: seq<(Method, SubCall)>, attempts: nat, total: real, think: bool, remaining: real)
    requires rest == [(Plain, sc.plain)] && attempts < 4
    ensures EndedIn(Cascade(rest, attempts, total, think, remaining)) == if total >= remaining then None
            else FailureOf(sc.plain)
  {
    if total >= remaining {
      SpentOut(rest, attempts, total, think, remaining);
    } else {
      Stage(rest, Plain, sc.plain, attempts, total, think, remaining);
      assert rest[1..] == [];
    }
  }
}
