/** The entities a judge pass moves around. */
module JudgeTypes {
  /** One attempt at one instance; a run's candidates are told apart by it. */
  datatype Key = Key(instance: string, attempt: int)

  datatype Candidate = Candidate(key: Key, harness: string, outcome: string, alwaysJudge: bool)

  /** How a judge_results row ended. */
  datatype RowStatus = Verdict | NoVerdictParseFailed | NoVerdictTimeout

  datatype Row = Row(key: Key, status: RowStatus)

  ghost predicate Distinct<T>(s: seq<T>) {
    forall i, j :: 0 <= i < j < |s| ==> s[i] != s[j]
  }
}
