/** What a pass is about to judge: the candidates without a row yet, or with a retryable one when
    the operator asked for that, thinned out by the stratified sample. */
module PassPlan {
  import opened Options
  import opened JudgeTypes
  import opened Stratify

  datatype Mode = Mode(rejudge: bool, retryNoVerdict: bool)

  /** A key's rows in the order they were written. */
  function RowsFor(table: seq<Row>, k: Key): seq<Row> {
    if table == [] then []
    else
      var n := |table| - 1;
      RowsFor(table[..n], k) + if table[n].key == k then [table[n]] else []
  }

  function Latest(table: seq<Row>, k: Key): Option<RowStatus> {
    var rows := RowsFor(table, k);
    if rows == [] then None else Some(rows[|rows| - 1].status)
  }

  predicate Open(table: seq<Row>, k: Key, mode: Mode) {
    var latest := Latest(table, k);
    mode.rejudge || latest.None? || (mode.retryNoVerdict && !latest.value.Verdict?)
  }

  lemma RowsForAppend(table: seq<Row>, r: Row, k: Key)
    ensures RowsFor(table + [r], k) == RowsFor(table, k) + if r.key == k then [r] else []
  {
    assert (table + [r])[..|table|] == table;
  }

  method LatestByKey(table: seq<Row>) returns (latest: map<Key, RowStatus>)
    ensures forall k :: Latest(table, k) == if k in latest then Some(latest[k]) else None
  {
    latest := map[];
    for i := 0 to |table|
      invariant forall k :: Latest(table[..i], k) == if k in latest then Some(latest[k]) else None
    {
      assert table[..i + 1] == table[..i] + [table[i]];
      var r := table[i];
      forall k ensures RowsFor(table[..i + 1], k) == RowsFor(table[..i], k) + if r.key == k then [r] else [] {
        RowsForAppend(table[..i], r, k);
      }
      latest := latest[table[i].key := table[i].status];
    }
    assert table[..|table|] == table;
  }

  /** The resume rule keeps, in order, exactly the candidates that are open. */
  method DropAlreadyJudged(table: seq<Row>, cs: seq<Candidate>, retryNoVerdict: bool) returns (kept: seq<Candidate>)
    ensures kept == Keep((c: Candidate) => Open(table, c.key, Mode(false, retryNoVerdict)), cs)
  {
    var latest := LatestByKey(table);
    kept := [];
    for i := 0 to |cs|
      invariant kept == Keep((c: Candidate) => Open(table, c.key, Mode(false, retryNoVerdict)), cs[..i])
    {
      var k := cs[i].key;
      var retryable := k in latest && !latest[k].Verdict?;
      assert cs[..i + 1][..i] == cs[..i];
      if k !in latest || (retryNoVerdict && retryable) {
        kept := kept + [cs[i]];
      }
    }
    assert cs[..|cs|] == cs;
  }

  function OpenIn(table: seq<Row>, mode: Mode): Candidate -> bool {
    (c: Candidate) => Open(table, c.key, mode)
  }

  /** The candidates a launch considers; a report-only launch considers none, a re-judge all. */
  method Eligible(table: seq<Row>, fetched: seq<Candidate>, mode: Mode, synthesisOnly: bool)
    returns (cs: seq<Candidate>, alreadyJudged: nat)
    ensures cs == if synthesisOnly then [] else Keep(OpenIn(table, mode), fetched)
    ensures alreadyJudged == if synthesisOnly then 0 else |fetched| - |Keep(OpenIn(table, mode), fetched)|
  {
    cs := if synthesisOnly then [] else fetched;
    alreadyJudged := 0;
    KeepAll(OpenIn(table, mode), fetched);
    if !mode.rejudge && !synthesisOnly {
      var unjudged := DropAlreadyJudged(table, cs, mode.retryNoVerdict);
      KeepAgree(OpenIn(table, mode), (c: Candidate) => Open(table, c.key, Mode(false, mode.retryNoVerdict)), cs);
      KeepSplits(OpenIn(table, mode), (c: Candidate) => !Open(table, c.key, mode), cs);
      alreadyJudged := |cs| - |unjudged|;
      cs := unjudged;
    }
  }

  /** The queue of a pass: no key twice, every one of them open, and in it every open candidate
      that must be judged, or simply every open one at a sampling rate of 1;
      within that a sample of the open ones, with its report. */
  method Plan(table: seq<Row>, fetched: seq<Candidate>, mode: Mode, synthesisOnly: bool, rate: real, minPerStratum: int,
              shuffle: (nat, seq<Candidate>) -> seq<Candidate>)
    returns (queue: seq<Candidate>, strata: map<string, Line>, alreadyJudged: nat)
    requires Keyed(fetched) && Permutes(shuffle)
    ensures IsSample(if synthesisOnly then [] else Keep(OpenIn(table, mode), fetched), queue, strata,
                     rate, minPerStratum, shuffle)
    ensures Keyed(queue)
    ensures forall c :: c in queue ==> c in fetched && !synthesisOnly && Open(table, c.key, mode)
    ensures forall c :: c in fetched && !synthesisOnly && Open(table, c.key, mode) && (c.alwaysJudge || rate == 1.0) ==>
              c in queue
    ensures alreadyJudged == if synthesisOnly then 0 else |fetched| - |Keep(OpenIn(table, mode), fetched)|
  {
    var cs;
    cs, alreadyJudged := Eligible(table, fetched, mode, synthesisOnly);
    KeepKeyed(OpenIn(table, mode), fetched);
    queue, strata := Select(cs, rate, minPerStratum, shuffle);
    if rate == 1.0 { FullRateSelectsAll(cs, queue, minPerStratum); }
  }

  lemma {:induction false} KeepKeyed(p: Candidate -> bool, cs: seq<Candidate>)
    requires Keyed(cs)
    ensures Keyed(Keep(p, cs))
  {
    if cs != [] {
      var n := |cs| - 1;
      KeepKeyed(p, cs[..n]);
      forall c | c in cs[..n] ensures c.key != cs[n].key {}
    }
  }
}
