/** Assembling the judge's input: the whole trajectory, then the tool outputs cut to head and tail,
    then whole middle events dropped, each step only as far as needed and each one reported. How a
    record is printed is a parameter. */
module Assembly {
  import opened Options
  import opened Text
  import opened Lines

  /** The four fields that pruning looks at; None is a field that is missing or not a string. */
  datatype Fields = Fields(output: Option<string>, stdout: Option<string>, stderr: Option<string>,
                           content: Option<string>)

  datatype Rec = Event(role: string, fields: Fields, rest: string) | Elided(count: nat)

  datatype Assembled = Assembled(text: string, tokens: nat, toolOutputPruned: bool, inputTruncated: bool,
                                 eventsElided: nat)

  datatype Result = BadMode | Input(a: Assembled)

  type Printer = Rec -> string

  // ---- Tool outputs ----------------------------------------------------------------------------

  function Mark(lines: nat): string {
    "... [elided " + Decimal(lines) + " lines] ..."
  }

  /** A negative slice bound of zero is no bound. */
  function LastOf<T>(s: seq<T>, keep: nat): seq<T>
    requires keep <= |s|
  {
    if keep == 0 then s else s[|s| - keep..]
  }

  /** Head, marker and tail of a list of lines. */
  function Cut(lines: seq<string>, keep: nat): seq<string>
    requires |lines| > 2 * keep
  {
    lines[..keep] + [Mark(|lines| - 2 * keep)] + LastOf(lines, keep)
  }

  function PruneText(v: string, keep: nat): string {
    var lines := Split(v, '\n');
    if |lines| > 2 * keep then Joined(Cut(lines, keep), '\n') else v
  }

  function PruneField(f: Option<string>, keep: nat): Option<string> {
    if f.Some? then Some(PruneText(f.value, keep)) else None
  }

  function PruneToolOutput(r: Rec, keep: nat): Rec {
    if r.Event? && r.role == "tool" then
      var f := r.fields;
      r.(fields := Fields(PruneField(f.output, keep), PruneField(f.stdout, keep), PruneField(f.stderr, keep),
        PruneField(f.content, keep)))
    else r
  }

  function PruneAll(rs: seq<Rec>, keep: nat): (p: seq<Rec>)
    ensures |p| == |rs| && forall i :: 0 <= i < |rs| ==> p[i] == PruneToolOutput(rs[i], keep)
  {
    seq(|rs|, i requires 0 <= i < |rs| => PruneToolOutput(rs[i], keep))
  }

  lemma MarkIsOneLine(n: nat)
    ensures '\n' !in Mark(n)
  {
    DecimalIsDigits(n);
    assert '\n' !in DIGITS;
    forall c | c in Decimal(n) ensures c != '\n' {
      var i :| 0 <= i < |Decimal(n)| && Decimal(n)[i] == c;
    }
  }

  lemma CutUnbroken(lines: seq<string>, keep: nat)
    requires |lines| > 2 * keep && Unbroken(lines, '\n')
    ensures Unbroken(Cut(lines, keep), '\n')
  {
    MarkIsOneLine(|lines| - 2 * keep);
    var last := LastOf(lines, keep);
    forall i | 0 <= i < |last| ensures '\n' !in last[i] {
      assert last[i] == lines[i + |lines| - |last|];
    }
  }

  /** What a reader of the pruned text sees, line by line. */
  lemma PrunedLines(v: string, keep: nat)
    ensures var was, now := Split(v, '\n'), Split(PruneText(v, keep), '\n');
            now == if |was| > 2 * keep then Cut(was, keep) else was
  {
    var was := Split(v, '\n');
    if |was| > 2 * keep {
      SplitInverse(v, '\n');
      CutUnbroken(was, keep);
      JoinInverse(Cut(was, keep), '\n');
    }
  }

  /** Number of the original's lines that a pruned text still shows. */
  function LinesShown(v: string, keep: nat): nat {
    |Split(PruneText(v, keep), '\n')| - 1
  }

  /** The marker counts the lines that are missing exactly when at least one line is kept at each
      end: with none to keep, it announces them all as gone and shows them all. */
  lemma MarkerHonestExactlyWhen(v: string, keep: nat)
    requires |Split(v, '\n')| > 2 * keep
    ensures var n := |Split(v, '\n')|;
            (LinesShown(v, keep) + (n - 2 * keep) == n) <==> keep > 0
  {
    PrunedLines(v, keep);
  }

  /** A tool record keeps its role, the rest of it and which fields it has, and each field is pruned by
      itself; any other record is left alone. */
  lemma PrunedRecord(r: Rec, keep: nat)
    ensures var p := PruneToolOutput(r, keep);
            if r.Event? && r.role == "tool"
            then && p.Event? && p.role == "tool" && p.rest == r.rest
                 && FieldPruned(r.fields.output, p.fields.output, keep)
                    && FieldPruned(r.fields.stdout, p.fields.stdout, keep)
                 && FieldPruned(r.fields.stderr, p.fields.stderr, keep)
                    && FieldPruned(r.fields.content, p.fields.content, keep)
            else p == r
  {
    if r.Event? && r.role == "tool" {
      FieldIsPruned(r.fields.output, keep);
      FieldIsPruned(r.fields.stdout, keep);
      FieldIsPruned(r.fields.stderr, keep);
      FieldIsPruned(r.fields.content, keep);
    }
  }

  /** Line by line: the first and the last `keep` lines around a count of the others, of a text with more
      than twice as many lines; any other text, and a field that is not there, stay. */
  ghost predicate FieldPruned(was: Option<string>, now: Option<string>, keep: nat) {
    if was.None? then now.None?
    else
      var lines := Split(was.value, '\n');
      && now.Some?
      && if |lines| <= 2 * keep then now == was
         else Split(now.value, '\n') == lines[..keep] + ["... [elided " + Decimal(|lines| - 2 * keep) + " lines] ..."]
                                         + lines[if keep == 0 then 0 else |lines| - keep..]
  }

  lemma FieldIsPruned(f: Option<string>, keep: nat)
    ensures FieldPruned(f, PruneField(f, keep), keep)
  {
    if f.Some? { PrunedLines(f.value, keep); }
  }

  // ---- Whole events ------------------------------------------------------------------------------

  function Printed(rs: seq<Rec>, print_: Printer): (ps: seq<string>)
    ensures |ps| == |rs| && forall i :: 0 <= i < |rs| ==> ps[i] == print_(rs[i])
  {
    seq(|rs|, i requires 0 <= i < |rs| => print_(rs[i]))
  }

  function Serialize(rs: seq<Rec>, patch: string, print_: Printer): string {
    Joined((if patch == "" then [] else [patch]) + Printed(rs, print_), '\n')
  }

  /** The patch first, then one printed record to a line. */
  lemma SerializeMeans(rs: seq<Rec>, patch: string, print_: Printer)
    ensures patch == "" ==> Serialize(rs, patch, print_) == Joined(Printed(rs, print_), '\n')
    ensures patch != "" && rs == [] ==> Serialize(rs, patch, print_) == patch
    ensures patch != "" && rs != [] ==>
              Serialize(rs, patch, print_) == patch + (['\n'] + Joined(Printed(rs, print_), '\n'))
  {
    var ps := Printed(rs, print_);
    if patch == "" {
      assert [] + ps == ps;
    } else if rs == [] {
      assert [patch] + ps == [patch];
      assert [patch][..0] == [];
    } else {
      JoinFirst(patch, ps);
    }
  }

  lemma {:induction false} JoinFirst(first: string, ps: seq<string>)
    requires ps != []
    ensures Joined([first] + ps, '\n') == first + (['\n'] + Joined(ps, '\n'))
  {
    var n := |ps| - 1;
    if n == 0 {
      assert ps == [ps[0]];
      JoinedOneMore([first], ps[0], '\n');
    } else {
      var most, last := ps[..n], ps[n];
      JoinFirst(first, most);
      assert ps == most + [last] && [first] + ps == ([first] + most) + [last];
      JoinedOneMore([first] + most, last, '\n');
      JoinedOneMore(most, last, '\n');
    }
  }

  function ApproxTokens(text: string): nat {
    |text| / 4
  }

  function ElideMiddle(rs: seq<Rec>, keepFirst: nat, keepLast: nat): (seq<Rec>, nat) {
    var n := |rs|;
    if keepFirst + keepLast >= n then (rs, 0)
    else (rs[..keepFirst] + [Elided(n - keepFirst - keepLast)] + rs[n - keepLast..], n - keepFirst - keepLast)
  }

  function Max(a: nat, b: nat): nat { if b > a then b else a }

  datatype Fitted = Fitted(text: string, tokens: nat, elided: nat)

  function Fit(rs: seq<Rec>, elided: nat, patch: string, print_: Printer): Fitted {
    var text := Serialize(rs, patch, print_);
    Fitted(text, ApproxTokens(text), elided)
  }

  /** The events shown with a window of w. */
  function Windowed(rs: seq<Rec>, w: nat, patch: string, print_: Printer): Fitted {
    var first := Max(1, w / 2);
    var (shown, elided) := ElideMiddle(rs, first, if w > first then Max(1, w - first) else 1);
    Fit(shown, elided, patch, print_)
  }

  /** Halve the window until the text fits or the window is down to four. */
  function Shrink(rs: seq<Rec>, w: nat, now: Fitted, limit: int, patch: string, print_: Printer): Fitted
    decreases w
  {
    if now.tokens > limit && w > 4 then
      var w' := Max(4, w / 2);
      Shrink(rs, w', Windowed(rs, w', patch, print_), limit, patch, print_)
    else now
  }

  function ShrinkToFit(rs: seq<Rec>, limit: int, patch: string, print_: Printer): Fitted {
    Shrink(rs, |rs|, Fit(rs, 0, patch, print_), limit, patch, print_)
  }

  lemma ShrinkOnce(rs: seq<Rec>, w: nat, now: Fitted, limit: int, patch: string, print_: Printer, w': nat, first: nat,
                   last: nat)
    requires now.tokens > limit && w > 4 && w' == Max(4, w / 2) && first == Max(1, w' / 2) && last == w' - first
    ensures first < w' && 4 <= w' < w
    ensures Shrink(rs, w, now, limit, patch, print_)
            == Shrink(rs, w', Fit(ElideMiddle(rs, first, last).0, ElideMiddle(rs, first, last).1, patch, print_), limit,
              patch, print_)
  {}

  method ShrinkLoop(rs: seq<Rec>, limit: int, patch: string, print_: Printer) returns (r: Fitted)
    ensures r == ShrinkToFit(rs, limit, patch, print_)
  {
    ghost var goal := ShrinkToFit(rs, limit, patch, print_);
    var window: nat := |rs|;
    var text := Serialize(rs, patch, print_);
    var tokens: nat, eventsElided: nat := ApproxTokens(text), 0;
    while tokens > limit && window > 4
      invariant goal == Shrink(rs, window, Fitted(text, tokens, eventsElided), limit, patch, print_)
      decreases window
    {
      ghost var w, now := window, Fitted(text, tokens, eventsElided);
      window := Max(4, window / 2);
      var keepFirst := Max(1, window / 2);
      var keepLast := if window - keepFirst > 1 then window - keepFirst else 1;
      ShrinkOnce(rs, w, now, limit, patch, print_, window, keepFirst, keepLast);
      var (candidate, elided) := ElideMiddle(rs, keepFirst, keepLast);
      eventsElided := elided;
      text := Serialize(candidate, patch, print_);
      tokens := ApproxTokens(text);
    }
    r := Fitted(text, tokens, eventsElided);
  }

  // ---- The three steps -------------------------------------------------------------------------------

  function Plain(f: Fitted, pruned: bool): Assembled {
    Assembled(f.text, f.tokens, pruned, f.elided > 0, f.elided)
  }

  function Assemble(patch: string, rs: seq<Rec>, mode: string, limit: int, keep: nat, print_: Printer): Result {
    if mode != "full" && mode != "pruned" && mode != "auto" then BadMode
    else
      var full := Fit(rs, 0, patch, print_);
      if mode == "full" || (mode == "auto" && full.tokens <= limit) then Input(Plain(full, false))
      else
        var pruned := Fit(PruneAll(rs, keep), 0, patch, print_);
        if pruned.tokens <= limit then Input(Plain(pruned, pruned.text != full.text))
        else Input(Plain(ShrinkToFit(PruneAll(rs, keep), limit, patch, print_), pruned.text != full.text))
  }

  // ---- What it promises ----------------------------------------------------------------------------------

  /** The text is all of the events, or a non-empty prefix, a marker that counts exactly what is
      missing, and a non-empty suffix. */
  ghost predicate Shows(text: string, elided: nat, rs: seq<Rec>, patch: string, print_: Printer) {
    if elided == 0 then text == Serialize(rs, patch, print_)
    else exists first, last :: ShowsEnds(text, elided, rs, patch, print_, first, last)
  }

  ghost predicate ShowsEnds(text: string, elided: nat, rs: seq<Rec>, patch: string, print_: Printer, first: nat,
                            last: nat) {
    && first > 0 && last > 0 && first + elided + last == |rs|
    && text == Serialize(rs[..first] + [Elided(elided)] + rs[|rs| - last..], patch, print_)
  }

  lemma WindowShows(rs: seq<Rec>, w: nat, patch: string, print_: Printer)
    requires 4 <= w < |rs|
    ensures var f := Windowed(rs, w, patch, print_);
            && f.elided == |rs| - w > 0 && f.tokens == |f.text| / 4
            && ShowsEnds(f.text, f.elided, rs, patch, print_, w / 2, w - w / 2)
  {}

  ghost predicate Small(f: Fitted, limit: int, rs: seq<Rec>) {
    f.tokens <= limit || |rs| <= 4 || |rs| == f.elided + 4
  }

  lemma {:induction false} ShrinkKeeps(rs: seq<Rec>, w: nat, now: Fitted, limit: int, patch: string, print_: Printer)
    requires Shows(now.text, now.elided, rs, patch, print_) && now.tokens == |now.text| / 4
    requires now.elided + w == |rs| && (w < 4 ==> w == |rs|)
    ensures var f := Shrink(rs, w, now, limit, patch, print_);
            && Shows(f.text, f.elided, rs, patch, print_) && f.tokens == |f.text| / 4
            && Small(f, limit, rs) && (now.tokens <= limit ==> f == now)
    decreases w
  {
    if now.tokens > limit && w > 4 {
      var w' := Max(4, w / 2);
      WindowShows(rs, w', patch, print_);
      ShrinkKeeps(rs, w', Windowed(rs, w', patch, print_), limit, patch, print_);
    }
  }

  /** The window after k halvings, down to four. */
  function Halved(n: nat, k: nat): nat {
    if k == 0 then n else var h := Halved(n, k - 1) / 2; if h < 4 then 4 else h
  }

  function WindowAt(rs: seq<Rec>, k: nat, patch: string, print_: Printer): Fitted {
    if k == 0 then Fit(rs, 0, patch, print_) else Windowed(rs, Halved(|rs|, k), patch, print_)
  }

  lemma {:induction false} ShrinkFrom(rs: seq<Rec>, k: nat, limit: int, patch: string, print_: Printer)
    returns (last: nat)
    requires forall j: nat :: j < k ==> WindowAt(rs, j, patch, print_).tokens > limit && Halved(|rs|, j) > 4
    ensures Shrink(rs, Halved(|rs|, k), WindowAt(rs, k, patch, print_), limit, patch, print_)
            == WindowAt(rs, last, patch, print_)
    ensures forall j: nat :: j < last ==> WindowAt(rs, j, patch, print_).tokens > limit && Halved(|rs|, j) > 4
    ensures WindowAt(rs, last, patch, print_).tokens <= limit || Halved(|rs|, last) <= 4
    decreases Halved(|rs|, k)
  {
    last := k;
    if WindowAt(rs, k, patch, print_).tokens > limit && Halved(|rs|, k) > 4 {
      last := ShrinkFrom(rs, k + 1, limit, patch, print_);
    }
  }

  /** Shrinking stops at the first of the halved windows whose text fits, or at the first of four. */
  lemma ShrinksOnlySoFar(rs: seq<Rec>, limit: int, patch: string, print_: Printer) returns (last: nat)
    ensures ShrinkToFit(rs, limit, patch, print_) == WindowAt(rs, last, patch, print_)
    ensures forall j: nat :: j < last ==> WindowAt(rs, j, patch, print_).tokens > limit && Halved(|rs|, j) > 4
    ensures WindowAt(rs, last, patch, print_).tokens <= limit || Halved(|rs|, last) <= 4
  {
    last := ShrinkFrom(rs, 0, limit, patch, print_);
  }

  /** The records the judge was shown a text of. */
  function Source(rs: seq<Rec>, mode: string, limit: int, keep: nat, patch: string, print_: Printer): seq<Rec> {
    if mode == "full" || (mode == "auto" && Fit(rs, 0, patch, print_).tokens <= limit) then rs else PruneAll(rs, keep)
  }

  /** For every trajectory, limit and mode: the text fits, or the mode is full, or at most four
      events are left; what is shown is a prefix and a suffix around an exact marker; and the
      truncation flag is set exactly when events are missing. */
  lemma AssembleHonest(patch: string, rs: seq<Rec>, mode: string, limit: int, keep: nat, print_: Printer)
    ensures var r := Assemble(patch, rs, mode, limit, keep, print_);
            && (r.BadMode? <==> mode !in ["full", "pruned", "auto"])
            && (r.Input? ==>
                  && Shows(r.a.text, r.a.eventsElided, Source(rs, mode, limit, keep, patch, print_), patch, print_)
                  && (r.a.tokens <= limit || mode == "full" || |rs| <= 4 || |rs| == r.a.eventsElided + 4)
                  && (r.a.inputTruncated <==> r.a.eventsElided > 0)
                  && r.a.tokens == |r.a.text| / 4)
  {
    var p := PruneAll(rs, keep);
    ShrinkKeeps(p, |p|, Fit(p, 0, patch, print_), limit, patch, print_);
  }

  /** Nothing is pruned or dropped that did not have to be: a full-mode text and an automatic one
      that fits are the trajectory itself, and events go only when pruning was not enough. */
  lemma AssembleMinimal(patch: string, rs: seq<Rec>, mode: string, limit: int, keep: nat, print_: Printer)
    ensures var r := Assemble(patch, rs, mode, limit, keep, print_);
            var whole, pruned := Serialize(rs, patch, print_), Serialize(PruneAll(rs, keep), patch, print_);
            r.Input? ==>
              && (mode == "full" || (mode == "auto" && |whole| / 4 <= limit)
                 ==> r.a == Assembled(whole, |whole| / 4, false, false, 0))
              && (r.a.eventsElided > 0 ==> mode != "full" && |pruned| / 4 > limit)
              && (r.a.toolOutputPruned ==> exists i :: 0 <= i < |rs| && PruneToolOutput(rs[i], keep) != rs[i])
              && (r.a.toolOutputPruned <==>
                    mode != "full" && (mode == "pruned" || |whole| / 4 > limit) && pruned != whole)
              && (!r.a.toolOutputPruned && r.a.eventsElided == 0 ==> r.a.text == whole)
  {
    var p := PruneAll(rs, keep);
    ShrinkKeeps(p, |p|, Fit(p, 0, patch, print_), limit, patch, print_);
    if forall i :: 0 <= i < |rs| ==> PruneToolOutput(rs[i], keep) == rs[i] {
      assert p == rs;
    }
  }
}
