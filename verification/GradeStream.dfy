/** The running summary of a grade's output stream: chunks of bytes arrive cut anywhere, and the
    summary must not depend on where. Decoding and the two notions of blank are parameters. */
module GradeStream {
  import opened Lines

  type Byte = b: nat | b < 256

  const NEWLINE: Byte := 10
  const LAST_LINE_MAX: nat := 200

  /** How bytes are shown: decoded text, whether a text is blank, whether bytes are. */
  datatype Format = Format(decode: seq<Byte> -> string, blank: string -> bool, blankBytes: seq<Byte> -> bool)

  datatype Progress = Progress(bytes: nat, lines: nat, lastLine: string, partial: seq<Byte>, done: bool)

  const NOTHING: Progress := Progress(0, 0, "", [], false)

  // ---- Lines ---------------------------------------------------------------------------------

  function DropReturns(t: string): string {
    if t != "" && t[|t| - 1] == '\r' then DropReturns(t[..|t| - 1]) else t
  }

  function Clip(t: string): string {
    if |t| <= LAST_LINE_MAX then t else t[..LAST_LINE_MAX]
  }

  /** The last line that is not blank, or what was shown before. */
  function LastShown(f: Format, lines: seq<seq<Byte>>, shown: string): string {
    if lines == [] then shown
    else
      var n := |lines| - 1;
      var text := DropReturns(f.decode(lines[n]));
      if f.blank(text) then LastShown(f, lines[..n], shown) else Clip(text)
  }

  /** The text without the carriage returns at its end. */
  lemma {:induction false} DropReturnsMeans(t: string) returns (b: string)
    ensures t == DropReturns(t) + b && (forall i :: 0 <= i < |b| ==> b[i] == '\r')
    ensures DropReturns(t) != "" ==> DropReturns(t)[|DropReturns(t)| - 1] != '\r'
  {
    b := "";
    if t != "" && t[|t| - 1] == '\r' {
      var n := |t| - 1;
      var c := DropReturnsMeans(t[..n]);
      b := c + ['\r'];
      assert t == t[..n] + ['\r'];
    }
  }

  /** The last line that is not blank without its carriage returns, cut to 200 characters; the line shown
      before when there is none. */
  lemma {:induction false} LastShownMeans(f: Format, lines: seq<seq<Byte>>, shown: string, i: nat)
    requires i <= |lines| && forall j :: i <= j < |lines| ==> f.blank(DropReturns(f.decode(lines[j])))
    requires i > 0 ==> !f.blank(DropReturns(f.decode(lines[i - 1])))
    ensures LastShown(f, lines, shown) ==
            if i == 0 then shown
            else var text := DropReturns(f.decode(lines[i - 1])); if |text| <= 200 then text else text[..200]
  {
    if i < |lines| { LastShownMeans(f, lines[..|lines| - 1], shown, i); }
  }

  // ---- The two operations on the summary ---------------------------------------------------------

  function Fed(f: Format, v: Progress, chunk: seq<Byte>): Progress {
    if chunk == [] then v
    else
      var parts := Split(v.partial + chunk, NEWLINE);
      var complete := Complete(parts);
      Progress(v.bytes + |chunk|, v.lines + |complete|, LastShown(f, complete, v.lastLine), Tail(parts), v.done)
  }

  function Finished(f: Format, v: Progress): Progress {
    if f.blankBytes(v.partial) then v.(done := true)
    else v.(done := true, lines := v.lines + 1, lastLine := Clip(f.decode(v.partial)), partial := [])
  }

  /** The loop that looks for it from the end, so that a trailing blank line does not erase the
      name that came just before. */
  method FindLastShown(f: Format, lines: seq<seq<Byte>>, shown: string) returns (r: string)
    ensures r == LastShown(f, lines, shown)
  {
    var i := |lines|;
    assert lines[..i] == lines;
    while i > 0
      invariant 0 <= i <= |lines| && LastShown(f, lines, shown) == LastShown(f, lines[..i], shown)
    {
      i := i - 1;
      assert lines[..i + 1][..i] == lines[..i];
      var last := DropReturns(f.decode(lines[i]));
      if !f.blank(last) {
        return Clip(last);
      }
    }
    r := shown;
  }

  class GradeProgress {
    const format: Format
    var bytes: nat
    var lines: nat
    var lastLine: string
    var partial: seq<Byte>
    var done: bool

    function View(): Progress
      reads this
    {
      Progress(bytes, lines, lastLine, partial, done)
    }

    constructor (format: Format)
      ensures View() == NOTHING && this.format == format
    {
      this.format := format;
      bytes, lines, lastLine, partial, done := 0, 0, "", [], false;
    }

    method Feed(chunk: seq<Byte>)
      modifies this
      ensures View() == Fed(format, old(View()), chunk)
    {
      if chunk == [] {
        return;
      }
      bytes := bytes + |chunk|;
      var parts := Split(partial + chunk, NEWLINE);
      partial := Tail(parts);
      var complete := Complete(parts);
      lines := lines + |complete|;
      lastLine := FindLastShown(format, complete, lastLine);
    }

    method Finish()
      modifies this
      ensures View() == Finished(format, old(View()))
    {
      done := true;
      if !format.blankBytes(partial) {
        lines := lines + 1;
        lastLine := Clip(format.decode(partial));
        partial := [];
      }
    }
  }

  // ---- Chunking does not matter --------------------------------------------------------------------

  function Newlines(s: seq<Byte>): nat {
    if s == [] then 0 else Newlines(s[..|s| - 1]) + if s[|s| - 1] == NEWLINE then 1 else 0
  }

  /** What the whole stream amounts to, looked at once: the unfinished line is what follows the
      last newline. */
  function Whole(f: Format, s: seq<Byte>): Progress {
    Progress(|s|, Newlines(s), LastShown(f, Complete(Split(s, NEWLINE)), ""), Unfinished(s), false)
  }

  function Unfinished(s: seq<Byte>): seq<Byte> {
    if s == [] || s[|s| - 1] == NEWLINE then [] else Unfinished(s[..|s| - 1]) + [s[|s| - 1]]
  }

  lemma {:induction false} SplitMeans(s: seq<Byte>)
    ensures |Split(s, NEWLINE)| == Newlines(s) + 1 && Tail(Split(s, NEWLINE)) == Unfinished(s)
  {
    if s != [] { SplitMeans(s[..|s| - 1]); }
  }

  lemma {:induction false} LastShownAcross(f: Format, a: seq<seq<Byte>>, b: seq<seq<Byte>>, shown: string)
    ensures LastShown(f, a + b, shown) == LastShown(f, b, LastShown(f, a, shown))
  {
    if b == [] {
      assert a + b == a;
    } else {
      LastShownAcross(f, a, b[..|b| - 1], shown);
      assert (a + b)[..|a + b| - 1] == a + b[..|b| - 1];
    }
  }

  lemma FeedLines(f: Format, s: seq<Byte>, chunk: seq<Byte>, before: seq<seq<Byte>>, parts: seq<seq<Byte>>)
    requires parts != [] && before == Complete(Split(s, NEWLINE)) && Split(s + chunk, NEWLINE) == before + parts
    ensures LastShown(f, Complete(Split(s + chunk, NEWLINE)), "")
            == LastShown(f, Complete(parts), LastShown(f, before, ""))
    ensures Newlines(s + chunk) == Newlines(s) + |Complete(parts)| && Unfinished(s + chunk) == Tail(parts)
  {
    SplitMeans(s);
    SplitMeans(s + chunk);
    assert Complete(before + parts) == before + Complete(parts);
    LastShownAcross(f, before, Complete(parts), "");
  }

  lemma FeedWhole(f: Format, s: seq<Byte>, chunk: seq<Byte>)
    ensures Fed(f, Whole(f, s), chunk) == Whole(f, s + chunk)
  {
    if chunk == [] {
      assert s + chunk == s;
    } else {
      SplitMeans(s);
      SplitAcross(s, chunk, NEWLINE);
      FeedLines(f, s, chunk, Complete(Split(s, NEWLINE)), Split(Unfinished(s) + chunk, NEWLINE));
    }
  }

  function FedAll(f: Format, v: Progress, chunks: seq<seq<Byte>>): Progress {
    if chunks == [] then v else Fed(f, FedAll(f, v, chunks[..|chunks| - 1]), chunks[|chunks| - 1])
  }

  function Concat(chunks: seq<seq<Byte>>): seq<Byte> {
    if chunks == [] then [] else Concat(chunks[..|chunks| - 1]) + chunks[|chunks| - 1]
  }

  lemma FeedStep(f: Format, s: seq<Byte>, before: seq<Byte>, chunk: seq<Byte>)
    ensures Fed(f, Whole(f, s + before), chunk) == Whole(f, s + (before + chunk))
  {
    FeedWhole(f, s + before, chunk);
    assert s + before + chunk == s + (before + chunk);
  }

  lemma {:induction false} FeedFrom(f: Format, s: seq<Byte>, chunks: seq<seq<Byte>>)
    ensures FedAll(f, Whole(f, s), chunks) == Whole(f, s + Concat(chunks))
  {
    if chunks == [] {
      assert s + [] == s;
    } else {
      var n := |chunks| - 1;
      FeedFrom(f, s, chunks[..n]);
      FeedStep(f, s, Concat(chunks[..n]), chunks[n]);
    }
  }

  /** However the stream is cut into chunks, the summary is that of the whole stream. */
  lemma ChunkingInvariant(f: Format, chunks: seq<seq<Byte>>)
    ensures FedAll(f, NOTHING, chunks) == Whole(f, Concat(chunks))
  {
    assert Whole(f, []) == NOTHING;
    FeedFrom(f, [], chunks);
    assert [] + Concat(chunks) == Concat(chunks);
  }

  /** Finishing counts the unfinished line exactly when it is not blank, and a second finish
      changes nothing. */
  lemma FinishCounts(f: Format, chunks: seq<seq<Byte>>)
    requires f.blankBytes([])
    ensures var s := Concat(chunks);
            var v := Finished(f, FedAll(f, NOTHING, chunks));
            && v.done && v.bytes == |s|
            && v.lines == Newlines(s) + (if f.blankBytes(Unfinished(s)) then 0 else 1)
            && (!f.blankBytes(Unfinished(s)) ==> v.lastLine == Clip(f.decode(Unfinished(s))) && v.partial == [])
            && Finished(f, v) == v
  {
    ChunkingInvariant(f, chunks);
  }

  // ---- Output that arrives after the finish ----------------------------------------------------------

  lemma {:induction false} NewlinesAppend(a: seq<Byte>, b: seq<Byte>)
    ensures Newlines(a + b) == Newlines(a) + Newlines(b)
  {
    if b == [] {
      assert a + b == a;
    } else {
      NewlinesAppend(a, b[..|b| - 1]);
      assert (a + b)[..|a + b| - 1] == a + b[..|b| - 1];
    }
  }

  lemma {:induction false} UnfinishedHasNone(s: seq<Byte>)
    ensures Newlines(Unfinished(s)) == 0
  {
    if s != [] && s[|s| - 1] != NEWLINE {
      var n := |s| - 1;
      UnfinishedHasNone(s[..n]);
      assert (Unfinished(s[..n]) + [s[n]])[..|Unfinished(s[..n])|] == Unfinished(s[..n]);
    }
  }

  lemma {:induction false} FeedCounts(f: Format, v: Progress, chunks: seq<seq<Byte>>)
    requires Newlines(v.partial) == 0
    ensures var w := FedAll(f, v, chunks); w.lines == v.lines + Newlines(Concat(chunks)) && Newlines(w.partial) == 0
  {
    if chunks != [] {
      var n := |chunks| - 1;
      FeedCounts(f, v, chunks[..n]);
      var u := FedAll(f, v, chunks[..n]);
      NewlinesAppend(u.partial, chunks[n]);
      SplitMeans(u.partial + chunks[n]);
      UnfinishedHasNone(u.partial + chunks[n]);
      NewlinesAppend(Concat(chunks[..n]), chunks[n]);
      if chunks[n] == [] { assert Concat(chunks[..n]) + [] == Concat(chunks[..n]); }
    }
  }

  /** A grade that timed out is finished while its stream still flows. The count it ends with is that
      of the newlines, plus one for an unfinished line that the finish took in, whatever became of
      that line. */
  lemma LateCount(f: Format, chunks: seq<seq<Byte>>, late: seq<seq<Byte>>)
    ensures var s := Concat(chunks);
            FedAll(f, Finished(f, FedAll(f, NOTHING, chunks)), late).lines
            == Newlines(s + Concat(late)) + if f.blankBytes(Unfinished(s)) then 0 else 1
  {
    var s := Concat(chunks);
    ChunkingInvariant(f, chunks);
    UnfinishedHasNone(s);
    FeedCounts(f, Finished(f, FedAll(f, NOTHING, chunks)), late);
    NewlinesAppend(s, Concat(late));
  }

  /** So it differs from the count of the whole stream finished once exactly when the line that was
      unfinished at the finish and the one that is unfinished at the end are not both blank or both
      not blank: too high when only the first is not blank, too low when only the last is not. */
  lemma LateOutputMiscounts(f: Format, chunks: seq<seq<Byte>>, late: seq<seq<Byte>>)
    ensures var s, all := Concat(chunks), Concat(chunks) + Concat(late);
            var now, once := FedAll(f, Finished(f, FedAll(f, NOTHING, chunks)), late).lines,
                Finished(f, Whole(f, all)).lines;
            && (now != once <==> f.blankBytes(Unfinished(s)) != f.blankBytes(Unfinished(all)))
            && (now > once <==> !f.blankBytes(Unfinished(s)) && f.blankBytes(Unfinished(all)))
  {
    LateCount(f, chunks, late);
  }

  /** Where an empty tail is blank and a letter is not. Nothing before the finish and one byte after it:
      one line too few. */
  lemma LateTooLow(f: Format)
    requires f.blankBytes([]) && !f.blankBytes([97])
    ensures Late(f, [], [97]).lines == 0 && Finished(f, Whole(f, [97])).lines == 1
  {
    LateExample(f, [], [97]);
    OneByte(97);
    assert [] + [97] == [97];
  }

  /** One byte before the finish and its newline after it: one line too many. */
  lemma LateTooHigh(f: Format)
    requires f.blankBytes([]) && !f.blankBytes([97])
    ensures Late(f, [97], [NEWLINE]).lines == 2 && Finished(f, Whole(f, [97, NEWLINE])).lines == 1
  {
    LateExample(f, [97], [NEWLINE]);
    OneByte(97);
    TwoBytes(97, NEWLINE);
    assert [97] + [NEWLINE] == [97, NEWLINE];
  }

  /** A half line at the finish that stays one: no miscount. */
  lemma LateJustRight(f: Format)
    requires f.blankBytes([]) && !f.blankBytes([97]) && !f.blankBytes([97, 98])
    ensures Late(f, [97], [98]).lines == 1 && Finished(f, Whole(f, [97, 98])).lines == 1
  {
    LateExample(f, [97], [98]);
    OneByte(97);
    TwoBytes(97, 98);
    assert [97] + [98] == [97, 98];
  }

  lemma OneByte(a: Byte)
    ensures Newlines([a]) == (if a == NEWLINE then 1 else 0)
    ensures Unfinished([a]) == if a == NEWLINE then [] else [a]
  {
    assert [a][..0] == [];
  }

  lemma TwoBytes(a: Byte, b: Byte)
    requires a != NEWLINE
    ensures Newlines([a, b]) == (if b == NEWLINE then 1 else 0)
    ensures Unfinished([a, b]) == if b == NEWLINE then [] else [a, b]
  {
    OneByte(a);
    assert [a, b][..1] == [a];
  }

  function Late(f: Format, before: seq<Byte>, after: seq<Byte>): Progress {
    Fed(f, Finished(f, Fed(f, NOTHING, before)), after)
  }

  lemma LateExample(f: Format, before: seq<Byte>, after: seq<Byte>)
    ensures Late(f, before, after).lines
            == Newlines(before + after) + if f.blankBytes(Unfinished(before)) then 0 else 1
  {
    LateCount(f, [before], [after]);
    OneChunk(f, NOTHING, before);
    OneChunk(f, Finished(f, Fed(f, NOTHING, before)), after);
  }

  lemma OneChunk(f: Format, v: Progress, chunk: seq<Byte>)
    ensures FedAll(f, v, [chunk]) == Fed(f, v, chunk) && Concat([chunk]) == chunk
  {
    assert [chunk][..0] == [];
    assert Concat([chunk]) == Concat([]) + chunk;
  }
}
