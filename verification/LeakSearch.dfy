/** The contamination search: does a test's bare name occur in a text as a whole word? The search
    jumps past every match it rejects. Which characters belong to identifiers, and which are
    white space, are parameters. */
module LeakSearch {
  import opened Options
  import opened Text
  import opened Sorting

  // ---- The search --------------------------------------------------------------------------

  /** An occurrence with no identifier character on either side. */
  predicate WholeWord(text: string, name: string, i: nat, word: char -> bool) {
    && At(text, name, i)
    && (i + |name| < |text| ==> !word(text[i + |name|]))
    && (i > 0 ==> !word(text[i - 1]))
  }

  ghost predicate Occurs(text: string, name: string, word: char -> bool) {
    exists i: nat :: WholeWord(text, name, i, word)
  }

  /** The text is a, the name, b, and neither a ends nor b begins with an identifier character. */
  predicate Between(text: string, a: string, name: string, b: string, word: char -> bool) {
    text == a + name + b && (a == "" || !word(a[|a| - 1])) && (b == "" || !word(b[0]))
  }

  lemma OccursMeans(text: string, name: string, word: char -> bool)
    ensures Occurs(text, name, word) <==> exists a, b :: Between(text, a, name, b, word)
  {
    if Occurs(text, name, word) {
      var i: nat :| WholeWord(text, name, i, word);
      var a, b := text[..i], text[i + |name|..];
      assert text == a + text[i..i + |name|] + b;
      assert Between(text, a, name, b, word);
    }
    if exists a, b :: Between(text, a, name, b, word) {
      var a, b :| Between(text, a, name, b, word);
      assert text[|a|..|a| + |name|] == name;
      assert WholeWord(text, name, |a|, word);
    }
  }

  /** A rejected match is jumped over whole. */
  predicate Search(text: string, name: string, from: nat, word: char -> bool)
    requires name != ""
    decreases |text| - from
  {
    var m := First(text, name, from);
    m.Some? && (WholeWord(text, name, m.value, word) || Search(text, name, m.value + |name|, word))
  }

  method Hits(text: string, name: string, word: char -> bool) returns (hit: bool)
    requires name != ""
    ensures hit == Search(text, name, 0, word)
  {
    var idx := 0;
    while true
      invariant 0 <= idx && Search(text, name, 0, word) == Search(text, name, idx, word)
      decreases |text| - idx
    {
      var m := First(text, name, idx);
      if m.None? {
        return false;
      }
      var end := m.value + |name|;
      if (end == |text| || !word(text[end])) && (m.value == 0 || !word(text[m.value - 1])) {
        return true;
      }
      idx := end;
    }
  }

  // ---- When the jump is harmless -------------------------------------------------------------

  /** Wherever the name overlaps itself, it does so behind an identifier character. */
  ghost predicate Sturdy(name: string, word: char -> bool) {
    forall d :: 0 < d < |name| && name[d..] == name[..|name| - d] ==> word(name[d - 1])
  }

  lemma Overlap(text: string, name: string, i: nat, d: nat)
    requires At(text, name, i) && At(text, name, i + d) && 0 < d < |name|
    ensures name[d..] == name[..|name| - d] && text[i + d - 1] == name[d - 1]
  {
    var a, b := text[i..i + |name|], text[i + d..i + d + |name|];
    forall k | 0 <= k < |name| - d ensures name[d..][k] == name[..|name| - d][k] {
      assert a[d + k] == text[i + d + k] == b[k];
    }
    assert a[d - 1] == text[i + d - 1];
  }

  /** No whole word starts inside a match of a sturdy name. */
  lemma NothingSkipped(text: string, name: string, i: nat, j: nat, word: char -> bool)
    requires Sturdy(name, word) && At(text, name, i) && i < j < i + |name|
    ensures !WholeWord(text, name, j, word)
  {
    if At(text, name, j) { Overlap(text, name, i, j - i); }
  }

  lemma {:induction false} SearchSound(text: string, name: string, from: nat, word: char -> bool)
    requires name != "" && Search(text, name, from, word)
    ensures Occurs(text, name, word)
    decreases |text| - from
  {
    var m := First(text, name, from);
    if WholeWord(text, name, m.value, word) {
    } else {
      SearchSound(text, name, m.value + |name|, word);
    }
  }

  lemma {:induction false} SearchComplete(text: string, name: string, from: nat, word: char -> bool, i: nat)
    requires name != "" && Sturdy(name, word) && from <= i && WholeWord(text, name, i, word)
    ensures Search(text, name, from, word)
    decreases |text| - from
  {
    var m := First(text, name, from);
    assert At(text, name, i);
    if !WholeWord(text, name, m.value, word) {
      if i < m.value + |name| { NothingSkipped(text, name, m.value, i, word); }
      SearchComplete(text, name, m.value + |name|, word, i);
    }
  }

  /** A name of identifier characters only is found exactly when it occurs as a whole word. */
  lemma IdentifierSearchExact(text: string, name: string, word: char -> bool)
    requires name != "" && forall k :: 0 <= k < |name| ==> word(name[k])
    ensures Search(text, name, 0, word) <==> Occurs(text, name, word)
  {
    if Search(text, name, 0, word) { SearchSound(text, name, 0, word); }
    if Occurs(text, name, word) {
      var i: nat :| WholeWord(text, name, i, word);
      SearchComplete(text, name, 0, word, i);
    }
  }

  // ---- And when it is not ----------------------------------------------------------------------

  /** The name, behind an identifier character, with an overlapping second copy. */
  function Doubled(name: string, d: nat, c: char): string
    requires d <= |name|
  {
    [c] + name + name[|name| - d..]
  }

  lemma DoubledMatches(name: string, d: nat, c: char, word: char -> bool)
    requires 0 < d < |name| && name[d..] == name[..|name| - d] && !word(name[d - 1]) && word(c)
    ensures var t := Doubled(name, d, c);
            At(t, name, 1) && !At(t, name, 0) && WholeWord(t, name, 1 + d, word)
  {
    var n, t := |name|, Doubled(name, d, c);
    assert t[1..1 + n] == name;
    assert t[1 + d..1 + d + n] == name[d..] + name[n - d..] == name[..n - d] + name[n - d..] == name;
    assert t[1 + d - 1] == name[d - 1];
    if At(t, name, 0) {
      AllTheSame(t, name, c, d - 1);
      assert false;
    }
  }

  lemma {:induction false} AllTheSame(t: string, name: string, c: char, k: nat)
    requires |t| > |name| > k && t[0] == c && t[1..1 + |name|] == name && t[..|name|] == name
    ensures name[k] == c
  {
    assert name[k] == t[..|name|][k] == t[k];
    if k > 0 {
      AllTheSame(t, name, c, k - 1);
      assert name[k - 1] == t[1..1 + |name|][k - 1] == t[k];
    }
  }

  /** The overlapping copy is a whole word and the search jumps over it. */
  lemma DoubledMissed(name: string, d: nat, c: char, word: char -> bool)
    requires 0 < d < |name| && name[d..] == name[..|name| - d] && !word(name[d - 1]) && word(c)
    ensures var t := Doubled(name, d, c); Occurs(t, name, word) && !Search(t, name, 0, word)
  {
    var t := Doubled(name, d, c);
    DoubledMatches(name, d, c, word);
    var m := First(t, name, 0);
    assert m == Some(1);
    assert !WholeWord(t, name, 1, word);
    var again := First(t, name, 1 + |name|);
    assert again.None?;
  }

  /** The search is right about every text exactly when the name is sturdy. */
  lemma SearchExactExactlyWhen(name: string, word: char -> bool, c: char)
    requires name != "" && word(c)
    ensures (forall text: string :: Search(text, name, 0, word) <==> Occurs(text, name, word)) <==> Sturdy(name, word)
  {
    if Sturdy(name, word) {
      forall text: string ensures Search(text, name, 0, word) <==> Occurs(text, name, word) {
        if Search(text, name, 0, word) { SearchSound(text, name, 0, word); }
        if Occurs(text, name, word) {
          var i: nat :| WholeWord(text, name, i, word);
          SearchComplete(text, name, 0, word, i);
        }
      }
    } else {
      var d :| 0 < d < |name| && name[d..] == name[..|name| - d] && !word(name[d - 1]);
      DoubledMissed(name, d, c, word);
    }
  }

  // ---- The names searched for ----------------------------------------------------------------

  /** The last piece between double colons. */
  function LastPart(s: string): string
    decreases |s|
  {
    match First(s, "::", 0) case None => s case Some(i) => LastPart(s[i + 2..])
  }

  function Normalize(id: string, space: char -> bool): string {
    var s := Strip(UpTo(id, "["), space);
    var t := if "test_" <= s && First(s, " (", 0).Some? then UpTo(s, " (") else s;
    Strip(LastPart(t), space)
  }

  predicate Bare(name: string, space: char -> bool) {
    name != "" && forall k :: 0 <= k < |name| ==> name[k] !in "[ (:" && !space(name[k])
  }

  lemma NotIn(s: string, mark: string, c: char)
    requires c in mark && c !in s
    ensures First(s, mark, 0) == None
  {
    var k :| 0 <= k < |mark| && mark[k] == c;
    forall j: nat ensures !At(s, mark, j) {
      if j + |mark| <= |s| {
        assert s[j + k] in s;
        assert s[j..j + |mark|][k] == s[j + k] != mark[k];
      }
    }
  }

  lemma StripBare(name: string, space: char -> bool)
    requires name != "" && !space(name[0]) && !space(name[|name| - 1])
    ensures Strip(name, space) == name
  {}

  lemma LastPartBare(name: string)
    requires ':' !in name
    ensures LastPart(name) == name
  {
    NotIn(name, "::", ':');
  }

  lemma MarkAt(path: string, name: string)
    requires path != "" ==> path[|path| - 1] != ':'
    ensures var m := First(path + "::" + name, "::", 0);
            m.Some? && (m.value == |path| || m.value + 2 <= |path|)
  {
    var s := path + "::" + name;
    assert s[|path|..|path| + 2] == "::";
    assert At(s, "::", |path|);
    var i := First(s, "::", 0).value;
    if i < |path| {
      assert s[i..i + 2][0] == s[i] == path[i];
      assert path[i] == ':';
      assert i != |path| - 1;
    }
  }

  lemma {:induction false} LastPartAfter(path: string, name: string)
    requires ':' !in name && (path != "" ==> path[|path| - 1] != ':')
    ensures LastPart(path + "::" + name) == name
    decreases |path|
  {
    var s := path + "::" + name;
    MarkAt(path, name);
    var i := First(s, "::", 0).value;
    if i == |path| {
      assert s[i + 2..] == name;
      LastPartBare(name);
    } else {
      var rest := path[i + 2..];
      assert s[i + 2..] == rest + "::" + name;
      LastPartAfter(rest, name);
    }
  }

  /** A pytest id, parametrized or not, reduces to the bare test name. */
  lemma NormalizePytest(path: string, name: string, param: string, space: char -> bool)
    requires Bare(name, space)
    requires path != "" && !space(path[0]) && '[' !in path && ' ' !in path && path[|path| - 1] != ':'
    ensures Normalize(path + "::" + name, space) == name
    ensures Normalize(path + "::" + name + "[" + param, space) == name
  {
    var s := path + "::" + name;
    assert '[' !in s && ' ' !in s;
    NotIn(s, "[", '[');
    UpToMark(s, '[', "[", param);
    StripBare(s, space);
    NotIn(s, " (", ' ');
    LastPartAfter(path, name);
    StripBare(name, space);
  }

  /** So does a unittest id, whatever the class is called. */
  lemma NormalizeUnittest(name: string, class_: string, space: char -> bool)
    requires Bare(name, space) && "test_" <= name && !space('(')
    ensures Normalize(name + " (" + class_, space) == name
  {
    var id := name + " (" + class_;
    var cut := UpTo(id, "[");
    var kept := CutAfter(name + " (", class_);
    RStripKeeps(name + " (", kept, space);
    var s := Strip(cut, space);
    assert s == name + " (" + RStrip(kept, space);
    UpToMark(name, ' ', " (", RStrip(kept, space));
    assert At(s, " (", |name|) by { assert s[|name|..|name| + 2] == " ("; }
    LastPartBare(name);
    StripBare(name, space);
  }

  /** Any other id with a class behind it is left whole. */
  lemma NormalizeLeavesOthers(name: string, class_: string, space: char -> bool)
    requires Bare(name, space) && !("test_" <= name) && !space(')') && '[' !in class_ && ':' !in class_
    ensures Normalize(name + " (" + class_ + ")", space) == name + " (" + class_ + ")"
  {
    var id := name + " (" + class_ + ")";
    NotIn(id, "[", '[');
    StripBare(id, space);
    assert !("test_" <= id) by { NotTest(name, " (" + class_ + ")"); assert id == name + (" (" + class_ + ")"); }
    LastPartBare(id);
  }

  lemma NotTest(name: string, rest: string)
    requires !("test_" <= name) && name != "" && rest != "" && rest[0] == ' '
    ensures !("test_" <= name + rest)
  {
    var id := name + rest;
    if |name| >= 5 { assert id[..5] == name[..5]; } else { assert id[|name|] == ' '; }
  }

  lemma CutAfter(head: string, tail: string) returns (kept: string)
    requires head != "" && '[' !in head
    ensures UpTo(head + tail, "[") == head + kept
  {
    var s := head + tail;
    var m := First(s, "[", 0);
    if m.Some? {
      assert forall j :: 0 <= j < |head| ==> s[j] == head[j] && head[j] in head;
      assert s[m.value..m.value + 1][0] == s[m.value] == '[';
      kept := s[|head|..m.value];
    } else {
      kept := tail;
    }
  }

  predicate Letter(c: char) {
    'a' <= c <= 'z' || 'A' <= c <= 'Z' || '0' <= c <= '9' || c == '_'
  }

  predicate Blank(c: char) {
    c == ' ' || c == '\t' || c == '\n' || c == '\r'
  }

  lemma HyphenatedId()
    ensures Normalize("t.py::a-a", Blank) == "a-a"
  {
    var path, name: string := "t.py", "a-a";
    assert path + "::" + name == "t.py::a-a";
    NormalizePytest(path, name, "", Blank);
  }

  lemma HyphenatedMissed()
    ensures Occurs("xa-a-a", "a-a", Letter) && !Search("xa-a-a", "a-a", 0, Letter)
  {
    var name: string := "a-a";
    assert name[2..] == "a" == name[..1] && !Letter(name[1]);
    assert Doubled(name, 2, 'x') == "xa-a-a";
    DoubledMissed(name, 2, 'x', Letter);
  }

  /** A test called a-a overlaps itself behind its hyphen; in xa-a-a its whole-word occurrence starts
      inside a match that is rejected, and the id is not reported. */
  lemma HyphenatedNameMissed()
    ensures Normalize("t.py::a-a", Blank) == "a-a" && Occurs("xa-a-a", "a-a", Letter)
    ensures !Reported("xa-a-a", "t.py::a-a", Letter, Blank)
  {
    HyphenatedId();
    HyphenatedMissed();
  }

  // ---- All of an instance's names --------------------------------------------------------------

  predicate Reported(text: string, id: string, word: char -> bool, space: char -> bool) {
    var name := Normalize(id, space);
    text != "" && |name| >= 3 && Search(text, name, 0, word)
  }

  lemma SortedHits(hits: seq<string>)
    ensures var s := Sort(StrLe, hits);
            IsSorted(StrLe, s) && multiset(s) == multiset(hits) && forall x :: x in s <==> x in hits
  {
    forall a, b ensures StrLe(a, b) || StrLe(b, a) { StrLeTotal(a, b); }
    forall a, b, c | StrLe(a, b) && StrLe(b, c) ensures StrLe(a, c) { StrLeTransitive(a, b, c); }
    SortSpec(StrLe, hits);
    assert forall x :: x in Sort(StrLe, hits) <==> x in multiset(Sort(StrLe, hits));
  }

  /** An id is reported exactly when its name has three characters or more and stands in the text between
      characters that are no identifier's, for every name of identifier characters. */
  lemma ReportedExactlyWhen(text: string, id: string, word: char -> bool, space: char -> bool, name: string)
    requires name == Normalize(id, space) && forall k :: 0 <= k < |name| ==> word(name[k])
    ensures Reported(text, id, word, space) <==> |name| >= 3 && exists a, b :: Between(text, a, name, b, word)
  {
    OccursMeans(text, name, word);
    if name != "" { IdentifierSearchExact(text, name, word); }
    if text == "" && |name| >= 3 { assert !Occurs(text, name, word); }
  }

  method Report(text: string, id: string, word: char -> bool, space: char -> bool) returns (hit: bool)
    requires text != ""
    ensures hit == Reported(text, id, word, space)
  {
    var name := Normalize(id, space);
    if |name| < 3 {
      return false;
    }
    hit := Hits(text, name, word);
  }

  ghost predicate Once(s: seq<string>) {
    forall x :: x in s ==> multiset(s)[x] == 1
  }

  /** In order and without repeats, the given ids whose name is long enough and found. */
  method DetectLeakedNodeIds(text: string, absent: Option<seq<string>>, word: char -> bool, space: char -> bool)
    returns (leaked: seq<string>)
    ensures IsSorted(StrLe, leaked) && Once(leaked)
    ensures forall id :: id in leaked <==> absent.Some? && id in absent.value && Reported(text, id, word, space)
  {
    if text == "" {
      return [];
    }
    var ids := if absent.Some? then absent.value else [];
    var hits := [];
    for i := 0 to |ids|
      invariant Once(hits)
      invariant forall id :: id in hits <==> id in ids[..i] && Reported(text, id, word, space)
    {
      assert ids[..i + 1] == ids[..i] + [ids[i]];
      var hit := Report(text, ids[i], word, space);
      if hit && ids[i] !in hits {
        hits := hits + [ids[i]];
      }
    }
    assert ids[..|ids|] == ids;
    SortedHits(hits);
    leaked := Sort(StrLe, hits);
  }
}
