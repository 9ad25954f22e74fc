/** Stripping and searching strings; what counts as white space is a parameter. */
module Text {
  import opened Options

  function LStrip(t: string, space: char -> bool): (r: string) {
    if t != "" && space(t[0]) then LStrip(t[1..], space) else t
  }

  function RStrip(t: string, space: char -> bool): (r: string) {
    if t != "" && space(t[|t| - 1]) then RStrip(t[..|t| - 1], space) else t
  }

  function Strip(t: string, space: char -> bool): string {
    RStrip(LStrip(t, space), space)
  }

  lemma {:induction false} LStripKeeps(a: string, b: string, space: char -> bool)
    requires b != "" && !space(b[0])
    ensures LStrip(a + b, space) == LStrip(a, space) + b
    ensures forall c :: c in LStrip(a, space) ==> c in a
  {
    if a == "" {
      assert a + b == b;
    } else {
      LStripKeeps(a[1..], b, space);
      assert (a + b)[1..] == a[1..] + b;
    }
  }

  lemma {:induction false} RStripKeeps(a: string, b: string, space: char -> bool)
    requires a != "" && !space(a[|a| - 1])
    ensures RStrip(a + b, space) == a + RStrip(b, space)
  {
    if b == "" {
      assert a + b == a;
    } else {
      var n := |b| - 1;
      RStripKeeps(a, b[..n], space);
      assert (a + b)[..|a + b| - 1] == a + b[..n];
    }
  }

  predicate AllSpace(t: string, space: char -> bool) {
    forall i :: 0 <= i < |t| ==> space(t[i])
  }

  lemma {:induction false} LStripMeans(t: string, space: char -> bool) returns (a: string)
    ensures t == a + LStrip(t, space) && AllSpace(a, space)
    ensures LStrip(t, space) != "" ==> !space(LStrip(t, space)[0])
  {
    a := "";
    if t != "" && space(t[0]) {
      var b := LStripMeans(t[1..], space);
      a := [t[0]] + b;
      assert t == [t[0]] + t[1..];
    }
  }

  lemma {:induction false} RStripMeans(t: string, space: char -> bool) returns (b: string)
    ensures t == RStrip(t, space) + b && AllSpace(b, space)
    ensures RStrip(t, space) != "" ==> !space(RStrip(t, space)[|RStrip(t, space)| - 1])
  {
    b := "";
    if t != "" && space(t[|t| - 1]) {
      var n := |t| - 1;
      var c := RStripMeans(t[..n], space);
      b := c + [t[n]];
      assert t == t[..n] + [t[n]];
    }
  }

  /** Stripping takes white space off both ends, and all there is. */
  lemma StripMeans(t: string, space: char -> bool) returns (a: string, b: string)
    ensures var r := Strip(t, space);
            && t == a + r + b && AllSpace(a, space) && AllSpace(b, space)
            && (r != "" ==> !space(r[0]) && !space(r[|r| - 1]))
  {
    a := LStripMeans(t, space);
    b := RStripMeans(LStrip(t, space), space);
    assert t == a + (Strip(t, space) + b);
  }

  // ---- Searching ---------------------------------------------------------------------------

  predicate At(text: string, name: string, i: nat) {
    i + |name| <= |text| && text[i..i + |name|] == name
  }

  /** The first occurrence of name at or after a position. */
  function First(text: string, name: string, from: nat): (r: Option<nat>)
    ensures r.Some? ==> from <= r.value && At(text, name, r.value)
    ensures r.Some? ==> forall j: nat :: from <= j < r.value ==> !At(text, name, j)
    ensures r.None? ==> forall j: nat :: from <= j ==> !At(text, name, j)
    decreases |text| - from
  {
    if At(text, name, from) then Some(from)
    else if from >= |text| then None
    else First(text, name, from + 1)
  }

  /** What stands before the first mark. */
  function UpTo(s: string, mark: string): string {
    match First(s, mark, 0) case None => s case Some(i) => s[..i]
  }

  lemma UpToMark(s: string, c: char, mark: string, rest: string)
    requires mark != "" && mark[0] == c && c !in s
    ensures UpTo(s + mark + rest, mark) == s
  {
    var t := s + mark + rest;
    assert t[|s|..|s| + |mark|] == mark;
    assert At(t, mark, |s|);
    forall j: nat | j < |s| ensures !At(t, mark, j) {
      if j + |mark| <= |t| { assert t[j..j + |mark|][0] == s[j] && s[j] in s; }
    }
  }

  // ---- Numbers -----------------------------------------------------------------------------

  function Decimal(n: nat): string {
    if n < 10 then [DIGITS[n]] else Decimal(n / 10) + [DIGITS[n % 10]]
  }

  const DIGITS: string := "0123456789"

  lemma {:induction false} DecimalIsDigits(n: nat)
    ensures forall i :: 0 <= i < |Decimal(n)| ==> Decimal(n)[i] in DIGITS
  {
    if n >= 10 { DecimalIsDigits(n / 10); }
  }

  function ValueOf(s: string): int {
    if s == "" then 0 else 10 * ValueOf(s[..|s| - 1]) + (s[|s| - 1] as int - '0' as int)
  }

  lemma DigitValue(d: nat)
    requires d < 10
    ensures DIGITS[d] as int - '0' as int == d
  {}

  /** The decimal of a number reads as that number. */
  lemma {:induction false} DecimalMeans(n: nat)
    ensures ValueOf(Decimal(n)) == n
  {
    DigitValue(n % 10);
    if n < 10 {
      assert [DIGITS[n]][..0] == "";
    } else {
      DecimalMeans(n / 10);
      var s := Decimal(n);
      assert s[..|s| - 1] == Decimal(n / 10);
    }
  }
}
