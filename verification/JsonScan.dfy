/** Recovering one JSON object from prose: the first balanced brace span, scanned with an eye to
    strings, against the text of RFC 8259 objects. The JSON parser itself is a parameter. */
module JsonScan {
  import opened Options
  import opened Text

  // ---- JSON texts: sections 2 to 7 of RFC 8259 ---------------------------------------------

  /** Section 7: a character as itself, after a backslash, or as four hex digits. */
  datatype Unit = Plain(c: char) | Escaped(c: char) | Hex(digits: string)

  /** A literal name or a number, a string, an array, an object; spacing is kept. */
  datatype Value =
    | Literal(text: string)
    | Text(units: seq<Unit>)
    | Array(gap: string, items: Items)
    | Object(gap: string, members: Members)

  datatype Items = NoItems | Item(before: string, v: Value, after: string, rest: Items)

  datatype Members =
    | NoMembers
    | Member(before: string, key: seq<Unit>, colonGap: string, valueGap: string, v: Value, after: string, rest: Members)

  predicate Spacing(s: string) {
    forall i :: 0 <= i < |s| ==> s[i] in " \t\n\r"
  }

  predicate ValidUnit(u: Unit) {
    match u
    case Plain(c) => c >= ' ' && c != '"' && c != '\\'
    case Escaped(c) => c in "\"\\/bfnrt"
    case Hex(d) => |d| == 4 && forall i :: 0 <= i < 4 ==> d[i] in "0123456789abcdefABCDEF"
  }

  predicate ValidUnits(us: seq<Unit>) {
    forall i :: 0 <= i < |us| ==> ValidUnit(us[i])
  }

  /** Numbers by their alphabet only, which admits every number of section 6. */
  predicate ValidLiteral(t: string) {
    t == "true" || t == "false" || t == "null" || (t != "" && forall i :: 0 <= i < |t| ==> t[i] in "0123456789+-.eE")
  }

  predicate Valid(v: Value) {
    match v
    case Literal(t) => ValidLiteral(t)
    case Text(us) => ValidUnits(us)
    case Array(gap, items) => Spacing(gap) && ValidItems(items)
    case Object(gap, members) => Spacing(gap) && ValidMembers(members)
  }

  predicate ValidItems(items: Items) {
    match items
    case NoItems => true
    case Item(a, v, b, rest) => Spacing(a) && Valid(v) && Spacing(b) && ValidItems(rest)
  }

  predicate ValidMembers(ms: Members) {
    match ms
    case NoMembers => true
    case Member(a, k, b, c, v, d, rest) =>
      Spacing(a) && ValidUnits(k) && Spacing(b) && Spacing(c) && Valid(v) && Spacing(d) && ValidMembers(rest)
  }

  function PrintUnit(u: Unit): string {
    match u case Plain(c) => [c] case Escaped(c) => ['\\', c] case Hex(d) => "\\u" + d
  }

  function PrintUnits(us: seq<Unit>): string {
    if us == [] then "" else PrintUnit(us[0]) + PrintUnits(us[1..])
  }

  function PrintString(us: seq<Unit>): string {
    "\"" + (PrintUnits(us) + "\"")
  }

  function Print(v: Value): string {
    match v
    case Literal(t) => t
    case Text(us) => PrintString(us)
    case Array(gap, items) => "[" + ((gap + PrintItems(items)) + "]")
    case Object(gap, members) => "{" + ((gap + PrintMembers(members)) + "}")
  }

  function PrintItems(items: Items): string {
    match items
    case NoItems => ""
    case Item(a, v, b, rest) => a + (Print(v) + (b + (Comma(rest.NoItems?) + PrintItems(rest))))
  }

  function PrintMembers(ms: Members): string {
    match ms
    case NoMembers => ""
    case Member(a, k, b, c, v, d, rest) =>
      a + (PrintString(k) + (b + (":" + (c + (Print(v) + (d + (Comma(rest.NoMembers?) + PrintMembers(rest))))))))
  }

  function Comma(last: bool): string { if last then "" else "," }

  // ---- The scanner -------------------------------------------------------------------------

  datatype Scan = Scan(depth: int, inString: bool, escaped: bool)

  function Outside(depth: int): Scan { Scan(depth, false, false) }

  function Step(s: Scan, ch: char): Scan {
    if s.inString then
      if s.escaped then s.(escaped := false)
      else if ch == '\\' then s.(escaped := true)
      else if ch == '"' then s.(inString := false)
      else s
    else if ch == '"' then s.(inString := true)
    else if ch == '{' then s.(depth := s.depth + 1)
    else if ch == '}' then s.(depth := s.depth - 1)
    else s
  }

  predicate Closes(s: Scan, ch: char) {
    !s.inString && ch == '}' && s.depth == 1
  }

  /** Where the brace that brings the depth back to zero stands. */
  function CloseAt(s: Scan, t: string): Option<nat>
    decreases |t|
  {
    if t == "" then None
    else if Closes(s, t[0]) then Some(0)
    else Later(CloseAt(Step(s, t[0]), t[1..]), 1)
  }

  function Later(o: Option<nat>, n: nat): Option<nat> {
    if o.Some? then Some(o.value + n) else None
  }

  /** The first opening brace. */
  function OpenAt(t: string): Option<nat> {
    if t == "" then None else if t[0] == '{' then Some(0) else Later(OpenAt(t[1..]), 1)
  }

  /** The span the scan settles on. */
  function Span(t: string): (r: Option<(nat, nat)>)
    ensures r.Some? ==> r.value.0 <= r.value.1 <= |t|
  {
    OpenBound(t);
    match OpenAt(t)
    case None => None
    case Some(start) =>
      CloseBound(Outside(0), t[start..]);
      match CloseAt(Outside(0), t[start..]) case None => None case Some(n) => Some((start, start + n + 1))
  }

  lemma {:induction false} OpenBound(t: string)
    ensures OpenAt(t).Some? ==> OpenAt(t).value < |t|
  {
    if t != "" { OpenBound(t[1..]); }
  }

  lemma {:induction false} CloseBound(s: Scan, t: string)
    ensures CloseAt(s, t).Some? ==> CloseAt(s, t).value < |t|
    decreases |t|
  {
    if t != "" { CloseBound(Step(s, t[0]), t[1..]); }
  }

  method FindOpen(t: string) returns (start: nat)
    ensures OpenAt(t) == if start < |t| then Some(start) else None
    ensures start <= |t|
  {
    start := 0;
    assert t[0..] == t;
    while start < |t| && t[start] != '{'
      invariant 0 <= start <= |t|
      invariant OpenAt(t) == Later(OpenAt(t[start..]), start)
    {
      assert t[start..][1..] == t[start + 1..];
      start := start + 1;
    }
  }

  /** The scan loop, from the opening brace on. */
  method FindClose(t: string) returns (close: Option<nat>)
    ensures close == CloseAt(Outside(0), t)
  {
    var depth, inString, escaped, i := 0, false, false, 0;
    assert t[0..] == t;
    while i < |t|
      invariant 0 <= i <= |t|
      invariant CloseAt(Outside(0), t) == Later(CloseAt(Scan(depth, inString, escaped), t[i..]), i)
    {
      var ch := t[i];
      assert t[i..][0] == ch && t[i..][1..] == t[i + 1..];
      if inString {
        if escaped {
          escaped := false;
        } else if ch == '\\' {
          escaped := true;
        } else if ch == '"' {
          inString := false;
        }
      } else if ch == '"' {
        inString := true;
      } else if ch == '{' {
        depth := depth + 1;
      } else if ch == '}' {
        depth := depth - 1;
        if depth == 0 {
          return Some(i);
        }
      }
      i := i + 1;
    }
    close := None;
  }

  method ScanObject(t: string) returns (r: Option<(nat, nat)>)
    ensures r == Span(t)
  {
    var start := FindOpen(t);
    if start == |t| {
      return None;
    }
    var close := FindClose(t[start..]);
    r := if close.Some? then Some((start, start + close.value + 1)) else None;
  }

  // ---- What a JSON text does to the scanner -------------------------------------------------

  /** The scanner runs over t from s to s' without stopping. */
  ghost predicate Passes(s: Scan, t: string, s': Scan)
    decreases |t|
  {
    if t == "" then s == s' else !Closes(s, t[0]) && Passes(Step(s, t[0]), t[1..], s')
  }

  lemma {:induction false} PassThen(s: Scan, a: string, m: Scan, b: string)
    requires Passes(s, a, m)
    ensures CloseAt(s, a + b) == Later(CloseAt(m, b), |a|)
    decreases |a|
  {
    if a == "" {
      assert a + b == b;
    } else {
      PassThen(Step(s, a[0]), a[1..], m, b);
      assert (a + b)[1..] == a[1..] + b;
    }
  }

  lemma {:induction false} PassJoin(s: Scan, a: string, m: Scan, b: string, s': Scan)
    requires Passes(s, a, m) && Passes(m, b, s')
    ensures Passes(s, a + b, s')
    decreases |a|
  {
    if a == "" {
      assert a + b == b;
    } else {
      PassJoin(Step(s, a[0]), a[1..], m, b, s');
      assert (a + b)[1..] == a[1..] + b;
    }
  }

  predicate Inert(t: string) {
    forall i :: 0 <= i < |t| ==> t[i] != '"' && t[i] != '{' && t[i] != '}'
  }

  lemma {:induction false} InertPasses(t: string, d: int)
    requires Inert(t)
    ensures Passes(Outside(d), t, Outside(d))
  {
    if t != "" { InertPasses(t[1..], d); }
  }

  lemma {:induction false} DigitsPass(t: string, d: int)
    requires forall i :: 0 <= i < |t| ==> t[i] != '"' && t[i] != '\\'
    ensures Passes(Scan(d, true, false), t, Scan(d, true, false))
  {
    if t != "" { DigitsPass(t[1..], d); }
  }

  lemma OnePass(s: Scan, c: char)
    requires !Closes(s, c)
    ensures Passes(s, [c], Step(s, c))
  {
    assert [c][1..] == [];
    assert Passes(Step(s, c), [], Step(s, c));
  }

  lemma EscapePasses(c: char, d: int)
    ensures Passes(Scan(d, true, false), ['\\', c], Scan(d, true, false))
  {
    var inside, after := Scan(d, true, false), Scan(d, true, true);
    OnePass(inside, '\\');
    OnePass(after, c);
    PassJoin(inside, ['\\'], after, [c], inside);
    assert ['\\', c] == ['\\'] + [c];
  }

  lemma HexDigitsInert(digits: string)
    requires ValidUnit(Hex(digits))
    ensures forall i :: 0 <= i < |digits| ==> digits[i] != '"' && digits[i] != '\\'
  {}

  lemma HexPasses(digits: string, d: int)
    requires ValidUnit(Hex(digits))
    ensures Passes(Scan(d, true, false), PrintUnit(Hex(digits)), Scan(d, true, false))
  {
    var inside := Scan(d, true, false);
    HexDigitsInert(digits);
    EscapePasses('u', d);
    DigitsPass(digits, d);
    PassJoin(inside, ['\\', 'u'], inside, digits, inside);
  }

  /** Whatever a string contains, the scanner is still inside it at its end. */
  lemma UnitPasses(u: Unit, d: int)
    requires ValidUnit(u)
    ensures Passes(Scan(d, true, false), PrintUnit(u), Scan(d, true, false))
  {
    match u
    case Plain(c) => DigitsPass([c], d);
    case Escaped(c) => EscapePasses(c, d);
    case Hex(digits) => HexPasses(digits, d);
  }

  lemma {:induction false} UnitsPass(us: seq<Unit>, d: int)
    requires ValidUnits(us)
    ensures Passes(Scan(d, true, false), PrintUnits(us), Scan(d, true, false))
  {
    var inside := Scan(d, true, false);
    if us != [] {
      UnitPasses(us[0], d);
      UnitsPass(us[1..], d);
      PassJoin(inside, PrintUnit(us[0]), inside, PrintUnits(us[1..]), inside);
    }
  }

  lemma StringPasses(us: seq<Unit>, d: int)
    requires ValidUnits(us)
    ensures Passes(Outside(d), PrintString(us), Outside(d))
  {
    var inside := Scan(d, true, false);
    OnePass(Outside(d), '"');
    UnitsPass(us, d);
    OnePass(inside, '"');
    PassJoin(inside, PrintUnits(us), inside, "\"", Outside(d));
    PassJoin(Outside(d), "\"", inside, PrintUnits(us) + "\"", Outside(d));
  }

  lemma LiteralPasses(t: string, d: int)
    requires ValidLiteral(t)
    ensures Passes(Outside(d), t, Outside(d))
  {
    InertPasses(t, d);
  }

  lemma SpacingPasses(s: string, d: int)
    requires Spacing(s)
    ensures Passes(Outside(d), s, Outside(d))
  {
    InertPasses(s, d);
  }

  /** a then b, both leaving the scanner where it was. */
  lemma Both(a: string, b: string, d: int)
    requires Passes(Outside(d), a, Outside(d)) && Passes(Outside(d), b, Outside(d))
    ensures Passes(Outside(d), a + b, Outside(d))
  {
    PassJoin(Outside(d), a, Outside(d), b, Outside(d));
  }

  /** Balanced text between brackets, or between braces, is balanced. */
  lemma BracketsPass(body: string, d: nat)
    requires Passes(Outside(d), body, Outside(d))
    ensures Passes(Outside(d), "[" + (body + "]"), Outside(d))
  {
    InertPasses("[", d);
    InertPasses("]", d);
    Both(body, "]", d);
    Both("[", body + "]", d);
  }

  lemma BracesPass(body: string, d: nat)
    requires d > 0 && Passes(Outside(d + 1), body, Outside(d + 1))
    ensures Passes(Outside(d), "{" + (body + "}"), Outside(d))
  {
    OnePass(Outside(d), '{');
    OnePass(Outside(d + 1), '}');
    PassJoin(Outside(d + 1), body, Outside(d + 1), "}", Outside(d));
    PassJoin(Outside(d), "{", Outside(d + 1), body + "}", Outside(d));
  }

  /** A JSON value inside an object leaves the scanner at the depth it found it. */
  lemma {:induction false} ValuePasses(v: Value, d: nat)
    requires Valid(v) && d > 0
    ensures Passes(Outside(d), Print(v), Outside(d))
    decreases v
  {
    match v
    case Literal(t) => LiteralPasses(t, d);
    case Text(us) => StringPasses(us, d);
    case Array(gap, items) =>
      ListPasses(gap, items, d);
      BracketsPass(gap + PrintItems(items), d);
    case Object(gap, members) =>
      BodyPasses(gap, members, d + 1);
      BracesPass(gap + PrintMembers(members), d);
  }

  lemma {:induction false} ListPasses(gap: string, items: Items, d: nat)
    requires Spacing(gap) && ValidItems(items) && d > 0
    ensures Passes(Outside(d), gap + PrintItems(items), Outside(d))
    decreases items, 1
  {
    ItemsPass(items, d);
    SpacingPasses(gap, d);
    Both(gap, PrintItems(items), d);
  }

  lemma {:induction false} BodyPasses(gap: string, members: Members, d: nat)
    requires Spacing(gap) && ValidMembers(members) && d > 0
    ensures Passes(Outside(d), gap + PrintMembers(members), Outside(d))
    decreases members, 1
  {
    MembersPass(members, d);
    SpacingPasses(gap, d);
    Both(gap, PrintMembers(members), d);
  }

  lemma {:induction false} ItemsPass(items: Items, d: nat)
    requires ValidItems(items) && d > 0
    ensures Passes(Outside(d), PrintItems(items), Outside(d))
    decreases items, 0
  {
    if items.Item? {
      var rest := items.rest;
      ItemsPass(rest, d);
      ValuePasses(items.v, d);
      SpacingPasses(items.before, d);
      SpacingPasses(items.after, d);
      InertPasses(Comma(rest.NoItems?), d);
      var e := Comma(rest.NoItems?) + PrintItems(rest);
      Both(Comma(rest.NoItems?), PrintItems(rest), d);
      Both(items.after, e, d);
      Both(Print(items.v), items.after + e, d);
      Both(items.before, Print(items.v) + (items.after + e), d);
    }
  }

  lemma {:induction false} MembersPass(ms: Members, d: nat)
    requires ValidMembers(ms) && d > 0
    ensures Passes(Outside(d), PrintMembers(ms), Outside(d))
    decreases ms, 0
  {
    if ms.Member? {
      var rest := ms.rest;
      MembersPass(rest, d);
      ValuePasses(ms.v, d);
      StringPasses(ms.key, d);
      SpacingPasses(ms.before, d);
      SpacingPasses(ms.colonGap, d);
      SpacingPasses(ms.valueGap, d);
      SpacingPasses(ms.after, d);
      InertPasses(Comma(rest.NoMembers?), d);
      InertPasses(":", d);
      var tail := Comma(rest.NoMembers?) + PrintMembers(rest);
      Both(Comma(rest.NoMembers?), PrintMembers(rest), d);
      Both(ms.after, tail, d);
      var fromValue := Print(ms.v) + (ms.after + tail);
      Both(Print(ms.v), ms.after + tail, d);
      Both(ms.valueGap, fromValue, d);
      Both(":", ms.valueGap + fromValue, d);
      var fromColon := ":" + (ms.valueGap + fromValue);
      Both(ms.colonGap, fromColon, d);
      Both(PrintString(ms.key), ms.colonGap + fromColon, d);
      Both(ms.before, PrintString(ms.key) + (ms.colonGap + fromColon), d);
    }
  }

  lemma ObjectCloses(o: Value, suffix: string)
    requires o.Object? && Valid(o)
    ensures CloseAt(Outside(0), Print(o) + suffix) == Some(|Print(o)| - 1)
  {
    var body := o.gap + PrintMembers(o.members);
    BodyPasses(o.gap, o.members, 1);
    OnePass(Outside(0), '{');
    PassJoin(Outside(0), "{", Outside(1), body, Outside(1));
    PassThen(Outside(0), "{" + body, Outside(1), "}" + suffix);
    assert Print(o) + suffix == ("{" + body) + ("}" + suffix);
    assert ("}" + suffix)[0] == '}';
  }

  lemma {:induction false} OpenAfter(prefix: string, t: string)
    requires '{' !in prefix && t != "" && t[0] == '{'
    ensures OpenAt(prefix + t) == Some(|prefix|)
  {
    if prefix == "" {
      assert prefix + t == t;
    } else {
      OpenAfter(prefix[1..], t);
      assert (prefix + t)[1..] == prefix[1..] + t;
    }
  }

  /** In prefix + object + suffix, with no opening brace in the prefix, the scan settles on the
      object exactly, whatever braces, quotes and backslashes its strings hold. */
  lemma ScanFindsObject(prefix: string, o: Value, suffix: string)
    requires '{' !in prefix && o.Object? && Valid(o)
    ensures var t := prefix + Print(o) + suffix;
            Span(t) == Some((|prefix|, |prefix| + |Print(o)|)) && t[|prefix|..|prefix| + |Print(o)|] == Print(o)
  {
    var p := Print(o);
    assert p[0] == '{';
    ObjectCloses(o, suffix);
    SpanOfBraces(prefix, p, suffix);
  }

  lemma SpanOfBraces(prefix: string, p: string, suffix: string)
    requires '{' !in prefix && p != "" && p[0] == '{' && CloseAt(Outside(0), p + suffix) == Some(|p| - 1)
    ensures var t := prefix + p + suffix;
            Span(t) == Some((|prefix|, |prefix| + |p|)) && t[|prefix|..|prefix| + |p|] == p
  {
    var t, rest := prefix + p + suffix, p + suffix;
    assert t == prefix + rest && t[|prefix|..] == rest;
    OpenAfter(prefix, rest);
    SpanFrom(t, |prefix|, rest, |p| - 1);
  }

  lemma SpanFrom(t: string, start: nat, rest: string, n: nat)
    requires start <= |t| && rest == t[start..] && OpenAt(t) == Some(start) && CloseAt(Outside(0), rest) == Some(n)
    ensures Span(t) == Some((start, start + n + 1))
  {}

  /** One stray opening brace before the object hides it from the scan altogether. */
  lemma StrayBraceHides(prefix: string, between: string, o: Value, suffix: string)
    requires '{' !in prefix && Inert(between) && o.Object? && Valid(o) && Inert(suffix)
    ensures Span(prefix + "{" + between + Print(o) + suffix) == None
  {
    var rest := "{" + between + Print(o) + suffix;
    var t := prefix + "{" + between + Print(o) + suffix;
    assert t == prefix + rest;
    OpenAfter(prefix, rest);
    assert t[|prefix|..] == rest;
    OnePass(Outside(0), '{');
    InertPasses(between, 1);
    ValuePasses(o, 1);
    InertPasses(suffix, 1);
    PassJoin(Outside(0), "{", Outside(1), between, Outside(1));
    PassJoin(Outside(0), "{" + between, Outside(1), Print(o), Outside(1));
    PassJoin(Outside(0), "{" + between + Print(o), Outside(1), suffix, Outside(1));
    PassThen(Outside(0), rest, Outside(1), "");
    assert rest + "" == rest;
  }

  lemma {:induction false} OpenBefore(prefix: string, t: string)
    requires '{' in prefix
    ensures OpenAt(prefix + t).Some? && OpenAt(prefix + t).value < |prefix|
  {
    if prefix[0] != '{' {
      OpenBefore(prefix[1..], t);
      assert (prefix + t)[1..] == prefix[1..] + t;
    }
  }

  /** The scan settles on the object exactly when no opening brace stands before it. */
  lemma SpanExactlyWhen(prefix: string, o: Value, suffix: string)
    requires o.Object? && Valid(o)
    ensures Span(prefix + Print(o) + suffix) == Some((|prefix|, |prefix| + |Print(o)|)) <==> '{' !in prefix
  {
    if '{' !in prefix {
      ScanFindsObject(prefix, o, suffix);
    } else {
      OpenBefore(prefix, Print(o) + suffix);
      assert prefix + (Print(o) + suffix) == prefix + Print(o) + suffix;
    }
  }

  // ---- The whole extraction -----------------------------------------------------------------

  /** What the JSON parser makes of a text. */
  datatype Loaded<+V> = Dict(v: V) | OtherValue | Malformed

  function AsDict<V>(l: Loaded<V>): Option<V> {
    if l.Dict? then Some(l.v) else None
  }

  function Extracted<V>(raw: string, space: char -> bool, loads: string -> Loaded<V>): Option<V> {
    var t := Strip(raw, space);
    if !loads(t).Malformed? then AsDict(loads(t))
    else match Span(t) case None => None case Some(span) => AsDict(loads(t[span.0..span.1]))
  }

  /** The strict parse first; only a malformed text is scanned. */
  method ExtractJsonObject<V>(raw: string, space: char -> bool, loads: string -> Loaded<V>) returns (r: Option<V>)
    ensures r == Extracted(raw, space, loads)
  {
    var t := Strip(raw, space);
    var candidate := loads(t);
    if !candidate.Malformed? {
      return AsDict(candidate);
    }
    var span := ScanObject(t);
    if span.None? {
      return None;
    }
    r := AsDict(loads(t[span.value.0..span.value.1]));
  }

  /** An object wrapped in prose is recovered as what the parser makes of the object alone,
      unless the prose happens to make the whole text parse. */
  lemma RecoversWrappedObject<V>(prefix: string, o: Value, suffix: string, space: char -> bool,
                                 loads: string -> Loaded<V>)
    requires '{' !in prefix && o.Object? && Valid(o) && !space('{') && !space('}')
    ensures var raw := prefix + Print(o) + suffix;
            var whole := loads(Strip(raw, space));
            var loaded := if whole.Malformed? then loads(Print(o)) else whole;
            Extracted(raw, space, loads) == if loaded.Dict? then Some(loaded.v) else None
  {
    var text := Print(o);
    assert text[0] == '{' && text[|text| - 1] == '}';
    assert prefix + text + suffix == prefix + (text + suffix);
    LStripKeeps(prefix, text + suffix, space);
    var p := LStrip(prefix, space);
    assert p + (text + suffix) == (p + text) + suffix;
    RStripKeeps(p + text, suffix, space);
    ScanFindsObject(p, o, RStrip(suffix, space));
  }

  /** Whatever the text, only an object that the parser made of it or of its first balanced span comes
      back; with no opening brace in a malformed text nothing does. */
  lemma ExtractsOnlyObjects<V>(raw: string, space: char -> bool, loads: string -> Loaded<V>)
    ensures var t, r := Strip(raw, space), Extracted(raw, space, loads);
            && (r.Some? ==> loads(t) == Dict(r.value) ||
                            (loads(t).Malformed? && Span(t).Some? &&
                             loads(t[Span(t).value.0..Span(t).value.1]) == Dict(r.value)))
            && (loads(t).Malformed? && '{' !in t ==> r.None?)
  {
    var t := Strip(raw, space);
    if '{' !in t { NoOpening(t); }
  }

  lemma {:induction false} NoOpening(t: string)
    requires '{' !in t
    ensures OpenAt(t) == None
  {
    if t != "" { NoOpening(t[1..]); }
  }
}
