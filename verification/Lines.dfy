/** Splitting at a separator, as strings and bytes are split at newlines, and its inverse. */
module Lines {

  /** The pieces between separators; there is always a last one. */
  function Split<T(==)>(s: seq<T>, sep: T): (r: seq<seq<T>>)
    ensures r != []
  {
    if s == [] then [[]]
    else
      var n := |s| - 1;
      var r := Split(s[..n], sep);
      if s[n] == sep then r + [[]] else Complete(r) + [Tail(r) + [s[n]]]
  }

  function Complete<T>(parts: seq<seq<T>>): seq<seq<T>>
    requires parts != []
  {
    parts[..|parts| - 1]
  }

  function Tail<T>(parts: seq<seq<T>>): seq<T>
    requires parts != []
  {
    parts[|parts| - 1]
  }

  function Joined<T>(parts: seq<seq<T>>, sep: T): seq<T> {
    if parts == [] then []
    else if |parts| == 1 then parts[0]
    else Joined(Complete(parts), sep) + ([sep] + Tail(parts))
  }

  ghost predicate Unbroken<T>(parts: seq<seq<T>>, sep: T) {
    forall i :: 0 <= i < |parts| ==> sep !in parts[i]
  }

  lemma JoinedOneMore<T>(parts: seq<seq<T>>, last: seq<T>, sep: T)
    requires parts != []
    ensures Joined(parts + [last], sep) == Joined(parts, sep) + ([sep] + last)
  {
    assert Complete(parts + [last]) == parts;
  }

  lemma JoinedLonger<T>(parts: seq<seq<T>>, x: T, sep: T)
    requires parts != []
    ensures Joined(Complete(parts) + [Tail(parts) + [x]], sep) == Joined(parts, sep) + [x]
  {
    var most, last := Complete(parts), Tail(parts);
    if most != [] {
      JoinedOneMore(most, last + [x], sep);
      JoinedOneMore(most, last, sep);
      assert parts == most + [last];
      assert Joined(most, sep) + ([sep] + last) + [x] == Joined(most, sep) + ([sep] + (last + [x]));
    }
  }

  lemma UnbrokenLonger<T>(parts: seq<seq<T>>, x: T, sep: T)
    requires parts != [] && Unbroken(parts, sep) && x != sep
    ensures Unbroken(Complete(parts) + [Tail(parts) + [x]], sep)
  {}

  /** Splitting loses nothing: no piece holds a separator, and joining the pieces gives the
      original back. */
  lemma {:induction false} SplitInverse<T>(s: seq<T>, sep: T)
    ensures Joined(Split(s, sep), sep) == s && Unbroken(Split(s, sep), sep)
  {
    if s != [] {
      var n := |s| - 1;
      var r := Split(s[..n], sep);
      SplitInverse(s[..n], sep);
      assert s == s[..n] + [s[n]];
      if s[n] == sep {
        JoinedOneMore(r, [], sep);
        assert [sep] + [] == [s[n]];
      } else {
        JoinedLonger(r, s[n], sep);
        UnbrokenLonger(r, s[n], sep);
      }
    }
  }

  lemma SplitOneMore<T>(s: seq<T>, x: T, sep: T)
    ensures Split(s + [x], sep) == if x == sep then Split(s, sep) + [[]]
            else Complete(Split(s, sep)) + [Tail(Split(s, sep)) + [x]]
  {
    assert (s + [x])[..|s|] == s;
  }

  lemma SplitAcrossOneMore<T>(before: seq<seq<T>>, p: seq<T>, q: seq<T>, x: T, sep: T)
    requires Split(p, sep) == before + Split(q, sep)
    ensures Split(p + [x], sep) == before + Split(q + [x], sep)
  {
    var r, t := Split(p, sep), Split(q, sep);
    SplitOneMore(p, x, sep);
    SplitOneMore(q, x, sep);
    LastTwo(before, r, t, x, sep);
  }

  lemma LastTwo<T>(before: seq<seq<T>>, r: seq<seq<T>>, t: seq<seq<T>>, x: T, sep: T)
    requires r == before + t && t != []
    ensures r + [[]] == before + (t + [[]])
    ensures Complete(r) + [Tail(r) + [x]] == before + (Complete(t) + [Tail(t) + [x]])
  {
    assert Complete(r) == before + Complete(t) && Tail(r) == Tail(t);
  }

  lemma AppendOne<T>(a: seq<T>, b: seq<T>)
    requires b != []
    ensures a + b == a + b[..|b| - 1] + [b[|b| - 1]]
  {}

  /** Splitting a + b needs of a only its complete pieces and its unfinished one. */
  lemma {:induction false} SplitAcross<T>(a: seq<T>, b: seq<T>, sep: T)
    ensures Split(a + b, sep) == Complete(Split(a, sep)) + Split(Tail(Split(a, sep)) + b, sep)
    decreases |b|
  {
    var before, tail := Complete(Split(a, sep)), Tail(Split(a, sep));
    if b == [] {
      assert a + b == a && tail + b == tail;
      SplitTail(a, sep);
    } else {
      var n := |b| - 1;
      SplitAcross(a, b[..n], sep);
      SplitAcrossOneMore(before, a + b[..n], tail + b[..n], b[n], sep);
      AppendOne(a, b);
      AppendOne(tail, b);
    }
  }

  lemma {:induction false} SplitUnbroken<T>(s: seq<T>, sep: T)
    requires sep !in s
    ensures Split(s, sep) == [s]
  {
    if s != [] {
      var n := |s| - 1;
      assert s == s[..n] + [s[n]];
      SplitUnbroken(s[..n], sep);
    }
  }

  lemma SplitTail<T>(a: seq<T>, sep: T)
    ensures Split(a, sep) == Complete(Split(a, sep)) + Split(Tail(Split(a, sep)), sep)
  {
    var r := Split(a, sep);
    SplitInverse(a, sep);
    assert sep !in r[|r| - 1];
    SplitUnbroken(Tail(r), sep);
  }

  lemma SplitJoinStep<T>(j: seq<T>, last: seq<T>, sep: T)
    requires sep !in last
    ensures Split(j + ([sep] + last), sep) == Split(j, sep) + [last]
  {
    var r := Split(j, sep);
    SplitOneMore(j, sep, sep);
    SplitAcross(j + [sep], last, sep);
    assert [] + last == last;
    SplitUnbroken(last, sep);
    assert Complete(r + [[]]) == r;
    assert j + [sep] + last == j + ([sep] + last);
  }

  lemma JoinInverseStep<T>(parts: seq<seq<T>>, most: seq<seq<T>>, last: seq<T>, j: seq<T>, sep: T)
    requires parts == most + [last] && most != [] && j == Joined(most, sep) && Split(j, sep) == most && sep !in last
    ensures Split(Joined(parts, sep), sep) == parts
  {
    JoinedOneMore(most, last, sep);
    SplitJoinStep(j, last, sep);
  }

  /** And joining unbroken pieces loses nothing either. */
  lemma {:induction false} JoinInverse<T>(parts: seq<seq<T>>, sep: T)
    requires parts != [] && Unbroken(parts, sep)
    ensures Split(Joined(parts, sep), sep) == parts
    decreases |parts|
  {
    var n := |parts| - 1;
    assert sep !in parts[n];
    if n == 0 {
      SplitUnbroken(parts[0], sep);
    } else {
      var most, last := parts[..n], parts[n];
      JoinInverse(most, sep);
      assert parts == most + [last];
      JoinInverseStep(parts, most, last, Joined(most, sep), sep);
    }
  }
}
