/** The parts of Go's `strings` package that group patterns, fingerprints and
    request paths are built from. */
module Text {
  predicate HasPrefix(s: string, prefix: string) {
    prefix <= s
  }

  predicate HasSuffix(s: string, suffix: string) {
    |suffix| <= |s| && s[|s| - |suffix|..] == suffix
  }

  function Count(s: string, c: char): nat {
    multiset(s)[c]
  }

  /** `strings.Split` on a one character separator: never empty, and `Split("") == [""]`. */
  function Split(s: string, sep: char): (parts: seq<string>)
    ensures |parts| >= 1
    ensures forall part <- parts :: sep !in part
  {
    if s == "" then [""]
    else
      var rest := Split(s[1..], sep);
      if s[0] == sep then [""] + rest else [[s[0]] + rest[0]] + rest[1..]
  }

  /** `strings.Join` on a one character separator. */
  function Join(parts: seq<string>, sep: char): string {
    if parts == [] then ""
    else if |parts| == 1 then parts[0]
    else parts[0] + [sep] + Join(parts[1..], sep)
  }

  function Elements(list: seq<string>): set<string> {
    set x | x in list
  }

  lemma {:induction false} SplitFree(s: string, sep: char)
    requires sep !in s
    ensures Split(s, sep) == [s]
  {
    if s != "" {
      assert s == [s[0]] + s[1..];
      SplitFree(s[1..], sep);
    }
  }

  /** A separator splits its two sides independently. */
  lemma {:induction false} SplitConcat(a: string, b: string, sep: char)
    ensures Split(a + [sep] + b, sep) == Split(a, sep) + Split(b, sep)
  {
    var whole := a + [sep] + b;
    if a == "" {
      assert whole[1..] == b;
    } else {
      assert whole[1..] == a[1..] + [sep] + b;
      SplitConcat(a[1..], b, sep);
    }
  }

  lemma {:induction false} JoinConcat(a: seq<string>, b: seq<string>, sep: char)
    requires a != [] && b != []
    ensures Join(a + b, sep) == Join(a, sep) + [sep] + Join(b, sep)
  {
    if |a| == 1 {
      assert (a + b)[1..] == b;
    } else {
      assert (a + b)[1..] == a[1..] + b;
      JoinConcat(a[1..], b, sep);
    }
  }

  /** Splitting undoes joining, for parts that do not contain the separator. */
  lemma {:induction false} SplitJoin(parts: seq<string>, sep: char)
    requires parts != []
    requires forall part <- parts :: sep !in part
    ensures Split(Join(parts, sep), sep) == parts
  {
    SplitFree(parts[0], sep);
    if |parts| > 1 {
      SplitConcat(parts[0], Join(parts[1..], sep), sep);
      SplitJoin(parts[1..], sep);
    }
  }

  /** Joining undoes splitting. */
  lemma {:induction false} JoinSplit(s: string, sep: char)
    ensures Join(Split(s, sep), sep) == s
  {
    if s != "" {
      var rest := Split(s[1..], sep);
      JoinSplit(s[1..], sep);
      if s[0] == sep {
        assert ([""] + rest)[1..] == rest;
      } else {
        assert ([[s[0]] + rest[0]] + rest[1..])[1..] == rest[1..];
      }
    }
  }

  lemma {:induction false} JoinFree(parts: seq<string>, sep: char, c: char)
    requires c != sep && forall part <- parts :: c !in part
    ensures c !in Join(parts, sep)
  {
    if |parts| > 1 {
      JoinFree(parts[1..], sep, c);
    }
  }

  /** Joined sequences of separator-free parts are equal only when the parts are. */
  lemma JoinInjective(a: seq<string>, b: seq<string>, sep: char)
    requires a != [] && b != []
    requires forall part <- a + b :: sep !in part
    requires Join(a, sep) == Join(b, sep)
    ensures a == b
  {
    assert forall part <- a :: part in a + b;
    assert forall part <- b :: part in a + b;
    SplitJoin(a, sep);
    SplitJoin(b, sep);
  }

  /** Two texts cut at a character neither head contains are equal only piece by piece. */
  lemma {:induction false} CutInjective(a: string, b: string, x: string, y: string, sep: char)
    requires sep !in a && sep !in x
    requires a + [sep] + b == x + [sep] + y
    ensures a == x && b == y
  {
    var left, right := a + [sep] + b, x + [sep] + y;
    assert left[0] == right[0];
    if a == "" {
      assert x == "";
      assert left[1..] == b && right[1..] == y;
    } else {
      assert x != "";
      assert left[1..] == a[1..] + [sep] + b && right[1..] == x[1..] + [sep] + y;
      CutInjective(a[1..], b, x[1..], y, sep);
      assert a == [a[0]] + a[1..] && x == [x[0]] + x[1..];
    }
  }

  // -------- the order Go sorts strings in --------

  predicate Less(a: string, b: string) {
    b != "" && (a == "" || a[0] < b[0] || (a[0] == b[0] && Less(a[1..], b[1..])))
  }

  predicate IsLeast(least: string, s: set<string>) {
    least in s && forall x <- s :: x == least || Less(least, x)
  }

  lemma {:induction false} LessTotal(a: string, b: string)
    ensures a == b || Less(a, b) || Less(b, a)
    ensures !(Less(a, b) && Less(b, a))
  {
    if a != "" && b != "" {
      LessTotal(a[1..], b[1..]);
      if a[0] == b[0] && a[1..] == b[1..] {
        assert a == [a[0]] + a[1..] == b;
      }
    }
  }

  lemma {:induction false} LessTransitive(a: string, b: string, c: string)
    requires Less(a, b) && Less(b, c)
    ensures Less(a, c)
  {
    if a != "" && a[0] == b[0] == c[0] {
      LessTransitive(a[1..], b[1..], c[1..]);
    }
  }

  lemma {:induction false} LeastExists(s: set<string>)
    requires s != {}
    ensures exists least :: IsLeast(least, s)
  {
    var x :| x in s;
    var rest := s - {x};
    assert s == {x} + rest;
    if rest == {} {
      assert IsLeast(x, s);
    } else {
      LeastExists(rest);
      var m :| IsLeast(m, rest);
      LessTotal(x, m);
      if Less(x, m) {
        forall y | y in s ensures y == x || Less(x, y) {
          if y != x && y != m {
            assert y in rest;
            LessTransitive(x, m, y);
          }
        }
        assert IsLeast(x, s);
      } else {
        assert IsLeast(m, s);
      }
    }
  }

  function Least(s: set<string>): (least: string)
    requires s != {}
    ensures IsLeast(least, s)
  {
    LeastExists(s);
    assert forall x, y | IsLeast(x, s) && IsLeast(y, s) :: x == y by {
      forall x, y | IsLeast(x, s) && IsLeast(y, s) ensures x == y { LessTotal(x, y); }
    }
    var least :| least in s && IsLeast(least, s); least
  }

  /** `sets.List`: the elements of a set, once each, in order. */
  function SortedList(s: set<string>): (list: seq<string>)
    ensures forall x :: x in list <==> x in s
    ensures |list| == |s|
    ensures forall i, j | 0 <= i < j < |list| :: Less(list[i], list[j])
  {
    if s == {} then []
    else
      var least := Least(s);
      var rest := SortedList(s - {least});
      assert forall i | 0 <= i < |rest| :: rest[i] in rest;
      [least] + rest
  }
}
