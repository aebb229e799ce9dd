/** Texts as sequences of characters: splitting, joining, and the part before a character. */
module Strings {
  import opened Options

  predicate Avoids(s: string, c: char) {
    forall i | 0 <= i < |s| :: s[i] != c
  }

  function Split(s: string, sep: char): (parts: seq<string>)
    ensures parts != []
  {
    if s == [] then [[]]
    else
      var rest := Split(s[1..], sep);
      if s[0] == sep then [[]] + rest else [[s[0]] + rest[0]] + rest[1..]
  }

  function Join(parts: seq<string>, sep: char): string {
    if parts == [] then []
    else if |parts| == 1 then parts[0]
    else parts[0] + [sep] + Join(parts[1..], sep)
  }

  /** A text in front of the first part. */
  function Glue(a: string, parts: seq<string>): seq<string>
    requires parts != []
  {
    [a + parts[0]] + parts[1..]
  }

  lemma {:induction false} SplitGlue(a: string, s: string, sep: char)
    requires Avoids(a, sep)
    ensures Split(a + s, sep) == Glue(a, Split(s, sep))
  {
    if a == [] {
      assert a + s == s;
      var parts := Split(s, sep);
      assert [] + parts[0] == parts[0] && [parts[0]] + parts[1..] == parts;
    } else {
      assert (a + s)[1..] == a[1..] + s;
      assert forall i | 0 <= i < |a[1..]| :: a[1..][i] == a[i + 1];
      SplitGlue(a[1..], s, sep);
      var parts := Split(s, sep);
      assert [a[0]] + (a[1..] + parts[0]) == a + parts[0];
    }
  }

  lemma SplitFirst(a: string, rest: string, sep: char)
    requires Avoids(a, sep)
    ensures Split(a + [sep] + rest, sep) == [a] + Split(rest, sep)
  {
    SplitGlue(a, [sep] + rest, sep);
    assert a + [sep] + rest == a + ([sep] + rest) && ([sep] + rest)[1..] == rest;
    assert Split([sep] + rest, sep) == [[]] + Split(rest, sep);
    assert a + [] == a;
  }

  lemma SplitNone(a: string, sep: char)
    requires Avoids(a, sep)
    ensures Split(a, sep) == [a]
  {
    SplitGlue(a, [], sep);
    assert a + [] == a;
  }

  lemma {:induction false} SplitJoin(parts: seq<string>, sep: char)
    requires parts != [] && forall p | p in parts :: Avoids(p, sep)
    ensures Split(Join(parts, sep), sep) == parts
  {
    if |parts| == 1 {
      SplitNone(parts[0], sep);
    } else {
      SplitJoin(parts[1..], sep);
      SplitFirst(parts[0], Join(parts[1..], sep), sep);
      assert parts == [parts[0]] + parts[1..];
    }
  }

  /** The first part of a text is a prefix of it. */
  lemma {:induction false} FirstIsPrefix(s: string, sep: char)
    ensures Split(s, sep)[0] <= s
  {
    if s != [] {
      FirstIsPrefix(s[1..], sep);
      assert s == [s[0]] + s[1..];
    }
  }

  lemma {:induction false} JoinAvoids(parts: seq<string>, sep: char, x: char)
    requires sep != x && forall p | p in parts :: Avoids(p, x)
    ensures Avoids(Join(parts, sep), x)
  {
    if |parts| == 1 {
      assert parts[0] in parts;
    } else if |parts| > 1 {
      assert parts[0] in parts;
      JoinAvoids(parts[1..], sep, x);
    }
  }

  lemma {:induction false} PartsAvoid(s: string, sep: char)
    ensures forall p | p in Split(s, sep) :: Avoids(p, sep)
  {
    if s != [] {
      PartsAvoid(s[1..], sep);
      var rest := Split(s[1..], sep);
      assert rest[0] in rest;
    }
  }

  lemma {:induction false} PartsKeepAvoiding(s: string, sep: char, c: char)
    requires Avoids(s, c)
    ensures forall p | p in Split(s, sep) :: Avoids(p, c)
  {
    if s != [] {
      assert forall i | 0 <= i < |s[1..]| :: s[1..][i] == s[i + 1];
      PartsKeepAvoiding(s[1..], sep, c);
      var rest := Split(s[1..], sep);
      assert rest[0] in rest;
    }
  }

  lemma {:induction false} JoinSplit(s: string, sep: char)
    ensures Join(Split(s, sep), sep) == s
  {
    if s != [] {
      JoinSplit(s[1..], sep);
      var rest := Split(s[1..], sep);
      assert s == [s[0]] + s[1..];
      if s[0] == sep {
        assert ([[]] + rest)[1..] == rest;
      } else {
        JoinFirst([s[0]], rest, sep);
      }
    }
  }

  lemma JoinFirst(a: string, parts: seq<string>, sep: char)
    requires parts != []
    ensures Join([a + parts[0]] + parts[1..], sep) == a + Join(parts, sep)
  {
    if |parts| > 1 {
      assert ([a + parts[0]] + parts[1..])[1..] == parts[1..];
    }
  }

  /** The text up to the first `c`, and behind it if there is one. */
  function Cut(s: string, c: char): (string, Option<string>) {
    if s == [] then ([], None)
    else if s[0] == c then ([], Some(s[1..]))
    else
      var (a, b) := Cut(s[1..], c);
      ([s[0]] + a, b)
  }

  lemma {:induction false} CutIs(s: string, c: char)
    ensures var (a, b) := Cut(s, c);
      Avoids(a, c) && s == if b.Some? then a + [c] + b.value else a
  {
    if s != [] && s[0] != c {
      CutIs(s[1..], c);
      assert s == [s[0]] + s[1..];
    }
  }

  lemma {:induction false} CutAt(a: string, c: char, b: string)
    requires Avoids(a, c)
    ensures Cut(a, c) == (a, None) && Cut(a + [c] + b, c) == (a, Some(b))
  {
    if a == [] {
      assert ([c] + b)[1..] == b && [] + [c] + b == [c] + b;
    } else {
      assert forall i | 0 <= i < |a[1..]| :: a[1..][i] == a[i + 1];
      CutAt(a[1..], c, b);
      assert (a + [c] + b)[1..] == a[1..] + [c] + b && [a[0]] + a[1..] == a;
    }
  }

  lemma {:induction false} SplitAt(a: string, b: string, sep: char)
    ensures Split(a + [sep] + b, sep) == Split(a, sep) + Split(b, sep)
  {
    hide Split, Avoids;
    EmptyAvoids(sep);
    if a == [] {
      SplitFirst([], b, sep);
      SplitNone([], sep);
      assert [] + [sep] + b == a + [sep] + b;
    } else {
      var rest, more := a[1..], a[1..] + [sep] + b;
      SplitAt(rest, b, sep);
      assert a == [a[0]] + rest && a + [sep] + b == [a[0]] + more;
      if a[0] == sep {
        SplitFirst([], rest, sep);
        SplitFirst([], more, sep);
        assert [] + [sep] + rest == a && [] + [sep] + more == a + [sep] + b;
      } else {
        OtherAvoids(a[0], sep);
        SplitGlue([a[0]], rest, sep);
        SplitGlue([a[0]], more, sep);
      }
    }
  }

  lemma OtherAvoids(x: char, c: char)
    requires x != c
    ensures Avoids([x], c)
  {
  }

  lemma EmptyAvoids(c: char)
    ensures Avoids([], c)
  {
  }

  lemma BlankAvoids(s: string, c: char)
    requires Avoids(s, c) && c != ' '
    ensures Avoids(s + " ", c)
  {
  }

  lemma Regrouped(a: string, b: string, c: string)
    ensures a + b + c == a + (b + c)
  {
  }

  function Count(s: string, c: char): nat {
    if s == "" then 0 else (if s[0] == c then 1 else 0) + Count(s[1..], c)
  }

  lemma {:induction false} CountBoth(a: string, b: string, c: char)
    ensures Count(a + b, c) == Count(a, c) + Count(b, c)
  {
    if a == "" {
      assert a + b == b;
    } else {
      assert (a + b)[1..] == a[1..] + b;
      CountBoth(a[1..], b, c);
    }
  }

  lemma {:induction false} CountNone(s: string, c: char)
    requires Avoids(s, c)
    ensures Count(s, c) == 0
  {
    if s != "" {
      assert forall i | 0 <= i < |s[1..]| :: s[1..][i] == s[i + 1];
      CountNone(s[1..], c);
    }
  }

  lemma {:induction false} CountSplit(s: string, sep: char)
    ensures |Split(s, sep)| == Count(s, sep) + 1
  {
    if s != "" {
      CountSplit(s[1..], sep);
    }
  }

  lemma {:induction false} CountJoin(parts: seq<string>, sep: char)
    requires parts != [] && forall p | p in parts :: Avoids(p, sep)
    ensures Count(Join(parts, sep), sep) == |parts| - 1
  {
    hide Count, Avoids;
    CountNone(parts[0], sep);
    if |parts| > 1 {
      CountJoin(parts[1..], sep);
      CountBoth(parts[0] + [sep], Join(parts[1..], sep), sep);
      CountBoth(parts[0], [sep], sep);
      CountOne(sep);
    }
  }

  lemma CountOne(c: char)
    ensures Count([c], c) == 1
  {
  }
}
