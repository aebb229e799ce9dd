/** The lines of a configuration file, and white space as String.prototype.trim sees it. */
module ConfigText {
  import opened Options
  import opened Strings

  predicate IsSpace(c: char) {
    var n := c as int;
    || 9 <= n <= 13 || n == 32 || n == 0xA0 || n == 0x1680 || 0x2000 <= n <= 0x200A
    || n == 0x2028 || n == 0x2029 || n == 0x202F || n == 0x205F || n == 0x3000 || n == 0xFEFF
  }

  function TrimStart(s: string): string {
    if s != "" && IsSpace(s[0]) then TrimStart(s[1..]) else s
  }

  function TrimEnd(s: string): string {
    if s != "" && IsSpace(s[|s| - 1]) then TrimEnd(s[..|s| - 1]) else s
  }

  function Trim(s: string): string {
    TrimEnd(TrimStart(s))
  }

  predicate Trimmed(s: string) {
    s == "" || (!IsSpace(s[0]) && !IsSpace(s[|s| - 1]))
  }

  lemma {:induction false} TrimStartIs(s: string)
    ensures |TrimStart(s)| <= |s| && TrimStart(s) == s[|s| - |TrimStart(s)|..]
    ensures TrimStart(s) != "" ==> !IsSpace(TrimStart(s)[0])
    ensures forall i | 0 <= i < |s| - |TrimStart(s)| :: IsSpace(s[i])
  {
    if s != "" && IsSpace(s[0]) {
      TrimStartIs(s[1..]);
      var t := TrimStart(s[1..]);
      assert s[1..][|s| - 1 - |t|..] == s[|s| - |t|..];
      assert forall i | 1 <= i < |s| - |t| :: s[i] == s[1..][i - 1];
    }
  }

  lemma {:induction false} TrimEndIs(s: string)
    ensures |TrimEnd(s)| <= |s| && TrimEnd(s) == s[..|TrimEnd(s)|]
    ensures TrimEnd(s) != "" ==> !IsSpace(TrimEnd(s)[|TrimEnd(s)| - 1])
    ensures forall i | |TrimEnd(s)| <= i < |s| :: IsSpace(s[i])
  {
    if s != "" && IsSpace(s[|s| - 1]) {
      TrimEndIs(s[..|s| - 1]);
    }
  }

  /** Trimming cuts white space off both ends and nothing else. */
  lemma TrimIs(s: string) returns (a: string, b: string)
    ensures s == a + Trim(s) + b && Trimmed(Trim(s))
    ensures (forall i | 0 <= i < |a| :: IsSpace(a[i])) && forall i | 0 <= i < |b| :: IsSpace(b[i])
  {
    hide TrimStart, TrimEnd, IsSpace, Trimmed;
    TrimStartIs(s);
    TrimEndIs(TrimStart(s));
    var t := TrimStart(s);
    var r := TrimEnd(t);
    a, b := s[..|s| - |t|], t[|r|..];
    assert t == r + b && s == a + t;
    assert a + r + b == a + (r + b);
    assert r != "" ==> r[0] == t[0];
    VisibleEnds(r);
  }

  lemma VisibleEnds(s: string)
    requires s != "" ==> !IsSpace(s[0]) && !IsSpace(s[|s| - 1])
    ensures Trimmed(s)
  {
  }

  lemma TrimmedStays(s: string)
    requires Trimmed(s)
    ensures Trim(s) == s
  {
  }

  /** What is trimmed keeps a character that is no white space. */
  lemma TrimKeeps(s: string, i: nat)
    requires i < |s| && !IsSpace(s[i])
    ensures Trim(s) != ""
  {
    hide Trim;
    var a, b := TrimIs(s);
  }

  lemma TrimHead(s: string)
    requires s != "" && !IsSpace(s[0])
    ensures Trim(s) != "" && Trim(s)[0] == s[0]
  {
    hide Trim, IsSpace;
    var a, b := TrimIs(s);
    assert s == a + (Trim(s) + b);
  }

  lemma TrimAvoids(s: string, c: char)
    requires Avoids(s, c)
    ensures Avoids(Trim(s), c)
  {
    hide Trim, IsSpace;
    var a, b := TrimIs(s);
    forall i | 0 <= i < |Trim(s)|
      ensures Trim(s)[i] != c
    {
      assert s[|a| + i] == Trim(s)[i];
    }
  }

  lemma TrimBehind(s: string)
    requires Trimmed(s)
    ensures Trim(s + " ") == s && Trim(" " + s) == s
  {
    assert (s + " ")[..|s|] == s;
    assert (" " + s)[1..] == s;
    assert TrimStart(" " + s) == s && TrimEnd(s) == s;
    if s == "" {
      assert s + " " == " " + s;
    } else {
      assert TrimStart(s + " ") == s + " " && TrimEnd(s + " ") == s;
    }
  }

  // ----- Lines

  /** The lines between line feeds; a carriage return in front of one belongs to it. */
  function Lines(raw: string): seq<string> {
    WithoutReturns(Split(raw, '\n'))
  }

  function WithoutReturn(line: string): string {
    if line != "" && line[|line| - 1] == '\r' then line[..|line| - 1] else line
  }

  function WithoutReturns(parts: seq<string>): (r: seq<string>)
    ensures |r| == |parts|
  {
    seq(|parts|, i requires 0 <= i < |parts| => if i < |parts| - 1 then WithoutReturn(parts[i]) else parts[i])
  }

  predicate EndsInReturn(line: string) {
    line != "" && line[|line| - 1] == '\r'
  }

  /** Every line without a carriage return at its end. */
  function Stripped(lines: seq<string>): seq<string> {
    if lines == [] then [] else Stripped(lines[..|lines| - 1]) + [WithoutReturn(lines[|lines| - 1])]
  }

  lemma {:induction false} StrippedIs(lines: seq<string>)
    ensures |Stripped(lines)| == |lines| && forall i | 0 <= i < |lines| :: Stripped(lines)[i] == WithoutReturn(lines[i])
    ensures Stripped(lines) == lines <==> forall l | l in lines :: !EndsInReturn(l)
  {
    if lines != [] {
      var less, last := lines[..|lines| - 1], lines[|lines| - 1];
      StrippedIs(less);
      assert lines == less + [last];
      assert EndsInReturn(last) ==> |WithoutReturn(last)| < |last|;
    }
  }

  lemma ReturnsStripped(parts: seq<string>)
    requires parts != [] && parts[|parts| - 1] == ""
    ensures WithoutReturns(parts) == Stripped(parts)
  {
    hide Stripped;
    StrippedIs(parts);
    var a, b := WithoutReturns(parts), Stripped(parts);
    assert forall i | 0 <= i < |parts| :: a[i] == b[i];
  }

  /** Reading lines that were joined, of which the last is empty, strips them. */
  lemma LinesOfJoined(parts: seq<string>)
    requires parts != [] && parts[|parts| - 1] == "" && forall l | l in parts :: Avoids(l, '\n')
    ensures Lines(Join(parts, '\n')) == Stripped(parts)
  {
    hide Split, Join, Stripped, Avoids, WithoutReturns, WithoutReturn;
    SplitJoin(parts, '\n');
    ReturnsStripped(parts);
  }

  /** Lines written with a line feed behind each come back, with an empty one at the end, exactly when none of
      them ends in a carriage return. */
  lemma LinesRoundTrip(lines: seq<string>)
    requires lines != [] && forall l | l in lines :: Avoids(l, '\n')
    ensures Lines(Join(lines, '\n') + "\n") == lines + [""] <==> (forall l | l in lines :: !EndsInReturn(l))
  {
    hide Split, Join, Lines, Stripped, Avoids;
    var parts := lines + [""];
    JoinLast(lines, '\n');
    EmptyAvoids('\n');
    assert Join(lines, '\n') + "\n" == Join(parts, '\n');
    LinesOfJoined(parts);
    StrippedIs(parts);
    assert forall l | l in lines :: l in parts;
  }

  lemma {:induction false} JoinLast(lines: seq<string>, c: char)
    requires lines != []
    ensures Join(lines + [""], c) == Join(lines, c) + [c]
  {
    if |lines| == 1 {
      assert (lines + [""])[1..] == [""];
    } else {
      JoinLast(lines[1..], c);
      assert (lines + [""])[1..] == lines[1..] + [""];
    }
  }

  lemma {:induction false} TrimStartBefore(s: string, c: char)
    requires IsSpace(c)
    ensures TrimStart(s + [c]) == if TrimStart(s) == "" then "" else TrimStart(s) + [c]
  {
    if s == "" {
      assert s + [c] == [c] && [c][1..] == "";
    } else {
      assert (s + [c])[1..] == s[1..] + [c];
      TrimStartBefore(s[1..], c);
    }
  }

  lemma TrimReturn(line: string)
    ensures Trim(WithoutReturn(line)) == Trim(line)
  {
    if line != "" && line[|line| - 1] == '\r' {
      var s := WithoutReturn(line);
      assert line == s + ['\r'];
      TrimStartBefore(s, '\r');
      var t := TrimStart(s);
      assert (t + ['\r'])[..|t|] == t;
    }
  }
}
