/** The kdump configuration in its SUSE form, lines of KEY=value or KEY="value" with an optional comment. */
module KdumpSuse {
  import opened Options
  import opened Strings
  import opened ConfigText
  import opened ConfigLines
  import opened KdumpTargets

  datatype Entry = Entry(value: string, quoted: bool, suffix: string)

  // ----- One line

  predicate IsKeyChar(c: char) { 'A' <= c <= 'Z' || c == '_' }

  /** The key characters at the start. */
  function KeyOf(s: string): string {
    if s != "" && IsKeyChar(s[0]) then [s[0]] + KeyOf(s[1..]) else ""
  }

  predicate EndsLine(c: char) {
    c == '\n' || c == '\r' || c as int == 0x2028 || c as int == 0x2029
  }

  predicate OneLine(s: string) {
    forall i | 0 <= i < |s| :: !EndsLine(s[i])
  }

  function ParseValue(value: string): Option<Entry> {
    if !OneLine(value) then None
    else if value != "" && value[0] == '"' then
      var (v, tail) := Cut(value[1..], '"');
      if tail == None then None else Some(Entry(v, true, Trim(tail.value)))
    else
      var (v, comment) := Cut(value, '#');
      Some(if v == "" then Entry("", false, "")
           else Entry(TrimEnd(v), false, if comment.Some? then Trim("#" + comment.value) else ""))
  }

  function ParseLine(line: string): Option<(string, Entry)> {
    var t := Trim(line);
    if t == "" || t[0] == '#' then None
    else
      var key := KeyOf(t);
      var rest := TrimStart(AfterKey(t));
      if key == "" || rest == "" || rest[0] != '=' then None
      else
        var e := ParseValue(TrimStart(rest[1..]));
        if e == None then None else Some((key, e.value))
  }

  function AfterKey(t: string): string {
    if t != "" && IsKeyChar(t[0]) then AfterKey(t[1..]) else t
  }

  predicate NeedsQuotes(e: Entry) {
    e.quoted || e.value == "" || !Avoids(e.value, ' ')
  }

  function PrintValue(e: Entry): string {
    (if NeedsQuotes(e) then "\"" + e.value + "\"" else e.value) + if e.suffix != "" then " " + e.suffix else ""
  }

  function PrintLine(key: string, e: Entry): string {
    key + "=" + PrintValue(e)
  }

  /** The value and the suffix as they were, and whether they were written with quotes. */
  function Again(e: Entry): Entry {
    e.(quoted := NeedsQuotes(e))
  }

  predicate GoodKey(key: string) {
    key != "" && forall i | 0 <= i < |key| :: IsKeyChar(key[i])
  }

  /** In quotes anything goes but a quote, and the suffix need not be a comment; without, the value must be
      trimmed, must not begin with a quote, and only a comment can follow. */
  predicate GoodEntry(e: Entry) {
    && OneLine(e.value) && OneLine(e.suffix) && Trimmed(e.suffix)
    && if NeedsQuotes(e) then Avoids(e.value, '"')
       else Trimmed(e.value) && Avoids(e.value, '#') && e.value[0] != '"' && (e.suffix == "" || e.suffix[0] == '#')
  }

  lemma {:induction false} KeyIs(key: string, tail: string)
    requires forall i | 0 <= i < |key| :: IsKeyChar(key[i])
    requires tail == "" || !IsKeyChar(tail[0])
    ensures KeyOf(key + tail) == key && AfterKey(key + tail) == tail
  {
    if key == "" {
      assert key + tail == tail;
    } else {
      KeyIs(key[1..], tail);
      assert (key + tail)[1..] == key[1..] + tail;
    }
  }

  lemma {:induction false} KeyApart(t: string)
    ensures t == KeyOf(t) + AfterKey(t) && forall i | 0 <= i < |KeyOf(t)| :: IsKeyChar(KeyOf(t)[i])
    ensures AfterKey(t) == "" || !IsKeyChar(AfterKey(t)[0])
  {
    if t != "" && IsKeyChar(t[0]) {
      KeyApart(t[1..]);
    }
  }

  lemma TrimBoth(s: string)
    requires Trimmed(s)
    ensures TrimStart(s) == s && TrimEnd(s) == s && Trim(s) == s
  {
  }

  lemma OneLineOfParts(a: string, b: string)
    ensures OneLine(a + b) <==> OneLine(a) && OneLine(b)
  {
    if OneLine(a + b) {
      assert forall i | 0 <= i < |a| :: (a + b)[i] == a[i];
      assert forall i | 0 <= i < |b| :: (a + b)[|a| + i] == b[i];
    }
  }

  lemma OneLinePrinted(e: Entry)
    ensures OneLine(PrintValue(e)) <==> OneLine(e.value) && OneLine(e.suffix)
  {
    hide OneLine;
    var v := if NeedsQuotes(e) then "\"" + e.value + "\"" else e.value;
    OneLineLiterals();
    OneLineOfParts("\"", e.value);
    OneLineOfParts("\"" + e.value, "\"");
    OneLineOfParts(" ", e.suffix);
    OneLineOfParts(v, if e.suffix != "" then " " + e.suffix else "");
  }

  lemma OneLineLiterals()
    ensures OneLine("\"") && OneLine(" ") && OneLine("")
  {
  }

  lemma ValueParses(e: Entry)
    requires GoodEntry(e)
    ensures ParseValue(PrintValue(e)) == Some(Again(e))
    ensures PrintValue(e) != "" && Trimmed(PrintValue(e))
  {
    hide OneLine, Trim, TrimEnd, IsSpace, Cut;
    Literals();
    OneLinePrinted(e);
    var tail := if e.suffix != "" then " " + e.suffix else "";
    if NeedsQuotes(e) {
      var value := PrintValue(e);
      assert value == "\"" + (e.value + ['"'] + tail);
      assert value[1..] == e.value + ['"'] + tail;
      CutAt(e.value, '"', tail);
      if e.suffix == "" {
        TrimBoth("");
      } else {
        TrimBehind(e.suffix);
      }
    } else if e.suffix == "" {
      assert PrintValue(e) == e.value;
      CutAt(e.value, '#', "");
      TrimBoth(e.value);
    } else {
      assert e.suffix == "#" + e.suffix[1..];
      assert PrintValue(e) == e.value + " " + ['#'] + e.suffix[1..];
      BlankAvoids(e.value, '#');
      CutAt(e.value + " ", '#', e.suffix[1..]);
      TrimEndBehind(e.value);
      TrimBoth(e.suffix);
    }
  }

  lemma Literals()
    ensures !IsSpace('"') && !IsSpace('#') && !IsSpace('=') && IsSpace(' ') && !IsKeyChar('=') && !IsKeyChar('#')
  {
  }

  lemma TrimEndBehind(s: string)
    requires Trimmed(s)
    ensures TrimEnd(s + " ") == s
  {
    assert (s + " ")[..|s|] == s;
  }

  lemma KeyCharsAreVisible(c: char)
    requires IsKeyChar(c)
    ensures !IsSpace(c) && c != '#'
  {
  }

  lemma PrintedParses(key: string, e: Entry)
    requires GoodKey(key) && GoodEntry(e)
    ensures ParseLine(PrintLine(key, e)) == Some((key, Again(e)))
  {
    hide OneLine, Trim, TrimStart, TrimEnd, IsSpace, Cut, ParseValue, PrintValue, GoodEntry, Again, IsKeyChar, KeyOf, AfterKey;
    Literals();
    ValueParses(e);
    var value := PrintValue(e);
    var line := PrintLine(key, e);
    assert line == key + ("=" + value) && ("=" + value)[1..] == value;
    KeyCharsAreVisible(key[0]);
    TrimBoth(line);
    KeyIs(key, "=" + value);
    TrimBoth("=" + value);
    TrimBoth(value);
  }

  predicate Spaces(s: string) {
    forall i | 0 <= i < |s| :: IsSpace(s[i])
  }

  /** The parts of a line that sets something. */
  lemma LineApart(line: string) returns (before: string, gap: string, rest: string, after: string)
    requires ParseLine(line).Some?
    ensures var (key, e) := ParseLine(line).value;
      && line == before + (key + (gap + ("=" + (rest + after)))) && Spaces(before) && Spaces(gap) && Spaces(after)
      && GoodKey(key) && (rest == "" || !IsSpace(rest[|rest| - 1]))
      && ParseValue(TrimStart(rest)) == Some(e)
  {
    hide *;
    var t, r := LineParsed(line);
    var key := ParseLine(line).value.0;
    before, after := TrimIs(line);
    SpacesIs(before);
    SpacesIs(after);
    KeyApart(t);
    KeyIsGood(key);
    var tail := AfterKey(t);
    TrimStartIs(tail);
    gap, rest := tail[..|tail| - |r|], r[1..];
    SpacesIs(gap);
    LastVisible(t);
    assert tail == gap + r && r == "=" + rest;
    assert t == key + (gap + ("=" + rest));
    Regrouped(before, t, after);
    Regrouped(key, gap + ("=" + rest), after);
    Regrouped(gap, "=" + rest, after);
    Regrouped("=", rest, after);
    assert rest != "" ==> t[|t| - 1] == rest[|rest| - 1];
  }

  lemma LineParsed(line: string) returns (t: string, r: string)
    requires ParseLine(line).Some?
    ensures var (key, e) := ParseLine(line).value;
      && t == Trim(line) && key == KeyOf(t) && key != "" && Trimmed(t)
      && r == TrimStart(AfterKey(t)) && r != "" && r[0] == '=' && ParseValue(TrimStart(r[1..])) == Some(e)
  {
    hide Trim, TrimStart, TrimEnd, IsSpace, ParseValue, IsKeyChar, KeyOf, AfterKey;
    t, r := Trim(line), TrimStart(AfterKey(Trim(line)));
    var a, b := TrimIs(line);
  }

  lemma KeyIsGood(key: string)
    requires key != "" && forall i | 0 <= i < |key| :: IsKeyChar(key[i])
    ensures GoodKey(key)
  {
  }

  lemma LastVisible(t: string)
    requires Trimmed(t)
    ensures t != "" ==> !IsSpace(t[|t| - 1])
  {
  }

  /** What is read of a line that was written: its value between white space. */
  lemma PrintedApart(key: string, e: Entry) returns (a: string, x: string, b: string)
    requires ParseLine(PrintLine(key, e)).Some? && ParseLine(PrintLine(key, e)).value.0 == key
    ensures GoodKey(key) && PrintValue(e) == a + x + b && Spaces(a) && Spaces(b) && Trimmed(x)
    ensures ParseValue(x) == Some(ParseLine(PrintLine(key, e)).value.1)
  {
    hide ParseLine, Trim, TrimStart, TrimEnd, IsSpace, ParseValue, PrintValue, IsKeyChar, Spaces;
    var line, value := PrintLine(key, e), PrintValue(e);
    var before, gap, rest, after := LineApart(line);
    assert line == key + ("=" + value);
    KeyStartsVisible(key);
    SpacesFirst(before, key + (gap + ("=" + (rest + after))), line);
    assert line[|key|..] == "=" + value && line[|key|..] == gap + ("=" + (rest + after));
    EqualsVisible();
    SpacesFirst(gap, "=" + (rest + after), "=" + value);
    assert ("=" + value)[1..] == value && ("=" + (rest + after))[1..] == rest + after;
    b := after;
    x := TrimStart(rest);
    TrimStartIs(rest);
    a := rest[..|rest| - |x|];
    assert rest == a + x;
    SpacesIs(a);
  }

  lemma SpacesIs(s: string)
    requires forall i | 0 <= i < |s| :: IsSpace(s[i])
    ensures Spaces(s)
  {
  }

  lemma EqualsVisible()
    ensures !IsSpace('=')
  {
  }

  lemma KeyStartsVisible(key: string)
    requires GoodKey(key)
    ensures key != "" && !IsSpace(key[0])
  {
  }

  /** There are no spaces in front of what does not begin with one. */
  lemma SpacesFirst(a: string, b: string, s: string)
    requires Spaces(a) && s == a + b && s != "" && !IsSpace(s[0])
    ensures a == "" && s == b
  {
    hide IsSpace;
    FirstOf(a, b);
  }

  lemma FirstOf(a: string, b: string)
    ensures a == "" ==> a + b == b
    ensures a != "" ==> (a + b)[0] == a[0]
  {
  }

  lemma OneLineTrimmed(s: string)
    requires OneLine(s)
    ensures OneLine(Trim(s)) && Trimmed(Trim(s)) && |Trim(s)| <= |s|
  {
    hide Trim, OneLine, IsSpace;
    var a, b := TrimIs(s);
    OneLineOfParts(a + Trim(s), b);
    OneLineOfParts(a, Trim(s));
  }

  /** A value read in quotes. */
  lemma QuotedParsed(x: string)
    requires ParseValue(x).Some? && x != "" && x[0] == '"'
    ensures var e := ParseValue(x).value;
      && Avoids(e.value, '"') && OneLine(e.value) && OneLine(e.suffix) && Trimmed(e.suffix)
      && |x| >= |e.value| + |e.suffix| + 2
  {
    hide Trim, OneLine, IsSpace, Cut;
    var (v, tail) := Cut(x[1..], '"');
    CutIs(x[1..], '"');
    assert x == "\"" + (v + ("\"" + tail.value));
    OneLineOfParts("\"", v + ("\"" + tail.value));
    OneLineOfParts(v, "\"" + tail.value);
    OneLineOfParts("\"", tail.value);
    OneLineTrimmed(tail.value);
  }

  /** A value read without quotes. */
  lemma PlainParsed(x: string)
    requires ParseValue(x).Some? && Trimmed(x) && !(x != "" && x[0] == '"') && ParseValue(x).value.value != ""
    ensures var e := ParseValue(x).value;
      && Trimmed(e.value) && Avoids(e.value, '#') && e.value[0] != '"' && OneLine(e.value)
      && OneLine(e.suffix) && Trimmed(e.suffix) && (e.suffix == "" || e.suffix[0] == '#')
  {
    hide Trim, TrimEnd, OneLine, IsSpace, Cut;
    Literals();
    OneLineLiterals();
    var (v, comment) := Cut(x, '#');
    CutIs(x, '#');
    OneLineOfParts(v, if comment.Some? then ['#'] + comment.value else "");
    assert v + "" == v;
    TrimEndIs(v);
    var w := TrimEnd(v);
    OneLineOfParts(w, v[|w|..]);
    assert v == w + v[|w|..];
    assert w[0] == v[0] == x[0];
    if comment.Some? {
      assert "#" + comment.value == ['#'] + comment.value;
      assert x == v + (['#'] + comment.value);
      OneLineTrimmed("#" + comment.value);
      TrimHead("#" + comment.value);
    }
  }

  /** A line that reads back with its key, value and suffix. */
  predicate ReadsTheSame(key: string, e: Entry) {
    var p := ParseLine(PrintLine(key, e));
    p.Some? && p.value.0 == key && p.value.1.value == e.value && p.value.1.suffix == e.suffix
  }

  lemma LineRoundTrip(key: string, e: Entry)
    ensures ReadsTheSame(key, e) <==> GoodKey(key) && GoodEntry(e)
  {
    hide ParseLine, PrintLine, GoodKey, OneLine, IsSpace, ParseValue;
    if GoodKey(key) && GoodEntry(e) {
      PrintedParses(key, e);
    }
    if ReadsTheSame(key, e) {
      var a, x, b := PrintedApart(key, e);
      var value := PrintValue(e);
      if NeedsQuotes(e) {
        assert value[0] == '"';
        Literals();
        assert value == a + (x + b);
        assert a == "" && x != "" && x[0] == '"';
        QuotedParsed(x);
      } else if x != "" && x[0] == '"' {
        QuotedParsed(x);
      } else {
        PlainParsed(x);
      }
    }
  }

  // ----- The file

  /** Each setting replaces its line or goes on a new one, and the text ends in a line feed. */
  function Generate(d: Document<Entry>, edited: Settings<Entry>): string {
    Join(Ended(Written(PrintLine, d, d.lines, edited)), '\n')
  }

  function Ended(lines: seq<string>): seq<string> {
    if lines == [] || lines[|lines| - 1] != "" then lines + [""] else lines
  }

  ghost predicate Writable(edited: Settings<Entry>) {
    DistinctKeys(edited) && forall i | 0 <= i < |edited| :: GoodKey(edited[i].0) && GoodEntry(edited[i].1)
  }

  lemma WritableRereads(edited: Settings<Entry>)
    requires Writable(edited)
    ensures Rereads(ParseLine, PrintLine, Again, edited)
  {
    hide ParseLine, PrintLine, GoodKey, GoodEntry, Again;
    forall i | 0 <= i < |edited|
      ensures ParseLine(PrintLine(edited[i].0, edited[i].1)) == Some((edited[i].0, Again(edited[i].1)))
    {
      PrintedParses(edited[i].0, edited[i].1);
    }
  }

  lemma PrintedAvoids(key: string, e: Entry)
    requires GoodKey(key) && GoodEntry(e)
    ensures Avoids(PrintLine(key, e), '\n')
  {
    assert forall i | 0 <= i < |key| :: IsKeyChar(key[i]);
    assert forall i | 0 <= i < |e.value| :: !EndsLine(e.value[i]);
    assert forall i | 0 <= i < |e.suffix| :: !EndsLine(e.suffix[i]);
  }

  lemma {:induction false} WrittenAvoids(d: Document<Entry>, edited: Settings<Entry>)
    requires NoFeeds(d.lines) && Writable(edited)
    ensures NoFeeds(Written(PrintLine, d, d.lines, edited))
  {
    hide PrintLine, GoodKey, GoodEntry, Avoids;
    if edited != [] {
      var less, last := edited[..|edited| - 1], edited[|edited| - 1];
      assert forall i | 0 <= i < |less| :: edited[i] == less[i];
      WrittenAvoids(d, less);
      PrintedAvoids(last.0, last.1);
      assert last == (last.0, last.1);
    }
  }

  /** Ending the text in a line feed changes no setting. */
  lemma EndedReadsBack(lines: seq<string>, key: string)
    requires NoFeeds(lines)
    ensures LastEntry(ParseLine, Lines(Join(Ended(lines), '\n')), key) == LastEntry(ParseLine, lines, key)
  {
    hide ParseLine, Avoids, Join, Lines;
    var all := Ended(lines);
    var front := all[..|all| - 1];
    assert all == front + [""];
    EmptyLastSetsNothing(front, key);
    EmptyLastSetsNothing([], key);
    ReturnsAreIgnored(ParseLine);
    FrontFeeds(lines);
    if front == [] {
      EmptyText();
      assert all == [""];
    } else {
      JoinLast(front, '\n');
      assert Join(all, '\n') == Join(front, '\n') + "\n";
      TextReadsBack(ParseLine, front, key);
    }
  }

  lemma FrontFeeds(lines: seq<string>)
    requires NoFeeds(lines)
    ensures var all := Ended(lines); forall l | l in all[..|all| - 1] :: Avoids(l, '\n')
  {
    hide Avoids;
  }

  lemma EmptyText()
    ensures Lines(Join([""], '\n')) == [""]
  {
    assert Split("", '\n') == [""];
    assert WithoutReturns([""]) == [""];
  }

  lemma EmptyLastSetsNothing(front: seq<string>, key: string)
    ensures ReadsTrimmed(ParseLine)
    ensures LastEntry(ParseLine, front + [""], key) == LastEntry(ParseLine, front, key)
  {
    assert ParseLine("") == None;
    assert (front + [""])[..|front|] == front;
  }

  /** The whole way from the text of a file over an edit to the text that is written: a setting that was
      written reads back with its value and suffix, any other one reads as before, and the lines that set
      nothing are the same. */
  lemma FileRoundTrip(raw: string, edited: Settings<Entry>, key: string)
    requires Writable(edited)
    ensures var d := ParseLines(ParseLine, Lines(raw));
      var read := LastEntry(ParseLine, Lines(Generate(d, edited)), key);
      && read == (if Wanted(edited, key).Some? then Reread(Again, Wanted(edited, key))
                  else LastEntry(ParseLine, Lines(raw), key))
      && Others(ParseLine, Written(PrintLine, d, d.lines, edited)) == Others(ParseLine, Lines(raw))
  {
    hide *;
    var d := ParseLines(ParseLine, Lines(raw));
    ParseIsFaithful(ParseLine, Lines(raw));
    WritableRereads(edited);
    SplitAvoids(raw);
    WrittenAvoids(d, edited);
    EndedReadsBack(Written(PrintLine, d, d.lines, edited), key);
    GenerateIs(d, edited);
    WrittenReads(ParseLine, PrintLine, Again, d, edited, key);
    WrittenOthers(ParseLine, PrintLine, Again, d, edited);
    LastEntryIsParsed(ParseLine, Lines(raw), key);
  }

  lemma EndedAvoids(lines: seq<string>)
    requires NoFeeds(lines)
    ensures NoFeeds(Ended(lines)) && Ended(lines) != [] && Ended(lines)[|Ended(lines)| - 1] == ""
  {
    hide Avoids;
    EmptyAvoids('\n');
  }

  /** The lines that set nothing, and an empty one that a text without a last line feed gains, are read again
      without a carriage return at the end of any: they are the same if and only if none of the file's had one. */
  lemma OthersThroughFile(raw: string, edited: Settings<Entry>)
    requires Writable(edited)
    ensures var d := ParseLines(ParseLine, Lines(raw));
      var written := Written(PrintLine, d, d.lines, edited);
      var others := Others(ParseLine, Lines(raw)) + if Ended(written) == written then [] else [""];
      && Others(ParseLine, Lines(Generate(d, edited))) == Stripped(others)
      && (Others(ParseLine, Lines(Generate(d, edited))) == others
          <==> forall l | l in Others(ParseLine, Lines(raw)) :: !EndsInReturn(l))
  {
    hide ParseLine, ParseLines, PrintLine, Written, Join, Lines, Writable, Faithful, Rereads, EndsInReturn, Ended, Stripped, NoFeeds,
      Others, ReadsTrimmed, IgnoresReturns;
    var d := ParseLines(ParseLine, Lines(raw));
    var written := Written(PrintLine, d, d.lines, edited);
    ParseIsFaithful(ParseLine, Lines(raw));
    WritableRereads(edited);
    SplitAvoids(raw);
    WrittenAvoids(d, edited);
    WrittenOthers(ParseLine, PrintLine, Again, d, edited);
    EndedAvoids(written);
    EndedOthers(written);
    EmptyLastSetsNothing([], "");
    ReturnsAreIgnored(ParseLine);
    OthersReadAgain(ParseLine, Ended(written));
    OthersEndBlank(Others(ParseLine, Lines(raw)));
  }

  lemma OthersEndBlank(others: seq<string>)
    ensures (forall l | l in others + [""] :: !EndsInReturn(l)) <==> forall l | l in others :: !EndsInReturn(l)
    ensures others + [] == others
  {
    assert forall l | l in others :: l in others + [""];
  }

  lemma EndedOthers(lines: seq<string>)
    ensures Others(ParseLine, Ended(lines)) == Others(ParseLine, lines) + if Ended(lines) == lines then [] else [""]
  {
    assert ParseLine("") == None;
    assert (lines + [""])[..|lines|] == lines;
    assert Others(ParseLine, lines) + [] == Others(ParseLine, lines);
  }

  lemma GenerateIs(d: Document<Entry>, edited: Settings<Entry>)
    ensures Generate(d, edited) == Join(Ended(Written(PrintLine, d, d.lines, edited)), '\n')
  {
  }

  // ----- Targets

  const SAVEDIR := "KDUMP_SAVEDIR"

  const IDENTITY := "KDUMP_SSH_IDENTITY"

  /** The settings with another value for a key that is there. */
  function Revalued(edited: Settings<Entry>, key: string, value: string): Settings<Entry> {
    if edited == [] then []
    else
      var less, last := edited[..|edited| - 1], edited[|edited| - 1];
      if last.0 == key then less + [(key, last.1.(value := value))] else Revalued(less, key, value) + [last]
  }

  /** A setting takes a value; a new one is made only for a value. */
  function WithValue(edited: Settings<Entry>, key: string, value: string): Settings<Entry> {
    if Wanted(edited, key).Some? then Revalued(edited, key, value)
    else if value != "" then edited + [(key, Entry(value, false, ""))]
    else edited
  }

  function WithTarget(edited: Settings<Entry>, t: Target): Settings<Entry> {
    var keyed := if t.Remote? && t.sshkey.Some? then WithValue(edited, IDENTITY, t.sshkey.value) else edited;
    WithValue(keyed, SAVEDIR, LocationOf(t))
  }

  function ValueOf(o: Option<Entry>): Option<string> {
    if o.Some? then Some(o.value.value) else None
  }

  /** What a file's settings say about the target. */
  function SavedIn(lines: seq<string>): Saved {
    Saved(ValueOf(LastEntry(ParseLine, lines, SAVEDIR)), ValueOf(LastEntry(ParseLine, lines, IDENTITY)))
  }

  function SavedOf(edited: Settings<Entry>): Saved {
    Saved(ValueOf(Wanted(edited, SAVEDIR)), ValueOf(Wanted(edited, IDENTITY)))
  }

  lemma {:induction false} RevaluedIs(edited: Settings<Entry>, key: string, value: string, other: string)
    ensures var n := Revalued(edited, key, value);
      && |n| == |edited| && (forall i | 0 <= i < |n| :: n[i].0 == edited[i].0)
      && Wanted(n, other) == if other == key && Wanted(edited, key).Some?
                             then Some(Wanted(edited, key).value.(value := value)) else Wanted(edited, other)
  {
    if edited != [] {
      RevaluedIs(edited[..|edited| - 1], key, value, other);
    }
  }

  lemma WithValueIs(edited: Settings<Entry>, key: string, value: string, other: string)
    requires DistinctKeys(edited)
    ensures var n := WithValue(edited, key, value);
      && DistinctKeys(n)
      && (Wanted(edited, other).Some? ==> Wanted(n, other).Some?)
      && ValueOf(Wanted(n, other)) == if other == key then Updated(ValueOf(Wanted(edited, key)), value)
                                      else ValueOf(Wanted(edited, other))
  {
    RevaluedIs(edited, key, value, other);
    WantedIsThere(edited, key);
    var n := WithValue(edited, key, value);
    if n != edited && Wanted(edited, key) == None {
      assert n[..|n| - 1] == edited;
    }
  }

  lemma WithTargetIs(edited: Settings<Entry>, t: Target)
    requires DistinctKeys(edited)
    ensures DistinctKeys(WithTarget(edited, t)) && SavedOf(WithTarget(edited, t)) == Persist(SavedOf(edited), t)
    ensures Wanted(edited, IDENTITY).Some? ==> Wanted(WithTarget(edited, t), IDENTITY).Some?
    ensures Wanted(WithTarget(edited, t), SAVEDIR).Some?
  {
    hide WithValue, LocationOf, Wanted;
    LocationIsSomething(t);
    var keyed := edited;
    if t.Remote? && t.sshkey.Some? {
      keyed := WithValue(edited, IDENTITY, t.sshkey.value);
      WithValueIs(edited, IDENTITY, t.sshkey.value, IDENTITY);
      WithValueIs(edited, IDENTITY, t.sshkey.value, SAVEDIR);
    }
    WithValueIs(keyed, SAVEDIR, LocationOf(t), SAVEDIR);
    WithValueIs(keyed, SAVEDIR, LocationOf(t), IDENTITY);
  }

  lemma LocationIsSomething(t: Target)
    ensures LocationOf(t) != ""
  {
  }

  // ----- Compression

  const DUMPFORMAT := "KDUMP_DUMPFORMAT"

  const COMPRESSED := "compressed"

  /** Dumps are compressed unless another format is set. */
  predicate Compresses(format: Option<string>) {
    format == None || format.value == COMPRESSED
  }

  /** The format is set when it has to change. */
  function WithFormat(edited: Settings<Entry>, was: bool, wants: bool): Settings<Entry> {
    if was == wants then edited else WithValue(edited, DUMPFORMAT, if wants then COMPRESSED else "ELF")
  }

  /** The settings with the target, if there is one, and the compression. */
  function Persisted(edited: Settings<Entry>, t: Option<Target>, was: bool, wants: bool): Settings<Entry> {
    WithFormat(if t.Some? then WithTarget(edited, t.value) else edited, was, wants)
  }

  predicate CompressedIn(lines: seq<string>) {
    Compresses(ValueOf(LastEntry(ParseLine, lines, DUMPFORMAT)))
  }

  /** Setting one key leaves the values of others. */
  lemma WithFormatIs(edited: Settings<Entry>, was: bool, wants: bool, other: string)
    requires DistinctKeys(edited)
    ensures var n := WithFormat(edited, was, wants);
      && DistinctKeys(n) && (Wanted(edited, other).Some? ==> Wanted(n, other).Some?)
      && (other != DUMPFORMAT ==> ValueOf(Wanted(n, other)) == ValueOf(Wanted(edited, other)))
      && Compresses(ValueOf(Wanted(n, DUMPFORMAT))) == (if was != wants then wants else Compresses(ValueOf(Wanted(edited, DUMPFORMAT))))
      && (was != wants ==> Wanted(n, DUMPFORMAT).Some?)
  {
    hide Wanted, WithValue;
    if was != wants {
      WithValueIs(edited, DUMPFORMAT, if wants then COMPRESSED else "ELF", other);
      WithValueIs(edited, DUMPFORMAT, if wants then COMPRESSED else "ELF", DUMPFORMAT);
    }
  }

  lemma TargetKeepsFormat(edited: Settings<Entry>, t: Target)
    requires DistinctKeys(edited)
    ensures DistinctKeys(WithTarget(edited, t))
    ensures ValueOf(Wanted(WithTarget(edited, t), DUMPFORMAT)) == ValueOf(Wanted(edited, DUMPFORMAT))
    ensures Wanted(edited, DUMPFORMAT).Some? ==> Wanted(WithTarget(edited, t), DUMPFORMAT).Some?
  {
    hide WithValue, LocationOf, Wanted;
    var keyed := edited;
    if t.Remote? && t.sshkey.Some? {
      keyed := WithValue(edited, IDENTITY, t.sshkey.value);
      WithValueIs(edited, IDENTITY, t.sshkey.value, DUMPFORMAT);
    }
    WithValueIs(keyed, SAVEDIR, LocationOf(t), DUMPFORMAT);
  }

  lemma PersistedIs(edited: Settings<Entry>, t: Option<Target>, was: bool, wants: bool)
    requires DistinctKeys(edited)
    ensures var n := Persisted(edited, t, was, wants);
      && SavedOf(n) == (if t.Some? then Persist(SavedOf(edited), t.value) else SavedOf(edited))
      && Compresses(ValueOf(Wanted(n, DUMPFORMAT))) == (if was != wants then wants else Compresses(ValueOf(Wanted(edited, DUMPFORMAT))))
      && (forall k | k in [SAVEDIR, IDENTITY, DUMPFORMAT] && Wanted(edited, k).Some? :: Wanted(n, k).Some?)
      && (t.Some? ==> Wanted(n, SAVEDIR).Some?)
      && (was != wants ==> Wanted(n, DUMPFORMAT).Some?)
  {
    hide WithTarget, WithFormat, Wanted, Persist;
    var kept := edited;
    if t.Some? {
      kept := WithTarget(edited, t.value);
      WithTargetIs(edited, t.value);
      TargetKeepsFormat(edited, t.value);
    }
    WithFormatIs(kept, was, wants, SAVEDIR);
    WithFormatIs(kept, was, wants, IDENTITY);
    WithFormatIs(kept, was, wants, DUMPFORMAT);
  }

  /** The keys that the file has are among the settings: saving does not remove any. */
  ghost predicate Carries(edited: Settings<Entry>, lines: seq<string>, keys: seq<string>) {
    forall k | k in keys && LastEntry(ParseLine, lines, k).Some? :: Wanted(edited, k).Some?
  }

  /** A target that is put into the settings of a file is what the written file says, read again: with the round
      trips of targets, what is extracted from it. */
  lemma TargetThroughFile(raw: string, edited: Settings<Entry>, t: Target, wants: bool)
    requires DistinctKeys(edited) && Writable(Persisted(edited, Some(t), CompressedIn(Lines(raw)), wants))
    requires Carries(edited, Lines(raw), [IDENTITY])
    ensures var d := ParseLines(ParseLine, Lines(raw));
      SavedIn(Lines(Generate(d, Persisted(edited, Some(t), CompressedIn(Lines(raw)), wants)))) == Persist(SavedOf(edited), t)
  {
    hide ParseLines, ParseLine, Lines, Generate, Persisted, Writable, LastEntry, Wanted, Persist, Others, Written, CompressedIn;
    var n := Persisted(edited, Some(t), CompressedIn(Lines(raw)), wants);
    PersistedIs(edited, Some(t), CompressedIn(Lines(raw)), wants);
    FileRoundTrip(raw, n, SAVEDIR);
    FileRoundTrip(raw, n, IDENTITY);
  }

  /** The compression that is wanted is what the written file says, if and only if the file said otherwise or the
      settings say so already. */
  lemma CompressionThroughFile(raw: string, edited: Settings<Entry>, t: Option<Target>, wants: bool)
    requires DistinctKeys(edited) && Writable(Persisted(edited, t, CompressedIn(Lines(raw)), wants))
    requires Carries(edited, Lines(raw), [DUMPFORMAT])
    ensures var d := ParseLines(ParseLine, Lines(raw));
      CompressedIn(Lines(Generate(d, Persisted(edited, t, CompressedIn(Lines(raw)), wants)))) == wants
      <==> CompressedIn(Lines(raw)) != wants || Compresses(ValueOf(Wanted(edited, DUMPFORMAT))) == wants
  {
    hide ParseLines, ParseLine, Lines, Generate, Persisted, Writable, LastEntry, Wanted, Persist, Others, Written;
    var n := Persisted(edited, t, CompressedIn(Lines(raw)), wants);
    PersistedIs(edited, t, CompressedIn(Lines(raw)), wants);
    FileRoundTrip(raw, n, DUMPFORMAT);
  }

  /** For a local target: it comes back from the file exactly if its path is absolute and holds no location. */
  lemma LocalThroughFile(raw: string, edited: Settings<Entry>, path: string, wants: bool)
    requires DistinctKeys(edited) && Writable(Persisted(edited, Some(Local(Some(path))), CompressedIn(Lines(raw)), wants))
    requires Carries(edited, Lines(raw), [IDENTITY])
    ensures var d := ParseLines(ParseLine, Lines(raw));
      Extract(SavedIn(Lines(Generate(d, Persisted(edited, Some(Local(Some(path))), CompressedIn(Lines(raw)), wants)))))
        == Some(Local(Some(path)))
      <==> StartsWith(path, "/") && !Ambiguous(path)
  {
    hide *;
    TargetThroughFile(raw, edited, Local(Some(path)), wants);
    LocalRoundTrip(SavedOf(edited), path);
  }

  // ----- The object that reads and writes the file

  class ConfigFileSUSE {
    var rawContent: Option<string>
    var loaded: bool
    var lines: seq<string>
    var keys: seq<string>
    var original: map<string, Setting<Entry>>

    function Contents(): Document<Entry>
      reads this
    {
      Document(lines, keys, original)
    }

    ghost predicate Valid()
      reads this
    {
      loaded ==> rawContent.Some? && rawContent.value != "" && Contents() == ParseLines(ParseLine, Lines(rawContent.value))
    }

    constructor ()
      ensures Valid() && !loaded && rawContent == None
    {
      rawContent, loaded, lines, keys, original := None, false, [], [], map[];
    }

    method ParseText(raw: string)
      requires Valid()
      modifies this
      ensures Valid()
      ensures loaded <==> raw != "" && (old(loaded) || old(rawContent) != Some(raw))
      ensures raw == "" ==> rawContent == old(rawContent)
      ensures raw != "" && old(rawContent) == Some(raw) ==> Contents() == old(Contents())
      ensures raw != "" && old(rawContent) != Some(raw) ==> Contents() == ParseLines(ParseLine, Lines(raw))
      ensures raw != "" ==> rawContent == Some(raw)
    {
      hide ParseLines;
      if raw == "" {
        loaded := false;
        return;
      }
      if rawContent == Some(raw) {
        return;
      }
      rawContent := Some(raw);
      var d := ReadAll(ParseLine, Lines(raw));
      lines, keys, original := d.lines, d.keys, d.original;
      loaded := true;
    }

    /** Whether dumps are compressed by what was loaded. */
    method WasCompressed() returns (was: bool)
      requires loaded && Valid()
      ensures was == CompressedIn(Contents().lines)
    {
      hide ParseLines, ParseLine, LastEntry;
      ParseIsFaithful(ParseLine, Lines(rawContent.value));
      LastEntryIsParsed(ParseLine, Lines(rawContent.value), DUMPFORMAT);
      was := DUMPFORMAT !in original || original[DUMPFORMAT].entry.value == COMPRESSED;
    }

    /** The text with other settings, into which the target and the compression are put first; nothing where the
        code throws, when no text has been loaded. */
    method GenerateConfig(edited: Settings<Entry>, target: Option<Target>, compress: bool) returns (text: Option<string>)
      requires Valid()
      ensures text == if loaded then Some(Generate(Contents(), Persisted(edited, target, CompressedIn(Contents().lines), compress)))
                      else None
    {
      hide ParseLines, ParseLine, PrintLine, Written, Join, Persisted, CompressedIn, Faithful;
      if !loaded {
        return None;
      }
      ParseIsFaithful(ParseLine, Lines(rawContent.value));
      var was := WasCompressed();
      var edit := WriteAll(ParseLine, PrintLine, Contents(), lines, Persisted(edited, target, was, compress));
      if edit == [] || edit[|edit| - 1] != "" {
        edit := edit + [""];
      }
      return Some(Join(edit, '\n'));
    }
  }
}
