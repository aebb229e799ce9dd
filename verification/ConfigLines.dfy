/** Configuration files as lines, some of which set a key: reading the settings, and writing other settings
    into the lines. How a line is read and written is a parameter. */
module ConfigLines {
  import opened Options
  import opened Strings
  import opened ConfigText
  import opened LineDeletion

  type Parser<!E> = string -> Option<(string, E)>

  type Printer<!E> = (string, E) -> string

  datatype Setting<E> = Setting(index: nat, entry: E, origLine: string)

  /** The lines of the file, and for every key the last line that sets it; keys in the order of their first line. */
  datatype Document<E> = Document(lines: seq<string>, keys: seq<string>, original: map<string, Setting<E>>)

  predicate HasKey<E>(parse: Parser<E>, line: string, key: string) {
    parse(line).Some? && parse(line).value.0 == key
  }

  function ReadLine<E>(parse: Parser<E>, d: Document<E>, line: string): Document<E> {
    var p, more := parse(line), d.(lines := d.lines + [line]);
    if p.None? then more
    else
      var (key, e) := p.value;
      more.(keys := if key in d.original then d.keys else d.keys + [key],
            original := d.original[key := Setting(|d.lines|, e, line)])
  }

  function ParseLines<E>(parse: Parser<E>, lines: seq<string>): Document<E> {
    if lines == [] then Document([], [], map[])
    else ReadLine(parse, ParseLines(parse, lines[..|lines| - 1]), lines[|lines| - 1])
  }

  /** A key has a setting exactly if a line sets it, and the last such line counts. */
  ghost predicate Faithful<E>(parse: Parser<E>, d: Document<E>) {
    && (forall k | k in d.original ::
          var s := d.original[k];
          && s.index < |d.lines| && s.origLine == d.lines[s.index] && parse(s.origLine) == Some((k, s.entry))
          && forall i | s.index < i < |d.lines| :: !HasKey(parse, d.lines[i], k))
    && (forall i | 0 <= i < |d.lines| :: parse(d.lines[i]).Some? ==> parse(d.lines[i]).value.0 in d.original)
    && (forall k :: k in d.keys <==> k in d.original)
    && (forall i, j | 0 <= i < j < |d.keys| :: d.keys[i] != d.keys[j])
  }

  lemma ReadLineIsFaithful<E>(parse: Parser<E>, d: Document<E>, line: string)
    requires Faithful(parse, d)
    ensures Faithful(parse, ReadLine(parse, d, line))
  {
    var n := ReadLine(parse, d, line);
    var p := parse(line);
    assert p.Some? ==> p.value == (p.value.0, p.value.1);
    forall k | k in n.original
      ensures var s := n.original[k];
        && s.index < |n.lines| && s.origLine == n.lines[s.index] && parse(s.origLine) == Some((k, s.entry))
        && forall i | s.index < i < |n.lines| :: !HasKey(parse, n.lines[i], k)
    {
    }
  }

  lemma {:induction false} ParseIsFaithful<E>(parse: Parser<E>, lines: seq<string>)
    ensures Faithful(parse, ParseLines(parse, lines)) && ParseLines(parse, lines).lines == lines
  {
    hide Faithful, ReadLine;
    if lines == [] {
      NothingIsFaithful(parse);
    } else {
      var less, line := lines[..|lines| - 1], lines[|lines| - 1];
      ParseIsFaithful(parse, less);
      ReadLineIsFaithful(parse, ParseLines(parse, less), line);
      ReadLineLines(parse, ParseLines(parse, less), line);
      assert lines == less + [line];
    }
  }

  lemma NothingIsFaithful<E>(parse: Parser<E>)
    ensures Faithful(parse, Document([], [], map[]))
  {
  }

  lemma ReadLineLines<E>(parse: Parser<E>, d: Document<E>, line: string)
    ensures ReadLine(parse, d, line).lines == d.lines + [line]
  {
  }

  /** The settings to write, under distinct keys. */
  type Settings<E> = seq<(string, E)>

  function Wanted<E>(edited: Settings<E>, key: string): Option<E> {
    if edited == [] then None
    else if edited[|edited| - 1].0 == key then Some(edited[|edited| - 1].1)
    else Wanted(edited[..|edited| - 1], key)
  }

  ghost predicate DistinctKeys<E>(edited: Settings<E>) {
    forall i, j | 0 <= i < j < |edited| :: edited[i].0 != edited[j].0
  }

  function Replaced(lines: seq<string>, i: nat, line: string): seq<string> {
    if i < |lines| then lines[i := line] else lines
  }

  /** Each setting replaces its line, or goes on a new one. */
  function Written<E>(format: Printer<E>, d: Document<E>, lines: seq<string>, edited: Settings<E>): seq<string> {
    if edited == [] then lines
    else
      var before := Written(format, d, lines, edited[..|edited| - 1]);
      var (key, e) := edited[|edited| - 1];
      if key in d.original then Replaced(before, d.original[key].index, format(key, e))
      else before + [format(key, e)]
  }

  /** The lines for keys the file did not have. */
  function NewLines<E>(format: Printer<E>, d: Document<E>, edited: Settings<E>): seq<string> {
    if edited == [] then []
    else
      var (key, e) := edited[|edited| - 1];
      NewLines(format, d, edited[..|edited| - 1]) + if key in d.original then [] else [format(key, e)]
  }

  /** The key whose setting a line is. */
  function Owner<E>(parse: Parser<E>, d: Document<E>, i: nat): Option<string>
    requires i < |d.lines|
  {
    var p := parse(d.lines[i]);
    if p.Some? && p.value.0 in d.original && d.original[p.value.0].index == i then Some(p.value.0) else None
  }

  lemma OwnerIs<E>(parse: Parser<E>, d: Document<E>, i: nat, k: string)
    requires Faithful(parse, d) && i < |d.lines| && k in d.original
    ensures d.original[k].index < |d.lines| && (Owner(parse, d, i) == Some(k) <==> d.original[k].index == i)
    ensures d.original[k].index == i ==> d.original[k].origLine == d.lines[i]
  {
  }

  lemma OwnerHasSetting<E>(parse: Parser<E>, d: Document<E>, i: nat)
    requires i < |d.lines|
    ensures Owner(parse, d, i).Some? ==> Owner(parse, d, i).value in d.original
  {
  }

  lemma OwnedIsSetting<E>(parse: Parser<E>, d: Document<E>, i: nat)
    requires i < |d.lines|
    ensures Owner(parse, d, i).Some? ==> parse(d.lines[i]).Some?
  {
  }

  lemma KeysHaveSettings<E>(parse: Parser<E>, d: Document<E>)
    requires Faithful(parse, d)
    ensures forall k :: k in d.keys <==> k in d.original
  {
  }

  lemma KeysDistinct<E>(parse: Parser<E>, d: Document<E>)
    requires Faithful(parse, d)
    ensures forall i, j | 0 <= i < j < |d.keys| :: d.keys[i] != d.keys[j]
  {
  }

  lemma IndexWithin<E>(parse: Parser<E>, d: Document<E>, key: string)
    requires Faithful(parse, d) && key in d.original
    ensures d.original[key].index < |d.lines|
  {
  }

  lemma LastSets<E>(parse: Parser<E>, d: Document<E>, key: string, i: nat)
    requires Faithful(parse, d) && key in d.original && i < |d.lines|
    ensures i > d.original[key].index ==> !HasKey(parse, d.lines[i], key)
  {
  }

  lemma OtherLine<E>(parse: Parser<E>, d: Document<E>, i: nat, key: string)
    requires i < |d.lines| && key in d.original
    ensures HasKey(parse, d.lines[i], key) && d.original[key].index != i ==> Owner(parse, d, i) == None
  {
  }

  lemma EveryKeyIsRead<E>(parse: Parser<E>, d: Document<E>, i: nat, key: string)
    requires Faithful(parse, d) && i < |d.lines|
    ensures HasKey(parse, d.lines[i], key) ==> key in d.original
  {
  }

  lemma {:induction false} WrittenAt<E>(parse: Parser<E>, format: Printer<E>, d: Document<E>, lines: seq<string>, edited: Settings<E>, i: nat)
    requires Faithful(parse, d) && i < |d.lines| && |lines| == |d.lines|
    ensures var w, o := Written(format, d, lines, edited), Owner(parse, d, i);
      && |w| >= |d.lines|
      && w[i] == if o.Some? && Wanted(edited, o.value).Some? then format(o.value, Wanted(edited, o.value).value) else lines[i]
  {
    hide Faithful, Owner;
    if edited != [] {
      var less, key := edited[..|edited| - 1], edited[|edited| - 1].0;
      WrittenAt(parse, format, d, lines, less, i);
      if key in d.original {
        OwnerIs(parse, d, i, key);
      }
      OwnerHasSetting(parse, d, i);
    }
  }

  lemma {:induction false} WrittenBehind<E>(parse: Parser<E>, format: Printer<E>, d: Document<E>, lines: seq<string>, edited: Settings<E>)
    requires Faithful(parse, d) && |lines| == |d.lines|
    ensures var w := Written(format, d, lines, edited);
      |w| >= |d.lines| && w[|d.lines|..] == NewLines(format, d, edited)
  {
    if edited != [] {
      var less, key := edited[..|edited| - 1], edited[|edited| - 1].0;
      WrittenBehind(parse, format, d, lines, less);
    }
  }

  /** What the last line for a key says. */
  function LastEntry<E>(parse: Parser<E>, lines: seq<string>, key: string): Option<E> {
    if lines == [] then None
    else if HasKey(parse, lines[|lines| - 1], key) then Some(parse(lines[|lines| - 1]).value.1)
    else LastEntry(parse, lines[..|lines| - 1], key)
  }

  /** Any line for a key is found, or a later one. */
  lemma {:induction false} LastIsSome<E>(parse: Parser<E>, lines: seq<string>, key: string, i: nat)
    requires i < |lines| && HasKey(parse, lines[i], key)
    ensures LastEntry(parse, lines, key).Some?
  {
    if i < |lines| - 1 {
      LastIsSome(parse, lines[..|lines| - 1], key, i);
    }
  }

  /** The last entry is what parsing finds. */
  lemma {:induction false} LastEntryIsParsed<E>(parse: Parser<E>, lines: seq<string>, key: string)
    ensures var d := ParseLines(parse, lines);
      LastEntry(parse, lines, key) == if key in d.original then Some(d.original[key].entry) else None
  {
    if lines != [] {
      LastEntryIsParsed(parse, lines[..|lines| - 1], key);
    }
  }

  lemma {:induction false} LastSame<E>(parse: Parser<E>, a: seq<string>, b: seq<string>, key: string)
    requires |a| == |b| && forall i | 0 <= i < |a| :: parse(a[i]) == parse(b[i])
    ensures LastEntry(parse, a, key) == LastEntry(parse, b, key)
  {
    if a != [] {
      LastSame(parse, a[..|a| - 1], b[..|b| - 1], key);
    }
  }

  /** The lines that set nothing, in their order. */
  function Others<E>(parse: Parser<E>, lines: seq<string>): seq<string> {
    if lines == [] then []
    else Others(parse, lines[..|lines| - 1]) + if parse(lines[|lines| - 1]).None? then [lines[|lines| - 1]] else []
  }

  /** The same, when some lines are left out. */
  function LastKept<E>(parse: Parser<E>, lines: seq<string>, gone: set<nat>, key: string): Option<E> {
    if lines == [] then None
    else if |lines| - 1 !in gone && HasKey(parse, lines[|lines| - 1], key) then Some(parse(lines[|lines| - 1]).value.1)
    else LastKept(parse, lines[..|lines| - 1], gone, key)
  }

  lemma {:induction false} LastOfKeep<E>(parse: Parser<E>, lines: seq<string>, gone: set<nat>, key: string)
    ensures LastEntry(parse, Keep(lines, gone), key) == LastKept(parse, lines, gone, key)
  {
    hide HasKey;
    if lines != [] {
      var less, line := lines[..|lines| - 1], lines[|lines| - 1];
      LastOfKeep(parse, less, gone, key);
      var k := Keep(less, gone);
      assert (k + [line])[..|k|] == k;
      assert k + [] == k;
    }
  }

  lemma {:induction false} LastKeptAt<E>(parse: Parser<E>, lines: seq<string>, gone: set<nat>, key: string, j: nat, e: E)
    requires j < |lines| && j !in gone && parse(lines[j]) == Some((key, e))
    requires forall i | j < i < |lines| && i !in gone :: !HasKey(parse, lines[i], key)
    ensures LastKept(parse, lines, gone, key) == Some(e)
  {
    if j < |lines| - 1 {
      LastKeptAt(parse, lines[..|lines| - 1], gone, key, j, e);
    }
  }

  /** Lines that are left out or set something else do not count. */
  lemma {:induction false} LastKeptIs<E>(parse: Parser<E>, lines: seq<string>, gone: set<nat>, was: seq<string>, key: string)
    requires |was| <= |lines|
    requires forall i: nat | i < |was| && i !in gone :: HasKey(parse, lines[i], key) == HasKey(parse, was[i], key)
    requires forall i: nat | i < |was| && HasKey(parse, was[i], key) :: lines[i] == was[i]
    requires forall i: nat | |was| <= i < |lines| && i !in gone :: !HasKey(parse, lines[i], key)
    ensures LastKept(parse, lines, gone, key) == LastKept(parse, was, gone, key)
  {
    if lines != [] {
      LastKeptIs(parse, lines[..|lines| - 1], gone, if |was| == |lines| then was[..|was| - 1] else was, key);
    }
  }

  lemma {:induction false} LastKeptAll<E>(parse: Parser<E>, lines: seq<string>, gone: set<nat>, key: string)
    requires forall i: nat | i < |lines| && i in gone :: !HasKey(parse, lines[i], key)
    ensures LastKept(parse, lines, gone, key) == LastEntry(parse, lines, key)
  {
    if lines != [] {
      LastKeptAll(parse, lines[..|lines| - 1], gone, key);
    }
  }

  lemma {:induction false} LastKeptNone<E>(parse: Parser<E>, lines: seq<string>, gone: set<nat>, key: string)
    ensures LastKept(parse, lines, gone, key) == None <==>
            forall i | 0 <= i < |lines| && i !in gone :: !HasKey(parse, lines[i], key)
  {
    if lines != [] {
      LastKeptNone(parse, lines[..|lines| - 1], gone, key);
    }
  }

  /** Settings whose lines read back, up to what writing makes of an entry. */
  ghost predicate Rereads<E>(parse: Parser<E>, format: Printer<E>, again: E -> E, edited: Settings<E>) {
    && DistinctKeys(edited)
    && forall i | 0 <= i < |edited| :: parse(format(edited[i].0, edited[i].1)) == Some((edited[i].0, again(edited[i].1)))
  }

  function Reread<E>(again: E -> E, o: Option<E>): Option<E> {
    if o.Some? then Some(again(o.value)) else None
  }

  lemma RereadsLess<E>(parse: Parser<E>, format: Printer<E>, again: E -> E, edited: Settings<E>)
    requires Rereads(parse, format, again, edited) && edited != []
    ensures Rereads(parse, format, again, edited[..|edited| - 1])
    ensures Wanted(edited[..|edited| - 1], edited[|edited| - 1].0) == None
  {
    var less := edited[..|edited| - 1];
    assert forall i | 0 <= i < |less| :: edited[i] == less[i];
    if Wanted(less, edited[|edited| - 1].0).Some? {
      WantedIsThere(less, edited[|edited| - 1].0);
    }
  }

  lemma {:induction false} WantedIsThere<E>(edited: Settings<E>, key: string)
    ensures Wanted(edited, key).Some? ==> exists i | 0 <= i < |edited| :: edited[i] == (key, Wanted(edited, key).value)
    ensures Wanted(edited, key) == None ==> forall i | 0 <= i < |edited| :: edited[i].0 != key
  {
    if edited != [] {
      var less, last := edited[..|edited| - 1], edited[|edited| - 1];
      WantedIsThere(less, key);
      assert forall i | 0 <= i < |less| :: edited[i] == less[i];
      assert last == (last.0, last.1);
    }
  }

  lemma WantedRereads<E>(parse: Parser<E>, format: Printer<E>, again: E -> E, edited: Settings<E>, key: string)
    requires Rereads(parse, format, again, edited) && Wanted(edited, key).Some?
    ensures parse(format(key, Wanted(edited, key).value)) == Some((key, again(Wanted(edited, key).value)))
  {
    WantedIsThere(edited, key);
  }

  /** The number of the new line for a key that the file did not have. */
  function NewNumber<E>(format: Printer<E>, d: Document<E>, edited: Settings<E>, key: string): nat {
    if edited == [] then |d.lines|
    else
      var less := edited[..|edited| - 1];
      if edited[|edited| - 1].0 == key then |d.lines| + |NewLines(format, d, less)| else NewNumber(format, d, less, key)
  }

  lemma {:induction false} NewBehind<E>(format: Printer<E>, d: Document<E>, edited: Settings<E>, key: string)
    ensures NewNumber(format, d, edited, key) >= |d.lines|
  {
    if edited != [] {
      NewBehind(format, d, edited[..|edited| - 1], key);
    }
  }

  /** A new line counts unless it is left out, and no other key is on it. */
  lemma {:induction false} NewLinesKept<E>(parse: Parser<E>, format: Printer<E>, again: E -> E, d: Document<E>,
                                           edited: Settings<E>, a: seq<string>, gone: set<nat>, key: string)
    requires Rereads(parse, format, again, edited) && |a| == |d.lines|
    ensures LastKept(parse, a + NewLines(format, d, edited), gone, key)
      == if key !in d.original && Wanted(edited, key).Some? && NewNumber(format, d, edited, key) !in gone
         then Reread(again, Wanted(edited, key)) else LastKept(parse, a, gone, key)
  {
    hide Rereads;
    if edited == [] {
      assert a + [] == a;
    } else {
      var less, last := edited[..|edited| - 1], edited[|edited| - 1];
      RereadsLess(parse, format, again, edited);
      NewLinesKept(parse, format, again, d, less, a, gone, key);
      LastRereads(parse, format, again, edited);
      NewLinesMore(format, d, edited, a);
    }
  }

  lemma NewLinesMore<E>(format: Printer<E>, d: Document<E>, edited: Settings<E>, a: seq<string>)
    requires edited != []
    ensures var last := edited[|edited| - 1];
      var all, before := a + NewLines(format, d, edited), a + NewLines(format, d, edited[..|edited| - 1]);
      if last.0 in d.original then all == before
      else |all| == |before| + 1 && all[..|before|] == before && all[|before|] == format(last.0, last.1)
  {
  }

  lemma LastRereads<E>(parse: Parser<E>, format: Printer<E>, again: E -> E, edited: Settings<E>)
    requires Rereads(parse, format, again, edited) && edited != []
    ensures var last := edited[|edited| - 1]; parse(format(last.0, last.1)) == Some((last.0, again(last.1)))
  {
  }

  function OthersKept<E>(parse: Parser<E>, lines: seq<string>, gone: set<nat>): seq<string> {
    if lines == [] then []
    else
      var line := lines[|lines| - 1];
      OthersKept(parse, lines[..|lines| - 1], gone) + if |lines| - 1 !in gone && parse(line).None? then [line] else []
  }

  lemma {:induction false} OthersOfKeep<E>(parse: Parser<E>, lines: seq<string>, gone: set<nat>)
    ensures Others(parse, Keep(lines, gone)) == OthersKept(parse, lines, gone)
  {
    if lines != [] {
      var less, line := lines[..|lines| - 1], lines[|lines| - 1];
      OthersOfKeep(parse, less, gone);
      var k := Keep(less, gone);
      assert (k + [line])[..|k|] == k && k + [] == k;
      assert OthersKept(parse, less, gone) + [] == OthersKept(parse, less, gone);
    }
  }

  lemma {:induction false} NewLinesSet<E>(parse: Parser<E>, format: Printer<E>, again: E -> E, d: Document<E>,
                                          edited: Settings<E>, a: seq<string>, gone: set<nat>)
    requires Rereads(parse, format, again, edited)
    ensures OthersKept(parse, a + NewLines(format, d, edited), gone) == OthersKept(parse, a, gone)
  {
    hide Rereads;
    if edited == [] {
      assert a + [] == a;
    } else {
      RereadsLess(parse, format, again, edited);
      NewLinesSet(parse, format, again, d, edited[..|edited| - 1], a, gone);
      LastRereads(parse, format, again, edited);
      NewLinesMore(format, d, edited, a);
    }
  }

  ghost predicate NoFeeds(lines: seq<string>) {
    forall l | l in lines :: Avoids(l, '\n')
  }

  lemma FeedsAvoided(lines: seq<string>)
    requires NoFeeds(lines)
    ensures forall l | l in lines :: Avoids(l, '\n')
  {
  }

  lemma SplitAvoids(raw: string)
    ensures NoFeeds(Lines(raw))
  {
    hide Split, Avoids;
    PartsAvoid(raw, '\n');
    var parts := Split(raw, '\n');
    forall i | 0 <= i < |parts|
      ensures Avoids(WithoutReturns(parts)[i], '\n')
    {
      assert parts[i] in parts;
      PrefixAvoids(parts[i], '\n');
    }
  }

  lemma PrefixAvoids(line: string, c: char)
    requires Avoids(line, c)
    ensures Avoids(WithoutReturn(line), c)
  {
  }

  lemma ReturnFree(raw: string)
    requires Avoids(raw, '\r')
    ensures Lines(raw) == Split(raw, '\n')
  {
    hide Split;
    PartsKeepAvoiding(raw, '\n', '\r');
    var parts := Split(raw, '\n');
    assert forall i | 0 <= i < |parts| :: parts[i] in parts && WithoutReturn(parts[i]) == parts[i];
    assert WithoutReturns(parts) == parts;
  }

  lemma JoinNothing()
    ensures Join([], '\n') + "\n" == Join(["", ""], '\n')
  {
    assert ["", ""][1..] == [""];
  }

  /** An empty line sets nothing, and a carriage return at the end of a line changes nothing. */
  ghost predicate IgnoresReturns<E>(parse: Parser<E>) {
    parse("") == None && forall l :: parse(WithoutReturn(l)) == parse(l)
  }

  /** An empty line sets nothing, and only what trimming leaves of a line counts. */
  ghost predicate ReadsTrimmed<E>(parse: Parser<E>) {
    parse("") == None && forall a, b :: Trim(a) == Trim(b) ==> parse(a) == parse(b)
  }

  lemma ReturnsAreIgnored<E>(parse: Parser<E>)
    requires ReadsTrimmed(parse)
    ensures IgnoresReturns(parse)
  {
    hide Trim, WithoutReturn;
    forall l
      ensures parse(WithoutReturn(l)) == parse(l)
    {
      TrimReturn(l);
    }
  }

  /** Writing lines and splitting the text again changes no setting. */
  lemma TextReadsBack<E>(parse: Parser<E>, lines: seq<string>, key: string)
    requires IgnoresReturns(parse) && forall l | l in lines :: Avoids(l, '\n')
    ensures LastEntry(parse, Lines(Join(lines, '\n') + "\n"), key) == LastEntry(parse, lines, key)
  {
    hide Avoids, Split, Join, WithoutReturn;
    EmptyAvoids('\n');
    var parts := if lines == [] then ["", ""] else lines + [""];
    if lines == [] {
      JoinNothing();
    } else {
      JoinLast(lines, '\n');
      assert Join(lines, '\n') + "\n" == Join(lines, '\n') + ['\n'];
    }
    SplitJoin(parts, '\n');
    assert Lines(Join(lines, '\n') + "\n") == WithoutReturns(parts);
    forall i | 0 <= i < |parts|
      ensures parse(parts[i]) == parse(WithoutReturns(parts)[i])
    {
    }
    LastSame(parse, parts, WithoutReturns(parts), key);
    assert (lines + [""])[..|lines|] == lines;
    if lines == [] {
      assert ["", ""][..1] == [""] && [""][..0] == [];
      assert LastEntry(parse, [""], key) == None;
    }
  }

  /** Of the lines that set nothing, stripping leaves the same ones, stripped. */
  lemma {:induction false} OthersOfStripped<E>(parse: Parser<E>, lines: seq<string>)
    requires IgnoresReturns(parse)
    ensures Others(parse, Stripped(lines)) == Stripped(Others(parse, lines))
  {
    hide WithoutReturn;
    if lines != [] {
      var less, last := lines[..|lines| - 1], lines[|lines| - 1];
      OthersOfStripped(parse, less);
      var s, others := Stripped(less), Others(parse, less);
      assert (s + [WithoutReturn(last)])[..|s|] == s;
      assert (others + [last])[..|others|] == others && others + [] == others;
      assert Stripped(others) + [] == Stripped(others);
    }
  }

  /** What is read again of the lines that set nothing: each without a carriage return at its end. */
  lemma OthersReadAgain<E>(parse: Parser<E>, parts: seq<string>)
    requires IgnoresReturns(parse) && parts != [] && parts[|parts| - 1] == "" && NoFeeds(parts)
    ensures Others(parse, Lines(Join(parts, '\n'))) == Stripped(Others(parse, parts))
    ensures Others(parse, Lines(Join(parts, '\n'))) == Others(parse, parts)
      <==> forall l | l in Others(parse, parts) :: !EndsInReturn(l)
  {
    hide Join, Lines, Stripped, EndsInReturn, Avoids, Others, IgnoresReturns;
    FeedsAvoided(parts);
    LinesOfJoined(parts);
    OthersOfStripped(parse, parts);
    StrippedIs(Others(parse, parts));
  }

  lemma OthersBehind<E>(parse: Parser<E>, lines: seq<string>)
    requires IgnoresReturns(parse)
    ensures Others(parse, lines + [""]) == Others(parse, lines) + [""]
    ensures Others(parse, ["", ""]) == ["", ""]
  {
    assert (lines + [""])[..|lines|] == lines;
    assert ["", ""][..1] == [""] && [""][..0] == [];
  }

  // ----- Writing over the lines, with none deleted

  /** What a line that was written over sets. */
  lemma WrittenSets<E>(parse: Parser<E>, format: Printer<E>, again: E -> E, d: Document<E>, edited: Settings<E>, i: nat)
    requires Faithful(parse, d) && Rereads(parse, format, again, edited) && i < |d.lines|
    ensures var w, o := Written(format, d, d.lines, edited), Owner(parse, d, i);
      && |w| >= |d.lines|
      && if o.Some? && Wanted(edited, o.value).Some?
         then parse(w[i]) == Some((o.value, again(Wanted(edited, o.value).value))) && parse(d.lines[i]).Some?
         else w[i] == d.lines[i]
  {
    hide Faithful, Rereads, Owner, Written;
    WrittenAt(parse, format, d, d.lines, edited, i);
    OwnedIsSetting(parse, d, i);
    var o := Owner(parse, d, i);
    if o.Some? && Wanted(edited, o.value).Some? {
      WantedRereads(parse, format, again, edited, o.value);
    }
  }

  /** A setting that is written reads back, and any other one reads as before. */
  lemma WrittenReads<E>(parse: Parser<E>, format: Printer<E>, again: E -> E, d: Document<E>, edited: Settings<E>, key: string)
    requires Faithful(parse, d) && Rereads(parse, format, again, edited)
    ensures LastEntry(parse, Written(format, d, d.lines, edited), key)
      == if Wanted(edited, key).Some? then Reread(again, Wanted(edited, key))
         else if key in d.original then Some(d.original[key].entry) else None
  {
    hide Faithful, Rereads, Owner, Written, NewLines, LastKept, LastEntry, HasKey;
    var w, n := Written(format, d, d.lines, edited), |d.lines|;
    WrittenBehind(parse, format, d, d.lines, edited);
    var a, b := w[..n], w[n..];
    assert w == a + b;
    KeepAll(w, {});
    LastOfKeep(parse, w, {}, key);
    NewLinesKept(parse, format, again, d, edited, a, {}, key);
    OldLinesStay(parse, format, again, d, edited, key);
  }

  lemma OldLinesStay<E>(parse: Parser<E>, format: Printer<E>, again: E -> E, d: Document<E>, edited: Settings<E>, key: string)
    requires Faithful(parse, d) && Rereads(parse, format, again, edited)
    ensures |Written(format, d, d.lines, edited)| >= |d.lines|
    ensures LastKept(parse, Written(format, d, d.lines, edited)[..|d.lines|], {}, key)
      == if key !in d.original then None
         else if Wanted(edited, key).Some? then Reread(again, Wanted(edited, key))
         else Some(d.original[key].entry)
  {
    hide Faithful, Rereads, Owner, Written, LastKept;
    WrittenBehind(parse, format, d, d.lines, edited);
    var w := Written(format, d, d.lines, edited);
    var a := w[..|d.lines|];
    forall i: nat | i < |d.lines|
      ensures HasKey(parse, a[i], key) <==> HasKey(parse, d.lines[i], key)
    {
      WrittenSets(parse, format, again, d, edited, i);
      OwnerKey(parse, d, i);
      assert a[i] == w[i];
    }
    if key in d.original {
      IndexWithin(parse, d, key);
      var j := d.original[key].index;
      WrittenSets(parse, format, again, d, edited, j);
      OwnerIs(parse, d, j, key);
      EntryAt(parse, d, key);
      forall i: nat | j < i < |d.lines|
        ensures !HasKey(parse, a[i], key)
      {
        LastSets(parse, d, key, i);
      }
      LastKeptAt(parse, a, {}, key, j,
                 if Wanted(edited, key).Some? then again(Wanted(edited, key).value) else d.original[key].entry);
    } else {
      forall i: nat | i < |d.lines|
        ensures !HasKey(parse, a[i], key)
      {
        EveryKeyIsRead(parse, d, i, key);
      }
      LastKeptNone(parse, a, {}, key);
    }
  }

  lemma OwnerKey<E>(parse: Parser<E>, d: Document<E>, i: nat)
    requires i < |d.lines|
    ensures Owner(parse, d, i).Some? ==> HasKey(parse, d.lines[i], Owner(parse, d, i).value)
  {
  }

  lemma EntryAt<E>(parse: Parser<E>, d: Document<E>, key: string)
    requires Faithful(parse, d) && key in d.original && d.original[key].index < |d.lines|
    ensures parse(d.lines[d.original[key].index]) == Some((key, d.original[key].entry))
  {
  }

  /** Lines that set nothing stay as they are and where they are, and the new lines all set something. */
  lemma WrittenOthers<E>(parse: Parser<E>, format: Printer<E>, again: E -> E, d: Document<E>, edited: Settings<E>)
    requires Faithful(parse, d) && Rereads(parse, format, again, edited)
    ensures Others(parse, Written(format, d, d.lines, edited)) == Others(parse, d.lines)
  {
    hide Faithful, Rereads, Owner, Written, NewLines, Others, OthersKept;
    var w, n := Written(format, d, d.lines, edited), |d.lines|;
    WrittenBehind(parse, format, d, d.lines, edited);
    var a, b := w[..n], w[n..];
    assert w == a + b;
    forall i: nat | i < n
      ensures parse(a[i]).None? <==> parse(d.lines[i]).None?
      ensures parse(a[i]).None? ==> a[i] == d.lines[i]
    {
      WrittenSets(parse, format, again, d, edited, i);
      assert a[i] == w[i];
    }
    OthersSame(parse, a, d.lines);
    KeepAll(w, {});
    KeepAll(a, {});
    OthersOfKeep(parse, w, {});
    OthersOfKeep(parse, a, {});
    NewLinesSet(parse, format, again, d, edited, a, {});
  }

  lemma {:induction false} OthersSame<E>(parse: Parser<E>, a: seq<string>, b: seq<string>)
    requires |a| == |b|
    requires forall i | 0 <= i < |a| :: (parse(a[i]).None? <==> parse(b[i]).None?) && (parse(a[i]).None? ==> a[i] == b[i])
    ensures Others(parse, a) == Others(parse, b)
  {
    if a != [] {
      OthersSame(parse, a[..|a| - 1], b[..|b| - 1]);
    }
  }

  // ----- The loops

  lemma ParseMore<E>(parse: Parser<E>, all: seq<string>, i: nat)
    requires i < |all|
    ensures ParseLines(parse, all[..i + 1]) == ReadLine(parse, ParseLines(parse, all[..i]), all[i])
  {
    assert all[..i + 1][..i] == all[..i];
  }

  method ReadAll<E>(parse: Parser<E>, all: seq<string>) returns (d: Document<E>)
    ensures d == ParseLines(parse, all)
  {
    hide ParseLines;
    var lines: seq<string>, keys: seq<string>, original: map<string, Setting<E>> := [], [], map[];
    var i := 0;
    ParseNothing(parse);
    assert all[..0] == [];
    while i < |all|
      invariant 0 <= i <= |all| && |lines| == i && Document(lines, keys, original) == ParseLines(parse, all[..i])
    {
      ParseMore(parse, all, i);
      var line := all[i];
      var p := parse(line);
      if p.Some? {
        var (key, e) := p.value;
        if key !in original {
          keys := keys + [key];
        }
        original := original[key := Setting(i, e, line)];
      }
      lines := lines + [line];
      i := i + 1;
    }
    assert all[..|all|] == all;
    return Document(lines, keys, original);
  }

  lemma ParseNothing<E>(parse: Parser<E>)
    ensures ParseLines(parse, []) == Document([], [], map[])
  {
  }

  method WriteAll<E>(ghost parse: Parser<E>, format: Printer<E>, d: Document<E>, start: seq<string>, edited: Settings<E>)
    returns (edit: seq<string>)
    requires Faithful(parse, d) && |start| == |d.lines|
    ensures edit == Written(format, d, start, edited)
  {
    edit := start;
    var k := 0;
    assert edited[..0] == [];
    while k < |edited|
      invariant 0 <= k <= |edited|
      invariant |edit| >= |d.lines| && edit == Written(format, d, start, edited[..k])
    {
      assert edited[..k + 1][..k] == edited[..k];
      var (key, e) := edited[k];
      if key !in d.original {
        edit := edit + [format(key, e)];
      } else {
        edit := edit[d.original[key].index := format(key, e)];
      }
      k := k + 1;
    }
    assert edited[..|edited|] == edited;
  }
}
