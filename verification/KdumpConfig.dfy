/** The kdump configuration in its "key value # comment" form: reading the settings, and editing the lines of
    the file so that they hold other settings. */
module KdumpConfig {
  import opened Options
  import opened Strings
  import opened ConfigText
  import opened Sequences
  import opened LineDeletion
  import opened ConfigLines

  /** The value of a setting, and the comment behind it with its "#". */
  datatype Entry = Entry(value: string, comment: Option<string>)

  // ----- One line

  function ParseLine(line: string): Option<(string, Entry)> {
    var t := Trim(line);
    if t == "" || t[0] == '#' then None
    else
      var (key, rest) := Cut(t, ' ');
      if rest == None then None
      else
        var text := Trim(rest.value);
        var (value, comment) := Cut(text, '#');
        Some((key, if comment == None then Entry(text, None)
                   else Entry(Trim(value), Some(Trim("#" + comment.value)))))
  }

  function PrintLine(key: string, e: Entry): string {
    key + " " + e.value + if e.comment.Some? && e.comment.value != "" then " " + e.comment.value else ""
  }

  predicate GoodKey(key: string) {
    key != "" && !IsSpace(key[0]) && key[0] != '#' && Avoids(key, ' ')
  }

  predicate GoodEntry(e: Entry) {
    && Trimmed(e.value) && Avoids(e.value, '#')
    && (e.comment == None ==> e.value != "")
    && (e.comment.Some? ==> e.comment.value != "" && e.comment.value[0] == '#' && Trimmed(e.comment.value))
  }

  /** Reading a line finds nothing but good settings. */
  lemma ParsedIsGood(line: string)
    requires ParseLine(line).Some?
    ensures var (key, e) := ParseLine(line).value; GoodKey(key) && GoodEntry(e)
  {
    hide Trim, IsSpace, Cut;
    var x, y := TrimIs(line);
    var t := Trim(line);
    var (key, rest) := Cut(t, ' ');
    CutIs(t, ' ');
    SpaceIsSpace();
    assert key != "" && key[0] == t[0];
    var text := Trim(rest.value);
    var x2, y2 := TrimIs(rest.value);
    assert rest.value != "";
    TrimKeeps(rest.value, |rest.value| - 1);
    var (value, comment) := Cut(text, '#');
    CutIs(text, '#');
    TrimAvoids(value, '#');
    var x3, y3 := TrimIs(value);
    if comment.Some? {
      TrimHead("#" + comment.value);
      var x4, y4 := TrimIs("#" + comment.value);
    }
  }

  lemma SpaceIsSpace()
    ensures IsSpace(' ') && !IsSpace('#')
  {
  }

  lemma PrintedParses(key: string, e: Entry)
    requires GoodKey(key) && GoodEntry(e)
    ensures ParseLine(PrintLine(key, e)) == Some((key, e))
  {
    hide Trim, IsSpace, Cut, Avoids;
    SpaceIsSpace();
    var line, tail := PrintLine(key, e), PrintTail(e);
    assert line == key + [' '] + tail;
    TailParses(e);
    TrimmedStays(line);
    CutAt(key, ' ', tail);
  }

  function PrintTail(e: Entry): string {
    e.value + if e.comment.Some? && e.comment.value != "" then " " + e.comment.value else ""
  }

  /** What stands behind the key. */
  lemma TailParses(e: Entry)
    requires GoodEntry(e)
    ensures var tail := PrintTail(e);
      var (value, comment) := Cut(Trim(tail), '#');
      && tail != "" && !IsSpace(tail[|tail| - 1])
      && e == if comment == None then Entry(Trim(tail), None) else Entry(Trim(value), Some(Trim("#" + comment.value)))
  {
    hide Trim, IsSpace, Cut;
    SpaceIsSpace();
    var tail := PrintTail(e);
    match e.comment
    case None =>
      assert tail == e.value;
      TrimmedStays(tail);
      CutAt(e.value, '#', "");
    case Some(c) =>
      TrimmedStays(c);
      assert c == "#" + c[1..];
      if e.value == "" {
        assert tail == " " + c;
        TrimBehind(c);
        CutAt("", '#', c[1..]);
        assert c == "" + ['#'] + c[1..];
        TrimmedStays("");
      } else {
        TrimmedStays(tail);
        BlankAvoids(e.value, '#');
        CutAt(e.value + " ", '#', c[1..]);
        assert tail == e.value + " " + ['#'] + c[1..];
        TrimBehind(e.value);
      }
  }

  /** A setting written as a line reads back as itself exactly when its key and its value and comment are good. */
  lemma LineRoundTrip(key: string, e: Entry)
    ensures ParseLine(PrintLine(key, e)) == Some((key, e)) <==> GoodKey(key) && GoodEntry(e)
  {
    hide ParseLine, PrintLine, GoodKey, GoodEntry;
    if GoodKey(key) && GoodEntry(e) {
      PrintedParses(key, e);
    }
    if ParseLine(PrintLine(key, e)) == Some((key, e)) {
      ParsedIsGood(PrintLine(key, e));
    }
  }

  // ----- Writing other settings into the lines

  /** A setting that is gone or has lost its value. */
  predicate Dropped(edited: Settings<Entry>, key: string) {
    Wanted(edited, key) == None || Wanted(edited, key).value.value == ""
  }

  /** Dropped settings with a comment become comments. */
  function Commented(d: Document<Entry>, keys: seq<string>, edited: Settings<Entry>): seq<string> {
    if keys == [] then d.lines
    else
      var before, key := Commented(d, keys[..|keys| - 1], edited), keys[|keys| - 1];
      if key in d.original && Dropped(edited, key) && d.original[key].entry.comment.Some?
      then Replaced(before, d.original[key].index, "#" + d.original[key].origLine) else before
  }

  /** The lines of the other dropped settings are to be deleted. */
  function ToDelete(d: Document<Entry>, keys: seq<string>, edited: Settings<Entry>): seq<nat> {
    if keys == [] then []
    else
      var before, key := ToDelete(d, keys[..|keys| - 1], edited), keys[|keys| - 1];
      if key in d.original && Dropped(edited, key) && d.original[key].entry.comment == None
      then before + [d.original[key].index] else before
  }

  function GenerateLines(d: Document<Entry>, edited: Settings<Entry>): seq<string> {
    RemoveEach(Written(PrintLine, d, Commented(d, d.keys, edited), edited), SortedDown(ToDelete(d, d.keys, edited)))
  }

  function Generate(d: Document<Entry>, edited: Settings<Entry>): string {
    Join(GenerateLines(d, edited), '\n') + "\n"
  }

  // ----- What is on each line

  predicate BecomesComment(d: Document<Entry>, edited: Settings<Entry>, k: string) {
    k in d.original && Dropped(edited, k) && d.original[k].entry.comment.Some?
  }

  predicate IsDeleted(d: Document<Entry>, edited: Settings<Entry>, k: string) {
    k in d.original && Dropped(edited, k) && d.original[k].entry.comment == None
  }

  lemma {:induction false} CommentedAt(d: Document<Entry>, keys: seq<string>, edited: Settings<Entry>, i: nat)
    requires Faithful(ParseLine, d) && i < |d.lines|
    ensures var c, o := Commented(d, keys, edited), Owner(ParseLine, d, i);
      && |c| == |d.lines|
      && c[i] == if o.Some? && o.value in keys && BecomesComment(d, edited, o.value) then "#" + d.lines[i] else d.lines[i]
  {
    hide Faithful, ParseLine, Dropped, Owner;
    if keys != [] {
      var less, key := keys[..|keys| - 1], keys[|keys| - 1];
      assert keys == less + [key];
      CommentedAt(d, less, edited, i);
      if key in d.original {
        OwnerIs(ParseLine, d, i, key);
      }
      OwnerHasSetting(ParseLine, d, i);
    }
  }

  /** A line after the edits, before any is deleted. */
  function LineAfter(d: Document<Entry>, edited: Settings<Entry>, i: nat): string
    requires i < |d.lines|
  {
    var o := Owner(ParseLine, d, i);
    if o == None then d.lines[i]
    else if Wanted(edited, o.value).Some? then PrintLine(o.value, Wanted(edited, o.value).value)
    else if BecomesComment(d, edited, o.value) then "#" + d.lines[i]
    else d.lines[i]
  }

  function AllAfter(d: Document<Entry>, edited: Settings<Entry>): seq<string> {
    seq(|d.lines|, i requires 0 <= i < |d.lines| => LineAfter(d, edited, i)) + NewLines(PrintLine, d, edited)
  }

  lemma WrittenIs(d: Document<Entry>, edited: Settings<Entry>)
    requires Faithful(ParseLine, d)
    ensures Written(PrintLine, d, Commented(d, d.keys, edited), edited) == AllAfter(d, edited)
  {
    hide ParseLine, PrintLine, Dropped, Faithful, NewLines, Owner;
    var c, all := Commented(d, d.keys, edited), AllAfter(d, edited);
    SameSize(d, d.keys, edited);
    var w := Written(PrintLine, d, c, edited);
    WrittenBehind(ParseLine, PrintLine, d, c, edited);
    forall i | 0 <= i < |d.lines|
      ensures w[i] == all[i]
    {
      CommentedAt(d, d.keys, edited, i);
      WrittenAt(ParseLine, PrintLine, d, c, edited, i);
      OwnerHasSetting(ParseLine, d, i);
      KeysHaveSettings(ParseLine, d);
    }
    assert w == w[..|d.lines|] + w[|d.lines|..];
    assert w[..|d.lines|] == all[..|d.lines|];
  }

  lemma {:induction false} SameSize(d: Document<Entry>, keys: seq<string>, edited: Settings<Entry>)
    ensures |Commented(d, keys, edited)| == |d.lines|
  {
    if keys != [] {
      SameSize(d, keys[..|keys| - 1], edited);
    }
  }

  // ----- The lines to delete

  lemma {:induction false} ToDeleteIs(d: Document<Entry>, keys: seq<string>, edited: Settings<Entry>)
    requires Faithful(ParseLine, d) && forall i, j | 0 <= i < j < |keys| :: keys[i] != keys[j]
    ensures var at := ToDelete(d, keys, edited);
      && Distinct(at) && Within(at, |d.lines|)
      && forall i: nat | i < |d.lines| ::
           i in at <==> Owner(ParseLine, d, i).Some? && Owner(ParseLine, d, i).value in keys && IsDeleted(d, edited, Owner(ParseLine, d, i).value)
  {
    hide Faithful, ParseLine, Dropped, Owner;
    if keys != [] {
      var less, key := keys[..|keys| - 1], keys[|keys| - 1];
      assert keys == less + [key];
      ToDeleteIs(d, less, edited);
      var before, at := ToDelete(d, less, edited), ToDelete(d, keys, edited);
      forall i: nat | i < |d.lines|
        ensures i in at <==> Owner(ParseLine, d, i).Some? && Owner(ParseLine, d, i).value in keys && IsDeleted(d, edited, Owner(ParseLine, d, i).value)
      {
        OwnerHasSetting(ParseLine, d, i);
        if key in d.original {
          OwnerIs(ParseLine, d, i, key);
        }
      }
      if IsDeleted(d, edited, key) {
        OwnerIs(ParseLine, d, d.original[key].index, key) by { IndexWithin(ParseLine, d, key); }
        assert key !in less;
        assert d.original[key].index !in before;
      }
    }
  }

  /** The numbers of the lines to delete. */
  function Gone(d: Document<Entry>, edited: Settings<Entry>): set<nat> {
    Elements(ToDelete(d, d.keys, edited))
  }

  lemma GoneIs(d: Document<Entry>, edited: Settings<Entry>, i: nat)
    requires Faithful(ParseLine, d)
    ensures i in Gone(d, edited) ==> i < |d.lines|
    ensures i < |d.lines| ==> (i in Gone(d, edited) <==> Owner(ParseLine, d, i).Some? && IsDeleted(d, edited, Owner(ParseLine, d, i).value))
  {
    hide Faithful, ParseLine, Owner, ToDelete, IsDeleted;
    KeysDistinct(ParseLine, d);
    ToDeleteIs(d, d.keys, edited);
    KeysHaveSettings(ParseLine, d);
    if i < |d.lines| {
      OwnerHasSetting(ParseLine, d, i);
    }
  }

  // ----- Reading the written file back

  /** Settings that can be written: their lines read back. */
  ghost predicate Writable(edited: Settings<Entry>) {
    && DistinctKeys(edited)
    && forall i | 0 <= i < |edited| :: GoodKey(edited[i].0) && GoodEntry(edited[i].1)
  }

  /** An entry reads back as it was. */
  function Same(e: Entry): Entry { e }

  lemma WritableRereads(edited: Settings<Entry>)
    requires Writable(edited)
    ensures Rereads(ParseLine, PrintLine, Same, edited)
  {
    hide ParseLine, PrintLine, GoodKey, GoodEntry;
    forall i | 0 <= i < |edited|
      ensures ParseLine(PrintLine(edited[i].0, edited[i].1)) == Some((edited[i].0, edited[i].1))
    {
      PrintedParses(edited[i].0, edited[i].1);
    }
  }

  lemma WantedIs(edited: Settings<Entry>, key: string)
    requires Writable(edited)
    ensures Wanted(edited, key).Some? ==> ParseLine(PrintLine(key, Wanted(edited, key).value)) == Some((key, Wanted(edited, key).value))
  {
    hide ParseLine, PrintLine, GoodKey, GoodEntry, Rereads;
    WritableRereads(edited);
    WantedIsThere(edited, key);
    if Wanted(edited, key).Some? {
      WantedRereads(ParseLine, PrintLine, Same, edited, key);
    }
  }

  lemma CommentIsNoSetting(line: string)
    ensures ParseLine("#" + line) == None
  {
    TrimHead("#" + line);
  }

  /** Which settings the lines after the edits are. */
  lemma LineAfterParses(d: Document<Entry>, edited: Settings<Entry>, i: nat)
    requires Faithful(ParseLine, d) && Writable(edited) && i < |d.lines|
    ensures var o, p := Owner(ParseLine, d, i), ParseLine(LineAfter(d, edited, i));
      && (o == None ==> LineAfter(d, edited, i) == d.lines[i])
      && (o.Some? && Wanted(edited, o.value).Some? ==> p == Some((o.value, Wanted(edited, o.value).value)))
      && (o.Some? && Wanted(edited, o.value) == None ==>
            if IsDeleted(d, edited, o.value) then LineAfter(d, edited, i) == d.lines[i] else p == None)
  {
    hide ParseLine, PrintLine, Owner, Faithful, Writable;
    CommentIsNoSetting(d.lines[i]);
    var o := Owner(ParseLine, d, i);
    OwnerHasSetting(ParseLine, d, i);
    if o.Some? {
      WantedIs(edited, o.value);
    }
  }

  /** A setting without a value is written over its line and deleted with it, unless the line had a comment. */
  predicate Erased(d: Document<Entry>, edited: Settings<Entry>, key: string) {
    IsDeleted(d, edited, key) && Wanted(edited, key).Some?
  }

  /** The line of a key still sets it after the edits, should it not be taken out. */
  predicate StillSets(d: Document<Entry>, edited: Settings<Entry>, key: string) {
    Wanted(edited, key).Some? || IsDeleted(d, edited, key)
  }

  ghost predicate NothingErased(d: Document<Entry>, edited: Settings<Entry>) {
    forall key :: !Erased(d, edited, key)
  }

  /** A dropped or erased key of which the lines before its last one do not say what was wanted. */
  ghost predicate Leftover(d: Document<Entry>, edited: Settings<Entry>, key: string) {
    && key in d.original && d.original[key].index <= |d.lines|
    && (Wanted(edited, key) == None || Erased(d, edited, key))
    && LastEntry(ParseLine, d.lines[..d.original[key].index], key) != Wanted(edited, key)
  }

  /** What the old lines set when some are taken out: the line of a setting sets it if it was wanted or should
      have been deleted; otherwise the lines before count, as they were. */
  lemma OldLinesKept(d: Document<Entry>, edited: Settings<Entry>, taken: set<nat>, key: string)
    requires Faithful(ParseLine, d) && Writable(edited)
    ensures key in d.original ==> d.original[key].index < |d.lines|
    ensures LastKept(ParseLine, AllAfter(d, edited)[..|d.lines|], taken, key)
      == if key !in d.original then None
         else if d.original[key].index !in taken && StillSets(d, edited, key)
         then if Wanted(edited, key).Some? then Wanted(edited, key) else Some(d.original[key].entry)
         else LastKept(ParseLine, d.lines[..d.original[key].index], taken, key)
  {
    hide ParseLine, LineAfter, Owner, NewLines, Writable, LastKept, LastEntry, Faithful, HasKey, StillSets;
    var a := AllAfter(d, edited)[..|d.lines|];
    forall i: nat | i < |d.lines|
      ensures a[i] == LineAfter(d, edited, i)
      ensures Owner(ParseLine, d, i) != Some(key) ==> HasKey(ParseLine, a[i], key) == HasKey(ParseLine, d.lines[i], key)
      ensures Owner(ParseLine, d, i) == None ==> a[i] == d.lines[i]
    {
      AfterSets(d, edited, i, key);
    }
    if key in d.original {
      IndexWithin(ParseLine, d, key);
      var j := d.original[key].index;
      forall i: nat | i < |d.lines|
        ensures Owner(ParseLine, d, i) == Some(key) <==> i == j
        ensures i > j ==> !HasKey(ParseLine, d.lines[i], key)
        ensures i != j && HasKey(ParseLine, d.lines[i], key) ==> Owner(ParseLine, d, i) == None
      {
        OwnerIs(ParseLine, d, i, key);
        LastSets(ParseLine, d, key, i);
        OtherLine(ParseLine, d, i, key);
      }
      OwnSets(d, edited, key);
      if j !in taken && StillSets(d, edited, key) {
        LastKeptAt(ParseLine, a, taken, key, j,
                   if Wanted(edited, key).Some? then Wanted(edited, key).value else d.original[key].entry);
      } else {
        LastKeptIs(ParseLine, a, taken, d.lines[..j], key);
      }
    } else {
      forall i: nat | i < |d.lines|
        ensures !HasKey(ParseLine, a[i], key)
      {
        OwnerHasSetting(ParseLine, d, i);
        EveryKeyIsRead(ParseLine, d, i, key);
      }
      LastKeptNone(ParseLine, a, taken, key);
    }
  }

  /** A line that is not the last one for a key sets that key after the edits exactly if it did before. */
  lemma AfterSets(d: Document<Entry>, edited: Settings<Entry>, i: nat, key: string)
    requires Faithful(ParseLine, d) && Writable(edited) && i < |d.lines|
    ensures Owner(ParseLine, d, i) != Some(key) ==>
      HasKey(ParseLine, LineAfter(d, edited, i), key) == HasKey(ParseLine, d.lines[i], key)
    ensures Owner(ParseLine, d, i) == None ==> LineAfter(d, edited, i) == d.lines[i]
  {
    hide ParseLine, Owner, IsDeleted, Faithful, Writable, LineAfter;
    LineAfterParses(d, edited, i);
    OwnerKey(ParseLine, d, i);
  }

  lemma OwnSets(d: Document<Entry>, edited: Settings<Entry>, key: string)
    requires Faithful(ParseLine, d) && Writable(edited) && key in d.original
    ensures var j := d.original[key].index;
      && j < |d.lines|
      && ParseLine(LineAfter(d, edited, j))
         == if Wanted(edited, key).Some? then Some((key, Wanted(edited, key).value))
            else if StillSets(d, edited, key) then Some((key, d.original[key].entry)) else None
    ensures !StillSets(d, edited, key) ==> !HasKey(ParseLine, LineAfter(d, edited, d.original[key].index), key)
  {
    hide ParseLine, Owner, Writable, Faithful, LineAfter, Dropped;
    IndexWithin(ParseLine, d, key);
    var j := d.original[key].index;
    OwnerIs(ParseLine, d, j, key);
    LineAfterParses(d, edited, j);
    EntryAt(ParseLine, d, key);
  }

  /** The lines hold these settings and no others. */
  ghost predicate ReadsAs(lines: seq<string>, edited: Settings<Entry>) {
    forall key :: LastEntry(ParseLine, lines, key) == Wanted(edited, key)
  }

  ghost predicate NoLeftover(d: Document<Entry>, edited: Settings<Entry>) {
    forall key :: !Leftover(d, edited, key)
  }

  /** If the texts of the line numbers do not agree with their order, a dropped setting stays: not being erased,
      it was not wanted at all. */
  lemma WrongLineShows(d: Document<Entry>, edited: Settings<Entry>)
    requires Faithful(ParseLine, d) && Writable(edited) && NothingErased(d, edited)
    requires !TextsAgree(ToDelete(d, d.keys, edited))
    ensures !ReadsAs(GenerateLines(d, edited), edited)
  {
    hide Faithful, ParseLine, Owner, LineAfter, NewLines, ToDelete, SortedDown, RemoveEach, Written, Commented, Wanted,
      Writable, TextsAgree, LastEntry, Gone, Distinct, Within, Descending;
    var at, all := ToDelete(d, d.keys, edited), AllAfter(d, edited);
    var sorted := SortedDown(at);
    KeysDistinct(ParseLine, d);
    ToDeleteIs(d, d.keys, edited);
    WrittenIs(d, edited);
    SortedDescends(at);
    SortedWithin(|d.lines|, at);
    WithinMore(sorted, |d.lines|, |all|);
    SomethingStays(|all|, sorted);
    var x :| x in sorted && x in RemoveEach<nat>(Indices(|all|), sorted);
    RemoveByNumber(all, sorted);
    var i :| 0 <= i < |RemoveEach<nat>(Indices(|all|), sorted)| && RemoveEach<nat>(Indices(|all|), sorted)[i] == x;
    assert GenerateLines(d, edited)[i] == all[x];
    MarkedStaysSet(d, edited, x);
    var key := Owner(ParseLine, d, x).value;
    LastIsSome(ParseLine, GenerateLines(d, edited), key, i);
  }

  lemma WithinMore(at: seq<nat>, n: nat, more: nat)
    requires Within(at, n) && n <= more
    ensures Within(at, more)
  {
  }

  /** A line that is marked to be deleted still sets its dropped key. */
  lemma MarkedStaysSet(d: Document<Entry>, edited: Settings<Entry>, x: nat)
    requires Faithful(ParseLine, d) && Writable(edited) && NothingErased(d, edited)
    requires x in SortedDown(ToDelete(d, d.keys, edited))
    ensures x < |d.lines| && Owner(ParseLine, d, x).Some?
    ensures var key := Owner(ParseLine, d, x).value;
      Wanted(edited, key) == None && HasKey(ParseLine, AllAfter(d, edited)[x], key)
  {
    hide Faithful, ParseLine, Owner, NewLines, ToDelete, SortedDown, Wanted, Writable;
    var at := ToDelete(d, d.keys, edited);
    SortedDownIs(at);
    SameElements(SortedDown(at), at);
    assert x in Gone(d, edited);
    GoneIs(d, edited, x);
    OwnerHasSetting(ParseLine, d, x);
    OwnerKey(ParseLine, d, x);
    assert !Erased(d, edited, Owner(ParseLine, d, x).value);
  }

  /** The numbers of the lines that are really taken out. */
  function Taken(d: Document<Entry>, edited: Settings<Entry>): set<nat> {
    TakenOut(|AllAfter(d, edited)|, SortedDown(ToDelete(d, d.keys, edited)))
  }

  /** Whether the right lines of a key stay: a new line has to; the last line the key had may stay only if it
      was wanted, unless it is no setting any more; without it the lines before have to say what was wanted. */
  ghost predicate KeyStaysRight(d: Document<Entry>, edited: Settings<Entry>, taken: set<nat>, key: string) {
    if key !in d.original then Wanted(edited, key).Some? ==> NewNumber(PrintLine, d, edited, key) !in taken
    else
      var j := d.original[key].index;
      if j !in taken && StillSets(d, edited, key) then Wanted(edited, key).Some?
      else j <= |d.lines| && LastKept(ParseLine, d.lines[..j], taken, key) == Wanted(edited, key)
  }

  ghost predicate StaysRight(d: Document<Entry>, edited: Settings<Entry>, taken: set<nat>) {
    forall key :: KeyStaysRight(d, edited, taken, key)
  }

  /** Reading the edited lines finds exactly the settings that were written, if and only if the right lines stay
      of every key. If among the lines to delete a lower number has the lower text, this is so exactly if
      nothing is left over of the dropped and erased settings; otherwise never, unless a setting is erased, whose
      line may be the one that stays by mistake. */
  lemma SettingsReadBack(d: Document<Entry>, edited: Settings<Entry>)
    requires Faithful(ParseLine, d) && Writable(edited)
    ensures ReadsAs(GenerateLines(d, edited), edited) <==> StaysRight(d, edited, Taken(d, edited))
    ensures TextsAgree(ToDelete(d, d.keys, edited)) ==> (StaysRight(d, edited, Taken(d, edited)) <==> NoLeftover(d, edited))
    ensures NothingErased(d, edited) && StaysRight(d, edited, Taken(d, edited)) ==> TextsAgree(ToDelete(d, d.keys, edited))
  {
    hide Faithful, Writable, TextsAgree, ToDelete, GenerateLines, LastEntry, Wanted, Leftover, NothingErased, KeyStaysRight, Taken;
    forall key
      ensures LastEntry(ParseLine, GenerateLines(d, edited), key) == Wanted(edited, key) <==> KeyStaysRight(d, edited, Taken(d, edited), key)
      ensures TextsAgree(ToDelete(d, d.keys, edited)) ==> (KeyStaysRight(d, edited, Taken(d, edited), key) <==> !Leftover(d, edited, key))
    {
      KeyReadsBack(d, edited, key);
      if TextsAgree(ToDelete(d, d.keys, edited)) {
        RightlyTaken(d, edited);
        KeyLeftOver(d, edited, key);
      }
    }
    if NothingErased(d, edited) && !TextsAgree(ToDelete(d, d.keys, edited)) {
      WrongLineShows(d, edited);
    }
  }

  lemma KeyReadsBack(d: Document<Entry>, edited: Settings<Entry>, key: string)
    requires Faithful(ParseLine, d) && Writable(edited)
    ensures LastEntry(ParseLine, GenerateLines(d, edited), key) == Wanted(edited, key) <==> KeyStaysRight(d, edited, Taken(d, edited), key)
  {
    hide ParseLine, PrintLine, LineAfter, NewLines, Writable, LastKept, LastEntry, Faithful, HasKey, ToDelete, Written, Commented,
      SortedDown, RemoveEach, Keep, TakenOut, StillSets, Wanted, NewNumber, Owner, Rereads;
    var all, n := AllAfter(d, edited), |d.lines|;
    WrittenIs(d, edited);
    RemovesTaken(all, SortedDown(ToDelete(d, d.keys, edited)));
    LastOfKeep(ParseLine, all, Taken(d, edited), key);
    assert all == all[..n] + NewLines(PrintLine, d, edited);
    WritableRereads(edited);
    RereadSame(Wanted(edited, key));
    NewLinesKept(ParseLine, PrintLine, Same, d, edited, all[..n], Taken(d, edited), key);
    OldLinesKept(d, edited, Taken(d, edited), key);
    StillWanted(d, edited, key);
  }

  lemma StillWanted(d: Document<Entry>, edited: Settings<Entry>, key: string)
    ensures Wanted(edited, key).Some? ==> StillSets(d, edited, key)
  {
  }

  lemma RightlyTaken(d: Document<Entry>, edited: Settings<Entry>)
    requires Faithful(ParseLine, d) && TextsAgree(ToDelete(d, d.keys, edited))
    ensures Taken(d, edited) == Gone(d, edited)
  {
    hide Faithful, ParseLine, Owner, LineAfter, NewLines, ToDelete, SortedDown, TakenOut, Elements, Distinct, Within;
    KeysDistinct(ParseLine, d);
    ToDeleteIs(d, d.keys, edited);
    WithinMore(ToDelete(d, d.keys, edited), |d.lines|, |AllAfter(d, edited)|);
    SortingTakesRight(|AllAfter(d, edited)|, ToDelete(d, d.keys, edited));
  }

  /** With the right lines taken out, a key is right unless something is left over of it. */
  lemma KeyLeftOver(d: Document<Entry>, edited: Settings<Entry>, key: string)
    requires Faithful(ParseLine, d)
    ensures KeyStaysRight(d, edited, Gone(d, edited), key) <==> !Leftover(d, edited, key)
  {
    hide ParseLine, PrintLine, NewLines, LastKept, LastEntry, Faithful, HasKey, ToDelete, Wanted, Owner, Gone, IsDeleted, NewNumber;
    var gone := Gone(d, edited);
    if key in d.original {
      IndexWithin(ParseLine, d, key);
      var j := d.original[key].index;
      OwnerIs(ParseLine, d, j, key);
      GoneIs(d, edited, j);
      var before := d.lines[..j];
      forall i: nat | i < j && i in gone
        ensures !HasKey(ParseLine, before[i], key)
      {
        GoneIs(d, edited, i);
        OwnerIs(ParseLine, d, i, key);
        OtherLine(ParseLine, d, i, key);
      }
      LastKeptAll(ParseLine, before, gone, key);
    } else {
      NewBehind(PrintLine, d, edited, key);
      GoneIs(d, edited, NewNumber(PrintLine, d, edited, key));
    }
  }

  // ----- The text of the file

  lemma LinesAreTrimmed()
    ensures ReadsTrimmed(ParseLine)
  {
    assert ParseLine("") == None;
  }

  lemma RereadSame(o: Option<Entry>)
    ensures Reread(Same, o) == o
  {
  }

  ghost predicate OneLiners(edited: Settings<Entry>) {
    forall i | 0 <= i < |edited| ::
      && Avoids(edited[i].0, '\n') && Avoids(edited[i].1.value, '\n')
      && (edited[i].1.comment.Some? ==> Avoids(edited[i].1.comment.value, '\n'))
  }

  lemma PrintedAvoids(key: string, e: Entry)
    requires Avoids(key, '\n') && Avoids(e.value, '\n') && (e.comment.Some? ==> Avoids(e.comment.value, '\n'))
    ensures Avoids(PrintLine(key, e), '\n')
  {
  }

  lemma MarkAvoids(line: string)
    requires Avoids(line, '\n')
    ensures Avoids("#" + line, '\n')
  {
  }

  lemma {:induction false} WantedAvoids(edited: Settings<Entry>, key: string)
    requires OneLiners(edited) && Wanted(edited, key).Some?
    ensures Avoids(PrintLine(key, Wanted(edited, key).value), '\n')
  {
    hide Avoids, PrintLine;
    var less, last := edited[..|edited| - 1], edited[|edited| - 1];
    if last.0 == key {
      PrintedAvoids(key, last.1);
    } else {
      assert forall i | 0 <= i < |less| :: edited[i] == less[i];
      WantedAvoids(less, key);
    }
  }

  lemma {:induction false} NewLinesAvoid(d: Document<Entry>, edited: Settings<Entry>)
    requires OneLiners(edited)
    ensures NoFeeds(NewLines(PrintLine, d, edited))
  {
    hide Avoids, PrintLine;
    if edited != [] {
      var less, last := edited[..|edited| - 1], edited[|edited| - 1];
      assert forall i | 0 <= i < |less| :: edited[i] == less[i];
      NewLinesAvoid(d, less);
      PrintedAvoids(last.0, last.1);
    }
  }

  lemma AfterAvoids(d: Document<Entry>, edited: Settings<Entry>)
    requires NoFeeds(d.lines) && OneLiners(edited)
    ensures NoFeeds(AllAfter(d, edited))
  {
    hide Avoids, PrintLine, Owner, NewLines, OneLiners, BecomesComment;
    var all := AllAfter(d, edited);
    forall i | 0 <= i < |all|
      ensures Avoids(all[i], '\n')
    {
      if i < |d.lines| {
        MarkAvoids(d.lines[i]);
        var o := Owner(ParseLine, d, i);
        if o.Some? && Wanted(edited, o.value).Some? {
          WantedAvoids(edited, o.value);
        }
      } else {
        NewLinesAvoid(d, edited);
        assert all[i] in NewLines(PrintLine, d, edited);
      }
    }
  }

  lemma {:induction false} RemoveAvoids(lines: seq<string>, at: seq<nat>)
    requires NoFeeds(lines)
    ensures NoFeeds(RemoveEach(lines, at))
  {
    hide Avoids;
    if at != [] {
      RemoveAvoids(lines, at[..|at| - 1]);
    }
  }

  lemma GeneratedAvoids(raw: string, edited: Settings<Entry>)
    requires OneLiners(edited)
    ensures NoFeeds(GenerateLines(ParseLines(ParseLine, Lines(raw)), edited))
  {
    hide Faithful, ToDelete, OneLiners, NoFeeds, Lines, ParseLine, ParseLines, AllAfter, Written, Commented, RemoveEach, SortedDown;
    var d := ParseLines(ParseLine, Lines(raw));
    ParseIsFaithful(ParseLine, Lines(raw));
    SplitAvoids(raw);
    AfterAvoids(d, edited);
    WrittenIs(d, edited);
    RemoveAvoids(AllAfter(d, edited), SortedDown(ToDelete(d, d.keys, edited)));
  }

  /** The whole way from the text of a file over an edit to the text that is written: reading it again finds
      exactly the settings that were written, under the same conditions. */
  lemma FileRoundTrip(raw: string, edited: Settings<Entry>)
    requires Writable(edited) && OneLiners(edited)
    ensures var d := ParseLines(ParseLine, Lines(raw));
      && (ReadsAs(Lines(Generate(d, edited)), edited) <==> StaysRight(d, edited, Taken(d, edited)))
      && (TextsAgree(ToDelete(d, d.keys, edited)) ==> (StaysRight(d, edited, Taken(d, edited)) <==> NoLeftover(d, edited)))
      && (NothingErased(d, edited) && StaysRight(d, edited, Taken(d, edited)) ==> TextsAgree(ToDelete(d, d.keys, edited)))
  {
    hide Faithful, Writable, NothingErased, TextsAgree, ToDelete, LastEntry, Wanted, NoLeftover, StaysRight, Taken, OneLiners, NoFeeds, Lines,
      ParseLines, Join, AllAfter, Written, Commented, RemoveEach, SortedDown;
    var d := ParseLines(ParseLine, Lines(raw));
    ParseIsFaithful(ParseLine, Lines(raw));
    GeneratedAvoids(raw, edited);
    SettingsReadBack(d, edited);
    FeedsAvoided(GenerateLines(d, edited));
    LinesAreTrimmed();
    ReturnsAreIgnored(ParseLine);
    forall key
      ensures LastEntry(ParseLine, Lines(Generate(d, edited)), key) == LastEntry(ParseLine, GenerateLines(d, edited), key)
    {
      TextReadsBack(ParseLine, GenerateLines(d, edited), key);
    }
  }

  // ----- The lines that are no settings

  /** A setting that is not written at all and had a comment. */
  predicate LeavesComment(d: Document<Entry>, edited: Settings<Entry>, k: string) {
    BecomesComment(d, edited, k) && Wanted(edited, k) == None
  }

  /** What is left of the first `n` lines that sets nothing: such lines are as they were, and a dropped setting
      with a comment leaves its line behind a "#". */
  function OthersAfter(d: Document<Entry>, edited: Settings<Entry>, taken: set<nat>, n: nat): seq<string>
    requires n <= |d.lines|
  {
    if n == 0 then []
    else
      var line, o := d.lines[n - 1], Owner(ParseLine, d, n - 1);
      OthersAfter(d, edited, taken, n - 1) +
      if n - 1 in taken then []
      else if ParseLine(line) == None then [line]
      else if o.Some? && LeavesComment(d, edited, o.value) then ["#" + line] else []
  }

  /** Whether a line is one that sets nothing after the edits. */
  lemma OtherAfter(d: Document<Entry>, edited: Settings<Entry>, i: nat)
    requires Faithful(ParseLine, d) && Writable(edited) && i < |d.lines|
    ensures var line, o, l := d.lines[i], Owner(ParseLine, d, i), LineAfter(d, edited, i);
      if ParseLine(line) == None then l == line
      else if o.Some? && LeavesComment(d, edited, o.value) then ParseLine(l) == None && l == "#" + line
      else ParseLine(l).Some?
  {
    hide ParseLine, Owner, Faithful, Writable;
    LineAfterParses(d, edited, i);
    OwnedIsSetting(ParseLine, d, i);
    OwnerHasSetting(ParseLine, d, i);
    CommentIsNoSetting(d.lines[i]);
    var o := Owner(ParseLine, d, i);
    if o.Some? {
      WantedIs(edited, o.value);
    }
  }

  lemma {:induction false} OldOthers(d: Document<Entry>, edited: Settings<Entry>, taken: set<nat>, n: nat)
    requires Faithful(ParseLine, d) && Writable(edited) && n <= |d.lines|
    ensures OthersKept(ParseLine, AllAfter(d, edited)[..n], taken) == OthersAfter(d, edited, taken, n)
  {
    hide ParseLine, Owner, Faithful, Writable, NewLines, LeavesComment, LineAfter;
    if n > 0 {
      OldOthers(d, edited, taken, n - 1);
      OtherAfter(d, edited, n - 1);
      var all := AllAfter(d, edited);
      assert all[..n][..n - 1] == all[..n - 1] && all[..n][n - 1] == LineAfter(d, edited, n - 1);
    }
  }

  /** Comments, empty lines and lines that cannot be read survive unchanged and in order, but for those that are
      taken out by mistake; nothing is added to them but the dropped settings that had comments, each at its own
      place. If among the lines to delete a lower number has the lower text, none is taken out. */
  lemma OthersSurvive(d: Document<Entry>, edited: Settings<Entry>)
    requires Faithful(ParseLine, d) && Writable(edited)
    ensures Others(ParseLine, GenerateLines(d, edited)) == OthersAfter(d, edited, Taken(d, edited), |d.lines|)
    ensures TextsAgree(ToDelete(d, d.keys, edited)) ==>
      OthersAfter(d, edited, Taken(d, edited), |d.lines|) == OthersAfter(d, edited, {}, |d.lines|)
  {
    hide ParseLine, Owner, Faithful, Writable, Gone, NewLines, LineAfter, ToDelete, Others, OthersKept, Written,
      Commented, SortedDown, RemoveEach, Keep, TakenOut, TextsAgree, OthersAfter, Rereads;
    var all, n := AllAfter(d, edited), |d.lines|;
    WrittenIs(d, edited);
    RemovesTaken(all, SortedDown(ToDelete(d, d.keys, edited)));
    OthersOfKeep(ParseLine, all, Taken(d, edited));
    assert all == all[..n] + NewLines(PrintLine, d, edited);
    WritableRereads(edited);
    NewLinesSet(ParseLine, PrintLine, Same, d, edited, all[..n], Taken(d, edited));
    OldOthers(d, edited, Taken(d, edited), n);
    if TextsAgree(ToDelete(d, d.keys, edited)) {
      RightlyTaken(d, edited);
      OthersStay(d, edited, n);
    }
  }

  /** The lines that should go set something. */
  lemma {:induction false} OthersStay(d: Document<Entry>, edited: Settings<Entry>, n: nat)
    requires Faithful(ParseLine, d) && n <= |d.lines|
    ensures OthersAfter(d, edited, Gone(d, edited), n) == OthersAfter(d, edited, {}, n)
  {
    hide ParseLine, Owner, Faithful, Gone;
    if n > 0 {
      OthersStay(d, edited, n - 1);
      GoneIs(d, edited, n - 1);
      OwnedIsSetting(ParseLine, d, n - 1);
    }
  }

  /** Without dropped comments they are just the same. */
  lemma {:induction false} OthersUnchanged(d: Document<Entry>, edited: Settings<Entry>, n: nat)
    requires n <= |d.lines| && forall k :: !LeavesComment(d, edited, k)
    ensures OthersAfter(d, edited, {}, n) == Others(ParseLine, d.lines[..n])
  {
    hide ParseLine, Owner, LeavesComment;
    if n > 0 {
      OthersUnchanged(d, edited, n - 1);
      assert d.lines[..n][..n - 1] == d.lines[..n - 1];
    }
  }

  /** Through the text: what is left of the lines that set nothing is read again without a carriage return at the
      end of any line, and the same if and only if none has one; an empty line comes behind them, and two for
      a file without lines. */
  lemma OthersThroughFile(raw: string, edited: Settings<Entry>)
    requires Writable(edited) && OneLiners(edited)
    ensures var d := ParseLines(ParseLine, Lines(raw));
      var rest := OthersAfter(d, edited, Taken(d, edited), |d.lines|);
      var others := rest + if GenerateLines(d, edited) == [] then ["", ""] else [""];
      && Others(ParseLine, Lines(Generate(d, edited))) == Stripped(others)
      && (Others(ParseLine, Lines(Generate(d, edited))) == others <==> forall l | l in rest :: !EndsInReturn(l))
  {
    hide Faithful, Writable, TextsAgree, ToDelete, GenerateLines, Taken, OneLiners, NoFeeds, Lines, ParseLine, ParseLines, Join,
      OthersAfter, Others, EndsInReturn, Stripped, ReadsTrimmed, IgnoresReturns;
    var d := ParseLines(ParseLine, Lines(raw));
    var lines := GenerateLines(d, edited);
    ParseIsFaithful(ParseLine, Lines(raw));
    OthersSurvive(d, edited);
    GeneratedAvoids(raw, edited);
    LinesAreTrimmed();
    ReturnsAreIgnored(ParseLine);
    OthersBehind(ParseLine, lines);
    var parts := if lines == [] then ["", ""] else lines + [""];
    TextOfParts(lines);
    OthersReadAgain(ParseLine, parts);
    BlanksEndNothing(OthersAfter(d, edited, Taken(d, edited), |d.lines|));
    NoOthers();
  }

  lemma NoOthers()
    ensures Others(ParseLine, []) == []
  {
  }

  lemma BlanksEndNothing(rest: seq<string>)
    ensures (forall l | l in rest + [""] :: !EndsInReturn(l)) <==> forall l | l in rest :: !EndsInReturn(l)
    ensures (forall l | l in ["", ""] :: !EndsInReturn(l)) && [] + ["", ""] == ["", ""]
  {
    assert forall l | l in rest :: l in rest + [""];
  }

  lemma TextOfParts(lines: seq<string>)
    ensures Join(lines, '\n') + "\n" == Join(if lines == [] then ["", ""] else lines + [""], '\n')
    ensures NoFeeds(lines) ==> NoFeeds(if lines == [] then ["", ""] else lines + [""])
  {
    hide Join, Avoids;
    EmptyAvoids('\n');
    if lines == [] {
      JoinNothing();
    } else {
      JoinLast(lines, '\n');
    }
  }

  // ----- Saving without a change

  /** Where no line is to go and none is new, saving adds a line feed, whatever it makes of the lines. */
  lemma EditAddsFeed(raw: string, edited: Settings<Entry>)
    requires OneLiners(edited)
    requires var d := ParseLines(ParseLine, Lines(raw)); ToDelete(d, d.keys, edited) == [] && NewLines(PrintLine, d, edited) == []
    ensures Count(Generate(ParseLines(ParseLine, Lines(raw)), edited), '\n') == Count(raw, '\n') + 1
  {
    hide ParseLine, ParseLines, LineAfter, ToDelete, GenerateLines, Split, Join, Count, Avoids, Faithful, OneLiners;
    var d := ParseLines(ParseLine, Lines(raw));
    GeneratedAvoids(raw, edited);
    NothingRemoved(raw, edited);
    var lines := GenerateLines(d, edited);
    CountSplit(raw, '\n');
    CountJoin(lines, '\n');
    CountBoth(Join(lines, '\n'), "\n", '\n');
    CountOne('\n');
  }

  lemma NothingRemoved(raw: string, edited: Settings<Entry>)
    requires var d := ParseLines(ParseLine, Lines(raw)); ToDelete(d, d.keys, edited) == []
    ensures var d := ParseLines(ParseLine, Lines(raw));
      GenerateLines(d, edited) == AllAfter(d, edited) && |d.lines| == |Lines(raw)|
  {
    hide ParseLine, ParseLines, AllAfter, ToDelete, Lines, Faithful, Written, Commented;
    var d := ParseLines(ParseLine, Lines(raw));
    ParseIsFaithful(ParseLine, Lines(raw));
    WrittenIs(d, edited);
    assert SortedDown([]) == [];
    RemoveNone(Written(PrintLine, d, Commented(d, d.keys, edited), edited));
  }

  /** The settings as they were read. */
  ghost function Unedited(d: Document<Entry>): Settings<Entry>
    requires Faithful(ParseLine, d)
  {
    SettingsOf(d, d.keys)
  }

  function SettingsOf(d: Document<Entry>, keys: seq<string>): Settings<Entry>
    requires forall k | k in keys :: k in d.original
  {
    if keys == [] then []
    else
      var key := keys[|keys| - 1];
      SettingsOf(d, keys[..|keys| - 1]) + [(key, d.original[key].entry)]
  }

  lemma {:induction false} SettingsOfIs(d: Document<Entry>, keys: seq<string>, key: string)
    requires forall k | k in keys :: k in d.original
    ensures var s := SettingsOf(d, keys);
      && |s| == |keys| && (forall i | 0 <= i < |keys| :: s[i] == (keys[i], d.original[keys[i]].entry))
      && Wanted(s, key) == (if key in keys then Some(d.original[key].entry) else None)
      && NewLines(PrintLine, d, s) == []
  {
    hide PrintLine;
    if keys != [] {
      var less, last := keys[..|keys| - 1], keys[|keys| - 1];
      assert keys == less + [last];
      SettingsOfIs(d, less, key);
      assert SettingsOf(d, keys)[..|less|] == SettingsOf(d, less);
    }
  }

  lemma ParsedAvoids(line: string)
    requires Avoids(line, '\n') && ParseLine(line).Some?
    ensures var (key, e) := ParseLine(line).value;
      Avoids(key, '\n') && Avoids(e.value, '\n') && (e.comment.Some? ==> Avoids(e.comment.value, '\n'))
  {
    hide Trim, Cut, IsSpace;
    var t := Trim(line);
    TrimAvoids(line, '\n');
    var (key, rest) := Cut(t, ' ');
    CutIs(t, ' ');
    assert t == key + " " + rest.value && t == key + (" " + rest.value);
    BehindAvoids(key + " ", rest.value, '\n');
    TrimAvoids(rest.value, '\n');
    var text := Trim(rest.value);
    var (value, comment) := Cut(text, '#');
    CutIs(text, '#');
    if comment.Some? {
      assert text == value + ("#" + comment.value);
      BehindAvoids(value, "#" + comment.value, '\n');
      TrimAvoids(value, '\n');
      TrimAvoids("#" + comment.value, '\n');
    }
    BehindAvoids(key, " " + rest.value, '\n');
  }

  lemma BehindAvoids(a: string, b: string, c: char)
    requires Avoids(a + b, c)
    ensures Avoids(a, c) && Avoids(b, c)
  {
    assert forall i | 0 <= i < |a| :: (a + b)[i] == a[i];
    assert forall i | 0 <= i < |b| :: (a + b)[|a| + i] == b[i];
  }

  lemma UneditedIs(d: Document<Entry>)
    requires Faithful(ParseLine, d) && NoFeeds(d.lines)
    ensures Writable(Unedited(d)) && OneLiners(Unedited(d)) && NewLines(PrintLine, d, Unedited(d)) == []
    ensures forall key :: Wanted(Unedited(d), key) == if key in d.original then Some(d.original[key].entry) else None
  {
    hide ParseLine, PrintLine, GoodKey, GoodEntry, Avoids, Wanted, NoFeeds;
    forall key
      ensures Wanted(Unedited(d), key) == if key in d.original then Some(d.original[key].entry) else None
    {
      SettingsOfIs(d, d.keys, key);
    }
    SettingsOfIs(d, d.keys, "");
    var s := Unedited(d);
    forall i | 0 <= i < |s|
      ensures GoodKey(s[i].0) && GoodEntry(s[i].1)
      ensures Avoids(s[i].0, '\n') && Avoids(s[i].1.value, '\n')
      ensures s[i].1.comment.Some? ==> Avoids(s[i].1.comment.value, '\n')
    {
      ReadIsGood(d, d.keys[i]);
    }
  }

  lemma ReadIsGood(d: Document<Entry>, key: string)
    requires Faithful(ParseLine, d) && NoFeeds(d.lines) && key in d.original
    ensures var e := d.original[key].entry;
      && GoodKey(key) && GoodEntry(e)
      && Avoids(key, '\n') && Avoids(e.value, '\n') && (e.comment.Some? ==> Avoids(e.comment.value, '\n'))
  {
    hide ParseLine, GoodKey, GoodEntry, Avoids;
    var line := d.original[key].origLine;
    assert line in d.lines;
    ParsedIsGood(line);
    ParsedAvoids(line);
  }

  lemma {:induction false} NothingToDelete(d: Document<Entry>, keys: seq<string>, edited: Settings<Entry>)
    requires forall key :: !IsDeleted(d, edited, key)
    ensures ToDelete(d, keys, edited) == []
  {
    hide Wanted;
    if keys != [] {
      NothingToDelete(d, keys[..|keys| - 1], edited);
      assert !IsDeleted(d, edited, keys[|keys| - 1]);
    }
  }

  lemma NothingDropped(d: Document<Entry>, edited: Settings<Entry>)
    requires Faithful(ParseLine, d)
    requires forall key :: Wanted(edited, key) == if key in d.original then Some(d.original[key].entry) else None
    ensures ToDelete(d, d.keys, edited) == [] && TextsAgree([]) && NoLeftover(d, edited)
  {
    hide ParseLine, Wanted;
    forall key
      ensures !IsDeleted(d, edited, key)
    {
      if key in d.original {
        ParsedIsGood(d.original[key].origLine);
      }
    }
    NothingToDelete(d, d.keys, edited);
  }

  /** Saving the settings of any text as they were read adds a line feed to it, every time, and the text that is
      read again has the same settings. */
  lemma SavingAddsFeed(raw: string)
    ensures var d := ParseLines(ParseLine, Lines(raw));
      && Faithful(ParseLine, d)
      && Count(Generate(d, Unedited(d)), '\n') == Count(raw, '\n') + 1
      && ReadsAs(Lines(Generate(d, Unedited(d))), Unedited(d))
  {
    hide Faithful, Writable, OneLiners, NoFeeds, Lines, ParseLine, ParseLines, Generate, Unedited, Wanted, ToDelete, TextsAgree,
      StaysRight, Taken, NoLeftover, ReadsAs, Count, NewLines;
    var d := ParseLines(ParseLine, Lines(raw));
    ParseIsFaithful(ParseLine, Lines(raw));
    SplitAvoids(raw);
    UneditedIs(d);
    NothingDropped(d, Unedited(d));
    EditAddsFeed(raw, Unedited(d));
    FileRoundTrip(raw, Unedited(d));
  }

  /** Where no line is written differently the lines stay as they are. */
  lemma SavingKeepsLines(raw: string, edited: Settings<Entry>)
    requires var d := ParseLines(ParseLine, Lines(raw)); ToDelete(d, d.keys, edited) == [] && AllAfter(d, edited) == d.lines
    ensures Generate(ParseLines(ParseLine, Lines(raw)), edited) == Join(Lines(raw), '\n') + "\n"
  {
    hide ParseLine, ParseLines, AllAfter, ToDelete, GenerateLines, Lines, Join;
    NothingRemoved(raw, edited);
    ParseIsFaithful(ParseLine, Lines(raw));
  }

  /** A text without carriage returns is otherwise the same. */
  lemma SavingAddsLine(raw: string, edited: Settings<Entry>)
    requires Avoids(raw, '\r')
    requires var d := ParseLines(ParseLine, Lines(raw)); ToDelete(d, d.keys, edited) == [] && AllAfter(d, edited) == d.lines
    ensures Generate(ParseLines(ParseLine, Lines(raw)), edited) == raw + "\n"
  {
    hide ParseLine, ParseLines, AllAfter, ToDelete, Generate, Split, Join;
    SavingKeepsLines(raw, edited);
    ReturnFree(raw);
    JoinSplit(raw, '\n');
  }

  lemma RemoveNone(lines: seq<string>)
    ensures RemoveEach(lines, []) == lines
  {
  }

  // ----- The object that reads and writes the file

  class ConfigFile {
    var rawContent: Option<string>
    var loaded: bool
    var lines: seq<string>
    var keys: seq<string>
    var original: map<string, Setting<Entry>>

    function Contents(): Document<Entry>
      reads this
    {
      Document(lines, keys, original)
    }

    /** What is loaded is what the last text that was not empty says. */
    ghost predicate Valid()
      reads this
    {
      loaded ==> rawContent.Some? && rawContent.value != "" && Contents() == ParseLines(ParseLine, Lines(rawContent.value))
    }

    constructor ()
      ensures Valid() && !loaded && rawContent == None
    {
      rawContent, loaded, lines, keys, original := None, false, [], [], map[];
    }

    /** Take in the text of the file, unless it is the one that was taken in last. */
    method ParseText(raw: string)
      requires Valid()
      modifies this
      ensures Valid()
      ensures loaded <==> raw != "" && (old(loaded) || old(rawContent) != Some(raw))
      ensures raw == "" ==> rawContent == old(rawContent)
      ensures raw != "" && old(rawContent) == Some(raw) ==> Contents() == old(Contents())
      ensures raw != "" && old(rawContent) != Some(raw) ==> Contents() == ParseLines(ParseLine, Lines(raw))
      ensures raw != "" ==> rawContent == Some(raw)
    {
      if raw == "" {
        loaded := false;
        return;
      }
      if rawContent == Some(raw) {
        return;
      }
      rawContent := Some(raw);
      var d := ReadAll(ParseLine, Lines(raw));
      lines, keys, original := d.lines, d.keys, d.original;
      loaded := true;
    }

    /** A file that is emptied and then gets its old text back stays unloaded. */
    method EmptiedAndRestored(raw: string)
      requires Valid() && raw != ""
      modifies this
      ensures !loaded && rawContent == Some(raw)
    {
      ParseText(raw);
      ParseText("");
      ParseText(raw);
    }

    /** The text with other settings; nothing where the code throws, when no text has been loaded. */
    method GenerateConfig(edited: Settings<Entry>) returns (text: Option<string>)
      requires Valid()
      ensures text == if loaded then Some(Generate(Contents(), edited)) else None
    {
      if !loaded {
        return None;
      }
      hide ParseLines, Generate, Written, Commented, ToDelete, RemoveEach, SortedDown, Join;
      ParseIsFaithful(ParseLine, Lines(rawContent.value));
      var edit, at := DropSettings(edited);
      SameSize(Contents(), keys, edited);
      edit := WriteAll(ParseLine, PrintLine, Contents(), edit, edited);
      edit := DeleteLines(edit, SortedDown(at));
      GenerateJoins(Contents(), edited);
      return Some(Join(edit, '\n') + "\n");
    }

    method DropSettings(edited: Settings<Entry>) returns (edit: seq<string>, at: seq<nat>)
      requires Faithful(ParseLine, Contents())
      ensures edit == Commented(Contents(), keys, edited) && at == ToDelete(Contents(), keys, edited)
    {
      hide ParseLine, Wanted;
      edit, at := lines, [];
      var k := 0;
      assert keys[..0] == [];
      while k < |keys|
        invariant 0 <= k <= |keys|
        invariant edit == Commented(Contents(), keys[..k], edited) && at == ToDelete(Contents(), keys[..k], edited)
      {
        assert keys[..k + 1][..k] == keys[..k];
        SameSize(Contents(), keys[..k], edited);
        var key := keys[k];
        assert key in keys && key in original;
        if Dropped(edited, key) {
          var s := original[key];
          if s.entry.comment.Some? {
            edit := edit[s.index := "#" + s.origLine];
          } else {
            at := at + [s.index];
          }
        }
        k := k + 1;
      }
      assert keys[..|keys|] == keys;
    }

    method DeleteLines(start: seq<string>, at: seq<nat>) returns (edit: seq<string>)
      ensures edit == RemoveEach(start, at)
    {
      edit := start;
      var k := 0;
      assert at[..0] == [];
      while k < |at|
        invariant 0 <= k <= |at| && edit == RemoveEach(start, at[..k])
      {
        assert at[..k + 1][..k] == at[..k];
        edit := RemoveAt(edit, at[k]);
        k := k + 1;
      }
      assert at[..|at|] == at;
    }
  }

  lemma GenerateJoins(d: Document<Entry>, edited: Settings<Entry>)
    ensures Generate(d, edited)
      == Join(RemoveEach(Written(PrintLine, d, Commented(d, d.keys, edited), edited), SortedDown(ToDelete(d, d.keys, edited))), '\n') + "\n"
  {
  }
}
