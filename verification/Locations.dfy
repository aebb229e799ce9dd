/** Locations: a path and options written as the hash of a URL and read back. */
module Locations {
  import opened Options
  import opened Strings
  import opened Percent

  // ----- Paths

  /** What one more part does to the parts before it; ".." with nothing before it is an error. */
  function Step(out: seq<string>, part: string): Option<seq<string>> {
    if part == "" || part == "." then Some(out)
    else if part == ".." then if out == [] then None else Some(out[..|out| - 1])
    else Some(out + [part])
  }

  function ResolveDots(parts: seq<string>): Option<seq<string>> {
    if parts == [] then Some([])
    else
      var before := ResolveDots(parts[..|parts| - 1]);
      if before.Some? then Step(before.value, parts[|parts| - 1]) else None
  }

  /** The parts of the root that locations are relative to. */
  function RootParts(root: string): Option<seq<string>> {
    if root == "" then Some([]) else DecodeAll(Split(root, '/'))
  }

  function DropRoot(root: seq<string>, parts: seq<string>): seq<string> {
    if root <= parts then parts[|root|..] else parts
  }

  /** Nothing where the code throws. */
  function DecodePath(root: string, current: seq<string>, input: string): Option<seq<string>> {
    var parts, pre := DecodeAll(Split(input, '/')), RootParts(root);
    if parts == None || pre == None then None
    else
      var base := if current == [] then [] else current[..|current| - 1];
      var all := if input != "" && input[0] != '/' then base + parts.value else parts.value;
      var result := ResolveDots(all);
      if result == None then None else Some(DropRoot(pre.value, result.value))
  }

  // ----- Options

  /** An option to encode: one value, or a list. */
  datatype Setting = One(value: Bytes) | Many(values: seq<Bytes>)

  /** A decoded option. */
  datatype Value = Text(text: string) | List(items: seq<Value>)

  function Values(s: Setting): seq<Bytes> {
    if s.One? then [s.value] else s.values
  }

  /** Another value for an option: an empty text counts as no value, anything else goes into a new list. */
  function Another(options: map<string, Value>, name: string, value: string): map<string, Value> {
    if name in options && options[name] != Text("") then options[name := List([options[name], Text(value)])]
    else options[name := Text(value)]
  }

  /** One "name=value"; a missing value reads as undefined. */
  function AddEntry(options: map<string, Value>, entry: string): Option<map<string, Value>> {
    var parts := Split(entry, '=');
    var name, value := Decode(parts[0]), Decode(if |parts| > 1 then parts[1] else "undefined");
    if name == None || value == None then None else Some(Another(options, name.value, value.value))
  }

  function AddEntries(options: map<string, Value>, entries: seq<string>): Option<map<string, Value>> {
    if entries == [] then Some(options)
    else
      var before := AddEntries(options, entries[..|entries| - 1]);
      if before.Some? then AddEntry(before.value, entries[|entries| - 1]) else None
  }

  function Entry(name: Bytes, value: Bytes): string {
    Encode(name) + "=" + Encode(value)
  }

  function EntriesFor(name: Bytes, values: seq<Bytes>): seq<string> {
    if values == [] then [] else EntriesFor(name, values[..|values| - 1]) + [Entry(name, values[|values| - 1])]
  }

  /** All entries of the options, in their order. */
  function Entries(options: seq<(Bytes, Setting)>): seq<string> {
    if options == [] then []
    else
      var (name, s) := options[|options| - 1];
      Entries(options[..|options| - 1]) + EntriesFor(name, Values(s))
  }

  // ----- Locations

  /** The characters that need not be escaped in the path of a location. */
  function Undo(href: string): string {
    ReplaceAll(ReplaceAll(ReplaceAll(ReplaceAll(href, "%40", '@'), "%3D", '='), "%2B", '+'), "%23", '#')
  }

  function PathHref(path: seq<Bytes>): string {
    "/" + Join(EncodeAll(path), '/')
  }

  /** The address written under the root, before anything is un-escaped. */
  function FullHref(root: string, path: seq<Bytes>, withRoot: bool): string {
    var href := PathHref(path);
    if withRoot && root != "" && !("/" + root + "/" <= href) then "/" + root + href else href
  }

  function EncodeLocation(root: string, path: seq<Bytes>, options: seq<(Bytes, Setting)>, withRoot: bool): string {
    var query := Entries(options);
    Undo(FullHref(root, path, withRoot)) + if query == [] then "" else "?" + Join(query, '&')
  }

  function DecodeLocation(root: string, current: seq<string>, href: string, options: map<string, Value>):
    Option<(seq<string>, map<string, Value>)>
  {
    var h := if href != "" && href[0] == '#' then href[1..] else href;
    var (first, query) := Cut(h, '?');
    var path := DecodePath(root, current, first);
    var all := if query == None then Some(options) else AddEntries(options, Split(query.value, '&'));
    if path == None || all == None then None else Some((path.value, all.value))
  }

  class Location {
    const urlRoot: string
    const path: seq<string>

    constructor (urlRoot: string, path: seq<string>)
      ensures this.urlRoot == urlRoot && this.path == path
    {
      this.urlRoot, this.path := urlRoot, path;
    }

    method ResolvePathDots(parts: seq<string>) returns (out: Option<seq<string>>)
      ensures out == ResolveDots(parts)
    {
      var acc: seq<string> := [];
      var i := 0;
      while i < |parts|
        invariant 0 <= i <= |parts| && ResolveDots(parts[..i]) == Some(acc)
      {
        assert parts[..i + 1][..i] == parts[..i];
        NoneStays(parts, i + 1);
        var part := parts[i];
        if part == "" || part == "." {
        } else if part == ".." {
          if acc == [] {
            return None;
          }
          acc := acc[..|acc| - 1];
        } else {
          acc := acc + [part];
        }
        i := i + 1;
      }
      assert parts[..|parts|] == parts;
      return Some(acc);
    }

    method Decoding(input: string) returns (result: Option<seq<string>>)
      ensures result == DecodePath(urlRoot, path, input)
    {
      var parts := DecodeAll(Split(input, '/'));
      var pre := Some([]);
      if urlRoot != "" {
        pre := DecodeAll(Split(urlRoot, '/'));
      }
      if parts == None || pre == None {
        return None;
      }
      var all := parts.value;
      if input != "" && input[0] != '/' {
        all := (if path == [] then [] else path[..|path| - 1]) + parts.value;
      }
      result := ResolvePathDots(all);
      if result == None {
        return None;
      }
      var rest := DropRootFrom(pre.value, result.value);
      result := Some(rest);
    }

    method DropRootFrom(pre: seq<string>, parts: seq<string>) returns (result: seq<string>)
      ensures result == DropRoot(pre, parts)
    {
      var i := 0;
      while i < |pre|
        invariant 0 <= i <= |pre| && i <= |parts| && pre[..i] == parts[..i]
      {
        if i >= |parts| || pre[i] != parts[i] {
          break;
        }
        i := i + 1;
      }
      result := parts;
      if i == |pre| {
        result := parts[|pre|..];
      }
    }

    method FullAddress(path: seq<Bytes>, withRoot: bool) returns (href: string)
      ensures href == FullHref(urlRoot, path, withRoot)
    {
      href := "/" + Join(EncodeAll(path), '/');
      if withRoot && urlRoot != "" && !("/" + urlRoot + "/" <= href) {
        href := "/" + urlRoot + href;
      }
    }

    method Unescaping(address: string) returns (href: string)
      ensures href == Undo(address)
    {
      href := ReplaceAll(address, "%40", '@');
      href := ReplaceAll(href, "%3D", '=');
      href := ReplaceAll(href, "%2B", '+');
      href := ReplaceAll(href, "%23", '#');
    }

    /** Write a path and options as a location. */
    method Encoding(path: seq<Bytes>, options: seq<(Bytes, Setting)>, withRoot: bool) returns (href: string)
      ensures href == EncodeLocation(urlRoot, path, options, withRoot)
    {
      hide Undo, FullHref, Join, Entries;
      href := FullAddress(path, withRoot);
      href := Unescaping(href);
      var query := QueryEntries(options);
      if |query| > 0 {
        href := href + "?" + Join(query, '&');
      }
    }

    method QueryEntries(options: seq<(Bytes, Setting)>) returns (query: seq<string>)
      ensures query == Entries(options)
    {
      query := [];
      var i := 0;
      while i < |options|
        invariant 0 <= i <= |options| && query == Entries(options[..i])
      {
        assert options[..i + 1][..i] == options[..i];
        query := PushOption(query, options[i].0, Values(options[i].1));
        i := i + 1;
      }
      assert options[..|options|] == options;
    }

    method PushOption(before: seq<string>, name: Bytes, values: seq<Bytes>) returns (query: seq<string>)
      ensures query == before + EntriesFor(name, values)
    {
      query := before;
      var k := 0;
      while k < |values|
        invariant 0 <= k <= |values| && query == before + EntriesFor(name, values[..k])
      {
        assert values[..k + 1][..k] == values[..k];
        query := query + [Entry(name, values[k])];
        k := k + 1;
      }
      assert values[..|values|] == values;
    }

    /** Read a location: its path, and its options on top of the given ones. */
    method Reading(href: string, options: map<string, Value>) returns (result: Option<(seq<string>, map<string, Value>)>)
      ensures result == DecodeLocation(urlRoot, path, href, options)
    {
      var h := href;
      if h != "" && h[0] == '#' {
        h := h[1..];
      }
      var (first, query) := Cut(h, '?');
      var decoded := Decoding(first);
      if decoded == None {
        return None;
      }
      var all := Some(options);
      if query.Some? {
        all := ReadEntries(options, Split(query.value, '&'));
      }
      return if all == None then None else Some((decoded.value, all.value));
    }

    method ReadEntries(options: map<string, Value>, entries: seq<string>) returns (all: Option<map<string, Value>>)
      ensures all == AddEntries(options, entries)
    {
      hide AddEntry;
      all := Some(options);
      var i := 0;
      while i < |entries|
        invariant 0 <= i <= |entries| && all.Some? && AddEntries(options, entries[..i]) == all
      {
        assert entries[..i + 1][..i] == entries[..i];
        EntriesNoneStays(options, entries, i + 1);
        all := ReadEntry(all.value, entries[i]);
        if all == None {
          return;
        }
        i := i + 1;
      }
      assert entries[..|entries|] == entries;
    }

    method ReadEntry(options: map<string, Value>, entry: string) returns (all: Option<map<string, Value>>)
      ensures all == AddEntry(options, entry)
    {
      var parts := Split(entry, '=');
      var name, value := Decode(parts[0]), Decode(if |parts| > 1 then parts[1] else "undefined");
      if name == None || value == None {
        return None;
      }
      if name.value in options && options[name.value] != Text("") {
        all := Some(options[name.value := List([options[name.value], Text(value.value)])]);
      } else {
        all := Some(options[name.value := Text(value.value)]);
      }
    }
  }

  lemma {:induction false} EntriesNoneStays(options: map<string, Value>, entries: seq<string>, i: nat)
    requires i <= |entries|
    ensures AddEntries(options, entries[..i]) == None ==> AddEntries(options, entries) == None
  {
    if i < |entries| {
      var less := entries[..|entries| - 1];
      assert less[..i] == entries[..i];
      EntriesNoneStays(options, less, i);
    } else {
      assert entries[..i] == entries;
    }
  }

  lemma {:induction false} NoneStays(parts: seq<string>, i: nat)
    requires i <= |parts|
    ensures ResolveDots(parts[..i]) == None ==> ResolveDots(parts) == None
  {
    if i < |parts| {
      var less := parts[..|parts| - 1];
      assert less[..i] == parts[..i];
      NoneStays(less, i);
    } else {
      assert parts[..i] == parts;
    }
  }

  // ----- Round trip: the path

  predicate IsSpecial(part: string) { part == "" || part == "." || part == ".." }

  predicate Plain(path: seq<string>) {
    forall i | 0 <= i < |path| :: !IsSpecial(path[i])
  }

  function Specials(parts: seq<string>): nat {
    if parts == [] then 0
    else Specials(parts[..|parts| - 1]) + if IsSpecial(parts[|parts| - 1]) then 1 else 0
  }

  /** Plain parts stay; any other part costs at least itself. */
  lemma {:induction false} ResolveSize(parts: seq<string>)
    ensures ResolveDots(parts).Some? ==> |ResolveDots(parts).value| + Specials(parts) <= |parts|
    ensures Specials(parts) == 0 <==> Plain(parts)
    ensures Plain(parts) ==> ResolveDots(parts) == Some(parts)
  {
    if parts != [] {
      var less := parts[..|parts| - 1];
      ResolveSize(less);
      assert parts == less + [parts[|parts| - 1]];
      assert Plain(parts) <==> Plain(less) && !IsSpecial(parts[|parts| - 1]);
    }
  }

  /** A leading empty part changes nothing. */
  lemma {:induction false} ResolveFromRoot(parts: seq<string>)
    ensures ResolveDots([""] + parts) == ResolveDots(parts)
  {
    var all := [""] + parts;
    if parts == [] {
      assert all == [""] && all[..0] == [];
      assert ResolveDots([]) == Some([]);
    } else {
      assert all[..|all| - 1] == [""] + parts[..|parts| - 1];
      ResolveFromRoot(parts[..|parts| - 1]);
    }
  }

  lemma EscapesUndo()
    ensures Undoable("%40", '@') && Undoable("%3D", '=') && Undoable("%2B", '+') && Undoable("%23", '#')
  {
  }

  /** The un-escapings neither move the slashes nor change what the parts decode to. */
  lemma UndoDecodes(href: string)
    ensures DecodeAll(Split(Undo(href), '/')) == DecodeAll(Split(href, '/'))
    ensures Avoids(href, '?') ==> Avoids(Undo(href), '?')
    ensures href != [] && href[0] == '/' ==> Undo(href) != [] && Undo(href)[0] == '/'
  {
    EscapesUndo();
    hide ReplaceAll, Split, DecodeAll, Undoable;
    var a := UndoOne(href, "%40", '@');
    var b := UndoOne(a, "%3D", '=');
    var c := UndoOne(b, "%2B", '+');
    var d := UndoOne(c, "%23", '#');
  }

  lemma UndoOne(href: string, escape: string, c: char) returns (r: string)
    requires Undoable(escape, c) && Avoids(escape, '/') && c != '/' && c != '?'
    ensures r == ReplaceAll(href, escape, c)
    ensures DecodeAll(Split(r, '/')) == DecodeAll(Split(href, '/'))
    ensures Avoids(href, '?') ==> Avoids(r, '?')
    ensures href != [] && href[0] == '/' ==> r != [] && r[0] == '/'
  {
    r := ReplaceAll(href, escape, c);
    SplitReplace(href, escape, c, '/');
    ReplaceDecodesAll(Split(href, '/'), escape, c);
    if Avoids(href, '?') {
      ReplaceAvoids(href, escape, c, '?');
    }
    ReplaceHead(href, escape, c);
  }

  /** What is between the slashes of an encoded path. */
  lemma JoinDecodes(path: seq<Bytes>)
    ensures DecodeAll(Split(Join(EncodeAll(path), '/'), '/')) == Some(if path == [] then [""] else path)
  {
    if path == [] {
      SplitNone([], '/');
      var one: seq<Bytes> := [""];
      EncodeDecodeAll(one);
      assert EncodeAll(one) == one;
    } else {
      EncodeAllAvoids(path, '/');
      SplitJoin(EncodeAll(path), '/');
      EncodeDecodeAll(path);
    }
  }

  lemma PathHrefSplits(path: seq<Bytes>)
    ensures DecodeAll(Split(PathHref(path), '/')) == Some([""] + if path == [] then [""] else path)
    ensures Avoids(PathHref(path), '?') && PathHref(path) != [] && PathHref(path)[0] == '/'
  {
    var parts := EncodeAll(path);
    EncodeAllAvoids(path, '?');
    JoinAvoids(parts, '/', '?');
    var rest := Join(parts, '/');
    assert PathHref(path) == [] + ['/'] + rest;
    SplitFirst([], rest, '/');
    JoinDecodes(path);
    DecodeEmptyFirst(Split(rest, '/'));
  }

  /** A path survives being written and read exactly when none of its parts is special and it does not begin
      with the parts of the root. */
  predicate PathSafe(root: string, path: seq<Bytes>) {
    && Plain(path)
    && var pre := RootParts(root);
       pre.Some? && (pre.value == [] || !(pre.value <= path))
  }

  lemma PathRoundTrip(root: string, current: seq<string>, path: seq<Bytes>)
    ensures DecodePath(root, current, Undo(PathHref(path))) == Some(path) <==> PathSafe(root, path)
  {
    hide Undo, PathHref, DecodeAll, Split, RootParts, ResolveDots;
    PathHrefSplits(path);
    UndoDecodes(PathHref(path));
    var parts := [""] + if path == [] then [""] else path;
    ResolveFromRoot(if path == [] then [""] else path);
    EmptyResolves();
    ResolveSize(path);
  }

  lemma EmptyResolves()
    ensures ResolveDots([""]) == Some([]) && ResolveDots([]) == Some([])
  {
    assert [""][..0] == [];
  }

  // ----- Round trip: the root

  /** Reading a location never leaves a special part. */
  lemma {:induction false} ResolvedIsPlain(parts: seq<string>)
    ensures ResolveDots(parts).Some? ==> Plain(ResolveDots(parts).value)
  {
    if parts != [] {
      ResolvedIsPlain(parts[..|parts| - 1]);
    }
  }

  lemma {:induction false} DecodeAllParts(a: seq<string>, b: seq<string>)
    ensures var x, y := DecodeAll(a), DecodeAll(b);
      DecodeAll(a + b) == if x.Some? && y.Some? then Some(x.value + y.value) else None
  {
    if a == [] {
      assert a + b == b;
      var y := DecodeAll(b);
      assert y.Some? ==> [] + y.value == y.value;
    } else {
      assert (a + b)[1..] == a[1..] + b;
      DecodeAllParts(a[1..], b);
      var f, x, y := Decode(a[0]), DecodeAll(a[1..]), DecodeAll(b);
      assert f.Some? && x.Some? && y.Some? ==> [f.value] + (x.value + y.value) == [f.value] + x.value + y.value;
    }
  }

  lemma RootedDecodes(root: string, rest: string)
    requires root != ""
    ensures var x, y := RootParts(root), DecodeAll(Split(rest, '/'));
      DecodeAll(Split("/" + root + "/" + rest, '/'))
        == if x.Some? && y.Some? then Some([""] + x.value + y.value) else None
  {
    hide *;
    var tail := root + "/" + rest;
    assert "/" + root + "/" + rest == [] + ['/'] + tail && root + ['/'] + rest == tail;
    EmptyAvoids('/');
    SplitFirst([], tail, '/');
    SplitAt(root, rest, '/');
    DecodeAllParts(Split(root, '/'), Split(rest, '/'));
    DecodeEmptyFirst(Split(tail, '/'));
    RootIsSplit(root);
    var x, y := RootParts(root), DecodeAll(Split(rest, '/'));
    if x.Some? && y.Some? {
      assert [""] + (x.value + y.value) == [""] + x.value + y.value;
    }
  }

  lemma RootIsSplit(root: string)
    requires root != ""
    ensures RootParts(root) == DecodeAll(Split(root, '/'))
  {
  }

  lemma DecodeEmptyFirst(parts: seq<string>)
    ensures DecodeAll([""] + parts) == if DecodeAll(parts).Some? then Some([""] + DecodeAll(parts).value) else None
  {
    assert ([""] + parts)[1..] == parts;
    assert Decode("") == Some("");
  }

  /** When a path that is written under the root comes back: an address that already begins with the root's
      text is not written under it once more, and then the root is taken off; and a root with empty parts or
      dots is never taken off, so it has to resolve to nothing. */
  predicate RootedSafe(root: string, path: seq<Bytes>) {
    var pre := RootParts(root);
    && pre.Some? && Plain(path) && !("/" + root + "/" <= PathHref(path))
    && (Plain(pre.value) || ResolveDots(pre.value) == Some([]))
  }

  lemma {:induction false} DecodeAllSize(parts: seq<string>)
    ensures DecodeAll(parts).Some? ==> |DecodeAll(parts).value| == |parts|
  {
    if parts != [] {
      DecodeAllSize(parts[1..]);
    }
  }

  /** A text that is not empty does not decode to one empty part. */
  lemma NotOneEmpty(root: string)
    requires root != ""
    ensures DecodeAll(Split(root, '/')) != Some([""])
  {
    hide Split;
    JoinSplit(root, '/');
    var parts := Split(root, '/');
    DecodeAllSize(parts);
    if |parts| == 1 {
      assert parts[0] == root && parts == [root];
      OneDecodes(root);
      assert Decode(root) != Some("");
    }
  }

  lemma OneDecodes(part: string)
    ensures DecodeAll([part]) == if Decode(part).Some? then Some([Decode(part).value]) else None
  {
    hide Decode;
    var one, none: seq<string> := [part], [];
    assert one[1..] == none && DecodeAll(none) == Some(none);
    if Decode(part).Some? {
      assert [Decode(part).value] + none == [Decode(part).value];
    }
  }

  lemma LeadingParts(pre: seq<string>, last: seq<string>, all: seq<string>)
    requires pre != [] && pre + last == all
    ensures pre <= all && (|all| == 1 ==> pre == all)
  {
    if |all| == 1 {
      assert pre == all[..|pre|];
    }
  }

  lemma RootInHref(root: string, path: seq<Bytes>)
    requires root != "" && RootParts(root).Some?
    requires "/" + root + "/" <= PathHref(path)
    ensures var pre := RootParts(root).value; pre != [] && pre <= path
  {
    hide PathHref, DecodeAll, Split, ResolveDots;
    var href, lead := PathHref(path), "/" + root + "/";
    var tail := href[|lead|..];
    assert href == "/" + root + "/" + tail;
    PathHrefSplits(path);
    RootedDecodes(root, tail);
    DecodeAllSize(Split(root, '/'));
    NotOneEmpty(root);
    var pre, last := RootParts(root).value, DecodeAll(Split(tail, '/')).value;
    var rest := if path == [] then [""] else path;
    assert ([""] + pre + last)[1..] == pre + last && ([""] + rest)[1..] == rest;
    LeadingParts(pre, last, rest);
  }

  lemma DropIsPlain(pre: seq<string>, parts: seq<string>)
    requires Plain(parts)
    ensures Plain(DropRoot(pre, parts))
  {
  }

  lemma FullSplits(root: string, path: seq<Bytes>)
    requires root != "" && RootParts(root).Some?
    ensures DecodeAll(Split("/" + root + PathHref(path), '/'))
      == Some([""] + (RootParts(root).value + if path == [] then [""] else path))
  {
    hide DecodeAll, Split, RootParts, Join;
    var rest := Join(EncodeAll(path), '/');
    JoinDecodes(path);
    RootedDecodes(root, rest);
    assert "/" + root + PathHref(path) == "/" + root + "/" + rest;
    assert forall x: seq<string>, y :: [""] + x + y == [""] + (x + y);
  }

  /** Plain parts go on top of whatever the parts before them come to. */
  lemma {:induction false} ResolveOnto(a: seq<string>, b: seq<string>)
    requires Plain(b)
    ensures ResolveDots(a + b) == if ResolveDots(a).Some? then Some(ResolveDots(a).value + b) else None
  {
    if b == [] {
      assert a + b == a;
      assert ResolveDots(a).Some? ==> ResolveDots(a).value + b == ResolveDots(a).value;
    } else {
      var less, last := b[..|b| - 1], b[|b| - 1];
      assert Plain(less) by { assert forall i | 0 <= i < |less| :: less[i] == b[i]; }
      ResolveOnto(a, less);
      assert (a + b)[..|a + b| - 1] == a + less && b == less + [last];
      assert !IsSpecial(last);
      if ResolveDots(a).Some? {
        assert ResolveDots(a).value + less + [last] == ResolveDots(a).value + b;
      }
    }
  }

  lemma EmptyPartLast(parts: seq<string>)
    ensures ResolveDots(parts + [""]) == ResolveDots(parts)
  {
    assert (parts + [""])[..|parts|] == parts;
  }

  /** When parts behind the root come back. */
  lemma RootTakenOff(pre: seq<string>, path: seq<string>)
    ensures var result := ResolveDots(pre + if path == [] then [""] else path);
      (result.Some? && DropRoot(pre, result.value) == path)
      <==> Plain(path) && (Plain(pre) || ResolveDots(pre) == Some([]))
  {
    hide ResolveDots, IsSpecial;
    var parts := pre + if path == [] then [""] else path;
    var result := ResolveDots(parts);
    ResolvedIsPlain(parts);
    if !Plain(path) {
      if result.Some? {
        DropIsPlain(pre, result.value);
      }
    } else {
      ResolveOnto(pre, path);
      EmptyPartLast(pre);
      assert path == [] ==> pre + path == pre;
      ResolveSize(pre);
      if result.Some? && pre <= result.value {
        PlainPrefix(pre, result.value);
      }
    }
  }

  lemma PlainPrefix(pre: seq<string>, parts: seq<string>)
    requires Plain(parts) && pre <= parts
    ensures Plain(pre)
  {
    assert forall i | 0 <= i < |pre| :: pre[i] == parts[i];
  }

  /** The path comes back under the root exactly then. */
  lemma RootedRoundTrip(root: string, current: seq<string>, path: seq<Bytes>)
    requires root != ""
    ensures DecodePath(root, current, Undo(FullHref(root, path, true))) == Some(path) <==> RootedSafe(root, path)
  {
    hide Undo, PathHref, DecodeAll, Split, RootParts, ResolveDots, Plain;
    if RootParts(root).Some? {
      var full := FullHref(root, path, true);
      var pre := RootParts(root).value;
      UndoDecodes(full);
      PathHrefSplits(path);
      if "/" + root + "/" <= PathHref(path) {
        RootInHref(root, path);
        ResolveFromRoot(if path == [] then [""] else path);
        ResolvedIsPlain(path);
        ResolveSize(path);
        if ResolveDots(path).Some? {
          DropIsPlain(pre, ResolveDots(path).value);
        }
      } else {
        FullSplits(root, path);
        ResolveFromRoot(pre + if path == [] then [""] else path);
        RootTakenOff(pre, path);
      }
    }
  }

  // ----- Round trip: the options

  /** What an option is meant to read back as. */
  function Meant(s: Setting): Value {
    match s
    case One(v) => Text(v)
    case Many(vs) => List(Texts(vs))
  }

  function Texts(values: seq<string>): (items: seq<Value>)
    ensures |items| == |values| && forall i | 0 <= i < |items| :: items[i] == Text(values[i])
  {
    seq(|values|, i requires 0 <= i < |values| => Text(values[i]))
  }

  function MeantAll(options: seq<(Bytes, Setting)>): map<string, Value> {
    if options == [] then map[]
    else
      var (name, s) := options[|options| - 1];
      MeantAll(options[..|options| - 1])[name := Meant(s)]
  }

  predicate DistinctNames(options: seq<(Bytes, Setting)>) {
    forall i, j | 0 <= i < j < |options| :: options[i].0 != options[j].0
  }

  /** What the values of one name add up to. */
  function ReadBack(values: seq<string>): Option<Value> {
    if values == [] then None
    else
      var before, last := ReadBack(values[..|values| - 1]), Text(values[|values| - 1]);
      if before == None || before == Some(Text("")) then Some(last) else Some(List([before.value, last]))
  }

  /** The options once the values of a name have been added. */
  function Added(options: map<string, Value>, name: string, value: Option<Value>): map<string, Value> {
    if value.Some? then options[name := value.value] else options
  }

  function ReadAll(options: seq<(Bytes, Setting)>): map<string, Value> {
    if options == [] then map[]
    else
      var (name, s) := options[|options| - 1];
      Added(ReadAll(options[..|options| - 1]), name, ReadBack(Values(s)))
  }

  /** A single text, or a list of two values whose first is not empty. */
  predicate Readable(s: Setting) {
    s.One? || (|s.values| == 2 && s.values[0] != "")
  }

  lemma {:induction false} ReadBackShape(values: seq<string>)
    ensures ReadBack(values) == None <==> values == []
    ensures |values| == 1 ==> ReadBack(values) == Some(Text(values[0]))
    ensures |values| == 2 && values[0] != "" ==> ReadBack(values) == Some(List([Text(values[0]), Text(values[1])]))
    ensures |values| == 2 && values[0] == "" ==> ReadBack(values) == Some(Text(values[1]))
    ensures ReadBack(values).Some? && ReadBack(values).value.List? ==> |ReadBack(values).value.items| == 2
  {
    if values != [] {
      ReadBackShape(values[..|values| - 1]);
    }
  }

  lemma ReadableSettings(s: Setting)
    ensures ReadBack(Values(s)) == Some(Meant(s)) <==> Readable(s)
  {
    hide ReadBack;
    ReadBackShape(Values(s));
    if s.Many? && |s.values| == 2 {
      assert Texts(s.values) == [Text(s.values[0]), Text(s.values[1])];
    }
  }

  lemma {:induction false} AddedInTurn(options: map<string, Value>, a: seq<string>, b: seq<string>)
    requires AddEntries(options, a).Some?
    ensures AddEntries(options, a + b) == AddEntries(AddEntries(options, a).value, b)
  {
    if b == [] {
      assert a + b == a;
    } else {
      assert (a + b)[..|a + b| - 1] == a + b[..|b| - 1];
      AddedInTurn(options, a, b[..|b| - 1]);
    }
  }

  lemma EntryReads(options: map<string, Value>, name: Bytes, value: Bytes)
    ensures AddEntry(options, Entry(name, value)) == Some(Another(options, name, value))
  {
    hide Encode, Decode, Split;
    EncodeAvoids(name, '=');
    EncodeAvoids(value, '=');
    SplitFirst(Encode(name), Encode(value), '=');
    SplitNone(Encode(value), '=');
    EncodeDecode(name);
    EncodeDecode(value);
  }

  lemma OneMore(options: map<string, Value>, name: string, values: seq<string>)
    requires name !in options && values != []
    ensures var less := values[..|values| - 1];
      Another(Added(options, name, ReadBack(less)), name, values[|values| - 1])
        == Added(options, name, ReadBack(values))
  {
    var before := ReadBack(values[..|values| - 1]);
    var after := ReadBack(values).value;
    if before.Some? {
      assert options[name := before.value][name := after] == options[name := after];
    }
  }

  lemma {:induction false} NameReads(options: map<string, Value>, name: Bytes, values: seq<Bytes>)
    requires name !in options
    ensures AddEntries(options, EntriesFor(name, values)) == Some(Added(options, name, ReadBack(values)))
  {
    hide AddEntry, Entry, Another, Added;
    if values == [] {
      NothingAdded(options, name);
    } else {
      var less := values[..|values| - 1];
      NameReads(options, name, less);
      var entries := EntriesFor(name, values);
      assert entries[..|entries| - 1] == EntriesFor(name, less);
      EntryReads(Added(options, name, ReadBack(less)), name, values[|values| - 1]);
      OneMore(options, name, values);
    }
  }

  lemma NothingAdded(options: map<string, Value>, name: string)
    ensures Added(options, name, ReadBack([])) == options
  {
  }

  lemma {:induction false} OptionsRead(options: seq<(Bytes, Setting)>)
    requires DistinctNames(options)
    ensures AddEntries(map[], Entries(options)) == Some(ReadAll(options))
    ensures forall name | name in ReadAll(options) :: exists i | 0 <= i < |options| :: options[i].0 == name
  {
    hide EntriesFor, Meant;
    if options != [] {
      var less := options[..|options| - 1];
      var (name, s) := options[|options| - 1];
      OptionsRead(less);
      AddedInTurn(map[], Entries(less), EntriesFor(name, Values(s)));
      NameReads(ReadAll(less), name, Values(s));
      ReadBackShape(Values(s));
    }
  }

  predicate AllReadable(options: seq<(Bytes, Setting)>) {
    forall i | 0 <= i < |options| :: Readable(options[i].1)
  }

  function Found(options: map<string, Value>, name: string): Option<Value> {
    if name in options then Some(options[name]) else None
  }

  lemma {:induction false} NamesRead(options: seq<(Bytes, Setting)>, name: string)
    requires forall i | 0 <= i < |options| :: options[i].0 != name
    ensures name !in ReadAll(options) && name !in MeantAll(options)
  {
    if options != [] {
      NamesRead(options[..|options| - 1], name);
    }
  }

  lemma {:induction false} ReadAt(options: seq<(Bytes, Setting)>, i: nat)
    requires DistinctNames(options) && i < |options|
    ensures Found(ReadAll(options), options[i].0) == ReadBack(Values(options[i].1))
    ensures Found(MeantAll(options), options[i].0) == Some(Meant(options[i].1))
  {
    hide ReadBack, Values, Meant;
    var less := options[..|options| - 1];
    if i < |less| {
      ReadAt(less, i);
    } else {
      NamesRead(less, options[i].0);
    }
  }

  lemma OptionsRoundTrip(options: seq<(Bytes, Setting)>)
    requires DistinctNames(options)
    ensures AddEntries(map[], Entries(options)) == Some(MeantAll(options)) <==> AllReadable(options)
  {
    hide AddEntries, Entries, ReadAll, MeantAll, ReadBack, Values, Meant, Readable;
    OptionsRead(options);
    forall i | 0 <= i < |options|
      ensures Found(ReadAll(options), options[i].0) == Found(MeantAll(options), options[i].0)
        <==> Readable(options[i].1)
    {
      ReadAt(options, i);
      ReadableSettings(options[i].1);
    }
    if AllReadable(options) {
      forall name
        ensures Found(ReadAll(options), name) == Found(MeantAll(options), name)
      {
        if forall i | 0 <= i < |options| :: options[i].0 != name {
          NamesRead(options, name);
        }
      }
      SameWhenFound(ReadAll(options), MeantAll(options));
    }
  }

  lemma SameWhenFound(a: map<string, Value>, b: map<string, Value>)
    requires forall name :: Found(a, name) == Found(b, name)
    ensures a == b
  {
    forall name: string
      ensures name in a <==> name in b
      ensures name in a ==> a[name] == b[name]
    {
      assert Found(a, name) == Found(b, name);
    }
  }

  // ----- Round trip: the whole location

  lemma {:induction false} EntriesAvoid(options: seq<(Bytes, Setting)>, c: char)
    requires !Unreserved(c) && c != '%' && c != '='
    ensures forall e | e in Entries(options) :: Avoids(e, c)
  {
    if options != [] {
      var (name, s) := options[|options| - 1];
      EntriesAvoid(options[..|options| - 1], c);
      EntriesForAvoid(name, Values(s), c);
    }
  }

  lemma {:induction false} EntriesForAvoid(name: Bytes, values: seq<Bytes>, c: char)
    requires !Unreserved(c) && c != '%' && c != '='
    ensures forall e | e in EntriesFor(name, values) :: Avoids(e, c)
  {
    if values != [] {
      EntriesForAvoid(name, values[..|values| - 1], c);
      EncodeAvoids(name, c);
      EncodeAvoids(values[|values| - 1], c);
    }
  }

  /** Reading takes an address apart where writing put it together. */
  lemma LocationParts(root: string, current: seq<string>, path: seq<Bytes>, options: seq<(Bytes, Setting)>, withRoot: bool)
    requires withRoot ==> Avoids(root, '?')
    ensures var p := DecodePath(root, current, Undo(FullHref(root, path, withRoot)));
      var o := AddEntries(map[], Entries(options));
      DecodeLocation(root, current, EncodeLocation(root, path, options, withRoot), map[])
        == if p.Some? && o.Some? then Some((p.value, o.value)) else None
  {
    hide Undo, Entries, DecodePath, Cut, Split, Join, PathHref, Avoids;
    var first, query := Undo(FullHref(root, path, withRoot)), Entries(options);
    FullAvoids(root, path, withRoot);
    CutAt(first, '?', Join(query, '&'));
    EntriesAvoid(options, '&');
    if query != [] {
      SplitJoin(query, '&');
      assert EncodeLocation(root, path, options, withRoot) == first + ['?'] + Join(query, '&');
    } else {
      assert EncodeLocation(root, path, options, withRoot) == first;
    }
  }

  lemma FullAvoids(root: string, path: seq<Bytes>, withRoot: bool)
    requires withRoot ==> Avoids(root, '?')
    ensures var first := Undo(FullHref(root, path, withRoot));
      Avoids(first, '?') && first != [] && first[0] == '/'
  {
    hide Undo, PathHref;
    PathHrefSplits(path);
    UndoDecodes(FullHref(root, path, withRoot));
  }

  /** The location comes back, with every option as it was meant, exactly for these paths and options. */
  lemma LocationRoundTrip(root: string, current: seq<string>, path: seq<Bytes>, options: seq<(Bytes, Setting)>)
    requires DistinctNames(options)
    ensures var read := DecodeLocation(root, current, EncodeLocation(root, path, options, false), map[]);
      read == Some((path, MeantAll(options))) <==> PathSafe(root, path) && AllReadable(options)
  {
    hide *;
    LocationParts(root, current, path, options, false);
    PathRoundTrip(root, current, path);
    OptionsRoundTrip(options);
    NoRoot(root, path);
  }

  lemma NoRoot(root: string, path: seq<Bytes>)
    ensures FullHref(root, path, false) == PathHref(path)
  {
  }

  /** The same for a location that is written under its root. */
  lemma RootedLocationRoundTrip(root: string, current: seq<string>, path: seq<Bytes>, options: seq<(Bytes, Setting)>)
    requires DistinctNames(options)
    requires root != "" && Avoids(root, '?')
    ensures var read := DecodeLocation(root, current, EncodeLocation(root, path, options, true), map[]);
      read == Some((path, MeantAll(options))) <==> RootedSafe(root, path) && AllReadable(options)
  {
    hide *;
    LocationParts(root, current, path, options, true);
    RootedRoundTrip(root, current, path);
    OptionsRoundTrip(options);
  }
}
