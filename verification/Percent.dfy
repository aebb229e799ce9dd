/** The string functions that locations are made of: percent-encoding (section 2.1 of RFC 3986) on byte
    strings, and replacing one escape by the character it stands for. */
module Percent {

  import opened Options
  import opened Strings

  /** A byte, written as a character. */
  type Byte = c: char | c as int < 256 witness 'a'

  type Bytes = seq<Byte>

  // ----- Percent-encoding

  function HexDigit(n: nat): Byte
    requires n < 16
  {
    if n < 10 then (48 + n) as char else (55 + n) as char
  }

  function HexValue(c: char): Option<nat> {
    if '0' <= c <= '9' then Some(c as int - 48)
    else if 'A' <= c <= 'F' then Some(c as int - 55)
    else if 'a' <= c <= 'f' then Some(c as int - 87)
    else None
  }

  predicate IsHex(c: char) { HexValue(c).Some? }

  /** The characters that encoding leaves alone. */
  predicate Unreserved(c: char) {
    || 'A' <= c <= 'Z' || 'a' <= c <= 'z' || '0' <= c <= '9'
    || c in {'-', '_', '.', '!', '~', '*', '\'', '(', ')'}
  }

  function EncodeByte(c: Byte): string {
    if Unreserved(c) then [c] else ['%', HexDigit(c as int / 16), HexDigit(c as int % 16)]
  }

  function Encode(s: Bytes): string {
    if s == [] then [] else EncodeByte(s[0]) + Encode(s[1..])
  }

  predicate StartsEscape(s: string) {
    |s| >= 3 && s[0] == '%' && IsHex(s[1]) && IsHex(s[2])
  }

  function Unescape(s: string): char
    requires StartsEscape(s)
  {
    (16 * HexValue(s[1]).value + HexValue(s[2]).value) as char
  }

  /** Nothing if there is a percent sign without two hexadecimal digits: there decoding throws. */
  function Decode(s: string): Option<string> {
    if s == [] then Some([])
    else if StartsEscape(s) then Prepend(Unescape(s), Decode(s[3..]))
    else if s[0] == '%' then None
    else Prepend(s[0], Decode(s[1..]))
  }

  function Prepend(c: char, s: Option<string>): Option<string> {
    if s.Some? then Some([c] + s.value) else None
  }

  lemma {:induction false} EncodeDecode(s: Bytes)
    ensures Decode(Encode(s)) == Some(s)
  {
    if s != [] {
      EncodeDecode(s[1..]);
      var e := EncodeByte(s[0]);
      assert Encode(s)[|e|..] == Encode(s[1..]);
      assert s == [s[0]] + s[1..];
    }
  }

  lemma {:induction false} EncodeAvoids(s: Bytes, c: char)
    requires !Unreserved(c) && c != '%'
    ensures Avoids(Encode(s), c)
  {
    if s != [] {
      EncodeAvoids(s[1..], c);
    }
  }

  // ----- Replacing an escape by its character

  function ReplaceAll(s: string, escape: string, c: char): string
    requires |escape| == 3
  {
    if s == [] then []
    else if escape <= s then [c] + ReplaceAll(s[3..], escape, c)
    else [s[0]] + ReplaceAll(s[1..], escape, c)
  }

  /** An escape for a byte that is no hexadecimal digit and not the percent sign. */
  predicate Undoable(escape: string, c: char) {
    |escape| == 3 && StartsEscape(escape) && Unescape(escape) == c && !IsHex(c) && c != '%'
  }

  lemma {:induction false} ReplaceHead(s: string, escape: string, c: char)
    requires Undoable(escape, c)
    ensures s == [] ==> ReplaceAll(s, escape, c) == []
    ensures s != [] && s[0] != '%' ==> ReplaceAll(s, escape, c) == [s[0]] + ReplaceAll(s[1..], escape, c)
    ensures s != [] && s[0] == '%' ==> ReplaceAll(s, escape, c) != [] && !IsHex(ReplaceAll(s, escape, c)[0])
  {
  }

  /** Replacing an escape by its character neither makes nor breaks another escape: the text decodes to the
      same bytes, or fails to decode, as before. */
  lemma {:induction false} ReplaceDecodes(s: string, escape: string, c: char)
    requires Undoable(escape, c)
    ensures Decode(ReplaceAll(s, escape, c)) == Decode(s)
    decreases |s|
  {
    var r := ReplaceAll(s, escape, c);
    if s == [] {
    } else if escape <= s {
      ReplaceDecodes(s[3..], escape, c);
      assert s[..3] == escape && r[1..] == ReplaceAll(s[3..], escape, c);
      assert StartsEscape(s) && Unescape(s) == c;
    } else if s[0] != '%' {
      ReplaceDecodes(s[1..], escape, c);
      assert r[1..] == ReplaceAll(s[1..], escape, c);
    } else {
      ReplaceAfterPercent(s, escape, c);
      if StartsEscape(s) {
        ReplaceDecodes(s[3..], escape, c);
      }
    }
  }

  /** A percent sign that stays keeps its two digits, or its lack of them. */
  lemma ReplaceAfterPercent(s: string, escape: string, c: char)
    requires Undoable(escape, c) && s != [] && s[0] == '%' && !(escape <= s)
    ensures var r := ReplaceAll(s, escape, c);
      && r != [] && r[0] == '%'
      && (StartsEscape(s) <==> StartsEscape(r))
      && (StartsEscape(s) ==> r[1..3] == s[1..3] && r[3..] == ReplaceAll(s[3..], escape, c))
  {
    var r := ReplaceAll(s, escape, c);
    ReplaceHead(s[1..], escape, c);
    assert r == ['%'] + ReplaceAll(s[1..], escape, c);
    if |s| >= 2 && s[1] != '%' {
      ReplaceHead(s[2..], escape, c);
      assert s[1..][1..] == s[2..];
      assert r == ['%', s[1]] + ReplaceAll(s[2..], escape, c);
      if |s| >= 3 && s[2] != '%' {
        assert s[2..][1..] == s[3..];
        assert r == ['%', s[1], s[2]] + ReplaceAll(s[3..], escape, c);
      }
    }
  }

  function MapReplace(parts: seq<string>, escape: string, c: char): (r: seq<string>)
    requires |escape| == 3
    ensures |r| == |parts| && forall i | 0 <= i < |r| :: r[i] == ReplaceAll(parts[i], escape, c)
  {
    seq(|parts|, i requires 0 <= i < |parts| => ReplaceAll(parts[i], escape, c))
  }

  /** Replacing does not move the places where a text is split. */
  lemma {:induction false} SplitReplace(s: string, escape: string, c: char, sep: char)
    requires |escape| == 3 && Avoids(escape, sep) && c != sep
    ensures Split(ReplaceAll(s, escape, c), sep) == MapReplace(Split(s, sep), escape, c)
    decreases |s|
  {
    hide Split, MapReplace;
    if s == [] {
      SplitNone([], sep);
      assert MapReplace([[]], escape, c) == [[]];
    } else if escape <= s {
      var rest := Split(s[3..], sep);
      SplitReplace(s[3..], escape, c, sep);
      assert s == escape + s[3..];
      SplitGlue(escape, s[3..], sep);
      SplitGlue([c], ReplaceAll(s[3..], escape, c), sep);
      assert (escape + rest[0])[3..] == rest[0];
      ReplaceGlue(escape, [c], rest, escape, c);
    } else {
      var rest := Split(s[1..], sep);
      SplitReplace(s[1..], escape, c, sep);
      assert s == [s[0]] + s[1..];
      if s[0] == sep {
        SplitFirst([], s[1..], sep);
        SplitFirst([], ReplaceAll(s[1..], escape, c), sep);
        assert s == [] + [sep] + s[1..];
        assert ReplaceAll(s, escape, c) == [] + [sep] + ReplaceAll(s[1..], escape, c);
        assert MapReplace([[]] + rest, escape, c) == [[]] + MapReplace(rest, escape, c);
      } else {
        SplitGlue([s[0]], s[1..], sep);
        SplitGlue([s[0]], ReplaceAll(s[1..], escape, c), sep);
        NoMatchInFirst(s, escape, c, sep);
        ReplaceGlue([s[0]], [s[0]], rest, escape, c);
      }
    }
  }

  lemma ReplaceGlue(a: string, b: string, parts: seq<string>, escape: string, c: char)
    requires |escape| == 3 && parts != []
    requires ReplaceAll(a + parts[0], escape, c) == b + ReplaceAll(parts[0], escape, c)
    ensures MapReplace(Glue(a, parts), escape, c) == Glue(b, MapReplace(parts, escape, c))
  {
  }

  lemma NoMatchInFirst(s: string, escape: string, c: char, sep: char)
    requires s != [] && s[0] != sep && |escape| == 3 && !(escape <= s)
    ensures var first := Split(s[1..], sep)[0];
      ReplaceAll([s[0]] + first, escape, c) == [s[0]] + ReplaceAll(first, escape, c)
  {
    var first := Split(s[1..], sep)[0];
    FirstIsPrefix(s[1..], sep);
    assert s == [s[0]] + s[1..] && [s[0]] + first <= s;
    assert ([s[0]] + first)[1..] == first;
  }

  lemma {:induction false} ReplaceAvoids(s: string, escape: string, c: char, x: char)
    requires |escape| == 3 && Avoids(s, x) && c != x
    ensures Avoids(ReplaceAll(s, escape, c), x)
    decreases |s|
  {
    if s == [] {
    } else if escape <= s {
      assert forall i | 0 <= i < |s[3..]| :: s[3..][i] == s[i + 3];
      ReplaceAvoids(s[3..], escape, c, x);
    } else {
      assert forall i | 0 <= i < |s[1..]| :: s[1..][i] == s[i + 1];
      ReplaceAvoids(s[1..], escape, c, x);
    }
  }

  /** Each part decoded, if all of them can be. */
  function DecodeAll(parts: seq<string>): Option<seq<string>> {
    if parts == [] then Some([])
    else
      var first, rest := Decode(parts[0]), DecodeAll(parts[1..]);
      if first.Some? && rest.Some? then Some([first.value] + rest.value) else None
  }

  lemma {:induction false} ReplaceDecodesAll(parts: seq<string>, escape: string, c: char)
    requires Undoable(escape, c)
    ensures DecodeAll(MapReplace(parts, escape, c)) == DecodeAll(parts)
  {
    if parts != [] {
      ReplaceDecodes(parts[0], escape, c);
      assert MapReplace(parts, escape, c)[1..] == MapReplace(parts[1..], escape, c);
      ReplaceDecodesAll(parts[1..], escape, c);
    }
  }

  function EncodeAll(parts: seq<Bytes>): (r: seq<string>)
    ensures |r| == |parts|
  {
    if parts == [] then [] else [Encode(parts[0])] + EncodeAll(parts[1..])
  }

  lemma {:induction false} EncodeDecodeAll(parts: seq<Bytes>)
    ensures DecodeAll(EncodeAll(parts)) == Some(parts)
  {
    if parts != [] {
      EncodeDecode(parts[0]);
      EncodeDecodeAll(parts[1..]);
      assert EncodeAll(parts)[1..] == EncodeAll(parts[1..]);
      assert [parts[0]] + parts[1..] == parts;
    }
  }

  lemma {:induction false} EncodeAllAvoids(parts: seq<Bytes>, c: char)
    requires !Unreserved(c) && c != '%'
    ensures forall p | p in EncodeAll(parts) :: Avoids(p, c)
  {
    if parts != [] {
      EncodeAvoids(parts[0], c);
      EncodeAllAvoids(parts[1..], c);
    }
  }
}
