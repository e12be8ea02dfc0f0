/**
 * The score-file text format of src/file_io.rs: a list of u32 values is
 * written as decimal numbers joined by single spaces, the file holds the
 * high-score list and the lines list each followed by a newline, and loading
 * splits at the first newline and keeps every space-separated token that
 * parses as a u32.
 */
module FileIo {
  import opened Wrappers

  /** The largest u32. */
  const U32Max: nat := 0xFFFF_FFFF

  predicate IsDigit(ch: char) {
    '0' <= ch <= '9'
  }

  predicate AllDigits(s: string) {
    forall i :: 0 <= i < |s| ==> IsDigit(s[i])
  }

  function DigitChar(d: nat): (ch: char)
    requires d < 10
    ensures IsDigit(ch)
  {
    (48 + d) as char
  }

  /** The value of a string of decimal digits, most significant first. */
  function DigitsValue(s: string): nat
    requires AllDigits(s)
  {
    if s == [] then 0
    else 10 * DigitsValue(s[..|s| - 1]) + ((s[|s| - 1] as int) - 48)
  }

  /** The decimal rendering of n without leading zeros (to_string). */
  function NatToString(n: nat): (s: string)
    ensures |s| > 0 && AllDigits(s)
    ensures s[0] == '0' ==> n == 0
    decreases n
  {
    if n < 10 then [DigitChar(n)] else NatToString(n / 10) + [DigitChar(n % 10)]
  }

  lemma {:induction false} NatToStringValue(n: nat)
    ensures DigitsValue(NatToString(n)) == n
    decreases n
  {
    if n >= 10 {
      var s := NatToString(n);
      assert s[..|s| - 1] == NatToString(n / 10);
      NatToStringValue(n / 10);
    }
  }

  /**
   * u32 parsing (str::parse): an optional leading '+', then one or more
   * decimal digits whose value fits in 32 bits; anything else is rejected.
   */
  function ParseU32(t: string): (r: Option<nat>)
    ensures r.Some? ==> r.value <= U32Max
  {
    var digits := if |t| > 0 && t[0] == '+' then t[1..] else t;
    if digits == [] || !AllDigits(digits) then None
    else if DigitsValue(digits) <= U32Max then Some(DigitsValue(digits))
    else None
  }

  /** Every u32 reads back from its rendering. */
  lemma NatToStringParses(n: nat)
    requires n <= U32Max
    ensures ParseU32(NatToString(n)) == Some(n)
  {
    NatToStringValue(n);
  }

  /**
   * Only an optional '+' followed by one or more digits parses: the empty
   * token, a lone '+', and any token with a character that is neither a digit
   * nor a leading '+' are rejected.
   */
  lemma {:induction false} ParseU32Rejects(t: string, k: nat)
    ensures t == "" || t == "+" ==> ParseU32(t) == None
    ensures k < |t| && !IsDigit(t[k]) && !(k == 0 && t[0] == '+') ==> ParseU32(t) == None
  {
    if k < |t| && !IsDigit(t[k]) && !(k == 0 && t[0] == '+') && |t| > 0 && t[0] == '+' {
      assert t[1..][k - 1] == t[k];
    }
  }

  /** A token holding a newline never parses. */
  lemma {:induction false} NewlineTokenRejected(t: string)
    requires '\n' in t
    ensures ParseU32(t) == None
  {
    var k :| 0 <= k < |t| && t[k] == '\n';
    ParseU32Rejects(t, k);
  }

  /** The parts joined with sep in between; no parts give the empty string. */
  function Join(parts: seq<string>, sep: char): (r: string)
    ensures |parts| > 0 ==> |parts[0]| <= |r| && r[..|parts[0]|] == parts[0]
    ensures |parts| > 1 ==> |parts[0]| < |r| && r[|parts[0]|] == sep
  {
    if parts == [] then ""
    else if |parts| == 1 then parts[0]
    else parts[0] + [sep] + Join(parts[1..], sep)
  }

  /** The position of the first sep in s. */
  function FirstIndex(s: string, sep: char): (i: nat)
    requires sep in s
    ensures i < |s| && s[i] == sep && sep !in s[..i]
  {
    if s[0] == sep then 0
    else
      assert sep in s[1..] by {
        var k :| 0 <= k < |s| && s[k] == sep;
        assert s[1..][k - 1] == sep;
      }
      var i := FirstIndex(s[1..], sep) + 1;
      assert s[..i] == [s[0]] + s[1..][..i - 1];
      i
  }

  /** str::split: the pieces between separators, one more than there are separators. */
  function Split(s: string, sep: char): (parts: seq<string>)
    ensures |parts| >= 1
    ensures Join(parts, sep) == s
    ensures forall k :: 0 <= k < |parts| ==> sep !in parts[k]
    decreases |s|
  {
    if sep in s then
      var i := FirstIndex(s, sep);
      var rest := Split(s[i + 1..], sep);
      assert s == s[..i] + [sep] + s[i + 1..];
      assert ([s[..i]] + rest)[1..] == rest;
      [s[..i]] + rest
    else [s]
  }

  /** Joining pieces that hold no separator and splitting again gives the pieces back. */
  lemma {:induction false} SplitJoin(parts: seq<string>, sep: char)
    requires |parts| >= 1
    requires forall k :: 0 <= k < |parts| ==> sep !in parts[k]
    ensures Split(Join(parts, sep), sep) == parts
    decreases |parts|
  {
    if |parts| > 1 {
      var s := Join(parts, sep);
      var a := parts[0];
      assert s == a + [sep] + Join(parts[1..], sep);
      assert s[|a|] == sep;
      var i := FirstIndex(s, sep);
      assert s[..i] == a && s[i + 1..] == Join(parts[1..], sep);
      SplitJoin(parts[1..], sep);
    }
  }

  /** The renderings of the values, in order. */
  function Rendered(s: seq<nat>): (r: seq<string>)
    ensures |r| == |s|
    ensures forall k :: 0 <= k < |r| ==> r[k] == NatToString(s[k])
  {
    if s == [] then [] else [NatToString(s[0])] + Rendered(s[1..])
  }

  /** slice_to_string: the decimal renderings joined by single spaces. */
  function SliceToString(s: seq<nat>): (r: string)
    ensures r == "" <==> s == []
  {
    var parts := Rendered(s);
    assert s != [] ==> |Join(parts, ' ')| >= |parts[0]| > 0;
    Join(parts, ' ')
  }

  /** filter_map: the values of the tokens that parse, in order. */
  function FilterMap(tokens: seq<string>, parse: string -> Option<nat>): (r: seq<nat>)
    ensures |r| <= |tokens|
  {
    if tokens == [] then []
    else
      var rest := FilterMap(tokens[1..], parse);
      var head := parse(tokens[0]);
      if head.Some? then [head.value] + rest else rest
  }

  /** When every token parses, every value is kept, in order. */
  lemma {:induction false} FilterMapKeepsAll(tokens: seq<string>, parse: string -> Option<nat>, values: seq<nat>)
    requires |values| == |tokens|
    requires forall k :: 0 <= k < |tokens| ==> parse(tokens[k]) == Some(values[k])
    ensures FilterMap(tokens, parse) == values
    decreases |tokens|
  {
    if tokens != [] {
      FilterMapKeepsAll(tokens[1..], parse, values[1..]);
      assert values == [values[0]] + values[1..];
    }
  }

  /** When no token parses, nothing is kept. */
  lemma {:induction false} FilterMapDropsAll(tokens: seq<string>, parse: string -> Option<nat>)
    requires forall k :: 0 <= k < |tokens| ==> parse(tokens[k]).None?
    ensures FilterMap(tokens, parse) == []
    decreases |tokens|
  {
    if tokens != [] {
      FilterMapDropsAll(tokens[1..], parse);
    }
  }

  /** Filtering two token lists in turn is filtering their concatenation. */
  lemma {:induction false} FilterMapAppend(a: seq<string>, b: seq<string>, parse: string -> Option<nat>)
    ensures FilterMap(a + b, parse) == FilterMap(a, parse) + FilterMap(b, parse)
    decreases |a|
  {
    if a == [] {
      assert a + b == b;
    } else {
      assert (a + b)[0] == a[0] && (a + b)[1..] == a[1..] + b;
      FilterMapAppend(a[1..], b, parse);
    }
  }

  /** When every parse stays within a bound, so does every value kept. */
  lemma {:induction false} FilterMapBounded(tokens: seq<string>, parse: string -> Option<nat>, bound: nat)
    requires forall t :: parse(t).Some? ==> parse(t).value <= bound
    ensures forall k :: 0 <= k < |FilterMap(tokens, parse)| ==> FilterMap(tokens, parse)[k] <= bound
    decreases |tokens|
  {
    if tokens != [] {
      FilterMapBounded(tokens[1..], parse, bound);
    }
  }

  /** line_to_slice: split on ' ' and keep the tokens that parse as u32. */
  function LineToSlice(line: string): (r: seq<nat>)
    ensures forall k :: 0 <= k < |r| ==> r[k] <= U32Max
  {
    FilterMapBounded(Split(line, ' '), ParseU32, U32Max);
    FilterMap(Split(line, ' '), ParseU32)
  }

  /** Every u32 list reads back from its rendering, including the empty list. */
  lemma {:induction false} LineToSliceRoundTrip(s: seq<nat>)
    requires forall k :: 0 <= k < |s| ==> s[k] <= U32Max
    ensures LineToSlice(SliceToString(s)) == s
  {
    var parts := Rendered(s);
    if s == [] {
      assert Split("", ' ') == [""];
      assert ParseU32("") == None;
    } else {
      forall k | 0 <= k < |parts| ensures ' ' !in parts[k] && ParseU32(parts[k]) == Some(s[k]) {
        NatToStringParses(s[k]);
      }
      SplitJoin(parts, ' ');
      FilterMapKeepsAll(parts, ParseU32, s);
    }
  }

  /** Appending text to the last piece appends it to the joined string. */
  lemma {:induction false} JoinExtendLast(parts: seq<string>, sep: char, tail: string)
    requires |parts| >= 1
    ensures Join(parts, sep) + tail == Join(parts[..|parts| - 1] + [parts[|parts| - 1] + tail], sep)
    decreases |parts|
  {
    if |parts| > 1 {
      var p' := parts[..|parts| - 1] + [parts[|parts| - 1] + tail];
      assert p'[0] == parts[0];
      assert p'[1..] == parts[1..][..|parts[1..]| - 1] + [parts[1..][|parts[1..]| - 1] + tail];
      JoinExtendLast(parts[1..], sep, tail);
    }
  }

  /**
   * A rendered list followed by a newline reads back without its last value:
   * the newline sticks to the last token, which then fails to parse.
   */
  lemma {:induction false} TrailingNewlineDropsLast(s: seq<nat>)
    requires forall k :: 0 <= k < |s| ==> s[k] <= U32Max
    ensures LineToSlice(SliceToString(s) + "\n") == if s == [] then [] else s[..|s| - 1]
  {
    if s == [] {
      assert SliceToString(s) + "\n" == "\n";
      assert Split("\n", ' ') == ["\n"];
      NewlineTokenRejected("\n");
    } else {
      var parts := Rendered(s);
      var n := |parts|;
      var last := parts[n - 1] + "\n";
      var parts' := parts[..n - 1] + [last];
      JoinExtendLast(parts, ' ', "\n");
      forall k | 0 <= k < n ensures ' ' !in parts'[k] {
        if k < n - 1 { assert parts'[k] == parts[k]; }
      }
      SplitJoin(parts', ' ');
      FilterMapAppend(parts[..n - 1], [last], ParseU32);
      NewlineTokenRejected(last);
      var front, kept := parts[..n - 1], s[..|s| - 1];
      forall k | 0 <= k < |front| ensures ParseU32(front[k]) == Some(kept[k]) {
        NatToStringParses(s[k]);
      }
      FilterMapKeepsAll(front, ParseU32, kept);
      assert FilterMap([last], ParseU32) == [];
    }
  }

  /** The file content save_highscores_and_lines writes: both lists, each followed by a newline. */
  function SaveContent(highscores: seq<nat>, lines: seq<nat>): (r: string)
    ensures var n := |SliceToString(highscores)|;
      n < |r| && r[n] == '\n' && r[..n] == SliceToString(highscores) && '\n' !in r[..n]
    ensures r[|r| - 1] == '\n'
  {
    NoNewlineInRendering(highscores);
    SliceToString(highscores) + "\n" + SliceToString(lines) + "\n"
  }

  /** str::splitn(2, sep): the text before the first sep and everything after it, or the whole text. */
  function SplitOnce(s: string, sep: char): (parts: seq<string>)
    ensures |parts| == if sep in s then 2 else 1
    ensures sep in s ==> parts[0] + [sep] + parts[1] == s && sep !in parts[0]
    ensures sep !in s ==> parts == [s]
  {
    if sep in s then
      var i := FirstIndex(s, sep);
      assert s == s[..i] + [sep] + s[i + 1..];
      [s[..i], s[i + 1..]]
    else [s]
  }

  /**
   * The parsing half of load_highscores_and_lines: with two parts, the first
   * is the high-score list and the second, newline and all, the lines list.
   */
  function LoadContent(content: string): (r: Option<(seq<nat>, seq<nat>)>)
    ensures r.Some? <==> '\n' in content
  {
    var parts := SplitOnce(content, '\n');
    if |parts| == 2 then Some((LineToSlice(parts[0]), LineToSlice(parts[1]))) else None
  }

  /** Rendered lists hold no newline. */
  lemma {:induction false} NoNewlineInRendering(s: seq<nat>)
    ensures '\n' !in SliceToString(s)
  {
    var parts := Rendered(s);
    if s != [] {
      assert forall k :: 0 <= k < |parts| ==> '\n' !in parts[k];
      JoinKeepsOut(parts, ' ', '\n');
    }
  }

  /** A character in none of the parts and different from sep is not in their join. */
  lemma {:induction false} JoinKeepsOut(parts: seq<string>, sep: char, ch: char)
    requires ch != sep
    requires forall k :: 0 <= k < |parts| ==> ch !in parts[k]
    ensures ch !in Join(parts, sep)
    decreases |parts|
  {
    if |parts| > 1 {
      JoinKeepsOut(parts[1..], sep, ch);
    }
  }

  /** Splitting saved content at its first newline gives the rendered high scores and the rest. */
  lemma {:induction false} SavedContentParts(highscores: seq<nat>, lines: seq<nat>)
    ensures SplitOnce(SaveContent(highscores, lines), '\n') ==
            [SliceToString(highscores), SliceToString(lines) + "\n"]
  {
    var h := SliceToString(highscores);
    var c := SaveContent(highscores, lines);
    NoNewlineInRendering(highscores);
    assert c == h + ['\n'] + (SliceToString(lines) + "\n");
    assert c[|h|] == '\n';
    var i := FirstIndex(c, '\n');
    assert c[..i] == h;
  }

  /**
   * Saving then loading returns the high scores whole but the lines list
   * without its last value.
   */
  lemma SaveThenLoad(highscores: seq<nat>, lines: seq<nat>)
    requires forall k :: 0 <= k < |highscores| ==> highscores[k] <= U32Max
    requires forall k :: 0 <= k < |lines| ==> lines[k] <= U32Max
    ensures LoadContent(SaveContent(highscores, lines)) ==
            Some((highscores, if lines == [] then [] else lines[..|lines| - 1]))
  {
    SavedContentParts(highscores, lines);
    LineToSliceRoundTrip(highscores);
    TrailingNewlineDropsLast(lines);
  }

  /** The text without one trailing newline, if it has one. */
  function TrimNewline(t: string): (r: string)
    ensures |t| > 0 && t[|t| - 1] == '\n' ==> t == r + "\n"
    ensures |t| == 0 || t[|t| - 1] != '\n' ==> r == t
  {
    if |t| > 0 && t[|t| - 1] == '\n' then t[..|t| - 1] else t
  }

  /** Loading as evidently intended: the trailing newline is removed before the lines list is parsed. */
  function LoadContentTrimmed(content: string): (r: Option<(seq<nat>, seq<nat>)>)
    ensures r.Some? <==> '\n' in content
  {
    var parts := SplitOnce(content, '\n');
    if |parts| == 2 then Some((LineToSlice(parts[0]), LineToSlice(TrimNewline(parts[1])))) else None
  }

  /** With the newline trimmed, both lists survive a save and load whole. */
  lemma SaveThenLoadTrimmed(highscores: seq<nat>, lines: seq<nat>)
    requires forall k :: 0 <= k < |highscores| ==> highscores[k] <= U32Max
    requires forall k :: 0 <= k < |lines| ==> lines[k] <= U32Max
    ensures LoadContentTrimmed(SaveContent(highscores, lines)) == Some((highscores, lines))
  {
    SavedContentParts(highscores, lines);
    assert TrimNewline(SliceToString(lines) + "\n") == SliceToString(lines);
    LineToSliceRoundTrip(highscores);
    LineToSliceRoundTrip(lines);
  }
}
