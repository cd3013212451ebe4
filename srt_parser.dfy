/** The SubRip (SRT) reader and writer: `parseSRT` turns file text into subtitle
    items, skipping malformed blocks without error; `generateSRT` prints items back. */
module SrtParser {
  import opened Types
  import opened JsText

  // ---------------------------------------------------------------------------
  // Line-ending normalisation: `.replace(/\r\n/g, '\n').replace(/\r/g, '\n')`

  /** First pass: every `\r\n` pair, scanning left to right, becomes `\n`. */
  function ReplaceCrLf(s: string): string
  {
    if |s| >= 2 && s[0] == '\r' && s[1] == '\n' then "\n" + ReplaceCrLf(s[2..])
    else if |s| == 0 then ""
    else [s[0]] + ReplaceCrLf(s[1..])
  }

  /** Text without a carriage return passes the first pass unchanged. */
  lemma {:induction false} ReplaceCrLfNoCr(s: string)
    requires '\r' !in s
    ensures ReplaceCrLf(s) == s
  {
    if |s| > 0 {
      assert s[0] != '\r';
      assert '\r' !in s[1..] by {
        assert forall k :: 0 <= k < |s[1..]| ==> s[1..][k] == s[k + 1];
      }
      ReplaceCrLfNoCr(s[1..]);
      assert s == [s[0]] + s[1..];
    }
  }

  /** Second pass: every remaining `\r` becomes `\n`. */
  function ReplaceCr(s: string): (r: string)
    ensures |r| == |s|
    ensures '\r' !in r
    ensures forall k :: 0 <= k < |s| ==> r[k] == (if s[k] == '\r' then '\n' else s[k])
  {
    if |s| == 0 then "" else [if s[0] == '\r' then '\n' else s[0]] + ReplaceCr(s[1..])
  }

  /** The text after line-ending normalisation: no carriage return survives, and
      text that had none is left as it was. */
  function Normalize(s: string): (r: string)
    ensures '\r' !in r
    ensures '\r' !in s ==> r == s
  {
    var r := ReplaceCr(ReplaceCrLf(s));
    assert '\r' !in s ==> ReplaceCrLf(s) == s && r == s by {
      if '\r' !in s {
        ReplaceCrLfNoCr(s);
        assert forall k :: 0 <= k < |s| ==> r[k] == s[k];
      }
    }
    r
  }

  lemma ReplaceCrLfPair(s: string)
    requires |s| >= 2 && s[0] == '\r' && s[1] == '\n'
    ensures ReplaceCrLf(s) == "\n" + ReplaceCrLf(s[2..])
  {
  }

  lemma ReplaceCrLfOne(s: string)
    requires |s| >= 1 && !(|s| >= 2 && s[0] == '\r' && s[1] == '\n')
    ensures ReplaceCrLf(s) == [s[0]] + ReplaceCrLf(s[1..])
  {
  }

  /** The first pass rewrites two texts separately when no `\r\n` pair straddles the
      point where they meet (a match inside the first text never reaches its last
      character, since matches do not overlap). */
  lemma {:induction false} ReplaceCrLfAppend(x: string, y: string)
    requires !(x != [] && y != [] && x[|x| - 1] == '\r' && y[0] == '\n')
    ensures ReplaceCrLf(x + y) == ReplaceCrLf(x) + ReplaceCrLf(y)
    decreases |x|
  {
    var s := x + y;
    if |x| == 0 {
      assert s == y;
    } else if |x| >= 2 && x[0] == '\r' && x[1] == '\n' {
      assert s[0] == x[0] && s[1] == x[1];
      assert s[2..] == x[2..] + y;
      ReplaceCrLfPair(s);
      ReplaceCrLfPair(x);
      ReplaceCrLfAppend(x[2..], y);
    } else {
      assert s[0] == x[0];
      assert !(|s| >= 2 && s[0] == '\r' && s[1] == '\n') by {
        if |s| >= 2 {
          if |x| >= 2 {
            assert s[1] == x[1];
          } else {
            assert s[1] == y[0];
          }
        }
      }
      assert s[1..] == x[1..] + y;
      ReplaceCrLfOne(s);
      ReplaceCrLfOne(x);
      assert x[1..] != [] ==> x[1..][|x[1..]| - 1] == x[|x| - 1];
      ReplaceCrLfAppend(x[1..], y);
    }
  }

  /** A `\r\n` pair becomes one `\n`, whatever surrounds it. */
  lemma CrLfStep(a: string, b: string)
    ensures ReplaceCrLf(a + "\r\n" + b) == ReplaceCrLf(a) + "\n" + ReplaceCrLf(b)
  {
    var t := "\r\n" + b;
    assert a + "\r\n" + b == a + t;
    ReplaceCrLfAppend(a, t);
    assert t[2..] == b;
  }

  /** A `\r` that no `\n` follows is left for the second pass. */
  lemma LoneCrStep(a: string, b: string)
    requires b == [] || b[0] != '\n'
    ensures ReplaceCrLf(a + "\r" + b) == ReplaceCrLf(a) + "\r" + ReplaceCrLf(b)
  {
    var t := "\r" + b;
    assert a + "\r" + b == a + t;
    ReplaceCrLfAppend(a, t);
    assert t[1..] == b;
    assert !(|t| >= 2 && t[1] == '\n') by {
      if |t| >= 2 {
        assert t[1] == b[0];
      }
    }
    assert ReplaceCrLf(t) == [t[0]] + ReplaceCrLf(t[1..]);
  }

  lemma ReplaceCrAppend(x: string, y: string)
    ensures ReplaceCr(x + y) == ReplaceCr(x) + ReplaceCr(y)
  {
    var l := ReplaceCr(x + y);
    var r := ReplaceCr(x) + ReplaceCr(y);
    forall k | 0 <= k < |l| ensures l[k] == r[k] {
      if k < |x| {
        assert (x + y)[k] == x[k];
      } else {
        assert (x + y)[k] == y[k - |x|];
      }
    }
  }

  /** Normalisation turns a `\r\n` pair into one `\n` and normalises each side. */
  lemma NormalizeCrLf(a: string, b: string)
    ensures Normalize(a + "\r\n" + b) == Normalize(a) + "\n" + Normalize(b)
  {
    CrLfStep(a, b);
    ReplaceCrAppend(ReplaceCrLf(a) + "\n", ReplaceCrLf(b));
    ReplaceCrAppend(ReplaceCrLf(a), "\n");
  }

  /** Normalisation turns a lone `\r` into one `\n` and normalises each side. */
  lemma NormalizeLoneCr(a: string, b: string)
    requires b == [] || b[0] != '\n'
    ensures Normalize(a + "\r" + b) == Normalize(a) + "\n" + Normalize(b)
  {
    LoneCrStep(a, b);
    ReplaceCrAppend(ReplaceCrLf(a) + "\r", ReplaceCrLf(b));
    ReplaceCrAppend(ReplaceCrLf(a), "\r");
  }

  /** A Windows file, lines joined by `\r\n`, normalises to the same lines joined by `\n`. */
  lemma {:induction false} NormalizeCrLfLines(lines: seq<string>)
    requires forall k :: 0 <= k < |lines| ==> '\r' !in lines[k]
    ensures Normalize(Join(lines, "\r\n")) == Join(lines, "\n")
  {
    if |lines| == 1 {
      assert Join(lines, "\r\n") == lines[0];
    } else if |lines| > 1 {
      var rest := lines[1..];
      NormalizeCrLfLines(rest);
      JoinCons(lines[0], rest, "\r\n");
      JoinCons(lines[0], rest, "\n");
      assert [lines[0]] + rest == lines;
      NormalizeCrLf(lines[0], Join(rest, "\r\n"));
    }
  }

  // ---------------------------------------------------------------------------
  // Block splitting: `.split(/\n\n+/)`

  /** No two consecutive line feeds: the text holds no blank line. */
  predicate NoBlankLine(s: string)
  {
    forall k :: 0 <= k < |s| - 1 ==> !(s[k] == '\n' && s[k + 1] == '\n')
  }

  /** The text after the run of line feeds it starts with. */
  function DropNewlines(s: string): (r: string)
    ensures |r| <= |s|
    ensures r == [] || r[0] != '\n'
    ensures '\r' !in s ==> '\r' !in r
  {
    if |s| > 0 && s[0] == '\n' then DropNewlines(s[1..]) else s
  }

  /** `s.split(/\n\n+/)`: the pieces between maximal runs of two or more line feeds.
      The first piece is a prefix of the input; a leading or trailing run yields an
      empty piece. */
  function SplitBlocks(s: string): (r: seq<string>)
    decreases |s|
    ensures |r| >= 1
    ensures |r[0]| <= |s| && r[0] == s[..|r[0]|]
    ensures forall k :: 0 <= k < |r| ==> NoBlankLine(r[k])
    ensures '\r' !in s ==> forall k :: 0 <= k < |r| ==> '\r' !in r[k]
  {
    if |s| >= 2 && s[0] == '\n' && s[1] == '\n' then
      [""] + SplitBlocks(DropNewlines(s))
    else if |s| == 0 then
      [""]
    else
      var rest := SplitBlocks(s[1..]);
      var first := [s[0]] + rest[0];
      assert NoBlankLine(first) by {
        assert s[0] == '\n' && |rest[0]| > 0 ==> rest[0][0] == s[1];
        forall k | 0 <= k < |first| - 1 ensures !(first[k] == '\n' && first[k + 1] == '\n') {
          if k > 0 {
            assert first[k] == rest[0][k - 1] && first[k + 1] == rest[0][k];
          }
        }
      }
      assert first == s[..|first|];
      [first] + rest[1..]
  }

  // ---------------------------------------------------------------------------
  // The timecode line: `/(\d{2}:\d{2}:\d{2},\d{3})\s-->\s(\d{2}:\d{2}:\d{2},\d{3})/`

  /** `dd:dd:dd,ddd` with ASCII digits. */
  predicate IsTimecode(t: string)
  {
    && |t| == 12
    && IsDigit(t[0]) && IsDigit(t[1]) && t[2] == ':'
    && IsDigit(t[3]) && IsDigit(t[4]) && t[5] == ':'
    && IsDigit(t[6]) && IsDigit(t[7]) && t[8] == ','
    && IsDigit(t[9]) && IsDigit(t[10]) && IsDigit(t[11])
  }

  /** The pattern matches the 29 characters of `line` that start at `i`. */
  predicate MatchAt(line: string, i: nat)
  {
    && i + 29 <= |line|
    && IsTimecode(line[i..i + 12])
    && IsWhitespace(line[i + 12])
    && line[i + 13..i + 16] == "-->"
    && IsWhitespace(line[i + 16])
    && IsTimecode(line[i + 17..i + 29])
  }

  /** The leftmost match at or after `from` (the pattern is not anchored). */
  function FindTimecode(line: string, from: nat): (r: Option<nat>)
    decreases |line| - from
    ensures r.Some? ==> from <= r.value && MatchAt(line, r.value)
    ensures r.Some? ==> forall j :: from <= j < r.value ==> !MatchAt(line, j)
    ensures r.None? ==> forall j :: from <= j ==> !MatchAt(line, j)
  {
    if from + 29 > |line| then None
    else if MatchAt(line, from) then Some(from)
    else FindTimecode(line, from + 1)
  }

  // ---------------------------------------------------------------------------
  // One block

  /** A fresh item exactly as `parseSRT` creates it. */
  function NewItem(id: int, startTime: string, endTime: string, text: string): SubtitleItem
  {
    SubtitleItem(id, startTime, endTime, text, None, false, None, None, Pending, None)
  }

  /** A subtitle text that survives printing and re-reading unchanged: non-empty,
      no surrounding whitespace, no carriage return and no blank line. */
  predicate CleanText(t: string)
  {
    && t != []
    && !IsWhitespace(t[0]) && !IsWhitespace(t[|t| - 1])
    && '\r' !in t
    && NoBlankLine(t)
  }

  /** An item as `parseSRT` creates it: pending, not applied, and with no suggestion,
      translation, model tag or error message. */
  predicate Pristine(it: SubtitleItem)
  {
    it == NewItem(it.id, it.startTime, it.endTime, it.originalText)
  }

  /** The two groups of the leftmost timecode match in `line`, if there is one. */
  function TimecodePair(line: string): (r: Option<(string, string)>)
    ensures r.Some? <==> exists i: nat :: MatchAt(line, i)
    ensures r.Some? ==> IsTimecode(r.value.0) && IsTimecode(r.value.1)
    ensures r.Some? ==> exists i: nat ::
              && MatchAt(line, i) && (forall j :: 0 <= j < i ==> !MatchAt(line, j))
              && r.value == (line[i..i + 12], line[i + 17..i + 29])
  {
    match FindTimecode(line, 0)
    case None => None
    case Some(i) => Some((line[i..i + 12], line[i + 17..i + 29]))
  }

  /** The item read from one block, or None when the block is skipped. */
  function ParseBlock(block: string): (r: Option<SubtitleItem>)
    ensures r.Some? ==> Pristine(r.value) && IsTimecode(r.value.startTime) && IsTimecode(r.value.endTime)
    ensures r.Some? ==> r.value.originalText != ""
  {
    var lines := SplitOn(block, '\n');
    if |lines| >= 3 then
      var id := ParseInt(Trim(lines[0]));
      var times := TimecodePair(lines[1]);
      if id.Some? && times.Some? then
        var text := Trim(Join(lines[2..], "\n"));
        if text != "" then Some(NewItem(id.value, times.value.0, times.value.1, text)) else None
      else None
    else None
  }

  /** A block yields an item exactly when it has at least three lines, its trimmed
      first line starts with an integer, its second line contains a timecode pair and
      its remaining lines, joined and trimmed, are not empty; the item carries that
      integer, the two matched timecodes and that text. */
  lemma ParseBlockAccepts(block: string)
    ensures var lines := SplitOn(block, '\n');
            ParseBlock(block).Some? <==> (&& |lines| >= 3
                                          && ParseInt(Trim(lines[0])).Some?
                                          && (exists i: nat :: MatchAt(lines[1], i))
                                          && Trim(Join(lines[2..], "\n")) != "")
    ensures ParseBlock(block).Some? ==>
              var it := ParseBlock(block).value;
              var lines := SplitOn(block, '\n');
              && Some(it.id) == ParseInt(Trim(lines[0]))
              && TimecodePair(lines[1]) == Some((it.startTime, it.endTime))
              && it.originalText == Trim(Join(lines[2..], "\n"))
  {
  }

  /** The items of the accepted blocks, in block order (the `forEach`/`push` loop). */
  function ParsedBlocks(blocks: seq<string>): (r: seq<SubtitleItem>)
    ensures |r| <= |blocks|
  {
    if |blocks| == 0 then []
    else
      var init := ParsedBlocks(blocks[..|blocks| - 1]);
      match ParseBlock(blocks[|blocks| - 1])
      case Some(it) => init + [it]
      case None => init
  }

  /** What `parseSRT(content)` returns. */
  function SrtItems(content: string): seq<SubtitleItem>
  {
    ParsedBlocks(SplitBlocks(Normalize(content)))
  }

  /** `parseSRT`: normalise line endings, split into blocks and push the item of every
      block that is accepted. */
  method ParseSRT(content: string) returns (items: seq<SubtitleItem>)
    ensures items == SrtItems(content)
  {
    var normalized := Normalize(content);
    var blocks := SplitBlocks(normalized);
    items := [];
    for i := 0 to |blocks|
      invariant items == ParsedBlocks(blocks[..i])
    {
      var parsed := ParseBlock(blocks[i]);
      ParsedBlocksStep(blocks, i);
      if parsed.Some? {
        items := items + [parsed.value];
      }
    }
    assert blocks[..|blocks|] == blocks;
  }

  lemma ParsedBlocksStep(blocks: seq<string>, i: nat)
    requires i < |blocks|
    ensures ParsedBlocks(blocks[..i + 1]) ==
            ParsedBlocks(blocks[..i]) + (match ParseBlock(blocks[i]) case Some(it) => [it] case None => [])
  {
    var b := blocks[..i + 1];
    assert b[..|b| - 1] == blocks[..i];
    assert b[|b| - 1] == blocks[i];
  }

  // ---------------------------------------------------------------------------
  // generateSRT

  /** `item.translatedText || item.originalText`. */
  function DisplayText(it: SubtitleItem): string
  {
    if Truthy(it.translatedText) then it.translatedText.value else it.originalText
  }

  /** The printed timecode line. */
  function TimeLine(startTime: string, endTime: string): string
  {
    startTime + " --> " + endTime
  }

  /** One printed block: id, timecode line, text. */
  function Render(it: SubtitleItem): string
  {
    IntToString(it.id) + "\n" + TimeLine(it.startTime, it.endTime) + "\n" + DisplayText(it)
  }

  function Renders(items: seq<SubtitleItem>): (r: seq<string>)
    ensures |r| == |items| && forall k :: 0 <= k < |items| ==> r[k] == Render(items[k])
  {
    seq(|items|, k requires 0 <= k < |items| => Render(items[k]))
  }

  /** `generateSRT`: the printed blocks joined by one blank line, no trailing separator. */
  function GenerateSRT(items: seq<SubtitleItem>): string
  {
    Join(Renders(items), "\n\n")
  }

  // ---------------------------------------------------------------------------
  // Properties of the parser

  /** Parsing distributes over the blocks: order is kept and nothing is merged or
      deduplicated, so duplicate ids survive. */
  lemma {:induction false} ParsedBlocksAppend(a: seq<string>, b: seq<string>)
    ensures ParsedBlocks(a + b) == ParsedBlocks(a) + ParsedBlocks(b)
    decreases |b|
  {
    if |b| == 0 {
      assert a + b == a;
    } else {
      var b' := b[..|b| - 1];
      assert (a + b)[..|a + b| - 1] == a + b';
      assert (a + b)[|a + b| - 1] == b[|b| - 1];
      ParsedBlocksAppend(a, b');
    }
  }

  lemma NoBlankLineSlice(s: string, i: nat, j: nat)
    requires i <= j <= |s|
    requires NoBlankLine(s)
    ensures NoBlankLine(s[i..j])
  {
    var t := s[i..j];
    forall k | 0 <= k < |t| - 1 ensures !(t[k] == '\n' && t[k + 1] == '\n') {
      assert t[k] == s[i + k] && t[k + 1] == s[i + k + 1];
    }
  }

  lemma {:induction false} JoinUnfold(parts: seq<string>, sep: string)
    requires |parts| >= 1
    ensures Join(parts, sep) == parts[0] + (if |parts| == 1 then "" else sep + Join(parts[1..], sep))
  {
  }

  /** The text lines of a block, joined again, are a suffix of the block. */
  lemma TextIsSuffix(block: string) returns (i: nat)
    requires |SplitOn(block, '\n')| >= 3
    ensures var lines := SplitOn(block, '\n');
            i <= |block| && Join(lines[2..], "\n") == block[i..]
  {
    var lines := SplitOn(block, '\n');
    JoinSplit(block, '\n');
    JoinUnfold(lines, "\n");
    JoinUnfold(lines[1..], "\n");
    assert lines[1..][1..] == lines[2..];
    i := |lines[0]| + 1 + |lines[1]| + 1;
    assert block == lines[0] + "\n" + (lines[1] + "\n" + Join(lines[2..], "\n"));
    assert Join(lines[2..], "\n") == block[i..];
  }

  lemma {:induction false} JoinNoCr(parts: seq<string>, sep: string)
    requires '\r' !in sep
    requires forall k :: 0 <= k < |parts| ==> '\r' !in parts[k]
    ensures '\r' !in Join(parts, sep)
  {
    if |parts| > 1 {
      JoinNoCr(parts[1..], sep);
    }
  }

  lemma CleanTrim(t: string)
    requires '\r' !in t && NoBlankLine(t) && Trim(t) != ""
    ensures CleanText(Trim(t))
  {
    var a, b := TrimSlice(t);
    NoBlankLineSlice(t, a, b);
  }

  /** Every item `parseSRT` produces is pristine, has well-formed timecodes and a clean
      text, so printing it and reading it back is faithful. */
  /** A block as the splitter delivers it from normalised text. */
  predicate CleanBlock(block: string)
  {
    '\r' !in block && NoBlankLine(block)
  }

  /** What every item `parseSRT` produces satisfies: it is pristine, its timecodes are
      well formed and its text is clean. */
  predicate WellFormedItem(it: SubtitleItem)
  {
    Pristine(it) && IsTimecode(it.startTime) && IsTimecode(it.endTime) && CleanText(it.originalText)
  }

  /** The trimmed text lines of a clean block, when not empty, form a clean text. */
  lemma BlockTextClean(block: string)
    requires CleanBlock(block) && |SplitOn(block, '\n')| >= 3
    requires Trim(Join(SplitOn(block, '\n')[2..], "\n")) != ""
    ensures CleanText(Trim(Join(SplitOn(block, '\n')[2..], "\n")))
  {
    var joined := Join(SplitOn(block, '\n')[2..], "\n");
    var i := TextIsSuffix(block);
    NoBlankLineSlice(block, i, |block|);
    assert '\r' !in joined;
    CleanTrim(joined);
  }

  lemma ParsedItemWellFormed(block: string)
    requires CleanBlock(block)
    requires ParseBlock(block).Some?
    ensures WellFormedItem(ParseBlock(block).value)
  {
    ParseBlockAccepts(block);
    BlockTextClean(block);
  }

  lemma AppendWellFormed(items: seq<SubtitleItem>, it: SubtitleItem)
    requires forall k :: 0 <= k < |items| ==> WellFormedItem(items[k])
    requires WellFormedItem(it)
    ensures forall k :: 0 <= k < |items + [it]| ==> WellFormedItem((items + [it])[k])
  {
    forall k | 0 <= k < |items + [it]| ensures WellFormedItem((items + [it])[k]) {
      if k < |items| {
        assert (items + [it])[k] == items[k];
      }
    }
  }

  lemma {:induction false} ParsedBlocksWellFormed(blocks: seq<string>)
    requires forall k :: 0 <= k < |blocks| ==> CleanBlock(blocks[k])
    ensures forall k :: 0 <= k < |ParsedBlocks(blocks)| ==> WellFormedItem(ParsedBlocks(blocks)[k])
  {
    if |blocks| > 0 {
      var init := blocks[..|blocks| - 1];
      var last := blocks[|blocks| - 1];
      assert forall k :: 0 <= k < |init| ==> CleanBlock(init[k]) by {
        forall k | 0 <= k < |init| ensures CleanBlock(init[k]) {
          assert init[k] == blocks[k];
        }
      }
      ParsedBlocksWellFormed(init);
      var before := ParsedBlocks(init);
      match ParseBlock(last)
      case Some(it) =>
        ParsedItemWellFormed(last);
        ParsedBlocksLast(blocks, it);
        AppendWellFormed(before, it);
      case None =>
        assert ParsedBlocks(blocks) == before;
    }
  }

  /** The items of any file are pristine, carry well-formed timecodes and clean texts. */
  lemma SrtItemsWellFormed(content: string)
    ensures forall k :: 0 <= k < |SrtItems(content)| ==> WellFormedItem(SrtItems(content)[k])
  {
    var blocks := SplitBlocks(Normalize(content));
    assert forall k :: 0 <= k < |blocks| ==> CleanBlock(blocks[k]);
    ParsedBlocksWellFormed(blocks);
  }

  // ---------------------------------------------------------------------------
  // Round trip: generateSRT followed by parseSRT

  /** An item whose printed block reads back as the same cue: well-formed timecodes
      and a clean displayed text. */
  predicate Printable(it: SubtitleItem)
  {
    IsTimecode(it.startTime) && IsTimecode(it.endTime) && CleanText(DisplayText(it))
  }

  /** The item `parseSRT` reads from the block printed for `it`. */
  function Reparsed(it: SubtitleItem): SubtitleItem
  {
    NewItem(it.id, it.startTime, it.endTime, DisplayText(it))
  }

  lemma NoBlankLineConcat(a: string, b: string)
    requires NoBlankLine(a) && NoBlankLine(b)
    requires !(|a| > 0 && |b| > 0 && a[|a| - 1] == '\n' && b[0] == '\n')
    ensures NoBlankLine(a + b)
  {
    var s := a + b;
    forall k | 0 <= k < |s| - 1 ensures !(s[k] == '\n' && s[k + 1] == '\n') {
      if k + 1 < |a| {
        assert s[k] == a[k] && s[k + 1] == a[k + 1];
      } else if k >= |a| {
        assert s[k] == b[k - |a|] && s[k + 1] == b[k + 1 - |a|];
      }
    }
  }

  lemma {:induction false} SplitBlocksSingle(b: string)
    requires NoBlankLine(b)
    ensures SplitBlocks(b) == [b]
    decreases |b|
  {
    if |b| > 0 {
      NoBlankLineSlice(b, 1, |b|);
      SplitBlocksSingle(b[1..]);
      assert b == [b[0]] + b[1..];
    }
  }

  /** A run of `m` line feeds. */
  function Newlines(m: nat): (r: string)
    ensures |r| == m && forall k :: 0 <= k < m ==> r[k] == '\n'
  {
    seq(m, _ => '\n')
  }

  lemma {:induction false} DropRun(m: nat, b: string)
    requires b == [] || b[0] != '\n'
    ensures DropNewlines(Newlines(m) + b) == b
  {
    if m > 0 {
      assert (Newlines(m) + b)[1..] == Newlines(m - 1) + b;
      DropRun(m - 1, b);
    } else {
      assert Newlines(m) + b == b;
    }
  }

  /** `split(/\n\n+/)` cuts at a run of two or more line feeds, whatever its length: the
      piece before the run is one block and the text after it is split further. */
  lemma {:induction false} SplitBlocksRun(a: string, m: nat, b: string)
    requires m >= 2
    requires NoBlankLine(a) && (a == [] || a[|a| - 1] != '\n')
    requires b == [] || b[0] != '\n'
    ensures SplitBlocks(a + Newlines(m) + b) == [a] + SplitBlocks(b)
    decreases |a|
  {
    var s := a + Newlines(m) + b;
    if |a| == 0 {
      assert s == Newlines(m) + b;
      assert s[0] == '\n' && s[1] == '\n';
      DropRun(m, b);
    } else {
      assert s[0] == a[0];
      if |a| >= 2 {
        assert s[1] == a[1];
      } else {
        assert s[1] == '\n' && a[0] != '\n';
      }
      NoBlankLineSlice(a, 1, |a|);
      assert s[1..] == a[1..] + Newlines(m) + b;
      SplitBlocksRun(a[1..], m, b);
      assert a == [a[0]] + a[1..];
    }
  }

  /** The separator `generateSRT` writes, one blank line, is such a run. */
  lemma SplitBlocksConcat(a: string, b: string)
    requires NoBlankLine(a) && (a == [] || a[|a| - 1] != '\n')
    requires b == [] || b[0] != '\n'
    ensures SplitBlocks(a + "\n\n" + b) == [a] + SplitBlocks(b)
  {
    assert Newlines(2) == "\n\n";
    SplitBlocksRun(a, 2, b);
  }

  /** The timecode line of two well-formed timecodes is 29 characters on one line. */
  lemma TimeLineChars(startTime: string, endTime: string)
    requires IsTimecode(startTime) && IsTimecode(endTime)
    ensures var times := TimeLine(startTime, endTime);
            |times| == 29 && '\n' !in times && '\r' !in times && times[28] == endTime[11]
  {
    var times := TimeLine(startTime, endTime);
    forall k | 0 <= k < |times| ensures times[k] != '\n' && times[k] != '\r' {
      if k < 12 { assert times[k] == startTime[k]; }
      else if k >= 17 { assert times[k] == endTime[k - 17]; }
    }
  }

  /** The printed block of a printable item is a single block with no blank line. */
  lemma RenderShape(it: SubtitleItem)
    requires Printable(it)
    ensures var r := Render(it);
            r != [] && r[0] != '\n' && r[|r| - 1] != '\n' && NoBlankLine(r) && '\r' !in r
  {
    var idText := IntToString(it.id);
    var times := TimeLine(it.startTime, it.endTime);
    var text := DisplayText(it);
    TimeLineChars(it.startTime, it.endTime);
    assert '\n' !in idText;
    NoBlankLineConcat(idText, "\n");
    NoBlankLineConcat(idText + "\n", times);
    NoBlankLineConcat(idText + "\n" + times, "\n");
    NoBlankLineConcat(idText + "\n" + times + "\n", text);
  }

  /** The timecode line reads back as the two timecodes it was printed from. */
  lemma TimesLine(startTime: string, endTime: string)
    requires IsTimecode(startTime) && IsTimecode(endTime)
    ensures TimecodePair(TimeLine(startTime, endTime)) == Some((startTime, endTime))
  {
    var times := TimeLine(startTime, endTime);
    assert times[0..12] == startTime && times[17..29] == endTime;
    assert times[12] == ' ' && times[13..16] == "-->" && times[16] == ' ';
    assert MatchAt(times, 0);
  }

  lemma SplitThree(a: string, b: string, c: string)
    requires '\n' !in a && '\n' !in b
    ensures SplitOn(a + "\n" + b + "\n" + c, '\n') == [a, b] + SplitOn(c, '\n')
  {
    assert a + "\n" + b + "\n" + c == a + ['\n'] + (b + ['\n'] + c);
    SplitAfterPiece(a, '\n', b + ['\n'] + c);
    SplitAfterPiece(b, '\n', c);
  }

  lemma RenderLines(it: SubtitleItem)
    requires IsTimecode(it.startTime) && IsTimecode(it.endTime)
    ensures SplitOn(Render(it), '\n') ==
            [IntToString(it.id), TimeLine(it.startTime, it.endTime)] + SplitOn(DisplayText(it), '\n')
  {
    TimeLineChars(it.startTime, it.endTime);
    assert '\n' !in IntToString(it.id);
    SplitThree(IntToString(it.id), TimeLine(it.startTime, it.endTime), DisplayText(it));
  }

  /** The block printed for a printable item reads back as that item's cue. */
  lemma ParseRender(it: SubtitleItem)
    requires Printable(it)
    ensures ParseBlock(Render(it)) == Some(Reparsed(it))
  {
    var idText := IntToString(it.id);
    var times := TimeLine(it.startTime, it.endTime);
    var text := DisplayText(it);
    var lines := SplitOn(Render(it), '\n');
    RenderLines(it);
    assert lines[0] == idText && lines[1] == times && lines[2..] == SplitOn(text, '\n');
    JoinSplit(text, '\n');
    TrimIdentity(text);
    TrimIdentity(idText);
    ParseIntToString(it.id);
    TimesLine(it.startTime, it.endTime);
    assert ParseInt(Trim(lines[0])) == Some(it.id);
    assert Trim(Join(lines[2..], "\n")) == text;
  }

  lemma {:induction false} SplitGenerated(items: seq<SubtitleItem>)
    requires |items| >= 1
    requires forall k :: 0 <= k < |items| ==> Printable(items[k])
    ensures SplitBlocks(GenerateSRT(items)) == Renders(items)
    decreases |items|
  {
    RenderShape(items[0]);
    var r := Renders(items);
    if |items| == 1 {
      SplitBlocksSingle(Render(items[0]));
    } else {
      var rest := items[1..];
      assert Renders(rest) == r[1..];
      SplitGenerated(rest);
      RenderShape(rest[0]);
      JoinUnfold(r, "\n\n");
      JoinUnfold(r[1..], "\n\n");
      var tail := Join(r[1..], "\n\n");
      assert tail[0] == r[1][0];
      SplitBlocksConcat(r[0], tail);
      assert GenerateSRT(items) == r[0] + "\n\n" + tail;
    }
  }

  lemma ParsedBlocksLast(blocks: seq<string>, it: SubtitleItem)
    requires |blocks| > 0 && ParseBlock(blocks[|blocks| - 1]) == Some(it)
    ensures ParsedBlocks(blocks) == ParsedBlocks(blocks[..|blocks| - 1]) + [it]
  {
  }

  /** The items `parseSRT` reads back from the printed blocks, one per item. */
  function ReparsedAll(items: seq<SubtitleItem>): (r: seq<SubtitleItem>)
    ensures |r| == |items| && forall k :: 0 <= k < |items| ==> r[k] == Reparsed(items[k])
  {
    seq(|items|, k requires 0 <= k < |items| => Reparsed(items[k]))
  }

  lemma ParseRendersStep(items: seq<SubtitleItem>)
    requires |items| > 0 && Printable(items[|items| - 1])
    ensures ParsedBlocks(Renders(items)) == ParsedBlocks(Renders(items[..|items| - 1])) + [Reparsed(items[|items| - 1])]
  {
    var n := |items|;
    var r := Renders(items);
    assert r[..n - 1] == Renders(items[..n - 1]);
    ParseRender(items[n - 1]);
    ParsedBlocksLast(r, Reparsed(items[n - 1]));
  }

  lemma ReparsedAllStep(items: seq<SubtitleItem>)
    requires |items| > 0
    ensures ReparsedAll(items) == ReparsedAll(items[..|items| - 1]) + [Reparsed(items[|items| - 1])]
  {
  }

  lemma {:induction false} ParseRenders(items: seq<SubtitleItem>)
    requires forall k :: 0 <= k < |items| ==> Printable(items[k])
    ensures ParsedBlocks(Renders(items)) == ReparsedAll(items)
    decreases |items|
  {
    var n := |items|;
    if n > 0 {
      ParseRendersStep(items);
      ReparsedAllStep(items);
      ParseRenders(items[..n - 1]);
    }
  }

  /** Printing items and reading the file back yields, in order, one item per printed
      item with the same id and timecodes, the displayed text as its text, and fresh
      processing state. */
  lemma GenerateThenParse(items: seq<SubtitleItem>)
    requires forall k :: 0 <= k < |items| ==> Printable(items[k])
    ensures SrtItems(GenerateSRT(items)) == ReparsedAll(items)
  {
    var out := GenerateSRT(items);
    if |items| == 0 {
      assert out == "";
      assert Normalize(out) == "";
      assert SplitBlocks("") == [""];
      assert SplitOn("", '\n') == [""];
      assert ParsedBlocks([""]) == [];
    } else {
      forall k | 0 <= k < |items| ensures '\r' !in Renders(items)[k] {
        RenderShape(items[k]);
      }
      JoinNoCr(Renders(items), "\n\n");
      assert Normalize(out) == out;
      SplitGenerated(items);
      ParseRenders(items);
    }
  }

  /** Well-formed items print and read back as themselves. */
  lemma ReparsedWellFormed(items: seq<SubtitleItem>)
    requires forall k :: 0 <= k < |items| ==> WellFormedItem(items[k])
    ensures forall k :: 0 <= k < |items| ==> Printable(items[k])
    ensures ReparsedAll(items) == items
  {
    forall k | 0 <= k < |items| ensures Printable(items[k]) && Reparsed(items[k]) == items[k] {
      assert DisplayText(items[k]) == items[k].originalText;
    }
  }

  /** A file that has been read once is a fixed point of printing and re-reading. */
  lemma ParseGenerateParse(content: string)
    ensures SrtItems(GenerateSRT(SrtItems(content))) == SrtItems(content)
  {
    var items := SrtItems(content);
    SrtItemsWellFormed(content);
    ReparsedWellFormed(items);
    GenerateThenParse(items);
  }
}
