/** What is printed as WebVTT is recognised and read back. */
module SubtitlesProofs {
  import opened Wrappers
  import opened Sequences
  import opened Machine
  import opened Subtitles
  import Decimal

  /** From here on a time needs three digits for its hours. */
  const HUNDRED_HOURS: nat := 360000000

  /* ---- Texts ---- */

  predicate NoReturns(s: string) {
    forall i :: 0 <= i < |s| ==> s[i] != '\r'
  }

  /** No empty line inside. */
  predicate NoBlankLine(s: string) {
    forall i :: 0 <= i < |s| - 1 ==> !(s[i] == '\n' && s[i + 1] == '\n')
  }

  predicate Trimmed(s: string) {
    s != "" ==> !IsWhite(s[0]) && !IsWhite(s[|s| - 1])
  }

  /** A text that survives: trimmed, without blank lines and carriage returns. */
  predicate Plain(s: string) {
    NoReturns(s) && NoBlankLine(s) && Trimmed(s)
  }

  predicate NoFeeds(s: string) {
    forall i :: 0 <= i < |s| ==> s[i] != '\n'
  }

  lemma {:induction false} NormalizeKeeps(s: string)
    requires NoReturns(s)
    ensures Normalize(s) == s
  {
    if s != "" {
      NormalizeKeeps(s[1..]);
      assert s == [s[0]] + s[1..];
    }
  }

  lemma TrimKeeps(s: string)
    requires Trimmed(s)
    ensures Trim(s) == s
  {
  }

  /* ---- Blocks ---- */

  lemma {:induction false} FirstBlock(block: string, rest: string)
    requires block != "" && NoBlankLine(block) && block[|block| - 1] != '\n'
    ensures Blocks(block + "\n\n" + rest) == [block] + Blocks(rest)
  {
    var s := block + "\n\n" + rest;
    assert s[0] == block[0];
    if |block| == 1 {
      assert s[1..] == "\n\n" + rest;
      assert s[1..][2..] == rest;
      assert Blocks(s[1..]) == [""] + Blocks(rest);
      assert [block[0]] + "" == block;
    } else {
      assert s[1] == block[1];
      assert s[1..] == block[1..] + "\n\n" + rest;
      FirstBlock(block[1..], rest);
      assert block == [block[0]] + block[1..];
    }
  }

  /* ---- Lines ---- */

  lemma {:induction false} FirstLine(line: string, rest: string)
    requires NoFeeds(line)
    ensures Lines(line + "\n" + rest) == [line] + Lines(rest)
  {
    var s := line + "\n" + rest;
    if line == "" {
      assert s == "\n" + rest && s[1..] == rest;
    } else {
      assert s[0] == line[0] && s[1..] == line[1..] + "\n" + rest;
      FirstLine(line[1..], rest);
      assert line == [line[0]] + line[1..];
    }
  }

  lemma {:induction false} OnlyLine(line: string)
    requires NoFeeds(line) && line != ""
    ensures Lines(line) == [line]
  {
    if |line| > 1 {
      OnlyLine(line[1..]);
      assert line == [line[0]] + line[1..];
    } else {
      assert Lines(line[1..]) == [];
    }
  }

  /** Lines put together again are the text, if that does not end in a line feed. */
  lemma {:induction false} JoinLines(s: string)
    requires s != "" ==> s[|s| - 1] != '\n'
    ensures Join(Lines(s)) == s && (s != "" ==> Lines(s) != [])
  {
    if s != "" {
      var rest := Lines(s[1..]);
      JoinLines(s[1..]);
      assert s == [s[0]] + s[1..];
      if s[0] == '\n' {
        assert rest != [];
        assert ([""] + rest)[1..] == rest;
        assert "" + "\n" + s[1..] == s;
      } else if rest != [] {
        JoinPrefix(s[0], rest);
      }
    }
  }

  lemma JoinPrefix(c: char, lines: seq<string>)
    requires lines != []
    ensures Join([[c] + lines[0]] + lines[1..]) == [c] + Join(lines)
  {
    var longer := [[c] + lines[0]] + lines[1..];
    if |lines| > 1 {
      assert longer[1..] == lines[1..];
      assert ([c] + lines[0]) + "\n" + Join(lines[1..]) == [c] + (lines[0] + "\n" + Join(lines[1..]));
    }
  }

  /* ---- Times ---- */

  lemma DigitTextValue(digits: seq<nat>)
    requires digits != [] && forall i :: 0 <= i < |digits| ==> digits[i] < 10
    ensures ParseNumber(DigitText(digits)) == Decimal.Value(digits)
  {
    var back := DigitsOf(DigitText(digits));
    forall i | 0 <= i < |digits|
      ensures back[i] == digits[i]
    {
      assert DigitText(digits)[i] == DigitChar(digits[i]);
    }
    assert back == digits;
  }

  /** A number below the power of its width is printed in exactly that width. */
  lemma PaddedWidth(n: nat, width: nat)
    requires width > 0 && n < Power(10, width)
    ensures |Decimal.Padded(n, width)| == width
    ensures ParseNumber(DigitText(Decimal.Padded(n, width))) == n
  {
    Decimal.DigitsShort(n, width);
    Decimal.PaddedValue(n, width);
    DigitTextValue(Decimal.Padded(n, width));
  }

  lemma Powers()
    ensures Power(10, 2) == 100 && Power(10, 3) == 1000
  {
    assert Power(10, 1) == 10;
  }

  lemma TimeOfParts(h: string, m: string, s: string, ms: string, rest: string)
    requires |h| == 2 && |m| == 2 && |s| == 2 && |ms| == 3
    requires AllDigits(h) && AllDigits(m) && AllDigits(s) && AllDigits(ms)
    ensures var line := h + ":" + m + ":" + s + "." + ms + rest;
            StartsWithTime(line) && TimeAtStart(line) == ParseTimeComponents(h, m, s, ms) && line[12..] == rest
  {
    var line := h + ":" + m + ":" + s + "." + ms + rest;
    assert line[0..2] == h && line[3..5] == m && line[6..8] == s && line[9..12] == ms && line[12..] == rest;
  }

  lemma TimeParts(ms: nat)
    ensures ms / 3600000 * 3600000 + ms % 3600000 / 60000 * 60000 + ms % 60000 / 1000 * 1000 + ms % 1000 == ms
  {
    assert ms % 3600000 % 60000 == ms % 60000;
    assert ms % 60000 % 1000 == ms % 1000;
  }

  /** A time below a hundred hours is read back. */
  lemma TimeIsRead(ms: nat, rest: string)
    requires ms < HUNDRED_HOURS
    ensures StartsWithTime(FormatTime(ms) + rest) && TimeAtStart(FormatTime(ms) + rest) == ms
    ensures |FormatTime(ms)| == 12 && (FormatTime(ms) + rest)[12..] == rest
  {
    Powers();
    PaddedWidth(ms / 3600000, 2);
    PaddedWidth(ms % 3600000 / 60000, 2);
    PaddedWidth(ms % 60000 / 1000, 2);
    PaddedWidth(ms % 1000, 3);
    TimeOfParts(DigitText(Decimal.Padded(ms / 3600000, 2)), DigitText(Decimal.Padded(ms % 3600000 / 60000, 2)),
                DigitText(Decimal.Padded(ms % 60000 / 1000, 2)), DigitText(Decimal.Padded(ms % 1000, 3)), rest);
    TimeParts(ms);
  }

  lemma {:induction false} ThreeDigits(n: nat)
    requires n >= 100
    ensures |Decimal.Digits(n)| >= 3
  {
    assert |Decimal.Digits(n / 10)| >= 2 by {
      assert |Decimal.Digits(n / 10 / 10)| >= 1;
    }
  }

  /** A time of a hundred hours or more does not match. */
  lemma LongTimeIsRefused(ms: nat, rest: string)
    requires ms >= HUNDRED_HOURS
    ensures !StartsWithTime(FormatTime(ms) + rest)
  {
    var hours := DigitText(Decimal.Padded(ms / 3600000, 2));
    ThreeDigits(ms / 3600000);
    assert FormatTime(ms)[2] == hours[2];
    assert (FormatTime(ms) + rest)[2] == hours[2];
  }

  /* ---- The line of the times ---- */

  predicate Representable(cue: Cue) {
    cue.startMs < HUNDRED_HOURS && cue.endMs < HUNDRED_HOURS
  }

  /** A time has no line feed or carriage return and starts with a digit. */
  predicate OneLine(s: string) {
    s != "" && NoFeeds(s) && NoReturns(s)
  }

  predicate DigitsAtBothEnds(s: string) {
    OneLine(s) && Decimal.IsDigit(s[0] as int) && Decimal.IsDigit(s[|s| - 1] as int)
  }

  lemma OneLineConcat(a: string, b: string)
    requires OneLine(a) && OneLine(b)
    ensures OneLine(a + b) && (a + b)[0] == a[0] && (a + b)[|a + b| - 1] == b[|b| - 1]
  {
  }

  lemma FormatTimeIsOneLine(ms: nat)
    ensures DigitsAtBothEnds(FormatTime(ms))
  {
    var h, m := DigitText(Decimal.Padded(ms / 3600000, 2)), DigitText(Decimal.Padded(ms % 3600000 / 60000, 2));
    var s, milli := DigitText(Decimal.Padded(ms % 60000 / 1000, 2)), DigitText(Decimal.Padded(ms % 1000, 3));
    OneLineConcat(h, ":");
    OneLineConcat(h + ":", m);
    OneLineConcat(h + ":" + m, ":");
    OneLineConcat(h + ":" + m + ":", s);
    OneLineConcat(h + ":" + m + ":" + s, ".");
    OneLineConcat(h + ":" + m + ":" + s + ".", milli);
  }

  lemma CueLineIsOneLine(cue: Cue)
    ensures DigitsAtBothEnds(CueLine(cue))
  {
    FormatTimeIsOneLine(cue.startMs);
    FormatTimeIsOneLine(cue.endMs);
    BothTimesAreOneLine(FormatTime(cue.startMs), FormatTime(cue.endMs));
  }

  lemma BothTimesAreOneLine(a: string, b: string)
    requires OneLine(a) && OneLine(b)
    ensures var line := a + " --> " + b; OneLine(line) && line[0] == a[0] && line[|line| - 1] == b[|b| - 1]
  {
    OneLineConcat(a, " --> ");
    OneLineConcat(a + " --> ", b);
  }

  lemma CueLineHasArrow(cue: Cue)
    ensures Contains(CueLine(cue), ARROW)
  {
    var at := |FormatTime(cue.startMs)| + 1;
    assert CueLine(cue)[at..at + 3] == ARROW;
    assert OccursAt(CueLine(cue), ARROW, at);
  }

  /** The line of the times matches just when both are below a hundred hours, and gives them back. */
  lemma CueLineIff(cue: Cue)
    ensures MatchCueLine(CueLine(cue)) == if Representable(cue) then Some((cue.startMs, cue.endMs)) else None
  {
    var first, second := FormatTime(cue.startMs), FormatTime(cue.endMs);
    FormatTimeIsOneLine(cue.startMs);
    FormatTimeIsOneLine(cue.endMs);
    assert CueLine(cue) == first + (" --> " + second);
    assert TrimStart(CueLine(cue)) == CueLine(cue);
    if cue.startMs >= HUNDRED_HOURS {
      LongTimeIsRefused(cue.startMs, " --> " + second);
    } else {
      TimeIsRead(cue.startMs, " --> " + second);
      ArrowIsSkipped(second);
      LastTimeIff(cue.endMs);
    }
  }

  lemma LastTimeIff(ms: nat)
    ensures StartsWithTime(FormatTime(ms)) <==> ms < HUNDRED_HOURS
    ensures ms < HUNDRED_HOURS ==> TimeAtStart(FormatTime(ms)) == ms
  {
    assert FormatTime(ms) + "" == FormatTime(ms);
    if ms >= HUNDRED_HOURS {
      LongTimeIsRefused(ms, "");
    } else {
      TimeIsRead(ms, "");
    }
  }

  lemma ArrowIsSkipped(second: string)
    requires second != "" && Decimal.IsDigit(second[0] as int)
    ensures var arrow := TrimStart(" --> " + second); ARROW <= arrow && TrimStart(arrow[3..]) == second
  {
    var arrow := "--> " + second;
    assert (" --> " + second)[1..] == arrow;
    assert TrimStart(arrow) == arrow;
    assert arrow[3..] == " " + second;
    assert (" " + second)[1..] == second;
  }

  /* ---- One cue ---- */

  function Styled(cue: Cue): string {
    ApplyStyle(cue.text, cue.style)
  }

  /** What the reader makes of a printed cue. */
  function Kept(cue: Cue): Option<Cue> {
    if Representable(cue) then Some(Cue(cue.startMs, cue.endMs, Styled(cue), None)) else None
  }

  /** The lines of a cue as one block; `prefix` is what an empty text before it left over. */
  function BlockText(prefix: string, number: string, line: string, text: string): string {
    prefix + number + "\n" + line + (if text == "" then "" else "\n" + text)
  }

  function BlockOf(prefix: string, cue: Cue, n: nat): string {
    BlockText(prefix, NumberText(n), CueLine(cue), Styled(cue))
  }

  predicate Leftover(prefix: string) {
    prefix == "" || prefix == "\n"
  }

  lemma LinesOfText(number: string, line: string, text: string)
    requires NoFeeds(number) && NoFeeds(line) && line != ""
    ensures Lines(BlockText("", number, line, text)) == [number, line] + Lines(text)
  {
    var tail := if text == "" then "" else "\n" + text;
    EmptyPrefix(number, line, tail);
    FirstLine(number, line + tail);
    if text == "" {
      assert line + "" == line;
      OnlyLine(line);
    } else {
      Assoc(line, "\n", text);
      FirstLine(line, text);
    }
  }

  lemma EmptyPrefix(number: string, line: string, tail: string)
    ensures "" + number + "\n" + line + tail == number + "\n" + (line + tail)
  {
    assert "" + number == number;
    Assoc(number + "\n", line, tail);
  }

  lemma DigitsHaveNoArrow(s: string)
    requires AllDigits(s)
    ensures !Contains(s, ARROW)
  {
    forall i | 0 <= i <= |s|
      ensures !OccursAt(s, ARROW, i)
    {
      if i + 3 <= |s| {
        assert s[i..i + 3][0] == s[i];
      }
    }
  }

  lemma ArrowAfter(prefix: string, number: string, line: string, lines: seq<string>)
    requires Leftover(prefix) && AllDigits(number) && Contains(line, ARROW)
    ensures var head := if prefix == "" then [number, line] else ["", number, line];
            ArrowLine(head + lines) == Some(|head| - 1) && (head + lines)[|head| - 1] == line
            && (head + lines)[|head|..] == lines
  {
    DigitsHaveNoArrow(number);
    DigitsHaveNoArrow("");
    var short := [number, line] + lines;
    assert short[1..] == [line] + lines;
    assert ArrowLine(short[1..]) == Some(0);
    assert ArrowLine(short) == Some(1);
    assert (["", number, line] + lines)[1..] == short;
  }

  /** The lines before the text of a cue. */
  function Head(prefix: string, cue: Cue, n: nat): seq<string> {
    if prefix == "" then [NumberText(n), CueLine(cue)] else ["", NumberText(n), CueLine(cue)]
  }

  lemma LinesOfBlock(prefix: string, cue: Cue, n: nat)
    requires Leftover(prefix)
    ensures Lines(BlockOf(prefix, cue, n)) == Head(prefix, cue, n) + Lines(Styled(cue))
  {
    CueLineIsOneLine(cue);
    LinesOfLeftover(prefix, NumberText(n), CueLine(cue), Styled(cue));
  }

  lemma LinesOfLeftover(prefix: string, number: string, line: string, text: string)
    requires Leftover(prefix) && NoFeeds(number) && NoFeeds(line) && line != ""
    ensures Lines(BlockText(prefix, number, line, text)) ==
            (if prefix == "" then [number, line] else ["", number, line]) + Lines(text)
  {
    LinesOfText(number, line, text);
    if prefix == "\n" {
      FeedInFront(number, line, text);
      Assoc([""], [number, line], Lines(text));
      assert [""] + [number, line] == ["", number, line];
    }
  }

  lemma FeedInFront(number: string, line: string, text: string)
    ensures Lines(BlockText("\n", number, line, text)) == [""] + Lines(BlockText("", number, line, text))
  {
    assert BlockText("\n", number, line, text)[1..] == BlockText("", number, line, text);
  }

  lemma BlockIsRead(prefix: string, cue: Cue, n: nat)
    requires Leftover(prefix) && Plain(Styled(cue))
    ensures ParseBlock(BlockOf(prefix, cue, n)) == Kept(cue)
  {
    LinesOfBlock(prefix, cue, n);
    CueLineHasArrow(cue);
    ArrowAfter(prefix, NumberText(n), CueLine(cue), Lines(Styled(cue)));
    TextIsJoined(Styled(cue));
    FromLines(BlockOf(prefix, cue, n), Head(prefix, cue, n), cue);
  }

  lemma TextIsJoined(text: string)
    requires Plain(text)
    ensures Trim(Join(Lines(text))) == text
  {
    JoinLines(text);
    TrimKeeps(text);
  }

  lemma FromLines(block: string, head: seq<string>, cue: Cue)
    requires head != [] && head[|head| - 1] == CueLine(cue)
    requires Lines(block) == head + Lines(Styled(cue)) && ArrowLine(Lines(block)) == Some(|head| - 1)
    requires Trim(Join(Lines(Styled(cue)))) == Styled(cue)
    ensures ParseBlock(block) == Kept(cue)
  {
    CueLineIff(cue);
    assert (head + Lines(Styled(cue)))[|head|..] == Lines(Styled(cue));
  }

  lemma NoBlankConcat(a: string, b: string)
    requires NoBlankLine(a) && NoBlankLine(b) && (a == "" || a[|a| - 1] != '\n' || b == "" || b[0] != '\n')
    ensures NoBlankLine(a + b)
  {
  }

  /** A block ends before the empty line that closes it, and has none inside. */
  lemma BlockIsOne(prefix: string, number: string, line: string, text: string)
    requires Leftover(prefix) && Plain(text) && OneLine(number) && OneLine(line)
    ensures var block := BlockText(prefix, number, line, text);
            block != "" && NoBlankLine(block) && block[|block| - 1] != '\n'
  {
    NoBlankConcat(prefix, number);
    NoBlankConcat(prefix + number, "\n");
    NoBlankConcat(prefix + number + "\n", line);
    if text != "" {
      NoBlankConcat("\n", text);
      NoBlankConcat(prefix + number + "\n" + line, "\n" + text);
    }
  }

  lemma PrintedAsBlock(prefix: string, number: string, line: string, text: string, rest: string)
    ensures prefix + (number + "\n" + line + "\n" + text + "\n\n" + rest) ==
            BlockText(prefix, number, line, text) + "\n\n" + ((if text == "" then "\n" else "") + rest)
  {
    Regroup(prefix, number, line, text, rest);
    var front := prefix + number + "\n" + line;
    if text == "" {
      ThreeFeeds(front, rest);
    } else {
      Assoc(front, "\n", text);
      assert "" + rest == rest;
    }
  }

  lemma ThreeFeeds(front: string, rest: string)
    ensures front + "\n" + "" + "\n\n" + rest == front + "" + "\n\n" + ("\n" + rest)
  {
  }

  lemma Regroup(prefix: string, number: string, line: string, text: string, rest: string)
    ensures prefix + (number + "\n" + line + "\n" + text + "\n\n" + rest) ==
            prefix + number + "\n" + line + "\n" + text + "\n\n" + rest
  {
  }

  /* ---- All cues ---- */

  predicate AllPlain(cues: seq<Cue>) {
    forall i :: 0 <= i < |cues| ==> Plain(Styled(cues[i]))
  }

  /** The cues that are kept, in their order. */
  function AllKept(cues: seq<Cue>): seq<Cue> {
    if cues == [] then []
    else (if Kept(cues[0]).Some? then [Kept(cues[0]).value] else []) + AllKept(cues[1..])
  }

  lemma NothingIsRead(prefix: string)
    requires Leftover(prefix)
    ensures ParseBlocks(Blocks(prefix)) == []
  {
    assert prefix == "\n" ==> Lines(prefix) == [""] && prefix[1..] == "";
    DigitsHaveNoArrow("");
    assert [prefix][1..] == [];
  }

  lemma {:induction false} CuesAreRead(prefix: string, cues: seq<Cue>, n: nat)
    requires Leftover(prefix) && AllPlain(cues)
    ensures ParseBlocks(Blocks(prefix + PrintFrom(cues, n))) == AllKept(cues)
    decreases cues
  {
    if cues == [] {
      assert prefix + "" == prefix;
      NothingIsRead(prefix);
    } else {
      var next := LeftBy(cues[0]);
      var rest := next + PrintFrom(cues[1..], n + 1);
      FirstCueIsBlock(prefix, cues[0], n, PrintFrom(cues[1..], n + 1));
      BlockIsRead(prefix, cues[0], n);
      CuesAreRead(next, cues[1..], n + 1);
      FirstOfBlocks(BlockOf(prefix, cues[0], n), Blocks(rest));
    }
  }

  /** The line feed an empty text leaves in front of the next block. */
  function LeftBy(cue: Cue): string {
    if Styled(cue) == "" then "\n" else ""
  }

  lemma FirstCueIsBlock(prefix: string, cue: Cue, n: nat, rest: string)
    requires Leftover(prefix) && Plain(Styled(cue))
    ensures Blocks(prefix + (PrintCue(cue, n) + rest)) == [BlockOf(prefix, cue, n)] + Blocks(LeftBy(cue) + rest)
  {
    CueLineIsOneLine(cue);
    PrintedAsBlock(prefix, NumberText(n), CueLine(cue), Styled(cue), rest);
    BlockIsOne(prefix, NumberText(n), CueLine(cue), Styled(cue));
    FirstBlock(BlockOf(prefix, cue, n), LeftBy(cue) + rest);
  }

  lemma FirstOfBlocks(block: string, blocks: seq<string>)
    ensures ParseBlocks([block] + blocks) ==
            (if ParseBlock(block).Some? then [ParseBlock(block).value] else []) + ParseBlocks(blocks)
  {
    assert ([block] + blocks)[1..] == blocks;
  }

  /* ---- The whole document ---- */

  lemma NoReturnsConcat(a: string, b: string)
    requires NoReturns(a) && NoReturns(b)
    ensures NoReturns(a + b)
  {
  }

  lemma {:induction false} PrintHasNoReturns(cues: seq<Cue>, n: nat)
    requires AllPlain(cues)
    ensures NoReturns(PrintFrom(cues, n))
    decreases cues
  {
    if cues != [] {
      var number, line := NumberText(n), CueLine(cues[0]);
      CueLineIsOneLine(cues[0]);
      NoReturnsConcat(number, "\n");
      NoReturnsConcat(number + "\n", line);
      NoReturnsConcat(number + "\n" + line, "\n");
      NoReturnsConcat(number + "\n" + line + "\n", Styled(cues[0]));
      NoReturnsConcat(number + "\n" + line + "\n" + Styled(cues[0]), "\n\n");
      PrintHasNoReturns(cues[1..], n + 1);
      NoReturnsConcat(PrintCue(cues[0], n), PrintFrom(cues[1..], n + 1));
    }
  }

  lemma {:induction false} TrimEndKeeps(s: string, k: nat)
    requires 0 < k <= |s| && !IsWhite(s[k - 1])
    ensures s[..k] <= TrimEnd(s)
  {
    if k < |s| && IsWhite(s[|s| - 1]) {
      TrimEndKeeps(s[..|s| - 1], k);
      assert s[..|s| - 1][..k] == s[..k];
    }
  }

  /** What is printed is recognised as WebVTT, whatever the cues are. */
  lemma PrintedIsDetected(cues: seq<Cue>)
    ensures DetectFormat(Print(cues)) == Vtt
  {
    HeaderSurvives("\n\n" + PrintFrom(cues, 1));
    Assoc(HEADER, "\n\n", PrintFrom(cues, 1));
  }

  lemma HeaderSurvives(body: string)
    ensures HEADER <= Trim(HEADER + body)
  {
    var s := HEADER + body;
    assert s[..6] == HEADER && s[0] == 'W' && s[5] == 'T';
    TrimEndKeeps(s, 6);
  }

  /**
    For cues whose styled texts are trimmed and have no blank line or carriage return, reading what was
    printed gives exactly the cues with both times below a hundred hours, in order, with their
    styled texts, empty ones and ones with arrows included.
  */
  lemma PrintedIsReadBack(cues: seq<Cue>)
    requires AllPlain(cues)
    ensures Parse(Print(cues)) == AllKept(cues)
  {
    PrintedIsNormal(cues);
    PrintedBlocks(cues);
    HeaderIsNoCue();
    FirstOfBlocks(HEADER, Blocks(PrintFrom(cues, 1)));
    CuesAreRead("", cues, 1);
    assert "" + PrintFrom(cues, 1) == PrintFrom(cues, 1);
  }

  lemma PrintedBlocks(cues: seq<Cue>)
    ensures Blocks(Print(cues)) == [HEADER] + Blocks(PrintFrom(cues, 1))
  {
    FirstBlock(HEADER, PrintFrom(cues, 1));
  }

  lemma PrintedIsNormal(cues: seq<Cue>)
    requires AllPlain(cues)
    ensures Normalize(Print(cues)) == Print(cues)
  {
    PrintHasNoReturns(cues, 1);
    NoReturnsConcat(HEADER + "\n\n", PrintFrom(cues, 1));
    NormalizeKeeps(Print(cues));
  }

  lemma HeaderIsNoCue()
    ensures ParseBlock(HEADER) == None
  {
    OnlyLine(HEADER);
    forall i | 0 <= i <= 6
      ensures !OccursAt(HEADER, ARROW, i)
    {
      if i + 3 <= 6 {
        assert HEADER[i..i + 3][0] == HEADER[i];
      }
    }
    assert [HEADER][1..] == [];
  }

  predicate AllUnstyled(cues: seq<Cue>) {
    forall i :: 0 <= i < |cues| ==> cues[i].style == None
  }

  predicate AllRepresentable(cues: seq<Cue>) {
    forall i :: 0 <= i < |cues| ==> Representable(cues[i])
  }

  lemma {:induction false} KeptIff(cues: seq<Cue>)
    requires AllUnstyled(cues)
    ensures |AllKept(cues)| <= |cues|
    ensures AllKept(cues) == cues <==> AllRepresentable(cues)
  {
    if cues != [] {
      var first, rest := cues[0], cues[1..];
      KeptIff(rest);
      assert cues == [first] + rest;
      assert AllRepresentable(cues) <==> Representable(first) && AllRepresentable(rest);
      if Representable(first) {
        assert Kept(first) == Some(first);
        assert AllKept(cues) == [first] + AllKept(rest);
        assert AllKept(cues) == cues ==> AllKept(cues)[1..] == cues[1..];
      }
    }
  }

  lemma {:induction false} KeptPrintsTheSame(cues: seq<Cue>, n: nat)
    requires AllRepresentable(cues)
    ensures PrintFrom(AllKept(cues), n) == PrintFrom(cues, n)
    decreases cues
  {
    if cues != [] {
      var kept := Kept(cues[0]).value;
      KeptPrintsTheSame(cues[1..], n + 1);
      assert AllKept(cues) == [kept] + AllKept(cues[1..]);
      assert AllKept(cues)[1..] == AllKept(cues[1..]);
      assert PrintCue(kept, n) == PrintCue(cues[0], n);
    }
  }

  lemma {:induction false} LongerNumber(n: nat, m: nat)
    requires n <= m
    ensures |Decimal.Digits(n)| <= |Decimal.Digits(m)|
  {
    if n >= 10 {
      LongerNumber(n / 10, m / 10);
    }
  }

  /** How many characters a cue takes, besides its number. */
  function BodySize(cue: Cue): nat {
    |CueLine(cue)| + |Styled(cue)| + 4
  }

  /** How many characters cues of the given sizes take when they are numbered from `n`. */
  function PrintedSize(sizes: seq<nat>, n: nat): nat {
    if sizes == [] then 0 else |Decimal.Digits(n)| + sizes[0] + PrintedSize(sizes[1..], n + 1)
  }

  function BodySizes(cues: seq<Cue>): (r: seq<nat>)
    ensures |r| == |cues|
  {
    if cues == [] then [] else [BodySize(cues[0])] + BodySizes(cues[1..])
  }

  function KeepFlags(cues: seq<Cue>): (r: seq<bool>)
    ensures |r| == |cues| && forall i :: 0 <= i < |r| ==> r[i] == Representable(cues[i])
  {
    seq(|cues|, i requires 0 <= i < |cues| => Representable(cues[i]))
  }

  function Filtered(sizes: seq<nat>, keep: seq<bool>): seq<nat>
    requires |sizes| == |keep|
  {
    if sizes == [] then []
    else if keep[0] then [sizes[0]] + Filtered(sizes[1..], keep[1..])
    else Filtered(sizes[1..], keep[1..])
  }

  lemma CueSize(number: string, line: string, text: string)
    ensures |number + "\n" + line + "\n" + text + "\n\n"| == |number| + |line| + |text| + 4
  {
  }

  lemma {:induction false} PrintHasSize(cues: seq<Cue>, n: nat)
    ensures |PrintFrom(cues, n)| == PrintedSize(BodySizes(cues), n)
    decreases cues
  {
    if cues != [] {
      CueSize(NumberText(n), CueLine(cues[0]), Styled(cues[0]));
      PrintHasSize(cues[1..], n + 1);
      assert BodySizes(cues)[1..] == BodySizes(cues[1..]);
    }
  }

  lemma SameBody(cue: Cue)
    requires Representable(cue)
    ensures BodySize(Kept(cue).value) == BodySize(cue)
  {
    var kept := Kept(cue).value;
    assert CueLine(kept) == CueLine(cue) && Styled(kept) == Styled(cue);
  }

  lemma SizesStep(first: Cue, rest: seq<Cue>)
    ensures BodySizes([first] + rest) == [BodySize(first)] + BodySizes(rest)
  {
    assert ([first] + rest)[1..] == rest;
  }

  lemma KeptStep(cues: seq<Cue>)
    requires cues != []
    ensures BodySizes(AllKept(cues)) ==
            if Representable(cues[0]) then [BodySize(cues[0])] + BodySizes(AllKept(cues[1..]))
            else BodySizes(AllKept(cues[1..]))
  {
    var rest := AllKept(cues[1..]);
    if Representable(cues[0]) {
      assert AllKept(cues) == [Kept(cues[0]).value] + rest;
      SizesStep(Kept(cues[0]).value, rest);
      SameBody(cues[0]);
    } else {
      assert [] + rest == rest;
      assert AllKept(cues) == rest;
    }
  }

  lemma {:induction false} KeptHaveSizes(cues: seq<Cue>)
    ensures BodySizes(AllKept(cues)) == Filtered(BodySizes(cues), KeepFlags(cues))
  {
    if cues != [] {
      KeptHaveSizes(cues[1..]);
      KeptStep(cues);
      assert BodySizes(cues)[1..] == BodySizes(cues[1..]);
      assert KeepFlags(cues)[1..] == KeepFlags(cues[1..]);
    }
  }

  /** With a cue left out, and the others numbered from no more than before, less is printed. */
  lemma {:induction false} FilteredIsLess(sizes: seq<nat>, keep: seq<bool>, n: nat, m: nat)
    requires |sizes| == |keep| && n <= m
    ensures PrintedSize(Filtered(sizes, keep), n) <= PrintedSize(sizes, m)
    ensures false in keep ==> PrintedSize(Filtered(sizes, keep), n) < PrintedSize(sizes, m)
  {
    if sizes != [] {
      LongerNumber(n, m);
      assert keep == [keep[0]] + keep[1..];
      if keep[0] {
        FilteredIsLess(sizes[1..], keep[1..], n + 1, m + 1);
        assert Filtered(sizes, keep)[1..] == Filtered(sizes[1..], keep[1..]);
      } else {
        FilteredIsLess(sizes[1..], keep[1..], n, m + 1);
      }
    }
  }

  lemma KeptPrintsLess(cues: seq<Cue>)
    requires !AllRepresentable(cues)
    ensures |PrintFrom(AllKept(cues), 1)| < |PrintFrom(cues, 1)|
  {
    PrintHasSize(AllKept(cues), 1);
    PrintHasSize(cues, 1);
    KeptHaveSizes(cues);
    var i :| 0 <= i < |cues| && !Representable(cues[i]);
    assert !KeepFlags(cues)[i];
    FilteredIsLess(BodySizes(cues), KeepFlags(cues), 1, 1);
  }

  /**
    Converting what was printed once more changes nothing, also when the cues were styled, exactly
    if all times are below a hundred hours.
  */
  lemma ConvertingAgainChangesNothingIff(cues: seq<Cue>)
    requires AllPlain(cues)
    ensures Print(Parse(Print(cues))) == Print(cues) <==> AllRepresentable(cues)
  {
    PrintedIsReadBack(cues);
    if AllRepresentable(cues) {
      KeptPrintsTheSame(cues, 1);
    } else {
      KeptPrintsLess(cues);
      assert |Print(AllKept(cues))| < |Print(cues)|;
    }
  }
}
