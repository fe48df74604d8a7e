/** Documents that were not printed here, by their line ends, settings and digits; and what a printed one shows. */
module SubtitlesReading {
  import opened Wrappers
  import opened Sequences
  import opened Subtitles
  import opened SubtitlesProofs
  import Decimal

  /* ---- Line ends ---- */

  /** The text with every line feed written as the given line end. */
  function WithLineEnd(s: string, lineEnd: string): string {
    if s == "" then ""
    else if s[0] == '\n' then lineEnd + WithLineEnd(s[1..], lineEnd)
    else [s[0]] + WithLineEnd(s[1..], lineEnd)
  }

  lemma {:induction false} NormalizeCrLf(s: string)
    requires NoReturns(s)
    ensures Normalize(WithLineEnd(s, "\r\n")) == s
  {
    if s != "" {
      var rest := WithLineEnd(s[1..], "\r\n");
      NormalizeCrLf(s[1..]);
      if s[0] == '\n' {
        assert ("\r\n" + rest)[2..] == rest;
      } else {
        assert ([s[0]] + rest)[1..] == rest;
      }
      assert s == [s[0]] + s[1..];
    }
  }

  lemma {:induction false} NoFeedIsLeft(s: string)
    ensures NoFeeds(WithLineEnd(s, "\r"))
  {
    if s != "" {
      NoFeedIsLeft(s[1..]);
    }
  }

  lemma {:induction false} NormalizeCr(s: string)
    requires NoReturns(s)
    ensures Normalize(WithLineEnd(s, "\r")) == s
  {
    if s != "" {
      var rest := WithLineEnd(s[1..], "\r");
      NormalizeCr(s[1..]);
      NoFeedIsLeft(s[1..]);
      if s[0] == '\n' {
        assert ("\r" + rest)[1..] == rest;
      } else {
        assert ([s[0]] + rest)[1..] == rest;
      }
      assert s == [s[0]] + s[1..];
    }
  }

  /** A document reads the same with line feeds, with carriage returns and line feeds, and with carriage returns. */
  lemma LineEndsMakeNoDifference(s: string)
    requires NoReturns(s)
    ensures Parse(WithLineEnd(s, "\r\n")) == Parse(s) && Parse(WithLineEnd(s, "\r")) == Parse(s)
  {
    NormalizeCrLf(s);
    NormalizeCr(s);
    NormalizeKeeps(s);
  }

  /** A printed list of cues that comes back is read the same after its line ends were changed. */
  lemma PrintedWithOtherLineEnds(cues: seq<Cue>)
    requires AllPlain(cues)
    ensures Parse(WithLineEnd(Print(cues), "\r\n")) == AllKept(cues)
    ensures Parse(WithLineEnd(Print(cues), "\r")) == AllKept(cues)
  {
    PrintedIsReadBack(cues);
    PrintHasNoReturns(cues, 1);
    NoReturnsConcat(HEADER + "\n\n", PrintFrom(cues, 1));
    LineEndsMakeNoDifference(Print(cues));
  }

  /* ---- The line of the times ---- */

  predicate AllWhite(s: string) {
    forall i :: 0 <= i < |s| ==> IsWhite(s[i])
  }

  /** White space is that of Unicode, no-break and ideographic spaces among it, but not the zero-width one. */
  lemma UnicodeSpaces()
    ensures AllWhite(" \t\n\r\U{000B}\U{000C}\U{0085}\U{00A0}\U{1680}\U{2003}\U{2028}\U{2029}\U{202F}\U{205F}\U{3000}")
    ensures !IsWhite('\U{200B}') && !IsWhite('\U{FEFF}') && !IsWhite('0') && !IsWhite('-')
  {
  }

  lemma {:induction false} WhiteIsSkipped(white: string, s: string)
    requires AllWhite(white) && (s != "" ==> !IsWhite(s[0]))
    ensures TrimStart(white + s) == s
  {
    if white == "" {
      assert white + s == s;
    } else {
      assert (white + s)[1..] == white[1..] + s;
      WhiteIsSkipped(white[1..], s);
    }
  }

  lemma TimeStarts(ms: nat, rest: string)
    requires ms < HUNDRED_HOURS
    ensures var s := FormatTime(ms) + rest;
            s != "" && !IsWhite(s[0]) && StartsWithTime(s) && TimeAtStart(s) == ms && s[12..] == rest
  {
    FormatTimeIsOneLine(ms);
    TimeIsRead(ms, rest);
  }

  lemma ArrowStarts(rest: string)
    ensures var s := ARROW + rest; s[0] == '-' && !IsWhite(s[0]) && ARROW <= s && s[3..] == rest
  {
  }

  /** Any white space may stand around the times and the arrow, and anything behind, such as settings of the cue. */
  lemma SettingsAreIgnored(first: nat, second: nat, w0: string, w1: string, w2: string, settings: string)
    requires first < HUNDRED_HOURS && second < HUNDRED_HOURS && AllWhite(w0) && AllWhite(w1) && AllWhite(w2)
    ensures MatchCueLine(w0 + (FormatTime(first) + (w1 + (ARROW + (w2 + (FormatTime(second) + settings)))))) ==
            Some((first, second))
  {
    var end := FormatTime(second) + settings;
    var arrow := ARROW + (w2 + end);
    TimeStarts(second, settings);
    WhiteIsSkipped(w2, end);
    ArrowStarts(w2 + end);
    WhiteIsSkipped(w1, arrow);
    TimeStarts(first, w1 + arrow);
    WhiteIsSkipped(w0, FormatTime(first) + (w1 + arrow));
  }

  /** Two digits of another script, whose zero is given. */
  predicate OfScript(s: string, zero: int) {
    |s| == 2 && IsOtherZero(zero) && zero <= s[0] as int < zero + 10 && zero <= s[1] as int < zero + 10
  }

  /** Arabic, Persian, Devanagari and full-width digits are among them. */
  lemma OtherScripts()
    ensures IsOtherZero(0x660) && IsOtherZero(0x6F0) && IsOtherZero(0x966) && IsOtherZero(0xFF10)
    ensures forall zero :: IsOtherZero(zero) ==> zero > 1000
  {
  }

  /** Digits of another script are taken for digits, but their number counts as nothing. */
  lemma OtherDigitsCountAsZero(hours: string, zero: int, m: string, s: string, ms: string, rest: string)
    requires OfScript(hours, zero) && |m| == 2 && |s| == 2 && |ms| == 3
    requires AllDigits(m) && AllDigits(s) && AllDigits(ms)
    ensures var line := hours + ":" + m + ":" + s + "." + ms + rest;
            && StartsWithTime(line)
            && TimeAtStart(line) == Decimal.Value(DigitsOf(m)) * 60000 + Decimal.Value(DigitsOf(s)) * 1000 +
                                    Decimal.Value(DigitsOf(ms))
  {
    OtherScripts();
    var line := hours + ":" + m + ":" + s + "." + ms + rest;
    assert line[0..2] == hours && line[3..5] == m && line[6..8] == s && line[9..12] == ms;
    assert !Decimal.IsDigit(hours[0] as int);
    assert IsDecimal(hours[0]) && IsDecimal(hours[1]);
  }

  /* ---- SubRip ---- */

  lemma {:induction false} DigitsAreSkipped(number: string, s: string)
    requires AllDigits(number) && s != "" && IsWhite(s[0])
    ensures SkipDigits(number + s) == s
  {
    if number == "" {
      assert number + s == s;
    } else {
      assert (number + s)[1..] == number[1..] + s;
      DigitsAreSkipped(number[1..], s);
    }
  }

  /** A time as SubRip writes it. */
  function CommaTime(ms: nat): string
    requires ms < HUNDRED_HOURS
  {
    TimeIsRead(ms, "");
    FormatTime(ms)[8 := ',']
  }

  /** With its comma replaced it is a time of WebVTT. */
  lemma CommaTimeIsTime(ms: nat, rest: string)
    requires ms < HUNDRED_HOURS
    ensures var time := CommaTime(ms) + rest;
            |time| >= 12 && time[8] == ',' && !IsWhite(time[0]) && StartsWithTime(time[8 := '.'])
    ensures |CommaTime(ms)| == 12 && !IsWhite(CommaTime(ms)[11])
  {
    FormatTimeIsOneLine(ms);
    TimeIsRead(ms, "");
    TimeStarts(ms, rest);
    assert FormatTime(ms) + "" == FormatTime(ms);
    CommaAndBack(FormatTime(ms), rest);
  }

  lemma CommaAndBack(time: string, rest: string)
    requires |time| == 12 && time[8] == '.'
    ensures var comma := time[8 := ','];
            && (comma + rest)[8] == ',' && (comma + rest)[0] == time[0] && comma[11] == time[11]
            && (comma + rest)[8 := '.'] == time + rest
  {
  }

  lemma LikeSrt(number: string, gap: string, time: string)
    requires number != "" && AllDigits(number) && AllWhite(gap) && gap != "" && gap[|gap| - 1] == '\n'
    requires |time| >= 12 && time[8] == ',' && !IsWhite(time[0]) && StartsWithTime(time[8 := '.'])
    ensures StartsLikeSrt(number + (gap + time))
  {
    DigitsAreSkipped(number, gap + time);
    WhiteIsSkipped(gap, time);
  }

  /** What begins like a SubRip cue and mentions no script is recognised as SubRip. */
  lemma SrtIsDetected(number: string, gap: string, ms: nat, rest: string)
    requires number != "" && AllDigits(number) && AllWhite(gap) && gap != "" && gap[|gap| - 1] == '\n'
    requires ms < HUNDRED_HOURS
    requires var s := Trim(number + (gap + (CommaTime(ms) + rest)));
             !Contains(s, "[Script Info]") && !Contains(s, "ScriptType:")
    ensures DetectFormat(number + (gap + (CommaTime(ms) + rest))) == Srt
  {
    CommaTimeIsTime(ms, rest);
    EndsOfFront(number, gap, CommaTime(ms));
    var left := TrimmedFront(number + gap + CommaTime(ms), rest);
    Regrouped(number, gap, CommaTime(ms), rest);
    Regrouped(number, gap, CommaTime(ms), left);
    CommaTimeIsTime(ms, left);
    LikeSrt(number, gap, CommaTime(ms) + left);
    NotVtt(number, gap + (CommaTime(ms) + left));
  }

  lemma EndsOfFront(number: string, gap: string, time: string)
    requires number != "" && AllDigits(number) && time != "" && !IsWhite(time[|time| - 1])
    ensures var front := number + gap + time; !IsWhite(front[0]) && !IsWhite(front[|front| - 1])
  {
    assert (number + gap + time)[0] == number[0];
  }

  lemma Regrouped(a: string, b: string, c: string, d: string)
    ensures a + (b + (c + d)) == a + b + c + d
  {
  }

  lemma NotVtt(number: string, rest: string)
    requires number != "" && AllDigits(number)
    ensures !(HEADER <= number + rest)
  {
    assert (number + rest)[0] == number[0];
  }

  /** Trimming takes nothing off a front without white space at its ends. */
  lemma TrimmedFront(front: string, rest: string) returns (left: string)
    requires front != "" && !IsWhite(front[0]) && !IsWhite(front[|front| - 1])
    ensures Trim(front + rest) == front + left
  {
    TrimEndKeeps(front + rest, |front|);
    assert (front + rest)[..|front|] == front;
    left := Trim(front + rest)[|front|..];
  }

  /* ---- The lines of a cue ---- */

  predicate AreLines(lines: seq<string>) {
    forall i :: 0 <= i < |lines| ==> NoFeeds(lines[i])
  }

  lemma {:induction false} LinesOfJoin(lines: seq<string>)
    requires AreLines(lines) && (lines != [] ==> lines[|lines| - 1] != "")
    ensures Lines(Join(lines)) == lines
  {
    if |lines| == 1 {
      OnlyLine(lines[0]);
    } else if |lines| > 1 {
      LinesOfJoin(lines[1..]);
      FirstLine(lines[0], Join(lines[1..]));
      assert lines == [lines[0]] + lines[1..];
    }
  }

  lemma {:induction false} FirstArrow(head: seq<string>, line: string, text: seq<string>)
    requires forall i :: 0 <= i < |head| ==> !Contains(head[i], ARROW)
    requires Contains(line, ARROW)
    ensures ArrowLine(head + ([line] + text)) == Some(|head|)
  {
    var lines := head + ([line] + text);
    if head == [] {
      assert lines == [line] + text;
    } else {
      assert lines[0] == head[0] && lines[1..] == head[1..] + ([line] + text);
      FirstArrow(head[1..], line, text);
    }
  }

  /**
    A cue is its first line with an arrow, whatever stands before it in the block, and the lines
    behind as they are; a block whose first arrow stands between no two times is no cue.
  */
  lemma CueOfLines(head: seq<string>, line: string, text: seq<string>)
    requires AreLines(head + ([line] + text)) && (text != [] ==> text[|text| - 1] != "")
    requires (forall i :: 0 <= i < |head| ==> !Contains(head[i], ARROW)) && Contains(line, ARROW)
    ensures ParseBlock(Join(head + ([line] + text))) ==
            match MatchCueLine(line)
            case None => None
            case Some((start, end)) => Some(Cue(start, end, Trim(Join(text)), None))
  {
    var lines := head + ([line] + text);
    NotEmpty(line);
    assert lines[|lines| - 1] == if text == [] then line else text[|text| - 1];
    LinesOfJoin(lines);
    FirstArrow(head, line, text);
    Behind(head, line, text);
    CueAt(Join(lines), lines, |head|);
  }

  lemma NotEmpty(line: string)
    requires Contains(line, ARROW)
    ensures line != ""
  {
  }

  lemma Behind(head: seq<string>, line: string, text: seq<string>)
    ensures var lines := head + ([line] + text); lines[|head|] == line && lines[|head| + 1..] == text
  {
  }

  lemma CueAt(block: string, lines: seq<string>, i: nat)
    requires Lines(block) == lines && ArrowLine(lines) == Some(i) && i < |lines|
    ensures ParseBlock(block) ==
            match MatchCueLine(lines[i])
            case None => None
            case Some((start, end)) => Some(Cue(start, end, Trim(Join(lines[i + 1..])), None))
  {
  }

  /* ---- What is printed ---- */

  lemma {:induction false} NoLeadingZero(n: nat)
    requires n > 0
    ensures Decimal.Digits(n)[0] > 0
  {
    if n >= 10 {
      NoLeadingZero(n / 10);
    }
  }

  /** The numeral of a number: its digits, without a zero in front. */
  predicate IsNumeral(s: string, n: nat) {
    s != "" && AllDigits(s) && Decimal.Value(DigitsOf(s)) == n && (n > 0 ==> s[0] != '0')
  }

  lemma NumberIsNumeral(n: nat)
    ensures IsNumeral(NumberText(n), n)
  {
    var digits := Decimal.Digits(n);
    Decimal.DigitsValue(n);
    DigitTextValue(digits);
    if n > 0 {
      NoLeadingZero(n);
    }
  }

  /** Every cue has some text to show. */
  predicate NoneEmpty(cues: seq<Cue>) {
    forall i :: 0 <= i < |cues| ==> Styled(cues[i]) != ""
  }

  /** The blocks of printed cues, and the empty one behind the last. */
  function PrintedAs(cues: seq<Cue>, n: nat, block: (Cue, nat) -> string): seq<string> {
    Numbered(cues, n, block) + [""]
  }

  lemma {:induction false} PrintedCuesAreBlocks(cues: seq<Cue>, n: nat, block: (Cue, nat) -> string)
    requires AllPlain(cues) && NoneEmpty(cues) && forall cue, k :: block(cue, k) == BlockOf("", cue, k)
    ensures Blocks(PrintFrom(cues, n)) == PrintedAs(cues, n, block)
    decreases cues
  {
    if cues != [] {
      FirstPrintedBlock(cues, n);
      PrintedCuesAreBlocks(cues[1..], n + 1, block);
      Assoc([block(cues[0], n)], Numbered(cues[1..], n + 1, block), [""]);
    }
  }

  lemma FirstPrintedBlock(cues: seq<Cue>, n: nat)
    requires cues != [] && Plain(Styled(cues[0])) && Styled(cues[0]) != ""
    ensures Blocks(PrintFrom(cues, n)) == [BlockOf("", cues[0], n)] + Blocks(PrintFrom(cues[1..], n + 1))
  {
    var rest := PrintFrom(cues[1..], n + 1);
    FirstCueIsBlock("", cues[0], n, rest);
    EmptyInFront(PrintCue(cues[0], n) + rest);
    EmptyInFront(rest);
  }

  lemma EmptyInFront(s: string)
    ensures "" + s == s
  {
  }

  /** The lines of a block are a numeral, the times of the cue, and its text as styled. */
  predicate Shows(block: string, cue: Cue, k: nat) {
    var lines := Lines(block);
    && |lines| >= 2 && IsNumeral(lines[0], k)
    && lines[1] == FormatTime(cue.startMs) + " --> " + FormatTime(cue.endMs)
    && Join(lines[2..]) == ApplyStyle(cue.text, cue.style)
  }

  /**
    Behind the header, the k-th block that is printed shows the numeral of k, the times of the
    k-th cue, and its styled text.
  */
  lemma PrintedBlockShows(cues: seq<Cue>, k: nat)
    requires AllPlain(cues) && NoneEmpty(cues) && 1 <= k <= |cues|
    ensures |Blocks(Print(cues))| == |cues| + 2
    ensures Shows(Blocks(Print(cues))[k], cues[k - 1], k)
  {
    PrintedBlocks(cues);
    PrintedBlockAt(cues, k);
    BlockShows(cues[k - 1], k);
  }

  lemma PrintedBlockAt(cues: seq<Cue>, k: nat)
    requires AllPlain(cues) && NoneEmpty(cues) && 1 <= k <= |cues|
    ensures var blocks := Blocks(PrintFrom(cues, 1));
            |blocks| == |cues| + 1 && blocks[k - 1] == BlockOf("", cues[k - 1], k)
  {
    var block := (cue: Cue, i: nat) => BlockOf("", cue, i);
    PrintedCuesAreBlocks(cues, 1, block);
    AtNumber(Blocks(PrintFrom(cues, 1)), cues, k, block);
  }

  lemma AtNumber(blocks: seq<string>, cues: seq<Cue>, k: nat, block: (Cue, nat) -> string)
    requires blocks == PrintedAs(cues, 1, block) && 1 <= k <= |cues|
    ensures |blocks| == |cues| + 1 && blocks[k - 1] == block(cues[k - 1], k)
  {
    NumberedBefore(cues, 1, block, "", k - 1);
  }

  lemma BlockShows(cue: Cue, k: nat)
    requires Plain(Styled(cue))
    ensures Shows(BlockOf("", cue, k), cue, k)
  {
    LinesOfBlock("", cue, k);
    NumberIsNumeral(k);
    JoinLines(Styled(cue));
    TwoInFront(NumberText(k), CueLine(cue), Lines(Styled(cue)));
  }

  lemma TwoInFront(a: string, b: string, rest: seq<string>)
    ensures var lines := [a, b] + rest; |lines| >= 2 && lines[0] == a && lines[1] == b && lines[2..] == rest
  {
  }

  function Tag(on: bool, tag: string): string {
    if on then tag else ""
  }

  /** A colour is given without the hashes in front of it. */
  ghost predicate WithoutHashes(color: string, name: string) {
    exists n :: 0 <= n <= |color| && name == color[n..] && (forall i :: 0 <= i < n ==> color[i] == '#')
                && (n < |color| ==> color[n] != '#')
  }

  lemma {:induction false} HashesAreTrimmed(color: string)
    ensures WithoutHashes(color, TrimHashes(color))
  {
    if color != "" && color[0] == '#' {
      HashesAreTrimmed(color[1..]);
      var n :| 0 <= n <= |color[1..]| && TrimHashes(color[1..]) == color[1..][n..]
               && (forall i :: 0 <= i < n ==> color[1..][i] == '#') && (n < |color[1..]| ==> color[1..][n] != '#');
      assert color[n + 1..] == color[1..][n..];
      forall i | 0 <= i < n + 1
        ensures color[i] == '#'
      {
        if i > 0 {
          assert color[1..][i - 1] == '#';
        }
      }
      assert n + 1 < |color| ==> color[n + 1] == color[1..][n];
    } else {
      assert color[0..] == color;
    }
  }

  /** Bold stands inside italic, italic inside underline, and all of it inside the colour. */
  lemma StyleWraps(text: string, s: CueStyle)
    ensures s.color.None? ==>
              ApplyStyle(text, Some(s)) ==
              (Tag(s.underline, "<u>") + Tag(s.italic, "<i>") + Tag(s.bold, "<b>")) + text +
              (Tag(s.bold, "</b>") + Tag(s.italic, "</i>") + Tag(s.underline, "</u>"))
    ensures s.color.Some? ==>
              exists name :: WithoutHashes(s.color.value, name) &&
                ApplyStyle(text, Some(s)) == "<c." + name + ">" + ApplyStyle(text, Some(s.(color := None))) + "</c>"
    ensures ApplyStyle(text, None) == text
  {
    if s.color.Some? {
      HashesAreTrimmed(s.color.value);
    }
  }
}
