/** WebVTT as enginefs/src/subtitles.rs prints and reads it. */
module Subtitles {
  import opened Wrappers
  import opened Sequences
  import Decimal

  datatype CueStyle = CueStyle(color: Option<string>, bold: bool, italic: bool, underline: bool)

  datatype Cue = Cue(startMs: nat, endMs: nat, text: string, style: Option<CueStyle>)

  datatype SubFormat = Srt | Ass | Vtt | Unknown

  const HEADER: string := "WEBVTT"
  const ARROW: string := "-->"

  /* ---- Characters and pieces of text ---- */

  /** White space as Unicode has it. */
  predicate IsWhite(c: char) {
    var n := c as int;
    || 0x9 <= n <= 0xD || n == 0x20 || n == 0x85 || n == 0xA0 || n == 0x1680
    || 0x2000 <= n <= 0x200A || n == 0x2028 || n == 0x2029 || n == 0x202F || n == 0x205F || n == 0x3000
  }

  /** The zeros of the decimal digits of Unicode 16 other than ASCII; nine more digits follow each. */
  predicate IsOtherZero(n: int) {
    || n == 0x660 || n == 0x6F0 || n == 0x7C0 || n == 0x966 || n == 0x9E6 || n == 0xA66 || n == 0xAE6
    || n == 0xB66 || n == 0xBE6 || n == 0xC66 || n == 0xCE6 || n == 0xD66 || n == 0xDE6 || n == 0xE50
    || n == 0xED0 || n == 0xF20 || n == 0x1040 || n == 0x1090 || n == 0x17E0 || n == 0x1810 || n == 0x1946
    || n == 0x19D0 || n == 0x1A80 || n == 0x1A90 || n == 0x1B50 || n == 0x1BB0 || n == 0x1C40 || n == 0x1C50
    || n == 0xA620 || n == 0xA8D0 || n == 0xA900 || n == 0xA9D0 || n == 0xA9F0 || n == 0xAA50 || n == 0xABF0
    || n == 0xFF10 || n == 0x104A0 || n == 0x10D30 || n == 0x10D40 || n == 0x11066 || n == 0x110F0
    || n == 0x11136 || n == 0x111D0 || n == 0x112F0 || n == 0x11450 || n == 0x114D0 || n == 0x11650
    || n == 0x116C0 || n == 0x116D0 || n == 0x116DA || n == 0x11730 || n == 0x118E0 || n == 0x11950
    || n == 0x11BF0 || n == 0x11C50 || n == 0x11D50 || n == 0x11DA0 || n == 0x11F50 || n == 0x16130
    || n == 0x16A60 || n == 0x16AC0 || n == 0x16B50 || n == 0x16D70 || n == 0x1CCF0 || n == 0x1D7CE
    || n == 0x1D7D8 || n == 0x1D7E2 || n == 0x1D7EC || n == 0x1D7F6 || n == 0x1E140 || n == 0x1E2F0
    || n == 0x1E4F0 || n == 0x1E5F1 || n == 0x1E950 || n == 0x1FBF0
  }

  /** A decimal digit as the patterns take it. */
  predicate IsDecimal(c: char) {
    Decimal.IsDigit(c as int) || exists zero :: c as int - 10 < zero <= c as int && IsOtherZero(zero)
  }

  predicate AllDecimals(s: string) {
    forall i :: 0 <= i < |s| ==> IsDecimal(s[i])
  }

  predicate AllDigits(s: string) {
    forall i :: 0 <= i < |s| ==> Decimal.IsDigit(s[i] as int)
  }

  function DigitChar(d: nat): (c: char)
    requires d < 10
    ensures Decimal.IsDigit(c as int) && c as int == '0' as int + d
  {
    ('0' as int + d) as char
  }

  function DigitText(digits: seq<nat>): (s: string)
    requires forall i :: 0 <= i < |digits| ==> digits[i] < 10
    ensures |s| == |digits| && AllDigits(s)
    ensures forall i :: 0 <= i < |digits| ==> s[i] == DigitChar(digits[i])
  {
    seq(|digits|, i requires 0 <= i < |digits| => DigitChar(digits[i]))
  }

  function DigitsOf(s: string): (r: seq<nat>)
    requires AllDigits(s)
    ensures |r| == |s| && forall i :: 0 <= i < |s| ==> s[i] as int == '0' as int + r[i]
  {
    seq(|s|, i requires 0 <= i < |s| => s[i] as int - '0' as int)
  }

  predicate Contains(s: string, part: string) {
    exists i :: 0 <= i <= |s| && OccursAt(s, part, i)
  }

  function TrimStart(s: string): string {
    if s != "" && IsWhite(s[0]) then TrimStart(s[1..]) else s
  }

  function TrimEnd(s: string): string {
    if s != "" && IsWhite(s[|s| - 1]) then TrimEnd(s[..|s| - 1]) else s
  }

  function Trim(s: string): string {
    TrimEnd(TrimStart(s))
  }

  /** Every line end as a line feed. */
  function Normalize(s: string): string {
    if s == "" then ""
    else if s[0] != '\r' then [s[0]] + Normalize(s[1..])
    else if |s| > 1 && s[1] == '\n' then "\n" + Normalize(s[2..])
    else "\n" + Normalize(s[1..])
  }

  /** The stretches between empty lines. */
  function Blocks(s: string): (r: seq<string>)
    ensures |r| > 0
  {
    if |s| < 2 then [s]
    else if s[0] == '\n' && s[1] == '\n' then [""] + Blocks(s[2..])
    else
      var rest := Blocks(s[1..]);
      [[s[0]] + rest[0]] + rest[1..]
  }

  /** The lines of a text without carriage returns; nothing follows the last line feed. */
  function Lines(s: string): seq<string> {
    if s == "" then []
    else if s[0] == '\n' then [""] + Lines(s[1..])
    else
      var rest := Lines(s[1..]);
      if rest == [] then [s] else [[s[0]] + rest[0]] + rest[1..]
  }

  function Join(lines: seq<string>): string {
    if lines == [] then ""
    else if |lines| == 1 then lines[0]
    else lines[0] + "\n" + Join(lines[1..])
  }

  /* ---- Times ---- */

  function FormatTime(ms: nat): string {
    DigitText(Decimal.Padded(ms / 3600000, 2)) + ":" +
    DigitText(Decimal.Padded(ms % 3600000 / 60000, 2)) + ":" +
    DigitText(Decimal.Padded(ms % 60000 / 1000, 2)) + "." +
    DigitText(Decimal.Padded(ms % 1000, 3))
  }

  /** A number in ASCII digits, or 0 for what is none. */
  function ParseNumber(s: string): nat {
    if s != "" && AllDigits(s) then Decimal.Value(DigitsOf(s)) else 0
  }

  function ParseTimeComponents(hours: string, mins: string, secs: string, millis: string): nat {
    ParseNumber(hours) * 3600000 + ParseNumber(mins) * 60000 + ParseNumber(secs) * 1000 + ParseNumber(millis)
  }

  /** A time of two, two, two and three digits at the start of a text. */
  predicate StartsWithTime(s: string) {
    && |s| >= 12
    && AllDecimals(s[0..2]) && s[2] == ':' && AllDecimals(s[3..5]) && s[5] == ':' && AllDecimals(s[6..8])
    && s[8] == '.' && AllDecimals(s[9..12])
  }

  function TimeAtStart(s: string): nat
    requires StartsWithTime(s)
  {
    ParseTimeComponents(s[0..2], s[3..5], s[6..8], s[9..12])
  }

  /** The times of a line "start --> end"; what follows them does not matter. */
  function MatchCueLine(line: string): Option<(nat, nat)> {
    var first := TrimStart(line);
    if !StartsWithTime(first) then None
    else
      var arrow := TrimStart(first[12..]);
      if !(ARROW <= arrow) then None
      else
        var second := TrimStart(arrow[3..]);
        if !StartsWithTime(second) then None else Some((TimeAtStart(first), TimeAtStart(second)))
  }

  /* ---- Printing ---- */

  function TrimHashes(s: string): string {
    if s != "" && s[0] == '#' then TrimHashes(s[1..]) else s
  }

  function ApplyStyle(text: string, style: Option<CueStyle>): string {
    if style.None? then text
    else
      var s := style.value;
      var bold := if s.bold then "<b>" + text + "</b>" else text;
      var italic := if s.italic then "<i>" + bold + "</i>" else bold;
      var underline := if s.underline then "<u>" + italic + "</u>" else italic;
      if s.color.Some? then "<c." + TrimHashes(s.color.value) + ">" + underline + "</c>" else underline
  }

  function NumberText(n: nat): string {
    DigitText(Decimal.Digits(n))
  }

  function CueLine(cue: Cue): string {
    FormatTime(cue.startMs) + " --> " + FormatTime(cue.endMs)
  }

  function PrintCue(cue: Cue, n: nat): string {
    NumberText(n) + "\n" + CueLine(cue) + "\n" + ApplyStyle(cue.text, cue.style) + "\n\n"
  }

  /** The cues numbered from `n`. */
  function PrintFrom(cues: seq<Cue>, n: nat): string {
    if cues == [] then "" else PrintCue(cues[0], n) + PrintFrom(cues[1..], n + 1)
  }

  function Print(cues: seq<Cue>): string {
    HEADER + "\n\n" + PrintFrom(cues, 1)
  }

  /** Adds the number, the times and the text of a cue to the output. */
  method PushCue(before: string, cue: Cue, n: nat) returns (output: string)
    ensures output == before + PrintCue(cue, n)
  {
    output := before + (NumberText(n) + "\n");
    output := output + (CueLine(cue) + "\n");
    var styled := ApplyStyle(cue.text, cue.style);
    output := output + styled;
    output := output + "\n\n";
    Regroup(before, NumberText(n), CueLine(cue), styled);
  }

  lemma Regroup(a: string, b: string, c: string, d: string)
    ensures a + (b + "\n") + (c + "\n") + d + "\n\n" == a + (b + "\n" + c + "\n" + d + "\n\n")
  {
  }

  method ToVtt(cues: seq<Cue>) returns (output: string)
    ensures output == Print(cues)
  {
    output := "WEBVTT\n\n";
    assert cues[0..] == cues;
    for i := 0 to |cues|
      invariant output + PrintFrom(cues[i..], i + 1) == Print(cues)
    {
      PrintOneMore(output, cues, i);
      output := PushCue(output, cues[i], i + 1);
    }
    NothingToPrint(cues, output);
  }

  lemma PrintOneMore(output: string, cues: seq<Cue>, i: nat)
    requires i < |cues|
    ensures output + PrintFrom(cues[i..], i + 1) ==
            (output + PrintCue(cues[i], i + 1)) + PrintFrom(cues[i + 1..], i + 2)
  {
    assert cues[i..][1..] == cues[i + 1..];
    Assoc(output, PrintCue(cues[i], i + 1), PrintFrom(cues[i + 1..], i + 2));
  }

  lemma NothingToPrint(cues: seq<Cue>, output: string)
    ensures output + PrintFrom(cues[|cues|..], |cues| + 1) == output
  {
  }

  /* ---- Reading ---- */

  function DetectFormat(content: string): SubFormat {
    var trimmed := Trim(content);
    if HEADER <= trimmed then Vtt
    else if Contains(trimmed, "[Script Info]") || Contains(trimmed, "ScriptType:") then Ass
    else if StartsLikeSrt(trimmed) then Srt
    else Unknown
  }

  function SkipDigits(s: string): string {
    if s != "" && IsDecimal(s[0]) then SkipDigits(s[1..]) else s
  }

  /** A number, white space that ends in a line feed, and a time with a comma. */
  predicate StartsLikeSrt(s: string) {
    var gap := SkipDigits(s);
    var time := TrimStart(gap);
    && |gap| < |s| && |time| < |gap| && gap[|gap| - |time| - 1] == '\n'
    && |time| >= 12 && time[8] == ',' && StartsWithTime(time[8 := '.'])
  }

  /** The first line with an arrow. */
  function ArrowLine(lines: seq<string>): (r: Option<nat>)
    ensures r.Some? ==> r.value < |lines|
  {
    if lines == [] then None
    else if Contains(lines[0], ARROW) then Some(0)
    else
      match ArrowLine(lines[1..])
      case None => None
      case Some(i) => Some(i + 1)
  }

  function ParseBlock(block: string): Option<Cue> {
    var lines := Lines(block);
    var i := ArrowLine(lines);
    if i.None? then None
    else
      match MatchCueLine(lines[i.value])
      case None => None
      case Some((start, end)) => Some(Cue(start, end, Trim(Join(lines[i.value + 1..])), None))
  }

  function ParseBlocks(blocks: seq<string>): seq<Cue> {
    if blocks == [] then []
    else
      var cue := ParseBlock(blocks[0]);
      (if cue.Some? then [cue.value] else []) + ParseBlocks(blocks[1..])
  }

  function Parse(content: string): seq<Cue> {
    ParseBlocks(Blocks(Normalize(content)))
  }

  method ParseVtt(content: string) returns (cues: seq<Cue>)
    ensures cues == Parse(content)
  {
    cues := [];
    var blocks := Blocks(Normalize(content));
    assert blocks[0..] == blocks;
    for i := 0 to |blocks|
      invariant cues + ParseBlocks(blocks[i..]) == Parse(content)
    {
      ParseOneMore(cues, blocks, i);
      var cue := ParseBlock(blocks[i]);
      if cue.Some? {
        cues := cues + [cue.value];
      }
    }
    assert cues + ParseBlocks(blocks[|blocks|..]) == cues;
  }

  lemma ParseOneMore(cues: seq<Cue>, blocks: seq<string>, i: nat)
    requires i < |blocks|
    ensures var cue := ParseBlock(blocks[i]);
            cues + ParseBlocks(blocks[i..]) ==
            (if cue.Some? then cues + [cue.value] else cues) + ParseBlocks(blocks[i + 1..])
  {
    var cue, rest := ParseBlock(blocks[i]), ParseBlocks(blocks[i + 1..]);
    assert blocks[i..][1..] == blocks[i + 1..];
    if cue.Some? {
      assert ParseBlocks(blocks[i..]) == [cue.value] + rest;
      Assoc(cues, [cue.value], rest);
    } else {
      assert ParseBlocks(blocks[i..]) == [] + rest == rest;
    }
  }
}
