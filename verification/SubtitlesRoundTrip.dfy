/** Which lists of cues survive printing and reading unchanged. */
module SubtitlesRoundTrip {
  import opened Wrappers
  import opened Subtitles
  import opened SubtitlesProofs

  /* ---- Blocks of a text without carriage returns ---- */

  /** A stretch that may stand between two empty lines. */
  predicate OneBlock(s: string) {
    NoReturns(s) && NoBlankLine(s)
  }

  lemma {:induction false} NormalizedHasNoReturns(s: string)
    ensures NoReturns(Normalize(s))
    decreases |s|
  {
    if s != "" {
      if s[0] == '\r' && |s| > 1 && s[1] == '\n' {
        NormalizedHasNoReturns(s[2..]);
      } else {
        NormalizedHasNoReturns(s[1..]);
      }
    }
  }

  lemma {:induction false} FirstBlockStarts(s: string)
    ensures Blocks(s)[0] <= s
  {
    if |s| >= 2 && !(s[0] == '\n' && s[1] == '\n') {
      FirstBlockStarts(s[1..]);
      assert s == [s[0]] + s[1..];
    }
  }

  lemma LongerBlock(s: string)
    requires |s| >= 2 && !(s[0] == '\n' && s[1] == '\n') && NoReturns(s) && OneBlock(Blocks(s[1..])[0])
    ensures OneBlock([s[0]] + Blocks(s[1..])[0])
  {
    FirstBlockStarts(s[1..]);
    NoBlankConcat([s[0]], Blocks(s[1..])[0]);
  }

  lemma {:induction false} BlocksAreBlocks(s: string)
    requires NoReturns(s)
    ensures forall i :: 0 <= i < |Blocks(s)| ==> OneBlock(Blocks(s)[i])
    decreases |s|
  {
    if |s| >= 2 {
      if s[0] == '\n' && s[1] == '\n' {
        BlocksAreBlocks(s[2..]);
      } else {
        BlocksAreBlocks(s[1..]);
        LongerBlock(s);
      }
    }
  }

  /* ---- The text of a cue stands in its block ---- */

  lemma PartOfBlock(s: string, i: nat, j: nat)
    requires OneBlock(s) && i <= j <= |s|
    ensures OneBlock(s[i..j])
  {
  }

  /** The last lines of a text are the lines of its end. */
  lemma {:induction false} LastLines(s: string, k: nat) returns (i: nat)
    requires k <= |Lines(s)|
    ensures i <= |s| && Lines(s)[k..] == Lines(s[i..])
  {
    if k == 0 {
      i := 0;
      assert s[0..] == s;
    } else if s[0] == '\n' {
      i := LastLines(s[1..], k - 1);
      assert s[1..][i..] == s[1 + i..];
      i := i + 1;
    } else if Lines(s[1..]) == [] {
      i := |s|;
    } else {
      i := LastLines(s[1..], k);
      assert s[1..][i..] == s[1 + i..];
      i := i + 1;
    }
  }

  function WithoutLastFeed(s: string): string {
    if s != "" && s[|s| - 1] == '\n' then s[..|s| - 1] else s
  }

  lemma {:induction false} JoinAllLines(s: string)
    ensures Join(Lines(s)) == WithoutLastFeed(s)
  {
    if s != "" {
      var rest := Lines(s[1..]);
      JoinAllLines(s[1..]);
      if rest == [] {
        assert s == [s[0]];
      } else if s[0] == '\n' {
        assert ([""] + rest)[1..] == rest;
        assert "" + "\n" + WithoutLastFeed(s[1..]) == WithoutLastFeed(s);
      } else {
        JoinPrefix(s[0], rest);
        assert [s[0]] + WithoutLastFeed(s[1..]) == WithoutLastFeed(s);
      }
    }
  }

  lemma {:induction false} TrimStartIsPart(s: string) returns (i: nat)
    ensures i <= |s| && TrimStart(s) == s[i..] && (i < |s| ==> !IsWhite(s[i]))
  {
    if s != "" && IsWhite(s[0]) {
      i := TrimStartIsPart(s[1..]);
      assert s[1..][i..] == s[1 + i..];
      i := i + 1;
    } else {
      i := 0;
    }
  }

  lemma {:induction false} TrimEndIsPart(s: string) returns (j: nat)
    ensures j <= |s| && TrimEnd(s) == s[..j] && (j > 0 ==> !IsWhite(s[j - 1]))
  {
    if s != "" && IsWhite(s[|s| - 1]) {
      j := TrimEndIsPart(s[..|s| - 1]);
      assert s[..|s| - 1][..j] == s[..j];
    } else {
      j := |s|;
    }
  }

  lemma TrimIsTrimmedPart(s: string)
    requires OneBlock(s)
    ensures OneBlock(Trim(s)) && Trimmed(Trim(s))
  {
    var i := TrimStartIsPart(s);
    var j := TrimEndIsPart(s[i..]);
    PartOfBlock(s, i, |s|);
    PartOfBlock(s[i..], 0, j);
    assert s[i..][0..j] == s[i..][..j];
  }

  lemma TextOfBlock(block: string, k: nat)
    requires OneBlock(block) && k <= |Lines(block)|
    ensures Plain(Trim(Join(Lines(block)[k..])))
  {
    var i := LastLines(block, k);
    JoinAllLines(block[i..]);
    PartOfBlock(block, i, |block|);
    var text := WithoutLastFeed(block[i..]);
    PartOfBlock(block[i..], 0, |text|);
    assert block[i..][0..|text|] == text;
    TrimIsTrimmedPart(text);
  }

  /* ---- What reading can give ---- */

  /** A cue as reading gives it. */
  predicate Readable(cue: Cue) {
    cue.style == None && Plain(cue.text)
  }

  lemma BlockGivesReadable(block: string)
    requires OneBlock(block) && ParseBlock(block).Some?
    ensures Readable(ParseBlock(block).value)
  {
    TextOfBlock(block, ArrowLine(Lines(block)).value + 1);
  }

  lemma {:induction false} BlocksGiveReadable(blocks: seq<string>)
    requires forall i :: 0 <= i < |blocks| ==> OneBlock(blocks[i])
    ensures forall i :: 0 <= i < |ParseBlocks(blocks)| ==> Readable(ParseBlocks(blocks)[i])
  {
    if blocks != [] {
      BlocksGiveReadable(blocks[1..]);
      if ParseBlock(blocks[0]).Some? {
        BlockGivesReadable(blocks[0]);
      }
    }
  }

  /** Whatever is read, from whatever text: every cue is unstyled and its text is plain. */
  lemma ReadCuesAreReadable(content: string)
    ensures forall i :: 0 <= i < |Parse(content)| ==> Readable(Parse(content)[i])
  {
    NormalizedHasNoReturns(content);
    BlocksAreBlocks(Normalize(content));
    BlocksGiveReadable(Blocks(Normalize(content)));
  }

  /**
    A list of cues comes back unchanged exactly if all of them are unstyled, their texts are
    trimmed and without blank lines and carriage returns, and their times below a hundred hours.
  */
  lemma RoundTripIff(cues: seq<Cue>)
    ensures Parse(Print(cues)) == cues <==> AllUnstyled(cues) && AllPlain(cues) && AllRepresentable(cues)
  {
    if Parse(Print(cues)) == cues {
      ReadCuesAreReadable(Print(cues));
      forall i | 0 <= i < |cues|
        ensures Styled(cues[i]) == cues[i].text && Readable(cues[i])
      {
      }
    }
    if AllUnstyled(cues) && AllPlain(cues) {
      PrintedIsReadBack(cues);
      KeptIff(cues);
    }
  }
}
