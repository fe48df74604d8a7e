/** Which bytes of a torrent file are hashed for its info hash. */
module InfoHash {
  import opened Wrappers
  import opened Machine
  import opened Sequences
  import opened Bencode
  import opened BencodeProofs
  import Decimal

  /* ---- The code ---- */

  /** The first window of the bytes that equals the pattern. */
  function FirstIndex(bytes: seq<Byte>, pattern: seq<Byte>): (r: Option<nat>)
    ensures r.Some? ==> OccursAt(bytes, pattern, r.value)
    ensures r.Some? ==> forall i: nat :: i < r.value ==> !OccursAt(bytes, pattern, i)
    ensures r.None? ==> forall i: nat :: !OccursAt(bytes, pattern, i)
  {
    FirstIndexFrom(bytes, pattern, 0)
  }

  function FirstIndexFrom(bytes: seq<Byte>, pattern: seq<Byte>, from: nat): (r: Option<nat>)
    ensures r.Some? ==> from <= r.value && OccursAt(bytes, pattern, r.value)
    ensures r.Some? ==> forall i: nat :: from <= i < r.value ==> !OccursAt(bytes, pattern, i)
    ensures r.None? ==> forall i: nat :: from <= i ==> !OccursAt(bytes, pattern, i)
    decreases |bytes| - from
  {
    if from + |pattern| > |bytes| then None
    else if OccursAt(bytes, pattern, from) then Some(from)
    else FirstIndexFrom(bytes, pattern, from + 1)
  }

  /** Where the raw info bytes were found and what they are; or not at all; or a word overflowed. */
  datatype Extract = Found(start: nat, raw: seq<Byte>) | NotFound | Aborted

  function ExtractInfo(bytes: seq<Byte>): Extract {
    match FirstIndex(bytes, INFO_PATTERN)
    case None => NotFound
    case Some(i) =>
      var start := i + |INFO_PATTERN|;
      match Parse(bytes[start..])
      case Malformed => NotFound
      case Overflow => Aborted
      case Parsed(_, len) => Found(start, bytes[start..start + len])
  }

  datatype TorrentError = InvalidBencode | RootNotADict | MissingInfo | NoInfoBytes | InfoNotADict

  datatype TorrentResult =
    | Torrent(infoHash: string, info: map<seq<Byte>, BValue>)
    | Refused(error: TorrentError)
    | TorrentAborted

  /** The checks of a torrent file in their order, and its info hash under a given digest. */
  function ParseTorrent(bytes: seq<Byte>, digest: seq<Byte> -> string): TorrentResult {
    match Parse(bytes)
    case Malformed => Refused(InvalidBencode)
    case Overflow => TorrentAborted
    case Parsed(root, _) =>
      if !root.Dict? then Refused(RootNotADict)
      else if INFO_KEY !in root.entries then Refused(MissingInfo)
      else
        match ExtractInfo(bytes)
        case NotFound => Refused(NoInfoBytes)
        case Aborted => TorrentAborted
        case Found(_, raw) =>
          var info := root.entries[INFO_KEY];
          if !info.Dict? then Refused(InfoNotADict) else Torrent(digest(raw), info.entries)
  }

  /* ---- The entry that is meant ---- */

  /** The entry at `k` is the one a lookup of "info" finds: no later entry has that key. */
  predicate IsInfoEntry(entries: seq<Entry>, k: nat) {
    k < |entries| && entries[k].key == INFO_KEY && forall j :: k < j < |entries| ==> entries[j].key != INFO_KEY
  }

  /** Where the value of the entry at `k` begins in the rendered dictionary. */
  function ValueStart(entries: seq<Entry>, k: nat): nat
    requires k < |entries|
  {
    1 + |RenderEntries(entries[..k])| + |RenderText(entries[k].length, entries[k].key)|
  }

  lemma {:induction false} RenderSplit(entries: seq<Entry>, k: nat)
    requires k < |entries|
    ensures RenderEntries(entries) ==
            RenderEntries(entries[..k]) + RenderEntry(entries[k]) + RenderEntries(entries[k + 1..])
  {
    if k > 0 {
      RenderSplit(entries[1..], k - 1);
      assert entries[1..][..k - 1] == entries[..k][1..] && entries[1..][k..] == entries[k + 1..];
      RegroupFour(RenderEntry(entries[0]), RenderEntries(entries[..k][1..]), RenderEntry(entries[k]),
                  RenderEntries(entries[k + 1..]));
    }
  }

  lemma RegroupFour(a: seq<Byte>, b: seq<Byte>, c: seq<Byte>, d: seq<Byte>)
    ensures a + (b + c + d) == a + b + c + d
  {
  }

  /** A length that means four, however it is spelled, ends in the digit 4. */
  lemma FourEndsInFour(length: seq<Byte>)
    requires GoodLength(length, INFO_KEY)
    ensures length[|length| - 1] == INFO_PATTERN[0]
  {
    var digits := DigitValues(length);
    assert Decimal.Value(digits) == 10 * Decimal.Value(digits[..|digits| - 1]) + digits[|digits| - 1];
  }

  lemma CutsApart(a: seq<Byte>, b: seq<Byte>, c: seq<Byte>, d: seq<Byte>)
    ensures (a + b + c + d)[|a| + |b|..] == c + d
    ensures (a + b + c + d)[|a| + |b|..][..|c|] == c
    ensures |b| >= 6 ==> (a + b + c + d)[|a| + |b| - 6..|a| + |b|] == b[|b| - 6..]
  {
    var all := a + b + c + d;
    assert all[|a| + |b|..] == c + d;
    if |b| >= 6 {
      assert all[|a| + |b| - 6..|a| + |b|] == b[|b| - 6..];
    }
  }

  lemma RegroupFile(mark: seq<Byte>, before: seq<Byte>, key: seq<Byte>, value: seq<Byte>, behind: seq<Byte>,
                    end: seq<Byte>, trailing: seq<Byte>)
    ensures mark + (before + (key + value) + behind) + end + trailing ==
            (mark + before) + key + value + (behind + end + trailing)
  {
  }

  lemma FileAroundEntry(entries: seq<Entry>, k: nat, trailing: seq<Byte>)
    requires k < |entries|
    ensures Render(Entries(entries)) + trailing ==
            ([D] + RenderEntries(entries[..k])) + RenderText(entries[k].length, entries[k].key) +
            Render(entries[k].value) + (RenderEntries(entries[k + 1..]) + [E] + trailing)
  {
    RenderSplit(entries, k);
    RegroupFile([D], RenderEntries(entries[..k]), RenderText(entries[k].length, entries[k].key),
                Render(entries[k].value), RenderEntries(entries[k + 1..]), [E], trailing);
  }

  lemma KeyEndsInPattern(length: seq<Byte>)
    requires GoodLength(length, INFO_KEY)
    ensures var key := RenderText(length, INFO_KEY); |key| >= 6 && key[|key| - 6..] == INFO_PATTERN
  {
    FourEndsInFour(length);
  }

  /** What surrounds the value of the entry at `k` in the file. */
  lemma AroundTheValue(entries: seq<Entry>, k: nat, trailing: seq<Byte>)
    requires WellFormed(Entries(entries)) && k < |entries| && entries[k].key == INFO_KEY
    ensures var bytes := Render(Entries(entries)) + trailing;
            var at := ValueStart(entries, k);
            && OccursAt(bytes, INFO_PATTERN, at - 6)
            && at <= |bytes|
            && Render(entries[k].value) <= bytes[at..]
  {
    var before, key := [D] + RenderEntries(entries[..k]), RenderText(entries[k].length, entries[k].key);
    var value, behind := Render(entries[k].value), RenderEntries(entries[k + 1..]) + [E] + trailing;
    var bytes := Render(Entries(entries)) + trailing;
    assert bytes == before + key + value + behind by {
      FileAroundEntry(entries, k, trailing);
    }
    assert |key| >= 6 && key[|key| - 6..] == INFO_PATTERN by {
      KeyEndsInPattern(entries[k].length);
    }
    PatternBeforeValue(bytes, before, key, value, behind);
  }

  lemma PatternBeforeValue(bytes: seq<Byte>, before: seq<Byte>, key: seq<Byte>, value: seq<Byte>, behind: seq<Byte>)
    requires bytes == before + key + value + behind && |key| >= 6 && key[|key| - 6..] == INFO_PATTERN
    ensures var at := |before| + |key|;
            OccursAt(bytes, INFO_PATTERN, at - 6) && at <= |bytes| && value <= bytes[at..]
  {
    CutsApart(before, key, value, behind);
  }

  lemma {:induction false} CollectLast(pairs: seq<(seq<Byte>, BValue)>, k: nat)
    requires k < |pairs| && forall j :: k < j < |pairs| ==> pairs[j].0 != pairs[k].0
    ensures pairs[k].0 in Collect(pairs) && Collect(pairs)[pairs[k].0] == pairs[k].1
  {
    if k < |pairs| - 1 {
      CollectLast(pairs[..|pairs| - 1], k);
    }
  }

  /**
    The bytes cut out for the digest are the encoded info value, where it stands, exactly when
    the text "4:info" occurs nowhere before the key of the info entry.
  */
  lemma ExtractsInfoIff(entries: seq<Entry>, k: nat, trailing: seq<Byte>)
    requires WellFormed(Entries(entries)) && IsInfoEntry(entries, k)
    requires |Render(Entries(entries)) + trailing| <= U64_MAX
    ensures var bytes := Render(Entries(entries)) + trailing;
            var at := ValueStart(entries, k);
            ExtractInfo(bytes) == Found(at, Render(entries[k].value)) <==>
            forall i: nat :: i < at - 6 ==> !OccursAt(bytes, INFO_PATTERN, i)
  {
    AroundTheValue(entries, k, trailing);
    ExtractsAtIff(Render(Entries(entries)) + trailing, ValueStart(entries, k) - 6, entries[k].value);
  }

  lemma ExtractsAtIff(bytes: seq<Byte>, i: nat, value: Node)
    requires OccursAt(bytes, INFO_PATTERN, i) && WellFormed(value) && Render(value) <= bytes[i + 6..]
    requires |bytes| <= U64_MAX
    ensures ExtractInfo(bytes) == Found(i + 6, Render(value)) <==>
            forall j: nat :: j < i ==> !OccursAt(bytes, INFO_PATTERN, j)
  {
    ParsesPrefix(value, bytes[i + 6..]);
    CutAt(bytes, i + 6, Render(value));
    if FirstIndex(bytes, INFO_PATTERN) == Some(i) {
      ExtractsAt(bytes, i, Meaning(value), |Render(value)|);
    } else {
      ExtractsElsewhere(bytes, i, Render(value));
    }
  }

  lemma ExtractsAt(bytes: seq<Byte>, i: nat, v: BValue, n: nat)
    requires FirstIndex(bytes, INFO_PATTERN) == Some(i) && Parse(bytes[i + 6..]) == Parsed(v, n)
    ensures ExtractInfo(bytes) == Found(i + 6, bytes[i + 6..i + 6 + n])
  {
  }

  lemma ExtractsElsewhere(bytes: seq<Byte>, i: nat, raw: seq<Byte>)
    requires FirstIndex(bytes, INFO_PATTERN) != Some(i)
    ensures ExtractInfo(bytes) != Found(i + 6, raw)
  {
  }

  lemma CutAt(bytes: seq<Byte>, start: nat, value: seq<Byte>)
    requires start <= |bytes| && value <= bytes[start..]
    ensures start + |value| <= |bytes| && bytes[start..start + |value|] == value
  {
    assert bytes[start..start + |value|] == bytes[start..][..|value|];
  }

  lemma ParsesPrefix(node: Node, bytes: seq<Byte>)
    requires WellFormed(node) && Render(node) <= bytes && |bytes| <= U64_MAX
    ensures Parse(bytes) == Parsed(Meaning(node), |Render(node)|)
  {
    assert bytes == Render(node) + bytes[|Render(node)|..];
    TextOfGrammarIsRead(node, bytes[|Render(node)|..]);
  }

  /**
    A torrent file whose root is a dictionary with an info dictionary, and with no earlier
    "4:info", is accepted with the digest of the encoded info dictionary.
  */
  lemma HashesTheInfoDictionary(entries: seq<Entry>, k: nat, trailing: seq<Byte>, digest: seq<Byte> -> string)
    requires WellFormed(Entries(entries)) && IsInfoEntry(entries, k) && entries[k].value.Entries?
    requires |Render(Entries(entries)) + trailing| <= U64_MAX
    requires forall i: nat :: i < ValueStart(entries, k) - 6 ==>
               !OccursAt(Render(Entries(entries)) + trailing, INFO_PATTERN, i)
    ensures ParseTorrent(Render(Entries(entries)) + trailing, digest) ==
            Torrent(digest(Render(entries[k].value)), Meaning(entries[k].value).entries)
  {
    TextOfGrammarIsRead(Entries(entries), trailing);
    forall j | k <= j < |entries|
      ensures EntryMeanings(entries)[j].0 == entries[j].key
    {
      EntryMeaningAt(entries, j);
    }
    EntryMeaningAt(entries, k);
    CollectLast(EntryMeanings(entries), k);
    ExtractsInfoIff(entries, k, trailing);
  }

  /* ---- An earlier "4:info" ---- */

  /** A comment of its own that reads "4:info", before an empty info dictionary. */
  const MISLEADING: seq<Entry> :=
    [Entry([55], [99, 111, 109, 109, 101, 110, 116], Text([54], INFO_PATTERN)), Entry([52], INFO_KEY, Entries([]))]

  const COMMENT_TEXT: seq<Byte> := [55, 58, 99, 111, 109, 109, 101, 110, 116, 54, 58, 52, 58, 105, 110, 102, 111]
  const INFO_TEXT: seq<Byte> := [52, 58, 105, 110, 102, 111, 100, 101]
  const MISLEADING_FILE: seq<Byte> := [D] + (COMMENT_TEXT + INFO_TEXT) + [E]

  lemma OneDigitLength(length: Byte, content: seq<Byte>)
    requires Decimal.IsDigit(length) && DigitValue(length) == |content|
    ensures GoodLength([length], content)
  {
    var digits := DigitValues([length]);
    assert digits == [DigitValue(length)] && digits[..0] == [];
    assert Decimal.Value(digits[..0]) == 0;
    assert Decimal.Value(digits) == DigitValue(length);
  }

  lemma RenderTwo(e: Entry, f: Entry)
    ensures RenderEntries([e, f]) == RenderEntry(e) + RenderEntry(f)
  {
    assert [e, f][1..] == [f] && [f][1..] == [];
    assert RenderEntries([f]) == RenderEntry(f) + [];
  }

  lemma CommentRenders()
    ensures RenderEntry(MISLEADING[0]) == COMMENT_TEXT
  {
    var e := MISLEADING[0];
    assert Render(e.value) == RenderText([54], INFO_PATTERN) == [54, 58, 52, 58, 105, 110, 102, 111];
    assert RenderText(e.length, e.key) == [55, 58, 99, 111, 109, 109, 101, 110, 116];
  }

  lemma InfoRenders()
    ensures RenderEntry(MISLEADING[1]) == INFO_TEXT
  {
    assert Render(Entries([])) == [D, E];
  }

  lemma MisleadingRenders()
    ensures Render(Entries(MISLEADING)) == MISLEADING_FILE
  {
    RenderTwo(MISLEADING[0], MISLEADING[1]);
    CommentRenders();
    InfoRenders();
    assert MISLEADING == [MISLEADING[0], MISLEADING[1]];
  }

  lemma MisleadingIsWellFormed()
    ensures WellFormed(Entries(MISLEADING))
  {
    OneDigitLength(55, MISLEADING[0].key);
    OneDigitLength(54, INFO_PATTERN);
    OneDigitLength(52, INFO_KEY);
    assert WellFormed(Text([54], INFO_PATTERN)) && WellFormed(Entries([]));
  }

  lemma MisleadingIndex()
    ensures FirstIndex(MISLEADING_FILE, INFO_PATTERN) == Some(12)
  {
    var bytes := MISLEADING_FILE;
    assert OccursAt(bytes, INFO_PATTERN, 12);
    forall i: nat | i < 12
      ensures !OccursAt(bytes, INFO_PATTERN, i)
    {
      assert bytes[i] != INFO_PATTERN[0];
    }
  }

  lemma MisleadingExtract()
    ensures ExtractInfo(MISLEADING_FILE) == Found(18, INFO_PATTERN)
  {
    MisleadingIndex();
    OneDigitLength(52, INFO_KEY);
    assert Render(Text([52], INFO_KEY)) == MISLEADING_FILE[18..24] == INFO_PATTERN;
    assert MISLEADING_FILE[18..] == MISLEADING_FILE[18..24] + [D, E, E];
    ExtractsAtIff(MISLEADING_FILE, 12, Text([52], INFO_KEY));
  }

  /**
    The file "d7:comment6:4:info4:infodee" is accepted, but with the digest of the text
    "4:info" in place of the digest of the empty dictionary "de".
  */
  lemma CommentIsHashedInstead(digest: seq<Byte> -> string)
    ensures ParseTorrent(Render(Entries(MISLEADING)), digest) == Torrent(digest(INFO_PATTERN), map[])
  {
    MisleadingRenders();
    MisleadingIsWellFormed();
    MisleadingExtract();
    assert MISLEADING_FILE + [] == MISLEADING_FILE;
    TextOfGrammarIsRead(Entries(MISLEADING), []);
    EntryMeaningAt(MISLEADING, 1);
    CollectLast(EntryMeanings(MISLEADING), 1);
    assert Meaning(Entries([])) == Dict(map[]);
  }
}
