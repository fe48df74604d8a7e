/** Exactly which byte strings make the bencode parser abort. */
module BencodeAborts {
  import opened Machine
  import opened Sequences
  import opened Bencode
  import opened BencodeProofs
  import Decimal

  /* ---- Texts that abort ---- */

  /**
    The beginning of a text up to the length of a byte string that is too large to add to its
    own position, with the well-formed parts that stand before it.
  */
  datatype Bad =
    | BadText(length: seq<Byte>)
    | InItems(items: seq<Node>, bad: Bad)
    | InKey(entries: seq<Entry>, bad: Bad)
    | InValue(entries: seq<Entry>, length: seq<Byte>, key: seq<Byte>, bad: Bad)

  predicate TooLong(length: seq<Byte>) {
    && length != [] && Decimal.IsDigit(length[0]) && ParseUsize(length).Some?
    && |length| + 1 + ParseUsize(length).value > U64_MAX
  }

  predicate GoodBad(b: Bad) {
    match b
    case BadText(length) => TooLong(length)
    case InItems(items, bad) => (forall i :: 0 <= i < |items| ==> WellFormed(items[i])) && GoodBad(bad)
    case InKey(entries, bad) => WellFormed(Entries(entries)) && GoodBad(bad)
    case InValue(entries, length, key, bad) =>
      WellFormed(Entries(entries)) && GoodLength(length, key) && GoodBad(bad)
  }

  function RenderBad(b: Bad): seq<Byte> {
    match b
    case BadText(length) => length + [COLON]
    case InItems(items, bad) => [L] + (RenderItems(items) + RenderBad(bad))
    case InKey(entries, bad) => [D] + (RenderEntries(entries) + RenderBad(bad))
    case InValue(entries, length, key, bad) =>
      [D] + (RenderEntries(entries) + (RenderText(length, key) + RenderBad(bad)))
  }

  /* ---- They abort ---- */

  lemma LongTextAborts(length: seq<Byte>, rest: seq<Byte>)
    requires TooLong(length)
    ensures Parse(length + [COLON] + rest).Overflow?
  {
    LengthTextIsDigits(length);
    FindAfter(length, COLON, rest);
    assert (length + [COLON] + rest)[..|length|] == length;
  }

  lemma {:induction false} ItemsAbort(items: seq<Node>, tail: seq<Byte>)
    requires (forall i :: 0 <= i < |items| ==> WellFormed(items[i])) && Parse(tail).Overflow?
    requires |RenderItems(items) + tail| <= U64_MAX
    ensures ParseItems(RenderItems(items) + tail).Overflow?
  {
    if items == [] {
      assert RenderItems(items) + tail == tail;
    } else {
      var rest := RenderItems(items[1..]) + tail;
      ThreeParts(Render(items[0]), RenderItems(items[1..]), tail);
      ItemsAbort(items[1..], tail);
      StartsAValue(items[0], rest);
      TextOfGrammarIsRead(items[0], rest);
      assert (Render(items[0]) + rest)[|Render(items[0])|..] == rest;
    }
  }

  lemma {:induction false} EntriesAbort(entries: seq<Entry>, tail: seq<Byte>)
    requires WellFormed(Entries(entries)) && ParseEntry(tail).Overflow?
    requires |RenderEntries(entries) + tail| < U64_MAX
    ensures ParseEntries(RenderEntries(entries) + tail).Overflow?
  {
    if entries == [] {
      assert RenderEntries(entries) + tail == tail;
    } else {
      var rest := RenderEntries(entries[1..]) + tail;
      EntriesBehind(entries);
      ThreeParts(RenderEntry(entries[0]), RenderEntries(entries[1..]), tail);
      EntriesAbort(entries[1..], tail);
      StartsAnEntry(entries[0], rest);
      PairIsRead(entries[0], rest);
      assert (RenderEntry(entries[0]) + rest)[|RenderEntry(entries[0])|..] == rest;
    }
  }

  lemma ValueAborts(length: seq<Byte>, key: seq<Byte>, tail: seq<Byte>)
    requires GoodLength(length, key) && Parse(tail).Overflow? && |RenderText(length, key) + tail| <= U64_MAX
    ensures ParseEntry(RenderText(length, key) + tail).Overflow?
  {
    TextIsRead(length, key, tail);
    assert (RenderText(length, key) + tail)[|RenderText(length, key)|..] == tail;
  }

  lemma {:induction false} BadAborts(b: Bad, rest: seq<Byte>)
    requires GoodBad(b) && |RenderBad(b) + rest| <= U64_MAX
    ensures Parse(RenderBad(b) + rest).Overflow?
  {
    match b
    case BadText(length) => LongTextAborts(length, rest);
    case InItems(items, bad) =>
      BadAborts(bad, rest);
      Assoc(RenderItems(items), RenderBad(bad), rest);
      ItemsAbort(items, RenderBad(bad) + rest);
      Marked(L, RenderItems(items) + RenderBad(bad), rest);
    case InKey(entries, bad) =>
      BadAborts(bad, rest);
      Assoc(RenderEntries(entries), RenderBad(bad), rest);
      EntriesAbort(entries, RenderBad(bad) + rest);
      Marked(D, RenderEntries(entries) + RenderBad(bad), rest);
    case InValue(entries, length, key, bad) =>
      var pair := RenderText(length, key) + RenderBad(bad);
      BadAborts(bad, rest);
      Assoc(RenderText(length, key), RenderBad(bad), rest);
      ValueAborts(length, key, RenderBad(bad) + rest);
      Assoc(RenderEntries(entries), pair, rest);
      EntriesAbort(entries, pair + rest);
      Marked(D, RenderEntries(entries) + pair, rest);
  }

  lemma Marked(mark: Byte, body: seq<Byte>, rest: seq<Byte>)
    ensures ([mark] + body + rest)[0] == mark && ([mark] + body + rest)[1..] == body + rest
  {
  }

  /* ---- Nothing else does ---- */

  lemma TextAborted(bytes: seq<Byte>) returns (b: Bad)
    requires bytes != [] && Decimal.IsDigit(bytes[0]) && ParseString(bytes).Overflow?
    ensures GoodBad(b) && RenderBad(b) <= bytes
  {
    var colon := Find(bytes, COLON).value;
    b := BadText(bytes[..colon]);
    assert bytes[..colon] + [COLON] == bytes[..colon + 1];
  }

  lemma PrefixBehind(first: seq<Byte>, second: seq<Byte>, bytes: seq<Byte>)
    requires first <= bytes && second <= bytes[|first|..]
    ensures first + second <= bytes
  {
  }

  lemma {:induction false} ItemsAborted(bytes: seq<Byte>) returns (items: seq<Node>, bad: Bad)
    requires ParseItems(bytes).Overflow?
    ensures (forall i :: 0 <= i < |items| ==> WellFormed(items[i])) && GoodBad(bad)
    ensures RenderItems(items) + RenderBad(bad) <= bytes
    decreases |bytes|, 2
  {
    if Parse(bytes).Overflow? {
      items := [];
      bad := Aborted(bytes);
      assert RenderItems(items) + RenderBad(bad) == RenderBad(bad);
    } else {
      var first := ReadIsTextOfGrammar(bytes);
      var others;
      others, bad := ItemsAborted(bytes[Parse(bytes).consumed..]);
      items := [first] + others;
      assert items[1..] == others;
      PrefixBehind(Render(first), RenderItems(others) + RenderBad(bad), bytes);
      Assoc(Render(first), RenderItems(others), RenderBad(bad));
    }
  }

  lemma {:induction false} EntryAborted(bytes: seq<Byte>) returns (inValue: bool, length: seq<Byte>, key: seq<Byte>,
                                                                   bad: Bad)
    requires ParseEntry(bytes).Overflow?
    ensures GoodBad(bad) && (inValue ==> GoodLength(length, key))
    ensures (if inValue then RenderText(length, key) + RenderBad(bad) else RenderBad(bad)) <= bytes
    decreases |bytes|, 2
  {
    if Parse(bytes).Overflow? {
      inValue, length, key := false, [], [];
      bad := Aborted(bytes);
    } else {
      inValue := true;
      length, key := TextWasRead(bytes);
      bad := Aborted(bytes[Parse(bytes).consumed..]);
      PrefixBehind(RenderText(length, key), RenderBad(bad), bytes);
    }
  }

  /** The entries before the one that aborts. */
  lemma {:induction false} EntriesAborted(bytes: seq<Byte>) returns (entries: seq<Entry>, rest: seq<Byte>)
    requires ParseEntries(bytes).Overflow?
    ensures WellFormed(Entries(entries)) && |rest| <= |bytes| && ParseEntry(rest).Overflow?
    ensures RenderEntries(entries) + rest == bytes
    decreases |bytes|
  {
    if ParseEntry(bytes).Overflow? {
      entries, rest := [], bytes;
    } else {
      var n := ParseEntry(bytes).consumed;
      var first := ReadEntry(bytes);
      var others;
      others, rest := EntriesAborted(bytes[n..]);
      entries := [first] + others;
      OneEntryMore(first, others, bytes, n, rest);
    }
  }

  lemma OneEntryMore(first: Entry, others: seq<Entry>, bytes: seq<Byte>, n: nat, rest: seq<Byte>)
    requires GoodEntry(first) && WellFormed(Entries(others))
    requires n <= |bytes| && RenderEntry(first) == bytes[..n] && RenderEntries(others) + rest == bytes[n..]
    ensures WellFormed(Entries([first] + others)) && RenderEntries([first] + others) + rest == bytes
  {
    assert ([first] + others)[1..] == others;
    Assoc(RenderEntry(first), RenderEntries(others), rest);
    assert bytes == bytes[..n] + bytes[n..];
  }

  lemma {:induction false} Aborted(bytes: seq<Byte>) returns (b: Bad)
    requires Parse(bytes).Overflow?
    ensures GoodBad(b) && RenderBad(b) <= bytes
    decreases |bytes|, 1
  {
    if bytes[0] == L {
      var items, bad := ItemsAborted(bytes[1..]);
      b := InItems(items, bad);
      PrefixBehind([L], RenderItems(items) + RenderBad(bad), bytes);
    } else if bytes[0] == D {
      var entries, rest := EntriesAborted(bytes[1..]);
      var inValue, length, key, bad := EntryAborted(rest);
      var tail := if inValue then RenderText(length, key) + RenderBad(bad) else RenderBad(bad);
      b := if inValue then InValue(entries, length, key, bad) else InKey(entries, bad);
      Longer(RenderEntries(entries), tail, rest);
      PrefixBehind([D], RenderEntries(entries) + tail, bytes);
    } else {
      b := TextAborted(bytes);
    }
  }

  lemma Longer(front: seq<Byte>, a: seq<Byte>, b: seq<Byte>)
    requires a <= b
    ensures front + a <= front + b
  {
  }

  /**
    The parser aborts exactly on the texts that start with well-formed parts of lists and
    dictionaries up to the length of a byte string that cannot be added to its position.
  */
  lemma AbortsIff(bytes: seq<Byte>)
    requires |bytes| <= U64_MAX
    ensures Parse(bytes).Overflow? <==> exists b :: GoodBad(b) && RenderBad(b) <= bytes
  {
    if Parse(bytes).Overflow? {
      var b := Aborted(bytes);
    }
    forall b | GoodBad(b) && RenderBad(b) <= bytes
      ensures Parse(bytes).Overflow?
    {
      assert bytes == RenderBad(b) + bytes[|RenderBad(b)|..];
      BadAborts(b, bytes[|RenderBad(b)|..]);
    }
  }
}
