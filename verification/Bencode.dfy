/**
  The bencode parser of server/src/local_addon/torrent.rs and its search for the raw bytes
  of the info dictionary.
*/
module Bencode {
  import opened Wrappers
  import opened Machine
  import opened Sequences
  import Decimal

  const COLON: Byte := 58
  const PLUS: Byte := 43
  const MINUS: Byte := 45
  const D: Byte := 100
  const E: Byte := 101
  const I: Byte := 105
  const L: Byte := 108

  /** The text "4:info" that announces the info dictionary, and its key. */
  const INFO_PATTERN: seq<Byte> := [52, 58, 105, 110, 102, 111]
  const INFO_KEY: seq<Byte> := [105, 110, 102, 111]

  datatype BValue =
    | Int(i: I64)
    | Str(bytes: seq<Byte>)
    | List(items: seq<BValue>)
    | Dict(entries: map<seq<Byte>, BValue>)

  /**
    What a parse comes to: a value and the bytes it took, a rejection, or a length prefix so
    large that adding it to its position leaves the machine word.
  */
  datatype Outcome<T> = Parsed(value: T, consumed: nat) | Malformed | Overflow

  /* ---- Numbers and searches ---- */

  predicate AllDigits(text: seq<Byte>) {
    forall b :: b in text ==> Decimal.IsDigit(b)
  }

  function DigitValue(b: Byte): nat
    requires Decimal.IsDigit(b)
  {
    b - 48
  }

  function DigitValues(text: seq<Byte>): seq<nat>
    requires AllDigits(text)
  {
    seq(|text|, i requires 0 <= i < |text| => DigitValue(text[i]))
  }

  /** Decimal text as Rust reads an unsigned number: an optional plus sign, then digits. */
  function ParseUsize(text: seq<Byte>): Option<U64> {
    var digits := if |text| > 1 && text[0] == PLUS then text[1..] else text;
    if digits == [] || !AllDigits(digits) then None
    else
      var n := Decimal.Value(DigitValues(digits));
      if n <= U64_MAX then Some(n) else None
  }

  /** Decimal text as Rust reads a signed number: an optional sign, then digits. */
  function ParseI64(text: seq<Byte>): Option<I64> {
    var signed := |text| > 1 && (text[0] == PLUS || text[0] == MINUS);
    var digits := if signed then text[1..] else text;
    if digits == [] || !AllDigits(digits) then None
    else
      var magnitude: int := Decimal.Value(DigitValues(digits));
      var n := if signed && text[0] == MINUS then -magnitude else magnitude;
      if I64_MIN <= n <= I64_MAX then Some(n) else None
  }

  /** The first position of a byte. */
  function Find(bytes: seq<Byte>, b: Byte): (r: Option<nat>)
    ensures r.Some? ==> r.value < |bytes| && bytes[r.value] == b && b !in bytes[..r.value]
    ensures r.None? ==> b !in bytes
  {
    if bytes == [] then None
    else if bytes[0] == b then Some(0)
    else
      match Find(bytes[1..], b)
      case Some(i) => assert bytes[..i + 1] == [bytes[0]] + bytes[1..][..i]; Some(i + 1)
      case None => None
  }

  /* ---- The parser as functions ---- */

  function ParseNumber(bytes: seq<Byte>): (r: Outcome<BValue>)
    requires bytes != [] && bytes[0] == I
    ensures r.Parsed? ==> 1 <= r.consumed <= |bytes|
  {
    match Find(bytes, E)
    case None => Malformed
    case Some(end) =>
      match ParseI64(bytes[1..end])
      case None => Malformed
      case Some(i) => Parsed(Int(i), end + 1)
  }

  function ParseString(bytes: seq<Byte>): (r: Outcome<BValue>)
    requires bytes != [] && Decimal.IsDigit(bytes[0])
    ensures r.Parsed? ==> 1 <= r.consumed <= |bytes|
  {
    match Find(bytes, COLON)
    case None => Malformed
    case Some(colon) =>
      match ParseUsize(bytes[..colon])
      case None => Malformed
      case Some(len) =>
        var start := colon + 1;
        if start + len > U64_MAX then Overflow
        else if start + len > |bytes| then Malformed
        else Parsed(Str(bytes[start..start + len]), start + len)
  }

  function Parse(bytes: seq<Byte>): (r: Outcome<BValue>)
    ensures r.Parsed? ==> 1 <= r.consumed <= |bytes|
    decreases |bytes|, 1
  {
    if bytes == [] then Malformed
    else if bytes[0] == I then ParseNumber(bytes)
    else if bytes[0] == L then
      match ParseItems(bytes[1..])
      case Parsed(items, n) => Parsed(List(items), n + 1)
      case Malformed => Malformed
      case Overflow => Overflow
    else if bytes[0] == D then
      match ParseEntries(bytes[1..])
      case Parsed(entries, n) => Parsed(Dict(Collect(entries)), n + 1)
      case Malformed => Malformed
      case Overflow => Overflow
    else if Decimal.IsDigit(bytes[0]) then ParseString(bytes)
    else Malformed
  }

  /** The items of a list up to and including its end mark. */
  function ParseItems(bytes: seq<Byte>): (r: Outcome<seq<BValue>>)
    ensures r.Parsed? ==> 1 <= r.consumed <= |bytes|
    decreases |bytes|, 2
  {
    if bytes == [] then Malformed
    else if bytes[0] == E then Parsed([], 1)
    else
      match Parse(bytes)
      case Malformed => Malformed
      case Overflow => Overflow
      case Parsed(v, n) =>
        match ParseItems(bytes[n..])
        case Malformed => Malformed
        case Overflow => Overflow
        case Parsed(vs, m) => Parsed([v] + vs, n + m)
  }

  /** One key, which must be a byte string, and its value. */
  function ParseEntry(bytes: seq<Byte>): (r: Outcome<(seq<Byte>, BValue)>)
    ensures r.Parsed? ==> 1 <= r.consumed <= |bytes|
    decreases |bytes|, 2
  {
    match Parse(bytes)
    case Malformed => Malformed
    case Overflow => Overflow
    case Parsed(k, n) =>
      if !k.Str? then Malformed
      else
        match Parse(bytes[n..])
        case Malformed => Malformed
        case Overflow => Overflow
        case Parsed(v, m) => Parsed((k.bytes, v), n + m)
  }

  /** The entries of a dictionary up to and including its end mark. */
  function ParseEntries(bytes: seq<Byte>): (r: Outcome<seq<(seq<Byte>, BValue)>>)
    ensures r.Parsed? ==> 1 <= r.consumed <= |bytes|
    decreases |bytes|, 3
  {
    if bytes == [] then Malformed
    else if bytes[0] == E then Parsed([], 1)
    else
      match ParseEntry(bytes)
      case Malformed => Malformed
      case Overflow => Overflow
      case Parsed(e, n) =>
        match ParseEntries(bytes[n..])
        case Malformed => Malformed
        case Overflow => Overflow
        case Parsed(rest, m) => Parsed([e] + rest, n + m)
  }

  /** A map of the entries in which a later one replaces an earlier one of the same key. */
  function Collect(entries: seq<(seq<Byte>, BValue)>): map<seq<Byte>, BValue> {
    if entries == [] then map[]
    else Collect(entries[..|entries| - 1])[entries[|entries| - 1].0 := entries[|entries| - 1].1]
  }

  /* ---- The parser as it runs ---- */

  /** What is left of parsing a list after some items, put together with those items. */
  function ResumeItems(items: seq<BValue>, offset: nat, rest: Outcome<seq<BValue>>): Outcome<BValue> {
    match rest
    case Parsed(vs, n) => Parsed(List(items + vs), offset + n)
    case Malformed => Malformed
    case Overflow => Overflow
  }

  function ResumeEntries(entries: seq<(seq<Byte>, BValue)>, offset: nat,
                         rest: Outcome<seq<(seq<Byte>, BValue)>>): Outcome<BValue>
  {
    match rest
    case Parsed(vs, n) => Parsed(Dict(Collect(entries + vs)), offset + n)
    case Malformed => Malformed
    case Overflow => Overflow
  }

  lemma ListStart(bytes: seq<Byte>)
    requires bytes != [] && bytes[0] == L
    ensures Parse(bytes) == ResumeItems([], 1, ParseItems(bytes[1..]))
  {
    if ParseItems(bytes[1..]).Parsed? {
      assert [] + ParseItems(bytes[1..]).value == ParseItems(bytes[1..]).value;
    }
  }

  lemma ListEnd(bytes: seq<Byte>, items: seq<BValue>, offset: nat)
    requires offset < |bytes| && bytes[offset] == E
    ensures ResumeItems(items, offset, ParseItems(bytes[offset..])) == Parsed(List(items), offset + 1)
  {
    assert items + [] == items;
  }

  lemma ListShort(bytes: seq<Byte>, items: seq<BValue>, offset: nat)
    requires offset == |bytes|
    ensures ResumeItems(items, offset, ParseItems(bytes[offset..])) == Malformed
  {
  }

  lemma DictShort(bytes: seq<Byte>, entries: seq<(seq<Byte>, BValue)>, offset: nat)
    requires offset == |bytes|
    ensures ResumeEntries(entries, offset, ParseEntries(bytes[offset..])) == Malformed
  {
  }

  lemma DictStart(bytes: seq<Byte>)
    requires bytes != [] && bytes[0] == D
    ensures Parse(bytes) == ResumeEntries([], 1, ParseEntries(bytes[1..]))
  {
    if ParseEntries(bytes[1..]).Parsed? {
      assert [] + ParseEntries(bytes[1..]).value == ParseEntries(bytes[1..]).value;
    }
  }

  lemma DictEnd(bytes: seq<Byte>, entries: seq<(seq<Byte>, BValue)>, offset: nat)
    requires offset < |bytes| && bytes[offset] == E
    ensures ResumeEntries(entries, offset, ParseEntries(bytes[offset..])) ==
            Parsed(Dict(Collect(entries)), offset + 1)
  {
    assert entries + [] == entries;
  }

  /** A first item, or entry, in front of what follows it. */
  function Prepend<T>(first: T, n: nat, rest: Outcome<seq<T>>): Outcome<seq<T>> {
    match rest
    case Malformed => Malformed
    case Overflow => Overflow
    case Parsed(others, m) => Parsed([first] + others, n + m)
  }

  lemma FirstItem(bytes: seq<Byte>, v: BValue, n: nat)
    requires bytes != [] && bytes[0] != E && Parse(bytes) == Parsed(v, n)
    ensures ParseItems(bytes) == Prepend(v, n, ParseItems(bytes[n..]))
  {
  }

  lemma FirstEntry(bytes: seq<Byte>, e: (seq<Byte>, BValue), n: nat)
    requires bytes != [] && bytes[0] != E && ParseEntry(bytes) == Parsed(e, n)
    ensures ParseEntries(bytes) == Prepend(e, n, ParseEntries(bytes[n..]))
  {
  }

  lemma ResumeAfterItem(items: seq<BValue>, offset: nat, v: BValue, n: nat, rest: Outcome<seq<BValue>>)
    ensures ResumeItems(items, offset, Prepend(v, n, rest)) == ResumeItems(items + [v], offset + n, rest)
  {
    if rest.Parsed? {
      assert items + ([v] + rest.value) == (items + [v]) + rest.value;
    }
  }

  lemma ResumeAfterEntry(entries: seq<(seq<Byte>, BValue)>, offset: nat, e: (seq<Byte>, BValue), n: nat,
                         rest: Outcome<seq<(seq<Byte>, BValue)>>)
    ensures ResumeEntries(entries, offset, Prepend(e, n, rest)) == ResumeEntries(entries + [e], offset + n, rest)
  {
    if rest.Parsed? {
      assert entries + ([e] + rest.value) == (entries + [e]) + rest.value;
    }
  }

  /** What is left of a list after one more item. */
  lemma ItemStep(bytes: seq<Byte>, items: seq<BValue>, offset: nat, v: BValue, n: nat)
    requires offset + n <= |bytes|
    requires ParseItems(bytes[offset..]) == Prepend(v, n, ParseItems(bytes[offset..][n..]))
    ensures ResumeItems(items, offset, ParseItems(bytes[offset..])) ==
            ResumeItems(items + [v], offset + n, ParseItems(bytes[offset + n..]))
  {
    DropTwice(bytes, offset, n);
    ResumeAfterItem(items, offset, v, n, ParseItems(bytes[offset + n..]));
  }

  lemma ItemStop(bytes: seq<Byte>)
    requires bytes != [] && bytes[0] != E && !Parse(bytes).Parsed?
    ensures Parse(bytes).Malformed? ==> ParseItems(bytes).Malformed?
    ensures Parse(bytes).Overflow? ==> ParseItems(bytes).Overflow?
  {
  }

  lemma EntryStop(bytes: seq<Byte>)
    requires bytes != [] && bytes[0] != E && !ParseEntry(bytes).Parsed?
    ensures ParseEntry(bytes).Malformed? ==> ParseEntries(bytes).Malformed?
    ensures ParseEntry(bytes).Overflow? ==> ParseEntries(bytes).Overflow?
  {
  }

  lemma CollectOneMore(entries: seq<(seq<Byte>, BValue)>, e: (seq<Byte>, BValue))
    ensures Collect(entries + [e]) == Collect(entries)[e.0 := e.1]
  {
    assert (entries + [e])[..|entries|] == entries;
  }

  /** What is left of a dictionary after one more entry. */
  lemma EntryStep(bytes: seq<Byte>, entries: seq<(seq<Byte>, BValue)>, offset: nat, e: (seq<Byte>, BValue), n: nat)
    requires offset + n <= |bytes|
    requires ParseEntries(bytes[offset..]) == Prepend(e, n, ParseEntries(bytes[offset..][n..]))
    ensures ResumeEntries(entries, offset, ParseEntries(bytes[offset..])) ==
            ResumeEntries(entries + [e], offset + n, ParseEntries(bytes[offset + n..]))
  {
    DropTwice(bytes, offset, n);
    ResumeAfterEntry(entries, offset, e, n, ParseEntries(bytes[offset + n..]));
  }

  /** What is known of an entry from its key and, if that is a byte string, from its value. */
  lemma EntryFromParts(bytes: seq<Byte>)
    ensures !Parse(bytes).Parsed? ==> ParseEntry(bytes) == if Parse(bytes).Malformed? then Malformed else Overflow
    ensures Parse(bytes).Parsed? && !Parse(bytes).value.Str? ==> ParseEntry(bytes) == Malformed
    ensures Parse(bytes).Parsed? && Parse(bytes).value.Str? ==>
              var n := Parse(bytes).consumed;
              var v := Parse(bytes[n..]);
              ParseEntry(bytes) ==
              if v.Parsed? then Parsed((Parse(bytes).value.bytes, v.value), n + v.consumed)
              else if v.Malformed? then Malformed else Overflow
  {
  }

  method ParseBencode(bytes: seq<Byte>) returns (r: Outcome<BValue>)
    ensures r == Parse(bytes)
    decreases |bytes|, 4
  {
    if |bytes| == 0 {
      return Malformed;
    }
    if bytes[0] == I {
      r := ParseNumber(bytes);
    } else if bytes[0] == L {
      r := ParseList(bytes);
    } else if bytes[0] == D {
      r := ParseDict(bytes);
    } else if Decimal.IsDigit(bytes[0]) {
      r := ParseString(bytes);
    } else {
      r := Malformed;
    }
  }

  method ParseList(bytes: seq<Byte>) returns (r: Outcome<BValue>)
    requires bytes != [] && bytes[0] == L
    ensures r == Parse(bytes)
    decreases |bytes|, 3
  {
    ListStart(bytes);
    r := ParseListItems(bytes, Parse(bytes));
  }

  /** One item of a list, and what it means for the list. */
  method NextItem(bytes: seq<Byte>) returns (item: Outcome<BValue>)
    requires bytes != [] && bytes[0] != E
    ensures item.Parsed? ==> 1 <= item.consumed <= |bytes|
    ensures item.Parsed? ==> ParseItems(bytes) == Prepend(item.value, item.consumed, ParseItems(bytes[item.consumed..]))
    ensures item.Malformed? ==> ParseItems(bytes).Malformed?
    ensures item.Overflow? ==> ParseItems(bytes).Overflow?
    decreases |bytes|, 5
  {
    item := ParseBencode(bytes);
    if item.Parsed? {
      FirstItem(bytes, item.value, item.consumed);
    } else {
      ItemStop(bytes);
    }
  }

  /** The item at an offset, and what is left of the list behind it. */
  method ItemAt(bytes: seq<Byte>, offset: nat, ghost items: seq<BValue>) returns (item: Outcome<BValue>)
    requires 0 < offset < |bytes| && bytes[offset] != E
    ensures item.Parsed? ==> offset < offset + item.consumed <= |bytes|
    ensures ResumeItems(items, offset, ParseItems(bytes[offset..])) ==
            if item.Parsed?
            then ResumeItems(items + [item.value], offset + item.consumed,
                             ParseItems(bytes[offset + item.consumed..]))
            else item
    decreases |bytes|, 0
  {
    item := NextItem(bytes[offset..]);
    if item.Parsed? {
      ItemStep(bytes, items, offset, item.value, item.consumed);
    }
  }

  method ParseListItems(bytes: seq<Byte>, ghost goal: Outcome<BValue>) returns (r: Outcome<BValue>)
    requires bytes != [] && goal == ResumeItems([], 1, ParseItems(bytes[1..]))
    ensures r == goal
    decreases |bytes|, 1
  {
    var list: seq<BValue> := [];
    var offset := 1;
    while offset < |bytes| && bytes[offset] != E
      invariant 1 <= offset <= |bytes|
      invariant goal == ResumeItems(list, offset, ParseItems(bytes[offset..]))
      decreases |bytes| - offset
    {
      var item := ItemAt(bytes, offset, list);
      if !item.Parsed? {
        return item;
      }
      list := list + [item.value];
      offset := offset + item.consumed;
    }
    r := CloseList(bytes, list, offset);
  }

  /** The end of a list, or of the bytes, at an offset. */
  method CloseList(bytes: seq<Byte>, list: seq<BValue>, offset: nat) returns (r: Outcome<BValue>)
    requires offset <= |bytes| && (offset < |bytes| ==> bytes[offset] == E)
    ensures r == ResumeItems(list, offset, ParseItems(bytes[offset..]))
  {
    if offset >= |bytes| {
      ListShort(bytes, list, offset);
      return Malformed;
    }
    ListEnd(bytes, list, offset);
    return Parsed(List(list), offset + 1);
  }

  method ParseDict(bytes: seq<Byte>) returns (r: Outcome<BValue>)
    requires bytes != [] && bytes[0] == D
    ensures r == Parse(bytes)
    decreases |bytes|, 3
  {
    DictStart(bytes);
    r := ParseDictEntries(bytes, Parse(bytes));
  }

  /** A key and its value. */
  method NextPair(bytes: seq<Byte>) returns (entry: Outcome<(seq<Byte>, BValue)>)
    ensures entry == ParseEntry(bytes)
    decreases |bytes|, 5
  {
    EntryFromParts(bytes);
    var key := ParseBencode(bytes);
    if !key.Parsed? {
      return if key.Malformed? then Malformed else Overflow;
    }
    if !key.value.Str? {
      return Malformed;
    }
    var val := ParseBencode(bytes[key.consumed..]);
    if !val.Parsed? {
      return if val.Malformed? then Malformed else Overflow;
    }
    return Parsed((key.value.bytes, val.value), key.consumed + val.consumed);
  }

  /** One entry of a dictionary, and what it means for the dictionary. */
  method NextEntry(bytes: seq<Byte>) returns (entry: Outcome<(seq<Byte>, BValue)>)
    requires bytes != [] && bytes[0] != E
    ensures entry.Parsed? ==> 1 <= entry.consumed <= |bytes|
    ensures entry.Parsed? ==>
              ParseEntries(bytes) == Prepend(entry.value, entry.consumed, ParseEntries(bytes[entry.consumed..]))
    ensures entry.Malformed? ==> ParseEntries(bytes).Malformed?
    ensures entry.Overflow? ==> ParseEntries(bytes).Overflow?
    decreases |bytes|, 6
  {
    entry := NextPair(bytes);
    if entry.Parsed? {
      FirstEntry(bytes, entry.value, entry.consumed);
    } else {
      EntryStop(bytes);
    }
  }

  /** The entry at an offset, and what is left of the dictionary behind it. */
  method EntryAt(bytes: seq<Byte>, offset: nat, ghost entries: seq<(seq<Byte>, BValue)>)
    returns (entry: Outcome<(seq<Byte>, BValue)>)
    requires 0 < offset < |bytes| && bytes[offset] != E
    ensures entry.Parsed? ==> offset < offset + entry.consumed <= |bytes|
    ensures ResumeEntries(entries, offset, ParseEntries(bytes[offset..])) ==
            if entry.Parsed?
            then ResumeEntries(entries + [entry.value], offset + entry.consumed,
                               ParseEntries(bytes[offset + entry.consumed..]))
            else if entry.Malformed? then Malformed else Overflow
    decreases |bytes|, 1
  {
    entry := NextEntry(bytes[offset..]);
    if entry.Parsed? {
      EntryStep(bytes, entries, offset, entry.value, entry.consumed);
    }
  }

  method ParseDictEntries(bytes: seq<Byte>, ghost goal: Outcome<BValue>) returns (r: Outcome<BValue>)
    requires bytes != [] && goal == ResumeEntries([], 1, ParseEntries(bytes[1..]))
    ensures r == goal
    decreases |bytes|, 2
  {
    ghost var entries: seq<(seq<Byte>, BValue)> := [];
    var dict: map<seq<Byte>, BValue> := map[];
    var offset := 1;
    while offset < |bytes| && bytes[offset] != E
      invariant 1 <= offset <= |bytes| && dict == Collect(entries)
      invariant goal == ResumeEntries(entries, offset, ParseEntries(bytes[offset..]))
      decreases |bytes| - offset
    {
      var entry := EntryAt(bytes, offset, entries);
      if !entry.Parsed? {
        return if entry.Malformed? then Malformed else Overflow;
      }
      CollectOneMore(entries, entry.value);
      entries := entries + [entry.value];
      dict := dict[entry.value.0 := entry.value.1];
      offset := offset + entry.consumed;
    }
    r := CloseDict(bytes, dict, offset, entries);
  }

  /** The end of a dictionary, or of the bytes, at an offset. */
  method CloseDict(bytes: seq<Byte>, dict: map<seq<Byte>, BValue>, offset: nat,
                   ghost entries: seq<(seq<Byte>, BValue)>)
    returns (r: Outcome<BValue>)
    requires offset <= |bytes| && (offset < |bytes| ==> bytes[offset] == E) && dict == Collect(entries)
    ensures r == ResumeEntries(entries, offset, ParseEntries(bytes[offset..]))
  {
    if offset >= |bytes| {
      DictShort(bytes, entries, offset);
      return Malformed;
    }
    DictEnd(bytes, entries, offset);
    return Parsed(Dict(dict), offset + 1);
  }
}
