/** Which byte strings the bencode parser accepts, and what it makes of them. */
module BencodeProofs {
  import opened Wrappers
  import opened Machine
  import opened Sequences
  import opened Bencode
  import Decimal

  /* ---- The grammar ---- */

  /**
    A bencoded text as written: numbers and lengths keep their spelling, dictionaries the
    order and the repetitions of their entries.
  */
  datatype Node =
    | Number(text: seq<Byte>)
    | Text(length: seq<Byte>, content: seq<Byte>)
    | Items(items: seq<Node>)
    | Entries(entries: seq<Entry>)

  datatype Entry = Entry(length: seq<Byte>, key: seq<Byte>, value: Node)

  predicate GoodLength(length: seq<Byte>, content: seq<Byte>) {
    length != [] && Decimal.IsDigit(length[0]) && ParseUsize(length) == Some(|content|)
  }

  predicate WellFormed(node: Node) {
    match node
    case Number(text) => ParseI64(text).Some?
    case Text(length, content) => GoodLength(length, content)
    case Items(items) => forall i :: 0 <= i < |items| ==> WellFormed(items[i])
    case Entries(entries) =>
      forall i :: 0 <= i < |entries| ==> GoodLength(entries[i].length, entries[i].key) && WellFormed(entries[i].value)
  }

  predicate GoodEntry(e: Entry) {
    GoodLength(e.length, e.key) && WellFormed(e.value)
  }

  function RenderText(length: seq<Byte>, content: seq<Byte>): seq<Byte> {
    length + [COLON] + content
  }

  function Render(node: Node): (r: seq<Byte>)
    ensures |r| > 0 || node.Text?
    decreases node, 0
  {
    match node
    case Number(text) => [I] + text + [E]
    case Text(length, content) => RenderText(length, content)
    case Items(items) => [L] + RenderItems(items) + [E]
    case Entries(entries) => [D] + RenderEntries(entries) + [E]
  }

  function RenderItems(items: seq<Node>): seq<Byte>
    decreases items, 1
  {
    if items == [] then [] else Render(items[0]) + RenderItems(items[1..])
  }

  function RenderEntry(e: Entry): seq<Byte>
    decreases e, 1
  {
    RenderText(e.length, e.key) + Render(e.value)
  }

  function RenderEntries(entries: seq<Entry>): seq<Byte>
    decreases entries, 2
  {
    if entries == [] then [] else RenderEntry(entries[0]) + RenderEntries(entries[1..])
  }

  function Meaning(node: Node): BValue
    requires WellFormed(node)
    decreases node, 0
  {
    match node
    case Number(text) => Int(ParseI64(text).value)
    case Text(_, content) => Str(content)
    case Items(items) => List(Meanings(items))
    case Entries(entries) => Dict(Collect(EntryMeanings(entries)))
  }

  function Meanings(items: seq<Node>): (r: seq<BValue>)
    requires forall i :: 0 <= i < |items| ==> WellFormed(items[i])
    ensures |r| == |items| && forall i :: 0 <= i < |items| ==> r[i] == Meaning(items[i])
    decreases items, 1
  {
    if items == [] then [] else [Meaning(items[0])] + Meanings(items[1..])
  }

  lemma EntriesBehind(entries: seq<Entry>)
    requires entries != [] && WellFormed(Entries(entries))
    ensures GoodEntry(entries[0]) && WellFormed(Entries(entries[1..]))
  {
  }

  function EntryMeanings(entries: seq<Entry>): (r: seq<(seq<Byte>, BValue)>)
    requires WellFormed(Entries(entries))
    ensures |r| == |entries|
    decreases entries, 1
  {
    if entries == [] then []
    else
      EntriesBehind(entries);
      [(entries[0].key, Meaning(entries[0].value))] + EntryMeanings(entries[1..])
  }

  lemma {:induction false} EntryMeaningAt(entries: seq<Entry>, k: nat)
    requires WellFormed(Entries(entries)) && k < |entries|
    ensures WellFormed(entries[k].value) && EntryMeanings(entries)[k] == (entries[k].key, Meaning(entries[k].value))
    decreases entries
  {
    EntriesBehind(entries);
    if k > 0 {
      EntryMeaningAt(entries[1..], k - 1);
    }
  }

  /* ---- Every well-formed text is read back ---- */

  lemma {:induction false} FindIs(text: seq<Byte>, b: Byte, i: nat)
    requires i < |text| && text[i] == b && b !in text[..i]
    ensures Find(text, b) == Some(i)
  {
    if i > 0 {
      assert text[0] == text[..i][0];
      assert text[1..][..i - 1] == text[..i][1..];
      FindIs(text[1..], b, i - 1);
    }
  }

  lemma FindAfter(before: seq<Byte>, b: Byte, after: seq<Byte>)
    requires b !in before
    ensures Find(before + [b] + after, b) == Some(|before|)
  {
    var text := before + [b] + after;
    assert text[..|before|] == before;
    FindIs(text, b, |before|);
  }

  lemma NumberTextHasNoEnd(text: seq<Byte>)
    requires ParseI64(text).Some?
    ensures E !in text
  {
    var signed := |text| > 1 && (text[0] == PLUS || text[0] == MINUS);
    if signed {
      assert text == [text[0]] + text[1..];
    }
  }

  lemma LengthTextIsDigits(length: seq<Byte>)
    requires length != [] && Decimal.IsDigit(length[0]) && ParseUsize(length).Some?
    ensures COLON !in length
  {
  }

  lemma NumberIsRead(text: seq<Byte>, rest: seq<Byte>)
    requires ParseI64(text).Some?
    ensures Parse([I] + text + [E] + rest) == Parsed(Int(ParseI64(text).value), |text| + 2)
  {
    NumberTextHasNoEnd(text);
    var bytes := [I] + text + [E] + rest;
    FindAfter([I] + text, E, rest);
    assert bytes[1..|text| + 1] == text;
  }

  lemma TextIsRead(length: seq<Byte>, content: seq<Byte>, rest: seq<Byte>)
    requires GoodLength(length, content) && |RenderText(length, content) + rest| <= U64_MAX
    ensures Parse(RenderText(length, content) + rest) == Parsed(Str(content), |RenderText(length, content)|)
  {
    LengthTextIsDigits(length);
    var bytes := RenderText(length, content) + rest;
    assert bytes == length + [COLON] + (content + rest);
    FindAfter(length, COLON, content + rest);
    assert bytes[..|length|] == length;
    assert bytes[|length| + 1..|length| + 1 + |content|] == content;
  }

  lemma WithoutMark(mark: Byte, body: seq<Byte>, rest: seq<Byte>)
    ensures ([mark] + body + [E] + rest)[0] == mark
    ensures ([mark] + body + [E] + rest)[1..] == body + [E] + rest
  {
  }

  lemma ListIsRead(items: seq<Node>, rest: seq<Byte>)
    requires forall i :: 0 <= i < |items| ==> WellFormed(items[i])
    requires ParseItems(RenderItems(items) + [E] + rest) == Parsed(Meanings(items), |RenderItems(items)| + 1)
    ensures Parse([L] + RenderItems(items) + [E] + rest) == Parsed(List(Meanings(items)), |RenderItems(items)| + 2)
  {
    WithoutMark(L, RenderItems(items), rest);
  }

  lemma DictIsRead(entries: seq<Entry>, rest: seq<Byte>)
    requires WellFormed(Entries(entries))
    requires ParseEntries(RenderEntries(entries) + [E] + rest) ==
             Parsed(EntryMeanings(entries), |RenderEntries(entries)| + 1)
    ensures Parse([D] + RenderEntries(entries) + [E] + rest) ==
            Parsed(Dict(Collect(EntryMeanings(entries))), |RenderEntries(entries)| + 2)
  {
    WithoutMark(D, RenderEntries(entries), rest);
  }

  /** A text of the grammar, whatever follows it, is read as its meaning, to its last byte. */
  lemma {:induction false} TextOfGrammarIsRead(node: Node, rest: seq<Byte>)
    requires WellFormed(node) && |Render(node) + rest| <= U64_MAX
    ensures Parse(Render(node) + rest) == Parsed(Meaning(node), |Render(node)|)
    decreases node, 0
  {
    if node.Number? {
      NumberIsRead(node.text, rest);
    } else if node.Text? {
      TextIsRead(node.length, node.content, rest);
    } else if node.Items? {
      ItemsAreRead(node.items, rest);
      ListIsRead(node.items, rest);
    } else {
      EntriesAreRead(node.entries, rest);
      DictIsRead(node.entries, rest);
    }
  }

  lemma {:induction false} ItemsAreRead(items: seq<Node>, rest: seq<Byte>)
    requires forall i :: 0 <= i < |items| ==> WellFormed(items[i])
    requires |RenderItems(items) + [E] + rest| < U64_MAX
    ensures ParseItems(RenderItems(items) + [E] + rest) == Parsed(Meanings(items), |RenderItems(items)| + 1)
    decreases items, 1
  {
    var bytes := RenderItems(items) + [E] + rest;
    if items != [] {
      var tail := RenderItems(items[1..]) + [E] + rest;
      assert bytes == Render(items[0]) + tail;
      TextOfGrammarIsRead(items[0], tail);
      StartsAValue(items[0], tail);
      ItemsAreRead(items[1..], rest);
      assert bytes[|Render(items[0])|..] == tail;
    }
  }

  lemma {:induction false} EntriesAreRead(entries: seq<Entry>, rest: seq<Byte>)
    requires WellFormed(Entries(entries))
    requires |RenderEntries(entries) + [E] + rest| < U64_MAX
    ensures ParseEntries(RenderEntries(entries) + [E] + rest) ==
            Parsed(EntryMeanings(entries), |RenderEntries(entries)| + 1)
    decreases entries, 2
  {
    if entries != [] {
      var tail := RenderEntries(entries[1..]) + [E] + rest;
      assert RenderEntries(entries) + [E] + rest == RenderEntry(entries[0]) + tail;
      EntriesBehind(entries);
      EntriesAreRead(entries[1..], rest);
      FirstEntryIsRead(entries[0], tail);
    }
  }

  lemma EntryIsRead(bytes: seq<Byte>, key: seq<Byte>, n: nat, v: BValue, m: nat)
    requires Parse(bytes) == Parsed(Str(key), n) && Parse(bytes[n..]) == Parsed(v, m)
    ensures ParseEntry(bytes) == Parsed((key, v), n + m)
  {
  }

  lemma EntriesStartWith(bytes: seq<Byte>, e: (seq<Byte>, BValue), n: nat)
    requires bytes != [] && bytes[0] != E && ParseEntry(bytes) == Parsed(e, n) && ParseEntries(bytes[n..]).Parsed?
    ensures ParseEntries(bytes) == Parsed([e] + ParseEntries(bytes[n..]).value, n + ParseEntries(bytes[n..]).consumed)
  {
  }

  lemma {:induction false} PairIsRead(e: Entry, tail: seq<Byte>)
    requires GoodEntry(e) && |RenderEntry(e) + tail| < U64_MAX
    ensures ParseEntry(RenderEntry(e) + tail) == Parsed((e.key, Meaning(e.value)), |RenderEntry(e)|)
    decreases e, 1
  {
    var key, value := RenderText(e.length, e.key), Render(e.value);
    ThreeParts(key, value, tail);
    TextIsRead(e.length, e.key, value + tail);
    TextOfGrammarIsRead(e.value, tail);
    EntryIsRead(RenderEntry(e) + tail, e.key, |key|, Meaning(e.value), |value|);
  }

  lemma StartsAnEntry(e: Entry, tail: seq<Byte>)
    requires GoodEntry(e)
    ensures RenderEntry(e) + tail != [] && (RenderEntry(e) + tail)[0] != E
  {
    StartsAKey(e.length, e.key, Render(e.value) + tail);
    ThreeParts(RenderText(e.length, e.key), Render(e.value), tail);
  }

  lemma {:induction false} FirstEntryIsRead(e: Entry, tail: seq<Byte>)
    requires GoodEntry(e) && ParseEntries(tail).Parsed? && |RenderEntry(e) + tail| < U64_MAX
    ensures ParseEntries(RenderEntry(e) + tail) ==
            Parsed([(e.key, Meaning(e.value))] + ParseEntries(tail).value,
                   |RenderEntry(e)| + ParseEntries(tail).consumed)
    decreases e, 2
  {
    PairIsRead(e, tail);
    StartsAnEntry(e, tail);
    assert (RenderEntry(e) + tail)[|RenderEntry(e)|..] == tail;
    EntriesStartWith(RenderEntry(e) + tail, (e.key, Meaning(e.value)), |RenderEntry(e)|);
  }

  lemma StartsAKey(length: seq<Byte>, key: seq<Byte>, rest: seq<Byte>)
    requires GoodLength(length, key)
    ensures RenderText(length, key) + rest != [] && (RenderText(length, key) + rest)[0] != E
  {
  }

  /** A value never starts with the end mark. */
  lemma StartsAValue(node: Node, rest: seq<Byte>)
    requires WellFormed(node)
    ensures Render(node) + rest != [] && (Render(node) + rest)[0] != E
  {
  }

  /* ---- Whatever is read is a well-formed text ---- */

  ghost predicate Spells(node: Node, bytes: seq<Byte>, v: BValue, n: nat) {
    n <= |bytes| && WellFormed(node) && Render(node) == bytes[..n] && Meaning(node) == v
  }

  lemma TextWasRead(bytes: seq<Byte>) returns (length: seq<Byte>, content: seq<Byte>)
    requires bytes != [] && Decimal.IsDigit(bytes[0]) && ParseString(bytes).Parsed?
    ensures GoodLength(length, content)
    ensures ParseString(bytes) == Parsed(Str(content), |RenderText(length, content)|)
    ensures RenderText(length, content) == bytes[..ParseString(bytes).consumed]
  {
    var colon := Find(bytes, COLON).value;
    var r := ParseString(bytes);
    length, content := bytes[..colon], bytes[colon + 1..r.consumed];
    assert colon > 0;
  }

  lemma NumberWasRead(bytes: seq<Byte>) returns (node: Node)
    requires bytes != [] && bytes[0] == I && ParseNumber(bytes).Parsed?
    ensures Spells(node, bytes, ParseNumber(bytes).value, ParseNumber(bytes).consumed)
  {
    var end := Find(bytes, E).value;
    node := Number(bytes[1..end]);
    assert Render(node) == bytes[..end + 1];
  }

  lemma AfterMark(mark: Byte, body: seq<Byte>, bytes: seq<Byte>, n: nat)
    requires bytes != [] && bytes[0] == mark && n < |bytes|
    requires body + [E] == bytes[1..][..n]
    ensures [mark] + body + [E] == bytes[..n + 1]
  {
    assert [mark] + body + [E] == [mark] + (body + [E]);
    assert bytes[..n + 1] == [mark] + bytes[1..][..n];
  }

  lemma ListWasRead(bytes: seq<Byte>, items: seq<Node>)
    requires bytes != [] && bytes[0] == L && ParseItems(bytes[1..]).Parsed?
    requires forall i :: 0 <= i < |items| ==> WellFormed(items[i])
    requires Meanings(items) == ParseItems(bytes[1..]).value
    requires RenderItems(items) + [E] == bytes[1..][..ParseItems(bytes[1..]).consumed]
    ensures Spells(Items(items), bytes, Parse(bytes).value, Parse(bytes).consumed)
  {
    AfterMark(L, RenderItems(items), bytes, ParseItems(bytes[1..]).consumed);
  }

  lemma DictWasRead(bytes: seq<Byte>, entries: seq<Entry>)
    requires bytes != [] && bytes[0] == D && ParseEntries(bytes[1..]).Parsed?
    requires WellFormed(Entries(entries)) && EntryMeanings(entries) == ParseEntries(bytes[1..]).value
    requires RenderEntries(entries) + [E] == bytes[1..][..ParseEntries(bytes[1..]).consumed]
    ensures Spells(Entries(entries), bytes, Parse(bytes).value, Parse(bytes).consumed)
  {
    AfterMark(D, RenderEntries(entries), bytes, ParseEntries(bytes[1..]).consumed);
  }

  lemma {:induction false} ReadIsTextOfGrammar(bytes: seq<Byte>) returns (node: Node)
    requires Parse(bytes).Parsed?
    ensures Spells(node, bytes, Parse(bytes).value, Parse(bytes).consumed)
    decreases |bytes|, 1
  {
    if bytes[0] == I {
      node := NumberWasRead(bytes);
    } else if bytes[0] == L {
      var items := ReadItems(bytes[1..]);
      ListWasRead(bytes, items);
      node := Items(items);
    } else if bytes[0] == D {
      var entries := ReadEntries(bytes[1..]);
      DictWasRead(bytes, entries);
      node := Entries(entries);
    } else {
      var length, content := TextWasRead(bytes);
      node := Text(length, content);
    }
  }

  lemma Rejoin(first: seq<Byte>, others: seq<Byte>, bytes: seq<Byte>, n: nat, m: nat)
    requires n + m <= |bytes| && first == bytes[..n] && others + [E] == bytes[n..][..m]
    ensures first + others + [E] == bytes[..n + m]
  {
    FrontAndNext(bytes, n, m);
    assert first + others + [E] == first + (others + [E]);
  }

  lemma {:induction false} ReadItems(bytes: seq<Byte>) returns (items: seq<Node>)
    requires ParseItems(bytes).Parsed?
    ensures forall i :: 0 <= i < |items| ==> WellFormed(items[i])
    ensures Meanings(items) == ParseItems(bytes).value
    ensures RenderItems(items) + [E] == bytes[..ParseItems(bytes).consumed]
    decreases |bytes|, 2
  {
    if bytes[0] == E {
      items := [];
    } else {
      var first := ReadIsTextOfGrammar(bytes);
      var n := Parse(bytes).consumed;
      var others := ReadItems(bytes[n..]);
      items := [first] + others;
      assert items[1..] == others;
      var m := ParseItems(bytes[n..]).consumed;
      Rejoin(Render(first), RenderItems(others), bytes, n, m);
    }
  }

  lemma {:induction false} ReadEntry(bytes: seq<Byte>) returns (e: Entry)
    requires bytes != [] && ParseEntry(bytes).Parsed?
    ensures GoodLength(e.length, e.key) && WellFormed(e.value)
    ensures ParseEntry(bytes).value == (e.key, Meaning(e.value))
    ensures RenderEntry(e) == bytes[..ParseEntry(bytes).consumed]
    decreases |bytes|, 2
  {
    var n := Parse(bytes).consumed;
    var length, key := TextWasRead(bytes);
    var value := ReadIsTextOfGrammar(bytes[n..]);
    e := Entry(length, key, value);
    var m := Parse(bytes[n..]).consumed;
    FrontAndNext(bytes, n, m);
  }

  lemma {:induction false} ReadEntries(bytes: seq<Byte>) returns (entries: seq<Entry>)
    requires ParseEntries(bytes).Parsed?
    ensures WellFormed(Entries(entries)) && EntryMeanings(entries) == ParseEntries(bytes).value
    ensures RenderEntries(entries) + [E] == bytes[..ParseEntries(bytes).consumed]
    decreases |bytes|, 3
  {
    if bytes[0] == E {
      entries := [];
    } else {
      var first := ReadEntry(bytes);
      var n := ParseEntry(bytes).consumed;
      var others := ReadEntries(bytes[n..]);
      entries := [first] + others;
      assert entries[1..] == others;
      var m := ParseEntries(bytes[n..]).consumed;
      Rejoin(RenderEntry(first), RenderEntries(others), bytes, n, m);
    }
  }

  /**
    The parser accepts exactly the texts of the grammar: it reads `v` from the first `n`
    bytes just when those bytes are a well-formed text that means `v`.
  */
  lemma AcceptsExactlyTheGrammar(bytes: seq<Byte>, v: BValue, n: nat)
    requires |bytes| <= U64_MAX
    ensures Parse(bytes) == Parsed(v, n) <==> exists node :: Spells(node, bytes, v, n)
  {
    if Parse(bytes) == Parsed(v, n) {
      var node := ReadIsTextOfGrammar(bytes);
    }
    forall node | Spells(node, bytes, v, n)
      ensures Parse(bytes) == Parsed(v, n)
    {
      SpelledIsRead(node, bytes, v, n);
    }
  }

  lemma SpelledIsRead(node: Node, bytes: seq<Byte>, v: BValue, n: nat)
    requires |bytes| <= U64_MAX && Spells(node, bytes, v, n)
    ensures Parse(bytes) == Parsed(v, n)
  {
    assert bytes == Render(node) + bytes[n..];
    TextOfGrammarIsRead(node, bytes[n..]);
  }

  /** What is read depends on the bytes it takes and on nothing behind them. */
  lemma SelfDelimiting(bytes: seq<Byte>, other: seq<Byte>)
    requires Parse(bytes).Parsed? && |other| <= U64_MAX
    requires bytes[..Parse(bytes).consumed] <= other
    ensures Parse(other) == Parse(bytes)
  {
    var n := Parse(bytes).consumed;
    var node := ReadIsTextOfGrammar(bytes);
    assert other == Render(node) + other[n..];
    TextOfGrammarIsRead(node, other[n..]);
  }
}
