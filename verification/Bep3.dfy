/** The encoding BEP 3 prescribes for a value, and the parser as its inverse. */
module Bep3 {
  import opened Wrappers
  import opened Machine
  import opened Bencode
  import opened BencodeProofs
  import Decimal

  /* ---- Keys in order ---- */

  /** Byte strings in dictionary order. */
  predicate Before(a: seq<Byte>, b: seq<Byte>) {
    if b == [] then false
    else if a == [] then true
    else a[0] < b[0] || (a[0] == b[0] && Before(a[1..], b[1..]))
  }

  predicate Ascending(keys: seq<seq<Byte>>) {
    forall i, j :: 0 <= i < j < |keys| ==> Before(keys[i], keys[j])
  }

  lemma {:induction false} Trichotomy(a: seq<Byte>, b: seq<Byte>)
    ensures a == b || Before(a, b) || Before(b, a)
  {
    if a != [] && b != [] && a[0] == b[0] {
      Trichotomy(a[1..], b[1..]);
      assert a == [a[0]] + a[1..] && b == [b[0]] + b[1..];
    }
  }

  lemma {:induction false} Transitive(a: seq<Byte>, b: seq<Byte>, c: seq<Byte>)
    requires Before(a, b) && Before(b, c)
    ensures Before(a, c)
  {
    if a != [] && a[0] == b[0] && b[0] == c[0] {
      Transitive(a[1..], b[1..], c[1..]);
    }
  }

  /** The keys with one more put in its place. */
  ghost function Insert(key: seq<Byte>, keys: seq<seq<Byte>>): (r: seq<seq<Byte>>)
    requires Ascending(keys) && key !in keys
    ensures Ascending(r) && forall k :: k in r <==> k == key || k in keys
  {
    if keys == [] then [key]
    else
      Trichotomy(key, keys[0]);
      if Before(key, keys[0]) then
        assert forall i :: 0 < i < |keys| && Before(keys[0], keys[i]) ==> Before(key, keys[i]) by {
          forall i | 0 < i < |keys| && Before(keys[0], keys[i])
            ensures Before(key, keys[i])
          {
            Transitive(key, keys[0], keys[i]);
          }
        }
        [key] + keys
      else
        var rest := Insert(key, keys[1..]);
        assert forall k :: k in rest ==> Before(keys[0], k);
        [keys[0]] + rest
  }

  ghost function SortedKeys(keys: set<seq<Byte>>): (r: seq<seq<Byte>>)
    ensures Ascending(r) && forall k :: k in r <==> k in keys
  {
    if keys == {} then []
    else
      var key :| key in keys;
      Insert(key, SortedKeys(keys - {key}))
  }

  /* ---- Numerals ---- */

  function NatText(n: nat): (r: seq<Byte>)
    ensures r != [] && AllDigits(r)
  {
    TextOf(Decimal.Digits(n))
  }

  function TextOf(digits: seq<nat>): (r: seq<Byte>)
    requires forall i :: 0 <= i < |digits| ==> digits[i] < 10
    ensures |r| == |digits| && AllDigits(r)
  {
    seq(|digits|, i requires 0 <= i < |digits| => ByteOf(digits[i]))
  }

  function ByteOf(digit: nat): (r: Byte)
    requires digit < 10
    ensures Decimal.IsDigit(r) && DigitValue(r) == digit
  {
    48 + digit
  }

  function Magnitude(i: int): nat {
    if i < 0 then -i else i
  }

  function IntText(i: I64): seq<Byte> {
    if i < 0 then [MINUS] + NatText(Magnitude(i)) else NatText(i)
  }

  lemma NatTextValue(n: nat)
    ensures Decimal.Value(DigitValues(NatText(n))) == n
  {
    assert DigitValues(NatText(n)) == Decimal.Digits(n);
    Decimal.DigitsValue(n);
  }

  lemma NatTextIsRead(n: nat)
    requires n <= U64_MAX
    ensures ParseUsize(NatText(n)) == Some(n)
  {
    NatTextValue(n);
    assert Decimal.IsDigit(NatText(n)[0]);
  }

  lemma IntTextIsRead(i: I64)
    ensures ParseI64(IntText(i)) == Some(i)
  {
    var text := IntText(i);
    if i < 0 {
      NatTextValue(Magnitude(i));
      assert text[1..] == NatText(Magnitude(i));
    } else {
      NatTextValue(i);
      assert Decimal.IsDigit(text[0]);
    }
  }

  /* ---- Values ---- */

  /** The text of a value: shortest numerals, and each key once, in ascending order. */
  ghost function Canon(v: BValue): Node
    decreases v, 1, 0
  {
    match v
    case Int(i) => Number(IntText(i))
    case Str(bytes) => Text(NatText(|bytes|), bytes)
    case List(items) => Items(CanonItems(items))
    case Dict(entries) => Entries(CanonEntries(v, SortedKeys(entries.Keys)))
  }

  ghost function CanonItems(items: seq<BValue>): seq<Node>
    decreases items, 2, 0
  {
    if items == [] then [] else [Canon(items[0])] + CanonItems(items[1..])
  }

  ghost function CanonEntries(v: BValue, keys: seq<seq<Byte>>): seq<Entry>
    requires v.Dict? && forall k :: k in keys ==> k in v.entries
    decreases v, 0, |keys|
  {
    if keys == [] then []
    else
      assert keys[0] in keys;
      [Entry(NatText(|keys[0]|), keys[0], Canon(v.entries[keys[0]]))] + CanonEntries(v, keys[1..])
  }

  /** The bytes BEP 3 prescribes. */
  ghost function Encode(v: BValue): seq<Byte> {
    Render(Canon(v))
  }

  /* ---- The parser inverts the encoding ---- */

  function PairsOf(entries: map<seq<Byte>, BValue>, keys: seq<seq<Byte>>): seq<(seq<Byte>, BValue)>
    requires forall k :: k in keys ==> k in entries
  {
    seq(|keys|, i requires 0 <= i < |keys| => assert keys[i] in keys; (keys[i], entries[keys[i]]))
  }

  lemma {:induction false} CollectPairs(entries: map<seq<Byte>, BValue>, keys: seq<seq<Byte>>)
    requires forall k :: k in keys ==> k in entries
    ensures Collect(PairsOf(entries, keys)) == map k | k in keys :: entries[k]
  {
    if keys != [] {
      var init := keys[..|keys| - 1];
      CollectPairs(entries, init);
      assert PairsOf(entries, keys)[..|keys| - 1] == PairsOf(entries, init);
      assert keys == init + [keys[|keys| - 1]];
    }
  }

  lemma CollectAllPairs(entries: map<seq<Byte>, BValue>, keys: seq<seq<Byte>>)
    requires forall k :: k in keys <==> k in entries
    ensures Collect(PairsOf(entries, keys)) == entries
  {
    CollectPairs(entries, keys);
  }

  lemma {:induction false} CanonReads(v: BValue)
    requires |Render(Canon(v))| <= U64_MAX
    ensures WellFormed(Canon(v)) && Meaning(Canon(v)) == v
    decreases v, 1, 0
  {
    if v.Int? {
      IntTextIsRead(v.i);
    } else if v.Str? {
      NatTextIsRead(|v.bytes|);
    } else if v.List? {
      CanonItemsRead(v.items);
    } else {
      var keys := SortedKeys(v.entries.Keys);
      CanonEntriesRead(v, keys);
      CollectAllPairs(v.entries, keys);
    }
  }

  lemma {:induction false} CanonItemsRead(items: seq<BValue>)
    requires |RenderItems(CanonItems(items))| <= U64_MAX
    ensures forall i :: 0 <= i < |CanonItems(items)| ==> WellFormed(CanonItems(items)[i])
    ensures Meanings(CanonItems(items)) == items
    decreases items, 2, 0
  {
    if items != [] {
      assert CanonItems(items)[1..] == CanonItems(items[1..]);
      CanonReads(items[0]);
      CanonItemsRead(items[1..]);
    }
  }

  lemma OneEntryMore(e: Entry, rest: seq<Entry>)
    requires GoodLength(e.length, e.key) && WellFormed(e.value) && WellFormed(Entries(rest))
    ensures WellFormed(Entries([e] + rest))
    ensures EntryMeanings([e] + rest) == [(e.key, Meaning(e.value))] + EntryMeanings(rest)
  {
    assert ([e] + rest)[1..] == rest;
  }

  lemma RenderOneMore(e: Entry, rest: seq<Entry>)
    ensures RenderEntries([e] + rest) == RenderEntry(e) + RenderEntries(rest)
  {
    assert ([e] + rest)[1..] == rest;
  }

  lemma PairsOneMore(entries: map<seq<Byte>, BValue>, keys: seq<seq<Byte>>)
    requires keys != [] && forall k :: k in keys ==> k in entries
    ensures keys[0] in entries && forall k :: k in keys[1..] ==> k in entries
    ensures PairsOf(entries, keys) == [(keys[0], entries[keys[0]])] + PairsOf(entries, keys[1..])
  {
    assert keys[0] in keys;
  }

  lemma {:induction false} CanonEntriesRead(v: BValue, keys: seq<seq<Byte>>)
    requires v.Dict? && forall k :: k in keys ==> k in v.entries
    requires |RenderEntries(CanonEntries(v, keys))| <= U64_MAX
    ensures WellFormed(Entries(CanonEntries(v, keys)))
    ensures EntryMeanings(CanonEntries(v, keys)) == PairsOf(v.entries, keys)
    decreases v, 0, |keys|
  {
    if keys != [] {
      PairsOneMore(v.entries, keys);
      var e := Entry(NatText(|keys[0]|), keys[0], Canon(v.entries[keys[0]]));
      RenderOneMore(e, CanonEntries(v, keys[1..]));
      NatTextIsRead(|keys[0]|);
      CanonReads(v.entries[keys[0]]);
      CanonEntriesRead(v, keys[1..]);
      OneEntryMore(e, CanonEntries(v, keys[1..]));
    }
  }

  /** Parsing the encoding of any value, whatever follows it, gives that value and its exact length. */
  lemma RoundTrip(v: BValue, rest: seq<Byte>)
    requires |Encode(v) + rest| <= U64_MAX
    ensures Parse(Encode(v) + rest) == Parsed(v, |Encode(v)|)
  {
    CanonReads(v);
    TextOfGrammarIsRead(Canon(v), rest);
  }

  /** No encoding is the beginning of another value's encoding. */
  lemma PrefixFree(v: BValue, w: BValue)
    requires Encode(v) <= Encode(w) && |Encode(w)| <= U64_MAX
    ensures v == w
  {
    var first, second := Encode(v), Encode(w);
    var behind := second[|first|..];
    assert second == first + behind == second + [];
    RoundTrip(v, behind);
    RoundTrip(w, []);
  }
}
