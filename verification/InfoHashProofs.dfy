/** Exactly which torrent files are accepted, and with what. */
module InfoHashProofs {
  import opened Wrappers
  import opened Machine
  import opened Sequences
  import opened Bencode
  import opened BencodeProofs
  import opened InfoHash

  /** The file starts with a dictionary whose entry at `k` is its info dictionary. */
  predicate GoodFile(bytes: seq<Byte>, entries: seq<Entry>, k: nat, info: map<seq<Byte>, BValue>) {
    && WellFormed(Entries(entries)) && Render(Entries(entries)) <= bytes
    && IsInfoEntry(entries, k) && entries[k].value.Entries?
    && WellFormed(entries[k].value) && Meaning(entries[k].value) == Dict(info)
  }

  /** The first "4:info" of the file stands at `i`, right before a well-formed text. */
  predicate HashedPart(bytes: seq<Byte>, i: nat, node: Node) {
    && OccursAt(bytes, INFO_PATTERN, i) && (forall j: nat :: j < i ==> !OccursAt(bytes, INFO_PATTERN, j))
    && WellFormed(node) && Render(node) <= bytes[i + 6..]
  }

  /* ---- What is accepted ---- */

  lemma {:induction false} LastOfKey(pairs: seq<(seq<Byte>, BValue)>, key: seq<Byte>) returns (k: nat)
    requires key in Collect(pairs)
    ensures k < |pairs| && pairs[k].0 == key && Collect(pairs)[key] == pairs[k].1
    ensures forall j :: k < j < |pairs| ==> pairs[j].0 != key
  {
    k := |pairs| - 1;
    if pairs[k].0 != key {
      k := LastOfKey(pairs[..|pairs| - 1], key);
    }
  }

  lemma RootWasRead(bytes: seq<Byte>) returns (entries: seq<Entry>)
    requires Parse(bytes).Parsed? && Parse(bytes).value.Dict?
    ensures WellFormed(Entries(entries)) && Render(Entries(entries)) <= bytes
    ensures Parse(bytes).value == Dict(Collect(EntryMeanings(entries)))
  {
    var node := ReadIsTextOfGrammar(bytes);
    entries := node.entries;
  }

  lemma InfoWasRead(entries: seq<Entry>) returns (k: nat)
    requires WellFormed(Entries(entries)) && INFO_KEY in Collect(EntryMeanings(entries))
    ensures IsInfoEntry(entries, k) && WellFormed(entries[k].value)
    ensures Meaning(entries[k].value) == Collect(EntryMeanings(entries))[INFO_KEY]
  {
    k := LastOfKey(EntryMeanings(entries), INFO_KEY);
    forall j | k <= j < |entries|
      ensures entries[j].key == EntryMeanings(entries)[j].0
    {
      EntryMeaningAt(entries, j);
    }
    EntryMeaningAt(entries, k);
  }

  lemma RawWasRead(bytes: seq<Byte>) returns (i: nat, node: Node)
    requires ExtractInfo(bytes).Found?
    ensures HashedPart(bytes, i, node) && ExtractInfo(bytes).raw == Render(node)
  {
    i := FirstIndex(bytes, INFO_PATTERN).value;
    node := ReadIsTextOfGrammar(bytes[i + 6..]);
    CutAt(bytes, i + 6, Render(node));
  }

  /* ---- What has the form is accepted ---- */

  lemma FirstIs(bytes: seq<Byte>, i: nat)
    requires OccursAt(bytes, INFO_PATTERN, i) && forall j: nat :: j < i ==> !OccursAt(bytes, INFO_PATTERN, j)
    ensures FirstIndex(bytes, INFO_PATTERN) == Some(i)
  {
    var r := FirstIndex(bytes, INFO_PATTERN);
    assert r.Some? && !(r.value < i) && !(i < r.value);
  }

  lemma RawIsRead(bytes: seq<Byte>, i: nat, node: Node)
    requires |bytes| <= U64_MAX && HashedPart(bytes, i, node)
    ensures ExtractInfo(bytes) == Found(i + 6, Render(node))
  {
    FirstIs(bytes, i);
    ExtractsAtIff(bytes, i, node);
  }

  lemma RootIsRead(bytes: seq<Byte>, entries: seq<Entry>, k: nat, info: map<seq<Byte>, BValue>)
    requires |bytes| <= U64_MAX && GoodFile(bytes, entries, k, info)
    ensures Parse(bytes).Parsed? && Parse(bytes).value.Dict? && INFO_KEY in Parse(bytes).value.entries
    ensures Parse(bytes).value.entries[INFO_KEY] == Dict(info)
  {
    ParsesPrefix(Entries(entries), bytes);
    forall j | k <= j < |entries|
      ensures EntryMeanings(entries)[j].0 == entries[j].key
    {
      EntryMeaningAt(entries, j);
    }
    EntryMeaningAt(entries, k);
    CollectLast(EntryMeanings(entries), k);
  }

  ghost predicate Accepts(bytes: seq<Byte>, digest: seq<Byte> -> string, hash: string,
                          info: map<seq<Byte>, BValue>)
  {
    && (exists entries, k: nat :: GoodFile(bytes, entries, k, info))
    && exists i: nat, node :: HashedPart(bytes, i, node) && hash == digest(Render(node))
  }

  lemma AcceptedHasForm(bytes: seq<Byte>, digest: seq<Byte> -> string)
    requires ParseTorrent(bytes, digest).Torrent?
    ensures var t := ParseTorrent(bytes, digest); Accepts(bytes, digest, t.infoHash, t.info)
  {
    var t := ParseTorrent(bytes, digest);
    var entries := RootWasRead(bytes);
    var k := InfoWasRead(entries);
    var i, node := RawWasRead(bytes);
    assert GoodFile(bytes, entries, k, t.info);
    assert HashedPart(bytes, i, node) && t.infoHash == digest(Render(node));
  }

  /**
    A file is accepted exactly if it starts with a well-formed dictionary that has an info
    dictionary, the last one of its key, and the first "4:info" anywhere in the file is followed by a
    well-formed text; the digest is that text's, and the dictionary is the one of the key.
  */
  lemma AcceptedIff(bytes: seq<Byte>, digest: seq<Byte> -> string, hash: string, info: map<seq<Byte>, BValue>)
    requires |bytes| <= U64_MAX
    ensures ParseTorrent(bytes, digest) == Torrent(hash, info) <==> Accepts(bytes, digest, hash, info)
  {
    if ParseTorrent(bytes, digest) == Torrent(hash, info) {
      AcceptedHasForm(bytes, digest);
    }
    if Accepts(bytes, digest, hash, info) {
      var entries, k: nat :| GoodFile(bytes, entries, k, info);
      var i: nat, node :| HashedPart(bytes, i, node) && hash == digest(Render(node));
      RootIsRead(bytes, entries, k, info);
      RawIsRead(bytes, i, node);
    }
  }

  /** A torrent file that ends early is refused, or aborts the program, wherever it is cut. */
  lemma TruncatedIsNotAccepted(entries: seq<Entry>, cut: nat, digest: seq<Byte> -> string)
    requires WellFormed(Entries(entries)) && |Render(Entries(entries))| <= U64_MAX
    requires cut < |Render(Entries(entries))|
    ensures !ParseTorrent(Render(Entries(entries))[..cut], digest).Torrent?
  {
    var whole := Render(Entries(entries));
    ParsesPrefix(Entries(entries), whole);
    if Parse(whole[..cut]).Parsed? {
      SelfDelimiting(whole[..cut], whole);
    }
  }
}
