/** SeekHead payloads with other elements among the Seek entries and their fields, and payloads cut short. */
module SeekHeadGaps {
  import opened Wrappers
  import opened Machine
  import opened Sequences
  import opened Ebml
  import opened SeekHead

  /** Bytes that nowhere show the identifier of a Seek entry. */
  predicate NoEntryInside(gap: seq<Byte>) {
    forall i :: 0 <= i < |gap| - 1 ==> !(gap[i] == 0x4D && gap[i + 1] == 0xBB)
  }

  /** Bytes that nowhere show the identifier of a field. */
  predicate NoFieldInside(gap: seq<Byte>) {
    forall i :: 0 <= i < |gap| - 1 ==> !(gap[i] == 0x53 && (gap[i + 1] == 0xAB || gap[i + 1] == 0xAC))
  }

  /** A field with other elements before it. */
  datatype LooseField = LooseField(before: seq<Byte>, field: Field)

  /** A Seek entry with other elements before it, among its fields and behind them. */
  datatype LooseEntry = LooseEntry(before: seq<Byte>, width: nat, fields: seq<LooseField>, after: seq<Byte>)

  function LooseFieldBytes(f: LooseField): seq<Byte> {
    f.before + FieldBytes(f.field)
  }

  function FieldParts(fields: seq<LooseField>): seq<seq<Byte>> {
    seq(|fields|, i requires 0 <= i < |fields| => LooseFieldBytes(fields[i]))
  }

  /** What stands in the entry. */
  function Inside(e: LooseEntry): seq<Byte> {
    Concat(FieldParts(e.fields)) + e.after
  }

  function LooseEntryBytes(e: LooseEntry): seq<Byte> {
    e.before + Element(0x4D, 0xBB, e.width, Inside(e))
  }

  function EntryParts(entries: seq<LooseEntry>): seq<seq<Byte>> {
    seq(|entries|, i requires 0 <= i < |entries| => LooseEntryBytes(entries[i]))
  }

  predicate LooseFits(e: LooseEntry) {
    && NoEntryInside(e.before) && NoFieldInside(e.after) && Fits(|Inside(e)|, e.width)
    && forall i :: 0 <= i < |e.fields| ==> NoFieldInside(e.fields[i].before) && FieldFits(e.fields[i].field)
  }

  function JustFields(fields: seq<LooseField>): (r: seq<Field>)
    ensures |r| == |fields| && forall i :: 0 <= i < |r| ==> r[i] == fields[i].field
  {
    seq(|fields|, i requires 0 <= i < |fields| => fields[i].field)
  }

  /** The position an entry gives for the Cues, whatever else is in it. */
  function LooseCuesIn(e: LooseEntry): Option<nat> {
    CuesIn(Seek(e.width, JustFields(e.fields)))
  }

  /* ---- Gaps are skipped byte by byte ---- */

  lemma {:induction false} GapBeforeEntry(data: seq<Byte>, pos: nat, gap: seq<Byte>)
    requires pos + |gap| <= |data| && gap == data[pos..pos + |gap|] && NoEntryInside(gap)
    requires pos + |gap| < |data| ==> data[pos + |gap|] != 0xBB
    ensures Contents(data, pos) == Contents(data, pos + |gap|)
    decreases |gap|
  {
    if gap != [] {
      assert gap[0] == data[pos];
      if |gap| > 1 {
        assert gap[1] == data[pos + 1];
      }
      assert gap[1..] == data[pos + 1..pos + |gap|];
      GapBeforeEntry(data, pos + 1, gap[1..]);
    }
  }

  lemma {:induction false} GapBeforeField(data: seq<Byte>, pos: nat, gap: seq<Byte>)
    requires pos + |gap| <= |data| && gap == data[pos..pos + |gap|] && NoFieldInside(gap)
    requires pos + |gap| < |data| ==> data[pos + |gap|] != 0xAB && data[pos + |gap|] != 0xAC
    ensures Tokens(data, pos) == Tokens(data, pos + |gap|)
    decreases |gap|
  {
    if gap != [] {
      assert gap[0] == data[pos];
      if |gap| > 1 {
        assert gap[1] == data[pos + 1];
      }
      assert gap[1..] == data[pos + 1..pos + |gap|];
      GapBeforeField(data, pos + 1, gap[1..]);
    }
  }

  lemma PartsInPlace(data: seq<Byte>, pos: nat, gap: seq<Byte>, rest: seq<Byte>)
    requires pos <= |data| && gap + rest <= data[pos..]
    ensures pos + |gap| <= |data| && gap == data[pos..pos + |gap|] && rest <= data[pos + |gap|..]
  {
    assert gap == (gap + rest)[..|gap|] == data[pos..][..|gap|];
    assert data[pos..][|gap|..] == data[pos + |gap|..];
    assert rest == (gap + rest)[|gap|..];
  }

  lemma ElementStarts(data: seq<Byte>, at: nat, a: Byte, b: Byte, width: nat, content: seq<Byte>)
    requires at <= |data| && Element(a, b, width, content) <= data[at..]
    ensures at < |data| && data[at] == a
  {
    var element := Element(a, b, width, content);
    assert element[0] == a && data[at..][0] == element[0];
  }

  lemma LooseFieldIsRead(data: seq<Byte>, pos: nat, f: LooseField)
    requires NoFieldInside(f.before) && FieldFits(f.field) && pos <= |data| && LooseFieldBytes(f) <= data[pos..]
    ensures Tokens(data, pos) == [TokenOf(f.field)] + Tokens(data, pos + |LooseFieldBytes(f)|)
  {
    PartsInPlace(data, pos, f.before, FieldBytes(f.field));
    FieldBehindGap(data, pos, f.before, f.field);
  }

  lemma FieldBehindGap(data: seq<Byte>, pos: nat, before: seq<Byte>, f: Field)
    requires pos + |before| <= |data| && before == data[pos..pos + |before|] && NoFieldInside(before)
    requires FieldFits(f) && FieldBytes(f) <= data[pos + |before|..]
    ensures Tokens(data, pos) == [TokenOf(f)] + Tokens(data, pos + |before| + |FieldBytes(f)|)
  {
    var at := pos + |before|;
    ElementStarts(data, at, 0x53, if f.SeekId? then 0xAB else 0xAC, f.width, f.bytes);
    GapBeforeField(data, pos, before);
    FieldIsRead(data, at, f);
  }

  lemma LooseFieldScans(data: seq<Byte>, f: LooseField)
    requires NoFieldInside(f.before) && FieldFits(f.field)
    ensures Scans((p: nat) => Tokens(data, p), data, LooseFieldBytes(f), TokenOf(f.field))
  {
    forall p: nat | p <= |data| && LooseFieldBytes(f) <= data[p..]
      ensures Tokens(data, p) == [TokenOf(f.field)] + Tokens(data, p + |LooseFieldBytes(f)|)
    {
      LooseFieldIsRead(data, p, f);
    }
  }

  /** The fields of an entry are met in their order, and nothing else is. */
  lemma InsideIsRead(e: LooseEntry)
    requires LooseFits(e)
    ensures Tokens(Inside(e), 0) == TokensOf(JustFields(e.fields))
  {
    var data, parts, tokens := Inside(e), FieldParts(e.fields), TokensOf(JustFields(e.fields));
    var scan := (p: nat) => Tokens(data, p);
    forall i | 0 <= i < |parts|
      ensures Scans(scan, data, parts[i], tokens[i])
    {
      LooseFieldScans(data, e.fields[i]);
    }
    assert data[0..] == Concat(parts) + e.after;
    ScansBefore(scan, data, 0, parts, tokens, e.after);
    GapBeforeField(data, |data| - |e.after|, e.after);
    assert tokens + [] == tokens;
  }

  /* ---- Entries ---- */

  lemma LooseEntryIsRead(data: seq<Byte>, pos: nat, e: LooseEntry)
    requires LooseFits(e) && pos <= |data| && LooseEntryBytes(e) <= data[pos..]
    ensures Contents(data, pos) == [Inside(e)] + Contents(data, pos + |LooseEntryBytes(e)|)
  {
    PartsInPlace(data, pos, e.before, Element(0x4D, 0xBB, e.width, Inside(e)));
    EntryBehindGap(data, pos, e.before, e.width, Inside(e));
  }

  lemma EntryBehindGap(data: seq<Byte>, pos: nat, before: seq<Byte>, width: nat, content: seq<Byte>)
    requires pos + |before| <= |data| && before == data[pos..pos + |before|] && NoEntryInside(before)
    requires Fits(|content|, width) && Element(0x4D, 0xBB, width, content) <= data[pos + |before|..]
    ensures Contents(data, pos) == [content] + Contents(data, pos + |before| + 2 + width + |content|)
  {
    var at := pos + |before|;
    ElementStarts(data, at, 0x4D, 0xBB, width, content);
    GapBeforeEntry(data, pos, before);
    EntryElement(data, at, width, content);
  }

  lemma EntryElement(data: seq<Byte>, at: nat, width: nat, content: seq<Byte>)
    requires Fits(|content|, width) && at <= |data| && Element(0x4D, 0xBB, width, content) <= data[at..]
    ensures Contents(data, at) == [content] + Contents(data, at + 2 + width + |content|)
  {
    ElementIsRead(data, at, 0x4D, 0xBB, width, content);
    ContentMet(data, at);
  }

  function Insides(entries: seq<LooseEntry>): (r: seq<seq<Byte>>)
    ensures |r| == |entries|
  {
    seq(|entries|, i requires 0 <= i < |entries| => Inside(entries[i]))
  }

  predicate AllFit(entries: seq<LooseEntry>) {
    forall i :: 0 <= i < |entries| ==> LooseFits(entries[i])
  }

  lemma EntriesBefore(entries: seq<LooseEntry>, tail: seq<Byte>)
    requires AllFit(entries)
    ensures var data := Concat(EntryParts(entries)) + tail;
            Contents(data, 0) == Insides(entries) + Contents(data, |data| - |tail|)
  {
    var data := Concat(EntryParts(entries)) + tail;
    var scan := (p: nat) => Contents(data, p);
    EntriesScan(entries, data, scan);
    assert data[0..] == data;
    ScansBefore(scan, data, 0, EntryParts(entries), Insides(entries), tail);
  }

  lemma EntriesScan(entries: seq<LooseEntry>, data: seq<Byte>, scan: nat -> seq<seq<Byte>>)
    requires AllFit(entries) && forall p: nat :: scan(p) == Contents(data, p)
    ensures |EntryParts(entries)| == |entries|
    ensures forall i :: 0 <= i < |entries| ==> Scans(scan, data, EntryParts(entries)[i], Insides(entries)[i])
  {
    forall i | 0 <= i < |entries|
      ensures Scans(scan, data, EntryParts(entries)[i], Insides(entries)[i])
    {
      forall p: nat | p <= |data| && LooseEntryBytes(entries[i]) <= data[p..]
        ensures scan(p) == [Inside(entries[i])] + scan(p + |LooseEntryBytes(entries[i])|)
      {
        LooseEntryIsRead(data, p, entries[i]);
      }
    }
  }

  predicate FirstLooseAt(entries: seq<LooseEntry>, i: nat) {
    i < |entries| && LooseCuesIn(entries[i]).Some? && forall j :: 0 <= j < i ==> LooseCuesIn(entries[j]).None?
  }

  lemma FirstOfInsides(entries: seq<LooseEntry>, last: seq<seq<Byte>>)
    requires entries != [] && LooseFits(entries[0])
    ensures FirstSaid(Insides(entries) + last) == LooseCuesIn(entries[0]).Or(FirstSaid(Insides(entries[1..]) + last))
  {
    InsideIsRead(entries[0]);
    assert Insides(entries) == [Inside(entries[0])] + Insides(entries[1..]);
    Assoc([Inside(entries[0])], Insides(entries[1..]), last);
    FirstSaidOf(Inside(entries[0]), Insides(entries[1..]) + last);
  }

  lemma FirstSaidOf(content: seq<Byte>, others: seq<seq<Byte>>)
    ensures FirstSaid([content] + others) == Said(Tokens(content, 0)).Or(FirstSaid(others))
  {
    assert ([content] + others)[1..] == others;
  }

  lemma {:induction false} FirstLooseIff(entries: seq<LooseEntry>, last: seq<seq<Byte>>)
    requires AllFit(entries)
    ensures forall i: nat :: FirstLooseAt(entries, i) ==> FirstSaid(Insides(entries) + last) == LooseCuesIn(entries[i])
    ensures (forall i :: 0 <= i < |entries| ==> LooseCuesIn(entries[i]).None?) ==>
              FirstSaid(Insides(entries) + last) == FirstSaid(last)
    decreases entries
  {
    if entries == [] {
      assert Insides(entries) + last == last;
    } else {
      FirstLooseIff(entries[1..], last);
      FirstOfInsides(entries, last);
      forall i: nat | FirstLooseAt(entries, i)
        ensures FirstSaid(Insides(entries) + last) == LooseCuesIn(entries[i])
      {
        if i > 0 {
          assert FirstLooseAt(entries[1..], i - 1);
        }
      }
    }
  }

  /**
    For every payload of Seek entries with any other elements before, among, inside and behind
    them, as long as their bytes show no identifier of an entry or a field, the search gives the
    position of the first entry about the Cues, and nothing exactly when there is none.
  */
  lemma SeekHeadWithGapsIsRead(entries: seq<LooseEntry>, after: seq<Byte>)
    requires AllFit(entries) && NoEntryInside(after)
    ensures var found := FirstSaid(Contents(Concat(EntryParts(entries)) + after, 0));
            && (forall i: nat :: FirstLooseAt(entries, i) ==> found == LooseCuesIn(entries[i]))
            && (found.None? <==> forall i :: 0 <= i < |entries| ==> LooseCuesIn(entries[i]).None?)
  {
    AllContents(entries, after);
    FirstLooseIff(entries, []);
    if i: nat :| i < |entries| && LooseCuesIn(entries[i]).Some? {
      var first := FirstLoose(entries, i);
    }
  }

  lemma AllContents(entries: seq<LooseEntry>, after: seq<Byte>)
    requires AllFit(entries) && NoEntryInside(after)
    ensures Contents(Concat(EntryParts(entries)) + after, 0) == Insides(entries) + []
  {
    var data := Concat(EntryParts(entries)) + after;
    EntriesBefore(entries, after);
    assert data[|data| - |after|..] == after;
    GapBeforeEntry(data, |data| - |after|, after);
    BehindTheEnd(data, |data|);
  }

  lemma {:induction false} FirstLoose(entries: seq<LooseEntry>, i: nat) returns (first: nat)
    requires i < |entries| && LooseCuesIn(entries[i]).Some?
    ensures FirstLooseAt(entries, first)
  {
    if j: nat :| j < i && LooseCuesIn(entries[j]).Some? {
      first := FirstLoose(entries, j);
    } else {
      first := i;
    }
  }

  /* ---- A payload cut short ---- */

  /** The last entry, as far as it is there, of an announced size that is not. */
  function CutEntry(before: seq<Byte>, width: nat, size: nat, rest: seq<Byte>): seq<Byte> {
    before + ([0x4D, 0xBB] + VintBytes(size, width) + rest)
  }

  lemma CutElement(data: seq<Byte>, pos: nat, width: nat, size: nat, rest: seq<Byte>)
    requires Fits(size, width) && |rest| < size && pos <= |data|
    requires data[pos..] == [0x4D, 0xBB] + VintBytes(size, width) + rest
    ensures StartsWith(data, pos, 0x4D, 0xBB)
    ensures EntryContent(data, pos) == rest && End(data, pos) > |data|
  {
    var here, bytes := data[pos..], VintBytes(size, width);
    assert here[0] == 0x4D && here[1] == 0xBB && here[2..] == bytes + rest;
    assert here[2..][..width] == bytes;
    VintIsRead(here[2..], size, width);
    assert Header(here) == Some((size, 2 + width));
    assert data[pos + 2 + width..] == here[2 + width..] == rest;
  }

  lemma BehindTheEnd(data: seq<Byte>, pos: nat)
    requires pos + 2 >= |data|
    ensures Contents(data, pos) == []
  {
  }

  /** An entry that the payload ends in the middle of is read as far as it is there. */
  lemma CutEntryIsRead(entries: seq<LooseEntry>, before: seq<Byte>, width: nat, size: nat, rest: seq<Byte>)
    requires AllFit(entries) && NoEntryInside(before) && Fits(size, width) && |rest| < size
    ensures FirstSaid(Contents(Concat(EntryParts(entries)) + CutEntry(before, width, size, rest), 0)) ==
            FirstSaid(Insides(entries) + [rest])
  {
    var tail := CutEntry(before, width, size, rest);
    var data := Concat(EntryParts(entries)) + tail;
    EntriesBefore(entries, tail);
    assert data[|data| - |tail|..] == tail;
    CutTail(data, |data| - |tail|, before, width, size, rest);
  }

  lemma CutTail(data: seq<Byte>, pos: nat, before: seq<Byte>, width: nat, size: nat, rest: seq<Byte>)
    requires NoEntryInside(before) && Fits(size, width) && |rest| < size
    requires pos <= |data| && data[pos..] == CutEntry(before, width, size, rest)
    ensures Contents(data, pos) == [rest]
  {
    var element := [0x4D, 0xBB] + VintBytes(size, width) + rest;
    var at := pos + |before|;
    PartsInPlace(data, pos, before, element);
    assert data[at..] == element;
    assert element[0] == 0x4D && data[at] == data[at..][0];
    GapBeforeEntry(data, pos, before);
    CutElement(data, at, width, size, rest);
    ContentMet(data, at);
    BehindTheEnd(data, End(data, at));
    assert [rest] + [] == [rest];
  }

  /** A field that its entry ends in the middle of is met, but says nothing. */
  lemma CutFieldSaysNothing(data: seq<Byte>, pos: nat, isId: bool, width: nat, size: nat, rest: seq<Byte>)
    requires Fits(size, width) && |rest| < size && pos <= |data|
    requires data[pos..] == [0x53, if isId then 0xAB else 0xAC] + VintBytes(size, width) + rest
    ensures Tokens(data, pos) == [Token(isId, None)]
    ensures forall tokens :: IdIn(tokens + Tokens(data, pos)) == IdIn(tokens)
                             && PositionIn(tokens + Tokens(data, pos)) == PositionIn(tokens)
  {
    var here, bytes := data[pos..], VintBytes(size, width);
    assert here[0] == 0x53 && here[1] == (if isId then 0xAB else 0xAC) && here[2..] == bytes + rest;
    assert here[2..][..width] == bytes;
    VintIsRead(here[2..], size, width);
    assert Header(here) == Some((size, 2 + width));
    FieldMet(data, pos);
    assert Tokens(data, End(data, pos)) == [];
    forall tokens
      ensures IdIn(tokens + [Token(isId, None)]) == IdIn(tokens)
      ensures PositionIn(tokens + [Token(isId, None)]) == PositionIn(tokens)
    {
      OneMoreToken(tokens, Token(isId, None));
    }
  }
}
