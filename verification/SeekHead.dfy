/**
  Variable-size integers as RFC 8794 encodes them and SeekHead elements as RFC 9559 lays them
  out, and that the readers recover what was written.
*/
module SeekHead {
  import opened Wrappers
  import opened Machine
  import opened Sequences
  import opened Ebml

  /* ---- Variable-size integers ---- */

  function BytesOf(n: nat, width: nat): (r: seq<Byte>)
    ensures |r| == width
  {
    if width == 0 then [] else BytesOf(n / 256, width - 1) + [n % 256]
  }

  /** A number in a given width: the marker bit and the number behind it, in big-endian order. */
  function VintBytes(value: nat, width: nat): (r: seq<Byte>)
    ensures |r| == width
  {
    BytesOf(value + Power(128, width), width)
  }

  predicate Fits(value: nat, width: nat) {
    1 <= width <= 8 && value < Power(128, width)
  }

  lemma {:induction false} BytesOfValue(n: nat, width: nat)
    requires n < Power(256, width)
    ensures BigEndian(BytesOf(n, width)) == n
  {
    if width > 0 {
      BytesOfValue(n / 256, width - 1);
      assert BytesOf(n, width)[..width - 1] == BytesOf(n / 256, width - 1);
    }
  }

  lemma {:induction false} ValueOfBytes(bytes: seq<Byte>)
    ensures BytesOf(BigEndian(bytes), |bytes|) == bytes
  {
    if bytes != [] {
      ValueOfBytes(bytes[..|bytes| - 1]);
    }
  }

  /** The first byte bounds the number from both sides. */
  lemma {:induction false} FirstByteBounds(bytes: seq<Byte>)
    requires bytes != []
    ensures bytes[0] * Power(256, |bytes| - 1) <= BigEndian(bytes) < (bytes[0] + 1) * Power(256, |bytes| - 1)
  {
    var n := |bytes|;
    if n == 1 {
      assert bytes[..0] == [] && BigEndian([]) == 0 && Power(256, 0) == 1;
    } else {
      FirstByteBounds(bytes[..n - 1]);
      var p, init := Power(256, n - 2), BigEndian(bytes[..n - 1]);
      var b: int := bytes[0];
      assert Power(256, n - 1) == 256 * p;
      assert b * (256 * p) == 256 * (b * p) && (b + 1) * (256 * p) == 256 * ((b + 1) * p);
      assert init + 1 <= (b + 1) * p;
    }
  }

  /** The number of leading zeros tells between which powers of two a byte lies. */
  lemma LeadingZerosIff(b: Byte, width: nat)
    requires 1 <= width <= 8
    ensures LeadingZeros(b) + 1 == width <==> Marker(width) <= b < 2 * Marker(width)
  {
  }

  lemma TwoMarkersFit(width: nat)
    requires 1 <= width
    ensures 2 * Power(128, width) <= Power(256, width)
  {
    if width > 1 {
      TwoMarkersFit(width - 1);
    } else {
      assert Power(128, 1) == 128 * Power(128, 0) && Power(256, 1) == 256 * Power(256, 0);
    }
  }

  lemma Scale(a: int, b: int, p: nat)
    requires a < b
    ensures (a + 1) * p <= b * p
  {
    assert (b - (a + 1)) * p >= 0;
  }

  lemma Between(b: int, m: int, p: nat, n: nat)
    requires b * p <= n < (b + 1) * p
    ensures m <= b < 2 * m <==> m * p <= n < 2 * (m * p)
  {
    assert (2 * m) * p == 2 * (m * p);
    if b < m {
      Scale(b, m, p);
    } else {
      Scale(m - 1, b, p);
      if b < 2 * m {
        Scale(b, 2 * m, p);
      } else {
        Scale(2 * m - 1, b, p);
      }
    }
  }

  /** A byte between the marker and its double, from the bounds of the whole number. */
  lemma FirstByteOf(bytes: seq<Byte>)
    requires 1 <= |bytes| <= 8
    ensures LeadingZeros(bytes[0]) + 1 == |bytes| <==>
            Power(128, |bytes|) <= BigEndian(bytes) < 2 * Power(128, |bytes|)
  {
    var w := |bytes|;
    FirstByteBounds(bytes);
    MarkerWorth(w);
    LeadingZerosIff(bytes[0], w);
    Between(bytes[0], Marker(w), Power(256, w - 1), BigEndian(bytes));
  }

  /**
    Reading and writing are inverse at every width: a reader finds the value and the width just
    when the data begin with the bytes that encode them.
  */
  lemma VintIff(data: seq<Byte>, value: nat, width: nat)
    ensures Vint(data) == Some((value, width)) <==> Fits(value, width) && VintBytes(value, width) <= data
  {
    if Vint(data) == Some((value, width)) {
      FirstByteOf(data[..width]);
      ValueOfBytes(data[..width]);
    }
    if Fits(value, width) && VintBytes(value, width) <= data {
      VintIsRead(data, value, width);
    }
  }

  lemma VintIsRead(data: seq<Byte>, value: nat, width: nat)
    requires Fits(value, width) && VintBytes(value, width) <= data
    ensures Vint(data) == Some((value, width))
  {
    var bytes := VintBytes(value, width);
    MarkedBytes(value, width);
    assert data[..width] == bytes;
    assert data[0] == bytes[0];
  }

  lemma MarkedBytes(value: nat, width: nat)
    requires Fits(value, width)
    ensures var bytes := VintBytes(value, width);
            BigEndian(bytes) == value + Power(128, width) && LeadingZeros(bytes[0]) + 1 == width
  {
    TwoMarkersFit(width);
    BytesOfValue(value + Power(128, width), width);
    FirstByteOf(VintBytes(value, width));
  }

  /* ---- Seek entries as written ---- */

  /** A field of a Seek entry: the identifier it names, or the position of that element. */
  datatype Field =
    | SeekId(width: nat, bytes: seq<Byte>)
    | SeekPosition(width: nat, bytes: seq<Byte>)

  datatype Entry = Seek(width: nat, fields: seq<Field>)

  /** An element of a two-byte identifier, its size written in the given width. */
  function Element(a: Byte, b: Byte, width: nat, content: seq<Byte>): seq<Byte> {
    [a, b] + VintBytes(|content|, width) + content
  }

  function FieldBytes(f: Field): (r: seq<Byte>)
    ensures |r| == 2 + f.width + |f.bytes|
  {
    Element(0x53, if f.SeekId? then 0xAB else 0xAC, f.width, f.bytes)
  }

  function FieldsBytes(fields: seq<Field>): seq<Byte> {
    Concat(seq(|fields|, i requires 0 <= i < |fields| => FieldBytes(fields[i])))
  }

  function EntryBytes(e: Entry): (r: seq<Byte>)
    ensures |r| == 2 + e.width + |FieldsBytes(e.fields)|
  {
    Element(0x4D, 0xBB, e.width, FieldsBytes(e.fields))
  }

  function EntriesBytes(entries: seq<Entry>): seq<Byte> {
    Concat(seq(|entries|, i requires 0 <= i < |entries| => EntryBytes(entries[i])))
  }

  predicate FieldFits(f: Field) {
    Fits(|f.bytes|, f.width)
  }

  predicate EntryFits(e: Entry) {
    Fits(|FieldsBytes(e.fields)|, e.width) && forall i :: 0 <= i < |e.fields| ==> FieldFits(e.fields[i])
  }

  /* ---- What they say ---- */

  function TokensOf(fields: seq<Field>): seq<Token> {
    seq(|fields|, i requires 0 <= i < |fields| => TokenOf(fields[i]))
  }

  function TokenOf(f: Field): Token {
    Token(f.SeekId?, Some(f.bytes))
  }

  /** The position an entry gives for the Cues, if it is about the Cues. */
  function CuesIn(e: Entry): Option<nat> {
    Said(TokensOf(e.fields))
  }

  predicate FirstCuesAt(entries: seq<Entry>, i: nat) {
    i < |entries| && CuesIn(entries[i]).Some? && forall j :: 0 <= j < i ==> CuesIn(entries[j]).None?
  }

  /* ---- The readers recover it ---- */

  lemma ElementIsRead(data: seq<Byte>, pos: nat, a: Byte, b: Byte, width: nat, content: seq<Byte>)
    requires 64 <= a < 128 && Fits(|content|, width)
    requires pos <= |data| && Element(a, b, width, content) <= data[pos..]
    ensures StartsWith(data, pos, a, b)
    ensures End(data, pos) == pos + 2 + width + |content| <= |data|
    ensures data[Start(data, pos)..End(data, pos)] == content
  {
    var rest := data[pos..];
    var e := Element(a, b, width, content);
    var size := VintBytes(|content|, width);
    assert rest[0] == e[0] == a && rest[1] == e[1] == b;
    assert rest[2..][..width] == e[2..2 + width] == size;
    VintIsRead(rest[2..], |content|, width);
    assert Vint(rest).value.1 == 2;
    assert Header(rest) == Some((|content|, 2 + width));
    assert data[pos + 2 + width..pos + 2 + width + |content|] == e[2 + width..] == content;
  }

  lemma FieldIsRead(data: seq<Byte>, pos: nat, f: Field)
    requires FieldFits(f) && pos <= |data| && FieldBytes(f) <= data[pos..]
    ensures Tokens(data, pos) == [TokenOf(f)] + Tokens(data, pos + |FieldBytes(f)|)
  {
    ElementIsRead(data, pos, 0x53, if f.SeekId? then 0xAB else 0xAC, f.width, f.bytes);
    FieldMet(data, pos);
  }

  lemma FieldsAreRead(fields: seq<Field>)
    requires forall i :: 0 <= i < |fields| ==> FieldFits(fields[i])
    ensures Tokens(FieldsBytes(fields), 0) == TokensOf(fields)
  {
    var data := FieldsBytes(fields);
    var parts := seq(|fields|, i requires 0 <= i < |fields| => FieldBytes(fields[i]));
    var scan := (p: nat) => Tokens(data, p);
    forall i | 0 <= i < |fields|
      ensures Scans(scan, data, parts[i], TokensOf(fields)[i])
    {
      FieldScans(data, fields[i]);
    }
    ScansAll(scan, data, parts, TokensOf(fields));
  }

  lemma FieldScans(data: seq<Byte>, f: Field)
    requires FieldFits(f)
    ensures Scans((p: nat) => Tokens(data, p), data, FieldBytes(f), TokenOf(f))
  {
    forall p: nat | p <= |data| && FieldBytes(f) <= data[p..]
      ensures Tokens(data, p) == [TokenOf(f)] + Tokens(data, p + |FieldBytes(f)|)
    {
      FieldIsRead(data, p, f);
    }
  }

  lemma EntryIsRead(data: seq<Byte>, pos: nat, e: Entry)
    requires EntryFits(e) && pos <= |data| && EntryBytes(e) <= data[pos..]
    ensures Contents(data, pos) == [FieldsBytes(e.fields)] + Contents(data, pos + |EntryBytes(e)|)
  {
    ElementIsRead(data, pos, 0x4D, 0xBB, e.width, FieldsBytes(e.fields));
    ContentMet(data, pos);
  }

  function ContentsOf(entries: seq<Entry>): seq<seq<Byte>> {
    seq(|entries|, i requires 0 <= i < |entries| => FieldsBytes(entries[i].fields))
  }

  lemma EntriesAreRead(entries: seq<Entry>)
    requires forall i :: 0 <= i < |entries| ==> EntryFits(entries[i])
    ensures Contents(EntriesBytes(entries), 0) == ContentsOf(entries)
  {
    var data := EntriesBytes(entries);
    var parts := seq(|entries|, i requires 0 <= i < |entries| => EntryBytes(entries[i]));
    var scan := (p: nat) => Contents(data, p);
    forall i | 0 <= i < |entries|
      ensures Scans(scan, data, parts[i], ContentsOf(entries)[i])
    {
      EntryScans(data, entries[i]);
    }
    ScansAll(scan, data, parts, ContentsOf(entries));
  }

  lemma EntryScans(data: seq<Byte>, e: Entry)
    requires EntryFits(e)
    ensures Scans((p: nat) => Contents(data, p), data, EntryBytes(e), FieldsBytes(e.fields))
  {
    forall p: nat | p <= |data| && EntryBytes(e) <= data[p..]
      ensures Contents(data, p) == [FieldsBytes(e.fields)] + Contents(data, p + |EntryBytes(e)|)
    {
      EntryIsRead(data, p, e);
    }
  }

  lemma FirstSaidStep(entries: seq<Entry>)
    requires entries != [] && EntryFits(entries[0])
    ensures FirstSaid(ContentsOf(entries)) == CuesIn(entries[0]).Or(FirstSaid(ContentsOf(entries[1..])))
  {
    FieldsAreRead(entries[0].fields);
    assert ContentsOf(entries)[1..] == ContentsOf(entries[1..]);
  }

  lemma {:induction false} FirstSaidIff(entries: seq<Entry>)
    requires forall i :: 0 <= i < |entries| ==> EntryFits(entries[i])
    ensures forall i: nat :: FirstCuesAt(entries, i) ==> FirstSaid(ContentsOf(entries)) == CuesIn(entries[i])
    ensures FirstSaid(ContentsOf(entries)).None? <==> forall i :: 0 <= i < |entries| ==> CuesIn(entries[i]).None?
    decreases entries
  {
    if entries != [] {
      FirstSaidIff(entries[1..]);
      FirstSaidStep(entries);
      forall i: nat | FirstCuesAt(entries, i)
        ensures FirstSaid(ContentsOf(entries)) == CuesIn(entries[i])
      {
        if i > 0 {
          assert FirstCuesAt(entries[1..], i - 1);
        }
      }
    }
  }

  /**
    For every payload that is a list of Seek entries, whatever the widths of their sizes and the
    order of their fields, the search gives the position of the first entry about the Cues, and
    nothing exactly when no entry is about them.
  */
  lemma SeekHeadIsRead(entries: seq<Entry>)
    requires forall i :: 0 <= i < |entries| ==> EntryFits(entries[i])
    ensures forall i: nat :: FirstCuesAt(entries, i) ==>
              FirstSaid(Contents(EntriesBytes(entries), 0)) == CuesIn(entries[i])
    ensures FirstSaid(Contents(EntriesBytes(entries), 0)).None? <==>
            forall i :: 0 <= i < |entries| ==> CuesIn(entries[i]).None?
  {
    EntriesAreRead(entries);
    FirstSaidIff(entries);
  }

  /**
    An entry as the standard has it, one identifier of at most four bytes and one position of
    at most eight, in either order, says exactly what its fields spell.
  */
  lemma StandardEntry(width: nat, id: Field, position: Field, swapped: bool)
    requires id.SeekId? && |id.bytes| <= 4 && position.SeekPosition? && |position.bytes| <= 8
    ensures CuesIn(Seek(width, if swapped then [position, id] else [id, position])) ==
            if BigEndian(id.bytes) == CUES then Some(BigEndian(position.bytes)) else None
  {
    Words(id, position);
    TwoTokens(id, position);
    TwoTokens(position, id);
  }

  lemma TwoTokens(f: Field, g: Field)
    ensures TokensOf([f, g]) == [TokenOf(f), TokenOf(g)]
    ensures var one := if f.SeekId? then Some(BigEndian(f.bytes) % TWO_32) else None;
            IdIn(TokensOf([f, g])) == if g.SeekId? then Some(BigEndian(g.bytes) % TWO_32) else one
    ensures var one := if f.SeekPosition? then Some(BigEndian(f.bytes) % TWO_64) else None;
            PositionIn(TokensOf([f, g])) == if g.SeekPosition? then Some(BigEndian(g.bytes) % TWO_64) else one
  {
    OneMoreToken([], TokenOf(f));
    OneMoreToken([TokenOf(f)], TokenOf(g));
    assert [] + [TokenOf(f)] == [TokenOf(f)];
    assert TokensOf([f, g]) == [TokenOf(f)] + [TokenOf(g)];
  }

  lemma Words(id: Field, position: Field)
    requires |id.bytes| <= 4 && |position.bytes| <= 8
    ensures BigEndian(id.bytes) % TWO_32 == BigEndian(id.bytes)
    ensures BigEndian(position.bytes) % TWO_64 == BigEndian(position.bytes)
  {
    BelowPower(id.bytes, 4);
    BelowPower(position.bytes, 8);
    assert Power(256, 4) == TWO_32 && Power(256, 8) == TWO_64;
  }

  lemma {:induction false} BelowPower(bytes: seq<Byte>, n: nat)
    requires |bytes| <= n
    ensures BigEndian(bytes) < Power(256, n)
  {
    if bytes != [] {
      BelowPower(bytes[..|bytes| - 1], n - 1);
    } else if n > 0 {
      BelowPower(bytes, n - 1);
    }
  }
}
