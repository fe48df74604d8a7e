/**
  The EBML readers of enginefs/src/backend/metadata.rs: variable-size integers, element
  headers, and the search of a SeekHead for the position of the Cues.
*/
module Ebml {
  import opened Wrappers
  import opened Machine
  import opened Sequences

  /** The identifier of the Cues element, 0x1C53BB6B. */
  const CUES: U32 := 0x1C53BB6B
  const TWO_32: nat := 0x1_0000_0000
  const TWO_64: nat := 0x1_0000_0000_0000_0000

  /* ---- Numbers in bytes ---- */

  function BigEndian(bytes: seq<Byte>): nat {
    if bytes == [] then 0 else 256 * BigEndian(bytes[..|bytes| - 1]) + bytes[|bytes| - 1]
  }

  function LeadingZeros(b: Byte): (r: nat)
    ensures r <= 8 && (r == 8 <==> b == 0)
  {
    if b >= 128 then 0
    else if b >= 64 then 1
    else if b >= 32 then 2
    else if b >= 16 then 3
    else if b >= 8 then 4
    else if b >= 4 then 5
    else if b >= 2 then 6
    else if b >= 1 then 7
    else 8
  }

  /** What the marker bit of a width stands for in the first byte, 2^(8 - width). */
  function Marker(width: nat): (r: nat)
    requires 1 <= width <= 8
    ensures 1 <= r <= 128
  {
    if width == 1 then 128
    else if width == 2 then 64
    else if width == 3 then 32
    else if width == 4 then 16
    else if width == 5 then 8
    else if width == 6 then 4
    else if width == 7 then 2
    else 1
  }

  /* ---- Variable-size integers ---- */

  /** Removing the marker from the first byte takes 128^width off the number. */
  lemma MarkerWorth(width: nat)
    requires 1 <= width <= 8
    ensures Marker(width) * Power(256, width - 1) == Power(128, width)
  {
    if width > 1 {
      MarkerWorth(width - 1);
      assert Marker(width - 1) == 2 * Marker(width);
      calc {
        Marker(width) * Power(256, width - 1);
        Marker(width) * (256 * Power(256, width - 2));
        (2 * Marker(width)) * Power(256, width - 2) * 128;
        Power(128, width - 1) * 128;
      }
    } else {
      assert Power(256, 0) == 1 && Power(128, 0) == 1;
    }
  }

  lemma {:induction false} AtLeastFirst(bytes: seq<Byte>)
    requires bytes != []
    ensures BigEndian(bytes) >= bytes[0] * Power(256, |bytes| - 1)
  {
    var init := bytes[..|bytes| - 1];
    if init == [] {
      assert Power(256, 0) == 1;
    } else {
      AtLeastFirst(init);
      assert bytes[0] * Power(256, |bytes| - 1) == 256 * (bytes[0] * Power(256, |init| - 1));
    }
  }

  lemma AtLeastMarker(bytes: seq<Byte>)
    requires bytes != [] && bytes[0] != 0 && |bytes| == LeadingZeros(bytes[0]) + 1
    ensures BigEndian(bytes) >= Power(128, |bytes|)
  {
    var n := |bytes|;
    AtLeastFirst(bytes);
    MarkerWorth(n);
    assert bytes[0] * Power(256, n - 1) >= Marker(n) * Power(256, n - 1);
  }

  /**
    What the first bytes say as a variable-size integer: the number its bytes make up, less the
    marker bit, which is worth 128^width.
  */
  function Vint(data: seq<Byte>): (r: Option<(nat, nat)>)
    ensures r.Some? ==> 1 <= r.value.1 <= 8 && r.value.1 <= |data|
  {
    if data == [] || data[0] == 0 || |data| < LeadingZeros(data[0]) + 1 then None
    else
      var width := LeadingZeros(data[0]) + 1;
      AtLeastMarker(data[..width]);
      Some((BigEndian(data[..width]) - Power(128, width), width))
  }

  method ParseVint(data: seq<Byte>) returns (r: Option<(nat, nat)>)
    ensures r == Vint(data)
  {
    if |data| == 0 {
      return None;
    }
    var len := LeadingZeros(data[0]) + 1;
    if len > 8 || |data| < len {
      return None;
    }
    var value: nat := data[0] % Marker(len);
    assert value == data[0] - Marker(len);
    assert BigEndian(data[..1]) == data[0] by {
      assert data[..1][..0] == [];
      assert BigEndian([]) == 0;
    }
    for i := 1 to len
      invariant value == BigEndian(data[..i]) - Marker(len) * Power(256, i - 1)
    {
      assert data[..i + 1][..i] == data[..i];
      assert Power(256, i) == 256 * Power(256, i - 1);
      assert 256 * (Marker(len) * Power(256, i - 1)) == Marker(len) * Power(256, i);
      value := value * 256 + data[i];
    }
    MarkerWorth(len);
    return Some((value, len));
  }

  /** The size an element header announces, and how long the header is. */
  function Header(data: seq<Byte>): (r: Option<(nat, nat)>)
    ensures r.Some? ==> 2 <= r.value.1 <= |data|
  {
    match Vint(data)
    case None => None
    case Some((_, idLen)) =>
      match Vint(data[idLen..])
      case None => None
      case Some((size, sizeLen)) => Some((size, idLen + sizeLen))
  }

  method ParseElementHeader(data: seq<Byte>) returns (r: Option<(nat, nat)>)
    ensures r == Header(data)
  {
    if |data| == 0 {
      return None;
    }
    var id := ParseVint(data);
    if id.None? || |data| < id.value.1 {
      return None;
    }
    var size := ParseVint(data[id.value.1..]);
    if size.None? {
      return None;
    }
    return Some((size.value.0, id.value.1 + size.value.1));
  }

  /* ---- Seek entries ---- */

  predicate StartsWith(data: seq<Byte>, pos: nat, a: Byte, b: Byte) {
    pos + 2 < |data| && data[pos] == a && data[pos + 1] == b && Header(data[pos..]).Some?
  }

  /** Where the content of the element at `pos` starts. */
  function Start(data: seq<Byte>, pos: nat): (r: nat)
    requires pos <= |data| && Header(data[pos..]).Some?
    ensures pos < r <= |data|
  {
    pos + Header(data[pos..]).value.1
  }

  /** Where the element at `pos` ends by its own account, which may be behind the data. */
  function End(data: seq<Byte>, pos: nat): (r: nat)
    requires pos <= |data| && Header(data[pos..]).Some?
    ensures pos < r
  {
    Start(data, pos) + Header(data[pos..]).value.0
  }

  /** The content of the element at `pos`, if all of it is there. */
  function Content(data: seq<Byte>, pos: nat): Option<seq<Byte>>
    requires pos <= |data| && Header(data[pos..]).Some?
  {
    if End(data, pos) <= |data| then Some(data[Start(data, pos)..End(data, pos)]) else None
  }

  /** A field of a Seek entry as it is met: an identifier or a position, and its content if it is there. */
  datatype Token = Token(isId: bool, content: Option<seq<Byte>>)

  /** The fields met from `pos` on; bytes that start none are skipped one by one. */
  function Tokens(data: seq<Byte>, pos: nat): seq<Token>
    decreases |data| - pos
  {
    if pos + 2 >= |data| then []
    else if StartsWith(data, pos, 0x53, 0xAB) then [Token(true, Content(data, pos))] + Tokens(data, End(data, pos))
    else if StartsWith(data, pos, 0x53, 0xAC) then [Token(false, Content(data, pos))] + Tokens(data, End(data, pos))
    else Tokens(data, pos + 1)
  }

  /** The identifier the last such field gives, in 32 bits. */
  function IdIn(tokens: seq<Token>): Option<nat> {
    if tokens == [] then None
    else
      var last := tokens[|tokens| - 1];
      if last.isId && last.content.Some? then Some(BigEndian(last.content.value) % TWO_32)
      else IdIn(tokens[..|tokens| - 1])
  }

  /** The position the last such field gives, in 64 bits. */
  function PositionIn(tokens: seq<Token>): Option<nat> {
    if tokens == [] then None
    else
      var last := tokens[|tokens| - 1];
      if !last.isId && last.content.Some? then Some(BigEndian(last.content.value) % TWO_64)
      else PositionIn(tokens[..|tokens| - 1])
  }

  /** The position the fields give for the Cues, if it is the Cues they are about. */
  function Said(tokens: seq<Token>): Option<nat> {
    if IdIn(tokens) == Some(CUES) then PositionIn(tokens) else None
  }

  /** What a Seek entry holds; an entry cut short holds what is there. */
  function EntryContent(data: seq<Byte>, pos: nat): seq<Byte>
    requires pos <= |data| && Header(data[pos..]).Some?
  {
    data[Start(data, pos)..if End(data, pos) <= |data| then End(data, pos) else |data|]
  }

  /** The contents of the Seek entries met from `pos` on. */
  function Contents(data: seq<Byte>, pos: nat): seq<seq<Byte>>
    decreases |data| - pos
  {
    if pos + 2 >= |data| then []
    else if StartsWith(data, pos, 0x4D, 0xBB) then [EntryContent(data, pos)] + Contents(data, End(data, pos))
    else Contents(data, pos + 1)
  }

  /** What the first of some entries says that says anything. */
  function FirstSaid(contents: seq<seq<Byte>>): Option<nat> {
    if contents == [] then None else Said(Tokens(contents[0], 0)).Or(FirstSaid(contents[1..]))
  }

  lemma ShiftIn(bytes: seq<Byte>, i: nat)
    requires i < |bytes|
    ensures BigEndian(bytes[..i + 1]) == 256 * BigEndian(bytes[..i]) + bytes[i]
  {
    assert bytes[..i + 1][..i] == bytes[..i];
  }

  lemma Low32(turns: nat, low: nat)
    requires low < TWO_32
    ensures (TWO_32 * turns + low) % TWO_32 == low
  {
  }

  /** Dropping the high bits before or after a byte is shifted in comes to the same. */
  lemma Shift32(x: nat, b: Byte)
    ensures ((x % TWO_32) * 256) % TWO_32 + b == (256 * x + b) % TWO_32
  {
    var q, r := x / TWO_32, x % TWO_32;
    var high, low := r / 0x100_0000, r % 0x100_0000;
    assert r * 256 == TWO_32 * high + low * 256;
    Low32(high, low * 256);
    assert 256 * x + b == TWO_32 * (256 * q + high) + (low * 256 + b);
    Low32(256 * q + high, low * 256 + b);
  }

  lemma Low64(turns: nat, low: nat)
    requires low < TWO_64
    ensures (TWO_64 * turns + low) % TWO_64 == low
  {
  }

  /** Dropping the high bits before or after a byte is shifted in comes to the same. */
  lemma Shift64(x: nat, b: Byte)
    ensures ((x % TWO_64) * 256) % TWO_64 + b == (256 * x + b) % TWO_64
  {
    var q, r := x / TWO_64, x % TWO_64;
    var high, low := r / 0x100_0000_0000_0000, r % 0x100_0000_0000_0000;
    assert r * 256 == TWO_64 * high + low * 256;
    Low64(high, low * 256);
    assert 256 * x + b == TWO_64 * (256 * q + high) + (low * 256 + b);
    Low64(256 * q + high, low * 256 + b);
  }

  /** The low 32 bits of the bytes as a number: the shifts drop what leaves the word. */
  method ReadU32(bytes: seq<Byte>) returns (r: nat)
    ensures r == BigEndian(bytes) % TWO_32
  {
    r := 0;
    for i := 0 to |bytes|
      invariant r == BigEndian(bytes[..i]) % TWO_32
    {
      ShiftIn(bytes, i);
      Shift32(BigEndian(bytes[..i]), bytes[i]);
      r := (r * 256) % TWO_32 + bytes[i];
    }
    assert bytes[..|bytes|] == bytes;
  }

  method ReadU64(bytes: seq<Byte>) returns (r: nat)
    ensures r == BigEndian(bytes) % TWO_64
  {
    r := 0;
    for i := 0 to |bytes|
      invariant r == BigEndian(bytes[..i]) % TWO_64
    {
      ShiftIn(bytes, i);
      Shift64(BigEndian(bytes[..i]), bytes[i]);
      r := (r * 256) % TWO_64 + bytes[i];
    }
    assert bytes[..|bytes|] == bytes;
  }

  function IdAfter(t: Token, id: Option<nat>): Option<nat> {
    if t.isId && t.content.Some? then Some(BigEndian(t.content.value) % TWO_32) else id
  }

  function PositionAfter(t: Token, position: Option<nat>): Option<nat> {
    if !t.isId && t.content.Some? then Some(BigEndian(t.content.value) % TWO_64) else position
  }

  lemma OneMoreToken(tokens: seq<Token>, t: Token)
    ensures IdIn(tokens + [t]) == IdAfter(t, IdIn(tokens))
    ensures PositionIn(tokens + [t]) == PositionAfter(t, PositionIn(tokens))
  {
    assert (tokens + [t])[..|tokens|] == tokens;
  }

  predicate AtField(data: seq<Byte>, pos: nat) {
    StartsWith(data, pos, 0x53, 0xAB) || StartsWith(data, pos, 0x53, 0xAC)
  }

  /** The field at `pos`. */
  function FieldAt(data: seq<Byte>, pos: nat): Token
    requires AtField(data, pos)
  {
    Token(data[pos + 1] == 0xAB, Content(data, pos))
  }

  lemma FieldMet(data: seq<Byte>, pos: nat)
    requires AtField(data, pos)
    ensures Tokens(data, pos) == [FieldAt(data, pos)] + Tokens(data, End(data, pos))
  {
  }

  lemma NoFieldMet(data: seq<Byte>, pos: nat)
    requires pos + 2 < |data| && !AtField(data, pos)
    ensures Tokens(data, pos) == Tokens(data, pos + 1)
  {
  }

  /** The field at `pos` is read: of the two values, the one it gives is replaced. */
  method ReadField(data: seq<Byte>, pos: nat, size: nat, headerSize: nat, id: Option<nat>, position: Option<nat>)
    returns (nextId: Option<nat>, nextPosition: Option<nat>)
    requires AtField(data, pos) && Header(data[pos..]) == Some((size, headerSize))
    ensures nextId == IdAfter(FieldAt(data, pos), id) && nextPosition == PositionAfter(FieldAt(data, pos), position)
  {
    nextId, nextPosition := id, position;
    var start := pos + headerSize;
    if start + size <= |data| {
      if data[pos + 1] == 0xAB {
        var n := ReadU32(data[start..start + size]);
        nextId := Some(n);
      } else {
        var n := ReadU64(data[start..start + size]);
        nextPosition := Some(n);
      }
    }
  }

  method ParseSeekElement(data: seq<Byte>) returns (r: Option<nat>)
    ensures r == Said(Tokens(data, 0))
  {
    var pos := 0;
    var id: Option<nat> := None;
    var position: Option<nat> := None;
    ghost var seen: seq<Token> := [];
    assert [] + Tokens(data, 0) == Tokens(data, 0);
    while pos + 2 < |data|
      invariant Tokens(data, 0) == seen + Tokens(data, pos)
      invariant id == IdIn(seen) && position == PositionIn(seen)
      decreases |data| - pos
    {
      var header := ParseElementHeader(data[pos..]);
      if header.Some? && data[pos] == 0x53 && (data[pos + 1] == 0xAB || data[pos + 1] == 0xAC) {
        var (size, headerSize) := header.value;
        ghost var field := FieldAt(data, pos);
        FieldMet(data, pos);
        OneMoreToken(seen, field);
        Assoc(seen, [field], Tokens(data, End(data, pos)));
        seen := seen + [field];
        id, position := ReadField(data, pos, size, headerSize, id, position);
        pos := pos + headerSize + size;
      } else {
        NoFieldMet(data, pos);
        pos := pos + 1;
      }
    }
    assert seen + [] == seen;
    if id.Some? && position.Some? && id.value == CUES {
      return position;
    }
    return None;
  }

  lemma EntryMet(data: seq<Byte>, pos: nat)
    requires StartsWith(data, pos, 0x4D, 0xBB)
    ensures FirstSaid(Contents(data, pos)) ==
            Said(Tokens(EntryContent(data, pos), 0)).Or(FirstSaid(Contents(data, End(data, pos))))
  {
    var rest := Contents(data, End(data, pos));
    assert ([EntryContent(data, pos)] + rest)[1..] == rest;
  }

  lemma ContentMet(data: seq<Byte>, pos: nat)
    requires StartsWith(data, pos, 0x4D, 0xBB)
    ensures Contents(data, pos) == [EntryContent(data, pos)] + Contents(data, End(data, pos))
  {
  }

  lemma NoEntryMet(data: seq<Byte>, pos: nat)
    requires pos + 2 < |data| && !StartsWith(data, pos, 0x4D, 0xBB)
    ensures Contents(data, pos) == Contents(data, pos + 1)
  {
  }

  /** One round of reading a SeekHead. */
  method NextEntry(data: seq<Byte>, pos: nat) returns (next: nat, found: Option<nat>)
    requires pos + 2 < |data|
    ensures pos < next && FirstSaid(Contents(data, pos)) == found.Or(FirstSaid(Contents(data, next)))
  {
    found := None;
    var header := ParseElementHeader(data[pos..]);
    if header.Some? && data[pos] == 0x4D && data[pos + 1] == 0xBB {
      EntryMet(data, pos);
      var (size, headerSize) := header.value;
      var start := pos + headerSize;
      found := ParseSeekElement(data[start..if start + size <= |data| then start + size else |data|]);
      next := start + size;
    } else {
      NoEntryMet(data, pos);
      next := pos + 1;
    }
  }

  method ParseSeekHead(data: seq<Byte>) returns (r: Option<nat>)
    ensures r == FirstSaid(Contents(data, 0))
  {
    var pos := 0;
    while pos + 2 < |data|
      invariant FirstSaid(Contents(data, 0)) == FirstSaid(Contents(data, pos))
      decreases |data| - pos
    {
      var found;
      pos, found := NextEntry(data, pos);
      if found.Some? {
        return found;
      }
    }
    return None;
  }
}
