/**
 * The two hand-written message codecs over a writer that appends and a reader that moves.
 * Text fields are held as their UTF-8 bytes.
 */
module ProtoTypes {
  import opened Wrappers
  import opened Varint
  import opened WireFields
  import U = UnknownFields

  datatype Inscription = Inscription(parentType: Bytes, parentIdentifier: Bytes, metadata: Bytes, content: Bytes) {
    function Slots(): (s: WireFields.Slots)
      ensures |s| == 4
    {
      [parentType, parentIdentifier, metadata, content]
    }
  }

  datatype ExtensionData = ExtensionData(protocolId: Bytes, protocolVersion: Bytes, data: Bytes) {
    function Slots(): (s: WireFields.Slots)
      ensures |s| == 3
    {
      [protocolId, protocolVersion, data]
    }
  }

  function InscriptionOf(s: WireFields.Slots): (m: Inscription)
    requires |s| == 4
    ensures m.Slots() == s
  {
    Inscription(s[0], s[1], s[2], s[3])
  }

  function ExtensionDataOf(s: WireFields.Slots): (m: ExtensionData)
    requires |s| == 3
    ensures m.Slots() == s
  {
    ExtensionData(s[0], s[1], s[2])
  }

  datatype WireError = MalformedInput

  // What decode returns, for an input of which `limit` bytes are to be read
  function DecodeInscription(s: Bytes, limit: int): Result<Inscription, WireError> {
    match DecodeFields(s, limit, Empty(4))
    case Malformed => Err(MalformedInput)
    case Whole(slots, _) => Ok(InscriptionOf(slots))
  }

  function DecodeExtensionData(s: Bytes, limit: int): Result<ExtensionData, WireError> {
    match DecodeFields(s, limit, Empty(3))
    case Malformed => Err(MalformedInput)
    case Whole(slots, _) => Ok(ExtensionDataOf(slots))
  }

  class BinaryWriter {
    var buf: Bytes

    constructor ()
      ensures buf == []
    {
      buf := [];
    }

    method Uint32(v: nat)
      modifies this
      ensures buf == old(buf) + PutUint32(v)
    {
      buf := buf + PutUint32(v);
    }

    method Payload(b: Bytes)
      modifies this
      ensures buf == old(buf) + PutBytes(b)
    {
      buf := buf + PutBytes(b);
    }

    // One field of encode: a tag and a payload, or nothing at all
    method Field(field: nat, v: Bytes)
      modifies this
      ensures buf == old(buf) + EncodeSlot(field, v)
    {
      hide PutUint32, PutBytes;
      if |v| != 0 {
        Uint32(Tag(field, 2));
        Payload(v);
      }
    }
  }

  class BinaryReader {
    const data: Bytes
    var pos: nat

    constructor (data: Bytes)
      ensures this.data == data && pos == 0
    {
      this.data := data;
      pos := 0;
    }

    ghost predicate Valid()
      reads this
    {
      pos <= |data|
    }

    function Left(): Bytes
      requires Valid()
      reads this
    {
      data[pos..]
    }

    method Uint32() returns (r: Option<nat>)
      requires Valid()
      modifies this
      ensures Valid()
      ensures match old(ReadUint32(Left()))
              case Bad => r == None
              case Got(v, n) => r == Some(v) && pos == old(pos) + n
    {
      match ReadUint32(Left())
      case Bad => r := None;
      case Got(v, n) => r, pos := Some(v), pos + n;
    }

    method Payload() returns (r: Option<Bytes>)
      requires Valid()
      modifies this
      ensures Valid()
      ensures match old(ReadBytes(Left()))
              case Bad => r == None
              case Got(v, n) => r == Some(v) && pos == old(pos) + n
    {
      match ReadBytes(Left())
      case Bad => r := None;
      case Got(v, n) => r, pos := Some(v), pos + n;
    }

    method Skip(wire: nat) returns (ok: bool)
      requires Valid()
      modifies this
      ensures Valid()
      ensures match old(SkipType(Left(), wire))
              case None => !ok
              case Some(n) => ok && pos == old(pos) + n
    {
      match SkipType(Left(), wire)
      case None => ok := false;
      case Some(n) => ok, pos := true, pos + n;
    }
  }

  method EncodeInscription(message: Inscription, writer: BinaryWriter)
    modifies writer
    ensures writer.buf == old(writer.buf) + Encode(message.Slots())
  {
    hide EncodeSlot;
    writer.Field(1, message.parentType);
    writer.Field(2, message.parentIdentifier);
    writer.Field(3, message.metadata);
    writer.Field(4, message.content);
    FourFields(message.Slots());
  }

  method EncodeExtensionData(message: ExtensionData, writer: BinaryWriter)
    modifies writer
    ensures writer.buf == old(writer.buf) + Encode(message.Slots())
  {
    hide EncodeSlot;
    writer.Field(1, message.protocolId);
    writer.Field(2, message.protocolVersion);
    writer.Field(3, message.data);
    ThreeFields(message.Slots());
  }

  ghost predicate SameOutcome(a: Decoded, b: Decoded) {
    if a.Whole? then b.Whole? && a.slots == b.slots else b.Malformed?
  }

  lemma DecodeOver(s: Bytes, limit: int, slots: WireFields.Slots)
    requires limit <= 0
    ensures DecodeFields(s, limit, slots) == Whole(slots, 0)
  {}

  // The body of the decode loop: a tag, then a known field or one to skip
  method InscriptionField(reader: BinaryReader, message: Inscription) returns (r: Option<Inscription>)
    requires reader.Valid()
    modifies reader
    ensures reader.Valid()
    ensures match old(FieldStep(reader.Left(), message.Slots()))
            case Bad => r == None
            case Got(slots, n) => r.Some? && r.value.Slots() == slots && reader.pos == old(reader.pos) + n
  {
    hide ReadUint32, ReadBytes, SkipType;
    ghost var left := reader.Left();
    var tag := reader.Uint32();
    if tag == None { return None; }
    assert reader.Left() == left[ReadUint32(left).size..];
    var field := tag.value / 8;
    var updated := message;
    if 1 <= field <= 4 {
      var payload := reader.Payload();
      if payload == None { return None; }
      match field {
        case 1 => updated := message.(parentType := payload.value);
        case 2 => updated := message.(parentIdentifier := payload.value);
        case 3 => updated := message.(metadata := payload.value);
        case _ => updated := message.(content := payload.value);
      }
      assert updated.Slots() == message.Slots()[field - 1 := payload.value];
    } else {
      var ok := reader.Skip(tag.value % 8);
      if !ok { return None; }
    }
    return Some(updated);
  }

  // `length` None stands for the undefined that reads to the end of the input.
  method InscriptionDecode(reader: BinaryReader, length: Option<nat>) returns (r: Result<Inscription, WireError>)
    requires reader.Valid()
    modifies reader
    ensures r == DecodeInscription(old(reader.Left()), length.GetOr(|old(reader.Left())|))
  {
    hide FieldStep, DecodeFields;
    var end := if length.None? then |reader.data| else reader.pos + length.value;
    ghost var start, limit := reader.Left(), end - reader.pos;
    var message := InscriptionOf(Empty(4));
    while reader.pos < end
      invariant reader.Valid()
      invariant SameOutcome(DecodeFields(start, limit, Empty(4)),
                            DecodeFields(reader.Left(), end - reader.pos, message.Slots()))
      decreases |reader.data| - reader.pos
    {
      ghost var left, pos := reader.Left(), reader.pos;
      DecodeUnfold(left, end - pos, message.Slots());
      var updated := InscriptionField(reader, message);
      if updated == None { return Err(MalformedInput); }
      assert reader.Left() == left[reader.pos - pos..];
      message := updated.value;
    }
    DecodeOver(reader.Left(), end - reader.pos, message.Slots());
    return Ok(message);
  }

  // The body of the decode loop: a tag, then a known field or one to skip
  method ExtensionDataField(reader: BinaryReader, message: ExtensionData) returns (r: Option<ExtensionData>)
    requires reader.Valid()
    modifies reader
    ensures reader.Valid()
    ensures match old(FieldStep(reader.Left(), message.Slots()))
            case Bad => r == None
            case Got(slots, n) => r.Some? && r.value.Slots() == slots && reader.pos == old(reader.pos) + n
  {
    hide ReadUint32, ReadBytes, SkipType;
    ghost var left := reader.Left();
    var tag := reader.Uint32();
    if tag == None { return None; }
    assert reader.Left() == left[ReadUint32(left).size..];
    var field := tag.value / 8;
    var updated := message;
    if 1 <= field <= 3 {
      var payload := reader.Payload();
      if payload == None { return None; }
      match field {
        case 1 => updated := message.(protocolId := payload.value);
        case 2 => updated := message.(protocolVersion := payload.value);
        case _ => updated := message.(data := payload.value);
      }
      assert updated.Slots() == message.Slots()[field - 1 := payload.value];
    } else {
      var ok := reader.Skip(tag.value % 8);
      if !ok { return None; }
    }
    return Some(updated);
  }

  method ExtensionDataDecode(reader: BinaryReader, length: Option<nat>) returns (r: Result<ExtensionData, WireError>)
    requires reader.Valid()
    modifies reader
    ensures r == DecodeExtensionData(old(reader.Left()), length.GetOr(|old(reader.Left())|))
  {
    hide FieldStep, DecodeFields;
    var end := if length.None? then |reader.data| else reader.pos + length.value;
    ghost var start, limit := reader.Left(), end - reader.pos;
    var message := ExtensionDataOf(Empty(3));
    while reader.pos < end
      invariant reader.Valid()
      invariant SameOutcome(DecodeFields(start, limit, Empty(3)),
                            DecodeFields(reader.Left(), end - reader.pos, message.Slots()))
      decreases |reader.data| - reader.pos
    {
      ghost var left, pos := reader.Left(), reader.pos;
      DecodeUnfold(left, end - pos, message.Slots());
      var updated := ExtensionDataField(reader, message);
      if updated == None { return Err(MalformedInput); }
      assert reader.Left() == left[reader.pos - pos..];
      message := updated.value;
    }
    DecodeOver(reader.Left(), end - reader.pos, message.Slots());
    return Ok(message);
  }

  lemma FourFields(s: WireFields.Slots)
    requires |s| == 4
    ensures Encode(s) == EncodeSlot(1, s[0]) + EncodeSlot(2, s[1]) + EncodeSlot(3, s[2]) + EncodeSlot(4, s[3])
  {
    hide EncodeSlot;
    assert EncodeFrom(s, 3) == EncodeSlot(4, s[3]) + EncodeFrom(s, 4);
    assert EncodeFrom(s, 1) == EncodeSlot(2, s[1]) + EncodeFrom(s, 2);
  }

  lemma ThreeFields(s: WireFields.Slots)
    requires |s| == 3
    ensures Encode(s) == EncodeSlot(1, s[0]) + EncodeSlot(2, s[1]) + EncodeSlot(3, s[2])
  {
    hide EncodeSlot;
    assert EncodeFrom(s, 1) == EncodeSlot(2, s[1]) + EncodeFrom(s, 2);
  }

  // ---- what the codecs promise ----

  function EncodedInscription(i: Inscription): Bytes {
    Encode(i.Slots())
  }

  function EncodedExtensionData(x: ExtensionData): Bytes {
    Encode(x.Slots())
  }

  function WholeInscription(s: Bytes): Result<Inscription, WireError> {
    DecodeInscription(s, |s|)
  }

  function WholeExtensionData(s: Bytes): Result<ExtensionData, WireError> {
    DecodeExtensionData(s, |s|)
  }

  lemma {:induction false} SlotInsideEncoding(slots: WireFields.Slots, k: nat, j: nat)
    requires k <= j < |slots|
    ensures |slots[j]| <= |EncodeFrom(slots, k)|
    decreases j - k
  {
    hide PutUint32;
    if k < j {
      SlotInsideEncoding(slots, k + 1, j);
    }
  }

  // An inscription carried inside extension data comes back whole from the two decodes, and exactly when
  // every field of the outer message is shorter than 2^32 bytes.
  lemma NestedRoundTrip(i: Inscription, x: ExtensionData)
    requires x.data == EncodedInscription(i)
    ensures WholeExtensionData(EncodedExtensionData(x)) == Ok(x) && WholeInscription(x.data) == Ok(i)
       <==> |x.protocolId| < UINT32 && |x.protocolVersion| < UINT32 && |x.data| < UINT32
  {
    hide DecodeFields, EncodeFrom;
    var outer, inner := x.Slots(), i.Slots();
    RoundTripExactly(outer);
    RoundTripExactly(inner);
    assert Fits(outer) <==> |x.protocolId| < UINT32 && |x.protocolVersion| < UINT32 && |x.data| < UINT32 by {
      assert outer[0] == x.protocolId && outer[1] == x.protocolVersion && outer[2] == x.data;
    }
    if |x.data| < UINT32 {
      forall j | 0 <= j < 4 ensures |inner[j]| < UINT32 { SlotInsideEncoding(inner, 0, j); }
    }
    if WholeExtensionData(EncodedExtensionData(x)) == Ok(x) {
      WholeSize(Encode(outer), Empty(3));
    }
  }

  lemma WholeSize(s: Bytes, slots: WireFields.Slots)
    requires DecodeAll(s, slots).Whole?
    ensures DecodeAll(s, slots).size == |s|
  {
    DecodeSplit(s, [], slots);
  }

  // Two encodings in a row: each field that the second one writes wins, the others come from the first.
  lemma MergedInscriptions(a: Inscription, b: Inscription)
    requires Fits(a.Slots()) && Fits(b.Slots())
    ensures WholeInscription(EncodedInscription(a) + EncodedInscription(b)) == Ok(Inscription(
      if b.parentType == [] then a.parentType else b.parentType,
      if b.parentIdentifier == [] then a.parentIdentifier else b.parentIdentifier,
      if b.metadata == [] then a.metadata else b.metadata,
      if b.content == [] then a.content else b.content))
  {
    hide DecodeFields, EncodeFrom;
    MergeLaw(a.Slots(), b.Slots());
    var m := Override(a.Slots(), b.Slots());
    assert m[0] == if b.parentType == [] then a.parentType else b.parentType;
    assert m[1] == if b.parentIdentifier == [] then a.parentIdentifier else b.parentIdentifier;
    assert m[2] == if b.metadata == [] then a.metadata else b.metadata;
    assert m[3] == if b.content == [] then a.content else b.content;
  }

  // A field with a number above the known ones, put after any whole number of fields, is not noticed.
  lemma UnknownFieldIgnored(a: Bytes, u: U.Unknown, b: Bytes)
    requires U.WellFormed(u)
    ensures u.number > 4 && WholeInscription(a).Ok?
        ==> WholeInscription(a + (U.Print(u) + b)) == WholeInscription(a + b)
    ensures u.number > 3 && WholeExtensionData(a).Ok?
        ==> WholeExtensionData(a + (U.Print(u) + b)) == WholeExtensionData(a + b)
  {
    hide DecodeFields, U.Print;
    if u.number > 4 && WholeInscription(a).Ok? {
      U.UnknownIsSkipped(a, u, b, Empty(4));
    }
    if u.number > 3 && WholeExtensionData(a).Ok? {
      U.UnknownIsSkipped(a, u, b, Empty(3));
    }
  }

  // ---- the layout ----

  // A field on the wire: its tag byte, its length, its bytes; nothing if it is empty
  function Put(tag: byte, v: Bytes): Bytes {
    if v == [] then [] else [tag] + PutBytes(v)
  }

  lemma SlotIsPut(field: nat, v: Bytes)
    requires 1 <= field <= 4
    ensures EncodeSlot(field, v) == Put(8 * field + 2, v)
  {
    hide PutBytes;
    assert PutUint32(Tag(field, 2)) == [8 * field + 2];
  }

  // Which field has which number: tags 10, 18, 26 and 34 for an inscription, 10, 18 and 26 for extension data
  lemma Layout(i: Inscription, x: ExtensionData)
    ensures EncodedInscription(i)
         == Put(10, i.parentType) + Put(18, i.parentIdentifier) + Put(26, i.metadata) + Put(34, i.content)
    ensures EncodedExtensionData(x) == Put(10, x.protocolId) + Put(18, x.protocolVersion) + Put(26, x.data)
  {
    FourFields(i.Slots());
    ThreeFields(x.Slots());
    SlotIsPut(1, i.parentType);
    SlotIsPut(2, i.parentIdentifier);
    SlotIsPut(3, i.metadata);
    SlotIsPut(4, i.content);
    SlotIsPut(1, x.protocolId);
    SlotIsPut(2, x.protocolVersion);
    SlotIsPut(3, x.data);
    hide EncodeSlot, Put, Encode;
  }
}
