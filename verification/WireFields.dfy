/**
 * The generated decode and encode loops, stated once for a message whose fields 1..|slots| are all
 * length-delimited: slot k holds field k + 1. ProtoTypes ties the two message types to it.
 */
module WireFields {
  import opened Wrappers
  import opened Varint

  type Slots = seq<Bytes>

  datatype Decoded = Whole(slots: Slots, size: nat) | Malformed

  // ---- skipping a field of no interest ----

  function SkipVarint(s: Bytes): (r: Option<nat>)
    ensures r.Some? ==> 0 < r.value <= |s|
  {
    if s == [] then None
    else if s[0] < 128 then Some(1)
    else match SkipVarint(s[1..])
      case None => None
      case Some(n) => Some(n + 1)
  }

  function SkipFixed(s: Bytes, n: nat): (r: Option<nat>)
    ensures r.Some? ==> r.value <= |s|
  {
    if n <= |s| then Some(n) else None
  }

  // reader.skipType(wire)
  function SkipType(s: Bytes, wire: nat): (r: Option<nat>)
    ensures r.Some? ==> r.value <= |s|
    decreases |s|, 1
  {
    if wire == 0 then SkipVarint(s)
    else if wire == 1 then SkipFixed(s, 8)
    else if wire == 2 then
      (match ReadUint32(s)
       case Bad => None
       case Got(len, n) => SkipFixed(s, n + len))
    else if wire == 3 then SkipGroup(s)
    else if wire == 5 then SkipFixed(s, 4)
    else None
  }

  // Everything up to and with the tag that ends the group
  function SkipGroup(s: Bytes): (r: Option<nat>)
    ensures r.Some? ==> r.value <= |s|
    decreases |s|, 0
  {
    match ReadUint32(s)
    case Bad => None
    case Got(tag, n) =>
      if tag % 8 == 4 then Some(n)
      else match SkipType(s[n..], tag % 8)
        case None => None
        case Some(m) => Ahead(n + m, SkipGroup(s[n..][m..]))
  }

  function Ahead(n: nat, r: Option<nat>): Option<nat> {
    if r.None? then None else Some(n + r.value)
  }

  // What is skipped for each wire type but a group: a varint, eight bytes, a length and as many bytes, four bytes, and
  // nothing else; never more than there is.
  lemma SkipsExactly(s: Bytes, wire: nat)
    requires wire != 3
    ensures SkipType(s, wire)
         == if wire == 0 then SkipVarint(s)
            else if wire == 1 && |s| >= 8 then Some(8)
            else if wire == 2 && ReadUint32(s).Got? && ReadUint32(s).size + ReadUint32(s).value <= |s|
            then Some(ReadUint32(s).size + ReadUint32(s).value)
            else if wire == 5 && |s| >= 4 then Some(4)
            else None
  {
    hide ReadUint32, SkipVarint;
  }

  // ---- the decode loop ----

  // One turn of the loop: a tag, then either a known field or one to skip
  function FieldStep(s: Bytes, slots: Slots): (r: Read<Slots>)
    ensures r.Got? ==> 0 < r.size <= |s| && |r.value| == |slots|
  {
    match ReadUint32(s)
    case Bad => Bad
    case Got(tag, n) =>
      if 1 <= tag / 8 <= |slots| then
        match ReadBytes(s[n..])
        case Bad => Bad
        case Got(v, m) => Got(slots[tag / 8 - 1 := v], n + m)
      else
        match SkipType(s[n..], tag % 8)
        case None => Bad
        case Some(m) => Got(slots, n + m)
  }

  // The loop runs while fewer than `limit` bytes have been used; the last field may overshoot it.
  function DecodeFields(s: Bytes, limit: int, slots: Slots): (r: Decoded)
    ensures r.Whole? ==> r.size <= |s| && |r.slots| == |slots|
    decreases |s|
  {
    if limit <= 0 then Whole(slots, 0)
    else match FieldStep(s, slots)
      case Bad => Malformed
      case Got(slots', n) =>
        After(n, DecodeFields(s[n..], limit - n, slots'))
  }

  // The same outcome with n more bytes used before it
  function After(n: nat, d: Decoded): Decoded {
    if d.Whole? then Whole(d.slots, n + d.size) else Malformed
  }

  function DecodeAll(s: Bytes, slots: Slots): Decoded {
    DecodeFields(s, |s|, slots)
  }

  // createBase...(): every field empty
  function Empty(count: nat): (slots: Slots)
    ensures |slots| == count
    ensures forall k :: 0 <= k < count ==> slots[k] == []
  {
    seq(count, _ => [])
  }

  // ---- encode ----

  function Tag(field: nat, wire: nat): nat {
    8 * field + wire
  }

  // An empty field is not written at all.
  function EncodeSlot(field: nat, v: Bytes): Bytes {
    if v == [] then [] else PutUint32(Tag(field, 2)) + PutBytes(v)
  }

  function EncodeFrom(slots: Slots, k: nat): Bytes
    requires k <= |slots|
    decreases |slots| - k
  {
    if k == |slots| then [] else EncodeSlot(k + 1, slots[k]) + EncodeFrom(slots, k + 1)
  }

  function Encode(slots: Slots): Bytes {
    EncodeFrom(slots, 0)
  }

  // ---- what they promise ----

  ghost predicate Fits(slots: Slots) {
    forall k :: 0 <= k < |slots| ==> |slots[k]| < UINT32
  }

  // From slot `from` on, the fields of `above` that are not empty replace those of `below`.
  function OverrideFrom(below: Slots, above: Slots, from: nat): (r: Slots)
    requires |below| == |above|
    ensures |r| == |below|
    ensures forall k :: 0 <= k < |r| ==> r[k] == if k < from || above[k] == [] then below[k] else above[k]
  {
    seq(|below|, k requires 0 <= k < |below| => if k < from || above[k] == [] then below[k] else above[k])
  }

  function Override(below: Slots, above: Slots): (r: Slots)
    requires |below| == |above|
    ensures |r| == |below|
    ensures forall k :: 0 <= k < |r| ==> r[k] == if above[k] == [] then below[k] else above[k]
  {
    OverrideFrom(below, above, 0)
  }

  // What a group that is skipped starts with
  lemma GroupStart(s: Bytes)
    requires SkipGroup(s).Some?
    ensures ReadUint32(s).Got?
    ensures var tag, n := ReadUint32(s).value, ReadUint32(s).size;
            if tag % 8 == 4 then SkipGroup(s) == Some(n)
            else SkipType(s[n..], tag % 8).Some? && SkipGroup(s[n..][SkipType(s[n..], tag % 8).value..]).Some?
  {
    hide ReadUint32, SkipType;
  }

  lemma GroupEnd(s: Bytes, tag: nat, n: nat)
    requires ReadUint32(s) == Got(tag, n) && tag % 8 == 4
    ensures SkipGroup(s) == Some(n)
  {
    hide ReadUint32, SkipType;
  }

  // One unfolding of SkipGroup, for a known tag and a known member
  lemma GroupUnfold(s: Bytes, tag: nat, n: nat, m: nat)
    requires ReadUint32(s) == Got(tag, n) && tag % 8 != 4
    requires SkipType(s[n..], tag % 8) == Some(m)
    ensures SkipGroup(s) == Ahead(n + m, SkipGroup(s[n..][m..]))
  {
    hide ReadUint32, SkipType, SkipVarint, Ahead;
  }

  lemma DecodeNothing(slots: Slots)
    ensures DecodeAll([], slots) == Whole(slots, 0)
  {}

  // One turn of the decode loop, anywhere
  lemma DecodeUnfold(s: Bytes, limit: int, slots: Slots)
    requires limit > 0
    ensures DecodeFields(s, limit, slots)
         == match FieldStep(s, slots)
            case Bad => Malformed
            case Got(slots', n) => After(n, DecodeFields(s[n..], limit - n, slots'))
  {
    hide FieldStep;
  }

  // One turn of the decode loop over a whole input
  lemma DecodeTurn(head: Bytes, tail: Bytes, slots: Slots, slots': Slots)
    requires FieldStep(head + tail, slots) == Got(slots', |head|)
    ensures DecodeAll(head + tail, slots) == After(|head|, DecodeAll(tail, slots'))
  {
    hide FieldStep;
    assert (head + tail)[|head|..] == tail;
  }

  lemma {:induction false} SkipVarintLocal(s: Bytes, rest: Bytes)
    requires SkipVarint(s).Some?
    ensures SkipVarint(s + rest) == SkipVarint(s)
  {
    assert (s + rest)[0] == s[0];
    if s[0] >= 128 {
      SkipVarintLocal(s[1..], rest);
      assert (s + rest)[1..] == s[1..] + rest;
    }
  }

  lemma {:induction false} SkipTypeLocal(s: Bytes, wire: nat, rest: Bytes)
    requires SkipType(s, wire).Some?
    ensures SkipType(s + rest, wire) == SkipType(s, wire)
    decreases |s|, 1
  {
    if wire == 0 {
      SkipVarintLocal(s, rest);
    } else if wire == 2 {
      Uint32Local(s, rest);
    } else if wire == 3 {
      SkipGroupLocal(s, rest);
    }
  }

  lemma {:induction false} SkipGroupLocal(s: Bytes, rest: Bytes)
    requires SkipGroup(s).Some?
    ensures SkipGroup(s + rest) == SkipGroup(s)
    decreases |s|, 0
  {
    hide ReadUint32, SkipType, SkipGroup;
    GroupStart(s);
    Uint32Local(s, rest);
    var tag, n := ReadUint32(s).value, ReadUint32(s).size;
    if tag % 8 == 4 {
      GroupEnd(s + rest, tag, n);
    } else {
      var inside := s[n..];
      var m := SkipType(inside, tag % 8).value;
      GroupUnfold(s, tag, n, m);
      assert (s + rest)[n..] == inside + rest;
      SkipTypeLocal(inside, tag % 8, rest);
      GroupUnfold(s + rest, tag, n, m);
      assert (inside + rest)[m..] == inside[m..] + rest;
      SkipGroupLocal(inside[m..], rest);
    }
  }

  lemma FieldStepLocal(s: Bytes, slots: Slots, rest: Bytes)
    requires FieldStep(s, slots).Got?
    ensures FieldStep(s + rest, slots) == FieldStep(s, slots)
  {
    Uint32Local(s, rest);
    var tag, n := ReadUint32(s).value, ReadUint32(s).size;
    assert (s + rest)[n..] == s[n..] + rest;
    if 1 <= tag / 8 <= |slots| {
      BytesLocal(s[n..], rest);
    } else {
      SkipTypeLocal(s[n..], tag % 8, rest);
    }
  }

  // Decoding a ++ b is decoding a and going on with b, whenever a is a whole number of fields.
  lemma {:induction false} DecodeSplit(a: Bytes, b: Bytes, slots: Slots)
    requires DecodeAll(a, slots).Whole?
    ensures DecodeAll(a, slots).size == |a|
    ensures DecodeAll(a + b, slots)
         == After(|a|, DecodeAll(b, DecodeAll(a, slots).slots))
    decreases |a|
  {
    hide FieldStep;
    if a == [] {
      assert a + b == b;
    } else {
      var n, slots' := FieldStep(a, slots).size, FieldStep(a, slots).value;
      var head, tail := a[..n], a[n..];
      assert a == head + tail && a + b == head + (tail + b);
      FieldStepLocal(a, slots, b);
      DecodeTurn(head, tail, slots, slots');
      DecodeTurn(head, tail + b, slots, slots');
      DecodeSplit(tail, b, slots');
    }
  }

  // One written field, read back in front of anything
  lemma KnownFieldStep(field: nat, v: Bytes, slots: Slots, rest: Bytes)
    requires 1 <= field <= |slots| && Tag(field, 2) < UINT32
    requires v != [] && |v| < UINT32
    ensures FieldStep(EncodeSlot(field, v) + rest, slots)
         == Got(slots[field - 1 := v], |EncodeSlot(field, v)|)
  {
    var tag := PutUint32(Tag(field, 2));
    var s := EncodeSlot(field, v) + rest;
    assert s == tag + (PutBytes(v) + rest);
    Uint32RoundTrip(Tag(field, 2), PutBytes(v) + rest);
    assert s[|tag|..] == PutBytes(v) + rest;
    BytesRoundTrip(v, rest);
  }

  lemma OverrideTurn(base: Slots, slots: Slots, k: nat)
    requires k < |slots| == |base|
    ensures OverrideFrom(base, slots, k)
         == OverrideFrom(if slots[k] == [] then base else base[k := slots[k]], slots, k + 1)
  {}

  lemma {:induction false} EncodeFromDecodes(slots: Slots, k: nat, base: Slots)
    requires k <= |slots| == |base| && Tag(|slots|, 2) < UINT32
    requires Fits(slots)
    ensures DecodeAll(EncodeFrom(slots, k), base)
         == Whole(OverrideFrom(base, slots, k), |EncodeFrom(slots, k)|)
    decreases |slots| - k
  {
    hide FieldStep, PutUint32, PutBytes, DecodeFields, OverrideFrom;
    if k == |slots| {
      assert OverrideFrom(base, slots, k) == base;
      DecodeNothing(base);
    } else {
      var head, tail := EncodeSlot(k + 1, slots[k]), EncodeFrom(slots, k + 1);
      var base' := if slots[k] == [] then base else base[k := slots[k]];
      EncodeFromDecodes(slots, k + 1, base');
      OverrideTurn(base, slots, k);
      if slots[k] == [] {
        assert head + tail == tail;
      } else {
        KnownFieldStep(k + 1, slots[k], base, tail);
        hide EncodeSlot;
        DecodeTurn(head, tail, base, base');
      }
    }
  }

  // Decoding an encoded message over `base`: its non-empty fields win, the rest of `base` stays.
  lemma EncodeDecodes(slots: Slots, base: Slots)
    requires |slots| == |base| && Tag(|slots|, 2) < UINT32 && Fits(slots)
    ensures DecodeAll(Encode(slots), base) == Whole(Override(base, slots), |Encode(slots)|)
  {
    EncodeFromDecodes(slots, 0, base);
  }

  // Merge law: the concatenation of two messages decodes to the first with the second laid over it.
  lemma MergeLaw(a: Slots, b: Slots)
    requires |a| == |b| && Tag(|a|, 2) < UINT32 && Fits(a) && Fits(b)
    ensures DecodeAll(Encode(a) + Encode(b), Empty(|a|))
         == Whole(Override(a, b), |Encode(a)| + |Encode(b)|)
  {
    EncodeDecodes(a, Empty(|a|));
    assert Override(Empty(|a|), a) == a;
    DecodeSplit(Encode(a), Encode(b), Empty(|a|));
    EncodeDecodes(b, a);
  }

  // A decoded field never reaches 2^32 bytes.
  lemma {:induction false} DecodedFits(s: Bytes, limit: int, slots: Slots)
    requires Fits(slots)
    requires DecodeFields(s, limit, slots).Whole?
    ensures Fits(DecodeFields(s, limit, slots).slots)
    decreases |s|
  {
    if limit > 0 {
      var n, slots' := FieldStep(s, slots).size, FieldStep(s, slots).value;
      DecodedFits(s[n..], limit - n, slots');
    }
  }

  // Round trip, and exactly when: every field is shorter than 2^32 bytes.
  lemma RoundTripExactly(slots: Slots)
    requires Tag(|slots|, 2) < UINT32
    ensures DecodeAll(Encode(slots), Empty(|slots|)) == Whole(slots, |Encode(slots)|) <==> Fits(slots)
  {
    if Fits(slots) {
      EncodeDecodes(slots, Empty(|slots|));
      assert Override(Empty(|slots|), slots) == slots;
    }
    if DecodeAll(Encode(slots), Empty(|slots|)).Whole? {
      DecodedFits(Encode(slots), |Encode(slots)|, Empty(|slots|));
    }
  }
}

/**
 * Fields the decoders do not know, as the section "Message Structure" of the Protocol Buffers Encoding
 * specification lays them out, groups included, and the proof that the decoders pass over them.
 */
module UnknownFields {
  import opened Wrappers
  import opened Varint
  import opened WireFields

  datatype Unknown =
    | VarintField(number: nat, more: Bytes, last: byte)
    | Fixed64Field(number: nat, raw: Bytes)
    | BytesField(number: nat, raw: Bytes)
    | GroupField(number: nat, members: seq<Unknown>)
    | Fixed32Field(number: nat, raw: Bytes)

  predicate WellFormed(u: Unknown) {
    && 1 <= u.number
    && Tag(u.number, 7) < UINT32
    && match u
       case VarintField(_, more, last) => last < 128 && forall k :: 0 <= k < |more| ==> more[k] >= 128
       case Fixed64Field(_, raw) => |raw| == 8
       case BytesField(_, raw) => |raw| < UINT32
       case GroupField(_, members) => forall k :: 0 <= k < |members| ==> WellFormed(members[k])
       case Fixed32Field(_, raw) => |raw| == 4
  }

  function Wire(u: Unknown): nat {
    match u
    case VarintField(_, _, _) => 0
    case Fixed64Field(_, _) => 1
    case BytesField(_, _) => 2
    case GroupField(_, _) => 3
    case Fixed32Field(_, _) => 5
  }

  function Body(u: Unknown): Bytes
    decreases u, 0
  {
    match u
    case VarintField(_, more, last) => more + [last]
    case Fixed64Field(_, raw) => raw
    case BytesField(_, raw) => PutBytes(raw)
    case GroupField(number, members) => PrintAll(members) + PutUint32(Tag(number, 4))
    case Fixed32Field(_, raw) => raw
  }

  function Print(u: Unknown): Bytes
    decreases u, 1
  {
    PutUint32(Tag(u.number, Wire(u))) + Body(u)
  }

  function PrintAll(us: seq<Unknown>): Bytes
    decreases us, 0
  {
    if us == [] then [] else Print(us[0]) + PrintAll(us[1..])
  }

  lemma {:induction false} SkipPrintedVarint(more: Bytes, last: byte, rest: Bytes)
    requires last < 128 && forall k :: 0 <= k < |more| ==> more[k] >= 128
    ensures SkipVarint(more + [last] + rest) == Some(|more| + 1)
    decreases |more|
  {
    var s := more + [last] + rest;
    if more != [] {
      SkipPrintedVarint(more[1..], last, rest);
      assert s[1..] == more[1..] + [last] + rest;
    }
  }

  lemma {:induction false} SkipBody(u: Unknown, rest: Bytes)
    requires WellFormed(u)
    ensures SkipType(Body(u) + rest, Wire(u)) == Some(|Body(u)|)
    decreases u, 0
  {
    hide ReadUint32, PutUint32, SkipGroup, SkipVarint, PrintAll;
    match u
    case VarintField(_, more, last) => SkipPrintedVarint(more, last, rest);
    case Fixed64Field(_, _) =>
    case BytesField(_, raw) =>
      Uint32RoundTrip(|raw|, raw + rest);
      assert Body(u) + rest == PutUint32(|raw|) + (raw + rest);
    case GroupField(number, members) =>
      EmptyGroup(number, rest);
      SkipMembers(members, PutUint32(Tag(number, 4)) + rest, |PutUint32(Tag(number, 4))|);
      assert Body(u) + rest == PrintAll(members) + (PutUint32(Tag(number, 4)) + rest);
    case Fixed32Field(_, _) =>
  }

  lemma EmptyGroup(number: nat, rest: Bytes)
    requires Tag(number, 7) < UINT32
    ensures SkipGroup(PutUint32(Tag(number, 4)) + rest) == Some(|PutUint32(Tag(number, 4))|)
  {
    hide ReadUint32, PutUint32, SkipType;
    Uint32RoundTrip(Tag(number, 4), rest);
  }

  // A group that starts with a member goes on behind it.
  lemma SkipMember(tag: nat, body: Bytes, after: Bytes, k: nat)
    requires tag < UINT32 && tag % 8 != 4
    requires SkipType(body + after, tag % 8) == Some(|body|) && SkipGroup(after) == Some(k)
    ensures SkipGroup(PutUint32(tag) + body + after) == Some(|PutUint32(tag) + body| + k)
  {
    hide ReadUint32, PutUint32, SkipType, SkipGroup;
    var s := PutUint32(tag) + body + after;
    assert s == PutUint32(tag) + (body + after);
    Uint32RoundTrip(tag, body + after);
    assert s[|PutUint32(tag)|..] == body + after;
    assert (body + after)[|body|..] == after;
    GroupUnfold(s, tag, |PutUint32(tag)|, |body|);
  }

  // Members are skipped whatever the group goes on with.
  lemma {:induction false} SkipMembers(us: seq<Unknown>, end: Bytes, k: nat)
    requires forall i :: 0 <= i < |us| ==> WellFormed(us[i])
    requires SkipGroup(end) == Some(k)
    ensures SkipGroup(PrintAll(us) + end) == Some(|PrintAll(us)| + k)
    decreases us, 0
  {
    hide PutUint32, Body, SkipType, SkipGroup;
    if us == [] {
      assert PrintAll(us) + end == end;
    } else {
      var u, rest := us[0], PrintAll(us[1..]);
      MemberTag(u);
      SkipMembers(us[1..], end, k);
      SkipBody(u, rest + end);
      hide Wire, Tag, WellFormed;
      SkipMember(Tag(u.number, Wire(u)), Body(u), rest + end, |rest| + k);
      assert Print(u) == PutUint32(Tag(u.number, Wire(u))) + Body(u);
      hide Print;
      assert PrintAll(us) + end == Print(u) + (rest + end);
    }
  }

  lemma MemberTag(u: Unknown)
    requires WellFormed(u)
    ensures Tag(u.number, Wire(u)) < UINT32 && Tag(u.number, Wire(u)) % 8 == Wire(u) != 4
  {
    TagParts(u.number, Wire(u));
  }

  lemma TagParts(number: nat, wire: nat)
    requires wire < 8
    ensures Tag(number, wire) / 8 == number && Tag(number, wire) % 8 == wire
  {}

  lemma UnknownStep(u: Unknown, slots: Slots, rest: Bytes)
    requires WellFormed(u) && u.number > |slots|
    ensures FieldStep(Print(u) + rest, slots) == Got(slots, |Print(u)|)
  {
    var number, wire := Tag(u.number, Wire(u)), Wire(u);
    var tag, body := PutUint32(number), Body(u);
    assert Print(u) + rest == tag + (body + rest);
    Uint32RoundTrip(number, body + rest);
    assert (Print(u) + rest)[|tag|..] == body + rest;
    SkipBody(u, rest);
    TagParts(u.number, wire);
    SkipStep(Print(u) + rest, slots, number, |tag|, |body|);
  }

  // One unfolding of FieldStep for a field that is skipped
  lemma SkipStep(s: Bytes, slots: Slots, tag: nat, n: nat, m: nat)
    requires ReadUint32(s) == Got(tag, n) && tag / 8 > |slots|
    requires SkipType(s[n..], tag % 8) == Some(m)
    ensures FieldStep(s, slots) == Got(slots, n + m)
  {}

  // A well-formed unknown field put at any field boundary changes nothing in what is decoded,
  // whatever follows it, be that well formed or not.
  lemma UnknownIsSkipped(a: Bytes, u: Unknown, b: Bytes, slots: Slots)
    requires DecodeAll(a, slots).Whole?
    requires WellFormed(u) && u.number > |slots|
    ensures DecodeAll(a + (Print(u) + b), slots)
         == After(|Print(u)|, DecodeAll(a + b, slots))
  {
    hide FieldStep, Print, DecodeFields;
    var mid := DecodeAll(a, slots).slots;
    DecodeSplit(a, Print(u) + b, slots);
    DecodeSplit(a, b, slots);
    UnknownStep(u, mid, b);
    DecodeTurn(Print(u), b, mid, mid);
  }
}
