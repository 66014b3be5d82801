/** Bit fields and the legacy network packet. */
module Bitfield {

  /** A bit position in a 32-bit word. */
  predicate Position(i: bv6) {
    i < 32
  }

  predicate Bit(x: bv32, i: bv6)
    requires Position(i)
  {
    (x >> i) & 1 == 1
  }

  function ShiftUp(x: bv32, l: bv6): bv32
    requires Position(l)
  {
    x << l
  }

  /** The mask is computed with 64 bits and then narrowed. */
  function Mask(msb: bv6, lsb: bv6): bv32
    requires lsb <= msb < 32
  {
    (((((1 as bv64) << (msb + 1)) - 1) & !(((1 as bv64) << lsb) - 1)) & 0xFFFF_FFFF) as bv32
  }

  function And(x: bv32, y: bv32): bv32 { x & y }

  function Or(x: bv32, y: bv32): bv32 { x | y }

  function Not(x: bv32): bv32 { !x }

  function ShiftDown(x: bv32, l: bv6): bv32
    requires Position(l)
  {
    x >> l
  }

  function Get(v: bv32, msb: bv6, lsb: bv6): bv32
    requires lsb <= msb < 32
  {
    ShiftDown(And(v, Mask(msb, lsb)), lsb)
  }

  function Set(v: bv32, base: bv32, msb: bv6, lsb: bv6): bv32
    requires lsb <= msb < 32
  {
    Or(And(base, Not(Mask(msb, lsb))), And(ShiftUp(v, lsb), Mask(msb, lsb)))
  }

  lemma MaskBits(msb: bv6, lsb: bv6, i: bv6)
    requires lsb <= msb < 32 && Position(i)
    ensures Bit(Mask(msb, lsb), i) <==> lsb <= i <= msb
  {
  }

  lemma AndBits(x: bv32, y: bv32, i: bv6)
    requires Position(i)
    ensures Bit(And(x, y), i) <==> Bit(x, i) && Bit(y, i)
  {
  }

  lemma OrBits(x: bv32, y: bv32, i: bv6)
    requires Position(i)
    ensures Bit(Or(x, y), i) <==> Bit(x, i) || Bit(y, i)
  {
  }

  lemma NotBits(x: bv32, i: bv6)
    requires Position(i)
    ensures Bit(Not(x), i) <==> !Bit(x, i)
  {
  }

  lemma ShiftUpOne(x: bv32, i: bv6)
    requires 0 < i < 32
    ensures Bit(ShiftUp(x, 1), i) <==> Bit(x, i - 1)
  {
  }

  lemma ShiftUpSplit(x: bv32, l: bv6)
    requires 0 < l < 32
    ensures ShiftUp(x, l) == ShiftUp(ShiftUp(x, l - 1), 1)
  {
  }

  lemma ShiftByNothing(x: bv32)
    ensures ShiftUp(x, 0) == x && ShiftDown(x, 0) == x
  {
  }

  lemma {:induction false} ShiftUpBits(x: bv32, l: bv6, i: bv6)
    requires l <= i < 32
    ensures Bit(ShiftUp(x, l), i) <==> Bit(x, i - l)
    decreases l
  {
    hide Bit, ShiftUp;
    if l == 0 {
      ShiftByNothing(x);
    } else {
      ShiftUpSplit(x, l);
      ShiftUpOne(ShiftUp(x, l - 1), i);
      ShiftUpBits(x, l - 1, i - 1);
      assert (i - 1) - (l - 1) == i - l;
    }
  }

  lemma ShiftDownOne(x: bv32, i: bv6)
    requires Position(i)
    ensures Bit(ShiftDown(x, 1), i) <==> i + 1 < 32 && Bit(x, i + 1)
  {
  }

  lemma ShiftDownSplit(x: bv32, l: bv6)
    requires 0 < l < 32
    ensures ShiftDown(x, l) == ShiftDown(ShiftDown(x, 1), l - 1)
  {
  }

  lemma {:induction false} ShiftDownBits(x: bv32, l: bv6, i: bv6)
    requires Position(l) && Position(i)
    ensures Bit(ShiftDown(x, l), i) <==> i + l < 32 && Bit(x, i + l)
    decreases l
  {
    hide Bit, ShiftDown;
    if l == 0 {
      ShiftByNothing(x);
    } else {
      ShiftDownSplit(x, l);
      ShiftDownBits(ShiftDown(x, 1), l - 1, i);
      if i + (l - 1) < 32 {
        ShiftDownOne(x, i + (l - 1));
        assert i + (l - 1) + 1 == i + l;
      }
    }
  }

  /** Setting a field writes the value's low bits into the field and leaves every other bit of the base. */
  lemma SetBits(v: bv32, base: bv32, msb: bv6, lsb: bv6, i: bv6)
    requires lsb <= msb < 32 && Position(i)
    ensures Bit(Set(v, base, msb, lsb), i) <==> if lsb <= i <= msb then Bit(v, i - lsb) else Bit(base, i)
  {
    hide Bit, Mask, ShiftUp, And, Or, Not;
    var m, up := Mask(msb, lsb), ShiftUp(v, lsb);
    MaskBits(msb, lsb, i);
    NotBits(m, i);
    AndBits(base, Not(m), i);
    AndBits(up, m, i);
    OrBits(And(base, Not(m)), And(up, m), i);
    if lsb <= i {
      ShiftUpBits(v, lsb, i);
    }
  }

  /** A bit of the right-aligned field and its position in the word. */
  lemma FieldPosition(msb: bv6, lsb: bv6, i: bv6)
    requires lsb <= msb < 32 && Position(i)
    ensures i <= msb - lsb <==> i + lsb < 32 && lsb <= i + lsb <= msb
    ensures (i + lsb) - lsb == i
  {
  }

  /** Getting a field reads its bits, right-aligned, with zeros above. */
  lemma GetBits(v: bv32, msb: bv6, lsb: bv6, i: bv6)
    requires lsb <= msb < 32 && Position(i)
    ensures Bit(Get(v, msb, lsb), i) <==> i <= msb - lsb && Bit(v, i + lsb)
  {
    hide Bit, Mask, And, ShiftDown;
    FieldPosition(msb, lsb, i);
    ShiftDownBits(And(v, Mask(msb, lsb)), lsb, i);
    if i + lsb < 32 {
      MaskBits(msb, lsb, i + lsb);
      AndBits(v, Mask(msb, lsb), i + lsb);
    }
  }

  /** What is set is what is got: the value reduced to the width of the field, whatever the base. */
  lemma GetOfSet(v: bv32, base: bv32, msb: bv6, lsb: bv6, i: bv6)
    requires lsb <= msb < 32 && Position(i)
    ensures Bit(Get(Set(v, base, msb, lsb), msb, lsb), i) <==> i <= msb - lsb && Bit(v, i)
  {
    hide Bit, Get, Set;
    FieldPosition(msb, lsb, i);
    GetBits(Set(v, base, msb, lsb), msb, lsb, i);
    if i <= msb - lsb {
      SetBits(v, base, msb, lsb, i + lsb);
    }
  }
}

module LegacyPacket {
  import opened Bitfield

  datatype Fields = Fields(endpoint: bv32, rw: bv32, group: bv32, value: bv32)

  function Parse(v: bv32): Fields {
    Fields(Get(v, 6, 0), Get(v, 7, 7), Get(v, 11, 8), Get(v, 31, 16))
  }

  function Encode(p: Fields): bv32 {
    Set(p.endpoint, 0, 6, 0) | Set(p.rw, 0, 7, 7) | Set(p.group, 0, 11, 8) | Set(p.value, 0, 31, 16)
  }

  function RouteId(p: Fields): bv16 {
    ((p.endpoint | (p.group << 8)) & 0xFFFF) as bv16
  }

  function WithRouteId(p: Fields, id: bv16): Fields {
    p.(group := ((id & 0xFF00) >> 8) as bv32, endpoint := (id & 0x00FF) as bv32)
  }

  class Packet {
    var endpoint: bv32
    var rw: bv32
    var group: bv32
    var value: bv32

    ghost function Contents(): Fields
      reads this
    {
      Fields(endpoint, rw, group, value)
    }

    constructor (v: bv32)
      ensures Contents() == Parse(v)
    {
      endpoint := Get(v, 6, 0);
      rw := Get(v, 7, 7);
      group := Get(v, 11, 8);
      value := Get(v, 31, 16);
    }

    method EncodeTo() returns (word: bv32)
      ensures word == Encode(Contents())
    {
      hide Set;
      word := 0;
      word := word | Set(endpoint, 0, 6, 0);
      word := word | Set(rw, 0, 7, 7);
      word := word | Set(group, 0, 11, 8);
      word := word | Set(value, 0, 31, 16);
    }

    method RouteIdGet() returns (id: bv16)
      ensures id == RouteId(Contents())
    {
      id := (endpoint & 0xFFFF) as bv16;
      id := id | ((group << 8) & 0xFFFF) as bv16;
    }

    method RouteIdSet(id: bv16)
      modifies this`group, this`endpoint
      ensures Contents() == WithRouteId(old(Contents()), id)
    {
      group := ((id & 0xFF00) >> 8) as bv32;
      endpoint := (id & 0x00FF) as bv32;
    }
  }

  /** Every field fits its width on the wire. */
  predicate Fits(p: Fields) {
    p.endpoint < 0x80 && p.rw < 2 && p.group < 0x10 && p.value < 0x1_0000
  }

  /** The wire layout written out as shifts. */
  function Pack(p: Fields): bv32 {
    (p.endpoint & 0x7F) | ((p.rw & 1) << 7) | ((p.group & 0xF) << 8) | (p.value << 16)
  }

  function Unpack(v: bv32): Fields {
    Fields(v & 0x7F, (v >> 7) & 1, (v >> 8) & 0xF, v >> 16)
  }

  /** Every field reduced to its width on the wire. */
  function Reduced(p: Fields): Fields {
    Fields(p.endpoint & 0x7F, p.rw & 1, p.group & 0xF, p.value & 0xFFFF)
  }

  lemma ParseIsUnpack(v: bv32)
    ensures Parse(v) == Unpack(v)
  {
  }

  lemma EncodeIsPack(p: Fields)
    ensures Encode(p) == Pack(p)
  {
  }

  lemma UnpackOfPack(p: Fields)
    ensures Unpack(Pack(p)) == Reduced(p)
  {
  }

  lemma PackOfUnpack(v: bv32)
    ensures Pack(Unpack(v)) == v & 0xFFFF_0FFF
  {
  }

  lemma ReducedWhenFits(p: Fields)
    ensures Reduced(p) == p <==> Fits(p)
  {
  }

  /** A word survives parsing and encoding except for its unused bits 12 to 15. */
  lemma EncodeOfParse(v: bv32)
    ensures Encode(Parse(v)) == v & 0xFFFF_0FFF
  {
    hide *;
    ParseIsUnpack(v);
    EncodeIsPack(Unpack(v));
    PackOfUnpack(v);
  }

  /** A packet survives encoding and parsing up to the width of its fields, and so exactly when they fit. */
  lemma ParseOfEncode(p: Fields)
    ensures Parse(Encode(p)) == Reduced(p)
    ensures Parse(Encode(p)) == p <==> Fits(p)
  {
    hide *;
    EncodeIsPack(p);
    ParseIsUnpack(Pack(p));
    UnpackOfPack(p);
    ReducedWhenFits(p);
  }

  /** The route identifier that was set is the one got, for all 16 bits. */
  lemma RouteRoundTrip(p: Fields, id: bv16)
    ensures RouteId(WithRouteId(p, id)) == id
  {
  }

  /** A route identifier survives the wire exactly when bit 7 and bits 12 to 15 are clear: the
      endpoint has only seven bits there and the group four. */
  lemma RouteOverWire(p: Fields, id: bv16)
    ensures RouteId(Parse(Encode(WithRouteId(p, id)))) == id & 0x0F7F
    ensures RouteId(Parse(Encode(WithRouteId(p, id)))) == id <==> id & 0xF080 == 0
  {
    hide Encode, Parse;
    ParseOfEncode(WithRouteId(p, id));
  }
}
