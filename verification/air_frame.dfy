/** The air frame: five bus/size slots packed into two 802.11 addresses, and the MPDU around them. */
module AirFrame {
  import opened Bytes

  const SLOTS: nat := 5
  const HDR_LEN: nat := 24
  const PAYLOAD_MAX: nat := 1476
  const INJECT_MAX: nat := 1500

  datatype Slot = Slot(bus: byte, size: u16)

  // ---- Bits of a number ------------------------------------------------

  function Pow2(n: nat): nat { if n == 0 then 1 else 2 * Pow2(n - 1) }

  /** v & (1 << k) is not zero. */
  predicate Bit(v: nat, k: nat) { if k == 0 then v % 2 == 1 else Bit(v / 2, k - 1) }

  /** v | (1 << k). */
  function SetBit(v: nat, k: nat): nat {
    if k == 0 then (if v % 2 == 1 then v else v + 1) else 2 * SetBit(v / 2, k - 1) + v % 2
  }

  /** v >> k. */
  function Shr(v: nat, k: nat): nat { if k == 0 then v else Shr(v / 2, k - 1) }

  lemma {:induction false} SetBitAt(v: nat, k: nat, j: nat)
    ensures Bit(SetBit(v, k), j) <==> j == k || Bit(v, j)
  {
    if k > 0 && j > 0 { SetBitAt(v / 2, k - 1, j - 1); }
  }

  /** One step of the definitions. */
  lemma SetBitUnfold(v: nat, k: nat)
    ensures SetBit(v, k) == if k > 0 then 2 * SetBit(v / 2, k - 1) + v % 2 else if v % 2 == 1 then v else v + 1
  {
  }

  lemma Pow2Unfold(n: nat)
    requires n > 0
    ensures Pow2(n) == 2 * Pow2(n - 1)
  {
  }

  lemma {:induction false} SetBitRange(v: nat, k: nat, n: nat)
    requires v < Pow2(n) && k < n
    ensures SetBit(v, k) < Pow2(n)
  {
    hide SetBit;
    hide Pow2;
    SetBitUnfold(v, k);
    Pow2Unfold(n);
    if k > 0 { SetBitRange(v / 2, k - 1, n - 1); }
  }

  lemma {:induction false} ShrBit(v: nat, k: nat)
    ensures Bit(v, k) <==> Shr(v, k) % 2 == 1
    ensures Shr(v, k) / 2 == Shr(v, k + 1)
  {
    if k > 0 { ShrBit(v / 2, k - 1); }
  }

  lemma {:induction false} BitsUnique(v: nat, w: nat, n: nat)
    requires v < Pow2(n) && w < Pow2(n)
    requires forall i: nat :: i < n ==> (Bit(v, i) <==> Bit(w, i))
    ensures v == w
  {
    if n > 0 {
      assert Bit(v, 0) <==> Bit(w, 0);
      forall i: nat | i < n - 1 ensures Bit(v / 2, i) <==> Bit(w / 2, i) {
        assert Bit(v, i + 1) <==> Bit(w, i + 1);
      }
      BitsUnique(v / 2, w / 2, n - 1);
    }
  }

  lemma {:induction false} HighBits(v: nat, n: nat, k: nat)
    requires v < Pow2(n) && n <= k
    ensures !Bit(v, k)
  {
    if n > 0 { HighBits(v / 2, n - 1, k - 1); } else if k > 0 { HighBits(0, 0, k - 1); }
  }

  /** The number whose n low bits are f(pos), f(pos + 1), ... */
  function FromBits(f: nat -> bool, pos: nat, n: nat): nat
    decreases n
  {
    if n == 0 then 0 else (if f(pos) then 1 else 0) + 2 * FromBits(f, pos + 1, n - 1)
  }

  lemma {:induction false} FromBitsAt(f: nat -> bool, pos: nat, n: nat)
    ensures FromBits(f, pos, n) < Pow2(n)
    ensures forall i: nat :: i < n ==> (Bit(FromBits(f, pos, n), i) <==> f(pos + i))
    decreases n
  {
    if n > 0 {
      FromBitsAt(f, pos + 1, n - 1);
      var v, w := FromBits(f, pos, n), FromBits(f, pos + 1, n - 1);
      assert v / 2 == w && (v % 2 == 1 <==> f(pos));
      forall i: nat | i < n ensures Bit(v, i) <==> f(pos + i) {
        if i > 0 { assert Bit(w, i - 1) <==> f(pos + 1 + (i - 1)); }
      }
    }
  }

  // ---- Slot layout -----------------------------------------------------

  /** Bit b of a packed address pair. */
  predicate PBit(p: seq<byte>, b: nat)
    requires b < 8 * |p|
  {
    Bit(p[b / 8], b % 8)
  }

  /** What the slot layout puts at bit b: the group bit, then 8 bus and 11 size bits per slot. */
  predicate SlotBit(slots: seq<Slot>, b: nat)
    requires |slots| == SLOTS
  {
    if b == 0 then true
    else if b > 95 then false
    else
      var s := slots[(b - 1) / 19];
      var r := (b - 1) % 19;
      if r < 8 then Bit(s.bus, r) else Bit(s.size % 2048, r - 8)
  }

  ghost predicate Layout(p: seq<byte>, slots: seq<Slot>)
    requires |slots| == SLOTS
  {
    |p| == 12 && forall b: nat :: b < 96 ==> (PBit(p, b) <==> SlotBit(slots, b))
  }

  /** The twelve address bytes that carry the slots. */
  function Pack(slots: seq<Slot>): (p: seq<byte>)
    requires |slots| == SLOTS
    ensures Layout(p, slots)
  {
    var f := (b: nat) => SlotBit(slots, b);
    var p := seq<byte>(12, i requires 0 <= i < 12 => PackedByte(f, i));
    PackedLayout(f, p);
    p
  }

  function PackedByte(f: nat -> bool, i: nat): byte {
    FromBitsAt(f, 8 * i, 8);
    assert Pow2(8) == 256;
    FromBits(f, 8 * i, 8)
  }

  lemma PackedLayout(f: nat -> bool, p: seq<byte>)
    requires |p| == 12 && forall i :: 0 <= i < 12 ==> p[i] == PackedByte(f, i)
    ensures forall b: nat :: b < 96 ==> (PBit(p, b) <==> f(b))
  {
    hide Bit;
    hide FromBits;
    forall b: nat | b < 96 ensures PBit(p, b) <==> f(b) {
      var i, j := b / 8, b % 8;
      FromBitsAt(f, 8 * i, 8);
      assert p[i] == PackedByte(f, i) && 8 * i + j == b;
    }
  }

  lemma LayoutUnique(p: seq<byte>, q: seq<byte>, slots: seq<Slot>)
    requires |slots| == SLOTS && Layout(p, slots) && Layout(q, slots)
    ensures p == q
  {
    forall i: nat | i < 12 ensures p[i] == q[i] {
      forall j: nat | j < 8 ensures Bit(p[i], j) <==> Bit(q[i], j) {
        var b := 8 * i + j;
        assert b / 8 == i && b % 8 == j;
        assert PBit(p, b) <==> SlotBit(slots, b);
        assert PBit(q, b) <==> SlotBit(slots, b);
      }
      assert Pow2(8) == 256;
      BitsUnique(p[i], q[i], 8);
    }
  }

  function PBits(p: seq<byte>): nat -> bool { (b: nat) => b < 8 * |p| && PBit(p, b) }

  /** The n bits at pos as a number. */
  function Field(p: seq<byte>, pos: nat, n: nat): (v: nat)
    requires pos + n <= 8 * |p|
    ensures v < Pow2(n)
    ensures forall i: nat :: i < n ==> (Bit(v, i) <==> PBit(p, pos + i))
  {
    FromBitsAt(PBits(p), pos, n);
    FromBits(PBits(p), pos, n)
  }

  lemma FieldIs(p: seq<byte>, pos: nat, n: nat, v: nat)
    requires pos + n <= 8 * |p| && v < Pow2(n)
    requires forall i: nat :: i < n ==> (Bit(v, i) <==> PBit(p, pos + i))
    ensures Field(p, pos, n) == v
  {
    BitsUnique(Field(p, pos, n), v, n);
  }

  lemma Widths()
    ensures Pow2(1) == 2 && Pow2(8) == 256 && Pow2(11) == 2048
  {
  }

  function SlotAt(p: seq<byte>, i: nat): Slot
    requires |p| == 12 && i < SLOTS
  {
    Widths();
    Slot(Field(p, 1 + 19 * i, 8), Field(p, 9 + 19 * i, 11))
  }

  function Unpack(p: seq<byte>): (r: seq<Slot>)
    requires |p| == 12
    ensures |r| == SLOTS
  {
    seq(SLOTS, i requires 0 <= i < SLOTS => SlotAt(p, i))
  }

  lemma SlotBitAt(slots: seq<Slot>, i: nat, r: nat)
    requires |slots| == SLOTS && i < SLOTS && r < 19
    ensures 1 + 19 * i + r < 96
    ensures SlotBit(slots, 1 + 19 * i + r) <==>
            if r < 8 then Bit(slots[i].bus, r) else Bit(slots[i].size % 2048, r - 8)
  {
    var b := 1 + 19 * i + r;
    assert (b - 1) / 19 == i && (b - 1) % 19 == r;
  }

  lemma PackedSlot(p: seq<byte>, slots: seq<Slot>, i: nat)
    requires |slots| == SLOTS && Layout(p, slots) && i < SLOTS
    ensures SlotAt(p, i) == slots[i].(size := slots[i].size % 2048)
  {
    Widths();
    hide Bit;
    hide Pow2;
    hide PBit;
    forall r: nat | r < 8 ensures Bit(slots[i].bus, r) <==> PBit(p, 1 + 19 * i + r) {
      SlotBitAt(slots, i, r);
    }
    forall r: nat | r < 11 ensures Bit(slots[i].size % 2048, r) <==> PBit(p, 9 + 19 * i + r) {
      SlotBitAt(slots, i, 8 + r);
      assert 1 + 19 * i + (8 + r) == 9 + 19 * i + r;
    }
    FieldIs(p, 1 + 19 * i, 8, slots[i].bus);
    FieldIs(p, 9 + 19 * i, 11, slots[i].size % 2048);
  }

  lemma UnpackedSlots(slots: seq<Slot>)
    requires |slots| == SLOTS
    ensures |Unpack(Pack(slots))| == SLOTS
    ensures forall i: nat :: i < SLOTS ==> Unpack(Pack(slots))[i] == slots[i].(size := slots[i].size % 2048)
  {
    var p := Pack(slots);
    hide Pack;
    hide Layout;
    hide SlotAt;
    forall i: nat | i < SLOTS ensures Unpack(p)[i] == slots[i].(size := slots[i].size % 2048) {
      PackedSlot(p, slots, i);
      assert Unpack(p)[i] == SlotAt(p, i);
    }
  }

  predicate Narrow(slots: seq<Slot>) { forall i :: 0 <= i < |slots| ==> slots[i].size < 2048 }

  /** Packing and unpacking are inverse exactly on sizes below 2048; the bus always survives. */
  lemma UnpackPack(slots: seq<Slot>)
    requires |slots| == SLOTS
    ensures Unpack(Pack(slots)) == slots <==> Narrow(slots)
    ensures forall i: nat :: i < SLOTS ==> Unpack(Pack(slots))[i].bus == slots[i].bus
  {
    UnpackedSlots(slots);
    MaskedSizes(slots, Unpack(Pack(slots)));
  }

  lemma MaskedSizes(slots: seq<Slot>, u: seq<Slot>)
    requires |u| == |slots|
    requires forall i: nat :: i < |u| ==> u[i] == slots[i].(size := slots[i].size % 2048)
    ensures u == slots <==> Narrow(slots)
    ensures forall i: nat :: i < |u| ==> u[i].bus == slots[i].bus
  {
    if Narrow(slots) {
      forall i: nat | i < |u| ensures u[i] == slots[i] {
        assert slots[i].size % 2048 == slots[i].size;
      }
    } else {
      var i: nat :| i < |u| && slots[i].size >= 2048;
      assert u[i].size < 2048;
    }
  }

  lemma SlotAtBit(p: seq<byte>, i: nat, r: nat)
    requires |p| == 12 && i < SLOTS && r < 19
    ensures 1 + 19 * i + r < 96 && SlotAt(p, i).size < 2048
    ensures PBit(p, 1 + 19 * i + r)
            <==> if r < 8 then Bit(SlotAt(p, i).bus, r) else Bit(SlotAt(p, i).size, r - 8)
  {
    Widths();
    hide Bit;
    hide PBit;
    hide Pow2;
    if r >= 8 { assert 9 + 19 * i + (r - 8) == 1 + 19 * i + r; }
  }

  lemma UnpackedBit(p: seq<byte>, i: nat, r: nat)
    requires |p| == 12 && i < SLOTS && r < 19
    ensures 1 + 19 * i + r < 96
    ensures PBit(p, 1 + 19 * i + r) <==> SlotBit(Unpack(p), 1 + 19 * i + r)
  {
    hide Bit;
    hide PBit;
    hide SlotBit;
    hide SlotAt;
    var s := SlotAt(p, i);
    assert Unpack(p)[i] == s;
    hide Unpack;
    SlotAtBit(p, i, r);
    SmallMod(s.size);
    SlotBitAt(Unpack(p), i, r);
  }

  lemma SmallMod(v: nat)
    requires v < 2048
    ensures v % 2048 == v
  {
  }

  lemma GroupBit(slots: seq<Slot>)
    requires |slots| == SLOTS
    ensures PBit(Pack(slots), 0) && SlotBit(slots, 0)
  {
    assert Layout(Pack(slots), slots);
    hide PBit;
  }

  lemma UnpackedLayout(p: seq<byte>)
    requires |p| == 12 && PBit(p, 0)
    ensures Layout(p, Unpack(p))
  {
    hide PBit;
    hide SlotBit;
    hide Unpack;
    var slots := Unpack(p);
    GroupBit(slots);
    forall b: nat | b < 96 ensures PBit(p, b) <==> SlotBit(slots, b) {
      if b > 0 {
        var i, r := (b - 1) / 19, (b - 1) % 19;
        assert b == 1 + 19 * i + r;
        UnpackedBit(p, i, r);
      }
    }
  }

  /** Twelve bytes come back from packing what was unpacked when their group bit is set. */
  lemma PackUnpack(p: seq<byte>)
    requires |p| == 12
    ensures Pack(Unpack(p)) == p <==> PBit(p, 0)
  {
    var slots := Unpack(p);
    GroupBit(slots);
    if PBit(p, 0) {
      UnpackedLayout(p);
      LayoutUnique(p, Pack(slots), slots);
    }
    hide Layout;
    hide PBit;
  }

  // ---- The C++ packer --------------------------------------------------

  /** Setting bit b of a byte buffer changes that bit alone. */
  lemma SetBitIn(p: seq<byte>, b: nat)
    requires b < 8 * |p|
    ensures SetBit(p[b / 8], b % 8) < 256
    ensures forall c: nat :: c < 8 * |p| ==> (PBit(p[b / 8 := SetBit(p[b / 8], b % 8)], c) <==> c == b || PBit(p, c))
  {
    Widths();
    SetBitRange(p[b / 8], b % 8, 8);
    hide Bit;
    hide SetBit;
    var q: seq<byte> := p[b / 8 := SetBit(p[b / 8], b % 8)];
    forall c: nat | c < 8 * |p| ensures PBit(q, c) <==> c == b || PBit(p, c) {
      if c / 8 == b / 8 { SetBitAt(p[b / 8], b % 8, c % 8); }
    }
  }

  ghost predicate Emitted(before: seq<byte>, after: seq<byte>, bit: nat, value: nat, nbits: nat) {
    && |after| == |before|
    && forall c: nat :: c < 8 * |before| ==>
         (PBit(after, c) <==> PBit(before, c) || (bit <= c < bit + nbits && Bit(value, c - bit)))
  }

  lemma EmitNone(p: seq<byte>, bit: nat, value: nat)
    ensures Emitted(p, p, bit, value, 0)
  {
  }

  lemma EmitOne(before: seq<byte>, p: seq<byte>, bit: nat, value: nat, i: nat)
    requires bit + i < 8 * |p| && Emitted(before, p, bit, value, i)
    ensures SetBit(p[(bit + i) / 8], (bit + i) % 8) < 256
    ensures var q := p[(bit + i) / 8 := SetBit(p[(bit + i) / 8], (bit + i) % 8)];
            Emitted(before, if Bit(value, i) then q else p, bit, value, i + 1)
  {
    SetBitIn(p, bit + i);
    hide PBit;
    hide Bit;
    hide SetBit;
    var q := p[(bit + i) / 8 := SetBit(p[(bit + i) / 8], (bit + i) % 8)];
    var r := if Bit(value, i) then q else p;
    forall c: nat | c < 8 * |p|
      ensures PBit(r, c) <==> PBit(before, c) || (bit <= c < bit + (i + 1) && Bit(value, c - bit))
    {
      EmittedAt(before, p, bit, value, i, c);
      assert PBit(r, c) <==> PBit(p, c) || (c == bit + i && Bit(value, i));
    }
  }

  /** What one bit of the buffer was before bit `i` of the value is written. */
  lemma EmittedAt(before: seq<byte>, p: seq<byte>, bit: nat, value: nat, i: nat, c: nat)
    requires Emitted(before, p, bit, value, i) && c < 8 * |p|
    ensures |before| == |p|
    ensures PBit(p, c) <==> PBit(before, c) || (bit <= c < bit + i && Bit(value, c - bit))
  {
    hide PBit;
    hide Bit;
  }

  /** emit_bits: shifts the value right and tests its lowest bit. */
  method EmitBits(packed: array<byte>, bit: nat, value: u16, nbits: nat) returns (bit': nat)
    requires bit + nbits <= 8 * packed.Length
    modifies packed
    ensures bit' == bit + nbits && Emitted(old(packed[..]), packed[..], bit, value, nbits)
  {
    hide Emitted;
    hide Bit;
    hide SetBit;
    ghost var before := packed[..];
    var v: nat := value;
    EmitNone(before, bit, value);
    bit' := bit;
    for i := 0 to nbits
      invariant bit' == bit + i && v == Shr(value, i)
      invariant Emitted(before, packed[..], bit, value, i)
    {
      var b := bit';
      bit' := bit' + 1;
      EmitOne(before, packed[..], bit, value, i);
      ShrBit(value, i);
      if v % 2 != 0 {
        ghost var p := packed[..];
        packed[b / 8] := SetBit(packed[b / 8], b % 8);
        assert packed[..] == p[b / 8 := SetBit(p[b / 8], b % 8)];
      }
      v := v / 2;
    }
  }

  /** The i bits at `bit` make up the value. */
  ghost predicate Taken(p: seq<byte>, bit: nat, value: nat, i: nat) {
    && bit + i <= 8 * |p| && value < Pow2(i)
    && forall j: nat :: j < i ==> (Bit(value, j) <==> PBit(p, bit + j))
  }

  lemma TakeOne(p: seq<byte>, bit: nat, v: nat, i: nat)
    requires bit + i < 8 * |p| && Taken(p, bit, v, i)
    ensures Taken(p, bit, if PBit(p, bit + i) then SetBit(v, i) else v, i + 1)
  {
    HighBits(v, i, i);
    SetBitRange(v, i, i + 1);
    var w := if PBit(p, bit + i) then SetBit(v, i) else v;
    forall j: nat | j < i + 1 ensures Bit(w, j) <==> PBit(p, bit + j) {
      SetBitAt(v, i, j);
    }
  }

  lemma NothingTaken(p: seq<byte>, bit: nat)
    requires bit <= 8 * |p|
    ensures Taken(p, bit, 0, 0)
  {
  }

  lemma TakenAll(p: seq<byte>, bit: nat, value: nat, nbits: nat)
    requires Taken(p, bit, value, nbits)
    ensures value == Field(p, bit, nbits)
  {
    FieldIs(p, bit, nbits, value);
  }

  /** take_bits. */
  method TakeBits(packed: array<byte>, bit: nat, nbits: nat) returns (value: nat, bit': nat)
    requires bit + nbits <= 8 * packed.Length
    ensures bit' == bit + nbits && value == Field(packed[..], bit, nbits)
  {
    hide SetBit;
    hide Taken;
    hide Bit;
    value := 0;
    bit' := bit;
    NothingTaken(packed[..], bit);
    for i := 0 to nbits
      invariant bit' == bit + i && Taken(packed[..], bit, value, i)
    {
      var b := bit';
      bit' := bit' + 1;
      TakeOne(packed[..], bit, value, i);
      if Bit(packed[b / 8], b % 8) { value := SetBit(value, i); }
    }
    TakenAll(packed[..], bit, value, nbits);
  }

  /** Bits below pos are laid out, the others are still clear. */
  ghost predicate PackedTo(p: seq<byte>, slots: seq<Slot>, pos: nat)
    requires |slots| == SLOTS
  {
    |p| == 12 && forall b: nat :: b < 96 ==> (PBit(p, b) <==> b < pos && SlotBit(slots, b))
  }

  lemma PackedZero(p: seq<byte>, slots: seq<Slot>)
    requires |slots| == SLOTS && |p| == 12 && forall i :: 0 <= i < 12 ==> p[i] == 0
    ensures PackedTo(p, slots, 0)
  {
    Widths();
    forall b: nat | b < 96 ensures !PBit(p, b) {
      HighBits(0, 0, b % 8);
    }
  }

  lemma PackedGroup(p: seq<byte>, q: seq<byte>, slots: seq<Slot>)
    requires |slots| == SLOTS && PackedTo(p, slots, 0) && Emitted(p, q, 0, 1, 1)
    ensures PackedTo(q, slots, 1)
  {
    assert Bit(1, 0);
    hide PBit;
  }

  lemma PackedMore(p: seq<byte>, q: seq<byte>, slots: seq<Slot>, i: nat)
    requires |slots| == SLOTS && i < SLOTS
    ensures PackedTo(p, slots, 1 + 19 * i) && Emitted(p, q, 1 + 19 * i, slots[i].bus, 8)
            ==> PackedTo(q, slots, 9 + 19 * i)
    ensures PackedTo(p, slots, 9 + 19 * i) && Emitted(p, q, 9 + 19 * i, slots[i].size % 2048, 11)
            ==> PackedTo(q, slots, 20 + 19 * i)
  {
    hide PBit;
    hide Bit;
    hide SlotBit;
    if PackedTo(p, slots, 1 + 19 * i) && Emitted(p, q, 1 + 19 * i, slots[i].bus, 8) {
      forall b: nat | b < 96 ensures PBit(q, b) <==> b < 9 + 19 * i && SlotBit(slots, b) {
        if 1 + 19 * i <= b < 9 + 19 * i { SlotBitAt(slots, i, b - 1 - 19 * i); }
      }
    }
    if PackedTo(p, slots, 9 + 19 * i) && Emitted(p, q, 9 + 19 * i, slots[i].size % 2048, 11) {
      forall b: nat | b < 96 ensures PBit(q, b) <==> b < 20 + 19 * i && SlotBit(slots, b) {
        if 9 + 19 * i <= b < 20 + 19 * i { SlotBitAt(slots, i, b - 1 - 19 * i); }
      }
    }
  }

  lemma PackedAll(p: seq<byte>, slots: seq<Slot>)
    requires |slots| == SLOTS && PackedTo(p, slots, 96)
    ensures p == Pack(slots)
  {
    LayoutUnique(p, Pack(slots), slots);
  }

  /** framePackSlots. */
  method PackSlots(slots: seq<Slot>) returns (addr1: seq<byte>, addr2: seq<byte>)
    requires |slots| == SLOTS
    ensures |addr1| == 6 && |addr2| == 6 && addr1 + addr2 == Pack(slots)
  {
    hide PackedTo;
    hide Emitted;
    hide Pack;
    var packed := new byte[12](_ => 0);
    PackedZero(packed[..], slots);
    ghost var p := packed[..];
    var bit := EmitBits(packed, 0, 1, 1);
    PackedGroup(p, packed[..], slots);
    for i := 0 to SLOTS
      invariant bit == 1 + 19 * i && PackedTo(packed[..], slots, bit)
    {
      var size := slots[i].size % 2048;
      p := packed[..];
      bit := EmitBits(packed, bit, slots[i].bus, 8);
      PackedMore(p, packed[..], slots, i);
      p := packed[..];
      bit := EmitBits(packed, bit, size, 11);
      PackedMore(p, packed[..], slots, i);
    }
    PackedAll(packed[..], slots);
    addr1, addr2 := packed[..6], packed[6..];
    assert packed[..] == packed[..6] + packed[6..];
  }

  /** frameUnpackSlots. */
  method UnpackSlots(addr1: seq<byte>, addr2: seq<byte>) returns (slots: seq<Slot>)
    requires |addr1| == 6 && |addr2| == 6
    ensures slots == Unpack(addr1 + addr2)
  {
    ghost var p := addr1 + addr2;
    var packed := new byte[12](i requires 0 <= i < 12 => if i < 6 then addr1[i] else addr2[i - 6]);
    assert packed[..] == p;
    slots := ReadSlots(packed);
  }

  method TakeSlot(packed: array<byte>, i: nat) returns (slot: Slot, bit': nat)
    requires packed.Length == 12 && i < SLOTS
    ensures slot == SlotAt(packed[..], i) && bit' == 20 + 19 * i
  {
    SlotFields(packed[..], i);
    hide Field;
    var bus, size;
    bus, bit' := TakeBits(packed, 1 + 19 * i, 8);
    size, bit' := TakeBits(packed, bit', 11);
    slot := Slot(bus, size);
  }

  lemma SlotFields(p: seq<byte>, i: nat)
    requires |p| == 12 && i < SLOTS
    ensures Field(p, 1 + 19 * i, 8) < 256 && Field(p, 9 + 19 * i, 11) < 2048
    ensures SlotAt(p, i) == Slot(Field(p, 1 + 19 * i, 8), Field(p, 9 + 19 * i, 11))
  {
    Widths();
    hide Pow2;
    hide PBit;
    hide Bit;
  }

  lemma UnpackSnoc(p: seq<byte>, i: nat)
    requires |p| == 12 && i < SLOTS
    ensures Unpack(p)[..i + 1] == Unpack(p)[..i] + [SlotAt(p, i)]
  {
    hide SlotAt;
  }

  method ReadSlots(packed: array<byte>) returns (slots: seq<Slot>)
    requires packed.Length == 12
    ensures slots == Unpack(packed[..])
  {
    hide SlotAt;
    hide Unpack;
    var ig, bit := TakeBits(packed, 0, 1);
    slots := [];
    for i := 0 to SLOTS
      invariant bit == 1 + 19 * i && slots == Unpack(packed[..])[..i]
    {
      var slot;
      slot, bit := TakeSlot(packed, i);
      UnpackSnoc(packed[..], i);
      slots := slots + [slot];
    }
  }

  // ---- The Python packer -----------------------------------------------

  datatype Entry = Entry(bus: nat, size: nat)

  /** _emit_bits of the host tool: tests bit i of the value instead of shifting it. */
  method HostEmitBits(packed: array<byte>, bit: nat, value: nat, nbits: nat) returns (bit': nat)
    requires bit + nbits <= 8 * packed.Length
    modifies packed
    ensures bit' == bit + nbits && Emitted(old(packed[..]), packed[..], bit, value, nbits)
  {
    hide Emitted;
    hide Bit;
    hide SetBit;
    ghost var before := packed[..];
    EmitNone(before, bit, value);
    bit' := bit;
    for i := 0 to nbits
      invariant bit' == bit + i && Emitted(before, packed[..], bit, value, i)
    {
      EmitOne(before, packed[..], bit, value, i);
      if Bit(value, i) {
        ghost var p := packed[..];
        var byteAt, bitAt := bit' / 8, bit' % 8;
        packed[byteAt] := SetBit(packed[byteAt], bitAt);
        assert packed[..] == p[byteAt := SetBit(p[byteAt], bitAt)];
      }
      bit' := bit' + 1;
    }
  }

  /** The five slots that a list of any length stands for. */
  function Padded(list: seq<Entry>): (slots: seq<Slot>)
    ensures |slots| == SLOTS
  {
    seq(SLOTS, i requires 0 <= i < SLOTS =>
      if i < |list| then Slot(list[i].bus % 256, list[i].size % 2048) else Slot(0, 0))
  }

  /** pack_slots of the host tool gives the bytes of the firmware's packer. */
  method HostPackSlots(list: seq<Entry>) returns (addr1: seq<byte>, addr2: seq<byte>)
    ensures |addr1| == 6 && |addr2| == 6 && addr1 + addr2 == Pack(Padded(list))
  {
    hide PackedTo;
    hide Emitted;
    hide Pack;
    ghost var slots := Padded(list);
    var packed := new byte[12](_ => 0);
    PackedZero(packed[..], slots);
    ghost var p := packed[..];
    var bit := HostEmitBits(packed, 0, 1, 1);
    PackedGroup(p, packed[..], slots);
    for i := 0 to SLOTS
      invariant bit == 1 + 19 * i && PackedTo(packed[..], slots, bit)
    {
      var e := if i < |list| then list[i] else Entry(0, 0);
      p := packed[..];
      bit := HostEmitBits(packed, bit, e.bus % 256, 8);
      PackedMore(p, packed[..], slots, i);
      p := packed[..];
      bit := HostEmitBits(packed, bit, e.size % 2048, 11);
      PackedMore(p, packed[..], slots, i);
    }
    PackedAll(packed[..], slots);
    addr1, addr2 := packed[..6], packed[6..];
    assert packed[..] == packed[..6] + packed[6..];
  }

  // ---- MPDU ------------------------------------------------------------

  function Sum(slots: seq<Slot>): nat {
    if slots == [] then 0 else Sum(slots[..|slots| - 1]) + slots[|slots| - 1].size
  }

  /** Data frame header: frame control, duration, slots, prefix and domain, sequence control. */
  function Header(slots: seq<Slot>, domain: u16, prefix: seq<byte>, txSeq: u16): (h: seq<byte>)
    requires |slots| == SLOTS && |prefix| == 4
    ensures |h| == HDR_LEN && h[4..16] == Pack(slots)
  {
    var ctl := txSeq % 4096 * 16;
    var h: seq<byte> := [8, 0, 0, 0] + Pack(slots) + (prefix + Be16(domain) + [ctl % 256, ctl / 256]);
    assert h[4..16] == Pack(slots);
    h
  }

  type Bodies = seq<Option<seq<byte>>>

  /** What the caller owes: every body is at least as long as its slot says. */
  predicate BodiesHold(slots: seq<Slot>, bodies: Bodies) {
    |bodies| == |slots| && forall i :: 0 <= i < |slots| && bodies[i].Some? ==> |bodies[i].value| >= slots[i].size
  }

  predicate BodiesPresent(slots: seq<Slot>, bodies: Bodies)
    requires |bodies| == |slots|
  {
    forall i :: 0 <= i < |slots| && slots[i].size > 0 ==> bodies[i].Some?
  }

  /** The bodies of the used slots back to back. */
  function Joined(slots: seq<Slot>, bodies: Bodies): (r: seq<byte>)
    requires BodiesHold(slots, bodies) && BodiesPresent(slots, bodies)
    ensures |r| == Sum(slots)
  {
    if slots == [] then []
    else
      var n := |slots| - 1;
      Joined(slots[..n], bodies[..n]) + (if slots[n].size == 0 then [] else bodies[n].value[..slots[n].size])
  }

  function Build(max: nat, slots: seq<Slot>, bodies: Bodies, domain: u16, prefix: seq<byte>, txSeq: u16)
    : Option<seq<byte>>
    requires |slots| == SLOTS && |prefix| == 4 && BodiesHold(slots, bodies)
  {
    if domain == 0 || Sum(slots) == 0 || Sum(slots) > PAYLOAD_MAX || HDR_LEN + Sum(slots) > max
       || !BodiesPresent(slots, bodies) then None
    else Some(Header(slots, domain, prefix, txSeq) + Joined(slots, bodies))
  }

  datatype Unpacked = Unpacked(slots: seq<Slot>, body: seq<byte>)

  predicate Oversized(slots: seq<Slot>) { exists i :: 0 <= i < |slots| && slots[i].size > PAYLOAD_MAX }

  function UnpackMpdu(mpdu: seq<byte>): Option<Unpacked> {
    if |mpdu| < HDR_LEN then None
    else
      var slots := Unpack(mpdu[4..16]);
      if Sum(slots) != |mpdu| - HDR_LEN then None
      else if Oversized(slots) then None
      else Some(Unpacked(slots, mpdu[HDR_LEN..]))
  }

  lemma {:induction false} SizeInSum(slots: seq<Slot>, i: nat)
    requires i < |slots|
    ensures slots[i].size <= Sum(slots)
  {
    if i < |slots| - 1 { SizeInSum(slots[..|slots| - 1], i); }
  }

  lemma SizesFit(slots: seq<Slot>)
    requires Sum(slots) <= PAYLOAD_MAX
    ensures forall i :: 0 <= i < |slots| ==> slots[i].size <= PAYLOAD_MAX
    ensures Narrow(slots)
  {
    forall i: nat | i < |slots| ensures slots[i].size <= PAYLOAD_MAX { SizeInSum(slots, i); }
  }

  lemma UnpackFramed(h: seq<byte>, body: seq<byte>, slots: seq<Slot>)
    requires |slots| == SLOTS && |h| == HDR_LEN && h[4..16] == Pack(slots)
    requires |body| == Sum(slots) && Sum(slots) <= PAYLOAD_MAX
    ensures UnpackMpdu(h + body) == Some(Unpacked(slots, body))
  {
    SizesFit(slots);
    UnpackPack(slots);
    hide Pack;
    hide Unpack;
    hide Layout;
    hide Sum;
    assert (h + body)[4..16] == h[4..16] && (h + body)[HDR_LEN..] == body;
  }

  /** Whatever is built is read back: the same slots and the same bytes. */
  lemma MpduRoundTrip(max: nat, slots: seq<Slot>, bodies: Bodies, domain: u16, prefix: seq<byte>, txSeq: u16)
    requires |slots| == SLOTS && |prefix| == 4 && BodiesHold(slots, bodies)
    requires Build(max, slots, bodies, domain, prefix, txSeq).Some?
    ensures UnpackMpdu(Build(max, slots, bodies, domain, prefix, txSeq).value)
            == Some(Unpacked(slots, Joined(slots, bodies)))
  {
    hide Header;
    hide Pack;
    hide Joined;
    hide Sum;
    hide UnpackMpdu;
    UnpackFramed(Header(slots, domain, prefix, txSeq), Joined(slots, bodies), slots);
  }

  method PayloadBytes(slots: seq<Slot>) returns (sum: nat)
    ensures sum == Sum(slots)
  {
    sum := 0;
    for i := 0 to |slots|
      invariant sum == Sum(slots[..i])
    {
      assert slots[..i + 1][..i] == slots[..i];
      sum := sum + slots[i].size;
    }
    assert slots[..|slots|] == slots;
  }

  /** frameStampHeader. */
  method StampHeader(out: array<byte>, slots: seq<Slot>, domain: u16, prefix: seq<byte>, txSeq: u16)
    requires out.Length >= HDR_LEN && |slots| == SLOTS && |prefix| == 4
    modifies out
    ensures out[..HDR_LEN] == Header(slots, domain, prefix, txSeq) && out[HDR_LEN..] == old(out[HDR_LEN..])
  {
    var addr1, addr2 := PackSlots(slots);
    hide Pack;
    var ctl := txSeq % 4096 * 16;
    var h: seq<byte> := [8, 0, 0, 0] + (addr1 + addr2) + (prefix + Be16(domain) + [ctl % 256, ctl / 256]);
    CopyIn(out, 0, h);
    assert out[..HDR_LEN] == out[0..0 + |h|];
  }

  /** Copies the bodies of the used slots behind the header. */
  method CopyBodies(out: array<byte>, slots: seq<Slot>, bodies: Bodies) returns (ok: bool)
    requires BodiesHold(slots, bodies) && HDR_LEN + Sum(slots) <= out.Length
    modifies out
    ensures ok <==> BodiesPresent(slots, bodies)
    ensures ok ==> out[HDR_LEN..HDR_LEN + Sum(slots)] == Joined(slots, bodies)
  {
    hide Joined;
    hide Sum;
    var off := HDR_LEN;
    NothingJoined(slots, bodies);
    for i := 0 to |slots|
      invariant BodiesPresent(slots[..i], bodies[..i])
      invariant off == HDR_LEN + Sum(slots[..i]) && off <= out.Length
      invariant out[HDR_LEN..off] == Joined(slots[..i], bodies[..i])
    {
      SumPrefix(slots, i + 1);
      JoinedStep(slots, bodies, i);
      if slots[i].size == 0 { continue; }
      if bodies[i].None? { return false; }
      ghost var was := out[..];
      CopyIn(out, off, bodies[i].value[..slots[i].size]);
      Spliced(was, out[..], HDR_LEN, off, off + slots[i].size);
      off := off + slots[i].size;
    }
    assert slots[..|slots|] == slots && bodies[..|slots|] == bodies;
    ok := true;
  }

  lemma NothingJoined(slots: seq<Slot>, bodies: Bodies)
    requires BodiesHold(slots, bodies)
    ensures BodiesPresent(slots[..0], bodies[..0]) && BodiesHold(slots[..0], bodies[..0])
    ensures Sum(slots[..0]) == 0 && Joined(slots[..0], bodies[..0]) == []
  {
  }

  /** What was written behind a part that stayed. */
  lemma Spliced(a: seq<byte>, b: seq<byte>, from: nat, mid: nat, to: nat)
    requires from <= mid <= to <= |b| && mid <= |a| && b[..mid] == a[..mid]
    ensures b[from..to] == a[from..mid] + b[mid..to]
  {
    assert b[from..mid] == b[..mid][from..] && a[from..mid] == a[..mid][from..];
  }

  lemma JoinedStep(slots: seq<Slot>, bodies: Bodies, i: nat)
    requires BodiesHold(slots, bodies) && i < |slots| && BodiesPresent(slots[..i], bodies[..i])
    ensures BodiesHold(slots[..i], bodies[..i]) && BodiesHold(slots[..i + 1], bodies[..i + 1])
    ensures Sum(slots[..i + 1]) == Sum(slots[..i]) + slots[i].size
    ensures slots[i].size == 0 || bodies[i].Some? ==>
              && BodiesPresent(slots[..i + 1], bodies[..i + 1])
              && Joined(slots[..i + 1], bodies[..i + 1]) == Joined(slots[..i], bodies[..i])
                 + (if slots[i].size == 0 then [] else bodies[i].value[..slots[i].size])
  {
    assert slots[..i + 1][..i] == slots[..i] && bodies[..i + 1][..i] == bodies[..i];
  }

  lemma {:induction false} SumPrefix(slots: seq<Slot>, i: nat)
    requires i <= |slots|
    ensures Sum(slots[..i]) <= Sum(slots)
    decreases |slots|
  {
    if i < |slots| {
      assert slots[..|slots| - 1][..i] == slots[..i];
      SumPrefix(slots[..|slots| - 1], i);
    } else {
      assert slots[..i] == slots;
    }
  }

  /** mpdu_build. */
  method MpduBuild(out: array<byte>, max: nat, slots: seq<Slot>, bodies: Bodies, domain: u16, prefix: seq<byte>,
                   txSeq: u16) returns (ok: bool, len: nat)
    requires |slots| == SLOTS && |prefix| == 4 && BodiesHold(slots, bodies) && max <= out.Length
    modifies out
    ensures ok <==> Build(max, slots, bodies, domain, prefix, txSeq).Some?
    ensures ok ==> len <= out.Length && Build(max, slots, bodies, domain, prefix, txSeq) == Some(out[..len])
  {
    hide Pack;
    hide Joined;
    hide Header;
    hide Sum;
    hide BodiesPresent;
    ok, len := false, 0;
    if domain == 0 { return; }
    var payload := PayloadBytes(slots);
    if payload == 0 || payload > PAYLOAD_MAX { return; }
    var total := HDR_LEN + payload;
    if total > max || total > INJECT_MAX { return; }
    var copied := CopyBodies(out, slots, bodies);
    if !copied { return; }
    ghost var body := out[HDR_LEN..][..payload];
    assert body == Joined(slots, bodies);
    StampHeader(out, slots, domain, prefix, txSeq);
    assert out[..total] == out[..HDR_LEN] + out[HDR_LEN..][..payload];
    ok, len := true, total;
  }

  method AnyOversized(slots: seq<Slot>) returns (b: bool)
    ensures b <==> Oversized(slots)
  {
    for i := 0 to |slots|
      invariant !Oversized(slots[..i])
    {
      if slots[i].size > PAYLOAD_MAX { return true; }
    }
    assert slots[..|slots|] == slots;
    b := false;
  }

  /** mpdu_unpack. */
  method MpduUnpack(mpdu: seq<byte>) returns (r: Option<Unpacked>)
    ensures r == UnpackMpdu(mpdu)
  {
    hide Unpack;
    hide Sum;
    hide Oversized;
    if |mpdu| < HDR_LEN { return None; }
    assert mpdu[4..10] + mpdu[10..16] == mpdu[4..16];
    var slots := UnpackSlots(mpdu[4..10], mpdu[10..16]);
    var blen := |mpdu| - HDR_LEN;
    var sum := PayloadBytes(slots);
    if sum != blen { return None; }
    var oversized := AnyOversized(slots);
    if oversized { return None; }
    r := Some(Unpacked(slots, mpdu[HDR_LEN..]));
  }

  // ---- PDUs of a frame -------------------------------------------------

  datatype Pdu = Pdu(bus: byte, data: seq<byte>)

  /** The used slots of a frame with their bytes, in slot order. */
  function PdusOf(slots: seq<Slot>, body: seq<byte>): seq<Pdu>
    requires |body| == Sum(slots)
  {
    if slots == [] then []
    else
      var n := |slots| - 1;
      var cut := |body| - slots[n].size;
      PdusOf(slots[..n], body[..cut]) + (if slots[n].size == 0 then [] else [Pdu(slots[n].bus, body[cut..])])
  }

  /** What the sender put in. */
  function Sent(slots: seq<Slot>, bodies: Bodies): seq<Pdu>
    requires BodiesHold(slots, bodies) && BodiesPresent(slots, bodies)
  {
    if slots == [] then []
    else
      var n := |slots| - 1;
      Sent(slots[..n], bodies[..n])
      + (if slots[n].size == 0 then [] else [Pdu(slots[n].bus, bodies[n].value[..slots[n].size])])
  }

  lemma {:induction false} PdusOfJoined(slots: seq<Slot>, bodies: Bodies)
    requires BodiesHold(slots, bodies) && BodiesPresent(slots, bodies)
    ensures PdusOf(slots, Joined(slots, bodies)) == Sent(slots, bodies)
  {
    if slots != [] {
      var n := |slots| - 1;
      PdusOfJoined(slots[..n], bodies[..n]);
      var before := Joined(slots[..n], bodies[..n]);
      var all := Joined(slots, bodies);
      assert all[..|before|] == before;
      if slots[n].size > 0 { assert all[|before|..] == bodies[n].value[..slots[n].size]; }
    }
  }

  /** The frame a peer receives holds exactly the sender's PDUs, byte for byte and in slot order. */
  lemma FrameCarries(max: nat, slots: seq<Slot>, bodies: Bodies, domain: u16, prefix: seq<byte>, txSeq: u16)
    requires |slots| == SLOTS && |prefix| == 4 && BodiesHold(slots, bodies)
    requires Build(max, slots, bodies, domain, prefix, txSeq).Some?
    ensures var u := UnpackMpdu(Build(max, slots, bodies, domain, prefix, txSeq).value);
            u.Some? && |u.value.body| == Sum(u.value.slots)
            && PdusOf(u.value.slots, u.value.body) == Sent(slots, bodies)
  {
    MpduRoundTrip(max, slots, bodies, domain, prefix, txSeq);
    PdusOfJoined(slots, bodies);
  }

  lemma PdusStep(slots: seq<Slot>, body: seq<byte>, i: nat)
    requires i < |slots| && |body| == Sum(slots)
    ensures Sum(slots[..i]) + slots[i].size == Sum(slots[..i + 1]) <= |body|
    ensures PdusOf(slots[..i + 1], body[..Sum(slots[..i + 1])])
            == PdusOf(slots[..i], body[..Sum(slots[..i])])
               + (if slots[i].size == 0 then []
                  else [Pdu(slots[i].bus, body[Sum(slots[..i])..Sum(slots[..i]) + slots[i].size])])
  {
    SumPrefix(slots, i + 1);
    var now := slots[..i + 1];
    assert now[..i] == slots[..i] && now[|now| - 1] == slots[i];
    var b := body[..Sum(now)];
    assert b[..Sum(slots[..i])] == body[..Sum(slots[..i])];
    assert b[Sum(slots[..i])..] == body[Sum(slots[..i])..Sum(now)];
  }

  /** unpack_mpdu of the host tool reads the PDUs that the firmware would. */
  method HostUnpackMpdu(mpdu: seq<byte>) returns (out: seq<Pdu>)
    ensures var u := UnpackMpdu(mpdu);
            out == if u.None? then [] else PdusOf(u.value.slots, u.value.body)
  {
    hide Unpack;
    hide Sum;
    hide PdusOf;
    if |mpdu| < HDR_LEN { return []; }
    assert mpdu[4..10] + mpdu[10..16] == mpdu[4..16];
    var slots := UnpackSlots(mpdu[4..10], mpdu[10..16]);
    var body := mpdu[HDR_LEN..];
    var sum := PayloadBytes(slots);
    if sum != |body| { return []; }
    NoPdus(slots, body);
    out := [];
    var off := 0;
    for i := 0 to SLOTS
      invariant |slots| == SLOTS && off == Sum(slots[..i]) <= |body| && out == PdusOf(slots[..i], body[..off])
      invariant forall j :: 0 <= j < i ==> slots[j].size <= PAYLOAD_MAX
    {
      PdusStep(slots, body, i);
      if slots[i].size == 0 { continue; }
      if slots[i].size > PAYLOAD_MAX || off + slots[i].size > |body| { return []; }
      out := out + [Pdu(slots[i].bus, body[off..off + slots[i].size])];
      off := off + slots[i].size;
    }
    assert slots[..SLOTS] == slots && body[..off] == body;
  }

  lemma NoPdus(slots: seq<Slot>, body: seq<byte>)
    requires |body| == Sum(slots)
    ensures Sum(slots[..0]) == 0 && PdusOf(slots[..0], body[..0]) == []
  {
  }

  /** build_mpdu of the host tool: one slot; the same frame the firmware would build. */
  method HostBuildMpdu(body: seq<byte>, bus: int, domain: int, prefix: seq<byte>, txSeq: u16)
    returns (r: Option<seq<byte>>)
    requires |prefix| == 4
    ensures r.Some? <==> 1 <= bus <= 255 && 1 <= domain <= 65535 && 1 <= |body| <= PAYLOAD_MAX
    ensures r.Some? ==> r == Build(INJECT_MAX, Padded([Entry(bus, |body|)]), OneBody(body), domain, prefix, txSeq)
  {
    hide Pack;
    hide Sum;
    hide Joined;
    if bus < 1 || bus > 255 || domain < 1 || domain > 65535 { return None; }
    if |body| == 0 || |body| > PAYLOAD_MAX { return None; }
    var addr1, addr2 := HostPackSlots([Entry(bus, |body|)]);
    var ctl := txSeq % 4096 * 16 % 65536;
    ghost var slots := Padded([Entry(bus, |body|)]);
    OneJoined(bus, body);
    var h: seq<byte> := [8, 0, 0, 0] + (addr1 + addr2)
                        + (prefix + [domain / 256 % 256, domain % 256] + [ctl % 256, ctl / 256 % 256]);
    assert h == Header(slots, domain, prefix, txSeq);
    hide Header;
    r := Some(h + body);
  }

  function OneBody(body: seq<byte>): Bodies { [Some(body), None, None, None, None] }

  lemma OneJoined(bus: nat, body: seq<byte>)
    requires 1 <= |body| <= PAYLOAD_MAX
    ensures var slots := Padded([Entry(bus, |body|)]);
            && BodiesHold(slots, OneBody(body)) && BodiesPresent(slots, OneBody(body))
            && Sum(slots) == |body| && Joined(slots, OneBody(body)) == body
  {
    var slots, bodies := Padded([Entry(bus, |body|)]), OneBody(body);
    assert slots == [Slot(bus % 256, |body|), Slot(0, 0), Slot(0, 0), Slot(0, 0), Slot(0, 0)];
    assert body[..|body|] == body;
    assert slots[..1] == [slots[0]] && slots[..0] == [] && bodies[..1] == [bodies[0]];
    forall i: nat | 1 <= i < 5 ensures slots[..i + 1][..i] == slots[..i] && bodies[..i + 1][..i] == bodies[..i] {}
    OneMore(slots, bodies, 1);
    OneMore(slots, bodies, 2);
    OneMore(slots, bodies, 3);
    OneMore(slots, bodies, 4);
    assert slots[..5] == slots && bodies[..5] == bodies;
  }

  lemma OneMore(slots: seq<Slot>, bodies: Bodies, i: nat)
    requires |slots| == |bodies| == 5 && 1 <= i < 5 && slots[i].size == 0
    requires BodiesHold(slots, bodies) && BodiesPresent(slots, bodies)
    ensures Sum(slots[..i + 1]) == Sum(slots[..i])
    ensures Joined(slots[..i + 1], bodies[..i + 1]) == Joined(slots[..i], bodies[..i])
  {
    JoinedStep(slots, bodies, i);
  }
}
