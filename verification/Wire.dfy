/** The 48-byte pstop frame: little-endian fields, then a CRC over the first 46 bytes. */
module Wire {
  import opened Types

  const FRAME_SIZE := 48

  /** The three message types this remote ever transmits. */
  datatype Kind = Bond | Ok | Stop

  /** What a sampler decides: run or stop. */
  type Verdict = k: Kind | k != Bond witness Stop

  function Code(k: Kind): u8 {
    match k
    case Bond => 0xAD
    case Ok => 0x55
    case Stop => 0x92
  }

  /** The fields of a transmitted message; `role` is the first padding word. */
  datatype Msg = Msg(kind: Kind, stamp: u64, receivedStamp: u64, id: u32, receiverId: u32,
                     counter: u32, receivedCounter: u32, role: u32)

  /** The n low-order bytes of v, least significant first. */
  function Le(n: nat, v: nat): (s: seq<u8>)
    ensures |s| == n
  {
    if n == 0 then [] else [v % 0x100] + Le(n - 1, v / 0x100)
  }

  predicate TopBit(c: bv16) { c & 0x8000 != 0 }
  function Shifted(c: bv16): bv16 { c << 1 }
  function Mixed(c: bv16): bv16 { c ^ 0x8D95 }

  function CrcBit(c: bv16): bv16 { if TopBit(c) then Mixed(Shifted(c)) else Shifted(c) }

  function CrcByte(c: bv16): bv16 { CrcBit(CrcBit(CrcBit(CrcBit(CrcBit(CrcBit(CrcBit(CrcBit(c)))))))) }

  /** A byte at the top of the register, and the register with it added in. */
  function AtTop(byte: u8): bv16 { (byte as bv16) << 8 }
  function Added(c: bv16, byte: u8): bv16 { c ^ AtTop(byte) }

  /** CRC-16, polynomial 0x8D95, most significant bit first. */
  function Crc16(body: seq<u8>, c: bv16): bv16 {
    if body == [] then c else Crc16(body[1..], CrcByte(Added(c, body[0])))
  }

  function Body(m: Msg): (b: seq<u8>)
    ensures |b| == 46 && b[1] == Code(m.kind)
  {
    [2, Code(m.kind)] + Le(8, m.stamp) + Le(8, m.receivedStamp) + Le(4, m.id) + Le(4, m.receiverId)
    + Le(4, 0) + Le(4, m.counter) + Le(4, m.receivedCounter) + Le(4, m.role) + Le(4, 0)
  }

  function Encode(m: Msg): (f: seq<u8>)
    ensures |f| == FRAME_SIZE && f[1] == Code(m.kind)
  {
    Body(m) + Le(2, Crc16(Body(m), 0xFFFF) as nat)
  }

  /** The value of little-endian bytes. */
  function Value(s: seq<u8>): nat {
    if s == [] then 0 else s[0] + 0x100 * Value(s[1..])
  }

  function Pow256(n: nat): nat { if n == 0 then 1 else 0x100 * Pow256(n - 1) }

  lemma {:induction false} LeValue(n: nat, v: nat)
    requires v < Pow256(n)
    ensures Value(Le(n, v)) == v
  {
    if n > 0 {
      LeValue(n - 1, v / 0x100);
    }
  }

  lemma Word(v: u32)
    ensures Value(Le(4, v)) == v
  {
    assert Pow256(4) == 0x100 * Pow256(3) == 0x1_0000 * Pow256(2) == 0x1_0000_0000;
    LeValue(4, v);
  }

  lemma LongWord(v: u64)
    ensures Value(Le(8, v)) == v
  {
    assert Pow256(8) == 0x1_0000 * Pow256(6) == 0x1_0000_0000 * Pow256(4);
    assert Pow256(4) == 0x1_0000 * Pow256(2) == 0x1_0000_0000;
    LeValue(8, v);
  }

  /** Reading each field back at its documented offset recovers the message. */
  function KindAt(f: seq<u8>): Option<Kind>
    requires |f| == FRAME_SIZE
  {
    if f[1] == 0xAD then Some(Bond) else if f[1] == 0x55 then Some(Ok)
    else if f[1] == 0x92 then Some(Stop) else None
  }

  function StampAt(f: seq<u8>): nat requires |f| == FRAME_SIZE { Value(f[2..10]) }
  function ReceivedStampAt(f: seq<u8>): nat requires |f| == FRAME_SIZE { Value(f[10..18]) }
  function IdAt(f: seq<u8>): nat requires |f| == FRAME_SIZE { Value(f[18..22]) }
  function ReceiverAt(f: seq<u8>): nat requires |f| == FRAME_SIZE { Value(f[22..26]) }
  function CounterAt(f: seq<u8>): nat requires |f| == FRAME_SIZE { Value(f[30..34]) }
  function ReceivedCounterAt(f: seq<u8>): nat requires |f| == FRAME_SIZE { Value(f[34..38]) }
  function RoleAt(f: seq<u8>): nat requires |f| == FRAME_SIZE { Value(f[38..42]) }

  lemma FieldSlices(m: Msg)
    ensures var f := Encode(m);
      && f[2..10] == Le(8, m.stamp) && f[10..18] == Le(8, m.receivedStamp)
      && f[18..22] == Le(4, m.id) && f[22..26] == Le(4, m.receiverId)
      && f[30..34] == Le(4, m.counter) && f[34..38] == Le(4, m.receivedCounter)
      && f[38..42] == Le(4, m.role)
  {
    hide Le, Crc16;
  }

  /** Every field of a message sits at its offset in the frame: decoding inverts encoding. */
  lemma RoundTrip(m: Msg)
    ensures var f := Encode(m);
      && KindAt(f) == Some(m.kind) && StampAt(f) == m.stamp && ReceivedStampAt(f) == m.receivedStamp
      && IdAt(f) == m.id && ReceiverAt(f) == m.receiverId && CounterAt(f) == m.counter
      && ReceivedCounterAt(f) == m.receivedCounter && RoleAt(f) == m.role
  {
    FieldSlices(m);
    LongWord(m.stamp);
    LongWord(m.receivedStamp);
    Word(m.id);
    Word(m.receiverId);
    Word(m.counter);
    Word(m.receivedCounter);
    Word(m.role);
  }

  /** Byte-identical frames carry the same message. */
  lemma EncodeInjective(a: Msg, b: Msg)
    requires Encode(a) == Encode(b)
    ensures a == b
  {
    RoundTrip(a);
    RoundTrip(b);
  }

  // The checksum ---------------------------------------------------------------------------------

  /** A frame whose last two bytes are the checksum of the others. */
  predicate Verifies(f: seq<u8>) {
    |f| == FRAME_SIZE && f[46..] == Le(2, Crc16(f[..46], 0xFFFF) as nat)
  }

  lemma EncodedVerifies(m: Msg)
    ensures Verifies(Encode(m))
  {
    assert Encode(m)[..46] == Body(m);
  }

  predicate LowBit(c: bv16) { c & 1 != 0 }

  lemma MixedTwice(c: bv16)
    ensures Mixed(Mixed(c)) == c
  {
  }

  /** The polynomial is odd, so the lowest bit tells whether it was mixed in. */
  lemma LowBitTells(c: bv16)
    ensures LowBit(Mixed(Shifted(c))) && !LowBit(Shifted(c))
  {
  }

  lemma ShiftedBack(c: bv16, d: bv16)
    requires Shifted(c) == Shifted(d) && TopBit(c) == TopBit(d)
    ensures c == d
  {
  }

  lemma BitInjective(c: bv16, d: bv16)
    requires CrcBit(c) == CrcBit(d)
    ensures c == d
  {
    hide TopBit, Shifted, Mixed, LowBit;
    MixedTwice(Shifted(c));
    MixedTwice(Shifted(d));
    LowBitTells(c);
    LowBitTells(d);
    ShiftedBack(c, d);
  }

  lemma TwoBits(c: bv16, d: bv16)
    requires CrcBit(CrcBit(c)) == CrcBit(CrcBit(d))
    ensures c == d
  {
    hide CrcBit;
    BitInjective(CrcBit(c), CrcBit(d));
    BitInjective(c, d);
  }

  lemma ByteInjective(c: bv16, d: bv16)
    requires CrcByte(c) == CrcByte(d)
    ensures c == d
  {
    hide CrcBit;
    var x, y := CrcBit(CrcBit(CrcBit(CrcBit(c)))), CrcBit(CrcBit(CrcBit(CrcBit(d))));
    TwoBits(CrcBit(CrcBit(x)), CrcBit(CrcBit(y)));
    TwoBits(x, y);
    TwoBits(CrcBit(CrcBit(c)), CrcBit(CrcBit(d)));
    TwoBits(c, d);
  }

  lemma AddedInjective(c: bv16, d: bv16, a: u8)
    requires Added(c, a) == Added(d, a)
    ensures c == d
  {
    hide AtTop;
    Unmixed(c, d, AtTop(a));
  }

  lemma Unmixed(c: bv16, d: bv16, x: bv16)
    requires c ^ x == d ^ x
    ensures c == d
  {
  }

  function WordOf(a: u8): bv16 { a as bv16 }
  function NumberOf(c: bv16): nat { c as nat }

  lemma WordAndBack(a: u8)
    ensures NumberOf(WordOf(a)) == a && WordOf(a) < 0x100
  {
  }

  lemma HighBytes(x: bv16, y: bv16, c: bv16)
    requires x < 0x100 && y < 0x100 && c ^ (x << 8) == c ^ (y << 8)
    ensures x == y
  {
  }

  lemma AddedDiffer(c: bv16, a: u8, b: u8)
    requires a != b
    ensures Added(c, a) != Added(c, b)
  {
    if Added(c, a) == Added(c, b) {
      WordsDiffer(a, b);
      HighBytes(WordOf(a), WordOf(b), c);
      assert false;
    }
  }

  lemma WordsDiffer(a: u8, b: u8)
    requires a != b
    ensures WordOf(a) != WordOf(b) && WordOf(a) < 0x100 && WordOf(b) < 0x100
  {
    hide WordOf, NumberOf;
    WordAndBack(a);
    WordAndBack(b);
  }

  lemma {:induction false} CrcInjective(body: seq<u8>, c: bv16, d: bv16)
    requires Crc16(body, c) == Crc16(body, d)
    ensures c == d
  {
    hide CrcByte, Added;
    if body != [] {
      CrcInjective(body[1..], CrcByte(Added(c, body[0])), CrcByte(Added(d, body[0])));
      ByteInjective(Added(c, body[0]), Added(d, body[0]));
      AddedInjective(c, d, body[0]);
    }
  }

  /** Bodies that differ in one byte have different checksums. */
  lemma {:induction false} OneByteChangesCrc(a: seq<u8>, b: seq<u8>, i: nat, c: bv16)
    requires |a| == |b| && i < |a| && a[i] != b[i] && forall k :: 0 <= k < |a| && k != i ==> a[k] == b[k]
    ensures Crc16(a, c) != Crc16(b, c)
    decreases |a|
  {
    hide CrcByte, Added;
    if i > 0 {
      OneByteChangesCrc(a[1..], b[1..], i - 1, CrcByte(Added(c, a[0])));
    } else {
      assert a[1..] == b[1..];
      AddedDiffer(c, a[0], b[0]);
      if Crc16(a, c) == Crc16(b, c) {
        CrcInjective(a[1..], CrcByte(Added(c, a[0])), CrcByte(Added(c, b[0])));
        ByteInjective(Added(c, a[0]), Added(c, b[0]));
        assert false;
      }
    }
  }

  /** A frame that verifies does not verify any more once any one of its bytes has changed. */
  lemma CorruptByteIsDetected(f: seq<u8>, g: seq<u8>, i: nat)
    requires Verifies(f) && |g| == FRAME_SIZE && i < FRAME_SIZE
    requires g[i] != f[i] && forall k :: 0 <= k < FRAME_SIZE && k != i ==> g[k] == f[k]
    ensures !Verifies(g)
  {
    hide Crc16, Le;
    if i < 46 {
      assert f[46..] == g[46..];
      OneByteChangesCrc(f[..46], g[..46], i, 0xFFFF);
      LeTwo(Crc16(f[..46], 0xFFFF), Crc16(g[..46], 0xFFFF));
    } else {
      assert f[..46] == g[..46];
      assert f[46..][i - 46] == f[i] && g[46..][i - 46] == g[i];
    }
  }

  lemma LeTwo(c: bv16, d: bv16)
    requires c != d
    ensures Le(2, c as nat) != Le(2, d as nat)
  {
    NumbersDiffer(c, d);
    LeTwoDiffer(c as nat, d as nat);
  }

  lemma LeTwoDiffer(m: nat, n: nat)
    requires m != n && m < 0x1_0000 && n < 0x1_0000
    ensures Le(2, m) != Le(2, n)
  {
    hide Le;
    assert Pow256(2) == 0x1_0000;
    LeValue(2, m);
    LeValue(2, n);
  }

  lemma NumbersDiffer(c: bv16, d: bv16)
    requires c != d
    ensures NumberOf(c) != NumberOf(d)
  {
    hide NumberOf;
    NumberAndBack(c);
    NumberAndBack(d);
  }

  function RegisterOf(n: nat): bv16
    requires n < 0x1_0000
  {
    n as bv16
  }

  lemma NumberAndBack(c: bv16)
    ensures NumberOf(c) < 0x1_0000 && RegisterOf(NumberOf(c)) == c
  {
  }

  lemma {:induction false} CrcConcat(a: seq<u8>, b: seq<u8>, c: bv16)
    ensures Crc16(a + b, c) == Crc16(b, Crc16(a, c))
    decreases |a|
  {
    hide CrcByte, Added;
    if a == [] {
      assert a + b == b;
    } else {
      assert (a + b)[1..] == a[1..] + b;
      CrcConcat(a[1..], b, CrcByte(Added(c, a[0])));
    }
  }

  lemma OneByte(c: bv16, x: u8)
    ensures Crc16([x], c) == CrcByte(Added(c, x)) && Crc16([], c) == c
  {
    assert [x][1..] == [];
  }

  /** Two more bytes of a checksum. */
  lemma NextTwo(before: seq<u8>, x: u8, y: u8, c: bv16, d: bv16)
    requires Crc16(before, 0xFFFF) == c && CrcByte(Added(CrcByte(Added(c, x)), y)) == d
    ensures Crc16(before + [x, y], 0xFFFF) == d
  {
    hide CrcByte, Added, Crc16;
    assert before + [x, y] == (before + [x]) + [y];
    CrcConcat(before + [x], [y], 0xFFFF);
    CrcConcat(before, [x], 0xFFFF);
    OneByte(c, x);
    OneByte(CrcByte(Added(c, x)), y);
  }

  /** The reference OK frame, byte for byte. */
  const GOLDEN_OK: seq<u8> := GOLDEN_HEAD + GOLDEN_IDS + GOLDEN_TAIL + [0x86, 0x48]

  const GOLDEN_HEAD: seq<u8> := [0x02, 0x55, 0, 0x20, 0, 0, 0, 0, 0, 0, 0, 0x1F, 0, 0, 0, 0, 0, 0]
  const GOLDEN_IDS: seq<u8> := [0x05, 0x01, 0xA8, 0xC0, 0x04, 0x03, 0x02, 0x01, 0, 0, 0, 0]
  const GOLDEN_TAIL: seq<u8> := [0x07, 0, 0, 0, 0x05, 0, 0, 0, 0, 0, 0, 0, 0, 0, 0, 0]

  lemma GoldenHeadChecksum(before: seq<u8>)
    requires Crc16(before, 0xFFFF) == 0xFFFF
    ensures Crc16(before + GOLDEN_HEAD, 0xFFFF) == 0xB1F9
  {
    hide Crc16;
    var s := before;
    NextTwo(s, 0x02, 0x55, 0xFFFF, 0xB8DB);
    s := s + [0x02, 0x55];
    NextTwo(s, 0x00, 0x20, 0xB8DB, 0x6CBE);
    s := s + [0x00, 0x20];
    NextTwo(s, 0x00, 0x00, 0x6CBE, 0x2C16);
    s := s + [0x00, 0x00];
    NextTwo(s, 0x00, 0x00, 0x2C16, 0xCF5F);
    s := s + [0x00, 0x00];
    NextTwo(s, 0x00, 0x00, 0xCF5F, 0x1F2C);
    s := s + [0x00, 0x00];
    NextTwo(s, 0x00, 0x1F, 0x1F2C, 0x5DCA);
    s := s + [0x00, 0x1F];
    NextTwo(s, 0x00, 0x00, 0x5DCA, 0x4696);
    s := s + [0x00, 0x00];
    NextTwo(s, 0x00, 0x00, 0x4696, 0x7B0A);
    s := s + [0x00, 0x00];
    NextTwo(s, 0x00, 0x00, 0x7B0A, 0xB1F9);
    assert before + GOLDEN_HEAD == s + [0x00, 0x00];
  }

  lemma GoldenIdsChecksum(before: seq<u8>)
    requires Crc16(before, 0xFFFF) == 0xB1F9
    ensures Crc16(before + GOLDEN_IDS, 0xFFFF) == 0x5170
  {
    hide Crc16;
    var s := before;
    NextTwo(s, 0x05, 0x01, 0xB1F9, 0xCD56);
    s := s + [0x05, 0x01];
    NextTwo(s, 0xA8, 0xC0, 0xCD56, 0xC5AA);
    s := s + [0xA8, 0xC0];
    NextTwo(s, 0x04, 0x03, 0xC5AA, 0x6484);
    s := s + [0x04, 0x03];
    NextTwo(s, 0x02, 0x01, 0x6484, 0x23E9);
    s := s + [0x02, 0x01];
    NextTwo(s, 0x00, 0x00, 0x23E9, 0x2984);
    s := s + [0x00, 0x00];
    NextTwo(s, 0x00, 0x00, 0x2984, 0x5170);
    assert before + GOLDEN_IDS == s + [0x00, 0x00];
  }

  lemma GoldenTailChecksum(before: seq<u8>)
    requires Crc16(before, 0xFFFF) == 0x5170
    ensures Crc16(before + GOLDEN_TAIL, 0xFFFF) == 0x4886
  {
    hide Crc16;
    var s := before;
    NextTwo(s, 0x07, 0x00, 0x5170, 0xB0C1);
    s := s + [0x07, 0x00];
    NextTwo(s, 0x00, 0x00, 0xB0C1, 0xDA0B);
    s := s + [0x00, 0x00];
    NextTwo(s, 0x05, 0x00, 0xDA0B, 0xD5F5);
    s := s + [0x05, 0x00];
    NextTwo(s, 0x00, 0x00, 0xD5F5, 0x0BA0);
    s := s + [0x00, 0x00];
    NextTwo(s, 0x00, 0x00, 0x0BA0, 0xB9B8);
    s := s + [0x00, 0x00];
    NextTwo(s, 0x00, 0x00, 0xB9B8, 0xFF7D);
    s := s + [0x00, 0x00];
    NextTwo(s, 0x00, 0x00, 0xFF7D, 0xDE02);
    s := s + [0x00, 0x00];
    NextTwo(s, 0x00, 0x00, 0xDE02, 0x4886);
    assert before + GOLDEN_TAIL == s + [0x00, 0x00];
  }

  /** An OK from 192.168.1.5 to machine 0x01020304 with counters 7 and 5 is that frame. */
  lemma EncodesTheReferenceFrame()
    ensures Encode(Msg(Ok, 0x2000, 0x1F00, 0xC0A80105, 0x01020304, 7, 5, 0)) == GOLDEN_OK
  {
    hide CrcByte, Crc16, Added;
    OneByte(0xFFFF, 0);
    GoldenHeadChecksum([]);
    assert [] + GOLDEN_HEAD == GOLDEN_HEAD;
    GoldenIdsChecksum(GOLDEN_HEAD);
    GoldenTailChecksum(GOLDEN_HEAD + GOLDEN_IDS);
    GoldenBody();
    GoldenEnd();
  }

  lemma GoldenEnd()
    ensures Le(2, (0x4886 as bv16) as nat) == [0x86, 0x48]
  {
  }

  lemma GoldenBody()
    ensures Body(Msg(Ok, 0x2000, 0x1F00, 0xC0A80105, 0x01020304, 7, 5, 0)) == GOLDEN_HEAD + GOLDEN_IDS + GOLDEN_TAIL
  {
    hide Le;
    GoldenWords();
  }

  lemma LeFour(v: nat)
    ensures Le(4, v) == [v % 0x100, v / 0x100 % 0x100, v / 0x100 / 0x100 % 0x100, v / 0x100 / 0x100 / 0x100 % 0x100]
  {
    LeStep(4, v);
    LeStep(3, v / 0x100);
    LeStep(2, v / 0x100 / 0x100);
    LeStep(1, v / 0x100 / 0x100 / 0x100);
    LeStep(0, 0);
    hide Le;
  }

  lemma LeStep(n: nat, v: nat)
    ensures Le(n, v) == if n == 0 then [] else [v % 0x100] + Le(n - 1, v / 0x100)
  {
  }

  lemma LeEight(v: nat)
    ensures Le(8, v) == Le(4, v) + Le(4, v / 0x100 / 0x100 / 0x100 / 0x100)
  {
    hide Le;
    var a, b, c := v / 0x100, v / 0x100 / 0x100, v / 0x100 / 0x100 / 0x100;
    LeStep(8, v);
    LeStep(7, a);
    LeStep(6, b);
    LeStep(5, c);
    LeFour(v);
  }

  lemma GoldenWords()
    ensures Le(8, 0x2000) == [0, 0x20, 0, 0, 0, 0, 0, 0] && Le(8, 0x1F00) == [0, 0x1F, 0, 0, 0, 0, 0, 0]
    ensures Le(4, 0xC0A80105) == [0x05, 0x01, 0xA8, 0xC0] && Le(4, 0x01020304) == [0x04, 0x03, 0x02, 0x01]
    ensures Le(4, 0) == [0, 0, 0, 0] && Le(4, 7) == [7, 0, 0, 0] && Le(4, 5) == [5, 0, 0, 0]
  {
    hide Le;
    LeEight(0x2000);
    LeEight(0x1F00);
    LeFour(0x2000);
    LeFour(0x1F00);
    LeFour(0);
    LeFour(0xC0A80105);
    LeFour(0x01020304);
    LeFour(7);
    LeFour(5);
  }
}
