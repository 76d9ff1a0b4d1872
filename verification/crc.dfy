/** The byte-wise CRC of MODBUS frames (modbus/rt_modbus_utility.cpp): what it equals, which errors it finds. */
module Crc {
  // A frame is also looked at as the bits that a serial line sends, the lowest bit of each byte first, and the CRC as a
  // register that these bits are shifted through; that makes a window of sixteen bits the same thing wherever it lies.

  // ---------------------------------------------------------------- the bit-by-bit definition

  /** One step of the generation in section 6.2.2 of MODBUS over Serial Line V1.02: shift right, and
      exclusive-or the polynomial 0xA001 if a one was shifted out. */
  function Shift(crc: bv16): bv16 {
    if crc & 1 == 1 then (crc >> 1) ^ 0xA001 else crc >> 1
  }

  function Shifts(crc: bv16, n: nat): bv16
    decreases n
  {
    if n == 0 then crc else Shifts(Shift(crc), n - 1)
  }

  /** Exclusive-or as a function of its own, so that proofs can treat it as a symbol. */
  function Xor(x: bv16, y: bv16): bv16 {
    x ^ y
  }

  /** One byte is exclusive-ored into the low end and followed by eight shifts. */
  function ByteStep(crc: bv16, b: bv8): bv16 {
    Shifts(Xor(crc, b as bv16), 8)
  }

  /** The CRC of a message, continued from `start`. */
  function CrcOf(message: seq<bv8>, start: bv16): bv16 {
    if message == [] then start
    else ByteStep(CrcOf(message[..|message| - 1], start), message[|message| - 1])
  }

  // ---------------------------------------------------------------- shifting is linear and loses nothing

  /** The same step without a case distinction: the polynomial has bits 0, 13 and 15. */
  function Spread(c: bv16): bv16 {
    (c >> 1) ^ (c & 1) ^ ((c & 1) << 13) ^ ((c & 1) << 15)
  }

  lemma LowBit(c: bv16)
    ensures c & 1 == 0 || c & 1 == 1
  {}

  lemma SpreadOne(a: bv16)
    ensures a ^ 1 ^ ((1 as bv16) << 13) ^ ((1 as bv16) << 15) == a ^ 0xA001
    ensures a ^ 0 ^ ((0 as bv16) << 13) ^ ((0 as bv16) << 15) == a
  {}

  lemma ShiftIsSpread(c: bv16)
    ensures Shift(c) == Spread(c)
  {
    LowBit(c);
    SpreadOne(c >> 1);
  }

  lemma SpreadLinear(x: bv16, y: bv16)
    ensures Spread(Xor(x, y)) == Xor(Spread(x), Spread(y))
  {}

  lemma ShiftLinear(x: bv16, y: bv16)
    ensures Shift(Xor(x, y)) == Xor(Shift(x), Shift(y))
  {
    hide *;
    ShiftIsSpread(x);
    ShiftIsSpread(y);
    ShiftIsSpread(Xor(x, y));
    SpreadLinear(x, y);
  }

  lemma SpreadKernel(c: bv16)
    ensures Spread(c) == 0 <==> c == 0
  {}

  lemma ShiftKernel(c: bv16)
    ensures Shift(c) == 0 <==> c == 0
  {
    hide *;
    ShiftIsSpread(c);
    SpreadKernel(c);
  }

  lemma {:induction false} ShiftsLinear(x: bv16, y: bv16, n: nat)
    ensures Shifts(Xor(x, y), n) == Xor(Shifts(x, n), Shifts(y, n))
    decreases n
  {
    hide Shift, Xor;
    if n > 0 {
      ShiftLinear(x, y);
      ShiftsLinear(Shift(x), Shift(y), n - 1);
    }
  }

  lemma {:induction false} ShiftsKernel(c: bv16, n: nat)
    ensures Shifts(c, n) == 0 <==> c == 0
    decreases n
  {
    hide Shift;
    if n > 0 {
      ShiftKernel(c);
      ShiftsKernel(Shift(c), n - 1);
    }
  }

  lemma XorZero(x: bv16, y: bv16)
    ensures Xor(x, y) == 0 <==> x == y
  {}

  lemma XorTwice(x: bv16, w: bv16)
    ensures Xor(Xor(x, w), w) == x
  {}

  lemma XorAssociates(x: bv16, y: bv16, z: bv16)
    ensures Xor(Xor(x, y), z) == Xor(x, Xor(y, z))
  {}

  lemma XorCommutes(x: bv16, y: bv16)
    ensures Xor(x, y) == Xor(y, x)
  {}

  lemma XorSwap(x: bv16, v: bv16, y: bv16, w: bv16)
    ensures Xor(Xor(x, v), Xor(y, w)) == Xor(Xor(x, y), Xor(v, w))
  {
    hide *;
    XorAssociates(x, v, Xor(y, w));
    XorAssociates(v, y, w);
    XorCommutes(v, y);
    XorAssociates(y, v, w);
    XorAssociates(x, y, Xor(v, w));
  }

  lemma XorNone(x: bv16)
    ensures Xor(x, x) == 0 && Xor(x, 0) == x && Xor(0, x) == x
  {}

  /** Two words that eight, or any number of, shifts bring together were the same. */
  lemma ShiftsInjective(x: bv16, y: bv16, n: nat)
    ensures Shifts(x, n) == Shifts(y, n) <==> x == y
  {
    hide *;
    ShiftsLinear(x, y, n);
    XorZero(Shifts(x, n), Shifts(y, n));
    ShiftsKernel(Xor(x, y), n);
    XorZero(x, y);
  }

  // ---------------------------------------------------------------- the byte-wise trick

  /** Exclusive-or of all bits. */
  function Parity(w: bv16): bv16
    decreases w
  {
    if w == 0 then 0 else (w & 1) ^ Parity(w >> 1)
  }

  /** The parity of the lower eight bits, folded. */
  function Folded(w: bv16): bv16 {
    (w ^ (w >> 1) ^ (w >> 2) ^ (w >> 3) ^ (w >> 4) ^ (w >> 5) ^ (w >> 6) ^ (w >> 7)) & 1
  }

  lemma ParityStep(w: bv16)
    ensures Parity(w) == (w & 1) ^ Parity(w >> 1)
  {}

  lemma {:induction false} ParityBit(w: bv16)
    ensures Parity(w) == 0 || Parity(w) == 1
    decreases w
  {
    if w != 0 {
      ParityBit(w >> 1);
    }
  }

  lemma ParityFolds(w: bv16)
    requires w & 0xff00 == 0
    ensures Parity(w) == Folded(w)
  {
    ParityStep(w);
    ParityStep(w >> 1);
    ParityStep(w >> 2);
    ParityStep(w >> 3);
    ParityStep(w >> 4);
    ParityStep(w >> 5);
    ParityStep(w >> 6);
    ParityStep(w >> 7);
    ByteIsShort(w, Parity(w >> 8));
  }

  lemma ByteIsShort(w: bv16, rest: bv16)
    requires w & 0xff00 == 0
    ensures (w >> 1) >> 1 == w >> 2 && (w >> 2) >> 1 == w >> 3 && (w >> 3) >> 1 == w >> 4
    ensures (w >> 4) >> 1 == w >> 5 && (w >> 5) >> 1 == w >> 6 && (w >> 6) >> 1 == w >> 7
    ensures (w >> 7) >> 1 == w >> 8 && w >> 8 == 0
    ensures (w & 1) ^ (((w >> 1) & 1) ^ (((w >> 2) & 1) ^ (((w >> 3) & 1) ^ (((w >> 4) & 1) ^ (((w >> 5) & 1) ^
            (((w >> 6) & 1) ^ (((w >> 7) & 1) ^ rest))))))) == Folded(w) ^ rest
  {}

  function Low(w: bv16): bv16 {
    w & 0xff
  }

  function High(w: bv16): bv16 {
    w >> 8
  }

  /** What remains of the upper byte, the lower byte and its parity after eight shifts. */
  function Scatter(high: bv16, bit: bv16, low: bv16): bv16 {
    Xor(Xor(high, bit ^ (bit << 14) ^ (bit << 15)), Xor(low << 6, low << 7))
  }

  lemma EightSpreads(c: bv16)
    ensures Spread(Spread(Spread(Spread(Spread(Spread(Spread(Spread(c)))))))) ==
            Scatter(High(c), Folded(Low(c)), Low(c))
  {}

  lemma EightShifts(c: bv16)
    ensures Shifts(c, 8) == Spread(Spread(Spread(Spread(Spread(Spread(Spread(Spread(c))))))))
  {
    hide Spread, Shift;
    assert Shifts(Spread(Spread(Spread(Spread(Spread(Spread(Spread(Spread(c)))))))), 0) ==
           Spread(Spread(Spread(Spread(Spread(Spread(Spread(Spread(c))))))));
    hide Shifts;
    FourShifts(c, 4);
    FourShifts(Spread(Spread(Spread(Spread(c)))), 0);
  }

  lemma FourShifts(c: bv16, n: nat)
    ensures Shifts(c, n + 4) == Shifts(Spread(Spread(Spread(Spread(c)))), n)
  {
    hide *;
    OneShift(c, n + 3);
    OneShift(Spread(c), n + 2);
    OneShift(Spread(Spread(c)), n + 1);
    OneShift(Spread(Spread(Spread(c))), n);
  }

  lemma OneShift(c: bv16, n: nat)
    ensures Shifts(c, n + 1) == Shifts(Spread(c), n)
  {
    ShiftIsSpread(c);
  }

  /** The low byte shifted out, the polynomial folded in if its parity is odd, and two shifted copies of the low
      byte do what eight single shifts do. */
  lemma TrickIsByteStep(crc: bv16, b: bv8)
    ensures var byte := Low(Xor(b as bv16, crc)); Scatter(High(crc), Parity(byte), byte) == ByteStep(crc, b)
  {
    hide *;
    var c := Xor(crc, b as bv16);
    ByteStepIs(crc, b);
    EightShifts(c);
    EightSpreads(c);
    HighByteKept(crc, b);
    XorCommutes(crc, b as bv16);
    LowIsShort(c);
    ParityFolds(Low(c));
  }

  lemma ByteStepIs(crc: bv16, b: bv8)
    ensures ByteStep(crc, b) == Shifts(Xor(crc, b as bv16), 8)
  {
    hide Shifts, Xor;
  }

  lemma HighByteKept(crc: bv16, b: bv8)
    ensures High(Xor(crc, b as bv16)) == High(crc)
  {}

  lemma LowIsShort(w: bv16)
    ensures Low(w) & 0xff00 == 0
  {}

  lemma Scattered(high: bv16, low: bv16)
    ensures Scatter(high, 1, low) == Xor(Xor(high, 0xC001), Xor(low << 6, low << 7))
    ensures Scatter(high, 0, low) == Xor(high, Xor(low << 6, low << 7))
  {
    hide Xor;
    XorNone(high);
  }

  /** The example of section 6.2.2 of MODBUS over Serial Line V1.02: the CRC of the bytes 2 and 7 is 0x1241, and 0x41 is
      the byte that is sent first. */
  lemma KnownCrc()
    ensures CrcOf([0x02, 0x07], 0xFFFF) == 0x1241
    ensures Accepted([0x02, 0x07, 0x41, 0x12], 0xFFFF)
  {
    var message: seq<bv8> := [0x02, 0x07];
    var frame: seq<bv8> := [0x02, 0x07, 0x41, 0x12];
    assert message[..1] == [0x02] && message[..1][..0] == [] && frame[..2] == message;
    assert CrcOf(message, 0xFFFF) == ByteStep(ByteStep(0xFFFF, 0x02), 0x07) by { hide ByteStep; }
    FirstKnown();
    SecondKnown();
    hide ByteStep, CrcOf;
    assert Word(0x41, 0x12) == 0x1241;
  }

  lemma FirstKnown()
    ensures ByteStep(0xFFFF, 0x02) == 0x813E
  {
    hide Shifts;
    EightShifts(Xor(0xFFFF, 0x02));
  }

  lemma SecondKnown()
    ensures ByteStep(0x813E, 0x07) == 0x1241
  {
    hide Shifts;
    EightShifts(Xor(0x813E, 0x07));
  }

  // ---------------------------------------------------------------- the code

  method Odd(byte: bv16) returns (r: bv16)
    ensures r == Parity(byte)
  {
    var parity, rest := 0 as bv16, byte;
    while rest != 0
      invariant (parity & 1) ^ Parity(rest) == Parity(byte)
      decreases rest
    {
      ParityStep(rest);
      LowBitsAdd(parity, rest, Parity(rest >> 1));
      parity := parity ^ rest;
      rest := rest >> 1;
    }
    return parity & 1;
  }

  lemma LowBitsAdd(x: bv16, y: bv16, z: bv16)
    ensures (x & 1) ^ ((y & 1) ^ z) == ((x ^ y) & 1) ^ z
  {}

  method Crc16(buf: array<bv8>, n: nat, start: bv16) returns (crc: bv16)
    requires n <= buf.Length
    ensures crc == CrcOf(buf[..n], start)
  {
    crc := start;
    assert crc == CrcOf(buf[..0], start);
    hide *;
    for i := 0 to n
      invariant crc == CrcOf(buf[..i], start)
    {
      var b := buf[i];
      assert buf[..i + 1] == buf[..i] + [b];
      Extends(buf[..i], b, start);
      var byte := Low(Xor(b as bv16, crc));
      var odd := Odd(byte);
      Turn(crc, b, byte, odd);
      crc := High(crc);
      if odd != 0 {
        crc := Xor(crc, 0xC001);
      }
      crc := Xor(crc, Xor(byte << 6, byte << 7));
    }
  }

  lemma Turn(crc: bv16, b: bv8, byte: bv16, odd: bv16)
    requires byte == Low(Xor(b as bv16, crc)) && odd == Parity(byte)
    ensures Xor(if odd != 0 then Xor(High(crc), 0xC001) else High(crc), Xor(byte << 6, byte << 7)) == ByteStep(crc, b)
  {
    hide *;
    ParityBit(byte);
    TrickIsByteStep(crc, b);
    Scattered(High(crc), byte);
  }

  lemma Extends(message: seq<bv8>, b: bv8, start: bv16)
    ensures CrcOf(message + [b], start) == ByteStep(CrcOf(message, start), b)
  {
    assert (message + [b])[..|message|] == message;
  }

  /** Two bytes as the machine word they hold, the low byte first. */
  function Word(low: bv8, high: bv8): bv16 {
    Xor(low as bv16, (high as bv16) << 8)
  }

  predicate Accepted(frame: seq<bv8>, start: bv16)
    requires |frame| >= 2
  {
    CrcOf(frame[..|frame| - 2], start) == Word(frame[|frame| - 2], frame[|frame| - 1])
  }

  method CheckCrc(buf: array<bv8>, size: nat, start: bv16) returns (ok: bool)
    requires 2 <= size <= buf.Length
    ensures ok == Accepted(buf[..size], start)
  {
    assert buf[..size][..size - 2] == buf[..size - 2];
    var actual := Word(buf[size - 2], buf[size - 1]);
    var calculated := Crc16(buf, size - 2, start);
    return calculated == actual;
  }

  method AddCrc(buf: array<bv8>, size: nat, start: bv16)
    requires 2 <= size <= buf.Length
    modifies buf
    ensures buf[..size - 2] == old(buf[..size - 2]) && buf[size..] == old(buf[size..])
    ensures Accepted(buf[..size], start)
    ensures CrcOf(buf[..size], start) == 0
  {
    var crc := Crc16(buf, size - 2, start);
    buf[size - 2], buf[size - 1] := (crc & 0xff) as bv8, (crc >> 8) as bv8;
    SplitWord(crc);
    assert buf[..size][..size - 2] == buf[..size - 2];
    AcceptedIffZero(buf[..size], start);
  }

  lemma SplitWord(crc: bv16)
    ensures crc & 0xff <= 0xff && crc >> 8 <= 0xff
    ensures Word((crc & 0xff) as bv8, (crc >> 8) as bv8) == crc
  {}

  /** A frame passes exactly when the CRC of the whole of it, its own CRC bytes included, is zero. */
  lemma AcceptedIffZero(frame: seq<bv8>, start: bv16)
    requires |frame| >= 2
    ensures Accepted(frame, start) <==> CrcOf(frame, start) == 0
  {
    var n := |frame|;
    var c, low, high := CrcOf(frame[..n - 2], start), frame[n - 2], frame[n - 1];
    assert frame[..n - 1][..n - 2] == frame[..n - 2];
    assert CrcOf(frame, start) == ByteStep(ByteStep(c, low), high);
    TwoBytes(c, low, high);
  }

  lemma TwoBytes(c: bv16, low: bv8, high: bv8)
    ensures ByteStep(ByteStep(c, low), high) == 0 <==> c == Word(low, high)
  {
    hide Shifts, Xor, Word;
    var x := Shifts(Xor(c, low as bv16), 8);
    ShiftsKernel(Xor(x, high as bv16), 8);
    XorZero(x, high as bv16);
    HighByte(high);
    ShiftsInjective(Xor(c, low as bv16), (high as bv16) << 8, 8);
    WordSplits(c, low, high);
    assert ByteStep(c, low) == x;
    assert ByteStep(x, high) == Shifts(Xor(x, high as bv16), 8);
  }

  lemma HighByte(b: bv8)
    ensures Shifts((b as bv16) << 8, 8) == b as bv16
  {
    hide Shifts;
    EightShifts((b as bv16) << 8);
    EightSpreads((b as bv16) << 8);
  }

  lemma WordSplits(c: bv16, low: bv8, high: bv8)
    ensures Xor(c, low as bv16) == (high as bv16) << 8 <==> c == Word(low, high)
  {
    MoveAcross(c, low as bv16, (high as bv16) << 8);
  }

  lemma MoveAcross(x: bv16, y: bv16, z: bv16)
    ensures Xor(x, y) == z <==> x == Xor(y, z)
  {
    hide *;
    XorZero(Xor(x, y), z);
    XorAssociates(x, y, z);
    XorZero(x, Xor(y, z));
  }

  // ---------------------------------------------------------------- bit by bit, in the order of transmission

  function BitStep(crc: bv16, bit: bool): bv16 {
    Shift(Xor(crc, Bit(bit)))
  }

  /** The register after a stream of bits. */
  function Serial(crc: bv16, bits: seq<bool>): bv16
    decreases bits
  {
    if bits == [] then crc else Serial(BitStep(crc, bits[0]), bits[1..])
  }

  /** The bits of a byte in the order a serial line sends them. */
  function ByteBits(b: bv8): (bits: seq<bool>)
    ensures |bits| == 8
  {
    [b & 1 == 1, (b >> 1) & 1 == 1, (b >> 2) & 1 == 1, (b >> 3) & 1 == 1,
     (b >> 4) & 1 == 1, (b >> 5) & 1 == 1, (b >> 6) & 1 == 1, (b >> 7) & 1 == 1]
  }

  function FrameBits(frame: seq<bv8>): (bits: seq<bool>)
    ensures |bits| == 8 * |frame|
  {
    if frame == [] then [] else FrameBits(frame[..|frame| - 1]) + ByteBits(frame[|frame| - 1])
  }

  function Bit(b: bool): bv16 {
    if b then 1 else 0
  }

  /** A bit put below those of a word. */
  function Put(b: bool, rest: bv16): bv16 {
    Xor(Bit(b), rest << 1)
  }

  predicate TopIsClear(w: bv16) {
    w & 0x8000 == 0
  }

  /** At most sixteen bits as a word, the first in the lowest place. */
  function Load(bits: seq<bool>): bv16
    decreases bits
  {
    if bits == [] then 0 else Put(bits[0], Load(bits[1..]))
  }

  /** The places of a word from number `n` on. */
  function From(n: nat): bv16 {
    if n == 0 then 0xffff else From(n - 1) << 1
  }

  lemma {:induction false} FromNests(n: nat)
    ensures From(n) & From(n + 1) == From(n + 1)
  {
    if n > 0 {
      FromNests(n - 1);
    }
  }

  lemma {:induction false} FromFifteen(n: nat)
    requires n <= 15
    ensures From(n) & 0x8000 == 0x8000
    decreases 15 - n
  {
    if n < 15 {
      FromFifteen(n + 1);
      FromNests(n);
    } else {
      assert From(5) == 0xffe0;
      assert From(10) == 0xfc00;
    }
  }

  predicate Apart(x: bv16, y: bv16) {
    x & y == 0
  }

  lemma {:induction false} LoadIsShort(bits: seq<bool>)
    ensures Apart(Load(bits), From(|bits|))
  {
    hide Put, Apart;
    if bits != [] {
      assert From(|bits|) == From(|bits| - 1) << 1;
      LoadIsShort(bits[1..]);
      ShortStep(bits[0], Load(bits[1..]), From(|bits| - 1));
    } else {
      NothingApart(From(0));
    }
  }

  lemma NothingApart(mask: bv16)
    ensures Apart(0, mask)
  {}

  lemma ShortStep(b: bool, rest: bv16, mask: bv16)
    requires Apart(rest, mask)
    ensures Apart(Put(b, rest), mask << 1)
  {
    assert Bit(b) & 0xfffe == 0;
    ShortUp(Bit(b), rest, mask);
  }

  lemma ShortUp(bit: bv16, rest: bv16, mask: bv16)
    requires rest & mask == 0 && bit & 0xfffe == 0
    ensures (bit ^ (rest << 1)) & (mask << 1) == 0
  {}

  lemma TopClear(bits: seq<bool>)
    requires |bits| <= 15
    ensures TopIsClear(Load(bits))
  {
    hide Load, From, TopIsClear;
    LoadIsShort(bits);
    FromFifteen(|bits|);
    ApartTop(Load(bits), From(|bits|));
  }

  lemma ApartTop(x: bv16, mask: bv16)
    requires Apart(x, mask) && mask & 0x8000 == 0x8000
    ensures TopIsClear(x)
  {}

  /** Up to sixteen bits can be read back from the word. */
  lemma {:induction false} LoadTells(p: seq<bool>, q: seq<bool>)
    requires |p| == |q| <= 16 && Load(p) == Load(q)
    ensures p == q
  {
    hide Put, TopIsClear;
    if p != [] {
      TopClear(p[1..]);
      TopClear(q[1..]);
      PutTells(p[0], Load(p[1..]), q[0], Load(q[1..]));
      LoadTells(p[1..], q[1..]);
      assert p == [p[0]] + p[1..] && q == [q[0]] + q[1..];
    }
  }

  lemma PutTells(b: bool, x: bv16, c: bool, y: bv16)
    requires TopIsClear(x) && TopIsClear(y) && Put(b, x) == Put(c, y)
    ensures b == c && x == y
  {}

  lemma FeedAhead(c: bv16, b: bool, rest: bv16)
    requires TopIsClear(rest)
    ensures Shift(Xor(c, Put(b, rest))) == Xor(BitStep(c, b), rest)
  {
    hide Shift, Xor, Bit, TopIsClear;
    XorAssociates(c, Bit(b), rest << 1);
    ShiftLinear(Xor(c, Bit(b)), rest << 1);
    ShiftEven(rest);
  }

  lemma ShiftEven(w: bv16)
    requires TopIsClear(w)
    ensures Shift(w << 1) == w
  {}

  /** Sixteen bits or fewer may be put into the register ahead of the shifts. */
  lemma {:induction false} SerialIsShifts(c: bv16, bits: seq<bool>)
    requires |bits| <= 16
    ensures Serial(c, bits) == Shifts(Xor(c, Load(bits)), |bits|)
    decreases bits
  {
    hide Xor, Shift, BitStep, Put, TopIsClear;
    if bits == [] {
      XorNone(c);
    } else {
      var rest := Load(bits[1..]);
      TopClear(bits[1..]);
      FeedAhead(c, bits[0], rest);
      SerialIsShifts(BitStep(c, bits[0]), bits[1..]);
    }
  }

  lemma {:induction false} SerialConcat(c: bv16, p: seq<bool>, q: seq<bool>)
    ensures Serial(c, p + q) == Serial(Serial(c, p), q)
    decreases p
  {
    hide BitStep;
    if p == [] {
      assert p + q == q;
    } else {
      assert (p + q)[1..] == p[1..] + q;
      SerialConcat(BitStep(c, p[0]), p[1..], q);
    }
  }

  lemma LoadCons(b: bool, rest: seq<bool>)
    ensures Load([b] + rest) == Put(b, Load(rest))
  {
    hide Put;
    assert ([b] + rest)[1..] == rest;
  }

  lemma LoadFour(a: bool, b: bool, c: bool, d: bool, rest: seq<bool>)
    ensures Load([a, b, c, d] + rest) == Put(a, Put(b, Put(c, Put(d, Load(rest)))))
  {
    hide *;
    LoadCons(d, rest);
    LoadCons(c, [d] + rest);
    LoadCons(b, [c] + ([d] + rest));
    LoadCons(a, [b] + ([c] + ([d] + rest)));
    assert [a, b, c, d] + rest == [a] + ([b] + ([c] + ([d] + rest)));
  }

  lemma LoadNothing()
    ensures Load([]) == 0
  {}

  lemma LoadEight(a: bool, b: bool, c: bool, d: bool, e: bool, f: bool, g: bool, h: bool)
    ensures Load([a, b, c, d, e, f, g, h]) == Put(a, Put(b, Put(c, Put(d, Put(e, Put(f, Put(g, Put(h, 0))))))))
  {
    hide *;
    LoadFour(a, b, c, d, [e, f, g, h]);
    LoadFour(e, f, g, h, []);
    LoadNothing();
    assert [e, f, g, h] == [e, f, g, h] + [];
    assert [a, b, c, d, e, f, g, h] == [a, b, c, d] + [e, f, g, h];
  }

  lemma ByteBitsLoad(b: bv8)
    ensures Load(ByteBits(b)) == b as bv16
  {
    hide Load, Put;
    LoadEight(b & 1 == 1, (b >> 1) & 1 == 1, (b >> 2) & 1 == 1, (b >> 3) & 1 == 1,
              (b >> 4) & 1 == 1, (b >> 5) & 1 == 1, (b >> 6) & 1 == 1, (b >> 7) & 1 == 1);
    EightPuts(b);
  }

  lemma EightPuts(b: bv8)
    ensures Put(b & 1 == 1, Put((b >> 1) & 1 == 1, Put((b >> 2) & 1 == 1, Put((b >> 3) & 1 == 1,
              Put((b >> 4) & 1 == 1, Put((b >> 5) & 1 == 1, Put((b >> 6) & 1 == 1, Put((b >> 7) & 1 == 1, 0))))))))
            == b as bv16
  {}

  /** The CRC of a message is what a shift register holds after its bits in the order of transmission. */
  lemma {:induction false} CrcIsSerial(message: seq<bv8>, start: bv16)
    ensures CrcOf(message, start) == Serial(start, FrameBits(message))
  {
    hide ByteStep, Serial, ByteBits;
    if message == [] {
      SerialNothing(start);
    } else {
      var n := |message| - 1;
      CrcIsSerial(message[..n], start);
      SerialConcat(start, FrameBits(message[..n]), ByteBits(message[n]));
      SerialByte(CrcOf(message[..n], start), message[n]);
    }
  }

  lemma SerialNothing(c: bv16)
    ensures Serial(c, []) == c
  {}

  lemma SerialByte(c: bv16, b: bv8)
    ensures Serial(c, ByteBits(b)) == ByteStep(c, b)
  {
    hide Serial, Load, Xor, Shifts;
    ByteBitsLoad(b);
    SerialIsShifts(c, ByteBits(b));
  }

  // ---------------------------------------------------------------- which errors are found

  /** Equal bits after the damage cannot bring different registers together. */
  lemma {:induction false} SerialInjective(c: bv16, d: bv16, bits: seq<bool>)
    ensures Serial(c, bits) == Serial(d, bits) <==> c == d
    decreases bits
  {
    hide BitStep;
    if bits != [] {
      SerialInjective(BitStep(c, bits[0]), BitStep(d, bits[0]), bits[1..]);
      BitStepInjective(c, d, bits[0]);
    }
  }

  lemma BitStepInjective(c: bv16, d: bv16, b: bool)
    ensures BitStep(c, b) == BitStep(d, b) <==> c == d
  {
    hide Shift, Xor;
    ShiftIsShifts(Xor(c, Bit(b)));
    ShiftIsShifts(Xor(d, Bit(b)));
    ShiftsInjective(Xor(c, Bit(b)), Xor(d, Bit(b)), 1);
    XorTwice(c, Bit(b));
    XorTwice(d, Bit(b));
  }

  lemma ShiftIsShifts(c: bv16)
    ensures Shifts(c, 1) == Shift(c)
  {
    hide Shift;
  }

  /** Two different stretches of at most sixteen bits drive the register to different values. */
  lemma StretchTells(c: bv16, p: seq<bool>, q: seq<bool>)
    requires |p| == |q| <= 16
    ensures Serial(c, p) == Serial(c, q) <==> p == q
  {
    if Serial(c, p) == Serial(c, q) {
      hide *;
      SerialIsShifts(c, p);
      SerialIsShifts(c, q);
      ShiftsInjective(Xor(c, Load(p)), Xor(c, Load(q)), |p|);
      XorCommutes(c, Load(p));
      XorCommutes(c, Load(q));
      XorCancels(Load(p), Load(q), c);
      LoadTells(p, q);
    }
  }

  lemma XorCancels(x: bv16, y: bv16, c: bv16)
    requires Xor(x, c) == Xor(y, c)
    ensures x == y
  {
    hide Xor;
    XorTwice(x, c);
    XorTwice(y, c);
  }

  /** The bits outside the window of sixteen that starts at `at` are the same. */
  predicate SameOutside(p: seq<bool>, q: seq<bool>, at: nat)
    requires |p| == |q|
  {
    forall i :: 0 <= i < |p| && !(at <= i < at + 16) ==> p[i] == q[i]
  }

  lemma WindowTells(c: bv16, p: seq<bool>, q: seq<bool>, at: nat)
    requires |p| == |q| && SameOutside(p, q, at)
    ensures Serial(c, p) == Serial(c, q) <==> p == q
  {
    hide Serial;
    var lo := if at < |p| then at else |p|;
    var hi := if at + 16 < |p| then at + 16 else |p|;
    assert p[..lo] == q[..lo] && p[hi..] == q[hi..];
    assert p == (p[..lo] + p[lo..hi]) + p[hi..] && q == (q[..lo] + q[lo..hi]) + q[hi..];
    SerialConcat(c, p[..lo] + p[lo..hi], p[hi..]);
    SerialConcat(c, q[..lo] + q[lo..hi], q[hi..]);
    SerialConcat(c, p[..lo], p[lo..hi]);
    SerialConcat(c, q[..lo], q[lo..hi]);
    var before := Serial(c, p[..lo]);
    SerialInjective(Serial(before, p[lo..hi]), Serial(before, q[lo..hi]), p[hi..]);
    StretchTells(before, p[lo..hi], q[lo..hi]);
  }

  lemma {:induction false} FrameBitsTell(f: seq<bv8>, g: seq<bv8>)
    requires |f| == |g| && FrameBits(f) == FrameBits(g)
    ensures f == g
  {
    hide ByteBits;
    if f != [] {
      var n := |f| - 1;
      assert FrameBits(f)[..8 * n] == FrameBits(f[..n]) && FrameBits(f)[8 * n..] == ByteBits(f[n]);
      assert FrameBits(g)[..8 * n] == FrameBits(g[..n]) && FrameBits(g)[8 * n..] == ByteBits(g[n]);
      FrameBitsTell(f[..n], g[..n]);
      ByteBitsTell(f[n], g[n]);
      assert f == f[..n] + [f[n]] && g == g[..n] + [g[n]];
    }
  }

  lemma ByteBitsTell(x: bv8, y: bv8)
    requires ByteBits(x) == ByteBits(y)
    ensures x == y
  {
    hide *;
    ByteBitsLoad(x);
    ByteBitsLoad(y);
    Widened(x, y);
  }

  lemma Widened(x: bv8, y: bv8)
    requires x as bv16 == y as bv16
    ensures x == y
  {}

  /** A frame damaged only within sixteen consecutive transmitted bits, wherever they are, is not accepted. */
  lemma BurstsAreFound(sent: seq<bv8>, received: seq<bv8>, start: bv16, at: nat)
    requires |sent| == |received| >= 2 && Accepted(sent, start)
    requires SameOutside(FrameBits(sent), FrameBits(received), at)
    ensures Accepted(received, start) <==> received == sent
  {
    hide *;
    AcceptedIffZero(sent, start);
    AcceptedIffZero(received, start);
    CrcIsSerial(sent, start);
    CrcIsSerial(received, start);
    WindowTells(start, FrameBits(sent), FrameBits(received), at);
    if FrameBits(sent) == FrameBits(received) {
      FrameBitsTell(sent, received);
    }
  }

  /** Sixteen is the most: a frame and one that differs from it within seventeen bits are both accepted. */
  lemma SeventeenCanPass()
    ensures var sent, received := [0, 0, 0], [0x03, 0x40, 0x01];
            Accepted(sent, 0) && Accepted(received, 0) &&
            forall i :: 17 <= i < 24 ==> FrameBits(sent)[i] == FrameBits(received)[i]
  {
    var sent: seq<bv8>, received: seq<bv8> := [0, 0, 0], [0x03, 0x40, 0x01];
    hide Accepted, CrcOf, ByteStep, FrameBits;
    AcceptedIffZero(sent, 0);
    AcceptedIffZero(received, 0);
    ThreeBytes(sent, 0);
    ThreeBytes(received, 0);
    Turned(0, 0, 0);
    Turned(0, 0x03, 0x140);
    Turned(0x140, 0x40, 0x1);
    Turned(0x1, 0x01, 0);
  }

  lemma Turned(c: bv16, b: bv8, r: bv16)
    requires var w := Xor(c, b as bv16); Scatter(High(w), Folded(Low(w)), Low(w)) == r
    ensures ByteStep(c, b) == r
  {
    hide *;
    ByteStepIs(c, b);
    EightShifts(Xor(c, b as bv16));
    EightSpreads(Xor(c, b as bv16));
  }

  lemma ThreeBytes(frame: seq<bv8>, start: bv16)
    requires |frame| == 3
    ensures CrcOf(frame, start) == ByteStep(ByteStep(ByteStep(start, frame[0]), frame[1]), frame[2])
    ensures FrameBits(frame) == ByteBits(frame[0]) + ByteBits(frame[1]) + ByteBits(frame[2])
  {
    hide ByteBits, ByteStep;
    assert frame[..2][..1] == frame[..1] && frame[..1][..0] == [];
    assert CrcOf(frame[..1], start) == ByteStep(start, frame[0]);
    assert CrcOf(frame[..2], start) == ByteStep(ByteStep(start, frame[0]), frame[1]);
    assert FrameBits(frame[..1]) == ByteBits(frame[0]);
    assert FrameBits(frame[..2]) == ByteBits(frame[0]) + ByteBits(frame[1]);
  }

  // ---------------------------------------------------------------- an odd number of wrong bits

  /** In how many places two streams differ. */
  function Differences(p: seq<bool>, q: seq<bool>): nat
    requires |p| == |q|
  {
    if p == [] then 0 else (if p[0] == q[0] then 0 else 1) + Differences(p[1..], q[1..])
  }

  function Lowest(w: bv16): bv16 {
    w & 1
  }

  function Half(w: bv16): bv16 {
    w >> 1
  }

  lemma HalfSmaller(w: bv16)
    ensures if w == 0 then Half(w) == 0 else Half(w) < w
  {}

  lemma ParityHalf(w: bv16)
    ensures Parity(w) == Xor(Lowest(w), Parity(Half(w)))
  {
    hide Parity;
    ParityStep(w);
  }

  lemma Halves(x: bv16, y: bv16)
    ensures Half(Xor(x, y)) == Xor(Half(x), Half(y))
    ensures Lowest(Xor(x, y)) == Xor(Lowest(x), Lowest(y))
  {}

  lemma {:induction false} ParityLinear(x: bv16, y: bv16)
    ensures Parity(Xor(x, y)) == Xor(Parity(x), Parity(y))
    decreases x, y
  {
    hide *;
    HalfSmaller(x);
    HalfSmaller(y);
    if x != 0 || y != 0 {
      ParityHalf(x);
      ParityHalf(y);
      ParityHalf(Xor(x, y));
      ParityLinear(Half(x), Half(y));
      Halves(x, y);
      XorSwap(Lowest(x), Parity(Half(x)), Lowest(y), Parity(Half(y)));
    } else {
      XorNone(x);
      ParityOfZero();
      XorNone(Parity(x));
    }
  }

  lemma ParityOfZero()
    ensures Parity(0) == 0
  {}

  lemma ParityOfOne()
    ensures Parity(1) == 1
  {}

  lemma ParityOfPolynomial()
    ensures Parity(0xA001) == 1
  {
    hide Parity;
    ParityStep(0xA001);
    ParityStep(0x5000);
    ParityStep(0x2800);
    ParityStep(0x1400);
    ParityStep(0xA00);
    ParityStep(0x500);
    ParityStep(0x280);
    ParityStep(0x140);
    ParityFolds(0xA0);
  }

  /** A shift keeps the parity: the polynomial has an odd number of ones, one for the bit shifted out. */
  lemma ShiftKeepsParity(c: bv16)
    ensures Parity(Shift(c)) == Parity(c)
  {
    hide Parity, Xor;
    ParityHalf(c);
    LowBit(c);
    ParityOfPolynomial();
    ParityLinear(Half(c), 0xA001);
    XorCommutes(Parity(Half(c)), 1);
    XorNone(Parity(Half(c)));
    ShiftIsXor(c);
  }

  lemma ShiftIsXor(c: bv16)
    ensures Shift(c) == if Lowest(c) == 1 then Xor(Half(c), 0xA001) else Half(c)
  {}

  lemma BitParity(c: bv16, b: bool)
    ensures Parity(BitStep(c, b)) == Xor(Parity(c), Bit(b))
  {
    hide Parity, Xor, Shift;
    ShiftKeepsParity(Xor(c, Bit(b)));
    ParityLinear(c, Bit(b));
    ParityOfZero();
    ParityOfOne();
  }

  /** Registers after two streams differ in parity exactly when the streams differ in an odd number of places. */
  lemma {:induction false} SerialParity(c: bv16, d: bv16, p: seq<bool>, q: seq<bool>)
    requires |p| == |q|
    ensures Parity(Serial(c, p)) == Parity(Serial(d, q)) <==>
            (Parity(c) == Parity(d) <==> Differences(p, q) % 2 == 0)
    decreases p
  {
    hide Parity, BitStep;
    if p != [] {
      var c', d' := BitStep(c, p[0]), BitStep(d, q[0]);
      SerialParity(c', d', p[1..], q[1..]);
      BitParity(c, p[0]);
      BitParity(d, q[0]);
      ParityBit(c);
      ParityBit(d);
      OneParity(Parity(c), p[0], Parity(d), q[0]);
    }
  }

  lemma OneParity(x: bv16, p: bool, y: bv16, q: bool)
    requires (x == 0 || x == 1) && (y == 0 || y == 1)
    ensures Xor(x, Bit(p)) == Xor(y, Bit(q)) <==> (x == y <==> p == q)
  {
    hide *;
    FlipBit(x, p);
    FlipBit(y, q);
  }

  lemma FlipBit(x: bv16, p: bool)
    requires x == 0 || x == 1
    ensures Xor(x, Bit(p)) == if p then (if x == 0 then 1 else 0) else x
  {
    if x == 0 {
      ZeroFlips(p);
    } else {
      OneFlips(p);
    }
  }

  lemma ZeroFlips(p: bool)
    ensures Xor(0, Bit(p)) == if p then 1 else 0
  {}

  lemma OneFlips(p: bool)
    ensures Xor(1, Bit(p)) == if p then 0 else 1
  {}

  /** A frame with an odd number of wrong bits is not accepted. */
  lemma OddErrorsAreFound(sent: seq<bv8>, received: seq<bv8>, start: bv16)
    requires |sent| == |received| >= 2 && Accepted(sent, start)
    requires Differences(FrameBits(sent), FrameBits(received)) % 2 == 1
    ensures !Accepted(received, start)
  {
    hide *;
    AcceptedIffZero(sent, start);
    AcceptedIffZero(received, start);
    CrcIsSerial(sent, start);
    CrcIsSerial(received, start);
    SerialParity(start, start, FrameBits(sent), FrameBits(received));
  }
}
