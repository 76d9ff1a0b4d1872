/** Reading several points with one message, and packing outputs into bytes (modbus/modio.cpp). */
module Batch {
  // The packing, and what a device answers, are those of MODBUS Application Protocol V1.1b3, sections 6.1 to 6.3; the
  // requests of a message are those the program coalesces.

  type Byte = b: nat | b < 256

  datatype Kind = DiscreteIn | DiscreteOut | Register | Other

  datatype Request = Request(kind: Kind, number: nat, data: nat)

  /** What came of sending a message: the bytes of a reply, or an error. */
  datatype Answer = Failed | Received(bytes: seq<Byte>)

  /** The number of points read, or -1, and the requests afterwards. */
  datatype Outcome = Outcome(n: int, reqs: seq<Request>)

  type Word = w: nat | w < 0x10000

  // ---------------------------------------------------------------- bits and bytes

  /** One shifted left by `bit`. */
  function Weight(bit: nat): nat
    decreases bit
  {
    if bit == 0 then 1 else 2 * Weight(bit - 1)
  }

  /** Bits as a number, the first in the lowest place. */
  function NumberOf(s: seq<bool>): (n: nat)
    ensures n < Weight(|s|)
    decreases |s|
  {
    if s == [] then 0 else (if s[0] then 1 else 0) + 2 * NumberOf(s[1..])
  }

  function ByteOf(s: seq<bool>): Byte
    requires |s| == 8
  {
    assert Weight(8) == 256 by {
      assert Weight(4) == 16;
    }
    NumberOf(s)
  }

  /** The bit of `n` that an and with one shifted left by `bit` leaves. */
  predicate BitOf(n: nat, bit: nat)
    decreases bit
  {
    if bit == 0 then n % 2 == 1 else BitOf(n / 2, bit - 1)
  }

  lemma {:induction false} BitOfNumber(s: seq<bool>, bit: nat)
    requires bit < |s|
    ensures BitOf(NumberOf(s), bit) == s[bit]
    decreases bit
  {
    if bit > 0 {
      BitOfNumber(s[1..], bit - 1);
    }
  }

  /** Setting a bit that is clear adds its weight. */
  lemma {:induction false} SetBit(s: seq<bool>, bit: nat)
    requires bit < |s| && !s[bit]
    ensures NumberOf(s[bit := true]) == NumberOf(s) + Weight(bit)
    decreases bit
  {
    var t := s[bit := true];
    if bit > 0 {
      SetBit(s[1..], bit - 1);
      assert t[1..] == s[1..][bit - 1 := true];
    } else {
      assert t[1..] == s[1..];
    }
  }

  /** The bits from number `8 * j` on, filled up with zeros. */
  function Eight(bits: seq<bool>, j: nat): (r: seq<bool>)
    ensures |r| == 8
  {
    seq(8, k requires 0 <= k < 8 => 8 * j + k < |bits| && bits[8 * j + k])
  }

  function BytesFor(n: nat): nat {
    if n % 8 != 0 then n / 8 + 1 else n / 8
  }

  function PackedByte(bits: seq<bool>, j: nat): Byte {
    ByteOf(Eight(bits, j))
  }

  /** The packing of sections 6.1 and 6.2. */
  function Packed(bits: seq<bool>): (r: seq<Byte>)
    ensures |r| == BytesFor(|bits|) && forall j :: 0 <= j < |r| ==> r[j] == PackedByte(bits, j)
  {
    seq(BytesFor(|bits|), j requires 0 <= j < BytesFor(|bits|) => PackedByte(bits, j))
  }

  lemma InWhichByte(n: nat, i: nat)
    requires i < n
    ensures i / 8 < BytesFor(n) && 8 * (i / 8) + i % 8 == i
  {}

  lemma EightAt(bits: seq<bool>, i: nat)
    requires i < |bits|
    ensures Eight(bits, i / 8)[i % 8] == bits[i]
  {
    InWhichByte(|bits|, i);
  }

  /** What is packed can be read back bit by bit. */
  lemma PackedBit(bits: seq<bool>, i: nat)
    requires i < |bits|
    ensures i / 8 < |Packed(bits)| && BitOf(Packed(bits)[i / 8], i % 8) == bits[i]
  {
    hide BitOf, NumberOf, Eight, BytesFor;
    InWhichByte(|bits|, i);
    EightAt(bits, i);
    BitOfNumber(Eight(bits, i / 8), i % 8);
  }

  /** There are as few bytes as hold the bits, and the bits left over in the last one are zero. */
  lemma NothingIsAdded(bits: seq<bool>, i: nat)
    ensures 8 * |Packed(bits)| < |bits| + 8 && |bits| <= 8 * |Packed(bits)|
    ensures |bits| <= i < 8 * |Packed(bits)| ==> !BitOf(Packed(bits)[i / 8], i % 8)
  {
    hide BitOf, NumberOf;
    if |bits| <= i < 8 * |Packed(bits)| {
      BitOfNumber(Eight(bits, i / 8), i % 8);
    }
  }

  /** The packing loop of send_multiple_dos. */
  method PackOutputs(vals: seq<Byte>) returns (bytes: array<Byte>)
    ensures bytes[..] == Packed(seq(|vals|, i requires 0 <= i < |vals| => vals[i] != 0))
  {
    var n := |vals|;
    var dataBytes := n / 8;
    if n % 8 != 0 {
      dataBytes := dataBytes + 1;
    }
    bytes := new Byte[dataBytes](_ => 0);
    ghost var bits := seq(n, k => false);
    ghost var all := seq(n, k requires 0 <= k < n => vals[k] != 0);
    AllClear(n);
    assert bytes[..] == Packed(bits);
    hide PackedByte, Packed, BytesFor, Weight;
    for i := 0 to n
      invariant |bits| == n && bytes[..] == Packed(bits)
      invariant forall k :: 0 <= k < n ==> bits[k] == (k < i && vals[k] != 0)
    {
      if vals[i] != 0 {
        PackedWith(bits, i);
        bytes[i / 8] := bytes[i / 8] + Weight(i % 8);
        bits := bits[i := true];
      }
    }
    assert bits == all;
  }

  /** A bit that is set adds its weight to its byte. */
  lemma PackedWith(bits: seq<bool>, i: nat)
    requires i < |bits| && !bits[i]
    ensures
      var was, now := Packed(bits), Packed(bits[i := true]);
      i / 8 < |was| && was[i / 8] + Weight(i % 8) < 256 && now == was[i / 8 := was[i / 8] + Weight(i % 8)]
  {
    InWhichByte(|bits|, i);
    SetPacked(bits, i);
    hide PackedByte, Weight, BytesFor;
  }

  lemma AllClear(n: nat)
    ensures Packed(seq(n, k => false)) == seq(BytesFor(n), j => 0)
  {
    var clear := seq(n, k => false);
    forall j | 0 <= j < BytesFor(n) ensures PackedByte(clear, j) == 0 {
      ZeroNumber(Eight(clear, j));
    }
  }

  lemma {:induction false} ZeroNumber(s: seq<bool>)
    requires forall k :: 0 <= k < |s| ==> !s[k]
    ensures NumberOf(s) == 0
    decreases |s|
  {
    if s != [] {
      ZeroNumber(s[1..]);
    }
  }

  lemma SetPacked(bits: seq<bool>, i: nat)
    requires i < |bits| && !bits[i]
    ensures var now := bits[i := true];
            && PackedByte(now, i / 8) == PackedByte(bits, i / 8) + Weight(i % 8)
            && forall j: nat :: j != i / 8 ==> PackedByte(now, j) == PackedByte(bits, j)
  {
    hide NumberOf, Weight, BytesFor;
    var now, byte := bits[i := true], i / 8;
    InWhichByte(|bits|, i);
    EightAt(bits, i);
    SetBit(Eight(bits, byte), i % 8);
    assert Eight(now, byte) == Eight(bits, byte)[i % 8 := true];
    forall j: nat | j != byte ensures PackedByte(now, j) == PackedByte(bits, j) {
      assert Eight(now, j) == Eight(bits, j);
    }
  }

  // ---------------------------------------------------------------- which requests go into one message

  function Limit(kind: Kind): int {
    if kind == Register then 120 else 128
  }

  /** Request `k` goes into the message that starts with the first one. */
  predicate Joins(reqs: seq<Request>, kind: Kind, k: nat)
    requires 0 < k < |reqs|
  {
    && reqs[k].kind == kind && reqs[k].number - reqs[k - 1].number <= 20
    && reqs[k].number - reqs[0].number + 1 <= Limit(kind)
  }

  function CountFrom(reqs: seq<Request>, kind: Kind, k: nat): (count: nat)
    requires 0 < k <= |reqs|
    ensures k <= count <= |reqs|
    ensures forall j :: k <= j < count ==> Joins(reqs, kind, j)
    decreases |reqs| - k
  {
    if k < |reqs| && Joins(reqs, kind, k) then CountFrom(reqs, kind, k + 1) else k
  }

  /** The list has an end: a request of another kind. */
  ghost predicate Terminated(reqs: seq<Request>, kind: Kind) {
    exists k :: 0 < k < |reqs| && reqs[k].kind != kind
  }

  predicate Sorted(reqs: seq<Request>) {
    forall i, j :: 0 <= i <= j < |reqs| && reqs[j].kind == reqs[i].kind ==> reqs[i].number <= reqs[j].number
  }

  /** A 16-bit word as the two bytes of a message, the high one first. */
  function WordBytes(w: int): seq<Byte> {
    var u := w % 0x10000;
    [u / 0x100, u % 0x100]
  }

  function WordAt(bytes: seq<Byte>, i: nat): nat
    requires i + 1 < |bytes|
  {
    var high: nat, low: nat := bytes[i], bytes[i + 1];
    high * 0x100 + low
  }

  function Code(kind: Kind): Byte {
    match kind
    case DiscreteOut => 1
    case DiscreteIn => 2
    case _ => 3
  }

  function Points(reqs: seq<Request>, count: nat): int
    requires 0 < count <= |reqs|
  {
    reqs[count - 1].number - reqs[0].number + 1
  }

  function Message(address: Byte, kind: Kind, start: int, points: int): seq<Byte> {
    [address, Code(kind)] + WordBytes(start - 1) + WordBytes(points)
  }

  /** The size a reply must have, from the 16-bit number of points. */
  function ReplySize(kind: Kind, points: int): nat {
    var u := points % 0x10000;
    if kind == Register then 3 + 2 * u else 3 + BytesFor(u)
  }

  /** The value of a point that lies so far behind the first one of a reply. */
  function Unpacked(kind: Kind, bytes: seq<Byte>, offset: nat): nat
    requires if kind == Register then 2 * offset + 4 < |bytes| else offset / 8 + 3 < |bytes|
  {
    if kind == Register then WordAt(bytes, 3 + 2 * offset)
    else if BitOf(bytes[offset / 8 + 3], offset % 8) then 1 else 0
  }

  /** Every request of the message is within it, if the list is sorted. */
  lemma BatchIsInside(reqs: seq<Request>, kind: Kind, i: nat)
    requires reqs != [] && Sorted(reqs) && kind != Other && reqs[0].kind == kind && i < CountFrom(reqs, kind, 1)
    ensures var count := CountFrom(reqs, kind, 1);
            0 <= reqs[i].number - reqs[0].number < Points(reqs, count) <= Limit(kind) && reqs[i].kind == kind
  {
    var count := CountFrom(reqs, kind, 1);
    assert i > 0 ==> Joins(reqs, kind, i);
    assert count > 1 ==> Joins(reqs, kind, count - 1);
  }

  /** As many requests go into a message as there are of one kind with gaps of at most twenty and within 128 points,
      or 120 registers, of the first; the next one, if there is one, breaks one of these rules. */
  lemma CountIsGreatest(reqs: seq<Request>, kind: Kind)
    requires reqs != []
    ensures
      var count := CountFrom(reqs, kind, 1);
      && (forall k :: 0 < k < count ==>
            && reqs[k].kind == kind && reqs[k].number <= reqs[k - 1].number + 20
            && reqs[k].number < reqs[0].number + (if kind == Register then 120 else 128))
      && (count < |reqs| ==>
            || reqs[count].kind != kind || reqs[count].number > reqs[count - 1].number + 20
            || reqs[count].number >= reqs[0].number + (if kind == Register then 120 else 128))
  {
    hide CountFrom;
    CountStops(reqs, kind, 1);
    var count := CountFrom(reqs, kind, 1);
    forall k | 0 < k < count
      ensures reqs[k].kind == kind && reqs[k].number <= reqs[k - 1].number + 20
      ensures reqs[k].number < reqs[0].number + (if kind == Register then 120 else 128)
    {
      assert Joins(reqs, kind, k);
    }
  }

  lemma {:induction false} CountStops(reqs: seq<Request>, kind: Kind, k: nat)
    requires 0 < k <= |reqs|
    ensures var count := CountFrom(reqs, kind, k); count < |reqs| ==> !Joins(reqs, kind, count)
    decreases |reqs| - k
  {
    if k < |reqs| && Joins(reqs, kind, k) {
      CountStops(reqs, kind, k + 1);
    }
  }

  // ---------------------------------------------------------------- the device

  /** The points of a device, numbered from zero. */
  datatype Device = Device(inputs: nat -> bool, outputs: nat -> bool, registers: nat -> Word)

  function Bits(d: Device, kind: Kind): nat -> bool {
    if kind == DiscreteIn then d.inputs else d.outputs
  }

  function DeviceBits(d: Device, kind: Kind, start: nat, points: nat): (r: seq<bool>)
    ensures |r| == points
  {
    seq(points, i requires 0 <= i < points => Bits(d, kind)(start + i))
  }

  function RegisterBytes(d: Device, start: nat, points: nat): (r: seq<Byte>)
    ensures |r| == 2 * points
    decreases points
  {
    if points == 0 then [] else RegisterBytes(d, start, points - 1) + WordBytes(d.registers(start + points - 1))
  }

  /** The value of a point, numbered from one as in requests. */
  function PointValue(d: Device, kind: Kind, number: nat): nat
    requires number > 0
  {
    if kind == Register then d.registers(number - 1) else if Bits(d, kind)(number - 1) then 1 else 0
  }

  /** The reply of a device to a message, as sections 6.1 to 6.3 have it. */
  function Reply(d: Device, msg: seq<Byte>): seq<Byte>
    requires |msg| == 6
  {
    var start, points := WordAt(msg, 2), WordAt(msg, 4);
    var data := if msg[1] == 3 then RegisterBytes(d, start, points)
                else Packed(DeviceBits(d, if msg[1] == 2 then DiscreteIn else DiscreteOut, start, points));
    [msg[0], msg[1], (|data| % 0x100) as Byte] + data
  }

  // ---------------------------------------------------------------- reading a batch

  predicate Askable(reqs: seq<Request>, kind: Kind) {
    reqs != [] && Sorted(reqs) && kind != Other && reqs[0].kind == kind
  }

  function Filled(reqs: seq<Request>, kind: Kind, bytes: seq<Byte>, count: nat): (r: seq<Request>)
    requires Askable(reqs, kind) && count <= CountFrom(reqs, kind, 1)
    requires |bytes| == ReplySize(kind, Points(reqs, CountFrom(reqs, kind, 1)))
    ensures |r| == |reqs|
    decreases count
  {
    if count == 0 then reqs else
      BatchIsInside(reqs, kind, count - 1);
      var offset: nat := reqs[count - 1].number - reqs[0].number;
      OffsetInReply(kind, Points(reqs, CountFrom(reqs, kind, 1)), offset);
      var before := Filled(reqs, kind, bytes, count - 1);
      before[count - 1 := reqs[count - 1].(data := Unpacked(kind, bytes, offset))]
  }

  lemma OffsetInReply(kind: Kind, points: int, offset: nat)
    requires offset < points <= 128
    ensures if kind == Register then 2 * offset + 4 < ReplySize(kind, points) else offset / 8 + 3 < ReplySize(kind, points)
  {}

  /** What is returned, and the requests with their data, when the line answers messages as `exchange` says. */
  function ReadResult(address: Byte, kind: Kind, reqs: seq<Request>, exchange: seq<Byte> -> Answer): Outcome
    requires Askable(reqs, kind)
  {
    var count := CountFrom(reqs, kind, 1);
    var points := Points(reqs, count);
    match exchange(Message(address, kind, reqs[0].number, points))
    case Failed => Outcome(-1, reqs)
    case Received(bytes) =>
      if |bytes| != ReplySize(kind, points) then Outcome(-1, reqs)
      else Outcome(count, Filled(reqs, kind, bytes, count))
  }

  /** How many requests from the first on go into one message. */
  method CountBatch(reqs: array<Request>, kind: Kind) returns (count: nat)
    requires reqs.Length > 0 && Terminated(reqs[..], kind)
    ensures 0 < count <= reqs.Length && count == CountFrom(reqs[..], kind, 1)
  {
    var start := reqs[0].number;
    ghost var was := reqs[..];
    ghost var stop :| 0 < stop < |was| && was[stop].kind != kind;
    count := 1;
    while reqs[count].kind == kind && reqs[count].number - reqs[count - 1].number <= 20
          && reqs[count].number - start + 1 <= Limit(kind)
      invariant 0 < count <= stop && CountFrom(was, kind, count) == CountFrom(was, kind, 1)
      decreases stop - count
    {
      count := count + 1;
    }
  }

  /** The loop that takes the data from a reply. */
  method TakeData(reqs: array<Request>, kind: Kind, bytes: seq<Byte>, count: nat)
    requires Askable(reqs[..], kind) && count == CountFrom(reqs[..], kind, 1)
    requires |bytes| == ReplySize(kind, Points(reqs[..], count))
    modifies reqs
    ensures reqs[..] == Filled(old(reqs[..]), kind, bytes, count)
  {
    hide Unpacked, ReplySize, Sorted;
    ghost var was := reqs[..];
    var start := reqs[0].number;
    for i := 0 to count
      invariant |was| == reqs.Length && reqs[..] == Filled(was, kind, bytes, i)
      invariant forall j :: i <= j < reqs.Length ==> reqs[j] == was[j]
    {
      BatchIsInside(was, kind, i);
      var offset := reqs[i].number - start;
      OffsetInReply(kind, Points(was, count), offset);
      reqs[i] := reqs[i].(data := Unpacked(kind, bytes, offset));
    }
  }

  method ReadRequests(address: Byte, kind: Kind, reqs: array<Request>, exchange: seq<Byte> -> Answer) returns (n: int)
    requires Askable(reqs[..], kind) && Terminated(reqs[..], kind)
    modifies reqs
    ensures Outcome(n, reqs[..]) == ReadResult(address, kind, old(reqs[..]), exchange)
  {
    hide ReplySize, Message, Filled, CountFrom, Sorted;
    var count := CountBatch(reqs, kind);
    var points := reqs[count - 1].number - reqs[0].number + 1;
    var answer := exchange(Message(address, kind, reqs[0].number, points));
    if answer.Failed? {
      return -1;
    }
    if |answer.bytes| != ReplySize(kind, points) {
      return -1;
    }
    TakeData(reqs, kind, answer.bytes, count);
    return count;
  }

  lemma {:induction false} FilledAt(reqs: seq<Request>, kind: Kind, bytes: seq<Byte>, count: nat, i: nat)
    requires Askable(reqs, kind) && i < count <= CountFrom(reqs, kind, 1)
    requires |bytes| == ReplySize(kind, Points(reqs, CountFrom(reqs, kind, 1)))
    ensures 0 <= reqs[i].number - reqs[0].number < Points(reqs, CountFrom(reqs, kind, 1)) <= 128
    ensures var offset: nat := reqs[i].number - reqs[0].number;
            && (if kind == Register then 2 * offset + 4 < |bytes| else offset / 8 + 3 < |bytes|)
            && Filled(reqs, kind, bytes, count)[i].data == Unpacked(kind, bytes, offset)
    decreases count
  {
    hide Unpacked;
    BatchIsInside(reqs, kind, i);
    OffsetInReply(kind, Points(reqs, CountFrom(reqs, kind, 1)), reqs[i].number - reqs[0].number);
    if i < count - 1 {
      FilledAt(reqs, kind, bytes, count - 1, i);
    }
  }

  lemma {:induction false} RegisterAt(d: Device, start: nat, points: nat, offset: nat)
    requires offset < points
    ensures WordAt(RegisterBytes(d, start, points), 2 * offset) == d.registers(start + offset)
    decreases points
  {
    if offset < points - 1 {
      RegisterAt(d, start, points - 1, offset);
    }
  }

  lemma WordRoundTrip(a: Byte, b: Byte, w: nat, v: nat)
    requires w < 0x10000 && v < 0x10000
    ensures var msg := [a, b] + WordBytes(w) + WordBytes(v); |msg| == 6 && WordAt(msg, 2) == w && WordAt(msg, 4) == v
  {}

  lemma RegisterReply(d: Device, msg: seq<Byte>, start: nat, points: nat, offset: nat)
    requires |msg| == 6 && msg[1] == 3 && WordAt(msg, 2) == start && WordAt(msg, 4) == points && offset < points
    ensures |Reply(d, msg)| == 3 + 2 * points
    ensures WordAt(Reply(d, msg), 3 + 2 * offset) == d.registers(start + offset)
  {
    RegisterAt(d, start, points, offset);
    var data, bytes := RegisterBytes(d, start, points), Reply(d, msg);
    hide RegisterBytes;
    assert bytes[3 + 2 * offset] == data[2 * offset] && bytes[4 + 2 * offset] == data[2 * offset + 1];
  }

  lemma BitsReply(d: Device, msg: seq<Byte>, kind: Kind, start: nat, points: nat, offset: nat)
    requires |msg| == 6 && (kind == DiscreteIn || kind == DiscreteOut) && msg[1] == Code(kind)
    requires WordAt(msg, 2) == start && WordAt(msg, 4) == points && offset < points
    ensures |Reply(d, msg)| == 3 + BytesFor(points) && offset / 8 + 3 < |Reply(d, msg)|
    ensures BitOf(Reply(d, msg)[offset / 8 + 3], offset % 8) == Bits(d, kind)(start + offset)
  {
    var bits := DeviceBits(d, kind, start, points);
    var bytes := [msg[0], msg[1], (|Packed(bits)| % 0x100) as Byte] + Packed(bits);
    assert Reply(d, msg) == bytes;
    assert bits[offset] == Bits(d, kind)(start + offset);
    hide *;
    InWhichByte(points, offset);
    PackedBit(bits, offset);
    assert bytes[offset / 8 + 3] == Packed(bits)[offset / 8];
  }

  /** A reply of the right size has each point where it is looked for. */
  lemma ReplyHolds(d: Device, address: Byte, kind: Kind, start: nat, points: nat, offset: nat)
    requires kind != Other && 0 < start < 0x10000 && offset < points <= 128
    ensures var bytes := Reply(d, Message(address, kind, start, points));
            && |bytes| == ReplySize(kind, points)
            && (if kind == Register then 2 * offset + 4 < |bytes| else offset / 8 + 3 < |bytes|)
            && Unpacked(kind, bytes, offset) == PointValue(d, kind, start + offset)
  {
    hide BitOf, RegisterBytes, WordBytes, BytesFor, PackedByte, WordAt, Reply;
    WordRoundTrip(address, Code(kind), start - 1, points);
    var msg := Message(address, kind, start, points);
    assert msg[1] == Code(kind);
    OffsetInReply(kind, points, offset);
    if kind == Register {
      RegisterReply(d, msg, start - 1, points, offset);
    } else {
      BitsReply(d, msg, kind, start - 1, points, offset);
    }
  }

  /** The line leads to a device that answers every message as the standard says. */
  ghost predicate Answers(exchange: seq<Byte> -> Answer, d: Device) {
    forall msg: seq<Byte> :: |msg| == 6 ==> exchange(msg) == Received(Reply(d, msg))
  }

  /** Whatever requests share a message, each gets the value of its own point. */
  lemma BatchReadsPoints(address: Byte, kind: Kind, reqs: seq<Request>, exchange: seq<Byte> -> Answer, d: Device)
    requires Askable(reqs, kind) && Answers(exchange, d)
    requires forall i :: 0 <= i < |reqs| ==> 0 < reqs[i].number < 0x10000
    ensures var Outcome(n, r) := ReadResult(address, kind, reqs, exchange);
            && 1 <= n <= |reqs| == |r| && n == CountFrom(reqs, kind, 1)
            && forall i :: 0 <= i < n ==> r[i].data == PointValue(d, kind, reqs[i].number)
  {
    hide Reply, Unpacked, PointValue, Message, Filled, ReplySize;
    var count := CountFrom(reqs, kind, 1);
    BatchIsInside(reqs, kind, count - 1);
    var start, points: nat := reqs[0].number, Points(reqs, count);
    var msg := Message(address, kind, start, points);
    MessageSize(address, kind, start, points);
    ReplyHolds(d, address, kind, start, points, 0);
    forall i | 0 <= i < count
      ensures ReadResult(address, kind, reqs, exchange).reqs[i].data == PointValue(d, kind, reqs[i].number)
    {
      BatchIsInside(reqs, kind, i);
      FilledAt(reqs, kind, Reply(d, msg), count, i);
      ReplyHolds(d, address, kind, start, points, reqs[i].number - start);
    }
  }

  lemma MessageSize(address: Byte, kind: Kind, start: int, points: int)
    ensures |Message(address, kind, start, points)| == 6
  {}

  /** A message to the device with this address asks for the points from `start` on, numbered from one. */
  lemma MessageAsks(address: Byte, kind: Kind, start: nat, points: nat)
    requires 0 < start < 0x10000 && points < 0x10000 && kind != Other
    ensures
      var msg := Message(address, kind, start, points);
      && |msg| == 6 && msg[0] == address
      && msg[1] == (if kind == DiscreteOut then 1 else if kind == DiscreteIn then 2 else 3)
      && WordAt(msg, 2) == start - 1 && WordAt(msg, 4) == points
  {
    WordRoundTrip(address, Code(kind), start - 1, points);
  }

  /** Requests that do not share the message stay as they are, and of the others only the data change. */
  lemma {:induction false} FilledOnly(reqs: seq<Request>, kind: Kind, bytes: seq<Byte>, count: nat, i: nat)
    requires Askable(reqs, kind) && count <= CountFrom(reqs, kind, 1) && i < |reqs|
    requires |bytes| == ReplySize(kind, Points(reqs, CountFrom(reqs, kind, 1)))
    ensures
      var r := Filled(reqs, kind, bytes, count);
      r[i].kind == reqs[i].kind && r[i].number == reqs[i].number && (i >= count ==> r[i] == reqs[i])
    decreases count
  {
    hide Unpacked, ReplySize, Askable, Points;
    if count > 0 {
      FilledOnly(reqs, kind, bytes, count - 1, i);
    }
  }

  /** Without a reply, or with one of a wrong size, nothing is read: the size is three bytes and one for every eight
      points begun, or two for every register. */
  lemma FailureLeaves(address: Byte, kind: Kind, reqs: seq<Request>, exchange: seq<Byte> -> Answer)
    requires Askable(reqs, kind) && forall i :: 0 <= i < |reqs| ==> 0 < reqs[i].number < 0x10000
    ensures
      var count := CountFrom(reqs, kind, 1);
      var points := reqs[count - 1].number - reqs[0].number + 1;
      var answer := exchange(Message(address, kind, reqs[0].number, points));
      var r := ReadResult(address, kind, reqs, exchange);
      var right := answer.Received? && |answer.bytes| == 3 + (if kind == Register then 2 * points else (points + 7) / 8);
      if right then r.n == count && |r.reqs| == |reqs| && (forall i :: count <= i < |reqs| ==> r.reqs[i] == reqs[i])
      else r == Outcome(-1, reqs)
  {
    hide Filled, CountFrom, Message;
    var count := CountFrom(reqs, kind, 1);
    BatchIsInside(reqs, kind, count - 1);
    var points := Points(reqs, count);
    SizeIs(kind, points);
    var answer := exchange(Message(address, kind, reqs[0].number, points));
    if answer.Received? && |answer.bytes| == ReplySize(kind, points) {
      forall i | count <= i < |reqs| ensures Filled(reqs, kind, answer.bytes, count)[i] == reqs[i] {
        FilledOnly(reqs, kind, answer.bytes, count, i);
      }
    }
  }

  lemma SizeIs(kind: Kind, points: int)
    requires 0 < points <= 128
    ensures ReplySize(kind, points) == 3 + (if kind == Register then 2 * points else (points + 7) / 8)
  {}

  /** Reading points together gives each the value it gets when it is read alone. */
  lemma BatchIsSingles(address: Byte, kind: Kind, reqs: seq<Request>, exchange: seq<Byte> -> Answer, d: Device, i: nat)
    requires Askable(reqs, kind) && Answers(exchange, d) && i < CountFrom(reqs, kind, 1)
    requires forall j :: 0 <= j < |reqs| ==> 0 < reqs[j].number < 0x10000
    ensures Askable([reqs[i]], kind)
    ensures |ReadResult(address, kind, reqs, exchange).reqs| == |reqs| && |ReadResult(address, kind, [reqs[i]], exchange).reqs| == 1
    ensures ReadResult(address, kind, reqs, exchange).reqs[i].data == ReadResult(address, kind, [reqs[i]], exchange).reqs[0].data
  {
    hide ReadResult, PointValue, Answers;
    BatchIsInside(reqs, kind, i);
    BatchReadsPoints(address, kind, reqs, exchange, d);
    BatchReadsPoints(address, kind, [reqs[i]], exchange, d);
  }
}
