/**
 * The signal the WS2812B emitter puts on its pin, as a trace of events.
 *
 * Nanosecond timing is reduced to two categories: each level of a bit is
 * nominally Short or Long. A 0 bit is a Short HIGH followed by a Long LOW,
 * a 1 bit a Long HIGH followed by a Short LOW (src/me_Ws2812b.cpp:19-27).
 * Bits go out most significant first, bytes in memory order.
 */
module Waveform {
  import opened Ws2812bTypes

  /**
   * The nominal length of a written level within one bit: the HIGH part and
   * the LOW tail of that bit. The LOW tail of a byte's last bit and of the
   * frame's last bit lasts longer than this nominal category.
   */
  datatype Hold = Short | Long

  /** One observable action of the driver, in program order. */
  datatype Event =
    | PinModeOutput(pin: uint8)                         // pinMode(Pin, OUTPUT)
    | DigitalWriteLow(pin: uint8)                       // digitalWrite(Pin, LOW)
    | DelayMicroseconds(us: nat)                        // delayMicroseconds(us)
    | InterruptsDisabled                                // cli()
    | SregRestored(interruptFlag: bool)                 // SREG = OrigSreg
    | PortWrite(addr: uint16, value: bv8, hold: Hold)   // st Z, PortValue

  /** Bit i of b, counting from the least significant bit. */
  predicate Bit(b: bv8, i: nat)
    requires i < 8
  {
    (b >> i) & 1 == 1
  }

  /** The eight bits of b in transmission order: bit 7 first, bit 0 last. */
  function MsbFirst(b: bv8): (bits: seq<bool>)
    ensures |bits| == 8
  {
    seq(8, k requires 0 <= k < 8 => Bit(b, 7 - k))
  }

  /** b after n `lsl` instructions, each shifting one place left and dropping bit 7 into carry. */
  function ShiftLeft(b: bv8, n: nat): bv8
  {
    if n == 0 then b else ShiftLeft(b, n - 1) << 1
  }

  lemma ShiftLeftStep(b: bv8, n: nat)
    ensures ShiftLeft(b, n + 1) == ShiftLeft(b, n) << 1
  {
  }

  /** Shifting n + 1 times is shifting once and then n times. */
  lemma {:induction false} ShiftLeftFirst(b: bv8, n: nat)
    ensures ShiftLeft(b, n + 1) == ShiftLeft(b << 1, n)
  {
    if n > 0 {
      ShiftLeftFirst(b, n - 1);
    }
  }

  /** After one `lsl`, bit i holds what bit i - 1 held. */
  lemma BitAfterShift(b: bv8, i: nat)
    requires 0 < i < 8
    ensures Bit(b << 1, i) == Bit(b, i - 1)
  {
  }

  /** After one `lsl` the transmission order moves up one place. */
  lemma MsbFirstShift(b: bv8, k: nat)
    requires k < 7
    ensures MsbFirst(b << 1)[k] == MsbFirst(b)[k + 1]
  {
    BitAfterShift(b, 7 - k);
  }

  /**
   * The carry of the (n+1)-th `lsl` on a byte is its bit 7 - n: the byte
   * is shifted out most significant bit first.
   */
  lemma {:induction false} TopBitAfterShifts(b: bv8, n: nat)
    requires n < 8
    ensures (ShiftLeft(b, n) & 0x80 != 0) == MsbFirst(b)[n]
    decreases n
  {
    if n > 0 {
      ShiftLeftFirst(b, n - 1);
      TopBitAfterShifts(b << 1, n - 1);
      MsbFirstShift(b, n - 1);
    }
  }

  /** The carries of the first n `lsl` instructions on b, in order. */
  function Carries(b: bv8, n: nat): (bits: seq<bool>)
    ensures |bits| == n
  {
    if n == 0 then [] else Carries(b, n - 1) + [ShiftLeft(b, n - 1) & 0x80 != 0]
  }

  lemma {:induction false} CarriesAt(b: bv8, n: nat, k: nat)
    requires k < n
    ensures Carries(b, n)[k] == (ShiftLeft(b, k) & 0x80 != 0)
  {
    if k < n - 1 {
      CarriesAt(b, n - 1, k);
    }
  }

  /**
   * Eight `lsl` instructions shift a byte out most significant bit first.
   * The count is a parameter fixed to 8 so that `Carries(b, n)` is not
   * unrolled eight times wherever the lemma is used.
   */
  lemma CarriesMsbFirst(b: bv8, n: nat)
    requires n == 8
    ensures Carries(b, n) == MsbFirst(b)
  {
    forall k | 0 <= k < 8
      ensures Carries(b, n)[k] == MsbFirst(b)[k]
    {
      CarriesAt(b, n, k);
      TopBitAfterShifts(b, k);
    }
  }

  /** The HIGH part of a bit: long for a 1, short for a 0. */
  function HighHold(bit: bool): Hold
  {
    if bit then Long else Short
  }

  /** The LOW part of a bit: short for a 1, long for a 0. */
  function LowHold(bit: bool): Hold
  {
    if bit then Short else Long
  }

  /** The port writes for a sequence of bits: per bit, the HIGH value then the LOW value. */
  function BitsWrites(addr: uint16, high: bv8, low: bv8, bits: seq<bool>): (w: seq<Event>)
    ensures |w| == 2 * |bits|
  {
    if bits == [] then []
    else
      var n := |bits| - 1;
      BitsWrites(addr, high, low, bits[..n])
        + [PortWrite(addr, high, HighHold(bits[n])), PortWrite(addr, low, LowHold(bits[n]))]
  }

  /** The sixteen port writes for one byte. */
  function ByteWrites(addr: uint16, high: bv8, low: bv8, b: bv8): seq<Event>
  {
    BitsWrites(addr, high, low, MsbFirst(b))
  }

  /** The port writes for a byte buffer, bytes in buffer order. */
  function DataWrites(addr: uint16, high: bv8, low: bv8, data: seq<bv8>): (w: seq<Event>)
    ensures |w| == 16 * |data|
  {
    if data == [] then []
    else
      var n := |data| - 1;
      DataWrites(addr, high, low, data[..n]) + ByteWrites(addr, high, low, data[n])
  }

  /** Write 2k of a bit sequence is bit k's HIGH, write 2k+1 its LOW. */
  lemma {:induction false} BitsWritesAt(addr: uint16, high: bv8, low: bv8, bits: seq<bool>, k: nat)
    requires k < |bits|
    ensures BitsWrites(addr, high, low, bits)[2 * k] == PortWrite(addr, high, HighHold(bits[k]))
    ensures BitsWrites(addr, high, low, bits)[2 * k + 1] == PortWrite(addr, low, LowHold(bits[k]))
  {
    var n := |bits| - 1;
    if k < n {
      BitsWritesAt(addr, high, low, bits[..n], k);
    }
  }

  lemma {:induction false} DataWritesAtBit(addr: uint16, high: bv8, low: bv8, data: seq<bv8>, j: nat, k: nat)
    requires j < |data| && k < 8
    ensures DataWrites(addr, high, low, data)[16 * j + 2 * k]
      == PortWrite(addr, high, HighHold(MsbFirst(data[j])[k]))
    ensures DataWrites(addr, high, low, data)[16 * j + 2 * k + 1]
      == PortWrite(addr, low, LowHold(MsbFirst(data[j])[k]))
  {
    var n := |data| - 1;
    var pre, last := DataWrites(addr, high, low, data[..n]), ByteWrites(addr, high, low, data[n]);
    assert DataWrites(addr, high, low, data) == pre + last;
    if j < n {
      DataWritesAtBit(addr, high, low, data[..n], j, k);
      assert data[..n][j] == data[j];
    } else {
      BitsWritesAt(addr, high, low, MsbFirst(data[n]), k);
      assert (pre + last)[16 * j + 2 * k] == last[2 * k];
      assert (pre + last)[16 * j + 2 * k + 1] == last[2 * k + 1];
    }
  }

  /**
   * Write 16j + 2k of a buffer is the HIGH of bit 7 - k of byte j, and the
   * next write is its LOW: bytes in order, bits most significant first.
   */
  lemma DataWritesAt(addr: uint16, high: bv8, low: bv8, data: seq<bv8>, j: nat, k: nat)
    requires j < |data| && k < 8
    ensures DataWrites(addr, high, low, data)[16 * j + 2 * k]
      == PortWrite(addr, high, HighHold(Bit(data[j], 7 - k)))
    ensures DataWrites(addr, high, low, data)[16 * j + 2 * k + 1]
      == PortWrite(addr, low, LowHold(Bit(data[j], 7 - k)))
  {
    DataWritesAtBit(addr, high, low, data, j, k);
  }

  /** The HIGH and LOW write of bit k of byte j go to `addr` with the values `high` and `low`. */
  lemma DataWritesLevelsAt(addr: uint16, high: bv8, low: bv8, data: seq<bv8>, j: nat, k: nat)
    requires j < |data| && k < 8
    ensures var w := DataWrites(addr, high, low, data)[16 * j + 2 * k];
      w.PortWrite? && w.addr == addr && w.value == high
    ensures var w := DataWrites(addr, high, low, data)[16 * j + 2 * k + 1];
      w.PortWrite? && w.addr == addr && w.value == low
  {
    DataWritesAtBit(addr, high, low, data, j, k);
  }

  /** Even and odd positions: 2q + h has remainder h modulo 2. */
  lemma HalfSplit(i: nat, q: nat, h: nat)
    requires h < 2 && i == 2 * q + h
    ensures i % 2 == h
  {
  }

  /** A write position splits into its byte j, its bit k and its half: i = 16j + 2k + i % 2. */
  lemma WritePosition(i: nat) returns (j: nat, k: nat)
    ensures i == 16 * j + 2 * k + i % 2 && k < 8
  {
    j := i / 16;
    var r := i % 16;
    k := r / 2;
    HalfSplit(i, 8 * j + k, r % 2);
  }

  /** Writes alternate, starting with HIGH: even positions write `high`, odd ones `low`, all to `addr`. */
  lemma DataWritesLevels(addr: uint16, high: bv8, low: bv8, data: seq<bv8>, i: nat)
    requires i < 16 * |data|
    ensures DataWrites(addr, high, low, data)[i].PortWrite?
    ensures DataWrites(addr, high, low, data)[i].addr == addr
    ensures DataWrites(addr, high, low, data)[i].value == if i % 2 == 0 then high else low
  {
    var j, k := WritePosition(i);
    DataWritesLevelsAt(addr, high, low, data, j, k);
  }

  /** The HIGH pulses a receiver watching bit `mask` of the register at `addr` sees, with their lengths. */
  function HighPulses(t: seq<Event>, addr: uint16, mask: bv8): seq<Hold>
  {
    if t == [] then []
    else
      var n := |t| - 1;
      HighPulses(t[..n], addr, mask)
        + match t[n]
          case PortWrite(a, v, h) => if a == addr && v & mask != 0 then [h] else []
          case _ => []
  }

  lemma {:induction false} HighPulsesAppend(s: seq<Event>, t: seq<Event>, addr: uint16, mask: bv8)
    ensures HighPulses(s + t, addr, mask) == HighPulses(s, addr, mask) + HighPulses(t, addr, mask)
  {
    if t == [] {
      assert s + t == s;
    } else {
      var n := |t| - 1;
      assert (s + t)[..|s + t| - 1] == s + t[..n];
      assert (s + t)[|s + t| - 1] == t[n];
      HighPulsesAppend(s, t[..n], addr, mask);
    }
  }

  /** The pulse lengths a byte should produce: long for every 1 bit, MSB first. */
  function BytePulses(b: bv8): seq<Hold>
  {
    BitsPulses(MsbFirst(b))
  }

  /** The pulse lengths a buffer should produce, bytes in order. */
  function Pulses(data: seq<bv8>): (p: seq<Hold>)
    ensures |p| == 8 * |data|
  {
    if data == [] then [] else Pulses(data[..|data| - 1]) + BytePulses(data[|data| - 1])
  }

  /** A HIGH write followed by a LOW write is one pulse, held as long as the HIGH write says. */
  lemma HighPulsesPair(addr: uint16, high: bv8, low: bv8, mask: bv8, h1: Hold, h2: Hold)
    requires high & mask != 0 && low & mask == 0
    ensures HighPulses([PortWrite(addr, high, h1), PortWrite(addr, low, h2)], addr, mask) == [h1]
  {
    var pair := [PortWrite(addr, high, h1), PortWrite(addr, low, h2)];
    assert pair[..1][..0] == [];
    assert HighPulses(pair[..1], addr, mask) == [h1];
  }

  /** The pulse lengths of a bit sequence: long for every 1 bit, in order. */
  function BitsPulses(bits: seq<bool>): seq<Hold>
  {
    seq(|bits|, k requires 0 <= k < |bits| => HighHold(bits[k]))
  }

  /**
   * The HIGH/LOW writes of a bit sequence, watched at a pin the HIGH value
   * sets and the LOW value clears, show one pulse per bit, Long for a 1.
   */
  lemma {:induction false} HighPulsesOfBitsWrites(addr: uint16, high: bv8, low: bv8, mask: bv8, bits: seq<bool>)
    requires high & mask != 0 && low & mask == 0
    ensures HighPulses(BitsWrites(addr, high, low, bits), addr, mask) == BitsPulses(bits)
  {
    if bits != [] {
      var n := |bits| - 1;
      var prefix := BitsWrites(addr, high, low, bits[..n]);
      var last := [PortWrite(addr, high, HighHold(bits[n])), PortWrite(addr, low, LowHold(bits[n]))];
      HighPulsesOfBitsWrites(addr, high, low, mask, bits[..n]);
      HighPulsesAppend(prefix, last, addr, mask);
      HighPulsesPair(addr, high, low, mask, HighHold(bits[n]), LowHold(bits[n]));
      assert BitsPulses(bits) == BitsPulses(bits[..n]) + [HighHold(bits[n])];
    }
  }

  /**
   * With a HIGH value that drives the watched pin high and a LOW value that
   * drives it low, the HIGH pulses of a buffer's writes are exactly its
   * pulse lengths: one per bit, MSB first, bytes in order.
   */
  lemma {:induction false} HighPulsesOfDataWrites(addr: uint16, high: bv8, low: bv8, mask: bv8, data: seq<bv8>)
    requires high & mask != 0 && low & mask == 0
    ensures HighPulses(DataWrites(addr, high, low, data), addr, mask) == Pulses(data)
  {
    if data != [] {
      var n := |data| - 1;
      HighPulsesOfDataWrites(addr, high, low, mask, data[..n]);
      HighPulsesAppend(DataWrites(addr, high, low, data[..n]), ByteWrites(addr, high, low, data[n]), addr, mask);
      HighPulsesOfBitsWrites(addr, high, low, mask, MsbFirst(data[n]));
    }
  }

  /** Pulse lengths read as bits (Long is 1), packed most significant first. */
  function PackMsbFirst(p: seq<Hold>): bv8
    requires |p| <= 8
  {
    if p == [] then 0
    else ShiftIn(PackMsbFirst(p[..|p| - 1]), p[|p| - 1])
  }

  /** A receiver's decoding of pulse lengths into bytes, eight pulses per byte. */
  function DecodePulses(p: seq<Hold>): (data: seq<bv8>)
    requires |p| % 8 == 0
    ensures |data| == |p| / 8
  {
    if p == [] then [] else DecodePulses(p[..|p| - 8]) + [PackMsbFirst(p[|p| - 8..])]
  }

  lemma PackStep(p: seq<Hold>, k: nat)
    requires 0 < k <= |p| <= 8
    ensures PackMsbFirst(p[..k]) == ShiftIn(PackMsbFirst(p[..k - 1]), p[k - 1])
  {
    assert p[..k][..k - 1] == p[..k - 1];
  }

  /** One packing step: shift left and put the bit a pulse length stands for (Long is 1) at bit 0. */
  function ShiftIn(x: bv8, h: Hold): bv8
  {
    (x << 1) | (if h == Long then 1 else 0)
  }

  /** Eight pulse lengths pack by eight shift-in steps, the first one ending up most significant. */
  lemma PackEight(p: seq<Hold>)
    requires |p| == 8
    ensures PackMsbFirst(p) == ShiftIn(ShiftIn(ShiftIn(ShiftIn(ShiftIn(ShiftIn(ShiftIn(ShiftIn(
      0, p[0]), p[1]), p[2]), p[3]), p[4]), p[5]), p[6]), p[7])
  {
    assert p[..0] == [];
    assert p[..8] == p;
    PackStep(p, 1);
    PackStep(p, 2);
    PackStep(p, 3);
    PackStep(p, 4);
    PackStep(p, 5);
    PackStep(p, 6);
    PackStep(p, 7);
    PackStep(p, 8);
  }

  /** Shifting in the eight bits of a byte, most significant first, rebuilds the byte. */
  lemma ShiftInByte(b: bv8)
    ensures ShiftIn(ShiftIn(ShiftIn(ShiftIn(ShiftIn(ShiftIn(ShiftIn(ShiftIn(0,
      HighHold(Bit(b, 7))), HighHold(Bit(b, 6))), HighHold(Bit(b, 5))),
      HighHold(Bit(b, 4))), HighHold(Bit(b, 3))), HighHold(Bit(b, 2))),
      HighHold(Bit(b, 1))), HighHold(Bit(b, 0))) == b
  {
  }

  /** Packing the eight pulse lengths of a byte gives the byte back. */
  lemma PackBytePulses(b: bv8)
    ensures PackMsbFirst(BytePulses(b)) == b
  {
    var p := BytePulses(b);
    PackEight(p);
    ShiftInByte(b);
    assert p[0] == HighHold(Bit(b, 7)) && p[1] == HighHold(Bit(b, 6));
    assert p[2] == HighHold(Bit(b, 5)) && p[3] == HighHold(Bit(b, 4));
    assert p[4] == HighHold(Bit(b, 3)) && p[5] == HighHold(Bit(b, 2));
    assert p[6] == HighHold(Bit(b, 1)) && p[7] == HighHold(Bit(b, 0));
  }

  lemma EightTimes(m: nat)
    ensures (8 * m) % 8 == 0
  {
  }

  /** Decoding the pulse lengths of a buffer gives the buffer back. */
  lemma {:induction false} DecodePulsesRoundTrip(data: seq<bv8>)
    ensures DecodePulses(Pulses(data)) == data
  {
    if data != [] {
      var n := |data| - 1;
      var p := Pulses(data);
      EightTimes(|data|);
      assert p[..|p| - 8] == Pulses(data[..n]);
      assert p[|p| - 8..] == BytePulses(data[n]);
      DecodePulsesRoundTrip(data[..n]);
      PackBytePulses(data[n]);
      assert DecodePulses(p) == data[..n] + [data[n]];
      assert data[..n] + [data[n]] == data;
    }
  }

  /** The byte 0b10110000 is sent as long, short, long, long, short, short, short, short. */
  lemma MsbFirstExample(addr: uint16, high: bv8, low: bv8, mask: bv8)
    requires high & mask != 0 && low & mask == 0
    ensures HighPulses(DataWrites(addr, high, low, [0xB0]), addr, mask)
      == [Long, Short, Long, Long, Short, Short, Short, Short]
  {
    HighPulsesOfDataWrites(addr, high, low, mask, [0xB0]);
    assert Pulses([0xB0]) == [] + BytePulses(0xB0);
    var p := BytePulses(0xB0);
    assert p[0] == Long && p[1] == Short && p[2] == Long && p[3] == Long;
    assert p[4] == Short && p[5] == Short && p[6] == Short && p[7] == Short;
  }

  /** The interrupt-enable flag after the events of t, starting from `flag`. */
  function InterruptFlagAfter(t: seq<Event>, flag: bool): bool
  {
    if t == [] then flag
    else
      match t[|t| - 1]
      case InterruptsDisabled => false
      case SregRestored(f) => f
      case _ => InterruptFlagAfter(t[..|t| - 1], flag)
  }

  /** Port writes do not change the interrupt flag. */
  lemma {:induction false} PortWritesKeepFlag(s: seq<Event>, t: seq<Event>, flag: bool)
    requires forall i :: 0 <= i < |t| ==> t[i].PortWrite?
    ensures InterruptFlagAfter(s + t, flag) == InterruptFlagAfter(s, flag)
  {
    if t == [] {
      assert s + t == s;
    } else {
      var n := |t| - 1;
      assert (s + t)[..|s + t| - 1] == s + t[..n];
      assert (s + t)[|s + t| - 1] == t[n];
      PortWritesKeepFlag(s, t[..n], flag);
    }
  }
}
