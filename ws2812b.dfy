/**
 * The WS2812B frame sender and bit emitter (src/me_Ws2812b.cpp), modelled as
 * a microcontroller object whose port registers, interrupt flag and trace of
 * observable events the two operations update.
 */
module Ws2812b {
  import opened Ws2812bTypes
  import opened Waveform

  datatype Option<T> = None | Some(value: T)

  /** A bit position inside an 8-bit port register. */
  type BitNumber = b: nat | b < 8

  /** What me_UnoAddresses::GetPinAddress yields for a pin: the port register address and the pin's bit in it. */
  datatype PinRef = PinRef(addr: uint16, bit: BitNumber)

  /** MaxPixelsLength = 0xFFFF / sizeof(TPixel). */
  const MaxPixelsLength: uint16 := (0xFFFF / PixelSize) as uint16

  /** LatchDuration_us: the LOW time after a frame. */
  const LatchDurationUs: nat := 50

  /**
   * PortOrMask: the register bit of the pin as a one-bit mask, listed per
   * bit number (PinMaskIsShift shows it is `1 << PinBit`).
   */
  function PinMask(bit: BitNumber): (m: bv8)
    ensures m != 0
  {
    if bit == 0 then 0x01
    else if bit == 1 then 0x02
    else if bit == 2 then 0x04
    else if bit == 3 then 0x08
    else if bit == 4 then 0x10
    else if bit == 5 then 0x20
    else if bit == 6 then 0x40
    else 0x80
  }

  /** The mask is `1 << PinBit`. */
  lemma PinMaskIsShift(bit: BitNumber)
    ensures PinMask(bit) == 1 << bit
  {
  }

  /** The mask has the pin's bit set and every other bit clear. */
  lemma PinMaskBits(bit: BitNumber)
    ensures Bit(PinMask(bit), bit)
    ensures forall i :: 0 <= i < 8 && i != bit ==> !Bit(PinMask(bit), i)
  {
  }

  /**
   * The size computation of SetLedStripeState: None when the count is
   * rejected, otherwise `Length * sizeof(TPixel)` taken in 16 bits.
   */
  function PixMemSize(length: uint16): (r: Option<uint16>)
    ensures r.Some? <==> length as int * PixelSize <= 0xFFFF
    ensures r.Some? ==> r.value as int == length as int * PixelSize
  {
    if length > MaxPixelsLength then None
    else Some(((length as int * PixelSize) % 0x1_0000) as uint16)
  }

  /** `sbiw r, 1`: a 16-bit decrement that wraps from 0 to 0xFFFF. */
  function Sbiw1(x: uint16): uint16
  {
    if x == 0 then 0xFFFF else x - 1
  }

  /** `dec r`: an 8-bit decrement that wraps from 0 to 0xFF. */
  function Dec(x: uint8): uint8
  {
    if x == 0 then 0xFF else x - 1
  }

  /**
   * How often a body runs under "do body; decrement with sbiw; repeat while
   * not zero", starting from counter value c. This is the shape of the
   * emitter's byte loop.
   */
  function DoWhileRuns(c: uint16): nat
    decreases (c as int + 0xFFFF) % 0x1_0000
  {
    if Sbiw1(c) == 0 then 1 else 1 + DoWhileRuns(Sbiw1(c))
  }

  lemma {:induction false} DoWhileRunsPositive(c: uint16)
    requires c > 0
    ensures DoWhileRuns(c) == c as nat
  {
    if c > 1 {
      DoWhileRunsPositive(c - 1);
    }
  }

  /**
   * One more pass of the byte loop: with n passes done and counter c > 0
   * left, the passes done plus those still to come stay `total`.
   */
  lemma DoWhileRunsStep(n: nat, c: uint16, total: nat)
    requires c > 0 && n + DoWhileRuns(c) == total
    ensures n + 1 + (if Sbiw1(c) == 0 then 0 else DoWhileRuns(Sbiw1(c))) == total
  {
  }

  /**
   * The byte loop runs exactly Size times for a non-zero Size, but 65536
   * times for Size 0: the zero-size early return in EmitBytes is what keeps
   * an empty buffer from being sent as 64 KiB of memory.
   */
  lemma DoWhileRunsCount(c: uint16)
    ensures DoWhileRuns(c) == if c == 0 then 0x1_0000 else c as nat
  {
    if c == 0 {
      DoWhileRunsPositive(0xFFFF);
    } else {
      DoWhileRunsPositive(c);
    }
  }

  /** The value written to drive the pin HIGH when the port held pv: the pin bit set. */
  function HighValue(pv: bv8, mask: bv8): bv8
  {
    pv | mask
  }

  /** The value written to drive the pin LOW when the port held pv: the pin bit cleared. */
  function LowValue(pv: bv8, mask: bv8): bv8
  {
    pv & !mask
  }

  /**
   * The events EmitBytes adds for `data` on a resolved (or unresolved) pin
   * whose port register initially holds pv, with interrupt flag irq.
   */
  function EmitEvents(data: seq<bv8>, pin: Option<PinRef>, pv: bv8, irq: bool): seq<Event>
  {
    if pin.None? || data == [] then []
    else
      var mask := PinMask(pin.value.bit);
      [InterruptsDisabled]
        + DataWrites(pin.value.addr, HighValue(pv, mask), LowValue(pv, mask), data)
        + [SregRestored(irq)]
  }

  /** The pixel memory holds at least `length` pixels whenever the count is accepted. */
  predicate PixelsAvailable(state: LedStripeState)
  {
    state.length > MaxPixelsLength || state.length as int <= |state.pixels|
  }

  /** The bytes SetLedStripeState sends: the first `length` pixels, flattened. */
  function FrameBytes(state: LedStripeState): seq<bv8>
    requires state.length as int <= |state.pixels|
  {
    Flatten(state.pixels[..state.length])
  }

  /** The events SetLedStripeState adds for `state`. */
  function FrameEvents(state: LedStripeState, pin: Option<PinRef>, pv: bv8, irq: bool): seq<Event>
    requires PixelsAvailable(state)
  {
    if state.length > MaxPixelsLength then []
    else
      [PinModeOutput(state.pin), DigitalWriteLow(state.pin)]
        + EmitEvents(FrameBytes(state), pin, pv, irq)
        + [DelayMicroseconds(LatchDurationUs)]
  }

  /** XOR with the mask turns the HIGH value back into the LOW value. */
  lemma FlipToLow(pv: bv8, mask: bv8)
    ensures (pv | mask) ^ mask == pv & !mask
  {
  }

  /** From the LOW value, OR and AND-NOT with the mask give the same two levels again. */
  lemma LevelsFromLow(pv: bv8, mask: bv8)
    ensures (pv & !mask) | mask == pv | mask
    ensures (pv & !mask) & !mask == pv & !mask
  {
  }

  /**
   * The two values one pass of the bit loop stores: `high` (the port value
   * OR the mask) is the HIGH level, and `low` (high XOR the mask) is the LOW
   * level, from which the same two levels are obtained again.
   */
  lemma PortLevels(pv: bv8, mask: bv8, high: bv8, low: bv8)
    requires high == pv | mask && low == high ^ mask
    ensures high == HighValue(pv, mask) && low == LowValue(pv, mask)
    ensures HighValue(low, mask) == HighValue(pv, mask) && LowValue(low, mask) == LowValue(pv, mask)
  {
    FlipToLow(pv, mask);
    LevelsFromLow(pv, mask);
  }

  lemma BitsWritesAppend(addr: uint16, high: bv8, low: bv8, bits: seq<bool>, bit: bool)
    ensures BitsWrites(addr, high, low, bits + [bit]) == BitsWrites(addr, high, low, bits)
      + [PortWrite(addr, high, HighHold(bit)), PortWrite(addr, low, LowHold(bit))]
  {
    assert (bits + [bit])[..|bits|] == bits;
  }

  /**
   * The port writes of the first n passes of the bit loop over b, each pass
   * taking its bit from the carry of one more `lsl`.
   */
  function ShiftedWrites(addr: uint16, high: bv8, low: bv8, b: bv8, n: nat): (w: seq<Event>)
    ensures |w| == 2 * n
  {
    if n == 0 then []
    else
      var carry := ShiftLeft(b, n - 1) & 0x80 != 0;
      ShiftedWrites(addr, high, low, b, n - 1)
        + [PortWrite(addr, high, HighHold(carry)), PortWrite(addr, low, LowHold(carry))]
  }

  /** One more pass of the bit loop appends the write pair of the next carry. */
  lemma ShiftedWritesStep(addr: uint16, high: bv8, low: bv8, b: bv8, i: nat)
    ensures ShiftedWrites(addr, high, low, b, i + 1) == ShiftedWrites(addr, high, low, b, i)
      + [PortWrite(addr, high, HighHold(ShiftLeft(b, i) & 0x80 != 0)),
         PortWrite(addr, low, LowHold(ShiftLeft(b, i) & 0x80 != 0))]
  {
  }

  lemma {:induction false} ShiftedWritesCarries(addr: uint16, high: bv8, low: bv8, b: bv8, n: nat)
    ensures ShiftedWrites(addr, high, low, b, n) == BitsWrites(addr, high, low, Carries(b, n))
  {
    if n > 0 {
      ShiftedWritesCarries(addr, high, low, b, n - 1);
      BitsWritesAppend(addr, high, low, Carries(b, n - 1), ShiftLeft(b, n - 1) & 0x80 != 0);
    }
  }

  /**
   * Eight passes of the bit loop write the byte most significant bit first.
   * The count is a parameter fixed to 8 so that `ShiftedWrites` is not
   * unrolled eight times wherever the lemma is used.
   */
  lemma ShiftedWritesByte(addr: uint16, high: bv8, low: bv8, b: bv8, n: nat)
    requires n == 8
    ensures ShiftedWrites(addr, high, low, b, n) == ByteWrites(addr, high, low, b)
  {
    ShiftedWritesCarries(addr, high, low, b, n);
    CarriesMsbFirst(b, n);
  }

  lemma DataWritesSnoc(addr: uint16, high: bv8, low: bv8, data: seq<bv8>, n: nat)
    requires n < |data|
    ensures DataWrites(addr, high, low, data[..n + 1])
      == DataWrites(addr, high, low, data[..n]) + ByteWrites(addr, high, low, data[n])
  {
    assert data[..n + 1][..n] == data[..n];
  }

  lemma Associative<T>(a: seq<T>, b: seq<T>, c: seq<T>)
    ensures (a + b) + c == a + (b + c)
  {
  }

  lemma AppendFour<T>(a: seq<T>, b: seq<T>, c: seq<T>, d: seq<T>)
    ensures ((a + b) + c) + d == a + ((b + c) + d)
  {
  }

  lemma StoreTwice(m: map<uint16, bv8>, a: uint16, x: bv8, y: bv8)
    ensures m[a := x][a := y] == m[a := y]
  {
  }

  /** The microcontroller as the driver sees it. */
  class Mcu {
    /** me_UnoAddresses::GetPinAddress as a partial function: the pins it resolves and their port bits. */
    const pinTable: map<uint8, PinRef>
    /** The memory-mapped port registers. */
    var ports: map<uint16, bv8>
    /** The interrupt-enable flag of SREG. */
    var interruptsEnabled: bool
    /** Everything observable the driver has done, in order. */
    var trace: seq<Event>

    ghost predicate Valid()
      reads this
    {
      forall p :: p in pinTable ==> pinTable[p].addr in ports
    }

    constructor (pinTable: map<uint8, PinRef>, ports: map<uint16, bv8>, interruptsEnabled: bool)
      requires forall p :: p in pinTable ==> pinTable[p].addr in ports
      ensures Valid()
      ensures this.pinTable == pinTable && this.ports == ports
      ensures this.interruptsEnabled == interruptsEnabled && trace == []
    {
      this.pinTable := pinTable;
      this.ports := ports;
      this.interruptsEnabled := interruptsEnabled;
      trace := [];
    }

    function GetPinAddress(pin: uint8): Option<PinRef>
    {
      if pin in pinTable then Some(pinTable[pin]) else None
    }

    /** The value of the port register of `pin`, when the pin resolves. */
    function PortValue(pin: uint8): bv8
      reads this
    {
      if pin in pinTable && pinTable[pin].addr in ports then ports[pinTable[pin].addr] else 0
    }

    /**
     * EmitBytes: send the first `size` bytes of `memory` on `pin`.
     * Fails, touching nothing, when the pin does not resolve; does nothing
     * more for size 0; otherwise disables interrupts, emits every byte MSB
     * first as HIGH/LOW port writes, and restores the interrupt flag.
     */
    method EmitBytes(memory: seq<bv8>, size: uint16, pin: uint8) returns (ok: bool)
      requires Valid()
      requires size as int <= |memory|
      modifies this
      ensures Valid()
      ensures ok <==> pin in pinTable
      ensures interruptsEnabled == old(interruptsEnabled)
      ensures trace == old(trace)
        + EmitEvents(memory[..size], GetPinAddress(pin), old(PortValue(pin)), old(interruptsEnabled))
      ensures ports == if ok && size > 0
        then old(ports)[pinTable[pin].addr := LowValue(old(PortValue(pin)), PinMask(pinTable[pin].bit))]
        else old(ports)
    {
      var pinRef := GetPinAddress(pin);
      if pinRef.None? {
        return false;
      }
      var portAddress := pinRef.value.addr;
      var portOrMask := PinMask(pinRef.value.bit);

      if size == 0 {
        return true;
      }

      ghost var tOld := trace;
      var origSreg := interruptsEnabled;
      interruptsEnabled := false;
      trace := trace + [InterruptsDisabled];

      var portValue := ports[portAddress];
      ghost var pv0, high, low := portValue, HighValue(portValue, portOrMask), LowValue(portValue, portOrMask);
      ghost var t0, ports0 := trace, ports;

      var remainedLength := size;
      var next := 0;  // the post-incremented byte pointer, as an index into memory
      var dataDone := false;
      while !dataDone
        invariant 0 <= next <= size as int && next + remainedLength as int == size as int
        invariant dataDone <==> remainedLength == 0
        invariant next + (if dataDone then 0 else DoWhileRuns(remainedLength)) == DoWhileRuns(size)
        invariant HighValue(portValue, portOrMask) == high && LowValue(portValue, portOrMask) == low
        invariant next == 0 ==> ports == ports0
        invariant next > 0 ==> portValue == low && ports == ports0[portAddress := low]
        invariant !interruptsEnabled
        invariant trace == t0 + DataWrites(portAddress, high, low, memory[..next])
        decreases remainedLength
      {
        var dataByte := memory[next];
        next := next + 1;
        DataWritesSnoc(portAddress, high, low, memory, next - 1);
        StoreTwice(ports0, portAddress, low, low);
        ghost var before := trace;
        portValue := EmitByte(dataByte, portAddress, portOrMask, portValue);
        Associative(t0, DataWrites(portAddress, high, low, memory[..next - 1]), ByteWrites(portAddress, high, low, dataByte));
        DoWhileRunsStep(next - 1, remainedLength, DoWhileRuns(size));
        remainedLength := Sbiw1(remainedLength);
        dataDone := remainedLength == 0;
      }
      // The byte loop ran DoWhileRuns(size) times, which is size since size > 0
      assert next == DoWhileRuns(size);
      ghost var writes := DataWrites(portAddress, high, low, memory[..size]);
      assert trace == (tOld + [InterruptsDisabled]) + writes;
      interruptsEnabled := origSreg;
      trace := trace + [SregRestored(origSreg)];
      assert EmitEvents(memory[..size], pinRef, pv0, origSreg)
        == ([InterruptsDisabled] + writes) + [SregRestored(origSreg)];
      AppendFour(tOld, [InterruptsDisabled], writes, [SregRestored(origSreg)]);
      return true;
    }

    /**
     * One pass of the bit loop of EmitBytes (BitLoop_Start to the `dec`):
     * drive the pin HIGH, shift the next data bit out with `lsl`, hold HIGH
     * short for a 0 bit (IsZero) or long for a 1 bit (IsOne), drive the pin
     * LOW. `portValue` is the copy of the port register kept in a CPU
     * register; the results are the shifted data byte and that copy.
     */
    method EmitBit(dataByte: bv8, portAddress: uint16, portOrMask: bv8, portValue: bv8)
      returns (newDataByte: bv8, newPortValue: bv8)
      modifies this`ports, this`trace
      ensures newDataByte == dataByte << 1
      ensures newPortValue == LowValue(portValue, portOrMask)
      ensures HighValue(newPortValue, portOrMask) == HighValue(portValue, portOrMask)
      ensures LowValue(newPortValue, portOrMask) == LowValue(portValue, portOrMask)
      ensures ports == old(ports)[portAddress := newPortValue]
      ensures trace == old(trace) + [
        PortWrite(portAddress, HighValue(portValue, portOrMask), HighHold(dataByte & 0x80 != 0)),
        PortWrite(portAddress, LowValue(portValue, portOrMask), LowHold(dataByte & 0x80 != 0))]
    {
      // Output HIGH
      var high := portValue | portOrMask;
      ports := ports[portAddress := high];
      // Extract the next data bit: lsl moves bit 7 into carry
      var carry := dataByte & 0x80 != 0;
      newDataByte := dataByte << 1;
      // brcs: a 1 bit holds HIGH long (IsOne), a 0 bit short (IsZero)
      var highHold, lowHold := Short, Long;
      if carry {
        highHold, lowHold := Long, Short;
      }
      // Flip to LOW
      var value := high ^ portOrMask;
      PortLevels(portValue, portOrMask, high, value);
      StoreTwice(ports, portAddress, high, value);
      ports := ports[portAddress := value];
      // The two stores of this pass, with how long each level is held
      trace := trace + [PortWrite(portAddress, high, highHold), PortWrite(portAddress, value, lowHold)];
      newPortValue := value;
    }

    /**
     * The bit loop of EmitBytes for one data byte (BitLoop_Start to
     * BitLoop_End): eight HIGH/LOW store pairs to the port register, most
     * significant bit first, counted down by `dec` until zero.
     */
    method EmitByte(dataByte: bv8, portAddress: uint16, portOrMask: bv8, portValue: bv8) returns (newPortValue: bv8)
      modifies this`ports, this`trace
      ensures newPortValue == LowValue(portValue, portOrMask)
      ensures HighValue(newPortValue, portOrMask) == HighValue(portValue, portOrMask)
      ensures LowValue(newPortValue, portOrMask) == LowValue(portValue, portOrMask)
      ensures ports == old(ports)[portAddress := newPortValue]
      ensures trace == old(trace) + ByteWrites(portAddress,
        HighValue(portValue, portOrMask), LowValue(portValue, portOrMask), dataByte)
    {
      ghost var high, low := HighValue(portValue, portOrMask), LowValue(portValue, portOrMask);
      ghost var t1, ports1 := trace, ports;
      ghost var i: nat := 0;  // bits sent so far

      var data := dataByte;
      var value := portValue;
      var bitCounter: uint8 := 8;
      var bitsDone := false;
      while !bitsDone
        invariant 0 <= bitCounter <= 8 && i == 8 - bitCounter as int
        invariant bitsDone <==> bitCounter == 0
        invariant data == ShiftLeft(dataByte, i)
        invariant HighValue(value, portOrMask) == high && LowValue(value, portOrMask) == low
        invariant i == 0 ==> ports == ports1
        invariant i > 0 ==> value == low && ports == ports1[portAddress := low]
        invariant trace == t1 + ShiftedWrites(portAddress, high, low, dataByte, i)
        decreases bitCounter
      {
        ghost var carry := ShiftLeft(dataByte, i) & 0x80 != 0;
        ghost var pair := [PortWrite(portAddress, high, HighHold(carry)), PortWrite(portAddress, low, LowHold(carry))];
        ShiftedWritesStep(portAddress, high, low, dataByte, i);
        ShiftLeftStep(dataByte, i);
        Associative(t1, ShiftedWrites(portAddress, high, low, dataByte, i), pair);
        ghost var traceBefore := trace;
        ghost var portsBefore := ports;
        data, value := EmitBit(data, portAddress, portOrMask, value);
        assert trace == traceBefore + pair;
        assert ports == portsBefore[portAddress := low];
        if i > 0 {
          StoreTwice(ports1, portAddress, low, low);
        }
        i := i + 1;
        bitCounter := Dec(bitCounter);
        bitsDone := bitCounter == 0;
      }
      ShiftedWritesByte(portAddress, high, low, dataByte, i);
      newPortValue := value;
    }

    /**
     * SetLedStripeState: reject a pixel count whose byte size does not fit
     * 16 bits; otherwise set the pin to output LOW, emit the pixel bytes,
     * wait the latch time and report the emitter's result.
     */
    method SetLedStripeState(state: LedStripeState) returns (ok: bool)
      requires Valid()
      requires PixelsAvailable(state)
      modifies this
      ensures Valid()
      ensures ok <==> state.length <= MaxPixelsLength && state.pin in pinTable
      ensures interruptsEnabled == old(interruptsEnabled)
      ensures trace == old(trace)
        + FrameEvents(state, GetPinAddress(state.pin), old(PortValue(state.pin)), old(interruptsEnabled))
      ensures ports == if ok && state.length > 0
        then old(ports)[pinTable[state.pin].addr :=
          LowValue(old(PortValue(state.pin)), PinMask(pinTable[state.pin].bit))]
        else old(ports)
    {
      var pixMemSize := PixMemSize(state.length);
      if pixMemSize.None? {
        return false;
      }

      ghost var t0, irq := trace, interruptsEnabled;
      ghost var pinRef, pv := GetPinAddress(state.pin), PortValue(state.pin);
      trace := trace + [PinModeOutput(state.pin), DigitalWriteLow(state.pin)];

      // The pixel memory seen as a memory segment of bytes
      var memory := Flatten(state.pixels);
      FlattenPrefix(state.pixels, state.length as nat);
      assert memory[..pixMemSize.value] == FrameBytes(state);
      ok := EmitBytes(memory, pixMemSize.value, state.pin);
      ghost var emitted := EmitEvents(FrameBytes(state), pinRef, pv, irq);
      assert trace == (t0 + [PinModeOutput(state.pin), DigitalWriteLow(state.pin)]) + emitted;

      trace := trace + [DelayMicroseconds(LatchDurationUs)];
      AppendFour(t0, [PinModeOutput(state.pin), DigitalWriteLow(state.pin)], emitted, [DelayMicroseconds(LatchDurationUs)]);
    }
  }
}
