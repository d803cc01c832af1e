/**
 * What a receiver on the pin sees of one SetLedStripeState call, stated
 * over FrameEvents, the event sequence the call appends to the trace.
 */
module FrameProperties {
  import opened Ws2812bTypes
  import opened Waveform
  import opened Ws2812b

  /** The port writes of an accepted frame on a resolved pin: 16 per byte, 48 per pixel. */
  function FrameWrites(state: LedStripeState, ref: PinRef, pv: bv8): (w: seq<Event>)
    requires state.length <= MaxPixelsLength && state.length as int <= |state.pixels|
    ensures |w| == 48 * state.length as int
  {
    var mask := PinMask(ref.bit);
    DataWrites(ref.addr, HighValue(pv, mask), LowValue(pv, mask), FrameBytes(state))
  }

  /** An accepted frame has three bytes per pixel. */
  lemma FrameBytesLength(state: LedStripeState)
    requires state.length as int <= |state.pixels|
    ensures |FrameBytes(state)| == PixelSize * state.length as int
  {
    assert |state.pixels[..state.length]| == state.length as int;
  }

  /** A rejected pixel count produces nothing: no pinMode, no write, no delay. */
  lemma FrameRejected(state: LedStripeState, pin: Option<PinRef>, pv: bv8, irq: bool)
    requires PixelsAvailable(state) && state.length > MaxPixelsLength
    ensures FrameEvents(state, pin, pv, irq) == []
  {
  }

  /**
   * Without a resolved pin, or with no pixels, the frame is the pin
   * preparation and the latch delay: no port write and no interrupt change.
   */
  lemma FrameWithoutData(state: LedStripeState, pin: Option<PinRef>, pv: bv8, irq: bool)
    requires PixelsAvailable(state) && state.length <= MaxPixelsLength
    requires pin.None? || state.length == 0
    ensures FrameEvents(state, pin, pv, irq)
      == [PinModeOutput(state.pin), DigitalWriteLow(state.pin), DelayMicroseconds(LatchDurationUs)]
  {
    FrameBytesLength(state);
  }

  /**
   * A non-empty frame on a resolved pin: pin preparation, interrupts off,
   * the port writes, the interrupt flag restored, then the latch delay.
   */
  lemma FrameLayout(state: LedStripeState, ref: PinRef, pv: bv8, irq: bool)
    requires PixelsAvailable(state) && 0 < state.length <= MaxPixelsLength
    ensures FrameEvents(state, Some(ref), pv, irq)
      == [PinModeOutput(state.pin), DigitalWriteLow(state.pin), InterruptsDisabled]
        + FrameWrites(state, ref, pv)
        + [SregRestored(irq), DelayMicroseconds(LatchDurationUs)]
  {
    FrameBytesLength(state);
    var w := FrameWrites(state, ref, pv);
    var pre, post := [PinModeOutput(state.pin), DigitalWriteLow(state.pin)], [DelayMicroseconds(LatchDurationUs)];
    assert EmitEvents(FrameBytes(state), Some(ref), pv, irq) == [InterruptsDisabled] + w + [SregRestored(irq)];
    assert (pre + ([InterruptsDisabled] + w + [SregRestored(irq)])) + post
      == (pre + [InterruptsDisabled]) + w + ([SregRestored(irq)] + post);
  }

  /**
   * A value written in a pass of the bit loop, HIGH or LOW: the pin bit is
   * set exactly in the HIGH value, and every other bit is that of pv.
   */
  lemma WrittenLevel(pv: bv8, mask: bv8, v: bv8, isHigh: bool)
    requires mask != 0
    requires v == if isHigh then HighValue(pv, mask) else LowValue(pv, mask)
    ensures v & !mask == pv & !mask
    ensures v & mask != 0 <==> isHigh
  {
  }

  /** The port writes of a frame, watched at the pin, are the pulse lengths of its bytes. */
  lemma FrameWritesPulses(state: LedStripeState, ref: PinRef, pv: bv8)
    requires state.length <= MaxPixelsLength && state.length as int <= |state.pixels|
    ensures HighPulses(FrameWrites(state, ref, pv), ref.addr, PinMask(ref.bit)) == Pulses(FrameBytes(state))
  {
    var mask := PinMask(ref.bit);
    WrittenLevel(pv, mask, HighValue(pv, mask), true);
    WrittenLevel(pv, mask, LowValue(pv, mask), false);
    HighPulsesOfDataWrites(ref.addr, HighValue(pv, mask), LowValue(pv, mask), mask, FrameBytes(state));
  }

  /** Events that are not port writes carry no pulse. */
  lemma {:induction false} NoWritesNoPulses(t: seq<Event>, addr: uint16, mask: bv8)
    requires forall i :: 0 <= i < |t| ==> !t[i].PortWrite?
    ensures HighPulses(t, addr, mask) == []
  {
    if t != [] {
      NoWritesNoPulses(t[..|t| - 1], addr, mask);
    }
  }

  /**
   * The HIGH pulses on the pin are exactly the pulse lengths of the frame's
   * bytes: 24 per pixel, bits most significant first, bytes in memory order.
   */
  lemma FramePulses(state: LedStripeState, ref: PinRef, pv: bv8, irq: bool)
    requires PixelsAvailable(state) && state.length <= MaxPixelsLength
    ensures HighPulses(FrameEvents(state, Some(ref), pv, irq), ref.addr, PinMask(ref.bit)) == Pulses(FrameBytes(state))
    ensures |Pulses(FrameBytes(state))| == 24 * state.length as int
  {
    FrameBytesLength(state);
    var mask := PinMask(ref.bit);
    if state.length == 0 {
      FrameWithoutData(state, Some(ref), pv, irq);
      NoWritesNoPulses(FrameEvents(state, Some(ref), pv, irq), ref.addr, mask);
    } else {
      FrameLayout(state, ref, pv, irq);
      var pre := [PinModeOutput(state.pin), DigitalWriteLow(state.pin), InterruptsDisabled];
      var w := FrameWrites(state, ref, pv);
      var post := [SregRestored(irq), DelayMicroseconds(LatchDurationUs)];
      HighPulsesAppend(pre + w, post, ref.addr, mask);
      HighPulsesAppend(pre, w, ref.addr, mask);
      NoWritesNoPulses(pre, ref.addr, mask);
      NoWritesNoPulses(post, ref.addr, mask);
      FrameWritesPulses(state, ref, pv);
    }
  }

  /**
   * A receiver that decodes the pulse train eight pulses per byte and
   * groups the bytes three per pixel gets back the first `length` pixels.
   */
  lemma FrameDecodes(state: LedStripeState, ref: PinRef, pv: bv8, irq: bool, received: seq<Hold>)
    requires PixelsAvailable(state) && state.length <= MaxPixelsLength
    requires received == HighPulses(FrameEvents(state, Some(ref), pv, irq), ref.addr, PinMask(ref.bit))
    ensures |received| % 8 == 0 && |DecodePulses(received)| % PixelSize == 0
    ensures Unflatten(DecodePulses(received)) == state.pixels[..state.length]
  {
    FramePulses(state, ref, pv, irq);
    FrameBytesLength(state);
    EightTimes(3 * state.length as int);
    DecodePulsesRoundTrip(FrameBytes(state));
    UnflattenFlatten(state.pixels[..state.length]);
  }

  /** Port writes do not touch the interrupt flag: after a prefix of them it is what it was. */
  lemma WritesKeepFlag(s: seq<Event>, w: seq<Event>, j: nat, flag: bool)
    requires j <= |w|
    requires forall i :: 0 <= i < |w| ==> w[i].PortWrite?
    ensures InterruptFlagAfter(s + w[..j], flag) == InterruptFlagAfter(s, flag)
  {
    PortWritesKeepFlag(s, w[..j], flag);
  }

  /** Interrupts are disabled at every port write of a frame. */
  lemma FrameInterrupts(state: LedStripeState, ref: PinRef, pv: bv8, irq: bool, i: nat)
    requires PixelsAvailable(state) && 0 < state.length <= MaxPixelsLength
    requires i < |FrameEvents(state, Some(ref), pv, irq)|
    requires FrameEvents(state, Some(ref), pv, irq)[i].PortWrite?
    ensures !InterruptFlagAfter(FrameEvents(state, Some(ref), pv, irq)[..i], irq)
  {
    FrameLayout(state, ref, pv, irq);
    var evs := FrameEvents(state, Some(ref), pv, irq);
    var pre := [PinModeOutput(state.pin), DigitalWriteLow(state.pin), InterruptsDisabled];
    var w := FrameWrites(state, ref, pv);
    var post := [SregRestored(irq), DelayMicroseconds(LatchDurationUs)];
    assert evs == pre + w + post;
    assert 3 <= i < 3 + |w|;
    forall k | 0 <= k < |w|
      ensures w[k].PortWrite?
    {
      FrameWriteAt(state, ref, pv, k);
    }
    assert evs[..i] == pre + w[..i - 3];
    WritesKeepFlag(pre, w, i - 3, irq);
    assert pre[..2] + [InterruptsDisabled] == pre;
  }

  /** Once a non-empty frame is over, the interrupt flag has its value from before the call again. */
  lemma FrameInterruptsRestored(state: LedStripeState, ref: PinRef, pv: bv8, irq: bool)
    requires PixelsAvailable(state) && 0 < state.length <= MaxPixelsLength
    ensures InterruptFlagAfter(FrameEvents(state, Some(ref), pv, irq), irq) == irq
  {
    FrameLayout(state, ref, pv, irq);
    var evs := FrameEvents(state, Some(ref), pv, irq);
    var pre := [PinModeOutput(state.pin), DigitalWriteLow(state.pin), InterruptsDisabled];
    var w := FrameWrites(state, ref, pv);
    var post := [SregRestored(irq), DelayMicroseconds(LatchDurationUs)];
    assert evs == pre + w + post;
    assert evs[..|evs| - 1][..|evs| - 2] == pre + w;
    assert evs[..|evs| - 1][|evs| - 2] == SregRestored(irq);
  }

  /** Write i of a frame is the HIGH value at even positions and the LOW value at odd ones. */
  lemma FrameWriteAt(state: LedStripeState, ref: PinRef, pv: bv8, i: nat)
    requires state.length <= MaxPixelsLength && state.length as int <= |state.pixels|
    requires i < |FrameWrites(state, ref, pv)|
    ensures var w := FrameWrites(state, ref, pv)[i];
      w.PortWrite? && w.addr == ref.addr
      && w.value == if i % 2 == 0 then HighValue(pv, PinMask(ref.bit)) else LowValue(pv, PinMask(ref.bit))
  {
    var mask := PinMask(ref.bit);
    FrameBytesLength(state);
    DataWritesLevels(ref.addr, HighValue(pv, mask), LowValue(pv, mask), FrameBytes(state), i);
  }

  /**
   * Write i of a frame goes to the pin's port register and keeps every
   * other bit of the value read from it at the start.
   */
  lemma FrameWriteValues(state: LedStripeState, ref: PinRef, pv: bv8, i: nat)
    requires state.length <= MaxPixelsLength && state.length as int <= |state.pixels|
    requires i < |FrameWrites(state, ref, pv)|
    ensures var w := FrameWrites(state, ref, pv)[i];
      w.PortWrite? && w.addr == ref.addr && w.value & !PinMask(ref.bit) == pv & !PinMask(ref.bit)
  {
    FrameWriteAt(state, ref, pv, i);
    WrittenLevel(pv, PinMask(ref.bit), FrameWrites(state, ref, pv)[i].value, i % 2 == 0);
  }

  /**
   * Write i of a frame sets the pin bit exactly at the even positions: HIGH
   * and LOW strictly alternate, starting with HIGH.
   */
  lemma FramePinLevels(state: LedStripeState, ref: PinRef, pv: bv8, i: nat)
    requires state.length <= MaxPixelsLength && state.length as int <= |state.pixels|
    requires i < |FrameWrites(state, ref, pv)|
    ensures FrameWrites(state, ref, pv)[i].PortWrite?
    ensures (FrameWrites(state, ref, pv)[i].value & PinMask(ref.bit) != 0) <==> i % 2 == 0
  {
    FrameWriteAt(state, ref, pv, i);
    WrittenLevel(pv, PinMask(ref.bit), FrameWrites(state, ref, pv)[i].value, i % 2 == 0);
  }

  /**
   * After a frame the port holds the LOW value; sending the same state again
   * from there produces the same events, so a frame can be repeated.
   */
  lemma FrameRepeatable(state: LedStripeState, ref: PinRef, pv: bv8, irq: bool)
    requires PixelsAvailable(state)
    ensures FrameEvents(state, Some(ref), LowValue(pv, PinMask(ref.bit)), irq) == FrameEvents(state, Some(ref), pv, irq)
  {
    var mask := PinMask(ref.bit);
    PortLevels(pv, mask, pv | mask, (pv | mask) ^ mask);
  }
}
