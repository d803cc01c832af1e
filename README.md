# WS2812B frame encoder

This is a Dafny model of the core of an AVR (Arduino Uno) driver for
WS2812B LED stripes. The stripe is driven over one GPIO pin without a
clock. Every bit is a HIGH pulse followed by a LOW tail. A 0 bit has a
short HIGH and a long LOW; a 1 bit has a long HIGH and a short LOW. Bytes
go out most significant bit first, and each pixel is sent as Green, Red,
Blue. A LOW period of at least 50 µs ends a frame.

The model covers two operations:

- `SetLedStripeState` (src/me_Ws2812b.cpp:65-98). It rejects a pixel count
  larger than `0xFFFF / sizeof(TPixel)`. Otherwise it sets the pin to
  output LOW, hands the pixel memory to the emitter, waits the latch time
  and returns the emitter's result.
- `EmitBytes` (src/me_Ws2812b.cpp:103-266). It resolves the pin to a port
  register and a one-bit mask, returning `false` if the pin is unknown. It
  returns at once for size 0. Otherwise it saves SREG, disables
  interrupts and runs the double loop written in inline assembly. That
  loop reads the port once, then for each byte and for each of its eight
  bits:
  - it writes the port value OR the mask (HIGH);
  - it shifts the bit out with `lsl`;
  - it writes the value XOR the mask (LOW).

  At the end it restores SREG.

Files:

- `ws2812b_types.dfy` (module `Ws2812bTypes`) models the header
  src/me_Ws2812b.h: `Pixel`, `LedStripeState`, and the byte layout of a
  pixel buffer (`Flatten`), with its inverse for a receiver (`Unflatten`).
- `waveform.dfy` (module `Waveform`) holds the observable events and the
  reference definitions of the protocol:
  - most-significant-bit-first order (`MsbFirst`), and the port writes a
    byte buffer must produce (`DataWrites`);
  - the HIGH pulses a receiver watching the pin sees (`HighPulses`), with
    the decoder that turns pulse lengths back into bytes (`DecodePulses`);
  - the interrupt flag that follows from a trace (`InterruptFlagAfter`).
- `ws2812b.dfy` (module `Ws2812b`) holds class `Mcu`. Its fields are the
  port registers, the SREG interrupt flag and the trace of events.
  - `SetLedStripeState` and `EmitBytes` are methods that update these
    fields.
  - The byte loop of `EmitBytes` is a `while` loop counted down by a
    wrapping 16-bit `sbiw`.
  - The bit loop is the method `EmitByte`, counted down by a wrapping
    8-bit `dec`. One pass of it is the method `EmitBit`.
  - Each method is proved against a specification function of the old
    state: `EmitEvents`, `FrameEvents` and `ByteWrites`.
- `frame_properties.dfy` (module `FrameProperties`) proves what a frame
  means:
  - the layout of its events;
  - interrupts are off during every port write and the flag is restored;
  - every write keeps the other port bits;
  - HIGH and LOW strictly alternate;
  - the pulse train decodes back to exactly the first `Length` pixels.

Timing is abstracted. Each port write carries the nominal category of the
level it sets within one bit: `Short` or `Long`. The HIGH write of a 1 bit
is `Long` and its LOW write `Short`; a 0 bit is the other way round.

Where the intended design of the driver and its code differ, the model follows the
code:

- There is only one latch delay, after transmission (src/me_Ws2812b.cpp:93-95).
  There is none before it.
- Interrupts are disabled and restored inside `EmitBytes`
  (src/me_Ws2812b.cpp:139-140, 263), and only when there is data to send
  on a resolved pin. The frame sender does not bracket the call.
- `pinMode` and `digitalWrite` run before the pin is resolved
  (src/me_Ws2812b.cpp:82-83 before :115-116). So an unknown pin still gets
  both calls and the latch delay, and the call returns `false`.

## Model

| member | source | states |
|---|---|---|
| Ws2812bTypes.Flatten | src/me_Ws2812b.h:20-25 | the pixel memory read as bytes has three bytes per pixel |
| Ws2812bTypes.FlattenAt | src/me_Ws2812b.h:14-25 | pixel i lies at byte offsets 3i, 3i+1, 3i+2, in the order Green, Red, Blue |
| Ws2812bTypes.Unflatten | src/me_Ws2812b.cpp:15-17 | a receiver groups a byte stream three bytes per colour, one pixel per group |
| Ws2812bTypes.UnflattenFlatten | src/me_Ws2812b.h:17-18 | regrouping the flattened bytes gives back the same pixels: nothing reordered or lost |
| Ws2812bTypes.FlattenPrefix | src/me_Ws2812b.cpp:86-89 | a segment at `Pixels` of size 3·Length holds exactly the bytes of the first Length pixels |
| Waveform.TopBitAfterShifts | src/me_Ws2812b.cpp:197-200 | the carry of the (n+1)-th `lsl` of a byte is its bit 7−n |
| Waveform.CarriesMsbFirst | src/me_Ws2812b.cpp:186-200 | the carries of eight `lsl`s are the byte's bits, most significant first |
| Waveform.DataWrites | src/me_Ws2812b.cpp:184-246 | a buffer produces sixteen port writes per byte |
| Waveform.DataWritesAt | src/me_Ws2812b.cpp:184-239 | write 16j+2k is the HIGH of bit 7−k of byte j (Long iff the bit is 1); write 16j+2k+1 is its LOW (Short iff the bit is 1) |
| Waveform.DataWritesLevels | src/me_Ws2812b.cpp:193-235 | every write goes to the port address; even writes store the HIGH value, odd ones the LOW value |
| Waveform.HighPulsesOfBitsWrites | src/me_Ws2812b.cpp:22-27 | at a pin the HIGH value sets and the LOW value clears, the HIGH/LOW writes of a bit sequence show one pulse per bit, Long exactly for a 1 bit |
| Waveform.Pulses | src/me_Ws2812b.cpp:19-27 | a buffer is eight pulses per byte |
| Waveform.HighPulsesOfDataWrites | src/me_Ws2812b.cpp:19-27 | at a pin the HIGH value sets and the LOW value clears, a buffer's writes show exactly the buffer's pulse lengths |
| Waveform.DecodePulses | src/me_Ws2812b.cpp:19-20 | a receiver decodes one byte per eight pulses |
| Waveform.PackBytePulses | src/me_Ws2812b.cpp:19-27 | packing a byte's eight pulse lengths, most significant first, gives the byte back |
| Waveform.DecodePulsesRoundTrip | src/me_Ws2812b.cpp:8-27 | decoding a buffer's pulse lengths gives the buffer back |
| Waveform.MsbFirstExample | src/me_Ws2812b.cpp:19-20 | byte 0xB0 is seen as long, short, long, long, then four short pulses |
| Waveform.PortWritesKeepFlag | src/me_Ws2812b.cpp:133-140 | port writes leave the interrupt flag as it was |
| Ws2812b.PinMask | src/me_Ws2812b.cpp:122 | the pin mask is never zero |
| Ws2812b.PinMaskIsShift | src/me_Ws2812b.cpp:122 | the mask is `1 << PinBit` |
| Ws2812b.PinMaskBits | src/me_Ws2812b.cpp:168-170 | the mask has the pin's bit set and every other bit clear |
| Ws2812b.PixMemSize | src/me_Ws2812b.cpp:72-79 | the count is accepted iff 3·Length fits in 16 bits; the size is then exactly 3·Length, with no wrap-around |
| Ws2812b.DoWhileRunsCount | src/me_Ws2812b.cpp:243-246 | the `sbiw`/`brne` byte loop shape runs Size times for Size > 0 and 65536 times for Size 0, so the early return at lines 125-127 is needed; the loop of `EmitBytes` carries `DoWhileRuns(size)` as its pass count in an invariant, and its invariant `dataDone <==> remainedLength == 0` holds only because of that early return |
| Ws2812b.PortLevels | src/me_Ws2812b.cpp:193-206 | OR with the mask gives the HIGH value; XOR of that gives the LOW value; from the LOW value the next pass gives the same two values |
| Ws2812b.ShiftedWritesByte | src/me_Ws2812b.cpp:188-241 | eight passes of the bit loop write the byte's bits most significant first |
| Ws2812b.Mcu.EmitBit | src/me_Ws2812b.cpp:191-239 | one pass stores the HIGH value, then the LOW value, held Long/Short for a 1 bit and Short/Long for a 0 bit; it leaves the byte shifted left and the register copy at the LOW value |
| Ws2812b.Mcu.EmitByte | src/me_Ws2812b.cpp:186-241 | the bit loop appends the byte's sixteen writes, most significant bit first; the port ends at the LOW value |
| Ws2812b.Mcu.EmitBytes | src/me_Ws2812b.cpp:103-266 | succeeds iff the pin resolves; appends nothing for an unknown pin or size 0; otherwise appends interrupts-off, the data writes and the SREG restore; the interrupt flag is unchanged; only the pin's port changes, to the LOW value |
| Ws2812b.Mcu.SetLedStripeState | src/me_Ws2812b.cpp:65-98 | succeeds iff the count is accepted and the pin resolves; the trace grows by the frame's events; interrupts and ports end as `EmitBytes` leaves them |
| FrameProperties.FrameWrites | src/me_Ws2812b.cpp:184-246 | a frame of Length pixels is 48·Length port writes |
| FrameProperties.FrameBytesLength | src/me_Ws2812b.cpp:78 | the frame's byte count is 3·Length |
| FrameProperties.FrameRejected | src/me_Ws2812b.cpp:73-76 | a count over 21845 does nothing at all: no pinMode, no write, no delay |
| FrameProperties.FrameWithoutData | src/me_Ws2812b.cpp:115-127 | an unknown pin or Length 0 gives only pinMode, digitalWrite LOW and the 50 µs delay |
| FrameProperties.FrameLayout | src/me_Ws2812b.cpp:82-95 | a non-empty frame on a known pin is pinMode, digitalWrite LOW, interrupts off, the port writes, the flag restored, then the delay |
| FrameProperties.WrittenLevel | src/me_Ws2812b.cpp:193-206 | a HIGH or LOW value keeps every non-pin bit of the port, and has the pin bit set exactly when it is HIGH |
| FrameProperties.FrameWritesPulses | src/me_Ws2812b.cpp:184-246 | the frame's port writes, seen at the pin, are the pulse lengths of its bytes |
| FrameProperties.FramePulses | src/me_Ws2812b.cpp:8-27 | the frame's HIGH pulses at the pin are exactly its bytes' pulse lengths, 24 per pixel |
| FrameProperties.FrameDecodes | src/me_Ws2812b.cpp:8-27 | decoding the pulses eight per byte and grouping the bytes three per pixel gives back the first Length pixels |
| FrameProperties.FrameInterrupts | src/me_Ws2812b.cpp:139-246 | interrupts are disabled at every port write of a frame |
| FrameProperties.FrameInterruptsRestored | src/me_Ws2812b.cpp:139-263 | after a non-empty frame the interrupt flag has its value from before the call |
| FrameProperties.FrameWriteAt | src/me_Ws2812b.cpp:193-235 | write i of a frame goes to the pin's port: the HIGH value at even i, the LOW value at odd i |
| FrameProperties.FrameWriteValues | src/me_Ws2812b.cpp:182-206 | every write goes to the pin's port and keeps the other bits of the value read at line 182 |
| FrameProperties.FramePinLevels | src/me_Ws2812b.cpp:193-235 | the pin bit is set in write i exactly when i is even: HIGH and LOW alternate, starting with HIGH |
| FrameProperties.FrameRepeatable | src/me_Ws2812b.cpp:182-206 | a frame sent from the LOW value the last frame left produces the same events as from the original value |

## Left out

- Timing: the cycle counts, the `nop` padding and the 800 kbit/s rate are not modelled. A level's duration is only `Short` or `Long`.
- The `Hold` of a LOW write is the nominal per-bit category of src/me_Ws2812b.cpp:22-27. Two LOW tails last longer than that. The last bit of each byte also runs through the `sbiw`/`brne`, the `ld` of the next byte, the `ldi` and the `or` (src/me_Ws2812b.cpp:237-246, 184-194). The last bit of the frame also lasts through the SREG restore and the latch delay (src/me_Ws2812b.cpp:263, 95). A 1 bit in either place is still labelled `Short`. That inter-byte overhead is the tolerance described at src/me_Ws2812b.cpp:35-38. HIGH holds are exact, and only HIGH holds are used by the decoding properties.
- The marker instructions (`ldi` 0xA9/0xAA), the register constraints of the asm block and the `optimize("O0")` attribute have no observable effect and are omitted.
- `me_UnoAddresses::GetPinAddress` is code outside this model. It is a constant partial map `pinTable` from pin numbers to port address and bit.
- `pinMode`, `digitalWrite` and `delayMicroseconds` are Arduino calls outside this model. They become trace events and do not change the port map. On hardware, `digitalWrite(LOW)` clears the pin's bit in its port register (src/me_Ws2812b.cpp:83). The frame's events do not depend on that bit: `FrameRepeatable` shows they are the same either way. The final port value does depend on it. For an empty frame on a resolved pin, `Mcu.SetLedStripeState` leaves the port as it was, including the old pin bit. On hardware that bit is cleared.
- SREG is reduced to its interrupt-enable flag. `SREG = OrigSreg` is modelled as restoring that flag.
- The `Pixels` pointer and `TMemorySegment` are not modelled as addresses. The pixel memory is a sequence of pixels, read as the bytes `Flatten` lays out. The post-incremented X pointer is an index into those bytes. Address wrap-around at the end of RAM is not modelled.
- The pixel memory must hold at least `Length` pixels when the count is accepted (`PixelsAvailable`). The C++ reads whatever memory follows, and the model does not represent that memory.
- Concurrency is not modelled, and neither are interrupts arriving while the flag is set. The model only tracks the flag.
- `Pixels` is not modified by a call. In the model this holds because the state is an immutable value.
