# nrf24l01plus driver model

A Dafny model of the header-only C++ driver for the Nordic nRF24L01+ 2.4 GHz
transceiver. Two classes are modelled: the driver class `nrf24l01plus` and the
5-byte pipe address value `address`.

The driver talks to the chip over SPI. Every command is one chip-select
transaction. The command word goes first, and STATUS is clocked back alongside
it. Then come `n` data bytes, LSByte first on request (section 8.3.1 of the
nRF24L01+ Product Specification). On top of this framing the driver has:

- register reads and writes;
- a small operating-mode state machine (NONE, PTX, PRX) that drives the CE pin;
- register accessors: per-pipe bit read-modify-writes, all-pipe masks,
  channel, payload width and retransmit packing, and pipe and TX addresses.

Modules:

- `Definitions`: register addresses, CONFIG bits and instruction words, with
  `byte = bv8`.
- `Addresses`: the `address` class as a datatype over exactly five bytes. The
  array and base-plus-end constructors and full equality are methods with the
  source's loops. `operator!=(address)` is a method too, because it calls the
  full equality. The other two constructors and the byte comparisons are
  functions.
- `Hardware`: the collaborators the driver calls but does not contain.
  - `Board` stands for the SPI bus, the CE pin and `hwlib::wait_us`.
  - A mock chip sits behind the bus: a register file from register number to
    bytes, held in wire order, plus a STATUS byte.
  - Everything the driver does is appended to a ghost trace of `Acquire`,
    `Exchange(out, in)`, `Release`, `CeWrite(level)`, `CeFlush` and
    `Wait(us)` events.
- `Framing`: `register_bytes`, and `Command`, the outcome of one
  `send_command`: events, bytes read and the new register file. Also lemmas on
  register reads and writes.
- `DriverSpec`: what each accessor and the mode state machine do, as functions
  of the state before the call, with the properties the driver promises.
- `Transceiver`: class `Nrf24l01plus` with the fields `currentMode` and
  `lastStatus` and one method per driver operation. Each method is proved to
  leave the board exactly as the matching `Framing`/`DriverSpec` function
  says.
  - `Performed(o)` bundles what every plain command guarantees: the trace grows
    by `o`'s events; the register file becomes `o`'s; CE and STATUS are
    untouched; the mode is unchanged; `lastStatus` is the STATUS sent back for
    the command word.

## Model

| member | source | states |
|---|---|---|
| Addresses.FromArray | include/nrf24l01plus/address.hpp:37-41 | the address holds exactly the first five bytes of the buffer, in order |
| Addresses.Zero | include/nrf24l01plus/address.hpp:46-48 | all five bytes of the empty address are zero |
| Addresses.Of | include/nrf24l01plus/address.hpp:58-59 | byte k of the address is the k-th argument |
| Addresses.Derived | include/nrf24l01plus/address.hpp:68-73 | bytes 0..3 are the base's bytes 0..3 and byte 4 is `end` |
| Addresses.FromBase | include/nrf24l01plus/address.hpp:68-73 | the element-by-element loop builds exactly `Derived(base, end)` |
| Addresses.Equals | include/nrf24l01plus/address.hpp:80-88 | the early-exit loop returns true iff all five bytes are pairwise equal |
| Addresses.SameBytesIsEquality | include/nrf24l01plus/address.hpp:80-88 | bytewise equality of addresses is exactly value equality |
| Addresses.SameBytesReflexive | include/nrf24l01plus/address.hpp:80-88 | every address equals itself |
| Addresses.SameBytesSymmetric | include/nrf24l01plus/address.hpp:80-88 | address equality is symmetric |
| Addresses.SameBytesTransitive | include/nrf24l01plus/address.hpp:80-88 | address equality is transitive |
| Addresses.EqualsByte | include/nrf24l01plus/address.hpp:97-99 | `a == x` holds iff replacing the fifth byte of `a` by `x` leaves `a` unchanged, i.e. iff byte 4 is `x` |
| Addresses.EqualsByteOnlyFifth | include/nrf24l01plus/address.hpp:97-99 | byte comparison ignores bytes 0..3: two addresses with the same fifth byte compare alike |
| Addresses.NotEqualsByte | include/nrf24l01plus/address.hpp:108-110 | `a != x` holds iff byte 4 of `a` differs from `x` |
| Addresses.NotEquals | include/nrf24l01plus/address.hpp:119-121 | `a != b`, computed as `!(b == a)`, holds iff some byte differs |
| Addresses.DerivedEqualsEnd | include/nrf24l01plus/address.hpp:68-99 | `address(base, end) == end` always holds and `!=` never does |
| Addresses.DerivedSamePrefix | include/nrf24l01plus/address.hpp:68-73 | two addresses derived from one base are equal iff their fifth bytes are |
| Hardware.WireInvolution | include/nrf24l01plus/nrf24l01plus.hpp:98-102 | the LSByte-first byte order undoes itself |
| Framing.RegisterBytes | include/nrf24l01plus/nrf24l01plus.hpp:49-55 | the width is 5 iff the register is RX_ADDR_P0, RX_ADDR_P1 or TX_ADDR, and 1 otherwise |
| Framing.CommandIsOneTransaction | include/nrf24l01plus/nrf24l01plus.hpp:91-97 | a command is one Acquire…Release transaction of exchanges only; the first exchange is the command word alone, answered by STATUS; it has exactly one more exchange iff `n > 0` |
| Framing.CommandDataBytes | include/nrf24l01plus/nrf24l01plus.hpp:98-102 | the data exchange clocks exactly `n` bytes, reversed iff LSByte first, in both directions; it carries no output iff no buffer was given |
| Framing.ReadReturnsStored | include/nrf24l01plus/nrf24l01plus.hpp:130-132 | opcode `0x00 \| a` with `register_bytes(a)` bytes returns the register's bytes in the requested order and changes no register |
| Framing.WriteStores | include/nrf24l01plus/nrf24l01plus.hpp:157-159 | opcode `0x20 \| a` with `register_bytes(a)` bytes stores the data, in wire order, in register `a` and no other |
| Framing.ReadByteEffect | include/nrf24l01plus/nrf24l01plus.hpp:130-132 | reading a one-byte register is four events answered with its value, and changes nothing |
| Framing.WriteByteEffect | include/nrf24l01plus/nrf24l01plus.hpp:182-184 | writing a one-byte register is four events, and only that register changes |
| Framing.WriteThenReadSameOrder | include/nrf24l01plus/nrf24l01plus.hpp:130-159 | a register read back in the byte order it was written in returns what was written |
| Framing.WriteThenReadOtherOrder | include/nrf24l01plus/nrf24l01plus.hpp:130-159 | read back in the other byte order it returns the written bytes reversed |
| DriverSpec.SetBit | include/nrf24l01plus/nrf24l01plus.hpp:419-428 | `\|= 1 << k` / `&= ~(1 << k)` sets bit k to the requested value and keeps every other bit |
| DriverSpec.ReadModifyWriteEffect | include/nrf24l01plus/nrf24l01plus.hpp:419-428 | a read-modify-write is one read transaction then one write of `f(value read)`; only that register changes |
| DriverSpec.PipeBitOnlyTargetChanges | include/nrf24l01plus/nrf24l01plus.hpp:419-453 | the per-pipe accessors set bit `pipe` as requested, keep the register's other bits, and keep every other register |
| DriverSpec.PowerUp | include/nrf24l01plus/nrf24l01plus.hpp:297-298 | `\| CONFIG_PWR_UP` sets bit 1 and only bit 1 |
| DriverSpec.PowerDown | include/nrf24l01plus/nrf24l01plus.hpp:299-300 | `& ~CONFIG_PWR_UP` clears bit 1 and only bit 1 |
| DriverSpec.PowerOnlyChangesPwrUp | include/nrf24l01plus/nrf24l01plus.hpp:294-303 | after `power(v)` PWR_UP equals `v`; the other CONFIG bits and every other register are as before |
| DriverSpec.RetransmitByte | include/nrf24l01plus/nrf24l01plus.hpp:199-201 | for a count below 16 the byte is `delay * 16 + count` mod 256; the low nibble is always the count's; 0,0 gives 0 |
| DriverSpec.ChannelByte | include/nrf24l01plus/nrf24l01plus.hpp:208-210 | the RF_CH byte has bit 4 cleared and every other bit of the channel kept |
| DriverSpec.ChannelMaskAltersValidChannels | include/nrf24l01plus/nrf24l01plus.hpp:208-210 | valid channels 16, 84 and 125 reach the chip as 0, 68 and 109 |
| DriverSpec.ChannelByteIntended | include/nrf24l01plus/nrf24l01plus.hpp:208-210 | the intended 7-bit mask passes every channel up to 127 unchanged |
| DriverSpec.PayloadWidthByte | include/nrf24l01plus/nrf24l01plus.hpp:508-510 | the width byte is at most 0x3F, equals the width mod 64, and equals the width when it fits |
| DriverSpec.AllPipes | include/nrf24l01plus/nrf24l01plus.hpp:434-436 | the all-pipes byte has all six pipe bits set, or none, and the top two bits clear |
| DriverSpec.ClearPrimRx | include/nrf24l01plus/nrf24l01plus.hpp:269 | `& ~CONFIG_PRIM_RX` clears bit 0 and keeps the other bits |
| DriverSpec.SetPrimRx | include/nrf24l01plus/nrf24l01plus.hpp:274 | `\| CONFIG_PRIM_RX` sets bit 0 and keeps the other bits |
| DriverSpec.ModeSameIsNoOp | include/nrf24l01plus/nrf24l01plus.hpp:251-254 | setting the current mode again causes no event and changes no register |
| DriverSpec.ModeLeavingActiveSettlesFirst | include/nrf24l01plus/nrf24l01plus.hpp:255-262 | leaving PTX or PRX starts with CE low, a flush and 130 us, before any bus transaction |
| DriverSpec.ModeFromInactiveNoSettle | include/nrf24l01plus/nrf24l01plus.hpp:255-283 | from any other mode the only CE events are those raising CE on entry to PRX |
| DriverSpec.ModeEnterPtx | include/nrf24l01plus/nrf24l01plus.hpp:266-270 | entering PTX is one CONFIG read, then one write of that value with PRIM_RX cleared; CE is never raised |
| DriverSpec.ModeEnterPrx | include/nrf24l01plus/nrf24l01plus.hpp:272-278 | entering PRX writes CONFIG with PRIM_RX set, and only then raises CE, flushes and waits 130 us |
| DriverSpec.ModeOtherTouchesNoRegister | include/nrf24l01plus/nrf24l01plus.hpp:280-283 | any mode value other than 1 and 2 causes no bus transaction and changes no register |
| DriverSpec.WidthRegister | include/nrf24l01plus/nrf24l01plus.hpp:509 | pipe p's width register is 0x11 + p, a one-byte register |
| DriverSpec.WidthWritesEffect | include/nrf24l01plus/nrf24l01plus.hpp:517-521 | after the loop's first `count` iterations, the width registers of pipes 0..count-1 hold `w & 0x3F` and no other register changed; the events are the one-byte writes to 0x11, 0x12, … in pipe order |
| DriverSpec.WidthWritesEvents | include/nrf24l01plus/nrf24l01plus.hpp:517-521 | whatever the register file, the loop's events are the per-pipe writes one after another, pipe 0 first |
| DriverSpec.WidthEventsPerPipe | include/nrf24l01plus/nrf24l01plus.hpp:517-521 | in those events, events 4p..4p+3 are the one-byte write of `w & 0x3F` to pipe p's width register |
| DriverSpec.RxAddressRoundTripFullPipes | include/nrf24l01plus/nrf24l01plus.hpp:471-499 | pipes 0 and 1 read back exactly the address written |
| DriverSpec.RxAddressRoundTripSharedPipes | include/nrf24l01plus/nrf24l01plus.hpp:471-499 | pipes 2-5 read back the written fifth byte behind RX_ADDR_P1's stored first four bytes |
| DriverSpec.SharedPipePrefixReversed | include/nrf24l01plus/nrf24l01plus.hpp:471-478 | after setting pipe 1 to `base`, a shared pipe reads back `base`'s bytes reversed as its prefix |
| DriverSpec.SharedPipePrefixCounterexample | include/nrf24l01plus/nrf24l01plus.hpp:471-478 | pipe 1 = 01 02 03 04 05 and pipe 2 = ..09 read back as 05 04 03 02 09, not 01 02 03 04 09 |
| DriverSpec.Pipe3Example | include/nrf24l01plus/nrf24l01plus.hpp:471-478 | pipe 1 = C2 C2 C2 C2 C2 and pipe 3 = C4 read back as C2 C2 C2 C2 C4 |
| DriverSpec.SharedPipeRoundTripLsbFirst | include/nrf24l01plus/nrf24l01plus.hpp:471-478 | read LSByte first, a shared pipe returns pipe 1's address with its own fifth byte |
| DriverSpec.TxAddressComesBackReversed | include/nrf24l01plus/nrf24l01plus.hpp:217-230 | `tx_get_address` after `tx_set_address(a)` returns `a` reversed (01..05 comes back as 05..01) |
| DriverSpec.TxAddressRoundTripLsbFirst | include/nrf24l01plus/nrf24l01plus.hpp:217-230 | read LSByte first, the TX address comes back as written |
| Transceiver.Nrf24l01plus.constructor | include/nrf24l01plus/nrf24l01plus.hpp:75-77 | a new driver is in mode NONE with `last_status` 0 and the chip deselected |
| Transceiver.Nrf24l01plus.SendCommand | include/nrf24l01plus/nrf24l01plus.hpp:91-103 | the bus sees exactly `Command(...)`, `lastStatus` is the STATUS byte, the data read is returned, CE is untouched |
| Transceiver.Nrf24l01plus.OpenCommand | include/nrf24l01plus/nrf24l01plus.hpp:93-94 | the transaction is open, the command word was exchanged alone, and STATUS is kept in `lastStatus` |
| Transceiver.Nrf24l01plus.ExchangeData | include/nrf24l01plus/nrf24l01plus.hpp:98-102 | one exchange of `n` bytes, reversed iff LSByte first, inside the open transaction |
| Transceiver.Nrf24l01plus.ReadRegister | include/nrf24l01plus/nrf24l01plus.hpp:130-132 | one command `0x00 \| a`, no output bytes, `register_bytes(a)` bytes back |
| Transceiver.Nrf24l01plus.WriteRegister | include/nrf24l01plus/nrf24l01plus.hpp:157-159 | one command `0x20 \| a` with `register_bytes(a)` data bytes and no input buffer |
| Transceiver.Nrf24l01plus.WriteRegisterByte | include/nrf24l01plus/nrf24l01plus.hpp:182-184 | one write of the single byte to a one-byte register |
| Transceiver.Nrf24l01plus.UpdateRegister | include/nrf24l01plus/nrf24l01plus.hpp:419-428 | the read-then-write shape shared by the bit accessors performs exactly `ReadModifyWrite` |
| Transceiver.Nrf24l01plus.NoOperation | include/nrf24l01plus/nrf24l01plus.hpp:189-191 | the NOP word alone, refreshing `lastStatus`, with no register changed |
| Transceiver.Nrf24l01plus.Mode | include/nrf24l01plus/nrf24l01plus.hpp:251-288 | afterwards `currentMode == get_mode() == newMode`; the same mode leaves the board and `lastStatus` untouched; otherwise the trace and registers are `ModeSteps`, STATUS is cached only for PTX/PRX, and CE ends high for PRX, low when leaving PTX/PRX, else as it was |
| Transceiver.Nrf24l01plus.ChangeMode | include/nrf24l01plus/nrf24l01plus.hpp:255-283 | the mode ends as `newMode`; the trace and registers are exactly `ModeSteps`: CE settling, then the register work |
| Transceiver.Nrf24l01plus.LeaveActive | include/nrf24l01plus/nrf24l01plus.hpp:257-262 | requires the new mode to be recorded already (line 257 comes first); CE low, flushed and 130 us exactly when the old mode was PTX or PRX |
| Transceiver.Nrf24l01plus.EnterMode | include/nrf24l01plus/nrf24l01plus.hpp:266-283 | requires the new mode to be recorded already; the switch on the new mode performs exactly `ModeWork` |
| Transceiver.Nrf24l01plus.EnterTransmit | include/nrf24l01plus/nrf24l01plus.hpp:267-270 | CONFIG read, then written with PRIM_RX cleared; CE untouched |
| Transceiver.Nrf24l01plus.EnterReceive | include/nrf24l01plus/nrf24l01plus.hpp:272-278 | CONFIG read and written with PRIM_RX set, then CE high, flushed, 130 us |
| Transceiver.Nrf24l01plus.PulseCe | include/nrf24l01plus/nrf24l01plus.hpp:259-261 | CE written, flushed to the pin, then a 130 us wait |
| Transceiver.Nrf24l01plus.Power | include/nrf24l01plus/nrf24l01plus.hpp:294-303 | one read-modify-write of CONFIG with PWR_UP set or cleared |
| Transceiver.Nrf24l01plus.AutoRetransmit | include/nrf24l01plus/nrf24l01plus.hpp:199-201 | one write of `(delay << 4 \| count)` mod 256 to SETUP_RETR, and only SETUP_RETR changes |
| Transceiver.Nrf24l01plus.Channel | include/nrf24l01plus/nrf24l01plus.hpp:208-210 | one write of `c & 0xEF` to RF_CH, without a read |
| Transceiver.Nrf24l01plus.ChannelIntended | include/nrf24l01plus/nrf24l01plus.hpp:208-210 | corrected: one write of `c & 0x7F` to RF_CH |
| Transceiver.Nrf24l01plus.FifoStatus | include/nrf24l01plus/nrf24l01plus.hpp:310-314 | returns FIFO_STATUS as stored, changing no register |
| Transceiver.Nrf24l01plus.RxPayloadWidth | include/nrf24l01plus/nrf24l01plus.hpp:322-326 | R_RX_PL_WID with one data byte, which is returned |
| Transceiver.Nrf24l01plus.RxReadPayload | include/nrf24l01plus/nrf24l01plus.hpp:338-340 | R_RX_PAYLOAD with `payload_width` bytes back (32 by default) |
| Transceiver.Nrf24l01plus.RxFlush | include/nrf24l01plus/nrf24l01plus.hpp:357-359 | the FLUSH_RX word alone, no register changed |
| Transceiver.Nrf24l01plus.TxSendPayload | include/nrf24l01plus/nrf24l01plus.hpp:366-370 | CE high, 10 us, CE low, with no flush, so the pin itself is not driven |
| Transceiver.Nrf24l01plus.TxWritePayload | include/nrf24l01plus/nrf24l01plus.hpp:381-389 | W_TX_PAYLOAD_NO_ACK (0xB0) iff `noack`, else W_TX_PAYLOAD (0xA0), with `size` bytes, then the CE pulse |
| Transceiver.Nrf24l01plus.TxFlush | include/nrf24l01plus/nrf24l01plus.hpp:408-410 | the FLUSH_TX word alone, no register changed |
| Transceiver.Nrf24l01plus.RxAutoAcknowledgement | include/nrf24l01plus/nrf24l01plus.hpp:419-428 | read-modify-write of EN_AA setting bit `pipe` to `value` |
| Transceiver.Nrf24l01plus.RxAutoAcknowledgementAll | include/nrf24l01plus/nrf24l01plus.hpp:434-436 | one write of 0x3F or 0x00 to EN_AA, without a read |
| Transceiver.Nrf24l01plus.RxEnabled | include/nrf24l01plus/nrf24l01plus.hpp:444-453 | read-modify-write of EN_RXADDR setting bit `pipe` to `value` |
| Transceiver.Nrf24l01plus.RxEnabledAll | include/nrf24l01plus/nrf24l01plus.hpp:460-462 | one write of 0x3F or 0x00 to EN_RXADDR, without a read |
| Transceiver.Nrf24l01plus.RxSetPayloadWidth | include/nrf24l01plus/nrf24l01plus.hpp:508-510 | one write of `w & 0x3F` to register 0x11 + pipe |
| Transceiver.Nrf24l01plus.RxSetPayloadWidthAll | include/nrf24l01plus/nrf24l01plus.hpp:517-521 | the loop performs the per-pipe write for pipes 0 to 5, in that order (`WidthWrites`) |
| Transceiver.Nrf24l01plus.RxGetPayloadWidth | include/nrf24l01plus/nrf24l01plus.hpp:530-534 | returns register 0x11 + pipe as stored |
| Transceiver.Nrf24l01plus.RxSetDynamicPayloadLength | include/nrf24l01plus/nrf24l01plus.hpp:542-551 | read-modify-write of DYNPD setting bit `pipe` to `enabled` |
| Transceiver.Nrf24l01plus.RxSetDynamicPayloadLengthAll | include/nrf24l01plus/nrf24l01plus.hpp:558-560 | one write of 0x3F or 0x00 to DYNPD, without a read |
| Transceiver.Nrf24l01plus.TxSetAddress | include/nrf24l01plus/nrf24l01plus.hpp:217-219 | TX_ADDR written LSByte first: it holds the address reversed |
| Transceiver.Nrf24l01plus.TxGetAddress | include/nrf24l01plus/nrf24l01plus.hpp:226-230 | TX_ADDR read in wire order, not reversed |
| Transceiver.Nrf24l01plus.TxGetAddressLsbFirst | include/nrf24l01plus/nrf24l01plus.hpp:226-230 | corrected: TX_ADDR read LSByte first |
| Transceiver.Nrf24l01plus.RxGetAddress | include/nrf24l01plus/nrf24l01plus.hpp:471-484 | pipes 0/1: one 5-byte read, LSByte first; pipes 2-5: RX_ADDR_P1 read in wire order, then the pipe's byte, combined as base + end; no register changes |
| Transceiver.Nrf24l01plus.RxGetAddressLsbFirst | include/nrf24l01plus/nrf24l01plus.hpp:471-478 | corrected: the same bus traffic as `RxGetAddress`, except that shared pipes read RX_ADDR_P1 LSByte first; the result is `RxAddressReadLsbFirst` |
| Transceiver.Nrf24l01plus.RxSetAddress | include/nrf24l01plus/nrf24l01plus.hpp:493-499 | pipes 0/1 get five bytes LSByte first; pipes 2-5 get only byte 4, as one byte |

## Left out

- SPI bus, chip select, CE pin and `hwlib::wait_us` are external code. They are modelled only as the `Board` class and its trace events. `write_read_reverse` is taken to clock both buffers from their last byte to their first.
- The chip is a mock: a register file and a fixed STATUS byte.
  - The chip's own updates of STATUS, the payload FIFOs and the radio are not modelled.
  - Bytes clocked back for anything other than a register read are zeros.
  - An unwritten register reads as zeros.
- Failures of the bus, the CE pin and the delay are not modelled: every `Board` call succeeds. `mode` records the new mode (nrf24l01plus.hpp:257) before that work, which only shows when a call fails. The model states this order through the preconditions of `LeaveActive` and `EnterMode`.
- The mock keeps STATUS in two unrelated places. `Board.status` is what is clocked back with every command word. A register read of STATUS (0x07) answers from the register file, not from `Board.status`. No operation in the model depends on the two agreeing.
- The bytes shifted out when `data_out` is a null pointer are unknown. The model records such an exchange with no output buffer (`None`).
- The templated `std::array` overloads (nrf24l01plus.hpp:113-117, 142-145, 169-172, 349-352, 399-402) only forward to the pointer forms, which are modelled with sequences.
- `operator<<` in address.hpp:131-136 is stream formatting only.
- include/nrf24l01plus/self_test.hpp is a hardware test harness. It is not part of this model.
- Per-pipe accessors require `pipe <= 5`. The truncation of `1 << pipe` and the register arithmetic for larger pipe numbers are not modelled.
- Transceiver.Nrf24l01plus.GetMode (`get_mode`, nrf24l01plus.hpp:237-239) has no contract of its own. `Mode`'s contract states `GetMode() == newMode`.
- Transceiver.Nrf24l01plus.Power, Mode and the pipe-bit accessors: their method contracts name the read-modify-write. The bit-level effect is stated by the DriverSpec lemmas listed above.

## Findings

| source | as written | input that shows it | evidently intended | confidence | as-written member | corrected member |
|---|---|---|---|---|---|---|
| include/nrf24l01plus/nrf24l01plus.hpp:226-230 | `tx_get_address` reads TX_ADDR without `lsbyte_first`, while `tx_set_address` (line 218) writes it LSByte first | set 01 02 03 04 05, get returns 05 04 03 02 01 | read TX_ADDR LSByte first, so get returns what set wrote | medium, not executed | DriverSpec.TxAddressComesBackReversed | DriverSpec.TxAddressRoundTripLsbFirst |
| include/nrf24l01plus/nrf24l01plus.hpp:471-478 | for pipes 2-5 `rx_get_address` reads RX_ADDR_P1 in wire order, while `rx_set_address(1, …)` and `rx_get_address(1)` use LSByte first | pipe 1 = 01 02 03 04 05, pipe 2 = ..09: pipe 2 reads 05 04 03 02 09 | take pipe 1's prefix LSByte first, giving 01 02 03 04 09 | medium, not executed | DriverSpec.SharedPipePrefixCounterexample | DriverSpec.SharedPipeRoundTripLsbFirst |
| include/nrf24l01plus/nrf24l01plus.hpp:208-210 | `channel` masks with 0xEF, which clears bit 4 of valid channels | channel 84 is written as 68; 16 as 0 | mask with 0x7F, the 7-bit RF_CH field | medium, not executed | DriverSpec.ChannelMaskAltersValidChannels | DriverSpec.ChannelByteIntended |

The driver methods `TxGetAddress`, `RxGetAddress` and `Channel` model the
code as written. `TxGetAddressLsbFirst`, `RxGetAddressLsbFirst` and
`ChannelIntended` are the corrected forms. The rest of the model does not
depend on either choice.
