/*
 * What the driver's operations do to the bus, the CE pin and the chip's
 * registers, as functions of the state before the call, with the properties
 * that the driver promises about them.
 */
module DriverSpec {
  import opened Definitions
  import opened Hardware
  import opened Framing
  import opened Addresses

  // Operating modes; any other value is recorded but addresses no register.
  const MODE_NONE: byte := 0
  const MODE_PTX: byte := 1
  const MODE_PRX: byte := 2

  // ---------------------------------------------------------------------
  // Single bits of a register

  /** The mask of bit `k` (`1 << pipe` in the accessors). */
  function BitMask(k: byte): (m: byte)
    requires k < 8
  {
    (1 as byte) << k
  }

  /** `v` with bit `k` set or cleared, as the read-modify-write accessors compute it. */
  function SetBit(v: byte, k: byte, on: bool): (r: byte)
    requires k < 8
    ensures (r & BitMask(k) != 0) == on
    ensures r & !BitMask(k) == v & !BitMask(k)
  {
    if on then v | BitMask(k) else v & !BitMask(k)
  }

  /**
   * Read one single-byte register, pass the byte read through `f`, write the
   * result back: two transactions, the second using the first's answer.
   */
  function ReadModifyWrite(regs: Registers, status: byte, address: byte, f: byte -> byte): Outcome
    requires RegisterBytes(address) == 1
  {
    var rd := Command(regs, status, ReadCommand(address), None, 1, false);
    var wr := Command(rd.regs, status, WriteCommand(address), Some([f(rd.dataIn[0])]), 1, false);
    Outcome(rd.events + wr.events, [], wr.regs)
  }

  /** A read-modify-write is exactly a read of the register and a write of `f` of its value, and nothing else changes. */
  lemma ReadModifyWriteEffect(regs: Registers, status: byte, address: byte, f: byte -> byte)
    requires address < 0x20 && RegisterBytes(address) == 1
    ensures var o := ReadModifyWrite(regs, status, address, f);
      var before := RegisterValue(regs, address);
      && o.regs == regs[address as nat := [f(before)]]
      && o.events == ReadTransaction(address, status, before) + WriteTransaction(address, status, f(before))
  {
    var before := RegisterValue(regs, address);
    ReadByteEffect(regs, status, address);
    assert Command(regs, status, ReadCommand(address), None, 1, false).dataIn[0] == before;
    WriteByteEffect(regs, status, address, f(before));
  }

  /** The per-pipe accessors change bit `pipe` of their register to `on` and keep every other bit and register. */
  lemma {:induction false} PipeBitOnlyTargetChanges(regs: Registers, status: byte, address: byte, pipe: byte, on: bool)
    requires address < 0x20 && RegisterBytes(address) == 1 && pipe <= 5
    ensures var o := ReadModifyWrite(regs, status, address, v => SetBit(v, pipe, on));
      var before := RegisterValue(regs, address);
      var after := RegisterValue(o.regs, address);
      && (after & BitMask(pipe) != 0) == on
      && after & !BitMask(pipe) == before & !BitMask(pipe)
      && (forall r :: r in regs && r != address as nat ==> r in o.regs && o.regs[r] == regs[r])
  {
    var f := v => SetBit(v, pipe, on);
    ReadModifyWriteEffect(regs, status, address, f);
    var before := RegisterValue(regs, address);
    var o := ReadModifyWrite(regs, status, address, f);
    ResizeOne(Stored(o.regs, address));
    assert RegisterValue(o.regs, address) == SetBit(before, pipe, on);
  }

  /** `power(value)` leaves PWR_UP equal to `value` and changes no other bit of CONFIG and no other register. */
  lemma {:induction false} PowerOnlyChangesPwrUp(regs: Registers, status: byte, value: bool)
    ensures var o := ReadModifyWrite(regs, status, CONFIG, if value then PowerUp else PowerDown);
      var before := RegisterValue(regs, CONFIG);
      var after := RegisterValue(o.regs, CONFIG);
      && (after & CONFIG_PWR_UP != 0) == value
      && after & !CONFIG_PWR_UP == before & !CONFIG_PWR_UP
      && (forall r :: r in regs && r != CONFIG as nat ==> r in o.regs && o.regs[r] == regs[r])
  {
    var f := if value then PowerUp else PowerDown;
    ReadModifyWriteEffect(regs, status, CONFIG, f);
    var before := RegisterValue(regs, CONFIG);
    var o := ReadModifyWrite(regs, status, CONFIG, f);
    ResizeOne(Stored(o.regs, CONFIG));
    assert RegisterValue(o.regs, CONFIG) == SetBit(before, 1, value);
  }

  // ---------------------------------------------------------------------
  // Value shaping

  /** The SETUP_RETR byte: delay in the high nibble, count in the low one, cut to 8 bits. */
  function RetransmitByte(delay: byte, count: byte): (r: byte)
    ensures count < 16 ==> r == delay * 16 + count
    ensures r & 0x0F == count & 0x0F
    ensures delay == 0 && count == 0 ==> r == 0
  {
    (delay << 4) | count
  }

  /** The RF_CH byte: the requested channel masked with 0xEF, which clears bit 4 and keeps bit 7. */
  function ChannelByte(channel: byte): (r: byte)
    ensures r & 0x10 == 0
    ensures r | (channel & 0x10) == channel
  {
    channel & 0xEF
  }

  /** Channels with bit 4 set do not reach the chip as requested, although the chip accepts channels 0 to 125. */
  lemma ChannelMaskAltersValidChannels()
    ensures ChannelByte(16) == 0 && ChannelByte(84) == 68 && ChannelByte(125) == 109
  {
  }

  /** The RF_CH byte as evidently intended: the channel cut to the 7-bit RF_CH field, so that channels 0 to 127 pass unchanged. */
  function ChannelByteIntended(channel: byte): (r: byte)
    ensures r <= 0x7F
    ensures channel <= 0x7F ==> r == channel
    ensures r == channel % 128
  {
    channel & 0x7F
  }

  /** The RX_PW_Px byte: the width cut to six bits; larger widths wrap instead of being refused. */
  function PayloadWidthByte(width: byte): (r: byte)
    ensures r <= 0x3F
    ensures r == width % 64
    ensures width <= 0x3F ==> r == width
  {
    width & 0x3F
  }

  /** The byte a set-all-pipes accessor writes: all six pipe bits, or none. */
  function AllPipes(on: bool): (r: byte)
    ensures on ==> forall p :: 0 <= p <= 5 ==> r & BitMask(p) != 0
    ensures !on ==> forall p :: 0 <= p <= 5 ==> r & BitMask(p) == 0
    ensures r & 0xC0 == 0
  {
    if on then 0x3F else 0x00
  }

  // ---------------------------------------------------------------------
  // The mode state machine

  /** Leaving PTX or PRX: CE low, pushed to the pin, then the 130 us settling time. */
  function Settle(from: byte): seq<Event> {
    if from == MODE_PTX || from == MODE_PRX then [CeWrite(false), CeFlush, Wait(130)] else []
  }

  /** Entering PRX, after CONFIG is written: CE high, pushed to the pin, 130 us. */
  const StartListening: seq<Event> := [CeWrite(true), CeFlush, Wait(130)]

  /** CONFIG with PWR_UP set (`lastConfig | CONFIG_PWR_UP`). */
  function PowerUp(config: byte): (r: byte)
    ensures r == SetBit(config, 1, true)
  {
    config | CONFIG_PWR_UP
  }

  /** CONFIG with PWR_UP cleared (`lastConfig & ~CONFIG_PWR_UP`). */
  function PowerDown(config: byte): (r: byte)
    ensures r == SetBit(config, 1, false)
  {
    config & !CONFIG_PWR_UP
  }

  /** CONFIG with PRIM_RX cleared (`lastConfig & ~CONFIG_PRIM_RX`). */
  function ClearPrimRx(config: byte): (r: byte)
    ensures r == SetBit(config, 0, false)
  {
    config & !CONFIG_PRIM_RX
  }

  /** CONFIG with PRIM_RX set (`lastConfig | CONFIG_PRIM_RX`). */
  function SetPrimRx(config: byte): (r: byte)
    ensures r == SetBit(config, 0, true)
  {
    config | CONFIG_PRIM_RX
  }

  /**
   * The register work of `mode(to)` once CE has settled: PTX clears and PRX
   * sets PRIM_RX by a read-modify-write of CONFIG, and PRX then raises CE;
   * any other value does nothing.
   */
  function ModeWork(regs: Registers, status: byte, to: byte): Outcome {
    if to == MODE_PTX then
      ReadModifyWrite(regs, status, CONFIG, ClearPrimRx)
    else if to == MODE_PRX then
      var rmw := ReadModifyWrite(regs, status, CONFIG, SetPrimRx);
      Outcome(rmw.events + StartListening, rmw.dataIn, rmw.regs)
    else
      Outcome([], [], regs)
  }

  /** `mode(to)` from mode `from`: the events and the register file afterwards. */
  function ModeSteps(regs: Registers, status: byte, from: byte, to: byte): Outcome {
    if from == to then
      Outcome([], [], regs)
    else
      var work := ModeWork(regs, status, to);
      Outcome(Settle(from) + work.events, [], work.regs)
  }

  /** A change of mode is the settling of CE followed by the register work of the new mode. */
  lemma ModeStepsSplit(regs: Registers, status: byte, from: byte, to: byte)
    requires from != to
    ensures var work := ModeWork(regs, status, to);
      ModeSteps(regs, status, from, to) == Outcome(Settle(from) + work.events, [], work.regs)
  {
  }

  /** Setting the current mode again is a no-op: no event at all, no register touched. */
  lemma ModeSameIsNoOp(regs: Registers, status: byte, m: byte)
    ensures ModeSteps(regs, status, m, m) == Outcome([], [], regs)
  {
  }

  /** Leaving PTX or PRX starts with CE low, a flush and 130 us, before any bus transaction. */
  lemma ModeLeavingActiveSettlesFirst(regs: Registers, status: byte, from: byte, to: byte)
    requires from == MODE_PTX || from == MODE_PRX
    requires from != to
    ensures var e := ModeSteps(regs, status, from, to).events;
      |e| >= 3 && e[..3] == [CeWrite(false), CeFlush, Wait(130)]
  {
  }

  /** From NONE (or any inactive value) no CE event precedes the register work. */
  lemma ModeFromInactiveNoSettle(regs: Registers, status: byte, from: byte, to: byte)
    requires from != MODE_PTX && from != MODE_PRX && from != to
    ensures forall e :: e in ModeSteps(regs, status, from, to).events && (e.CeWrite? || e.CeFlush?) ==>
      to == MODE_PRX && e in StartListening
  {
  }

  /** Entering PTX: one CONFIG read, one CONFIG write of the value with PRIM_RX cleared; CE is never raised. */
  lemma ModeEnterPtx(regs: Registers, status: byte, from: byte)
    requires from != MODE_PTX
    ensures var o := ModeSteps(regs, status, from, MODE_PTX);
      var config := RegisterValue(regs, CONFIG);
      && o.regs == regs[CONFIG as nat := [SetBit(config, 0, false)]]
      && o.events == Settle(from)
           + ReadTransaction(CONFIG, status, config) + WriteTransaction(CONFIG, status, SetBit(config, 0, false))
      && CeWrite(true) !in o.events
  {
    var config := RegisterValue(regs, CONFIG);
    ModePtxSteps(regs, status, from);
    NoCeRaise(Settle(from), ReadTransaction(CONFIG, status, config), WriteTransaction(CONFIG, status, SetBit(config, 0, false)));
  }

  /** The events and registers of entering PTX. */
  lemma ModePtxSteps(regs: Registers, status: byte, from: byte)
    requires from != MODE_PTX
    ensures var o := ModeSteps(regs, status, from, MODE_PTX);
      var config := RegisterValue(regs, CONFIG);
      && o.regs == regs[CONFIG as nat := [SetBit(config, 0, false)]]
      && o.events == Settle(from)
           + ReadTransaction(CONFIG, status, config) + WriteTransaction(CONFIG, status, SetBit(config, 0, false))
  {
    var rmw := ReadModifyWrite(regs, status, CONFIG, ClearPrimRx);
    ReadModifyWriteEffect(regs, status, CONFIG, ClearPrimRx);
    ModeStepsSplit(regs, status, from, MODE_PTX);
    assert ModeWork(regs, status, MODE_PTX) == rmw;
  }

  /** Settling and register transactions never raise CE. */
  lemma NoCeRaise(settle: seq<Event>, rd: seq<Event>, wr: seq<Event>)
    requires CeWrite(true) !in settle && CeWrite(true) !in rd && CeWrite(true) !in wr
    ensures CeWrite(true) !in settle + rd + wr
  {
  }

  /** Entering PRX: CONFIG written with PRIM_RX set, and only then CE high, a flush and 130 us. */
  lemma ModeEnterPrx(regs: Registers, status: byte, from: byte)
    requires from != MODE_PRX
    ensures var o := ModeSteps(regs, status, from, MODE_PRX);
      var config := RegisterValue(regs, CONFIG);
      && o.regs == regs[CONFIG as nat := [SetBit(config, 0, true)]]
      && o.events == Settle(from)
           + ReadTransaction(CONFIG, status, config) + WriteTransaction(CONFIG, status, SetBit(config, 0, true))
           + StartListening
  {
    var rmw := ReadModifyWrite(regs, status, CONFIG, SetPrimRx);
    ReadModifyWriteEffect(regs, status, CONFIG, SetPrimRx);
    ModeStepsSplit(regs, status, from, MODE_PRX);
    assert ModeWork(regs, status, MODE_PRX) == Outcome(rmw.events + StartListening, [], rmw.regs);
  }

  /** Any mode value other than PTX and PRX touches no register: no bus transaction at all. */
  lemma ModeOtherTouchesNoRegister(regs: Registers, status: byte, from: byte, to: byte)
    requires to != MODE_PTX && to != MODE_PRX
    ensures var o := ModeSteps(regs, status, from, to);
      o.regs == regs && forall e :: e in o.events ==> !e.Acquire? && !e.Exchange?
  {
  }

  // ---------------------------------------------------------------------
  // Payload widths of all pipes

  /** RX_PW_P0 + pipe. */
  function WidthRegister(pipe: nat): (r: byte)
    requires pipe < 6
    ensures r as nat == 0x11 + pipe && r < 0x20 && RegisterBytes(r) == 1
  {
    RX_PW_P0 + pipe as byte
  }

  /** `rx_set_payload_width(width)` after its first `count` iterations: pipes 0 .. count-1 written in order. */
  function WidthWrites(regs: Registers, status: byte, width: byte, count: nat): Outcome
    requires count <= 6
  {
    if count == 0 then
      Outcome([], [], regs)
    else
      var prev := WidthWrites(regs, status, width, count - 1);
      var wr := Command(prev.regs, status, WriteCommand(WidthRegister(count - 1)),
                        Some([PayloadWidthByte(width)]), 1, false);
      Outcome(prev.events + wr.events, [], wr.regs)
  }

  /** The bus events of `rx_set_payload_width(pipe, width)`: one single-byte write of the masked width. */
  function PipeWidthWrite(status: byte, width: byte, pipe: nat): (e: seq<Event>)
    requires pipe < 6
    ensures |e| == 4
  {
    WriteTransaction(WidthRegister(pipe), status, PayloadWidthByte(width))
  }

  /** The per-pipe writes of the first `count` iterations, pipe 0 first. */
  function WidthChunks(status: byte, width: byte, count: nat): (c: seq<seq<Event>>)
    requires count <= 6
    ensures |c| == count
    ensures forall p :: 0 <= p < count ==> c[p] == PipeWidthWrite(status, width, p)
  {
    if count == 0 then [] else WidthChunks(status, width, count - 1) + [PipeWidthWrite(status, width, count - 1)]
  }

  /** The chunks of `chunks` one after another. */
  function Flatten<T>(chunks: seq<seq<T>>): seq<T> {
    if chunks == [] then [] else Flatten(chunks[..|chunks| - 1]) + chunks[|chunks| - 1]
  }

  /** Chunks of four elements each: chunk p is elements 4p .. 4p+3 of the flattened sequence. */
  lemma {:induction false} FlattenWindow<T>(chunks: seq<seq<T>>, p: nat)
    requires forall i :: 0 <= i < |chunks| ==> |chunks[i]| == 4
    requires p < |chunks|
    ensures |Flatten(chunks)| == 4 * |chunks|
    ensures Flatten(chunks)[4 * p .. 4 * p + 4] == chunks[p]
  {
    var init := chunks[..|chunks| - 1];
    var last := chunks[|chunks| - 1];
    FlattenLength(init);
    if p < |chunks| - 1 {
      FlattenWindow(init, p);
      WindowInPrefix(Flatten(init), last, 4 * p, chunks[p]);
    } else {
      WindowIsSuffix(Flatten(init), last, 4 * p);
    }
  }

  lemma {:induction false} FlattenLength<T>(chunks: seq<seq<T>>)
    requires forall i :: 0 <= i < |chunks| ==> |chunks[i]| == 4
    ensures |Flatten(chunks)| == 4 * |chunks|
  {
    if chunks != [] {
      FlattenLength(chunks[..|chunks| - 1]);
    }
  }

  /** The events of the first `count` iterations as intended: a one-byte width write per pipe, pipe 0 first. */
  function WidthEvents(status: byte, width: byte, count: nat): seq<Event>
    requires count <= 6
  {
    Flatten(WidthChunks(status, width, count))
  }

  /**
   * After `count` iterations the first `count` width registers hold the masked
   * width, all others are as before, and the events are one single-byte write
   * per pipe, pipe 0 first.
   */
  lemma {:induction false} WidthWritesEffect(regs: Registers, status: byte, width: byte, count: nat)
    requires count <= 6
    ensures var o := WidthWrites(regs, status, width, count);
      && (forall r: nat :: 0x11 <= r < 0x11 + count ==> r in o.regs && o.regs[r] == [PayloadWidthByte(width)])
      && (forall r: nat :: !(0x11 <= r < 0x11 + count) ==> (r in o.regs <==> r in regs))
      && (forall r: nat :: !(0x11 <= r < 0x11 + count) && r in regs ==> o.regs[r] == regs[r])
      && |o.events| == 4 * count
      && (forall p :: 0 <= p < count ==> o.events[4 * p .. 4 * p + 4] == PipeWidthWrite(status, width, p))
  {
    WidthWritesRegisters(regs, status, width, count);
    WidthWritesEvents(regs, status, width, count);
    WidthEventsPerPipe(status, width, count);
  }

  /** The register part of WidthWritesEffect, with four events per iteration, by induction. */
  lemma {:induction false} WidthWritesRegisters(regs: Registers, status: byte, width: byte, count: nat)
    requires count <= 6
    ensures var o := WidthWrites(regs, status, width, count);
      && (forall r: nat :: 0x11 <= r < 0x11 + count ==> r in o.regs && o.regs[r] == [PayloadWidthByte(width)])
      && (forall r: nat :: !(0x11 <= r < 0x11 + count) ==> (r in o.regs <==> r in regs))
      && (forall r: nat :: !(0x11 <= r < 0x11 + count) && r in regs ==> o.regs[r] == regs[r])
      && |o.events| == 4 * count
  {
    if count > 0 {
      var prev := WidthWrites(regs, status, width, count - 1);
      WidthWritesRegisters(regs, status, width, count - 1);
      var a := WidthRegister(count - 1);
      WriteStores(prev.regs, status, a, [PayloadWidthByte(width)], false);
    }
  }

  /** The loop causes exactly the intended events, whatever the register file. */
  lemma {:induction false} WidthWritesEvents(regs: Registers, status: byte, width: byte, count: nat)
    requires count <= 6
    ensures WidthWrites(regs, status, width, count).events == WidthEvents(status, width, count)
  {
    if count > 0 {
      var prev := WidthWrites(regs, status, width, count - 1);
      WidthWritesEvents(regs, status, width, count - 1);
      WriteByteEffect(prev.regs, status, WidthRegister(count - 1), PayloadWidthByte(width));
      var chunks := WidthChunks(status, width, count);
      assert chunks[..count - 1] == WidthChunks(status, width, count - 1);
    }
  }

  /** Events 4p .. 4p+3 of the intended events are the write for pipe p. */
  lemma WidthEventsPerPipe(status: byte, width: byte, count: nat)
    requires count <= 6
    ensures var e := WidthEvents(status, width, count);
      && |e| == 4 * count
      && (forall p :: 0 <= p < count ==> e[4 * p .. 4 * p + 4] == PipeWidthWrite(status, width, p))
  {
    var chunks := WidthChunks(status, width, count);
    FlattenLength(chunks);
    forall p | 0 <= p < count
      ensures Flatten(chunks)[4 * p .. 4 * p + 4] == PipeWidthWrite(status, width, p)
    {
      FlattenWindow(chunks, p);
    }
  }

  /** A 4-element window inside `a` is unchanged by appending to `a`. */
  lemma WindowInPrefix<T>(a: seq<T>, b: seq<T>, k: nat, w: seq<T>)
    requires k + 4 <= |a| && a[k .. k + 4] == w
    ensures (a + b)[k .. k + 4] == w
  {
    assert (a + b)[k .. k + 4] == a[k .. k + 4];
  }

  /** The 4-element window just past `a` is `b` when `|b| == 4`. */
  lemma WindowIsSuffix<T>(a: seq<T>, b: seq<T>, k: nat)
    requires |b| == 4 && k == |a|
    ensures (a + b)[k .. k + 4] == b
  {
  }


  // ---------------------------------------------------------------------
  // Pipe and TX addresses

  /** What `rx_get_address(pipe)` returns for a register file. */
  function RxAddressRead(regs: Registers, pipe: byte): Address
    requires pipe <= 5
  {
    if pipe > 1 then
      Derived(Address(Resize(Stored(regs, RX_ADDR_P1), 5)), RegisterValue(regs, RX_ADDR_P0 + pipe))
    else
      Address(Reverse(Resize(Stored(regs, RX_ADDR_P0 + pipe), 5)))
  }

  /** The register file after `rx_set_address(pipe, a)`. */
  function RxAddressWritten(regs: Registers, pipe: byte, a: Address): Registers
    requires pipe <= 5
  {
    regs[(RX_ADDR_P0 + pipe) as nat := if pipe > 1 then [a.bytes[4]] else Reverse(a.bytes)]
  }

  /** Pipes 0 and 1: the address written is the address read back. */
  lemma {:induction false} RxAddressRoundTripFullPipes(regs: Registers, pipe: byte, a: Address)
    requires pipe <= 1
    ensures RxAddressRead(RxAddressWritten(regs, pipe, a), pipe) == a
  {
    var r := RxAddressWritten(regs, pipe, a);
    assert Stored(r, RX_ADDR_P0 + pipe) == Reverse(a.bytes);
    assert Resize(Reverse(a.bytes), 5) == Reverse(a.bytes);
    ReverseReverse(a.bytes);
  }

  /**
   * Pipes 2 to 5: only the fifth byte is stored, so the address read back
   * equals the written one's fifth byte, and its first four bytes are the
   * first four bytes of RX_ADDR_P1 as stored, whatever else was written.
   */
  lemma RxAddressRoundTripSharedPipes(regs: Registers, pipe: byte, a: Address)
    requires 2 <= pipe <= 5
    ensures var back := RxAddressRead(RxAddressWritten(regs, pipe, a), pipe);
      && EqualsByte(back, a.bytes[4])
      && back.bytes[..4] == Resize(Stored(regs, RX_ADDR_P1), 5)[..4]
  {
    var r := RxAddressWritten(regs, pipe, a);
    assert Stored(r, RX_ADDR_P0 + pipe) == [a.bytes[4]];
    assert Stored(r, RX_ADDR_P1) == Stored(regs, RX_ADDR_P1);
  }

  /**
   * As written, a shared pipe's address comes back with pipe 1's prefix
   * reversed: pipe 1 is written LSByte first but read back in wire order.
   */
  lemma SharedPipePrefixReversed(regs: Registers, pipe: byte, base: Address, a: Address)
    requires 2 <= pipe <= 5
    ensures var r := RxAddressWritten(RxAddressWritten(regs, 1, base), pipe, a);
      RxAddressRead(r, pipe) == Derived(Address(Reverse(base.bytes)), a.bytes[4])
  {
    var r1 := RxAddressWritten(regs, 1, base);
    var r := RxAddressWritten(r1, pipe, a);
    assert Stored(r, RX_ADDR_P1) == Reverse(base.bytes);
    assert Resize(Reverse(base.bytes), 5) == Reverse(base.bytes);
    assert Stored(r, RX_ADDR_P0 + pipe) == [a.bytes[4]];
  }

  /** A concrete case: pipe 1 set to 01 02 03 04 05, pipe 2 to end 09, pipe 2 reads back as 05 04 03 02 09. */
  lemma SharedPipePrefixCounterexample(regs: Registers)
    ensures var base := Of(1, 2, 3, 4, 5);
      var r := RxAddressWritten(RxAddressWritten(regs, 1, base), 2, Of(0, 0, 0, 0, 9));
      && RxAddressRead(r, 2) == Of(5, 4, 3, 2, 9)
      && RxAddressRead(r, 2) != Derived(base, 9)
  {
    var base := Of(1, 2, 3, 4, 5);
    SharedPipePrefixReversed(regs, 2, base, Of(0, 0, 0, 0, 9));
    assert Reverse(base.bytes) == [5, 4, 3, 2, 1];
  }

  /** The intended reading of a shared pipe: pipe 1's stored prefix taken LSByte first, as it was written. */
  function RxAddressReadLsbFirst(regs: Registers, pipe: byte): Address
    requires pipe <= 5
  {
    if pipe > 1 then
      Derived(Address(Reverse(Resize(Stored(regs, RX_ADDR_P1), 5))), RegisterValue(regs, RX_ADDR_P0 + pipe))
    else
      RxAddressRead(regs, pipe)
  }

  /** With the intended reading, a shared pipe reads back as pipe 1's address with the pipe's own fifth byte. */
  lemma {:induction false} SharedPipeRoundTripLsbFirst(regs: Registers, pipe: byte, base: Address, a: Address)
    requires 2 <= pipe <= 5
    ensures var r := RxAddressWritten(RxAddressWritten(regs, 1, base), pipe, a);
      RxAddressReadLsbFirst(r, pipe) == Derived(base, a.bytes[4])
  {
    var r1 := RxAddressWritten(regs, 1, base);
    var r := RxAddressWritten(r1, pipe, a);
    assert Stored(r, RX_ADDR_P1) == Reverse(base.bytes);
    assert Resize(Reverse(base.bytes), 5) == Reverse(base.bytes);
    ReverseReverse(base.bytes);
    assert Stored(r, RX_ADDR_P0 + pipe) == [a.bytes[4]];
  }

  /** The pipe 3 example: pipe 1 = C2 C2 C2 C2 C2 and pipe 3 = C4 read back as C2 C2 C2 C2 C4. */
  lemma Pipe3Example(regs: Registers)
    ensures var r := RxAddressWritten(RxAddressWritten(regs, 1, Of(0xC2, 0xC2, 0xC2, 0xC2, 0xC2)), 3, Of(0, 0, 0, 0, 0xC4));
      RxAddressRead(r, 3) == Of(0xC2, 0xC2, 0xC2, 0xC2, 0xC4)
  {
    var base := Of(0xC2, 0xC2, 0xC2, 0xC2, 0xC2);
    SharedPipePrefixReversed(regs, 3, base, Of(0, 0, 0, 0, 0xC4));
    assert Reverse(base.bytes) == base.bytes;
  }

  /** What `tx_get_address()` returns: TX_ADDR's bytes in wire order. */
  function TxAddressRead(regs: Registers): Address {
    Address(Resize(Stored(regs, TX_ADDR), 5))
  }

  /** The register file after `tx_set_address(a)`: TX_ADDR holds the bytes LSByte first. */
  function TxAddressWritten(regs: Registers, a: Address): Registers {
    regs[TX_ADDR as nat := Reverse(a.bytes)]
  }

  /** As written, the TX address comes back reversed. */
  lemma TxAddressComesBackReversed(regs: Registers, a: Address)
    ensures TxAddressRead(TxAddressWritten(regs, a)).bytes == Reverse(a.bytes)
    ensures a == Of(1, 2, 3, 4, 5) ==> TxAddressRead(TxAddressWritten(regs, a)) == Of(5, 4, 3, 2, 1)
  {
    assert Resize(Reverse(a.bytes), 5) == Reverse(a.bytes);
    if a == Of(1, 2, 3, 4, 5) {
      assert Reverse(a.bytes) == [5, 4, 3, 2, 1];
    }
  }

  /** The intended reading: TX_ADDR taken LSByte first, as it was written. */
  function TxAddressReadLsbFirst(regs: Registers): Address {
    Address(Reverse(Resize(Stored(regs, TX_ADDR), 5)))
  }

  lemma {:induction false} TxAddressRoundTripLsbFirst(regs: Registers, a: Address)
    ensures TxAddressReadLsbFirst(TxAddressWritten(regs, a)) == a
  {
    assert Resize(Reverse(a.bytes), 5) == Reverse(a.bytes);
    ReverseReverse(a.bytes);
  }
}
