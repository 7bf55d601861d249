/*
 * The collaborators the driver talks to: the SPI bus with its scoped
 * chip-select transaction, the CE output pin, the microsecond delay, and a
 * mock nRF24L01+ behind the bus.  None of their code is part of the driver;
 * they are modelled here only as far as the driver's contracts need them.
 *
 * Everything the driver does to them is recorded in a ghost trace of events.
 * Bytes in an `Exchange` event are in wire order: the order in which they are
 * clocked over the bus.
 */
module Hardware {
  import opened Definitions

  datatype Option<T> = None | Some(value: T)

  datatype Event =
    | Acquire                                        // chip select asserted: a transaction starts
    | Exchange(out: Option<seq<byte>>, inb: seq<byte>) // bytes shifted out (None: no output buffer) and in
    | Release                                        // chip select released: the transaction ends
    | CeWrite(level: bool)                           // value written to the CE pin
    | CeFlush                                        // CE pin pushed to the hardware
    | Wait(us: nat)                                  // blocking delay in microseconds

  function Reverse(s: seq<byte>): (r: seq<byte>)
    ensures |r| == |s|
    ensures forall k :: 0 <= k < |s| ==> r[k] == s[|s| - 1 - k]
  {
    if s == [] then [] else Reverse(s[1..]) + [s[0]]
  }

  lemma {:induction false} ReverseReverse(s: seq<byte>)
    ensures Reverse(Reverse(s)) == s
  {
    var r := Reverse(Reverse(s));
    assert |r| == |s|;
    forall k | 0 <= k < |s|
      ensures r[k] == s[k]
    {
      assert r[k] == Reverse(s)[|s| - 1 - k];
    }
  }

  lemma AppendAssociative<T>(a: seq<T>, b: seq<T>, c: seq<T>)
    ensures a + (b + c) == (a + b) + c
  {
  }

  /** The bytes on the wire for a buffer, reversed when it is sent LSByte first. */
  function Wire(data: seq<byte>, lsbyteFirst: bool): (r: seq<byte>)
    ensures |r| == |data|
    ensures forall k :: 0 <= k < |data| ==>
      r[k] == if lsbyteFirst then data[|data| - 1 - k] else data[k]
  {
    if lsbyteFirst then Reverse(data) else data
  }

  function WireOut(data: Option<seq<byte>>, lsbyteFirst: bool): (r: Option<seq<byte>>)
    ensures r.Some? <==> data.Some?
    ensures data.Some? ==> r.value == Wire(data.value, lsbyteFirst)
  {
    match data
    case None => None
    case Some(d) => Some(Wire(d, lsbyteFirst))
  }

  lemma {:induction false} WireInvolution(data: seq<byte>, lsbyteFirst: bool)
    ensures Wire(Wire(data, lsbyteFirst), lsbyteFirst) == data
  {
    if lsbyteFirst {
      ReverseReverse(data);
    }
  }

  function Zeros(n: nat): (r: seq<byte>)
    ensures |r| == n
    ensures forall k :: 0 <= k < n ==> r[k] == 0
  {
    if n == 0 then [] else Zeros(n - 1) + [0]
  }

  /** `s` cut or zero-padded to exactly `n` bytes. */
  function Resize(s: seq<byte>, n: nat): (r: seq<byte>)
    ensures |r| == n
    ensures forall k :: 0 <= k < n ==> r[k] == if k < |s| then s[k] else 0
  {
    if |s| >= n then s[..n] else s + Zeros(n - |s|)
  }

  /** A one-byte register as read: its first byte, or zero when it holds none. */
  lemma ResizeOne(s: seq<byte>)
    ensures Resize(s, 1) == [if |s| > 0 then s[0] else 0]
  {
    var r := Resize(s, 1);
    assert r[0] == if |s| > 0 then s[0] else 0;
  }

  // ---------------------------------------------------------------------
  // Mock chip: a register file indexed by register address, each register
  // holding its bytes in wire order (LSByte first, as the chip shifts them).
  // The map is keyed by the register number as a `nat`.

  type Registers = map<nat, seq<byte>>

  /** The register number encoded in a register read or write command word. */
  function RegisterOf(command: byte): byte {
    command & 0x1F
  }

  predicate IsRead(command: byte) {
    command & 0xE0 == R_REGISTER
  }

  predicate IsWrite(command: byte) {
    command & 0xE0 == W_REGISTER
  }

  /** What register `a` holds; a register never written reads as nothing (zero bytes after resizing). */
  function Stored(regs: Registers, a: byte): seq<byte> {
    if a as nat in regs then regs[a as nat] else []
  }

  /** The bytes the chip shifts out while the `n` data bytes of `command` are clocked. */
  function Reply(regs: Registers, command: byte, n: nat): (r: seq<byte>)
    ensures |r| == n
  {
    if IsRead(command) then Resize(Stored(regs, RegisterOf(command)), n) else Zeros(n)
  }

  /** The register file after the data bytes `out` of `command` were clocked in. */
  function Store(regs: Registers, command: byte, out: Option<seq<byte>>): Registers
  {
    if IsWrite(command) && out.Some? then regs[RegisterOf(command) as nat := out.value] else regs
  }

  /**
   * The board: SPI bus with the chip behind it, the CE pin and the clock.
   * `status` is the chip's STATUS register as it is shifted out alongside
   * every command word; the chip's own updates of it are not modelled.
   */
  class Board {
    ghost var trace: seq<Event>
    var regs: Registers
    var status: byte
    var selected: bool          // inside a bus transaction
    var command: Option<byte>   // command word of the open transaction, once shifted
    var ceLatch: bool           // last value written to the CE pin
    var cePin: bool             // value the CE pin drives, as of the last flush

    constructor (regs: Registers, status: byte)
      ensures this.regs == regs && this.status == status
      ensures !selected && command.None? && !ceLatch && !cePin && trace == []
    {
      this.regs := regs;
      this.status := status;
      selected := false;
      command := None;
      ceLatch := false;
      cePin := false;
      trace := [];
    }

    /** `bus.transaction(csn)`: take the chip-select line. */
    method Select()
      requires !selected
      modifies this
      ensures selected && command.None?
      ensures regs == old(regs) && status == old(status)
      ensures ceLatch == old(ceLatch) && cePin == old(cePin)
      ensures trace == old(trace) + [Acquire]
    {
      selected := true;
      command := None;
      trace := trace + [Acquire];
    }

    /** End of the transaction's scope: release the chip-select line. */
    method Deselect()
      requires selected
      modifies this
      ensures !selected && command.None?
      ensures regs == old(regs) && status == old(status)
      ensures ceLatch == old(ceLatch) && cePin == old(cePin)
      ensures trace == old(trace) + [Release]
    {
      selected := false;
      command := None;
      trace := trace + [Release];
    }

    /**
     * `transaction.write_read(n, out, in)`: clock `n` bytes.  The first exchange
     * of a transaction carries the command word alone, and the chip answers it
     * with STATUS.  Later exchanges are data bytes of that command.
     */
    method WriteRead(n: nat, out: Option<seq<byte>>) returns (inb: seq<byte>)
      requires selected
      requires out.Some? ==> |out.value| == n
      requires command.None? ==> n == 1 && out.Some?
      modifies this
      ensures selected && status == old(status)
      ensures ceLatch == old(ceLatch) && cePin == old(cePin)
      ensures |inb| == n
      ensures trace == old(trace) + [Exchange(out, inb)]
      ensures old(command).None? ==>
        inb == [status] && command == Some(out.value[0]) && regs == old(regs)
      ensures old(command).Some? ==>
        && command == old(command)
        && inb == Reply(old(regs), command.value, n)
        && regs == Store(old(regs), command.value, out)
    {
      if command.None? {
        inb := [status];
        command := Some(out.value[0]);
      } else {
        inb := Reply(regs, command.value, n);
        regs := Store(regs, command.value, out);
      }
      trace := trace + [Exchange(out, inb)];
    }

    /**
     * `transaction.write_read_reverse(n, out, in)`: like WriteRead, but the
     * buffers are clocked from their last byte to their first.
     */
    method WriteReadReverse(n: nat, out: Option<seq<byte>>) returns (inb: seq<byte>)
      requires selected && command.Some?
      requires out.Some? ==> |out.value| == n
      modifies this
      ensures selected && status == old(status) && command == old(command)
      ensures ceLatch == old(ceLatch) && cePin == old(cePin)
      ensures |inb| == n
      ensures var wireIn := Reply(old(regs), command.value, n);
        && inb == Reverse(wireIn)
        && trace == old(trace) + [Exchange(WireOut(out, true), wireIn)]
        && regs == Store(old(regs), command.value, WireOut(out, true))
    {
      var wireIn := WriteRead(n, WireOut(out, true));
      inb := Reverse(wireIn);
    }

    /** `ce.write(level)`. */
    method WriteCe(level: bool)
      modifies this
      ensures ceLatch == level && cePin == old(cePin)
      ensures regs == old(regs) && status == old(status)
      ensures selected == old(selected) && command == old(command)
      ensures trace == old(trace) + [CeWrite(level)]
    {
      ceLatch := level;
      trace := trace + [CeWrite(level)];
    }

    /** `ce.flush()`: the pin now drives the last written value. */
    method FlushCe()
      modifies this
      ensures ceLatch == old(ceLatch) && cePin == old(ceLatch)
      ensures regs == old(regs) && status == old(status)
      ensures selected == old(selected) && command == old(command)
      ensures trace == old(trace) + [CeFlush]
    {
      cePin := ceLatch;
      trace := trace + [CeFlush];
    }

    /** `hwlib::wait_us(us)`. */
    method WaitUs(us: nat)
      modifies this
      ensures ceLatch == old(ceLatch) && cePin == old(cePin)
      ensures regs == old(regs) && status == old(status)
      ensures selected == old(selected) && command == old(command)
      ensures trace == old(trace) + [Wait(us)]
    {
      trace := trace + [Wait(us)];
    }
  }
}
