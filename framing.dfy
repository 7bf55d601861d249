/*
 * The SPI command framer of the driver: register widths and the exact shape
 * of the one chip-select transaction that every command is sent in
 * (section 8.3.1 of the nRF24L01+ Product Specification: the command word
 * first, with STATUS shifted back alongside it, then the data bytes).
 */
module Framing {
  import opened Definitions
  import opened Hardware

  /** `register_bytes`: the three address registers are 5 bytes wide, every other register 1. */
  function RegisterBytes(address: byte): (r: byte)
    ensures r == 5 <==> (address == RX_ADDR_P0 || address == RX_ADDR_P1 || address == TX_ADDR)
    ensures r != 5 ==> r == 1
  {
    if address == RX_ADDR_P0 || address == RX_ADDR_P1 || address == TX_ADDR then 5 else 1
  }

  /** What one command does: the events it causes, the bytes it reads back and the new register file. */
  datatype Outcome = Outcome(events: seq<Event>, dataIn: seq<byte>, regs: Registers)

  /**
   * `send_command(command_word, data_out, n, data_in, lsbyte_first)`, as seen
   * on the bus: one transaction whose first exchange is the command word and
   * whose second, present only when `n > 0`, clocks the `n` data bytes.
   */
  function Command(regs: Registers, status: byte, commandWord: byte,
                   dataOut: Option<seq<byte>>, n: byte, lsbyteFirst: bool): Outcome
    requires dataOut.Some? ==> |dataOut.value| == n as int
  {
    var head := [Acquire, Exchange(Some([commandWord]), [status])];
    if n == 0 then
      Outcome(head + [Release], [], regs)
    else
      var out := WireOut(dataOut, lsbyteFirst);
      var wireIn := Reply(regs, commandWord, n as nat);
      Outcome(head + [Exchange(out, wireIn), Release], Wire(wireIn, lsbyteFirst), Store(regs, commandWord, out))
  }

  function ReadCommand(address: byte): byte {
    R_REGISTER | address
  }

  function WriteCommand(address: byte): byte {
    W_REGISTER | address
  }

  /** The value of a one-byte register as the chip reports it. */
  function RegisterValue(regs: Registers, address: byte): byte {
    Resize(Stored(regs, address), 1)[0]
  }

  /**
   * Every command is one transaction: it opens with Acquire, closes with
   * Release, holds nothing but exchanges in between, and its first exchange
   * is the command word alone, answered by STATUS.  Exactly one more
   * exchange follows iff `n > 0`.
   */
  lemma CommandIsOneTransaction(regs: Registers, status: byte, commandWord: byte,
                                dataOut: Option<seq<byte>>, n: byte, lsbyteFirst: bool)
    requires dataOut.Some? ==> |dataOut.value| == n as int
    ensures var e := Command(regs, status, commandWord, dataOut, n, lsbyteFirst).events;
      && |e| == (if n == 0 then 3 else 4)
      && e[0] == Acquire && e[|e| - 1] == Release
      && (forall k :: 0 < k < |e| - 1 ==> e[k].Exchange?)
      && e[1] == Exchange(Some([commandWord]), [status])
  {
  }

  /**
   * The data exchange of a command clocks exactly `n` bytes, in reversed
   * order iff `lsbyteFirst`, both outgoing and incoming.
   */
  lemma CommandDataBytes(regs: Registers, status: byte, commandWord: byte,
                         dataOut: Option<seq<byte>>, n: byte, lsbyteFirst: bool)
    requires n > 0
    requires dataOut.Some? ==> |dataOut.value| == n as int
    ensures var o := Command(regs, status, commandWord, dataOut, n, lsbyteFirst);
      && o.events[2].Exchange?
      && |o.events[2].inb| == n as int && |o.dataIn| == n as int
      && (o.events[2].out.Some? <==> dataOut.Some?)
      && (dataOut.Some? ==> |o.events[2].out.value| == n as int)
      && (dataOut.Some? ==> forall k :: 0 <= k < n as int ==>
            o.events[2].out.value[k] == if lsbyteFirst then dataOut.value[n as int - 1 - k] else dataOut.value[k])
      && (forall k :: 0 <= k < n as int ==>
            o.dataIn[k] == if lsbyteFirst then o.events[2].inb[n as int - 1 - k] else o.events[2].inb[k])
  {
  }

  /** A register read returns the register's bytes (in buffer order) and changes no register. */
  lemma ReadReturnsStored(regs: Registers, status: byte, address: byte, lsbyteFirst: bool)
    requires address < 0x20
    ensures var o := Command(regs, status, ReadCommand(address), None, RegisterBytes(address), lsbyteFirst);
      && o.dataIn == Wire(Resize(Stored(regs, address), RegisterBytes(address) as nat), lsbyteFirst)
      && o.regs == regs
  {
    assert RegisterOf(ReadCommand(address)) == address;
    assert IsRead(ReadCommand(address));
  }

  /** A register write stores its bytes (in wire order) in that register and no other. */
  lemma WriteStores(regs: Registers, status: byte, address: byte, data: seq<byte>, lsbyteFirst: bool)
    requires address < 0x20 && |data| == RegisterBytes(address) as int
    ensures var o := Command(regs, status, WriteCommand(address), Some(data), RegisterBytes(address), lsbyteFirst);
      o.regs == regs[address as nat := Wire(data, lsbyteFirst)]
  {
    assert RegisterOf(WriteCommand(address)) == address;
    assert IsWrite(WriteCommand(address));
  }

  /** The bus events of a one-byte register read answered with `value`. */
  function ReadTransaction(address: byte, status: byte, value: byte): seq<Event> {
    [Acquire, Exchange(Some([ReadCommand(address)]), [status]), Exchange(None, [value]), Release]
  }

  /** The bus events of a one-byte register write of `value`; the chip shifts out zero meanwhile. */
  function WriteTransaction(address: byte, status: byte, value: byte): seq<Event> {
    [Acquire, Exchange(Some([WriteCommand(address)]), [status]), Exchange(Some([value]), [0]), Release]
  }

  /** Reading a one-byte register: four events, the register's value, no register changed. */
  lemma ReadByteEffect(regs: Registers, status: byte, address: byte)
    requires address < 0x20 && RegisterBytes(address) == 1
    ensures var o := Command(regs, status, ReadCommand(address), None, 1, false);
      var value := RegisterValue(regs, address);
      && o.dataIn == [value] && o.regs == regs
      && o.events == ReadTransaction(address, status, value)
  {
    var value := RegisterValue(regs, address);
    var command := ReadCommand(address);
    assert IsRead(command) && RegisterOf(command) == address;
    ResizeOne(Stored(regs, address));
    assert Reply(regs, command, 1) == [value];
  }

  /** Writing a one-byte register: four events, the chip answers the data byte with zero, the register holds the value. */
  lemma WriteByteEffect(regs: Registers, status: byte, address: byte, value: byte)
    requires address < 0x20 && RegisterBytes(address) == 1
    ensures var o := Command(regs, status, WriteCommand(address), Some([value]), 1, false);
      && o.regs == regs[address as nat := [value]]
      && o.events == WriteTransaction(address, status, value)
  {
    WriteStores(regs, status, address, [value], false);
    assert !IsRead(WriteCommand(address));
    assert Reply(regs, WriteCommand(address), 1) == [0];
    assert Wire([value], false) == [value];
  }

  /** Reading a register back in the byte order it was written in returns what was written. */
  lemma {:induction false} WriteThenReadSameOrder(regs: Registers, s1: byte, s2: byte, address: byte,
                                                 data: seq<byte>, lsbyteFirst: bool)
    requires address < 0x20 && |data| == RegisterBytes(address) as int
    ensures var w := Command(regs, s1, WriteCommand(address), Some(data), RegisterBytes(address), lsbyteFirst);
      Command(w.regs, s2, ReadCommand(address), None, RegisterBytes(address), lsbyteFirst).dataIn == data
  {
    var width := RegisterBytes(address);
    var w := Command(regs, s1, WriteCommand(address), Some(data), width, lsbyteFirst);
    WriteStores(regs, s1, address, data, lsbyteFirst);
    ReadReturnsStored(w.regs, s2, address, lsbyteFirst);
    assert Stored(w.regs, address) == Wire(data, lsbyteFirst);
    assert Resize(Wire(data, lsbyteFirst), width as nat) == Wire(data, lsbyteFirst);
    WireInvolution(data, lsbyteFirst);
  }

  /** Reading back in the other byte order returns the written bytes reversed. */
  lemma {:induction false} WriteThenReadOtherOrder(regs: Registers, s1: byte, s2: byte, address: byte,
                                                  data: seq<byte>, lsbyteFirst: bool)
    requires address < 0x20 && |data| == RegisterBytes(address) as int
    ensures var w := Command(regs, s1, WriteCommand(address), Some(data), RegisterBytes(address), lsbyteFirst);
      Command(w.regs, s2, ReadCommand(address), None, RegisterBytes(address), !lsbyteFirst).dataIn == Reverse(data)
  {
    var width := RegisterBytes(address);
    var w := Command(regs, s1, WriteCommand(address), Some(data), width, lsbyteFirst);
    WriteStores(regs, s1, address, data, lsbyteFirst);
    ReadReturnsStored(w.regs, s2, address, !lsbyteFirst);
    assert Resize(Wire(data, lsbyteFirst), width as nat) == Wire(data, lsbyteFirst);
    if lsbyteFirst {
      ReverseReverse(data);
    }
  }
}
