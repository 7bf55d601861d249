/*
 * The driver class `nrf24l01plus`: command framing, register I/O, the mode
 * state machine and the register accessors.  Every method is specified by
 * what it does to the board (bus trace, CE pin, register file) in terms of
 * the functions of Framing and DriverSpec.
 */
module Transceiver {
  import opened Definitions
  import opened Hardware
  import opened Framing
  import opened Addresses
  import opened DriverSpec

  class Nrf24l01plus {
    const board: Board
    /** The mode this module is currently in. */
    var currentMode: byte
    /** The STATUS byte returned by the last command. */
    var lastStatus: byte

    /** Between two commands the chip-select line is released. */
    ghost predicate Valid()
      reads this, board
    {
      !board.selected
    }

    /** The board as a command leaves it, apart from the trace and the registers. */
    twostate predicate PinsKept()
      reads this, board
    {
      && board.status == old(board.status)
      && board.ceLatch == old(board.ceLatch)
      && board.cePin == old(board.cePin)
    }

    /** The bus trace and the register file after `o`, with the CE pin untouched and STATUS cached. */
    twostate predicate Performed(new o: Outcome)
      reads this, board
    {
      && Valid()
      && PinsKept()
      && board.trace == old(board.trace) + o.events
      && board.regs == o.regs
      && currentMode == old(currentMode)
      && lastStatus == old(board.status)
    }

    constructor (board: Board)
      requires !board.selected
      ensures Valid() && this.board == board
      ensures currentMode == MODE_NONE && lastStatus == 0
    {
      this.board := board;
      currentMode := MODE_NONE;
      lastStatus := 0;
    }

    // -------------------------------------------------------------------
    // Framing and register I/O

    /**
     * `send_command`: one chip-select transaction; the command word first,
     * with STATUS clocked back into lastStatus, then `n` data bytes, LSByte
     * first when `lsbyteFirst`.  `dataIn` holds the bytes read back.
     */
    method SendCommand(commandWord: byte, dataOut: Option<seq<byte>>, n: byte, lsbyteFirst: bool)
      returns (dataIn: seq<byte>)
      requires Valid()
      requires dataOut.Some? ==> |dataOut.value| == n as int
      modifies this, board
      ensures var o := Command(old(board.regs), old(board.status), commandWord, dataOut, n, lsbyteFirst);
        Performed(o) && dataIn == o.dataIn
    {
      ghost var regs0, status0, trace0 := board.regs, board.status, board.trace;
      ghost var head := [Acquire, Exchange(Some([commandWord]), [status0])];
      OpenCommand(commandWord);
      if n == 0 {
        board.Deselect();
        AppendAssociative(trace0, head, [Release]);
        return [];
      }
      dataIn := ExchangeData(n, dataOut, lsbyteFirst);
      board.Deselect();
      ghost var data := Exchange(WireOut(dataOut, lsbyteFirst), Reply(regs0, commandWord, n as nat));
      AppendAssociative(trace0 + head, [data], [Release]);
      AppendAssociative(trace0, head, [data, Release]);
    }

    /** The start of `send_command`: open the transaction, clock the command word, keep STATUS. */
    method OpenCommand(commandWord: byte)
      requires Valid()
      modifies this, board
      ensures board.selected && board.command == Some(commandWord)
      ensures board.trace == old(board.trace) + [Acquire, Exchange(Some([commandWord]), [old(board.status)])]
      ensures board.regs == old(board.regs) && PinsKept()
      ensures lastStatus == old(board.status) && currentMode == old(currentMode)
    {
      board.Select();
      var status := board.WriteRead(1, Some([commandWord]));
      lastStatus := status[0];
    }

    /** The data phase of `send_command`: `write_read_reverse` when LSByte first, `write_read` otherwise. */
    method ExchangeData(n: byte, dataOut: Option<seq<byte>>, lsbyteFirst: bool) returns (dataIn: seq<byte>)
      requires board.selected && board.command.Some?
      requires dataOut.Some? ==> |dataOut.value| == n as int
      modifies board
      ensures board.selected && board.command == old(board.command) && board.status == old(board.status)
      ensures var wireIn := Reply(old(board.regs), old(board.command).value, n as nat);
        var out := WireOut(dataOut, lsbyteFirst);
        && board.trace == old(board.trace) + [Exchange(out, wireIn)]
        && dataIn == Wire(wireIn, lsbyteFirst)
        && board.regs == Store(old(board.regs), old(board.command).value, out)
      ensures board.ceLatch == old(board.ceLatch) && board.cePin == old(board.cePin)
    {
      if lsbyteFirst {
        dataIn := board.WriteReadReverse(n as nat, dataOut);
      } else {
        dataIn := board.WriteRead(n as nat, dataOut);
        assert WireOut(dataOut, false) == dataOut;
      }
    }

    /** `read_register(address, in, lsbyte_first)`: read opcode, register width, no output bytes. */
    method ReadRegister(address: byte, lsbyteFirst: bool) returns (data: seq<byte>)
      requires Valid()
      modifies this, board
      ensures var o := Command(old(board.regs), old(board.status), ReadCommand(address), None,
                               RegisterBytes(address), lsbyteFirst);
        Performed(o) && data == o.dataIn
    {
      data := SendCommand(ReadCommand(address), None, RegisterBytes(address), lsbyteFirst);
    }

    /** `write_register(address, data, lsbyte_first)`: write opcode, register width, no input buffer. */
    method WriteRegister(address: byte, data: seq<byte>, lsbyteFirst: bool)
      requires Valid()
      requires |data| == RegisterBytes(address) as int
      modifies this, board
      ensures Performed(Command(old(board.regs), old(board.status), WriteCommand(address), Some(data),
                                RegisterBytes(address), lsbyteFirst))
    {
      var _ := SendCommand(WriteCommand(address), Some(data), RegisterBytes(address), lsbyteFirst);
    }

    /** `write_register(address, uint8_t data)`: the value passed by address, so only for one-byte registers. */
    method WriteRegisterByte(address: byte, value: byte)
      requires Valid()
      requires RegisterBytes(address) == 1
      modifies this, board
      ensures Performed(Command(old(board.regs), old(board.status), WriteCommand(address), Some([value]), 1, false))
    {
      WriteRegister(address, [value], false);
    }

    /** Read-modify-write of a one-byte register below 0x20 (the shared shape of the bit accessors). */
    method UpdateRegister(address: byte, f: byte -> byte)
      requires Valid()
      requires address < 0x20 && RegisterBytes(address) == 1
      modifies this, board
      ensures Performed(ReadModifyWrite(old(board.regs), old(board.status), address, f))
    {
      var current := ReadRegister(address, false);
      WriteRegisterByte(address, f(current[0]));
    }

    /** `no_operation`: the NOP command word alone, to refresh lastStatus. */
    method NoOperation()
      requires Valid()
      modifies this, board
      ensures Performed(Outcome([Acquire, Exchange(Some([RF24_NOP]), [old(board.status)]), Release], [], old(board.regs)))
    {
      var _ := SendCommand(RF24_NOP, None, 0, false);
    }

    // -------------------------------------------------------------------
    // Mode and power

    /** `get_mode`. */
    function GetMode(): byte
      reads this
    {
      currentMode
    }

    /**
     * `mode(newMode)`: nothing at all when the mode is already current.
     * Otherwise the new mode is recorded first; then, when leaving PTX or
     * PRX, CE goes low; PTX clears and PRX sets PRIM_RX with a
     * read-modify-write of CONFIG, and PRX then raises CE.
     */
    method Mode(newMode: byte)
      requires Valid()
      modifies this, board
      ensures Valid() && currentMode == newMode && GetMode() == newMode
      ensures old(currentMode) == newMode ==> unchanged(board) && lastStatus == old(lastStatus)
      ensures var o := ModeSteps(old(board.regs), old(board.status), old(currentMode), newMode);
        board.trace == old(board.trace) + o.events && board.regs == o.regs
      ensures board.status == old(board.status)
      ensures lastStatus ==
        if old(currentMode) != newMode && (newMode == MODE_PTX || newMode == MODE_PRX)
        then old(board.status) else old(lastStatus)
      ensures var fromActive := old(currentMode) == MODE_PTX || old(currentMode) == MODE_PRX;
        && board.ceLatch == (if old(currentMode) == newMode then old(board.ceLatch)
                             else if newMode == MODE_PRX then true
                             else if fromActive then false
                             else old(board.ceLatch))
        && board.cePin == (if old(currentMode) == newMode then old(board.cePin)
                           else if newMode == MODE_PRX then true
                           else if fromActive then false
                           else old(board.cePin))
    {
      if currentMode == newMode {
        return;
      }
      ChangeMode(newMode);
    }

    /** `mode(newMode)` past its early return: CE settles when leaving PTX or PRX, then the register work. */
    method ChangeMode(newMode: byte)
      requires Valid() && currentMode != newMode
      modifies this, board
      ensures Valid() && currentMode == newMode
      ensures var o := ModeSteps(old(board.regs), old(board.status), old(currentMode), newMode);
        board.trace == old(board.trace) + o.events && board.regs == o.regs
      ensures board.status == old(board.status)
      ensures lastStatus == if newMode == MODE_PTX || newMode == MODE_PRX then old(board.status) else old(lastStatus)
      ensures var fromActive := old(currentMode) == MODE_PTX || old(currentMode) == MODE_PRX;
        && board.ceLatch == (if newMode == MODE_PRX then true else if fromActive then false else old(board.ceLatch))
        && board.cePin == (if newMode == MODE_PRX then true else if fromActive then false else old(board.cePin))
    {
      ghost var from, regs0, status0, trace0 := currentMode, board.regs, board.status, board.trace;
      var fromActiveState := currentMode == MODE_PRX || currentMode == MODE_PTX;
      currentMode := newMode;
      LeaveActive(newMode, fromActiveState, from);
      EnterMode(newMode);
      ModeStepsSplit(regs0, status0, from, newMode);
      AppendAssociative(trace0, Settle(from), ModeWork(regs0, status0, newMode).events);
    }

    /**
     * The first half of a mode change, entered with the new mode already
     * recorded: CE low and settled iff the old mode was PTX or PRX.
     */
    method LeaveActive(newMode: byte, fromActiveState: bool, ghost from: byte)
      requires currentMode == newMode
      requires fromActiveState <==> from == MODE_PTX || from == MODE_PRX
      modifies board
      ensures board.trace == old(board.trace) + Settle(from)
      ensures board.regs == old(board.regs) && board.status == old(board.status)
      ensures board.selected == old(board.selected) && board.command == old(board.command)
      ensures board.ceLatch == (if fromActiveState then false else old(board.ceLatch))
      ensures board.cePin == (if fromActiveState then false else old(board.cePin))
    {
      if fromActiveState {
        PulseCe(false);
      }
    }

    /** The register work of `mode(newMode)`, entered with the new mode already recorded and CE settled: PTX, PRX or nothing. */
    method EnterMode(newMode: byte)
      requires Valid() && currentMode == newMode
      modifies this, board
      ensures var work := ModeWork(old(board.regs), old(board.status), newMode);
        board.trace == old(board.trace) + work.events && board.regs == work.regs
      ensures Valid() && currentMode == newMode && board.status == old(board.status)
      ensures lastStatus == if newMode == MODE_PTX || newMode == MODE_PRX then old(board.status) else old(lastStatus)
      ensures board.ceLatch == (if newMode == MODE_PRX then true else old(board.ceLatch))
      ensures board.cePin == (if newMode == MODE_PRX then true else old(board.cePin))
    {
      if newMode == MODE_PTX {
        EnterTransmit();
      } else if newMode == MODE_PRX {
        EnterReceive();
      }
    }

    /** The PTX half of `mode`: PRIM_RX cleared in CONFIG. */
    method EnterTransmit()
      requires Valid()
      modifies this, board
      ensures var work := ModeWork(old(board.regs), old(board.status), MODE_PTX);
        board.trace == old(board.trace) + work.events && board.regs == work.regs
      ensures Valid() && currentMode == old(currentMode) && lastStatus == old(board.status)
      ensures board.status == old(board.status)
      ensures board.ceLatch == old(board.ceLatch) && board.cePin == old(board.cePin)
    {
      UpdateRegister(CONFIG, ClearPrimRx);
    }

    /** The PRX half of `mode`: PRIM_RX set in CONFIG, then CE raised. */
    method EnterReceive()
      requires Valid()
      modifies this, board
      ensures var work := ModeWork(old(board.regs), old(board.status), MODE_PRX);
        board.trace == old(board.trace) + work.events && board.regs == work.regs
      ensures Valid() && currentMode == old(currentMode) && lastStatus == old(board.status)
      ensures board.status == old(board.status) && board.ceLatch && board.cePin
    {
      ghost var rmw := ReadModifyWrite(board.regs, board.status, CONFIG, SetPrimRx);
      UpdateRegister(CONFIG, SetPrimRx);
      ghost var configured := board.trace;
      PulseCe(true);
      assert board.trace == configured + StartListening;
      assert board.trace == old(board.trace) + (rmw.events + StartListening);
    }

    /** CE written, pushed to the pin, then the 130 us the radio needs to settle. */
    method PulseCe(level: bool)
      modifies board
      ensures board.trace == old(board.trace) + [CeWrite(level), CeFlush, Wait(130)]
      ensures board.ceLatch == level && board.cePin == level
      ensures board.regs == old(board.regs) && board.status == old(board.status)
      ensures board.selected == old(board.selected) && board.command == old(board.command)
    {
      board.WriteCe(level);
      board.FlushCe();
      board.WaitUs(130);
    }

    /** `power(value)`: set or clear PWR_UP in CONFIG by a read-modify-write, keeping its other bits. */
    method Power(value: bool)
      requires Valid()
      modifies this, board
      ensures Performed(ReadModifyWrite(old(board.regs), old(board.status), CONFIG, if value then PowerUp else PowerDown))
    {
      UpdateRegister(CONFIG, if value then PowerUp else PowerDown);
    }

    // -------------------------------------------------------------------
    // Configuration

    /** `auto_retransmit(retry_delay, retry_count)`: one write of the packed byte to SETUP_RETR. */
    method AutoRetransmit(retryDelay: byte, retryCount: byte)
      requires Valid()
      modifies this, board
      ensures Performed(Command(old(board.regs), old(board.status), WriteCommand(SETUP_RETR),
                                Some([RetransmitByte(retryDelay, retryCount)]), 1, false))
      ensures board.regs == old(board.regs)[SETUP_RETR as nat := [RetransmitByte(retryDelay, retryCount)]]
    {
      WriteStores(board.regs, board.status, SETUP_RETR, [RetransmitByte(retryDelay, retryCount)], false);
      WriteRegisterByte(SETUP_RETR, (retryDelay << 4) | retryCount);
    }

    /** `channel(c)`: one write of `c & 0xEF` to RF_CH. */
    method Channel(channel: byte)
      requires Valid()
      modifies this, board
      ensures Performed(Command(old(board.regs), old(board.status), WriteCommand(RF_CH),
                                Some([ChannelByte(channel)]), 1, false))
      ensures board.regs == old(board.regs)[RF_CH as nat := [ChannelByte(channel)]]
    {
      WriteStores(board.regs, board.status, RF_CH, [ChannelByte(channel)], false);
      WriteRegisterByte(RF_CH, channel & 0xEF);
    }

    /** Corrected `channel(c)`: one write of `c & 0x7F` to RF_CH, which every valid channel passes unchanged. */
    method ChannelIntended(channel: byte)
      requires Valid()
      modifies this, board
      ensures Performed(Command(old(board.regs), old(board.status), WriteCommand(RF_CH),
                                Some([ChannelByteIntended(channel)]), 1, false))
      ensures board.regs == old(board.regs)[RF_CH as nat := [ChannelByteIntended(channel)]]
    {
      WriteStores(board.regs, board.status, RF_CH, [ChannelByteIntended(channel)], false);
      WriteRegisterByte(RF_CH, channel & 0x7F);
    }

    /** `fifo_status`: the FIFO_STATUS register as read. */
    method FifoStatus() returns (status: byte)
      requires Valid()
      modifies this, board
      ensures Performed(Command(old(board.regs), old(board.status), ReadCommand(FIFO_STATUS), None, 1, false))
      ensures status == RegisterValue(old(board.regs), FIFO_STATUS) && board.regs == old(board.regs)
    {
      ReadReturnsStored(board.regs, board.status, FIFO_STATUS, false);
      var data := ReadRegister(FIFO_STATUS, false);
      status := data[0];
    }

    // -------------------------------------------------------------------
    // Payloads and FIFOs

    /** `rx_payload_width`: R_RX_PL_WID with one data byte. */
    method RxPayloadWidth() returns (width: byte)
      requires Valid()
      modifies this, board
      ensures var o := Command(old(board.regs), old(board.status), R_RX_PL_WID, None, 1, false);
        Performed(o) && [width] == o.dataIn
    {
      var data := SendCommand(R_RX_PL_WID, None, 1, false);
      width := data[0];
    }

    /** `rx_read_payload(data, payload_width)`: R_RX_PAYLOAD with `payloadWidth` data bytes. */
    method RxReadPayload(payloadWidth: byte := 32) returns (data: seq<byte>)
      requires Valid()
      modifies this, board
      ensures var o := Command(old(board.regs), old(board.status), R_RX_PAYLOAD, None, payloadWidth, false);
        Performed(o) && data == o.dataIn && |data| == payloadWidth as int
    {
      data := SendCommand(R_RX_PAYLOAD, None, payloadWidth, false);
    }

    /** `rx_flush`: the FLUSH_RX command word alone. */
    method RxFlush()
      requires Valid()
      modifies this, board
      ensures Performed(Outcome([Acquire, Exchange(Some([FLUSH_RX]), [old(board.status)]), Release], [], old(board.regs)))
    {
      var _ := SendCommand(FLUSH_RX, None, 0, false);
    }

    /** `tx_flush`: the FLUSH_TX command word alone. */
    method TxFlush()
      requires Valid()
      modifies this, board
      ensures Performed(Outcome([Acquire, Exchange(Some([FLUSH_TX]), [old(board.status)]), Release], [], old(board.regs)))
    {
      var _ := SendCommand(FLUSH_TX, None, 0, false);
    }

    /** `tx_send_payload`: CE high, 10 us, CE low; the pin is written but never flushed. */
    method TxSendPayload()
      requires Valid()
      modifies board
      ensures Valid() && board.regs == old(board.regs) && board.status == old(board.status)
      ensures board.trace == old(board.trace) + [CeWrite(true), Wait(10), CeWrite(false)]
      ensures !board.ceLatch && board.cePin == old(board.cePin)
    {
      board.WriteCe(true);
      board.WaitUs(10);
      board.WriteCe(false);
    }

    /** `tx_write_payload(data, size, noack)`: W_TX_PAYLOAD(_NO_ACK) with `size` bytes, then the CE pulse. */
    method TxWritePayload(data: seq<byte>, size: byte, noack: bool)
      requires Valid()
      requires |data| == size as int
      modifies this, board
      ensures Valid() && currentMode == old(currentMode) && lastStatus == old(board.status)
      ensures var o := Command(old(board.regs), old(board.status),
                               if noack then W_TX_PAYLOAD_NO_ACK else W_TX_PAYLOAD, Some(data), size, false);
        && board.trace == old(board.trace) + o.events + [CeWrite(true), Wait(10), CeWrite(false)]
        && board.regs == o.regs
      ensures board.status == old(board.status) && !board.ceLatch && board.cePin == old(board.cePin)
    {
      if noack {
        var _ := SendCommand(W_TX_PAYLOAD_NO_ACK, Some(data), size, false);
      } else {
        var _ := SendCommand(W_TX_PAYLOAD, Some(data), size, false);
      }
      TxSendPayload();
    }

    // -------------------------------------------------------------------
    // Per-pipe and all-pipe accessors

    /** `rx_auto_acknowledgement(pipe, value)`: bit `pipe` of EN_AA. */
    method RxAutoAcknowledgement(pipe: byte, value: bool)
      requires Valid() && pipe <= 5
      modifies this, board
      ensures Performed(ReadModifyWrite(old(board.regs), old(board.status), EN_AA, v => SetBit(v, pipe, value)))
    {
      UpdateRegister(EN_AA, v => SetBit(v, pipe, value));
    }

    /** `rx_auto_acknowledgement(value)`: EN_AA written with all pipes or none, without a read. */
    method RxAutoAcknowledgementAll(value: bool)
      requires Valid()
      modifies this, board
      ensures Performed(Command(old(board.regs), old(board.status), WriteCommand(EN_AA), Some([AllPipes(value)]), 1, false))
    {
      WriteRegisterByte(EN_AA, if value then 0x3F else 0x00);
    }

    /** `rx_enabled(pipe, value)`: bit `pipe` of EN_RXADDR. */
    method RxEnabled(pipe: byte, value: bool)
      requires Valid() && pipe <= 5
      modifies this, board
      ensures Performed(ReadModifyWrite(old(board.regs), old(board.status), EN_RXADDR, v => SetBit(v, pipe, value)))
    {
      UpdateRegister(EN_RXADDR, v => SetBit(v, pipe, value));
    }

    /** `rx_enabled(value)`: EN_RXADDR written with all pipes or none, without a read. */
    method RxEnabledAll(value: bool)
      requires Valid()
      modifies this, board
      ensures Performed(Command(old(board.regs), old(board.status), WriteCommand(EN_RXADDR), Some([AllPipes(value)]), 1, false))
    {
      WriteRegisterByte(EN_RXADDR, if value then 0x3F else 0x00);
    }

    /** `rx_set_dynamic_payload_length(pipe, enabled)`: bit `pipe` of DYNPD. */
    method RxSetDynamicPayloadLength(pipe: byte, enabled: bool)
      requires Valid() && pipe <= 5
      modifies this, board
      ensures Performed(ReadModifyWrite(old(board.regs), old(board.status), DYNPD, v => SetBit(v, pipe, enabled)))
    {
      UpdateRegister(DYNPD, v => SetBit(v, pipe, enabled));
    }

    /** `rx_set_dynamic_payload_length(enabled)`: DYNPD written with all pipes or none, without a read. */
    method RxSetDynamicPayloadLengthAll(enabled: bool)
      requires Valid()
      modifies this, board
      ensures Performed(Command(old(board.regs), old(board.status), WriteCommand(DYNPD), Some([AllPipes(enabled)]), 1, false))
    {
      WriteRegisterByte(DYNPD, if enabled then 0x3F else 0x00);
    }

    /** `rx_set_payload_width(pipe, width)`: one write of `width & 0x3F` to RX_PW_P0 + pipe. */
    method RxSetPayloadWidth(pipe: byte, width: byte)
      requires Valid() && pipe <= 5
      modifies this, board
      ensures Performed(Command(old(board.regs), old(board.status), WriteCommand(RX_PW_P0 + pipe),
                                Some([PayloadWidthByte(width)]), 1, false))
    {
      WriteRegisterByte(RX_PW_P0 + pipe, width & 0x3F);
    }

    /** `rx_set_payload_width(width)`: the per-pipe form for pipes 0 to 5, in that order. */
    method RxSetPayloadWidthAll(width: byte)
      requires Valid()
      modifies this, board
      ensures Performed(WidthWrites(old(board.regs), old(board.status), width, 6))
    {
      ghost var regs0, status0, trace0 := board.regs, board.status, board.trace;
      var i: byte := 0;
      while i < 6
        invariant i <= 6 && Valid() && PinsKept() && currentMode == old(currentMode)
        invariant i > 0 ==> lastStatus == status0
        invariant var o := WidthWrites(regs0, status0, width, i as nat);
          board.trace == trace0 + o.events && board.regs == o.regs
      {
        ghost var prev := WidthWrites(regs0, status0, width, i as nat);
        ghost var wr := Command(board.regs, status0, WriteCommand(RX_PW_P0 + i), Some([PayloadWidthByte(width)]), 1, false);
        assert WidthRegister(i as nat) == RX_PW_P0 + i;
        assert WidthWrites(regs0, status0, width, i as nat + 1) == Outcome(prev.events + wr.events, [], wr.regs);
        RxSetPayloadWidth(i, width);
        AppendAssociative(trace0, prev.events, wr.events);
        i := i + 1;
      }
    }

    /** `rx_get_payload_width(pipe)`: RX_PW_P0 + pipe as read. */
    method RxGetPayloadWidth(pipe: byte) returns (width: byte)
      requires Valid() && pipe <= 5
      modifies this, board
      ensures Performed(Command(old(board.regs), old(board.status), ReadCommand(RX_PW_P0 + pipe), None, 1, false))
      ensures width == RegisterValue(old(board.regs), RX_PW_P0 + pipe)
    {
      ReadReturnsStored(board.regs, board.status, RX_PW_P0 + pipe, false);
      var data := ReadRegister(RX_PW_P0 + pipe, false);
      width := data[0];
    }

    // -------------------------------------------------------------------
    // Addresses

    /** `tx_set_address(a)`: TX_ADDR written LSByte first. */
    method TxSetAddress(a: Address)
      requires Valid()
      modifies this, board
      ensures Performed(Command(old(board.regs), old(board.status), WriteCommand(TX_ADDR), Some(a.bytes), 5, true))
      ensures board.regs == TxAddressWritten(old(board.regs), a)
    {
      WriteStores(board.regs, board.status, TX_ADDR, a.bytes, true);
      WriteRegister(TX_ADDR, a.bytes, true);
    }

    /** `tx_get_address()`: TX_ADDR read in wire order (not reversed). */
    method TxGetAddress() returns (a: Address)
      requires Valid()
      modifies this, board
      ensures Performed(Command(old(board.regs), old(board.status), ReadCommand(TX_ADDR), None, 5, false))
      ensures a == TxAddressRead(old(board.regs))
    {
      ReadReturnsStored(board.regs, board.status, TX_ADDR, false);
      var data := ReadRegister(TX_ADDR, false);
      a := Of(data[0], data[1], data[2], data[3], data[4]);
      assert a.bytes == data;
    }

    /** Corrected `tx_get_address()`: TX_ADDR read LSByte first, matching `tx_set_address`. */
    method TxGetAddressLsbFirst() returns (a: Address)
      requires Valid()
      modifies this, board
      ensures Performed(Command(old(board.regs), old(board.status), ReadCommand(TX_ADDR), None, 5, true))
      ensures a == TxAddressReadLsbFirst(old(board.regs))
    {
      ReadReturnsStored(board.regs, board.status, TX_ADDR, true);
      var data := ReadRegister(TX_ADDR, true);
      a := Of(data[0], data[1], data[2], data[3], data[4]);
      assert a.bytes == data;
    }

    /**
     * `rx_get_address(pipe)`: pipes 0 and 1 read their 5-byte register LSByte
     * first; pipes 2 to 5 combine RX_ADDR_P1, read in wire order, with their
     * own one-byte register.
     */
    method RxGetAddress(pipe: byte) returns (a: Address)
      requires Valid() && pipe <= 5
      modifies this, board
      ensures Valid() && PinsKept() && currentMode == old(currentMode) && lastStatus == old(board.status)
      ensures board.regs == old(board.regs) && a == RxAddressRead(old(board.regs), pipe)
      ensures pipe > 1 ==> (board.trace == old(board.trace)
        + Command(old(board.regs), old(board.status), ReadCommand(RX_ADDR_P1), None, 5, false).events
        + Command(old(board.regs), old(board.status), ReadCommand(RX_ADDR_P0 + pipe), None, 1, false).events)
      ensures pipe <= 1 ==> (board.trace == old(board.trace)
        + Command(old(board.regs), old(board.status), ReadCommand(RX_ADDR_P0 + pipe), None, 5, true).events)
    {
      ReadReturnsStored(board.regs, board.status, RX_ADDR_P0 + pipe, pipe <= 1);
      if pipe > 1 {
        ReadReturnsStored(board.regs, board.status, RX_ADDR_P1, false);
        var baseBytes := ReadRegister(RX_ADDR_P1, false);
        var baseAddress := Address(baseBytes);
        var end := ReadRegister(RX_ADDR_P0 + pipe, false);
        a := FromBase(baseAddress, end[0]);
        return;
      }
      var raw := ReadRegister(RX_ADDR_P0 + pipe, true);
      var buffer := new byte[5](k => if 0 <= k < |raw| then raw[k] else 0);
      assert buffer[..] == raw;
      a := FromArray(buffer);
    }

    /** Corrected `rx_get_address(pipe)`: shared pipes take RX_ADDR_P1 LSByte first, as it was written. */
    method RxGetAddressLsbFirst(pipe: byte) returns (a: Address)
      requires Valid() && pipe <= 5
      modifies this, board
      ensures Valid() && PinsKept() && currentMode == old(currentMode) && lastStatus == old(board.status)
      ensures board.regs == old(board.regs) && a == RxAddressReadLsbFirst(old(board.regs), pipe)
      ensures pipe > 1 ==> (board.trace == old(board.trace)
        + Command(old(board.regs), old(board.status), ReadCommand(RX_ADDR_P1), None, 5, true).events
        + Command(old(board.regs), old(board.status), ReadCommand(RX_ADDR_P0 + pipe), None, 1, false).events)
      ensures pipe <= 1 ==> (board.trace == old(board.trace)
        + Command(old(board.regs), old(board.status), ReadCommand(RX_ADDR_P0 + pipe), None, 5, true).events)
    {
      if pipe > 1 {
        ReadReturnsStored(board.regs, board.status, RX_ADDR_P1, true);
        ReadReturnsStored(board.regs, board.status, RX_ADDR_P0 + pipe, false);
        var baseBytes := ReadRegister(RX_ADDR_P1, true);
        var end := ReadRegister(RX_ADDR_P0 + pipe, false);
        a := FromBase(Address(baseBytes), end[0]);
      } else {
        a := RxGetAddress(pipe);
      }
    }

    /** `rx_set_address(pipe, a)`: pipes 0 and 1 get all five bytes LSByte first, pipes 2 to 5 only the fifth byte. */
    method RxSetAddress(pipe: byte, a: Address)
      requires Valid() && pipe <= 5
      modifies this, board
      ensures Performed(Command(old(board.regs), old(board.status), WriteCommand(RX_ADDR_P0 + pipe),
                                Some(if pipe > 1 then [a.bytes[4]] else a.bytes), if pipe > 1 then 1 else 5, true))
      ensures board.regs == RxAddressWritten(old(board.regs), pipe, a)
    {
      if pipe > 1 {
        WriteStores(board.regs, board.status, RX_ADDR_P0 + pipe, [a.bytes[4]], true);
        assert Wire([a.bytes[4]], true) == [a.bytes[4]];
        WriteRegister(RX_ADDR_P0 + pipe, a.bytes[4..5], true);
        assert a.bytes[4..5] == [a.bytes[4]];
      } else {
        WriteStores(board.regs, board.status, RX_ADDR_P0 + pipe, a.bytes, true);
        WriteRegister(RX_ADDR_P0 + pipe, a.bytes, true);
      }
    }
  }
}
