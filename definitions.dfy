/*
 * Register addresses, CONFIG bit masks and SPI instruction words of the
 * nRF24L01+ transceiver, as the driver uses them.
 */
module Definitions {

  /** An 8-bit value on the SPI bus (uint8_t). */
  type byte = bv8

  // Register map
  const CONFIG: byte := 0x00
  const EN_AA: byte := 0x01
  const EN_RXADDR: byte := 0x02
  const SETUP_AW: byte := 0x03
  const SETUP_RETR: byte := 0x04
  const RF_CH: byte := 0x05
  const RF_SETUP: byte := 0x06
  const NRF_STATUS: byte := 0x07
  const OBSERVE_TX: byte := 0x08
  const RPD: byte := 0x09
  const RX_ADDR_P0: byte := 0x0A
  const RX_ADDR_P1: byte := 0x0B
  const RX_ADDR_P2: byte := 0x0C
  const RX_ADDR_P3: byte := 0x0D
  const RX_ADDR_P4: byte := 0x0E
  const RX_ADDR_P5: byte := 0x0F
  const TX_ADDR: byte := 0x10
  const RX_PW_P0: byte := 0x11
  const RX_PW_P1: byte := 0x12
  const RX_PW_P2: byte := 0x13
  const RX_PW_P3: byte := 0x14
  const RX_PW_P4: byte := 0x15
  const RX_PW_P5: byte := 0x16
  const FIFO_STATUS: byte := 0x17
  const DYNPD: byte := 0x1C
  const FEATURE: byte := 0x1D

  // CONFIG register bits
  const CONFIG_PWR_UP: byte := 0x02
  const CONFIG_PRIM_RX: byte := 0x01

  // SPI instruction words
  const R_REGISTER: byte := 0x00
  const W_REGISTER: byte := 0x20
  const R_RX_PL_WID: byte := 0x60
  const R_RX_PAYLOAD: byte := 0x61
  const W_TX_PAYLOAD: byte := 0xA0
  const W_TX_PAYLOAD_NO_ACK: byte := 0xB0
  const W_ACK_PAYLOAD: byte := 0xA8
  const FLUSH_TX: byte := 0xE1
  const FLUSH_RX: byte := 0xE2
  const REUSE_TX_PL: byte := 0xE3
  const RF24_NOP: byte := 0xFF
}
