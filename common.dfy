/**
 * Types shared by every part of the nRF70 data-plane model: bytes, link-layer
 * addresses, optional values and the status codes the driver returns.
 */
module Common {

  /** An octet, the element of every frame and firmware blob. */
  type byte = x: int | 0 <= x < 256

  /** A 32-bit unsigned machine word. */
  type u32 = x: int | 0 <= x < 0x1_0000_0000

  /** A 6-octet IEEE 802 MAC address. */
  type MacAddr = s: seq<byte> | |s| == 6 witness [0, 0, 0, 0, 0, 0]

  datatype Option<T> = None | Some(value: T)

  /** `enum nrf_wifi_status`: the general success/failure code. */
  datatype Status = Success | Fail

  /** `enum nrf_wifi_fmac_tx_status`: the transmit path adds "queued". */
  datatype TxStatus = TxSuccess | TxFail | TxQueued

  /** The cast `(enum nrf_wifi_fmac_tx_status)` of a general status. */
  function AsTxStatus(s: Status): (t: TxStatus)
    ensures t != TxQueued
    ensures (t == TxSuccess) <==> (s == Success)
  {
    if s == Success then TxSuccess else TxFail
  }

  const ETH_ADDR_LEN: nat := 6
  const ETH_HDR_LEN: nat := 14

  /** `MAX_NUM_OF_RX_QUEUES`: the number of receive buffer pools. */
  const MAX_NUM_OF_RX_QUEUES: nat := 3

  /** The value of two octets read as a big-endian 16-bit word. */
  function BigEndian16(hi: byte, lo: byte): nat
  {
    (hi as int) * 256 + lo
  }

  lemma BigEndian16Split(hi: byte, lo: byte)
    ensures BigEndian16(hi, lo) < 0x1_0000
    ensures BigEndian16(hi, lo) / 256 == hi && BigEndian16(hi, lo) % 256 == lo
  {
  }
}
