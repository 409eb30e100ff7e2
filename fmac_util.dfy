/**
 * Link-layer helpers of the FMAC layer: the I/G bit test, address comparison,
 * EtherType extraction, the operating-mode check and the all-zero test.
 */
module FmacUtil {
  import opened Common

  /** True when the I/G (group) bit, bit 0 of the first octet, is set. */
  predicate IsMulticastAddr(addr: MacAddr)
  {
    addr[0] % 2 == 1
  }

  function IsUnicastAddr(addr: MacAddr): (r: bool)
    ensures r <==> !IsMulticastAddr(addr)
    ensures r <==> addr[0] % 2 == 0
  {
    !IsMulticastAddr(addr)
  }

  /** The i-th 16-bit word of an address, as the source reads it through an
   *  `unsigned short *` (little-endian host). */
  function Word(a: MacAddr, i: nat): nat
    requires i < 3
  {
    a[2 * i] as int + 256 * (a[2 * i + 1] as int)
  }

  lemma WordInjective(a: MacAddr, b: MacAddr, i: nat)
    requires i < 3
    ensures Word(a, i) == Word(b, i) <==> a[2 * i] == b[2 * i] && a[2 * i + 1] == b[2 * i + 1]
  {
  }

  /**
   * Address comparison by three word-wise differences: the OR of the three
   * XORs is zero exactly when every word pair is equal.
   */
  function EtherAddrEqual(a: MacAddr, b: MacAddr): (r: bool)
    ensures r <==> a == b
  {
    WordInjective(a, b, 0);
    WordInjective(a, b, 1);
    WordInjective(a, b, 2);
    assert (forall k | 0 <= k < 6 :: a[k] == b[k]) ==> a == b;
    Word(a, 0) == Word(b, 0) && Word(a, 1) == Word(b, 1) && Word(a, 2) == Word(b, 2)
  }

  /** EtherType of a received frame after the 6-octet LLC/SNAP header. */
  function RxGetEthType(payload: seq<byte>): (r: nat)
    requires |payload| >= 8
    ensures r < 0x1_0000
    ensures r / 256 == payload[6] && r % 256 == payload[7]
  {
    BigEndian16Split(payload[6], payload[7]);
    BigEndian16(payload[6], payload[7])
  }

  /** EtherType of an Ethernet frame to transmit, after both addresses. */
  function TxGetEthType(frame: seq<byte>): (r: nat)
    requires |frame| >= ETH_HDR_LEN
    ensures r < 0x1_0000
    ensures r / 256 == frame[12] && r % 256 == frame[13]
  {
    BigEndian16Split(frame[12], frame[13]);
    BigEndian16(frame[12], frame[13])
  }

  /** Operating-mode bits of `nrf_wifi_check_mode_validity`. */
  const STA_MODE: byte := 1
  const MONITOR_MODE: byte := 2

  /**
   * Only station mode is supported, and monitor mode as well when raw
   * reception is built in (`rawRxBuiltIn`).
   */
  function CheckModeValidity(mode: byte, rawRxBuiltIn: bool): (s: Status)
    ensures s == Success <==> mode == STA_MODE || (rawRxBuiltIn && mode == MONITOR_MODE)
  {
    if mode == STA_MODE then Success
    else if rawRxBuiltIn && mode == MONITOR_MODE then Success
    else Fail
  }

  /** Scans the first `size` bytes of `arr` and stops at the first non-zero one. */
  method IsArrZero(arr: seq<byte>, size: nat) returns (r: bool)
    requires size <= |arr|
    ensures r <==> forall i :: 0 <= i < size ==> arr[i] == 0
  {
    var i := 0;
    while i < size
      invariant i <= size
      invariant forall k :: 0 <= k < i ==> arr[k] == 0
    {
      if arr[i] != 0 {
        return false;
      }
      i := i + 1;
    }
    return true;
  }
}
