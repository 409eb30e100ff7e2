/**
 * Traffic classification on the transmit path: the 802.1D user priority
 * (TID) read from an Ethernet frame, its access category, the receiver
 * address used to look up the peer, and the TWT transmit gate.
 */
module TxClassify {
  import opened Common
  import FmacUtil

  /** `enum nrf_wifi_fmac_ac`: the four WMM access categories and the
   *  multicast pseudo-class, in the order the driver's loops rely on. */
  const AC_BK: nat := 0
  const AC_BE: nat := 1
  const AC_VI: nat := 2
  const AC_VO: nat := 3
  const AC_MC: nat := 4
  const AC_MAX: nat := 5

  /** EtherTypes that carry a priority. */
  const ETH_P_IP: nat := 0x0800
  const ETH_P_8021Q: nat := 0x8100
  const ETH_P_IPV6: nat := 0x86DD
  const ETH_P_MPLS_UC: nat := 0x8847
  const ETH_P_MPLS_MC: nat := 0x8848
  const ETH_P_8021AD: nat := 0x88A8
  const ETH_P_80221: nat := 0x8917

  /** The EtherTypes `nrf_wifi_get_tid` reads a priority for. */
  predicate CarriesPriority(et: nat)
  {
    et in {ETH_P_8021Q, ETH_P_8021AD, ETH_P_MPLS_UC, ETH_P_MPLS_MC, ETH_P_IP, ETH_P_IPV6, ETH_P_80221}
  }

  /** The field masks, written as the arithmetic they select on the 16- and
   *  32-bit header words: `(tci & 0xE000) >> 13` is `tci / 0x2000`,
   *  `(hdr & 0x0FF0) >> 4` is `(hdr % 0x1000) / 0x10`, `x & 0xFC` is
   *  `x - x % 4`, and the MPLS mask `0x0E00 >> 9` is 7, so `hdr & 7` is
   *  `hdr % 8`. */
  const VLAN_PRIO_DIV: nat := 0x2000
  const MPLS_TC_MASK_AFTER_SHIFT: nat := 0x0E00 / 0x200
  const IPV6_TOS_MOD: nat := 0x1000
  const IPV6_TOS_DIV: nat := 0x10

  /** Interface types that matter to the transmit path. */
  datatype IfType = Station | Ap | ApVlan | MeshPoint | OtherIfType

  /**
   * Octet `i` of a frame. The classifier reads up to six octets past the
   * Ethernet header without checking the frame length; octets beyond the
   * frame are not modelled and read as 0.
   */
  function At(frame: seq<byte>, i: nat): byte
  {
    if i < |frame| then frame[i] else 0
  }

  /**
   * `nrf_wifi_get_tid`: the user priority of an Ethernet frame. For a VLAN
   * EtherType the two octets 4 and 5 past the Ethernet header (octets 18
   * and 19, after the tag's TCI and inner EtherType) are read and their
   * top three bits taken; IPv4 and IPv6 use the top three bits of the TOS /
   * traffic-class octet, IEEE 802.21 frames are network control (7), others 0.
   * The MPLS case keeps the source's operator precedence: the mask is
   * shifted, not the header, so the low three bits of the label stack entry
   * are taken.
   */
  function GetTid(frame: seq<byte>): (tid: nat)
    requires |frame| >= ETH_HDR_LEN
  {
    var etherType := FmacUtil.TxGetEthType(frame);
    var p := ETH_HDR_LEN;
    if etherType == ETH_P_8021Q || etherType == ETH_P_8021AD then
      var vlanTci := At(frame, p + 4) as int * 0x100 + At(frame, p + 5);
      vlanTci / VLAN_PRIO_DIV
    else if etherType == ETH_P_MPLS_UC || etherType == ETH_P_MPLS_MC then
      var mplsHdr := At(frame, p) as int * 0x100_0000 + At(frame, p + 1) as int * 0x1_0000
        + At(frame, p + 2) as int * 0x100 + At(frame, p + 3);
      mplsHdr % (MPLS_TC_MASK_AFTER_SHIFT + 1)
    else if etherType == ETH_P_IP then
      var tos: nat := At(frame, p + 1);
      var dscp := tos - tos % 4;
      dscp / 32
    else if etherType == ETH_P_IPV6 then
      var ipv6Hdr := At(frame, p) as int * 0x100 + At(frame, p + 1);
      var tc := (ipv6Hdr % IPV6_TOS_MOD) / IPV6_TOS_DIV;
      var dscp := tc - tc % 4;
      dscp / 32
    else if etherType == ETH_P_80221 then
      7
    else
      0
  }

  /**
   * Reference meaning of each classifier case: for a VLAN EtherType, the top
   * three bits of octet 18 of the frame (not of the TCI at octets 14 and
   * 15), the IPv4 precedence the top three
   * bits of the TOS octet, the IPv6 class the top three bits of the traffic
   * class, which straddles the first two octets. For MPLS the result is the
   * low three bits of the last octet of the label stack entry (part of its
   * TTL), not its traffic-class field.
   */
  lemma {:induction false} GetTidMeaning(frame: seq<byte>)
    requires |frame| >= ETH_HDR_LEN
    ensures GetTid(frame) < 8
    ensures var et := FmacUtil.TxGetEthType(frame);
      && (et == ETH_P_8021Q || et == ETH_P_8021AD ==> GetTid(frame) == At(frame, 18) / 32)
      && (et == ETH_P_MPLS_UC || et == ETH_P_MPLS_MC ==> GetTid(frame) == At(frame, 17) % 8)
      && (et == ETH_P_IP ==> GetTid(frame) == At(frame, 15) / 32)
      && (et == ETH_P_IPV6 ==> GetTid(frame) == (At(frame, 14) % 16) / 2)
      && (et == ETH_P_80221 ==> GetTid(frame) == 7)
      && (!CarriesPriority(et) ==> GetTid(frame) == 0)
  {
    var a, b, c, d := At(frame, 14), At(frame, 15), At(frame, 16), At(frame, 17);
    VlanPcp(At(frame, 18), At(frame, 19));
    MplsLow(a, b, c, d);
    TosPrecedence(b);
    Ipv6Class(a, b);
  }

  /** The VLAN priority mask and shift keep the top three bits of the
   *  first octet read. */
  lemma VlanPcp(hi: byte, lo: byte)
    ensures (hi as int * 0x100 + lo) / VLAN_PRIO_DIV == hi / 32
  {
    var t := hi as int * 0x100 + lo;
    assert t == (hi / 32) * 0x2000 + ((hi % 32) * 0x100 + lo);
  }

  lemma MplsLow(a: byte, b: byte, c: byte, d: byte)
    ensures (a as int * 0x100_0000 + b as int * 0x1_0000 + c as int * 0x100 + d)
            % (MPLS_TC_MASK_AFTER_SHIFT + 1) == d % 8
  {
    var h := a as int * 0x20_0000 + b as int * 0x2000 + c as int * 0x20;
    assert a as int * 0x100_0000 + b as int * 0x1_0000 + c as int * 0x100 + d == 8 * h + d;
  }

  lemma TosPrecedence(tos: byte)
    ensures (tos - tos % 4) / 32 == tos / 32
  {
  }

  lemma Ipv6Class(a: byte, b: byte)
    ensures var tc := ((a as int * 0x100 + b) % IPV6_TOS_MOD) / IPV6_TOS_DIV;
            (tc - tc % 4) / 32 == (a % 16) / 2
  {
    var h := a as int * 0x100 + b;
    assert h == (a / 16) * 0x1000 + ((a % 16) * 0x100 + b);
    assert h % 0x1000 == (a % 16) * 0x100 + b;
    var tc := (h % 0x1000) / 0x10;
    assert tc == (a % 16) * 0x10 + b / 16;
  }

  /** `map_ac_from_tid`: the driver's user-priority table, indexed by `tid & 7`. */
  function MapAcFromTid(tid: nat): (ac: nat)
  {
    [AC_BE, AC_BK, AC_BK, AC_BE, AC_VI, AC_VI, AC_VO, AC_VO][tid % 8]
  }

  /**
   * The user-priority to access-category mapping of IEEE 802.11-2016
   * section 10.2.4.2 (Table 10-1): priorities 1 and 2 are background, 0 and
   * 3 best effort, 4 and 5 video, 6 and 7 voice.
   */
  function UpToAc(up: nat): nat
    requires up < 8
  {
    if up == 1 || up == 2 then AC_BK
    else if up == 0 || up == 3 then AC_BE
    else if up == 4 || up == 5 then AC_VI
    else AC_VO
  }

  lemma MapAcFromTidIsStandard(tid: nat)
    ensures MapAcFromTid(tid) == UpToAc(tid % 8)
    ensures MapAcFromTid(tid) < AC_MC
  {
  }

  /** `get_ac`: group-addressed frames use the multicast class. */
  function GetAc(tid: nat, ra: MacAddr): (ac: nat)
    ensures FmacUtil.IsMulticastAddr(ra) <==> ac == AC_MC
    ensures !FmacUtil.IsMulticastAddr(ra) ==> ac == UpToAc(tid % 8)
  {
    MapAcFromTidIsStandard(tid);
    if FmacUtil.IsMulticastAddr(ra) then AC_MC else MapAcFromTid(tid)
  }

  /** `nrf_wifi_util_get_ra`: a station sends everything to its AP (the
   *  BSSID); other interfaces use the frame's destination address. */
  function GetRa(ifType: IfType, bssid: MacAddr, frame: seq<byte>): (ra: MacAddr)
    requires |frame| >= ETH_ADDR_LEN
    ensures ifType == Station ==> ra == bssid
    ensures ifType != Station ==> ra == frame[..ETH_ADDR_LEN]
  {
    if ifType == Station then bssid else frame[..ETH_ADDR_LEN]
  }

  /** `can_xmit`: TWT-emergency frames may always go; others only while the
   *  target-wake-time state is awake. */
  predicate CanXmit(emergency: bool, twtAwake: bool)
  {
    emergency || twtAwake
  }
}
