/**
 * The receive path of the FMAC layer (`rx.c`): the descriptor-to-pool lookup,
 * the conversion of received 802.11 and A-MSDU frames to Ethernet frames on a
 * network buffer with a movable head, the receive-buffer lifecycle of
 * `nrf_wifi_fmac_rx_cmd_send` and the batch loop of
 * `nrf_wifi_fmac_rx_event_process`.
 *
 * The buffer operations are value-level functions; the engine that owns the
 * per-descriptor buffer table is a class whose methods are proved against
 * them. The HAL and OS calls (allocation, DMA map and unmap, the command
 * post) are not modelled: their outcomes are parameters.
 */
module Rx {
  import opened Common
  import FmacUtil

  /** EtherTypes that select the IEEE 802.1H bridge-tunnel header, and the
   *  smallest value that is an EtherType rather than an 802.3 length. */
  const ETH_P_AARP: nat := 0x80F3
  const ETH_P_IPX: nat := 0x8137
  const ETH_P_802_3_MIN: nat := 0x0600

  /** `struct nrf_wifi_fmac_ieee80211_hdr`: frame control, duration, three
   *  addresses, sequence control and the fourth address. */
  const WLAN_HDR_LEN: nat := 30
  /** `struct nrf_wifi_fmac_amsdu_hdr`: destination, source, length. */
  const AMSDU_HDR_LEN: nat := 14

  // ---------------------------------------------------------------------
  // Descriptor to pool

  /** A receive pool: its first descriptor id (`rx_desc[pool]`), its number
   *  of buffers and their size (`rx_buf_pools[pool]`). */
  datatype RxPool = RxPool(firstDesc: nat, numBufs: nat, bufSz: nat)

  predicate InPool(p: RxPool, d: nat)
  {
    p.firstDesc <= d < p.firstDesc + p.numBufs
  }

  /** `struct nrf_wifi_fmac_rx_pool_map_info`. */
  datatype PoolSlot = PoolSlot(pool: nat, buf: nat)

  /** The first pool at or after `i` whose range holds `d`, with the buffer's
   *  index in it. */
  function PoolFrom(pools: seq<RxPool>, d: nat, i: nat): Option<PoolSlot>
    requires i <= |pools|
    decreases |pools| - i
  {
    if i == |pools| then None
    else if InPool(pools[i], d) then Some(PoolSlot(i, d - pools[i].firstDesc))
    else PoolFrom(pools, d, i + 1)
  }

  function PoolOf(pools: seq<RxPool>, d: nat): Option<PoolSlot>
  {
    PoolFrom(pools, d, 0)
  }

  lemma {:induction false} PoolFromMeaning(pools: seq<RxPool>, d: nat, i: nat)
    requires i <= |pools|
    ensures PoolFrom(pools, d, i).None? <==> forall p :: i <= p < |pools| ==> !InPool(pools[p], d)
    ensures PoolFrom(pools, d, i).Some? ==>
      var s := PoolFrom(pools, d, i).value;
      && i <= s.pool < |pools| && InPool(pools[s.pool], d)
      && s.buf == d - pools[s.pool].firstDesc && s.buf < pools[s.pool].numBufs
      && forall q :: i <= q < s.pool ==> !InPool(pools[q], d)
    decreases |pools| - i
  {
    if i < |pools| && !InPool(pools[i], d) {
      PoolFromMeaning(pools, d, i + 1);
    }
  }

  /**
   * The lookup succeeds exactly when some pool's range holds the descriptor;
   * it names the first such pool and the descriptor's offset in it, which is
   * below the pool's buffer count.
   */
  lemma PoolOfMeaning(pools: seq<RxPool>, d: nat)
    ensures PoolOf(pools, d).None? <==> forall p :: 0 <= p < |pools| ==> !InPool(pools[p], d)
    ensures PoolOf(pools, d).Some? ==>
      var s := PoolOf(pools, d).value;
      && s.pool < |pools| && InPool(pools[s.pool], d)
      && s.buf == d - pools[s.pool].firstDesc && s.buf < pools[s.pool].numBufs
      && forall q :: 0 <= q < s.pool ==> !InPool(pools[q], d)
  {
    PoolFromMeaning(pools, d, 0);
  }

  /** `nrf_wifi_fmac_map_desc_to_pool`: scans the pools in order. */
  method MapDescToPool(pools: seq<RxPool>, d: nat) returns (r: Option<PoolSlot>)
    ensures r == PoolOf(pools, d)
  {
    var p := 0;
    while p < |pools|
      invariant p <= |pools|
      invariant PoolFrom(pools, d, p) == PoolOf(pools, d)
    {
      if pools[p].firstDesc <= d < pools[p].firstDesc + pools[p].numBufs {
        return Some(PoolSlot(p, d - pools[p].firstDesc));
      }
      p := p + 1;
    }
    return None;
  }

  // ---------------------------------------------------------------------
  // Network buffers and the Ethernet conversion

  /** A network buffer: its memory and the offset of its data head. `push`
   *  writes in front of the head, `pull` drops octets from it. */
  datatype NetBuf = NetBuf(mem: seq<byte>, head: nat)
  {
    predicate Ok()
    {
      head <= |mem|
    }

    function Data(): seq<byte>
      requires Ok()
    {
      mem[head..]
    }

    /** `nrf_wifi_osal_nbuf_data_pull`. */
    function Pull(n: nat): (r: NetBuf)
      requires Ok() && n <= |Data()|
      ensures r.Ok() && r.head == head + n && r.Data() == Data()[n..]
    {
      NetBuf(mem, head + n)
    }

    /** `nrf_wifi_osal_nbuf_data_push` followed by writing `bytes` there. */
    function Push(bytes: seq<byte>): (r: NetBuf)
      requires Ok() && |bytes| <= head
      ensures r.Ok() && r.head == head - |bytes| && r.Data() == bytes + Data()
    {
      NetBuf(mem[..head - |bytes|] + bytes + mem[head..], head - |bytes|)
    }
  }

  /**
   * `nrf_wifi_get_skip_header_bytes`: the EtherType field plus, for the
   * bridge-tunnel EtherTypes or any EtherType at or above the 802.3
   * minimum, the 6-octet LLC/SNAP header before it. Both headers have the
   * same length, so only the 802.3 minimum decides.
   */
  function SkipHeaderBytes(ethType: nat): (n: nat)
    ensures n == 2 || n == 8
    ensures n == 8 <==> ethType >= ETH_P_802_3_MIN
  {
    if ethType == ETH_P_AARP || ethType == ETH_P_IPX then 2 + 6
    else if ethType >= ETH_P_802_3_MIN then 2 + 6
    else 2
  }

  /** `(v >> 8) | (v << 8)` stored in an `unsigned short`: the two octets of
   *  `v` exchanged. */
  function Swap16(v: nat): (r: nat)
    requires v < 0x1_0000
    ensures r < 0x1_0000 && r / 256 == v % 256 && r % 256 == v / 256
  {
    var lo, hi := v / 256, (v * 256) % 0x1_0000;
    assert hi == (v % 256) * 256 by {
      assert v * 256 == (v / 256) * 0x1_0000 + (v % 256) * 256;
    }
    lo + hi
  }

  /** The two octets of a 16-bit value as the little-endian host stores it. */
  function HostBytes16(v: nat): (r: seq<byte>)
    requires v < 0x1_0000
    ensures |r| == 2 && r[0] as int + 256 * r[1] as int == v
  {
    [v % 256, v / 256]
  }

  /** `ehdr->proto`: the byte-swapped EtherType, or for an 802.3 length the
   *  remaining data length cut to 16 bits. */
  function Proto(ethType: nat, len: nat): (r: nat)
    requires ethType < 0x1_0000
    ensures r < 0x1_0000
  {
    if ethType >= ETH_P_802_3_MIN then Swap16(ethType) else len % 0x1_0000
  }

  /** A stored EtherType reaches memory in network order: its high octet
   *  first, as `nrf_wifi_util_tx_get_eth_type` reads it back. */
  lemma ProtoInNetworkOrder(ethType: nat, len: nat)
    requires ETH_P_802_3_MIN <= ethType < 0x1_0000
    ensures HostBytes16(Proto(ethType, len)) == [ethType / 256, ethType % 256]
  {
  }

  /** `struct nrf_wifi_fmac_eth_hdr` as laid out in memory. */
  function EthHeader(dst: MacAddr, src: MacAddr, proto: nat): (r: seq<byte>)
    requires proto < 0x1_0000
    ensures |r| == ETH_HDR_LEN && r[..6] == dst && r[6..12] == src && r[12..] == HostBytes16(proto)
  {
    dst + src + HostBytes16(proto)
  }

  /** The fields of the 802.11 MAC header the conversion reads. */
  datatype WlanHdr = WlanHdr(fc: nat, addr1: MacAddr, addr2: MacAddr, addr3: MacAddr, addr4: MacAddr)

  /** The header copied from the start of a frame: frame control (a
   *  little-endian word), then the addresses at their IEEE 802.11 offsets. */
  function ParseWlanHdr(b: seq<byte>): (h: WlanHdr)
    requires |b| >= WLAN_HDR_LEN
    ensures h.fc < 0x1_0000
    ensures h.addr1 == b[4..10] && h.addr2 == b[10..16] && h.addr3 == b[16..22] && h.addr4 == b[24..30]
  {
    WlanHdr(b[0] as int + 256 * b[1] as int, b[4..10], b[10..16], b[16..22], b[24..30])
  }

  /** The To DS bit (`NRF_WIFI_FCTL_TODS`, 0x0100) and the From DS bit
   *  (`NRF_WIFI_FCTL_FROMDS`, 0x0200) of the frame control word. */
  predicate ToDs(fc: nat)
  {
    (fc / 0x100) % 2 == 1
  }

  predicate FromDs(fc: nat)
  {
    (fc / 0x200) % 2 == 1
  }

  /** The source and destination `nrf_wifi_convert_to_eth` copies, switching
   *  on `fc & (TODS | FROMDS)`, which is `0x100 * ((fc / 0x100) % 4)`. */
  function EthAddrs(h: WlanHdr): (r: (MacAddr, MacAddr))
  {
    var ds := (h.fc / 0x100) % 4;
    if ds == 3 then (h.addr4, h.addr1)
    else if ds == 2 then (h.addr3, h.addr1)
    else if ds == 1 then (h.addr2, h.addr3)
    else (h.addr2, h.addr1)
  }

  lemma DsBits(fc: nat)
    ensures (fc / 0x100) % 4 == (if FromDs(fc) then 2 else 0) + (if ToDs(fc) then 1 else 0)
  {
    var x := fc / 0x100;
    assert fc / 0x200 == x / 2;
    assert x % 4 == 2 * ((x / 2) % 2) + x % 2;
  }

  /**
   * The address table of the conversion (source, destination) by To DS and
   * From DS: (addr2, addr1), (addr2, addr3), (addr3, addr1) and, with both
   * bits set, (addr4, addr1). IEEE 802.11 names addr3 as the destination of
   * a four-address frame; the conversion takes addr1.
   */
  lemma EthAddrsTable(h: WlanHdr)
    ensures !ToDs(h.fc) && !FromDs(h.fc) ==> EthAddrs(h) == (h.addr2, h.addr1)
    ensures ToDs(h.fc) && !FromDs(h.fc) ==> EthAddrs(h) == (h.addr2, h.addr3)
    ensures !ToDs(h.fc) && FromDs(h.fc) ==> EthAddrs(h) == (h.addr3, h.addr1)
    ensures ToDs(h.fc) && FromDs(h.fc) ==> EthAddrs(h) == (h.addr4, h.addr1)
  {
    DsBits(h.fc);
  }

  /** `nrf_wifi_convert_to_eth`: pushes an Ethernet header built from the
   *  802.11 header in front of the remaining data. */
  function ConvertToEth(nb: NetBuf, hdr: WlanHdr, ethType: nat): (r: NetBuf)
    requires nb.Ok() && nb.head >= ETH_HDR_LEN && ethType < 0x1_0000
    ensures r.Ok() && |r.Data()| == ETH_HDR_LEN + |nb.Data()| && r.Data()[ETH_HDR_LEN..] == nb.Data()
  {
    var (src, dst) := EthAddrs(hdr);
    nb.Push(EthHeader(dst, src, Proto(ethType, |nb.Data()|)))
  }

  /** What an MPDU must hold for its conversion: the copied 802.11 header,
   *  the MAC header and the LLC header with the EtherType, and room in front
   *  of the data for the Ethernet header. */
  predicate MpduFits(nb: NetBuf, macHdrLen: nat)
  {
    nb.Ok() && |nb.Data()| >= WLAN_HDR_LEN && |nb.Data()| >= macHdrLen + 8 && nb.head + macHdrLen + 2 >= ETH_HDR_LEN
  }

  /** The MPDU case of `nrf_wifi_fmac_rx_event_process`: the MAC header and
   *  the LLC header (or just the length) are pulled and the Ethernet header
   *  pushed. */
  function MpduToEth(nb: NetBuf, macHdrLen: nat): (r: NetBuf)
    requires MpduFits(nb, macHdrLen)
    ensures r.Ok()
  {
    var data := nb.Data();
    var hdr := ParseWlanHdr(data);
    var ethType := FmacUtil.RxGetEthType(data[macHdrLen..]);
    ConvertToEth(nb.Pull(macHdrLen + SkipHeaderBytes(ethType)), hdr, ethType)
  }

  /**
   * An MSDU carried with RFC 1042 or IEEE 802.1H encapsulation comes out as
   * the Ethernet frame it carried: the addresses of the table, the EtherType
   * in network order and the payload, with the LLC/SNAP header gone.
   */
  lemma MpduToEthRoundTrip(nb: NetBuf, macHdrLen: nat, mac: seq<byte>, llc: seq<byte>, ethType: nat, payload: seq<byte>)
    requires nb.Ok() && |mac| == macHdrLen && |llc| == 6
    requires ETH_P_802_3_MIN <= ethType < 0x1_0000
    requires nb.Data() == mac + llc + [ethType / 256, ethType % 256] + payload
    requires |nb.Data()| >= WLAN_HDR_LEN && nb.head + macHdrLen + 2 >= ETH_HDR_LEN
    ensures MpduFits(nb, macHdrLen)
    ensures var (src, dst) := EthAddrs(ParseWlanHdr(nb.Data()));
      MpduToEth(nb, macHdrLen).Data() == dst + src + [ethType / 256, ethType % 256] + payload
  {
    var data := nb.Data();
    assert data[macHdrLen..][6] == ethType / 256 && data[macHdrLen..][7] == ethType % 256;
    var e := FmacUtil.RxGetEthType(data[macHdrLen..]);
    assert e == ethType;
    var b1 := nb.Pull(macHdrLen + 8);
    assert b1.Data() == payload;
    ProtoInNetworkOrder(ethType, |payload|);
  }

  /** What an A-MSDU subframe must hold: its header and the LLC header with
   *  the EtherType. */
  predicate AmsduFits(nb: NetBuf)
  {
    nb.Ok() && |nb.Data()| >= AMSDU_HDR_LEN + 8
  }

  /** `nrf_wifi_convert_amsdu_to_eth`: the subframe header and the LLC header
   *  (or just the length) are pulled; the Ethernet header takes the
   *  subframe's addresses. */
  function AmsduToEth(nb: NetBuf): (r: NetBuf)
    requires AmsduFits(nb)
    ensures r.Ok()
  {
    var data := nb.Data();
    var ethType := FmacUtil.RxGetEthType(data[AMSDU_HDR_LEN..]);
    var b1 := nb.Pull(AMSDU_HDR_LEN + SkipHeaderBytes(ethType));
    b1.Push(EthHeader(data[..6], data[6..12], Proto(ethType, |b1.Data()|)))
  }

  /** An encapsulated A-MSDU subframe comes out as the Ethernet frame it
   *  carried, with its own addresses. */
  lemma AmsduToEthRoundTrip(nb: NetBuf, dst: MacAddr, src: MacAddr, len: seq<byte>, llc: seq<byte>,
                            ethType: nat, payload: seq<byte>)
    requires nb.Ok() && |len| == 2 && |llc| == 6
    requires ETH_P_802_3_MIN <= ethType < 0x1_0000
    requires nb.Data() == dst + src + len + llc + [ethType / 256, ethType % 256] + payload
    ensures AmsduFits(nb)
    ensures AmsduToEth(nb).Data() == dst + src + [ethType / 256, ethType % 256] + payload
  {
    var data := nb.Data();
    assert data[..6] == dst && data[6..12] == src;
    assert data[AMSDU_HDR_LEN..][6] == ethType / 256 && data[AMSDU_HDR_LEN..][7] == ethType % 256;
    var b1 := nb.Pull(AMSDU_HDR_LEN + 8);
    assert b1.Data() == payload;
    ProtoInNetworkOrder(ethType, |payload|);
  }

  // ---------------------------------------------------------------------
  // Receive buffers and their lifecycle

  /** The receive configuration: the pools, `num_rx_bufs` and
   *  `RX_BUF_HEADROOM`. */
  datatype RxConfig = RxConfig(pools: seq<RxPool>, numRxBufs: nat, headroom: nat)

  /** Every pool's range lies below `num_rx_bufs` and every buffer can hold
   *  the 4-octet descriptor tag. */
  predicate CfgOk(c: RxConfig)
  {
    && |c.pools| == MAX_NUM_OF_RX_QUEUES
    && forall p :: 0 <= p < |c.pools| ==>
         c.pools[p].firstDesc + c.pools[p].numBufs <= c.numRxBufs && c.pools[p].bufSz + c.headroom >= 4
  }

  /** `rx_buf_info[desc]`: the mapped flag and the network buffer (`nwb`,
   *  0 modelled as `None`). */
  datatype RxState = RxState(mapped: seq<bool>, bufs: seq<Option<NetBuf>>)

  /** One entry per descriptor; a descriptor is mapped exactly when it holds
   *  a buffer, whose head is at its start and which has the headroom. */
  predicate StateOk(s: RxState, c: RxConfig)
  {
    && |s.mapped| == c.numRxBufs && |s.bufs| == c.numRxBufs
    && forall d :: 0 <= d < c.numRxBufs ==>
         && (s.mapped[d] <==> s.bufs[d].Some?)
         && (s.bufs[d].Some? ==> s.bufs[d].value.head == 0 && |s.bufs[d].value.mem| >= c.headroom)
  }

  /** The descriptors other than `d` have the same entries in both states. */
  predicate OthersKept(s: RxState, t: RxState, d: nat, n: nat)
    requires |s.mapped| == |t.mapped| == |s.bufs| == |t.bufs| == n
  {
    forall e :: 0 <= e < n && e != d ==> t.mapped[e] == s.mapped[e] && t.bufs[e] == s.bufs[e]
  }

  /** The outcomes of the calls a receive command makes outside this layer:
   *  the buffer allocation, the HAL map, the command post and the HAL
   *  unmap. */
  datatype HalOutcome = HalOutcome(allocOk: bool, mapOk: bool, sendOk: bool, unmapOk: bool)

  /** `enum nrf_wifi_fmac_rx_cmd_type`, with any other value. */
  datatype RxCmd = RxInit | RxDeinit | RxUnknownCmd

  /** The four octets of a 32-bit value as the little-endian host stores it. */
  function HostBytes32(v: nat): (r: seq<byte>)
    requires v < 0x1_0000_0000
    ensures |r| == 4
  {
    [v % 256, (v / 0x100) % 256, (v / 0x1_0000) % 256, v / 0x100_0000]
  }

  /** A fresh buffer of `len` octets whose first word holds the descriptor
   *  id; the rest, uninitialised in the source, is taken as zero. */
  function TaggedBuffer(d: nat, len: nat): (b: NetBuf)
    requires len >= 4
    ensures b.Ok() && b.head == 0 && |b.mem| == len && b.mem[..4] == HostBytes32(d % 0x1_0000_0000)
  {
    NetBuf(HostBytes32(d % 0x1_0000_0000) + seq(len - 4, _ => 0), 0)
  }

  /** Descriptor `d` is mapped (`rx_buf_info[d].mapped`). */
  predicate IsMapped(s: RxState, d: nat)
  {
    d < |s.mapped| && s.mapped[d]
  }

  /** `nrf_wifi_fmac_rx_cmd_send(cmd, d)`; its outcomes are spelled out by
   *  `CmdSendMeaning`. Only entry `d` ever changes. */
  function CmdSend(s: RxState, c: RxConfig, cmd: RxCmd, d: nat, o: HalOutcome): (r: (RxState, Status))
    requires CfgOk(c) && StateOk(s, c)
    ensures StateOk(r.0, c) && OthersKept(s, r.0, d, c.numRxBufs)
  {
    PoolOfMeaning(c.pools, d);
    match PoolOf(c.pools, d)
    case None => (s, Fail)
    case Some(slot) =>
      var bufLen := c.pools[slot.pool].bufSz + c.headroom;
      match cmd
      case RxInit =>
        if s.mapped[d] then (s, Fail)
        else if !o.allocOk || !o.mapOk then (s, Fail)
        else (RxState(s.mapped[d := true], s.bufs[d := Some(TaggedBuffer(d, bufLen))]), if o.sendOk then Success else Fail)
      case RxDeinit =>
        if !s.mapped[d] then (s, Fail)
        else if !o.unmapOk then (s, Success)
        else (RxState(s.mapped[d := false], s.bufs[d := None]), Success)
      case RxUnknownCmd => (s, Success)
  }

  /**
   * The outcomes of a receive command. A descriptor outside every pool is
   * FAIL. INIT on a mapped descriptor, or whose allocation or map fails, is
   * FAIL and changes nothing; otherwise the descriptor gets a tagged buffer
   * of the pool's size plus the headroom and becomes mapped, and the result
   * is the command post's. DEINIT on an unmapped descriptor is FAIL; when the
   * HAL unmap fails nothing changes and the result is the SUCCESS of the
   * lookup; otherwise the descriptor is unmapped and its buffer freed. Any
   * other command is that same SUCCESS and changes nothing.
   */
  lemma CmdSendMeaning(s: RxState, c: RxConfig, cmd: RxCmd, d: nat, o: HalOutcome)
    requires CfgOk(c) && StateOk(s, c)
    ensures var r := CmdSend(s, c, cmd, d, o);
      && (PoolOf(c.pools, d).Some? ==> d < c.numRxBufs && PoolOf(c.pools, d).value.pool < |c.pools|)
      && (PoolOf(c.pools, d).None? ==> r == (s, Fail))
      && (cmd == RxInit ==>
            && (r.0 != s <==> PoolOf(c.pools, d).Some? && !IsMapped(s, d) && o.allocOk && o.mapOk)
            && (r.0 != s ==>
                  IsMapped(r.0, d) && r.0.bufs[d] == Some(TaggedBuffer(d, c.pools[PoolOf(c.pools, d).value.pool].bufSz + c.headroom)))
            && (r.1 == Success <==> r.0 != s && o.sendOk))
      && (cmd == RxDeinit ==>
            && (r.1 == Success <==> PoolOf(c.pools, d).Some? && IsMapped(s, d))
            && (r.0 != s <==> r.1 == Success && o.unmapOk)
            && (r.0 != s ==> !IsMapped(r.0, d) && r.0.bufs[d] == None))
      && (cmd == RxUnknownCmd ==> r.0 == s && (r.1 == Success <==> PoolOf(c.pools, d).Some?))
  {
    PoolOfMeaning(c.pools, d);
  }

  /** DEINIT undoes a successful INIT: the descriptor's entry is back to what
   *  it was before. */
  lemma DeinitUndoesInit(s: RxState, c: RxConfig, d: nat, o1: HalOutcome, o2: HalOutcome)
    requires CfgOk(c) && StateOk(s, c)
    requires PoolOf(c.pools, d).Some? && !IsMapped(s, d) && o1.allocOk && o1.mapOk && o2.unmapOk
    ensures var (t, _) := CmdSend(s, c, RxInit, d, o1);
      CmdSend(t, c, RxDeinit, d, o2) == (s, Success)
  {
    PoolOfMeaning(c.pools, d);
    var (t, _) := CmdSend(s, c, RxInit, d, o1);
    var (u, st) := CmdSend(t, c, RxDeinit, d, o2);
    assert u.mapped == s.mapped;
    assert u.bufs == s.bufs;
  }

  // ---------------------------------------------------------------------
  // Completion events

  /** `rx_buff_info[i].pkt_type`: how a data frame arrives. */
  datatype PktKind = Mpdu | MsduWithMac | Msdu | UnknownKind

  /** `config->rx_pkt_type`: data, beacon or probe response, or anything
   *  else (raw frames are not part of this build). */
  datatype RxPktType = DataPkt | BcnPrbRsp | OtherPktType

  /** One completed descriptor of an event: its id, the octets the device
   *  wrote (`rx_pkt_len` of them) and their kind. */
  datatype RxPacket = RxPacket(descId: nat, bytes: seq<byte>, kind: PktKind)

  /** `struct nrf_wifi_rx_buff`: the frame type, `mac_header_len` and the
   *  completed descriptors. */
  datatype RxEvent = RxEvent(pktType: RxPktType, macHdrLen: nat, packets: seq<RxPacket>)

  /** What the device hands over is long enough for the conversion its kind
   *  selects, and the headroom leaves room for the Ethernet header. */
  predicate PacketFits(ev: RxEvent, p: RxPacket, headroom: nat)
  {
    ev.pktType == DataPkt ==>
      match p.kind
      case Mpdu =>
        |p.bytes| >= WLAN_HDR_LEN && |p.bytes| >= ev.macHdrLen + 8 && headroom + ev.macHdrLen + 2 >= ETH_HDR_LEN
      case MsduWithMac => |p.bytes| >= ev.macHdrLen + AMSDU_HDR_LEN + 8
      case Msdu => |p.bytes| >= AMSDU_HDR_LEN + 8
      case UnknownKind => true
  }

  predicate EventFits(ev: RxEvent, headroom: nat)
  {
    forall i :: 0 <= i < |ev.packets| ==> PacketFits(ev, ev.packets[i], headroom)
  }

  /** The buffer once the device's octets are read in after the headroom
   *  (`data_put` of length plus headroom, then `data_pull` of the
   *  headroom). */
  function Received(b: NetBuf, headroom: nat, bytes: seq<byte>): (r: NetBuf)
    requires |b.mem| >= headroom
    ensures r.Ok() && r.head == headroom && r.Data() == bytes
  {
    NetBuf(b.mem[..headroom] + bytes, headroom)
  }

  /** The Ethernet frame a data packet of a known kind becomes. */
  function Deliver(nb: NetBuf, ev: RxEvent, p: RxPacket): (frame: seq<byte>)
    requires ev.pktType == DataPkt && p.kind != UnknownKind && PacketFits(ev, p, nb.head)
    requires nb.Ok() && nb.Data() == p.bytes
  {
    match p.kind
    case Mpdu => MpduToEth(nb, ev.macHdrLen).Data()
    case MsduWithMac => AmsduToEth(nb.Pull(ev.macHdrLen)).Data()
    case Msdu => AmsduToEth(nb).Data()
  }

  /**
   * One pass of the loop of `nrf_wifi_fmac_rx_event_process` on packet `i`:
   * a descriptor id at or above `num_rx_bufs`, outside every pool, or whose
   * HAL unmap fails is FAIL and changes nothing. Otherwise the descriptor is
   * unmapped and its buffer taken; a data frame of a known kind is
   * converted and delivered, one of unknown kind is FAIL and not re-armed; a
   * beacon or probe response is dropped; any other frame type is FAIL and
   * not re-armed. A delivered or dropped frame's descriptor is re-armed
   * (`CmdSend` INIT), whose status is the pass's.
   */
  function Step(s: RxState, c: RxConfig, ev: RxEvent, i: nat, o: HalOutcome): (r: (RxState, Status, Option<seq<byte>>))
    requires CfgOk(c) && StateOk(s, c) && i < |ev.packets| && PacketFits(ev, ev.packets[i], c.headroom)
    ensures StateOk(r.0, c) && OthersKept(s, r.0, ev.packets[i].descId, c.numRxBufs)
    ensures r.2.Some? ==> ev.pktType == DataPkt
  {
    var p := ev.packets[i];
    var d := p.descId;
    if d >= c.numRxBufs || PoolOf(c.pools, d).None? || !s.mapped[d] || !o.unmapOk then (s, Fail, None)
    else
      var nb := Received(s.bufs[d].value, c.headroom, p.bytes);
      var s1 := RxState(s.mapped[d := false], s.bufs[d := None]);
      match ev.pktType
      case DataPkt =>
        if p.kind == UnknownKind then (s1, Fail, None)
        else
          var frame := Deliver(nb, ev, p);
          var (s2, st) := CmdSend(s1, c, RxInit, d, o);
          (s2, st, Some(frame))
      case BcnPrbRsp =>
        var (s2, st) := CmdSend(s1, c, RxInit, d, o);
        (s2, st, None)
      case OtherPktType => (s1, Fail, None)
  }

  /** The loop from packet `i` on: the final state, the status of each pass
   *  and the frames delivered, in order. */
  function Run(s: RxState, c: RxConfig, ev: RxEvent, env: nat -> HalOutcome, i: nat): (r: (RxState, seq<Status>, seq<seq<byte>>))
    requires CfgOk(c) && StateOk(s, c) && i <= |ev.packets| && EventFits(ev, c.headroom)
    ensures StateOk(r.0, c) && |r.1| == |ev.packets| - i && |r.2| <= |ev.packets| - i
    decreases |ev.packets| - i
  {
    if i == |ev.packets| then (s, [], [])
    else
      var (s1, st, f) := Step(s, c, ev, i, env(i));
      var (s2, sts, fs) := Run(s1, c, ev, env, i + 1);
      (s2, [st] + sts, (if f.Some? then [f.value] else []) + fs)
  }

  /** One step of `Run`, stated apart from the loop that takes it. */
  lemma RunStep(s: RxState, c: RxConfig, ev: RxEvent, env: nat -> HalOutcome, i: nat)
    requires CfgOk(c) && StateOk(s, c) && i < |ev.packets| && EventFits(ev, c.headroom)
    ensures var p := Step(s, c, ev, i, env(i)); var r := Run(p.0, c, ev, env, i + 1);
      Run(s, c, ev, env, i) == (r.0, [p.1] + r.1, (if p.2.Some? then [p.2.value] else []) + r.2)
  {
  }

  /** A descriptor that no packet from `i` on names keeps its entry. */
  lemma {:induction false} RunKeepsOthers(s: RxState, c: RxConfig, ev: RxEvent, env: nat -> HalOutcome, i: nat, e: nat)
    requires CfgOk(c) && StateOk(s, c) && i <= |ev.packets| && EventFits(ev, c.headroom)
    requires e < c.numRxBufs && forall j :: i <= j < |ev.packets| ==> ev.packets[j].descId != e
    ensures var t := Run(s, c, ev, env, i).0; t.mapped[e] == s.mapped[e] && t.bufs[e] == s.bufs[e]
    decreases |ev.packets| - i
  {
    if i < |ev.packets| {
      var (s1, _, _) := Step(s, c, ev, i, env(i));
      RunKeepsOthers(s1, c, ev, env, i + 1, e);
    }
  }

  /** A completion all of whose calls succeed: its descriptors are distinct,
   *  mapped and in a pool, its frames are data of a known kind or beacons,
   *  and every HAL call and allocation succeeds. */
  predicate CleanBatch(s: RxState, c: RxConfig, ev: RxEvent, env: nat -> HalOutcome, i: nat)
    requires i <= |ev.packets|
  {
    && (ev.pktType == DataPkt || ev.pktType == BcnPrbRsp)
    && forall j :: i <= j < |ev.packets| ==>
         var d := ev.packets[j].descId;
         && ev.packets[j].kind != UnknownKind && PoolOf(c.pools, d).Some? && IsMapped(s, d)
         && env(j) == HalOutcome(true, true, true, true)
         && forall k :: i <= k < |ev.packets| && k != j ==> ev.packets[k].descId != d
  }

  /**
   * The pool does not starve: after a completion whose calls all succeed,
   * every descriptor it named is mapped again, every pass is SUCCESS and
   * every data frame is delivered.
   */
  lemma {:induction false} CleanBatchRearms(s: RxState, c: RxConfig, ev: RxEvent, env: nat -> HalOutcome, i: nat)
    requires CfgOk(c) && StateOk(s, c) && i <= |ev.packets| && EventFits(ev, c.headroom)
    requires CleanBatch(s, c, ev, env, i)
    ensures var r := Run(s, c, ev, env, i);
      && (forall j :: i <= j < |ev.packets| ==> IsMapped(r.0, ev.packets[j].descId))
      && (forall k :: 0 <= k < |r.1| ==> r.1[k] == Success)
      && (ev.pktType == DataPkt ==> |r.2| == |ev.packets| - i)
    decreases |ev.packets| - i
  {
    if i < |ev.packets| {
      var d := ev.packets[i].descId;
      CleanStep(s, c, ev, env, i);
      var p := Step(s, c, ev, i, env(i));
      var s1 := p.0;
      RunStep(s, c, ev, env, i);
      var r1 := Run(s1, c, ev, env, i + 1);
      var r := Run(s, c, ev, env, i);
      assert r.0 == r1.0 && r.1 == [p.1] + r1.1;
      assert r.2 == (if p.2.Some? then [p.2.value] else []) + r1.2;
      CleanBatchRearms(s1, c, ev, env, i + 1);
      RunKeepsOthers(s1, c, ev, env, i + 1, d);
      assert IsMapped(r.0, d);
      assert forall k :: 0 < k < |r.1| ==> r.1[k] == r1.1[k - 1];
    }
  }

  /** One pass of a clean completion re-arms its descriptor, succeeds,
   *  delivers a data frame and leaves the rest of the completion clean. */
  lemma CleanStep(s: RxState, c: RxConfig, ev: RxEvent, env: nat -> HalOutcome, i: nat)
    requires CfgOk(c) && StateOk(s, c) && i < |ev.packets| && EventFits(ev, c.headroom)
    requires CleanBatch(s, c, ev, env, i)
    ensures var (s1, st, f) := Step(s, c, ev, i, env(i));
      && IsMapped(s1, ev.packets[i].descId) && st == Success
      && (ev.pktType == DataPkt ==> f.Some?)
      && CleanBatch(s1, c, ev, env, i + 1)
  {
    var p := ev.packets[i];
    var d := p.descId;
    PoolOfMeaning(c.pools, d);
    var (s1, st, f) := Step(s, c, ev, i, env(i));
    var s0 := RxState(s.mapped[d := false], s.bufs[d := None]);
    CmdSendMeaning(s0, c, RxInit, d, env(i));
    assert IsMapped(s1, d) && st == Success;
    forall j | i + 1 <= j < |ev.packets|
      ensures IsMapped(s1, ev.packets[j].descId)
    {
      assert ev.packets[j].descId != d;
    }
  }

  /** The status `nrf_wifi_fmac_rx_event_process` returns as written: the
   *  last pass's, FAIL for an empty batch. */
  function BatchStatusAsWritten(sts: seq<Status>): Status
  {
    if |sts| == 0 then Fail else sts[|sts| - 1]
  }

  /** The status the event is meant to return: one failed pass fails the
   *  whole event (an empty batch stays FAIL). */
  function BatchStatus(sts: seq<Status>): (r: Status)
    ensures r == Success <==> |sts| > 0 && forall k :: 0 <= k < |sts| ==> sts[k] == Success
  {
    if |sts| == 0 || Fail in sts then Fail
    else
      assert forall k :: 0 <= k < |sts| ==> sts[k] == Success by {
        forall k | 0 <= k < |sts|
          ensures sts[k] == Success
        {
          assert sts[k] in sts;
        }
      }
      Success
  }

  /** As written, a failure early in the batch is hidden by a later
   *  success. */
  lemma BatchStatusHidesFailure()
    ensures BatchStatusAsWritten([Fail, Success]) == Success
    ensures BatchStatus([Fail, Success]) == Fail
  {
  }

  /** A batch status that reports any failed pass agrees with the written
   *  one when the last pass failed or none did. */
  lemma BatchStatusAgrees(sts: seq<Status>)
    requires |sts| > 0
    ensures sts[|sts| - 1] == Fail || (forall k :: 0 <= k < |sts| ==> sts[k] == Success) ==>
      BatchStatus(sts) == BatchStatusAsWritten(sts)
  {
  }

  /** Concatenation regrouped, for the loop that accumulates a run. */
  lemma Regroup<T>(a: seq<T>, b: seq<T>, c: seq<T>)
    ensures a + (b + c) == (a + b) + c
  {
  }

  /**
   * The receive engine: the per-descriptor buffer table `rx_buf_info` under
   * the fixed pool configuration.
   */
  class RxEngine {
    const cfg: RxConfig
    /** `rx_buf_info[desc].mapped`. */
    var mapped: seq<bool>
    /** `rx_buf_info[desc].nwb`. */
    var bufs: seq<Option<NetBuf>>

    ghost function State(): RxState
      reads this`mapped, this`bufs
    {
      RxState(mapped, bufs)
    }

    ghost predicate Valid()
      reads this
    {
      CfgOk(cfg) && StateOk(State(), cfg)
    }

    /** No descriptor mapped, no buffer held. */
    constructor (cfg: RxConfig)
      requires CfgOk(cfg)
      ensures Valid() && this.cfg == cfg
      ensures forall d :: 0 <= d < cfg.numRxBufs ==> !IsMapped(State(), d)
    {
      this.cfg := cfg;
      mapped := seq(cfg.numRxBufs, _ => false);
      bufs := seq(cfg.numRxBufs, _ => None);
    }

    /** `nrf_wifi_fmac_rx_cmd_send(cmd, d)` with the outcomes `o` of the
     *  calls it makes; the new state and the result are `CmdSend`'s. */
    method RxCmdSend(cmd: RxCmd, d: nat, o: HalOutcome) returns (status: Status)
      requires Valid()
      modifies this`mapped, this`bufs
      ensures Valid()
      ensures (State(), status) == CmdSend(old(State()), cfg, cmd, d, o)
    {
      var slot := MapDescToPool(cfg.pools, d);
      if slot.None? {
        return Fail;
      }
      PoolOfMeaning(cfg.pools, d);
      var bufLen := cfg.pools[slot.value.pool].bufSz + cfg.headroom;
      status := Success;
      if cmd == RxInit {
        if mapped[d] {
          return Fail;
        }
        if !o.allocOk {
          return Fail;
        }
        var nwb := TaggedBuffer(d, bufLen);
        if !o.mapOk {
          return Fail;
        }
        bufs := bufs[d := Some(nwb)];
        mapped := mapped[d := true];
        status := if o.sendOk then Success else Fail;
      } else if cmd == RxDeinit {
        if !mapped[d] {
          return Fail;
        }
        if !o.unmapOk {
          return;
        }
        bufs := bufs[d := None];
        mapped := mapped[d := false];
        status := Success;
      }
    }

    /** One pass of the event loop on packet `i`; the new state, the status
     *  and the delivered frame are `Step`'s. */
    method ProcessPacket(ev: RxEvent, i: nat, o: HalOutcome) returns (status: Status, frame: Option<seq<byte>>)
      requires Valid() && i < |ev.packets| && PacketFits(ev, ev.packets[i], cfg.headroom)
      modifies this`mapped, this`bufs
      ensures Valid()
      ensures (State(), status, frame) == Step(old(State()), cfg, ev, i, o)
    {
      var p := ev.packets[i];
      var d := p.descId;
      frame := None;
      if d >= cfg.numRxBufs {
        return Fail, None;
      }
      var slot := MapDescToPool(cfg.pools, d);
      if slot.None? {
        return Fail, None;
      }
      if !mapped[d] || !o.unmapOk {
        return Fail, None;
      }
      var nb := Received(bufs[d].value, cfg.headroom, p.bytes);
      bufs := bufs[d := None];
      mapped := mapped[d := false];
      if ev.pktType == DataPkt {
        if p.kind == UnknownKind {
          return Fail, None;
        }
        frame := Some(Deliver(nb, ev, p));
      } else if ev.pktType != BcnPrbRsp {
        return Fail, None;
      }
      status := RxCmdSend(RxInit, d, o);
    }

    /**
     * `nrf_wifi_fmac_rx_event_process` on a completion event, with `env(i)`
     * the outcomes of the calls made for packet `i`: every packet is
     * processed whatever happened to the ones before (`Run`), and each
     * pass overwrites the status, so the result is the last pass's, FAIL
     * for an empty batch (`BatchStatusAsWritten`).
     */
    method EventProcess(ev: RxEvent, env: nat -> HalOutcome) returns (status: Status, delivered: seq<seq<byte>>)
      requires Valid() && EventFits(ev, cfg.headroom)
      modifies this`mapped, this`bufs
      ensures Valid()
      ensures var r := Run(old(State()), cfg, ev, env, 0);
        State() == r.0 && delivered == r.2 && status == BatchStatusAsWritten(r.1)
    {
      ghost var goal := Run(State(), cfg, ev, env, 0);
      ghost var statuses: seq<Status> := [];
      delivered := [];
      status := Fail;
      var i := 0;
      assert statuses + goal.1 == goal.1 && delivered + goal.2 == goal.2;
      while i < |ev.packets|
        invariant i <= |ev.packets| && Valid()
        invariant var r := Run(State(), cfg, ev, env, i); (r.0, statuses + r.1, delivered + r.2) == goal
        invariant status == BatchStatusAsWritten(statuses)
      {
        ghost var s0 := State();
        RunStep(s0, cfg, ev, env, i);
        var st, frame := ProcessPacket(ev, i, env(i));
        var f := if frame.Some? then [frame.value] else [];
        ghost var r1 := Run(State(), cfg, ev, env, i + 1);
        Regroup(statuses, [st], r1.1);
        Regroup(delivered, f, r1.2);
        statuses := statuses + [st];
        delivered := delivered + f;
        status := st;
        assert status == BatchStatusAsWritten(statuses);
        i := i + 1;
      }
      assert statuses == statuses + Run(State(), cfg, ev, env, i).1;
    }
  }
}
