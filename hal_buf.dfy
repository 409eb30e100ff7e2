/**
 * The bounce-buffer layer of the system-mode HAL (`hal_api.c`): where the
 * receive pools and the transmit aggregates sit in the packet RAM, the
 * per-buffer mapping records (`struct nrf_wifi_hal_buf_map_info`) and the
 * address of each data command slot.
 *
 * The copies to and from the RPU (`hal_rpu_mem_write/read`) are not
 * modelled; the DMA map and unmap calls of the bus layer are parameters,
 * functions from (address, length) to the address they return, 0 meaning
 * failure. Host addresses (`unsigned long`) are unbounded naturals.
 */
module HalBuf {
  import opened Common
  import Pal

  /** `struct nrf_wifi_hal_buf_map_info`. */
  datatype BufMapInfo = BufMapInfo(mapped: bool, virtAddr: nat, phyAddr: nat, bufLen: nat)

  /** An entry as `nrf_wifi_osal_mem_set(.., 0, ..)` leaves it. */
  const ZERO_INFO: BufMapInfo := BufMapInfo(false, 0, 0, 0)

  /** An entry is mapped exactly when it holds a DMA address. */
  predicate EntryOk(e: BufMapInfo)
  {
    e.mapped <==> e.phyAddr != 0
  }

  /** `cfg_params.rx_buf_pool[i]`. */
  datatype RxPoolCfg = RxPoolCfg(numBufs: nat, bufSz: nat)

  /** The HAL configuration: the receive pools and headroom, the transmit
   *  headroom and frame limit, the per-token aggregate length, the number
   *  of transmit buffer records, and `NRF70_RX_NUM_BUFS` and
   *  `NRF70_RX_MAX_DATA_SIZE`, which size the receive area. */
  datatype HalCfg = HalCfg(
    rxPools: seq<RxPoolCfg>,
    rxHeadroom: nat,
    txHeadroom: nat,
    maxTxFrmSz: nat,
    maxAmpduLenPerToken: nat,
    numTxBufs: nat,
    rxNumBufs: nat,
    rxMaxDataSize: nat)

  /** The receive area fits in the packet RAM, and the frame limit is at
   *  least the headroom (the unsigned difference the size check takes). */
  predicate CfgOk(c: HalCfg)
  {
    && |c.rxPools| == MAX_NUM_OF_RX_QUEUES
    && c.rxNumBufs * c.rxMaxDataSize <= Pal.RPU_PKTRAM_SIZE
    && c.txHeadroom <= c.maxTxFrmSz
  }

  function PoolSize(p: RxPoolCfg): nat
  {
    p.numBufs * p.bufSz
  }

  /** Total size of pools `0 .. i - 1`. */
  function PoolsSize(pools: seq<RxPoolCfg>, i: nat): nat
    requires i <= |pools|
  {
    if i == 0 then 0 else PoolsSize(pools, i - 1) + PoolSize(pools[i - 1])
  }

  /** The host address of the receive area: the top
   *  `NRF70_RX_NUM_BUFS × NRF70_RX_MAX_DATA_SIZE` bytes of the packet RAM. */
  function RxAreaStart(c: HalCfg, pktramBase: nat): nat
    requires CfgOk(c)
  {
    pktramBase + Pal.RPU_PKTRAM_SIZE - c.rxNumBufs * c.rxMaxDataSize
  }

  /** `addr_rpu_pktram_base_rx_pool[i]`: the pools follow each other from
   *  the start of the receive area. */
  function PoolStart(c: HalCfg, pktramBase: nat, i: nat): nat
    requires CfgOk(c) && i <= |c.rxPools|
  {
    RxAreaStart(c, pktramBase) + PoolsSize(c.rxPools, i)
  }

  lemma {:induction false} PoolsSizeMono(pools: seq<RxPoolCfg>, i: nat, j: nat)
    requires i <= j <= |pools|
    ensures PoolsSize(pools, i) <= PoolsSize(pools, j)
    decreases j
  {
    if i < j {
      PoolsSizeMono(pools, i, j - 1);
    }
  }

  /**
   * The pools do not overlap: pool `i` ends where pool `i + 1` starts, at
   * or before any later pool; when their total fits the receive area they
   * all end inside the packet RAM.
   */
  lemma PoolsDisjoint(c: HalCfg, pktramBase: nat, i: nat, j: nat)
    requires CfgOk(c) && i < j < |c.rxPools|
    ensures PoolStart(c, pktramBase, i) + PoolSize(c.rxPools[i]) <= PoolStart(c, pktramBase, j)
    ensures PoolsSize(c.rxPools, |c.rxPools|) <= c.rxNumBufs * c.rxMaxDataSize ==>
      PoolStart(c, pktramBase, j) + PoolSize(c.rxPools[j]) <= pktramBase + Pal.RPU_PKTRAM_SIZE
  {
    PoolsSizeMono(c.rxPools, i + 1, j);
    PoolsSizeMono(c.rxPools, j + 1, |c.rxPools|);
  }

  /** The bounce buffer of buffer `b` of pool `p`, of `bufLen` bytes. */
  function RxBounce(poolBase: nat, b: nat, bufLen: nat): nat
  {
    poolBase + b * bufLen
  }

  /** Distinct buffers of one pool get disjoint bounce buffers. */
  lemma RxBouncesDisjoint(poolBase: nat, b1: nat, b2: nat, bufLen: nat)
    requires b1 < b2
    ensures RxBounce(poolBase, b1, bufLen) + bufLen <= RxBounce(poolBase, b2, bufLen)
  {
    var k := b2 - b1;
    calc {
      b2 * bufLen;
    ==  { assert b2 == b1 + 1 + (k - 1); }
      (b1 + 1 + (k - 1)) * bufLen;
    ==
      b1 * bufLen + bufLen + (k - 1) * bufLen;
    >=
      b1 * bufLen + bufLen;
    }
  }

  /** The RPU address of a bounce buffer: its distance from the packet RAM
   *  base, taken from `RPU_MEM_PKT_BASE`. */
  function RpuAddrOf(bounce: nat, pktramBase: nat): int
  {
    Pal.RPU_MEM_PKT_BASE + (bounce - pktramBase)
  }

  /** The RPU address given to the device and the host address of the
   *  bounce buffer agree: translating it back yields the bounce buffer. */
  lemma RpuAddrOfTranslates(bounce: nat, proc: nat, o: Pal.SocOffsets)
    requires Pal.OffsetsOk(o)
    requires var base := Pal.RpuAddrOffsetGet(Pal.RPU_MEM_PKT_BASE, proc, o);
      base.Some? && base.value <= bounce < base.value + Pal.RPU_PKTRAM_SIZE
    ensures var base := Pal.RpuAddrOffsetGet(Pal.RPU_MEM_PKT_BASE, proc, o).value;
      Pal.RpuAddrOffsetGet(RpuAddrOf(bounce, base), proc, o) == Some(bounce)
  {
    Pal.PktRamRoundTrip(proc, o, 0);
    var base := Pal.RpuAddrOffsetGet(Pal.RPU_MEM_PKT_BASE, proc, o).value;
    Pal.PktRamRoundTrip(proc, o, bounce - base);
  }

  // ---------------------------------------------------------------------
  // Receive buffer records

  /**
   * `nrf_wifi_sys_hal_buf_map_rx` on one record: an entry already mapped is
   * left alone and its address returned; otherwise the buffer and length
   * are recorded, a length other than the pool's buffer size is refused
   * (0), and the bounce buffer past its headroom is mapped, the entry
   * becoming mapped exactly when the map returns an address.
   */
  function MapRxEntry(e: BufMapInfo, buf: nat, bufLen: nat, poolBufSz: nat, bounce: nat, headroom: nat,
                      dmaMap: (nat, nat) -> nat): (r: (BufMapInfo, nat))
    requires EntryOk(e)
    ensures EntryOk(r.0) && r.1 == r.0.phyAddr
  {
    if e.mapped then (e, e.phyAddr)
    else if bufLen != poolBufSz then (e.(virtAddr := buf, bufLen := bufLen), 0)
    else
      var phy := dmaMap(bounce + headroom, bufLen);
      (BufMapInfo(phy != 0, buf, phy, bufLen), phy)
  }

  /**
   * `nrf_wifi_sys_hal_buf_unmap_rx` on one record, `unmapped` being what
   * the DMA unmap returns: an unmapped entry is left alone (0); a failed
   * unmap of a non-empty frame leaves it mapped (0); otherwise the entry
   * is cleared and the buffer returned.
   */
  function UnmapRxEntry(e: BufMapInfo, dataLen: nat, dmaUnmap: (nat, nat) -> nat): (r: (BufMapInfo, nat))
    requires EntryOk(e)
    ensures EntryOk(r.0)
  {
    if !e.mapped then (e, 0)
    else if dataLen != 0 && dmaUnmap(e.phyAddr, e.bufLen) == 0 then (e, 0)
    else (ZERO_INFO, e.virtAddr)
  }

  /** Mapping a mapped entry again changes nothing and returns its address. */
  lemma MapRxTwice(e: BufMapInfo, buf: nat, bufLen: nat, poolBufSz: nat, bounce: nat, headroom: nat,
                   buf2: nat, bufLen2: nat, dmaMap: (nat, nat) -> nat)
    requires EntryOk(e)
    requires MapRxEntry(e, buf, bufLen, poolBufSz, bounce, headroom, dmaMap).1 != 0
    ensures var r := MapRxEntry(e, buf, bufLen, poolBufSz, bounce, headroom, dmaMap);
      MapRxEntry(r.0, buf2, bufLen2, poolBufSz, bounce, headroom, dmaMap) == r
  {
  }

  /**
   * Map then unmap: a receive buffer whose map succeeded is handed back by
   * the unmap (when the DMA unmap succeeds or no data arrived), and its
   * record returns to zero; a map that failed leaves nothing to unmap.
   */
  lemma RxMapUnmapRoundTrip(buf: nat, bufLen: nat, bounce: nat, headroom: nat, dataLen: nat,
                            dmaMap: (nat, nat) -> nat, dmaUnmap: (nat, nat) -> nat)
    ensures var m := MapRxEntry(ZERO_INFO, buf, bufLen, bufLen, bounce, headroom, dmaMap);
      var u := UnmapRxEntry(m.0, dataLen, dmaUnmap);
      && (m.1 != 0 && (dataLen == 0 || dmaUnmap(m.1, bufLen) != 0) ==> u == (ZERO_INFO, buf))
      && (m.1 == 0 ==> u.1 == 0 && !u.0.mapped)
  {
  }

  // ---------------------------------------------------------------------
  // Transmit placement

  /** `(x + 3) & ~3`: `x` rounded up to a multiple of 4. */
  function Round4(x: nat): (r: nat)
    ensures r % 4 == 0 && x <= r < x + 4
  {
    (x + 3) / 4 * 4
  }

  /** `addr_rpu_pktram_base_tx + token × max_ampdu_len_per_token`. */
  function TokenBase(baseTx: nat, token: nat, c: HalCfg): nat
  {
    baseTx + token * c.maxAmpduLenPerToken
  }

  /** Where a frame's placement starts: the token's base for its first
   *  frame, the running `tx_frame_offset` otherwise. */
  function PlaceFrom(offset: nat, baseTx: nat, token: nat, bufIndx: nat, c: HalCfg): nat
  {
    if bufIndx == 0 then TokenBase(baseTx, token, c) else offset
  }

  /** The offset after a frame of `len` bytes is placed from `off`: the
   *  aligned bounce buffer, the aligned length, then the headroom. */
  function PlaceOne(off: nat, len: nat, headroom: nat): nat
  {
    Round4(off) + Round4(len) + headroom
  }

  /** A frame `map_tx` accepts: at most `max_tx_frm_sz − tx_buf_headroom_sz`
   *  bytes. */
  predicate TxLenOk(len: nat, c: HalCfg)
  {
    len <= c.maxTxFrmSz - c.txHeadroom
  }

  /**
   * Each transmit bounce buffer is 4-aligned and starts at or after the
   * running offset, and the offset moves past its aligned length and the
   * headroom, so a frame placed next (not the first of a token) starts
   * after this one ends.
   */
  lemma TxFramesDisjoint(off: nat, len1: nat, len2: nat, headroom: nat)
    ensures Round4(off) % 4 == 0 && off <= Round4(off)
    ensures Round4(off) + len1 <= Round4(off) + Round4(len1) <= PlaceOne(off, len1, headroom)
    ensures Round4(off) + Round4(len1) + headroom <= Round4(PlaceOne(off, len1, headroom))
  {
  }

  /** The offset after placing frames of the given sizes one after another. */
  function Place(off: nat, sizes: seq<nat>, headroom: nat): (end: nat)
    ensures end >= off
    decreases |sizes|
  {
    if |sizes| == 0 then off else Place(PlaceOne(off, sizes[0], headroom), sizes[1..], headroom)
  }

  /** The frame sizes plus one headroom each. */
  function Footprint(sizes: seq<nat>, headroom: nat): nat
    decreases |sizes|
  {
    if |sizes| == 0 then 0 else sizes[0] + headroom + Footprint(sizes[1..], headroom)
  }

  /**
   * The rounding costs at most 6 bytes per frame: frames of the given sizes
   * take no more than their sizes plus headrooms plus `6 × count` past the
   * start; from an aligned start with an aligned headroom, 3 per frame.
   */
  lemma {:induction false} PlaceBound(off: nat, sizes: seq<nat>, headroom: nat)
    ensures Place(off, sizes, headroom) <= off + Footprint(sizes, headroom) + 6 * |sizes|
    ensures off % 4 == 0 && headroom % 4 == 0 ==>
      Place(off, sizes, headroom) <= off + Footprint(sizes, headroom) + 3 * |sizes|
    decreases |sizes|
  {
    if |sizes| > 0 {
      var next := PlaceOne(off, sizes[0], headroom);
      PlaceOneBound(off, sizes[0], headroom);
      PlaceBound(next, sizes[1..], headroom);
      assert Footprint(sizes, headroom) == sizes[0] + headroom + Footprint(sizes[1..], headroom);
    }
  }

  /** One frame moves the offset by at most its size, the headroom and 6,
   *  and by at most 3 past them, to an aligned offset, when the offset and
   *  the headroom are aligned. */
  lemma PlaceOneBound(off: nat, len: nat, headroom: nat)
    ensures PlaceOne(off, len, headroom) <= off + len + headroom + 6
    ensures off % 4 == 0 && headroom % 4 == 0 ==>
      PlaceOne(off, len, headroom) <= off + len + headroom + 3 && PlaceOne(off, len, headroom) % 4 == 0
  {
    if off % 4 == 0 && headroom % 4 == 0 {
      assert Round4(off) == off by {
        assert off == off / 4 * 4;
      }
      var a, b, h := off / 4, Round4(len) / 4, headroom / 4;
      assert Round4(len) == b * 4;
      assert PlaceOne(off, len, headroom) == (a + b + h) * 4;
    }
  }

  /** The bound is reached: four one-byte frames with 4 bytes of headroom
   *  take 20 bytes by their sizes and headrooms but move the offset by 32. */
  lemma PlaceRoundingCost()
    ensures Footprint([1, 1, 1, 1], 4) == 20
    ensures Place(0, [1, 1, 1, 1], 4) == 32
  {
  }

  // ---------------------------------------------------------------------
  // Transmit buffer records

  /**
   * `nrf_wifi_sys_hal_buf_map_tx` on one record and the running offset:
   * the entry, the new `tx_frame_offset` and the returned address. A mapped
   * entry is left alone; a frame over the limit is refused (only its buffer
   * recorded); otherwise it is placed at `Round4(start)`, the offset moves on
   * (even when the DMA map then fails), and the entry becomes mapped, with
   * the aligned length, exactly when the map returns an address.
   */
  function MapTxEntry(e: BufMapInfo, offset: nat, buf: nat, bufLen: nat, start: nat, c: HalCfg,
                      dmaMap: (nat, nat) -> nat): (r: (BufMapInfo, nat, nat))
    requires EntryOk(e)
    ensures EntryOk(r.0) && r.2 == r.0.phyAddr
  {
    if e.mapped then (e, offset, e.phyAddr)
    else if !TxLenOk(bufLen, c) then (e.(virtAddr := buf), offset, 0)
    else
      var bounce := Round4(start);
      var phy := dmaMap(bounce, Round4(bufLen));
      (BufMapInfo(phy != 0, buf, phy, if phy != 0 then Round4(bufLen) else e.bufLen),
       PlaceOne(start, bufLen, c.txHeadroom), phy)
  }

  /** `nrf_wifi_sys_hal_buf_unmap_tx` on one record: an unmapped entry or a
   *  failed DMA unmap gives 0 and changes nothing; otherwise the entry is
   *  cleared and the buffer returned. */
  function UnmapTxEntry(e: BufMapInfo, dmaUnmap: (nat, nat) -> nat): (r: (BufMapInfo, nat))
    requires EntryOk(e)
    ensures EntryOk(r.0)
  {
    if !e.mapped || dmaUnmap(e.phyAddr, e.bufLen) == 0 then (e, 0)
    else (ZERO_INFO, e.virtAddr)
  }

  /** A transmit buffer whose map succeeded comes back from a successful
   *  unmap, its record cleared; the DMA map saw the aligned bounce buffer
   *  and length. */
  lemma TxMapUnmapRoundTrip(buf: nat, bufLen: nat, offset: nat, start: nat, c: HalCfg,
                            dmaMap: (nat, nat) -> nat, dmaUnmap: (nat, nat) -> nat)
    ensures var m := MapTxEntry(ZERO_INFO, offset, buf, bufLen, start, c, dmaMap);
      && (m.2 != 0 ==> TxLenOk(bufLen, c) && m.2 == dmaMap(Round4(start), Round4(bufLen)))
      && (m.2 != 0 && dmaUnmap(m.2, Round4(bufLen)) != 0 ==> UnmapTxEntry(m.0, dmaUnmap) == (ZERO_INFO, buf))
  {
  }

  // ---------------------------------------------------------------------
  // Data command slots

  /** `enum NRF_WIFI_HAL_MSG_TYPE` as `data_cmd_send` sees it. */
  datatype DataCmdType = CmdDataRx | CmdDataTx | OtherMsgType

  const RPU_DATA_CMD_SIZE_MAX_RX: nat := 8
  const RPU_DATA_CMD_SIZE_MAX_TX: nat := 148

  /** `addr_base + max_cmd_size × desc_id` in 32 bits; an unknown type keeps
   *  base and size 0, so its slot is address 0. */
  function DataCmdAddr(t: DataCmdType, desc: nat, rxCmdBase: u32, txCmdBase: u32): (addr: u32)
    ensures t == OtherMsgType ==> addr == 0
  {
    match t
    case CmdDataRx => (rxCmdBase + RPU_DATA_CMD_SIZE_MAX_RX * desc) % 0x1_0000_0000
    case CmdDataTx => (txCmdBase + RPU_DATA_CMD_SIZE_MAX_TX * desc) % 0x1_0000_0000
    case OtherMsgType => 0
  }

  /** The address the command is copied to: for a receive command, the low
   *  24 bits of the slot under `RPU_MCU_CORE_INDIRECT_BASE` (whose low 24
   *  bits are clear), the slot itself otherwise. */
  function DataCmdHostAddr(t: DataCmdType, addr: u32, indirectBase: nat): nat
  {
    if t == CmdDataRx then indirectBase + Pal.AddrOffset(addr) else addr
  }

  /**
   * Slots of distinct descriptors do not overlap while they stay below
   * 2^32, and the indirect address of a receive slot keeps the slot's low
   * 24 bits.
   */
  lemma DataCmdSlotsDisjoint(t: DataCmdType, d1: nat, d2: nat, rxCmdBase: u32, txCmdBase: u32, indirectBase: nat)
    requires t != OtherMsgType && d1 < d2
    requires (if t == CmdDataRx then rxCmdBase + RPU_DATA_CMD_SIZE_MAX_RX * (d2 + 1)
              else txCmdBase + RPU_DATA_CMD_SIZE_MAX_TX * (d2 + 1)) <= 0x1_0000_0000
    requires indirectBase % Pal.OFFSET_SPAN == 0
    ensures var size := if t == CmdDataRx then RPU_DATA_CMD_SIZE_MAX_RX else RPU_DATA_CMD_SIZE_MAX_TX;
      DataCmdAddr(t, d1, rxCmdBase, txCmdBase) + size <= DataCmdAddr(t, d2, rxCmdBase, txCmdBase)
    ensures t == CmdDataRx ==>
      DataCmdHostAddr(t, DataCmdAddr(t, d1, rxCmdBase, txCmdBase), indirectBase) % Pal.OFFSET_SPAN
        == DataCmdAddr(t, d1, rxCmdBase, txCmdBase) % Pal.OFFSET_SPAN
  {
    var base := if t == CmdDataRx then rxCmdBase else txCmdBase;
    var size := if t == CmdDataRx then RPU_DATA_CMD_SIZE_MAX_RX else RPU_DATA_CMD_SIZE_MAX_TX;
    SlotBelowWrap(base, size, d1, d2);
    assert DataCmdAddr(t, d1, rxCmdBase, txCmdBase) == base + size * d1;
    assert DataCmdAddr(t, d2, rxCmdBase, txCmdBase) == base + size * d2;
    if t == CmdDataRx {
      OffsetUnderAligned(indirectBase, DataCmdAddr(t, d1, rxCmdBase, txCmdBase));
    }
  }

  /** Slots `d1 < d2` of `size` bytes from `base` that end below 2^32 are
   *  left alone by the 32-bit wrap and follow one another. */
  lemma SlotBelowWrap(base: nat, size: nat, d1: nat, d2: nat)
    requires base < 0x1_0000_0000 && d1 < d2 && base + size * (d2 + 1) <= 0x1_0000_0000
    ensures base + size * d1 + size <= base + size * d2 < 0x1_0000_0000
    ensures (base + size * d1) % 0x1_0000_0000 == base + size * d1
    ensures (base + size * d2) % 0x1_0000_0000 == base + size * d2
  {
    var e := d2 - d1;
    assert size * d2 == size * d1 + size * e;
    assert size * e == size + size * (e - 1);
    assert size * (d2 + 1) == size * d2 + size;
  }

  /** Adding an address's low 24 bits to a 16 MiB-aligned base keeps them. */
  lemma OffsetUnderAligned(indirectBase: nat, a: u32)
    requires indirectBase % Pal.OFFSET_SPAN == 0
    ensures (indirectBase + Pal.AddrOffset(a)) % Pal.OFFSET_SPAN == a % Pal.OFFSET_SPAN
  {
    var k := indirectBase / Pal.OFFSET_SPAN;
    assert indirectBase == k * Pal.OFFSET_SPAN;
    var o := Pal.AddrOffset(a);
    assert (k * Pal.OFFSET_SPAN + o) % Pal.OFFSET_SPAN == o;
  }

  // ---------------------------------------------------------------------
  // The HAL's buffer state

  predicate AllOk(entries: seq<BufMapInfo>)
  {
    forall i :: 0 <= i < |entries| ==> EntryOk(entries[i])
  }

  /**
   * The buffer state of `struct nrf_wifi_hal_dev_ctx`: the host addresses
   * of the packet RAM, of the transmit area and of each receive pool, the
   * running transmit offset, and the mapping records of every receive
   * buffer (per pool) and of every transmit buffer.
   */
  class HalBuffers {
    const cfg: HalCfg
    /** `addr_rpu_pktram_base`. */
    var pktramBase: nat
    /** `addr_rpu_pktram_base_tx`. */
    var pktramBaseTx: nat
    /** `addr_rpu_pktram_base_rx_pool`. */
    var rxPoolBase: seq<nat>
    /** `tx_frame_offset`. */
    var txFrameOffset: nat
    /** `rx_buf_info[pool][buf]`. */
    var rxInfo: seq<seq<BufMapInfo>>
    /** `tx_buf_info[desc]`. */
    var txInfo: seq<BufMapInfo>

    ghost predicate Valid()
      reads this
    {
      && CfgOk(cfg)
      && |rxPoolBase| == MAX_NUM_OF_RX_QUEUES
      && |rxInfo| == MAX_NUM_OF_RX_QUEUES
      && (forall p :: 0 <= p < MAX_NUM_OF_RX_QUEUES ==> |rxInfo[p]| == cfg.rxPools[p].numBufs && AllOk(rxInfo[p]))
      && |txInfo| == cfg.numTxBufs
      && AllOk(txInfo)
    }

    /** The state `nrf_wifi_sys_hal_dev_add` leaves: every record zero. */
    constructor (cfg: HalCfg)
      requires CfgOk(cfg)
      ensures Valid() && this.cfg == cfg
      ensures forall p, b :: 0 <= p < MAX_NUM_OF_RX_QUEUES && 0 <= b < |rxInfo[p]| ==> rxInfo[p][b] == ZERO_INFO
      ensures forall d :: 0 <= d < |txInfo| ==> txInfo[d] == ZERO_INFO
    {
      this.cfg := cfg;
      pktramBase := 0;
      pktramBaseTx := 0;
      rxPoolBase := [0, 0, 0];
      txFrameOffset := 0;
      rxInfo := seq(MAX_NUM_OF_RX_QUEUES, p requires 0 <= p < MAX_NUM_OF_RX_QUEUES => seq(cfg.rxPools[p].numBufs, _ => ZERO_INFO));
      txInfo := seq(cfg.numTxBufs, _ => ZERO_INFO);
    }

    /**
     * `nrf_wifi_sys_hal_rpu_pktram_buf_map_init`: the packet RAM's host
     * address is the translation of `RPU_MEM_PKT_BASE` (always found), the
     * transmit area starts there, and the receive pools follow each other
     * from the start of the receive area.
     */
    method PktramBufMapInit(proc: nat, o: Pal.SocOffsets) returns (status: Status)
      requires Valid() && Pal.OffsetsOk(o)
      modifies this`pktramBase, this`pktramBaseTx, this`rxPoolBase
      ensures Valid() && status == Success
      ensures Pal.RpuAddrOffsetGet(Pal.RPU_MEM_PKT_BASE, proc, o) == Some(pktramBase)
      ensures pktramBase == o.pktramHostView + (Pal.RPU_MEM_PKT_BASE - Pal.RPU_ADDR_PKTRAM_START)
      ensures pktramBaseTx == pktramBase
      ensures forall p :: 0 <= p < MAX_NUM_OF_RX_QUEUES ==> rxPoolBase[p] == PoolStart(cfg, pktramBase, p)
    {
      Pal.PktRamTranslation(Pal.RPU_MEM_PKT_BASE, proc, o);
      var base := Pal.RpuAddrOffsetGet(Pal.RPU_MEM_PKT_BASE, proc, o).value;
      var bases := [RxAreaStart(cfg, base), 0, 0];
      var p := 1;
      while p < MAX_NUM_OF_RX_QUEUES
        invariant 1 <= p <= MAX_NUM_OF_RX_QUEUES && |bases| == MAX_NUM_OF_RX_QUEUES
        invariant forall j :: 0 <= j < p ==> bases[j] == PoolStart(cfg, base, j)
      {
        bases := bases[p := bases[p - 1] + cfg.rxPools[p - 1].numBufs * cfg.rxPools[p - 1].bufSz];
        p := p + 1;
      }
      pktramBase := base;
      pktramBaseTx := base;
      rxPoolBase := bases;
      status := Success;
    }

    /** `nrf_wifi_sys_hal_buf_map_rx` for buffer `bufId` of pool `pool`; the
     *  record and the result are `MapRxEntry`'s, with the buffer's bounce
     *  address in its pool. */
    method MapRx(buf: nat, bufLen: nat, pool: nat, bufId: nat, dmaMap: (nat, nat) -> nat) returns (phy: nat)
      requires Valid() && pool < MAX_NUM_OF_RX_QUEUES && bufId < |rxInfo[pool]|
      modifies this`rxInfo
      ensures Valid()
      ensures var r := MapRxEntry(old(rxInfo[pool][bufId]), buf, bufLen, cfg.rxPools[pool].bufSz,
                                  RxBounce(rxPoolBase[pool], bufId, bufLen), cfg.rxHeadroom, dmaMap);
        rxInfo == old(rxInfo)[pool := old(rxInfo[pool])[bufId := r.0]] && phy == r.1
    {
      var e := rxInfo[pool][bufId];
      if e.mapped {
        assert rxInfo[pool][bufId := e] == rxInfo[pool];
        assert rxInfo[pool := rxInfo[pool][bufId := e]] == rxInfo;
        return e.phyAddr;
      }
      e := e.(virtAddr := buf, bufLen := bufLen);
      if bufLen == cfg.rxPools[pool].bufSz {
        var bounce := rxPoolBase[pool] + bufId * bufLen;
        e := e.(phyAddr := dmaMap(bounce + cfg.rxHeadroom, bufLen));
      }
      if e.phyAddr != 0 {
        e := e.(mapped := true);
      }
      rxInfo := rxInfo[pool := rxInfo[pool][bufId := e]];
      phy := e.phyAddr;
    }

    /** `nrf_wifi_sys_hal_buf_unmap_rx`; the record and the result are
     *  `UnmapRxEntry`'s. */
    method UnmapRx(dataLen: nat, pool: nat, bufId: nat, dmaUnmap: (nat, nat) -> nat) returns (virt: nat)
      requires Valid() && pool < MAX_NUM_OF_RX_QUEUES && bufId < |rxInfo[pool]|
      modifies this`rxInfo
      ensures Valid()
      ensures var r := UnmapRxEntry(old(rxInfo[pool][bufId]), dataLen, dmaUnmap);
        rxInfo == old(rxInfo)[pool := old(rxInfo[pool])[bufId := r.0]] && virt == r.1
    {
      var e := rxInfo[pool][bufId];
      if !e.mapped {
        assert rxInfo[pool][bufId := e] == rxInfo[pool];
        assert rxInfo[pool := rxInfo[pool][bufId := e]] == rxInfo;
        return 0;
      }
      var unmapped := dmaUnmap(e.phyAddr, e.bufLen);
      if dataLen != 0 && unmapped == 0 {
        assert rxInfo[pool][bufId := e] == rxInfo[pool];
        assert rxInfo[pool := rxInfo[pool][bufId := e]] == rxInfo;
        return 0;
      }
      virt := e.virtAddr;
      rxInfo := rxInfo[pool := rxInfo[pool][bufId := ZERO_INFO]];
    }

    /** `nrf_wifi_sys_hal_buf_map_tx` for record `desc`, frame `bufIndx` of
     *  token `token`; the record, the new `tx_frame_offset` and the result
     *  are `MapTxEntry`'s, placed from the token base for the first frame. */
    method MapTx(buf: nat, bufLen: nat, desc: nat, token: nat, bufIndx: nat, dmaMap: (nat, nat) -> nat) returns (phy: nat)
      requires Valid() && desc < |txInfo|
      modifies this`txInfo, this`txFrameOffset
      ensures Valid()
      ensures var r := MapTxEntry(old(txInfo[desc]), old(txFrameOffset), buf, bufLen,
                                  PlaceFrom(old(txFrameOffset), pktramBaseTx, token, bufIndx, cfg), cfg, dmaMap);
        txInfo == old(txInfo)[desc := r.0] && txFrameOffset == r.1 && phy == r.2
    {
      var e := txInfo[desc];
      if e.mapped {
        assert txInfo[desc := e] == txInfo;
        return e.phyAddr;
      }
      e := e.(virtAddr := buf);
      if bufLen <= cfg.maxTxFrmSz - cfg.txHeadroom {
        if bufIndx == 0 {
          txFrameOffset := pktramBaseTx + token * cfg.maxAmpduLenPerToken;
        }
        var bounce := (txFrameOffset + 3) / 4 * 4;
        var len4 := (bufLen + 3) / 4 * 4;
        txFrameOffset := txFrameOffset + (bounce - txFrameOffset) + len4 + cfg.txHeadroom;
        e := e.(phyAddr := dmaMap(bounce, len4));
        if e.phyAddr != 0 {
          e := e.(bufLen := len4);
        }
      }
      if e.phyAddr != 0 {
        e := e.(mapped := true);
      }
      txInfo := txInfo[desc := e];
      phy := e.phyAddr;
    }

    /** `nrf_wifi_sys_hal_buf_unmap_tx`; the record and the result are
     *  `UnmapTxEntry`'s. */
    method UnmapTx(desc: nat, dmaUnmap: (nat, nat) -> nat) returns (virt: nat)
      requires Valid() && desc < |txInfo|
      modifies this`txInfo
      ensures Valid()
      ensures var r := UnmapTxEntry(old(txInfo[desc]), dmaUnmap);
        txInfo == old(txInfo)[desc := r.0] && virt == r.1
    {
      var e := txInfo[desc];
      if !e.mapped {
        assert txInfo[desc := e] == txInfo;
        return 0;
      }
      var unmapped := dmaUnmap(e.phyAddr, e.bufLen);
      if unmapped == 0 {
        assert txInfo[desc := e] == txInfo;
        return 0;
      }
      virt := e.virtAddr;
      txInfo := txInfo[desc := ZERO_INFO];
    }
  }
}
