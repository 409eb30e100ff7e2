/**
 * Address translation of the nRF70 platform layer: which region of the RPU
 * address map an address falls in, where that region appears in the host's
 * view, and where each firmware patch is found.
 */
module Pal {
  import opened Common

  /** The MCUs of the RPU: `RPU_PROC_TYPE_MCU_LMAC` and
   *  `RPU_PROC_TYPE_MCU_UMAC`, one entry each in `RPU_ADDR_MAP_MCU`. */
  const RPU_PROC_TYPE_MAX: nat := 2

  /** An inclusive range `[start, end]` of an MCU's local memory. */
  datatype Region = Region(start: nat, end: nat)

  predicate InRegion(r: Region, a: nat)
  {
    r.start <= a <= r.end
  }

  /** `RPU_ADDR_MAP_MCU`: ROM, retention and scratch of the LMAC MCU, then
   *  of the UMAC MCU. */
  const RPU_ADDR_MAP_MCU: seq<seq<Region>> := [
    [Region(0x80000000, 0x80033FFF), Region(0x80040000, 0x8004BFFF), Region(0x80080000, 0x8008FFFF)],
    [Region(0x80000000, 0x800617FF), Region(0x80080000, 0x800A3FFF), Region(0x80100000, 0x80137FFF)]
  ]

  /** `RPU_MCU_ADDR_REGION_MAX`. */
  const RPU_MCU_ADDR_REGION_MAX: nat := 3

  /** An address lies in one of the local memory regions of MCU `proc`. */
  predicate InMcuRegions(proc: nat, a: nat)
  {
    proc < RPU_PROC_TYPE_MAX
    && exists k :: 0 <= k < RPU_MCU_ADDR_REGION_MAX && InRegion(RPU_ADDR_MAP_MCU[proc][k], a)
  }

  /** `pal_check_rpu_mcu_regions`: an unknown MCU is refused; otherwise the
   *  three regions are scanned in order. */
  method CheckRpuMcuRegions(proc: nat, a: u32) returns (found: bool)
    ensures found <==> InMcuRegions(proc, a)
  {
    if proc >= RPU_PROC_TYPE_MAX {
      return false;
    }
    var map_ := RPU_ADDR_MAP_MCU[proc];
    var k := 0;
    while k < RPU_MCU_ADDR_REGION_MAX
      invariant k <= RPU_MCU_ADDR_REGION_MAX
      invariant forall j :: 0 <= j < k ==> !InRegion(map_[j], a)
    {
      if map_[k].start <= a && a <= map_[k].end {
        return true;
      }
      k := k + 1;
    }
    return false;
  }

  // nRF70 address map
  const RPU_ADDR_GRAM_START: nat := 0xB7000000
  const RPU_ADDR_GRAM_END: nat := 0xB70101FF
  const RPU_ADDR_SBUS_START: nat := 0xA4000000
  const RPU_ADDR_PBUS_START: nat := 0xA5000000
  const RPU_ADDR_PKTRAM_START: nat := 0xB0000000
  const RPU_ADDR_PKTRAM_END: nat := 0xB0030FFF
  /** `RPU_MEM_PKT_BASE`: where transmit and receive bounce buffers live. */
  const RPU_MEM_PKT_BASE: nat := 0xB0005000
  /** `RPU_PKTRAM_SIZE`. */
  const RPU_PKTRAM_SIZE: nat := RPU_ADDR_PKTRAM_END - RPU_MEM_PKT_BASE + 1

  /** `RPU_ADDR_MASK_OFFSET` (0x00FFFFFF): the low 24 bits. */
  const OFFSET_SPAN: nat := 0x1000000

  /** `rpu_addr & RPU_ADDR_MASK_BASE` (0xFF000000) of a 32-bit address. */
  function AddrBase(a: u32): (b: nat)
    ensures b % OFFSET_SPAN == 0 && b <= a < b + OFFSET_SPAN
  {
    a / OFFSET_SPAN * OFFSET_SPAN
  }

  /** `rpu_addr & RPU_ADDR_MASK_OFFSET`. */
  function AddrOffset(a: u32): (o: nat)
    ensures o < OFFSET_SPAN && AddrBase(a) + o == a
  {
    a % OFFSET_SPAN
  }

  /** The `SOC_MMAP_ADDR_OFFSET_*` values: where each RPU region starts in
   *  the host's view, per bus. `mcu` has one entry per MCU. */
  datatype SocOffsets = SocOffsets(sysbus: nat, gramPkd: nat, pbus: nat, pktramHostView: nat, mcu: seq<nat>)

  predicate OffsetsOk(o: SocOffsets)
  {
    |o.mcu| == RPU_PROC_TYPE_MAX
  }

  /** The regions `pal_rpu_addr_offset_get` tells apart, in the order it
   *  tries them. */
  datatype RpuRegion = SysBus | Gram | PBus | PktRam | Mcu | Unknown

  /** The first region whose test the address passes: the system bus by its
   *  base, the GRAM by its inclusive range, the peripheral bus and the
   *  packet RAM by their bases, then the MCU's own memories. */
  function RegionOf(a: u32, proc: nat): (r: RpuRegion)
    ensures r == SysBus <==> AddrBase(a) == RPU_ADDR_SBUS_START
    ensures r == Gram <==> AddrBase(a) != RPU_ADDR_SBUS_START && RPU_ADDR_GRAM_START <= a <= RPU_ADDR_GRAM_END
    ensures r == PktRam ==> AddrBase(a) == RPU_ADDR_PKTRAM_START
    ensures r == Mcu ==> InMcuRegions(proc, a)
    ensures r == Unknown <==>
      && AddrBase(a) !in {RPU_ADDR_SBUS_START, RPU_ADDR_PBUS_START, RPU_ADDR_PKTRAM_START}
      && !(RPU_ADDR_GRAM_START <= a <= RPU_ADDR_GRAM_END)
      && !InMcuRegions(proc, a)
  {
    if AddrBase(a) == RPU_ADDR_SBUS_START then SysBus
    else if RPU_ADDR_GRAM_START <= a <= RPU_ADDR_GRAM_END then Gram
    else if AddrBase(a) == RPU_ADDR_PBUS_START then PBus
    else if AddrBase(a) == RPU_ADDR_PKTRAM_START then PktRam
    else if InMcuRegions(proc, a) then Mcu
    else Unknown
  }

  /** `region_offset` for a recognised region. */
  function RegionOffset(r: RpuRegion, proc: nat, o: SocOffsets): nat
    requires OffsetsOk(o) && r != Unknown && (r == Mcu ==> proc < RPU_PROC_TYPE_MAX)
  {
    match r
    case SysBus => o.sysbus
    case Gram => o.gramPkd
    case PBus => o.pbus
    case PktRam => o.pktramHostView
    case Mcu => o.mcu[proc]
  }

  /**
   * `pal_rpu_addr_offset_get` on nRF70: the host address of RPU address `a`
   * seen from MCU `proc`, or `None` (FAIL, `*addr` unwritten) when no region
   * claims it. A recognised address keeps its low 24 bits and takes the
   * region's host offset.
   */
  function RpuAddrOffsetGet(a: u32, proc: nat, o: SocOffsets): (r: Option<nat>)
    requires OffsetsOk(o)
    ensures r.None? <==> RegionOf(a, proc) == Unknown
    ensures r.Some? ==> AddrOffset(a) <= r.value
  {
    var region := RegionOf(a, proc);
    if region == Unknown then None
    else Some(RegionOffset(region, proc, o) + AddrOffset(a))
  }

  /** Two addresses that the same region claims and that share their top
   *  byte keep their distance in the host view. */
  lemma TranslationKeepsDistance(a: u32, b: u32, proc: nat, o: SocOffsets)
    requires OffsetsOk(o) && RegionOf(a, proc) == RegionOf(b, proc) != Unknown
    requires AddrBase(a) == AddrBase(b)
    ensures RpuAddrOffsetGet(a, proc, o).value - RpuAddrOffsetGet(b, proc, o).value == a - b
  {
  }

  /** Every address of the packet RAM from `RPU_MEM_PKT_BASE` on is packet
   *  RAM to either MCU, and appears in the host view at its offset from
   *  the packet RAM's base. */
  lemma PktRamTranslation(a: u32, proc: nat, o: SocOffsets)
    requires OffsetsOk(o) && RPU_MEM_PKT_BASE <= a < RPU_MEM_PKT_BASE + RPU_PKTRAM_SIZE
    ensures RpuAddrOffsetGet(a, proc, o) == Some(o.pktramHostView + (a - RPU_ADDR_PKTRAM_START))
  {
    assert AddrBase(a) == RPU_ADDR_PKTRAM_START by {
      assert a / OFFSET_SPAN == 0xB0;
    }
  }

  /**
   * The translation of a packet-RAM address and the HAL's translation back
   * (`RPU_MEM_PKT_BASE + (host − addr_rpu_pktram_base)`) are inverse: with
   * `base` the host address of `RPU_MEM_PKT_BASE`, host address
   * `base + k` is RPU address `RPU_MEM_PKT_BASE + k`, which translates to
   * `base + k` again.
   */
  lemma PktRamRoundTrip(proc: nat, o: SocOffsets, k: nat)
    requires OffsetsOk(o) && k < RPU_PKTRAM_SIZE
    ensures var base := RpuAddrOffsetGet(RPU_MEM_PKT_BASE, proc, o);
      && base.Some?
      && RpuAddrOffsetGet(RPU_MEM_PKT_BASE + k, proc, o) == Some(base.value + k)
  {
    PktRamTranslation(RPU_MEM_PKT_BASE, proc, o);
    PktRamTranslation(RPU_MEM_PKT_BASE + k, proc, o);
  }

  /** `enum nrf_wifi_fw_type` and `enum nrf_wifi_fw_subtype`; the other
   *  firmware types and out-of-range values are `OtherFwType`/`OtherSubtype`. */
  datatype FwType = LmacPatch | UmacPatch | OtherFwType
  datatype FwSubtype = Pri | Sec | OtherSubtype

  /** The four `NRF_WIFI_FW_*_PATCH_LOC_*` locations. */
  datatype FwLoc = LmacPatchPri | LmacPatchSec | UmacPatchPri | UmacPatchSec

  /** `pal_ops_get_fw_loc`: the location of a patch image, `None` (NULL) for
   *  any other type or sub-type. */
  function GetFwLoc(t: FwType, st: FwSubtype): (r: Option<FwLoc>)
    ensures r.Some? <==> t != OtherFwType && st != OtherSubtype
  {
    match (t, st)
    case (LmacPatch, Pri) => Some(LmacPatchPri)
    case (LmacPatch, Sec) => Some(LmacPatchSec)
    case (UmacPatch, Pri) => Some(UmacPatchPri)
    case (UmacPatch, Sec) => Some(UmacPatchSec)
    case _ => None
  }

  /** Distinct patch images never share a location. */
  lemma FwLocInjective(t1: FwType, s1: FwSubtype, t2: FwType, s2: FwSubtype)
    requires GetFwLoc(t1, s1).Some? && GetFwLoc(t1, s1) == GetFwLoc(t2, s2)
    ensures t1 == t2 && s1 == s2
  {
  }
}
