/**
 * The spare-descriptor queue map of the transmit engine. Descriptors below
 * `reserved = tokens_per_ac * AC_MAX` belong to a fixed access category
 * (`desc % AC_MAX`); the remaining "spare" descriptors are lent to any
 * category, and the category a spare descriptor was lent to is recorded in a
 * group of SPARE_DESC_Q_MAP_SIZE bits of `spare_desc_queue_map`, bit `q` of
 * group `desc % reserved` standing for category `q`.
 */
module TxSpare {
  import opened TxClassify

  const SPARE_DESC_Q_MAP_SIZE: nat := 4
  /** The map is read back as an `unsigned short`; a bit written above it is lost. */
  const SPARE_MAP_BITS: nat := 16

  type SpareMap = m: seq<bool> | |m| == SPARE_MAP_BITS witness seq(SPARE_MAP_BITS, _ => false)

  const EmptySpareMap: SpareMap := seq(SPARE_MAP_BITS, _ => false)

  /** The bit `set/clear_spare_desc_q_map` address for (desc, q). */
  function SpareBit(desc: nat, q: nat, reserved: nat): nat
    requires reserved > 0
  {
    (desc % reserved) * SPARE_DESC_Q_MAP_SIZE + q
  }

  /** Bit `k` of the map; bits above the 16-bit map read as 0. */
  predicate MapBit(m: SpareMap, k: nat)
  {
    k < SPARE_MAP_BITS && m[k]
  }

  /** `set_spare_desc_q_map`: ORs in the bit for (desc, q). */
  function SetSpare(m: SpareMap, desc: nat, q: nat, reserved: nat): (r: SpareMap)
    requires reserved > 0
    ensures forall k: nat :: MapBit(r, k) <==> MapBit(m, k) || (k == SpareBit(desc, q, reserved) && k < SPARE_MAP_BITS)
  {
    var b := SpareBit(desc, q, reserved);
    if b < SPARE_MAP_BITS then m[b := true] else m
  }

  /** `clear_spare_desc_q_map`: ANDs out the bit for (desc, q). */
  function ClearSpare(m: SpareMap, desc: nat, q: nat, reserved: nat): (r: SpareMap)
    requires reserved > 0
    ensures forall k: nat :: MapBit(r, k) <==> MapBit(m, k) && k != SpareBit(desc, q, reserved)
  {
    var b := SpareBit(desc, q, reserved);
    if b < SPARE_MAP_BITS then m[b := false] else m
  }

  function B(x: bool): nat { if x then 1 else 0 }

  /** `get_spare_desc_q_map`: the 4-bit group of `desc`, `(map >> idx*4) & 0xF`. */
  function GetSpare(m: SpareMap, desc: nat, reserved: nat): (v: nat)
    requires reserved > 0
    ensures v < 16
  {
    var base := (desc % reserved) * SPARE_DESC_Q_MAP_SIZE;
    B(MapBit(m, base)) + 2 * B(MapBit(m, base + 1)) + 4 * B(MapBit(m, base + 2))
      + 8 * B(MapBit(m, base + 3))
  }

  /** Bit `k` (< 4) of a group value, `v & (1 << k)`. */
  predicate NibbleBit(v: nat, k: nat)
  {
    (if k == 0 then v else if k == 1 then v / 2 else if k == 2 then v / 4 else v / 8) % 2 == 1
  }

  lemma {:induction false} GetSpareBits(m: SpareMap, desc: nat, reserved: nat, k: nat)
    requires reserved > 0 && k < SPARE_DESC_Q_MAP_SIZE
    ensures NibbleBit(GetSpare(m, desc, reserved), k) <==> MapBit(m, SpareBit(desc, k, reserved))
  {
    var base := (desc % reserved) * SPARE_DESC_Q_MAP_SIZE;
    var b0, b1, b2, b3 := B(MapBit(m, base)), B(MapBit(m, base + 1)), B(MapBit(m, base + 2)), B(MapBit(m, base + 3));
    var v := b0 + 2 * b1 + 4 * b2 + 8 * b3;
    assert v / 2 == b1 + 2 * b2 + 4 * b3;
    assert v / 4 == b2 + 2 * b3;
    assert v / 8 == b3;
  }

  /**
   * Setting the bit for (desc, q) makes `get` report q for desc, and clearing
   * it makes `get` report that q is absent; the other three bits of the group
   * keep their values.
   */
  lemma {:induction false} SetGetClearGet(m: SpareMap, desc: nat, q: nat, k: nat, reserved: nat)
    requires reserved > 0 && q < SPARE_DESC_Q_MAP_SIZE && k < SPARE_DESC_Q_MAP_SIZE
    requires SpareBit(desc, SPARE_DESC_Q_MAP_SIZE - 1, reserved) < SPARE_MAP_BITS
    ensures NibbleBit(GetSpare(SetSpare(m, desc, q, reserved), desc, reserved), k)
            <==> k == q || NibbleBit(GetSpare(m, desc, reserved), k)
    ensures NibbleBit(GetSpare(ClearSpare(m, desc, q, reserved), desc, reserved), k)
            <==> k != q && NibbleBit(GetSpare(m, desc, reserved), k)
  {
    GetSpareBits(m, desc, reserved, k);
    GetSpareBits(SetSpare(m, desc, q, reserved), desc, reserved, k);
    GetSpareBits(ClearSpare(m, desc, q, reserved), desc, reserved, k);
  }

  /** Spare descriptors `reserved <= d < 2 * reserved` own disjoint groups. */
  lemma SpareGroupsDisjoint(d1: nat, q1: nat, d2: nat, q2: nat, reserved: nat)
    requires reserved > 0
    requires reserved <= d1 < 2 * reserved && reserved <= d2 < 2 * reserved && d1 != d2
    requires q1 < SPARE_DESC_Q_MAP_SIZE && q2 < SPARE_DESC_Q_MAP_SIZE
    ensures SpareBit(d1, q1, reserved) != SpareBit(d2, q2, reserved)
  {
    ModOnce(d1, reserved);
    ModOnce(d2, reserved);
  }

  lemma ModOnce(d: nat, r: nat)
    requires 0 < r <= d < 2 * r
    ensures d % r == d - r
  {
    assert d == 1 * r + (d - r);
  }

  /**
   * The multicast class does not fit in a 4-bit group: recording it for one
   * spare descriptor sets the BK bit of the next spare descriptor's group.
   */
  lemma McSpareOverlapsNextGroup(desc: nat, reserved: nat)
    requires reserved > 0 && reserved <= desc && desc + 1 < 2 * reserved
    ensures SpareBit(desc, AC_MC, reserved) == SpareBit(desc + 1, AC_BK, reserved)
  {
    ModOnce(desc, reserved);
    ModOnce(desc + 1, reserved);
  }

  /**
   * The access category `tx_buff_req_free` reads back for a spare
   * descriptor: the first of BK, BE, VI, VO whose bit is set in the group,
   * and BK (the initial value of `tx_done_q`) when none is.
   */
  function DecodeSpareClass(v: nat): (q: nat)
    ensures q < SPARE_DESC_Q_MAP_SIZE
    ensures q != AC_BK ==> NibbleBit(v, q)
    ensures forall k: nat :: k < q ==> !NibbleBit(v, k)
  {
    if NibbleBit(v, AC_BK) then AC_BK
    else if NibbleBit(v, AC_BE) then AC_BE
    else if NibbleBit(v, AC_VI) then AC_VI
    else if NibbleBit(v, AC_VO) then AC_VO
    else AC_BK
  }

  /** When a group has exactly one bit set, decoding returns that bit. */
  lemma DecodeSingleBit(v: nat, q: nat)
    requires q < SPARE_DESC_Q_MAP_SIZE
    requires forall k: nat :: k < SPARE_DESC_Q_MAP_SIZE ==> (NibbleBit(v, k) <==> k == q)
    ensures DecodeSpareClass(v) == q
  {
  }
}
