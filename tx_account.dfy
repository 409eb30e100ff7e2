/**
 * Descriptor accounting of the transmit engine, on values: which descriptor
 * `tx_desc_get` claims, and the invariant tying the descriptor bitmap,
 * `outstanding_descs[]` and the spare-descriptor queue map together.
 *
 * Descriptor `d` below `reserved = tokens_per_ac * AC_MAX` is charged to class
 * `d % AC_MAX`; a spare descriptor is charged to the class whose bit is set in
 * its group of the spare map. The invariant says that every class's
 * outstanding count is the number of claimed descriptors charged to it, and
 * that a spare descriptor's group holds one bit when it is claimed and none
 * when it is free.
 */
module TxAccount {
  import opened TxClassify
  import opened TxSpare

  /** Spare descriptors exist only when there are reserved ones, there are at
   *  most as many spares as reserved descriptors, and their groups fit the
   *  16-bit map. */
  predicate Layout(n: nat, reserved: nat)
  {
    reserved <= n && n <= 2 * reserved
    && n - reserved <= SPARE_MAP_BITS / SPARE_DESC_Q_MAP_SIZE
  }

  /** The accounting fields sized for `n` descriptors under `Layout`. */
  predicate Sized(bmp: seq<bool>, outstanding: seq<int>, n: nat, reserved: nat)
  {
    Layout(n, reserved) && |bmp| == n && |outstanding| == AC_MAX
  }

  /** The `cnt`-th reserved descriptor of class `q`. */
  function ReservedDesc(q: nat, cnt: nat): nat
  {
    q + AC_MAX * cnt
  }

  lemma ReservedDescClass(q: nat, cnt: nat, tpa: nat)
    requires q < AC_MAX && cnt < tpa
    ensures ReservedDesc(q, cnt) % AC_MAX == q
    ensures ReservedDesc(q, cnt) < AC_MAX * tpa
  {
  }

  /** The reserved scan of `tx_desc_get`: the first `cnt' >= cnt` whose
   *  reserved descriptor is free, or `tpa` when all are taken. */
  function ReservedScan(bmp: seq<bool>, q: nat, tpa: nat, cnt: nat): (c: nat)
    requires q < AC_MAX && AC_MAX * tpa <= |bmp| && cnt <= tpa
    ensures cnt <= c <= tpa
    decreases tpa - cnt
  {
    if cnt == tpa then tpa
    else
      ReservedDescClass(q, cnt, tpa);
      if !bmp[ReservedDesc(q, cnt)] then cnt else ReservedScan(bmp, q, tpa, cnt + 1)
  }

  /** The spare scan of `tx_desc_get`: the first free descriptor at or after
   *  `d`, or `|bmp|` when all are taken. */
  function SpareScan(bmp: seq<bool>, d: nat): (r: nat)
    requires d <= |bmp|
    ensures d <= r <= |bmp|
    decreases |bmp| - d
  {
    if d == |bmp| then d else if !bmp[d] then d else SpareScan(bmp, d + 1)
  }

  /** The descriptor `tx_desc_get(q)` returns: the first free reserved
   *  descriptor of class `q`, else the first free spare, else `|bmp|`. */
  function ChooseDesc(bmp: seq<bool>, q: nat, tpa: nat): nat
    requires q < AC_MAX && AC_MAX * tpa <= |bmp|
  {
    var c := ReservedScan(bmp, q, tpa, 0);
    if c < tpa then ReservedDesc(q, c) else SpareScan(bmp, AC_MAX * tpa)
  }

  lemma {:induction false} ReservedScanMeaning(bmp: seq<bool>, q: nat, tpa: nat, cnt: nat)
    requires q < AC_MAX && AC_MAX * tpa <= |bmp| && cnt <= tpa
    ensures var c := ReservedScan(bmp, q, tpa, cnt);
      && (forall k :: cnt <= k < c ==> bmp[ReservedDesc(q, k)])
      && (c < tpa ==> !bmp[ReservedDesc(q, c)])
    decreases tpa - cnt
  {
    if cnt < tpa {
      ReservedDescClass(q, cnt, tpa);
      if bmp[ReservedDesc(q, cnt)] {
        ReservedScanMeaning(bmp, q, tpa, cnt + 1);
      }
    }
  }

  lemma {:induction false} SpareScanMeaning(bmp: seq<bool>, d: nat)
    requires d <= |bmp|
    ensures var r := SpareScan(bmp, d);
      && (forall e :: d <= e < r ==> bmp[e])
      && (r < |bmp| ==> !bmp[r])
    decreases |bmp| - d
  {
    if d < |bmp| && bmp[d] {
      SpareScanMeaning(bmp, d + 1);
    }
  }

  /**
   * `tx_desc_get(q)` takes the lowest free reserved descriptor of class `q`
   * (those are `q, q + AC_MAX, ...`); only when all of them are claimed does it
   * take the lowest free spare descriptor; it returns the pool size when every
   * candidate is claimed.
   */
  lemma ChooseDescMeaning(bmp: seq<bool>, q: nat, tpa: nat)
    requires q < AC_MAX && AC_MAX * tpa <= |bmp|
    ensures var d := ChooseDesc(bmp, q, tpa); var reserved := AC_MAX * tpa;
      && d <= |bmp|
      && (d < reserved ==>
            && d % AC_MAX == q && !bmp[d]
            && forall k :: 0 <= k < tpa && ReservedDesc(q, k) < d ==> bmp[ReservedDesc(q, k)])
      && (d >= reserved ==> forall k :: 0 <= k < tpa ==> bmp[ReservedDesc(q, k)])
      && (d >= reserved ==> forall e :: reserved <= e < d ==> bmp[e])
      && (d < |bmp| ==> !bmp[d])
  {
    ReservedScanMeaning(bmp, q, tpa, 0);
    SpareScanMeaning(bmp, AC_MAX * tpa);
    var c := ReservedScan(bmp, q, tpa, 0);
    if c < tpa {
      ReservedDescClass(q, c, tpa);
      forall k | 0 <= k < tpa && ReservedDesc(q, k) < ReservedDesc(q, c)
        ensures bmp[ReservedDesc(q, k)]
      {
        assert k < c;
      }
    }
  }

  /** The class a claimed descriptor is charged to. */
  predicate InClass(m: SpareMap, reserved: nat, d: nat, q: nat)
  {
    if d < reserved then d % AC_MAX == q
    else reserved > 0 && q < SPARE_DESC_Q_MAP_SIZE && MapBit(m, SpareBit(d, q, reserved))
  }

  /** Whether descriptor `d` counts towards class `q`. */
  function Hit(bmp: seq<bool>, m: SpareMap, reserved: nat, d: nat, q: nat): nat
    requires d < |bmp|
  {
    if bmp[d] && InClass(m, reserved, d, q) then 1 else 0
  }

  /** The number of claimed descriptors below `k` charged to class `q`. */
  function Charged(bmp: seq<bool>, m: SpareMap, reserved: nat, q: nat, k: nat): nat
    requires k <= |bmp|
  {
    if k == 0 then 0 else Charged(bmp, m, reserved, q, k - 1) + Hit(bmp, m, reserved, k - 1, q)
  }

  /** The number of bits set in the group of spare descriptor `d`. */
  function GroupBits(m: SpareMap, d: nat, reserved: nat): nat
    requires reserved > 0
  {
    B(MapBit(m, SpareBit(d, 0, reserved))) + B(MapBit(m, SpareBit(d, 1, reserved)))
      + B(MapBit(m, SpareBit(d, 2, reserved))) + B(MapBit(m, SpareBit(d, 3, reserved)))
  }

  /** The accounting invariant over the bitmap, the spare map and the
   *  outstanding counters. */
  predicate Accounted(bmp: seq<bool>, m: SpareMap, outstanding: seq<int>, reserved: nat)
  {
    && |outstanding| == AC_MAX
    && (forall q :: 0 <= q < AC_MAX ==> outstanding[q] == Charged(bmp, m, reserved, q, |bmp|))
    && (forall d :: 0 < reserved <= d < |bmp| ==> GroupBits(m, d, reserved) == B(bmp[d]))
  }

  /** Nothing is claimed and nothing is charged: the state `tx_init` leaves. */
  lemma {:induction false} InitialAccounted(n: nat, reserved: nat)
    ensures Accounted(seq(n, _ => false), EmptySpareMap, seq(AC_MAX, _ => 0), reserved)
  {
    var bmp: seq<bool> := seq(n, _ => false);
    forall q | 0 <= q < AC_MAX
      ensures Charged(bmp, EmptySpareMap, reserved, q, n) == 0
    {
      ChargedNone(bmp, EmptySpareMap, reserved, q, n);
    }
  }

  lemma {:induction false} ChargedNone(bmp: seq<bool>, m: SpareMap, reserved: nat, q: nat, k: nat)
    requires k <= |bmp| && forall d :: 0 <= d < |bmp| ==> !bmp[d]
    ensures Charged(bmp, m, reserved, q, k) == 0
  {
    if k > 0 {
      ChargedNone(bmp, m, reserved, q, k - 1);
    }
  }

  /**
   * Changing one descriptor `d0` changes each class count by that
   * descriptor's own contribution, when no other descriptor changes class.
   */
  lemma {:induction false} ChargedFrame(bmp: seq<bool>, m: SpareMap, bmp': seq<bool>, m': SpareMap,
                                        reserved: nat, q: nat, d0: nat, k: nat)
    requires |bmp'| == |bmp| && k <= |bmp| && d0 < |bmp|
    requires forall d :: 0 <= d < |bmp| && d != d0 ==>
      bmp'[d] == bmp[d] && (InClass(m', reserved, d, q) <==> InClass(m, reserved, d, q))
    ensures Charged(bmp', m', reserved, q, k) + (if d0 < k then Hit(bmp, m, reserved, d0, q) else 0)
         == Charged(bmp, m, reserved, q, k) + (if d0 < k then Hit(bmp', m', reserved, d0, q) else 0)
  {
    if k > 0 {
      ChargedFrame(bmp, m, bmp', m', reserved, q, d0, k - 1);
    }
  }

  /** A spare-map update confined to the group of `d0` leaves every other
   *  descriptor's class as it was. */
  lemma OtherClassesKept(m: SpareMap, m': SpareMap, reserved: nat, n: nat, d0: nat)
    requires Layout(n, reserved) && reserved <= d0 < n
    requires forall k: nat ::
      || (MapBit(m', k) <==> MapBit(m, k))
      || k == SpareBit(d0, 0, reserved) || k == SpareBit(d0, 1, reserved)
      || k == SpareBit(d0, 2, reserved) || k == SpareBit(d0, 3, reserved)
    ensures forall d, q :: 0 <= d < n && d != d0 ==> (InClass(m', reserved, d, q) <==> InClass(m, reserved, d, q))
    ensures forall d :: 0 < reserved <= d < n && d != d0 ==> GroupBits(m', d, reserved) == GroupBits(m, d, reserved)
  {
    forall d, j: nat | 0 <= d < n && d != d0 && reserved <= d && j < SPARE_DESC_Q_MAP_SIZE
      ensures SpareBit(d, j, reserved) != SpareBit(d0, 0, reserved)
      ensures SpareBit(d, j, reserved) != SpareBit(d0, 1, reserved)
      ensures SpareBit(d, j, reserved) != SpareBit(d0, 2, reserved)
      ensures SpareBit(d, j, reserved) != SpareBit(d0, 3, reserved)
    {
      SpareGroupsDisjoint(d, j, d0, 0, reserved);
      SpareGroupsDisjoint(d, j, d0, 1, reserved);
      SpareGroupsDisjoint(d, j, d0, 2, reserved);
      SpareGroupsDisjoint(d, j, d0, 3, reserved);
    }
  }

  /** The bit of a spare descriptor's group lies inside the 16-bit map. */
  lemma SpareBitInMap(d: nat, q: nat, reserved: nat, n: nat)
    requires Layout(n, reserved) && reserved <= d < n && q < SPARE_DESC_Q_MAP_SIZE
    ensures SpareBit(d, q, reserved) < SPARE_MAP_BITS
  {
    assert d % reserved == d - reserved;
  }

  /**
   * Claiming a free descriptor `d` for class `q` (setting its bitmap bit,
   * incrementing `outstanding[q]` and, for a spare, setting its map bit) keeps
   * the invariant when `d` is a reserved descriptor of class `q` or a spare
   * one and `q` is one of the four WMM classes.
   */
  lemma ClaimKeepsAccounted(bmp: seq<bool>, m: SpareMap, outstanding: seq<int>, reserved: nat, d: nat, q: nat)
    requires Layout(|bmp|, reserved) && Accounted(bmp, m, outstanding, reserved)
    requires d < |bmp| && !bmp[d] && q < AC_MAX
    requires d < reserved ==> d % AC_MAX == q
    requires d >= reserved ==> q < SPARE_DESC_Q_MAP_SIZE
    ensures var m' := if d >= reserved then SetSpare(m, d, q, reserved) else m;
      Accounted(bmp[d := true], m', outstanding[q := outstanding[q] + 1], reserved)
  {
    var n := |bmp|;
    var bmp' := bmp[d := true];
    var m' := if d >= reserved then SetSpare(m, d, q, reserved) else m;
    if d >= reserved {
      SpareBitInMap(d, q, reserved, n);
      OtherClassesKept(m, m', reserved, n, d);
      forall j | 0 <= j < SPARE_DESC_Q_MAP_SIZE
        ensures MapBit(m', SpareBit(d, j, reserved)) <==> j == q
      {
        SpareBitInMap(d, j, reserved, n);
      }
    }
    forall c | 0 <= c < AC_MAX
      ensures outstanding[q := outstanding[q] + 1][c] == Charged(bmp', m', reserved, c, n)
    {
      ChargedFrame(bmp, m, bmp', m', reserved, c, d, n);
    }
  }

  /**
   * Releasing a claimed descriptor `d` under the class it is charged to
   * (clearing its bitmap bit, decrementing that count and, for a spare,
   * clearing its map bit) keeps the invariant; the count was positive, so the
   * unsigned decrement does not wrap.
   */
  lemma ReleaseKeepsAccounted(bmp: seq<bool>, m: SpareMap, outstanding: seq<int>, reserved: nat, d: nat, q: nat)
    requires Layout(|bmp|, reserved) && Accounted(bmp, m, outstanding, reserved)
    requires d < |bmp| && bmp[d] && q < AC_MAX && InClass(m, reserved, d, q)
    ensures outstanding[q] >= 1
    ensures var m' := if d >= reserved then ClearSpare(m, d, q, reserved) else m;
      Accounted(bmp[d := false], m', outstanding[q := outstanding[q] - 1], reserved)
  {
    var n := |bmp|;
    var bmp' := bmp[d := false];
    var m' := if d >= reserved then ClearSpare(m, d, q, reserved) else m;
    if d >= reserved {
      OtherClassesKept(m, m', reserved, n, d);
      forall j | 0 <= j < SPARE_DESC_Q_MAP_SIZE
        ensures !MapBit(m', SpareBit(d, j, reserved))
        ensures j != q ==> !MapBit(m, SpareBit(d, j, reserved))
      {
        SpareBitInMap(d, j, reserved, n);
        SpareBitInMap(d, q, reserved, n);
      }
    }
    ChargedAtLeastHit(bmp, m, reserved, q, d, n);
    forall c | 0 <= c < AC_MAX
      ensures outstanding[q := outstanding[q] - 1][c] == Charged(bmp', m', reserved, c, n)
    {
      ChargedFrame(bmp, m, bmp', m', reserved, c, d, n);
    }
  }

  lemma {:induction false} ChargedAtLeastHit(bmp: seq<bool>, m: SpareMap, reserved: nat, q: nat, d: nat, k: nat)
    requires d < k <= |bmp|
    ensures Charged(bmp, m, reserved, q, k) >= Hit(bmp, m, reserved, d, q)
  {
    if d < k - 1 {
      ChargedAtLeastHit(bmp, m, reserved, q, d, k - 1);
    }
  }

  /**
   * Moving a claimed spare descriptor from class `q0` to another WMM class
   * `q1` (one count from `q0` to `q1`, clearing bit `q0` and setting bit `q1`
   * of its group), as `tx_buff_req_free` does when the descriptor is refilled
   * from another class, keeps the invariant.
   */
  lemma MoveKeepsAccounted(bmp: seq<bool>, m: SpareMap, outstanding: seq<int>, reserved: nat,
                           d: nat, q0: nat, q1: nat)
    requires Layout(|bmp|, reserved) && Accounted(bmp, m, outstanding, reserved)
    requires reserved <= d < |bmp| && bmp[d] && InClass(m, reserved, d, q0)
    requires q1 < SPARE_DESC_Q_MAP_SIZE && q1 != q0
    ensures outstanding[q0] >= 1
    ensures Accounted(bmp, SetSpare(ClearSpare(m, d, q0, reserved), d, q1, reserved),
                      outstanding[q0 := outstanding[q0] - 1][q1 := outstanding[q1] + 1], reserved)
  {
    var n := |bmp|;
    ReleaseKeepsAccounted(bmp, m, outstanding, reserved, d, q0);
    var m1 := ClearSpare(m, d, q0, reserved);
    var o1 := outstanding[q0 := outstanding[q0] - 1];
    ClaimKeepsAccounted(bmp[d := false], m1, o1, reserved, d, q1);
    assert bmp[d := false][d := true] == bmp;
  }

  /**
   * For a claimed spare descriptor, the class `tx_buff_req_free` decodes from
   * the map (first of BK, BE, VI, VO) is the class it is charged to.
   */
  lemma DecodeFindsClass(bmp: seq<bool>, m: SpareMap, outstanding: seq<int>, reserved: nat, d: nat)
    requires Layout(|bmp|, reserved) && Accounted(bmp, m, outstanding, reserved)
    requires reserved <= d < |bmp| && bmp[d]
    ensures InClass(m, reserved, d, DecodeSpareClass(GetSpare(m, d, reserved)))
  {
    var v := GetSpare(m, d, reserved);
    var q := DecodeSpareClass(v);
    assert GroupBits(m, d, reserved) == 1;
    forall k | 0 <= k < SPARE_DESC_Q_MAP_SIZE
      ensures NibbleBit(v, k) <==> MapBit(m, SpareBit(d, k, reserved))
    {
      GetSpareBits(m, d, reserved, k);
    }
    var b0, b1, b2, b3 := NibbleBit(v, 0), NibbleBit(v, 1), NibbleBit(v, 2), NibbleBit(v, 3);
    assert b0 || b1 || b2 || b3;
  }

  /** The count of a class never exceeds the number of descriptors. */
  lemma {:induction false} ChargedBound(bmp: seq<bool>, m: SpareMap, reserved: nat, q: nat, k: nat)
    requires k <= |bmp|
    ensures Charged(bmp, m, reserved, q, k) <= k
  {
    if k > 0 {
      ChargedBound(bmp, m, reserved, q, k - 1);
    }
  }

  /**
   * The multicast class does not fit the 4-bit groups: with one reserved
   * descriptor per class and two spares, claiming the first spare for AC_MC
   * sets the BK bit of the second spare's group while that spare is free,
   * and the first spare's own group stays empty, so the invariant is lost.
   */
  lemma McSpareClaimBreaksAccounted()
    ensures var bmp := [true, true, true, true, true, false, false];
      var m' := SetSpare(EmptySpareMap, 5, AC_MC, 5);
      !Accounted(bmp[5 := true], m', [1, 1, 1, 1, 2], 5)
  {
    var m' := SetSpare(EmptySpareMap, 5, AC_MC, 5);
    assert MapBit(m', 4);
    assert GroupBits(m', 6, 5) == 1;
  }
}
