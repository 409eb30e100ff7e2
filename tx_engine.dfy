/**
 * The transmit engine of the FMAC layer (`tx.c`) as an object whose fields
 * the operations update in place: the descriptor bitmap, the per-class
 * outstanding counters and the spare-descriptor map (`tx_desc_get`,
 * `tx_desc_free`, `tx_buff_req_free`), the pending and transmit queues with
 * the peer-selection state (`_tx_pending_process`, `tx_enqueue`), and the
 * per-frame mapping flags (`tx_done_process`). Each method is proved against
 * the value-level functions of `TxAccount` and `TxSched`.
 *
 * Calls into the HAL and the OS (the RPU memory write of the pending bitmap,
 * the command build and send, the buffer unmap) are not modelled; their
 * outcomes are parameters of the operations that make them.
 */
module TxEngine {
  import opened Common
  import opened TxClassify
  import opened TxSpare
  import opened TxAccount
  import opened TxSched
  import opened Peers
  import FmacUtil

  /** `tx_enqueue` fails: the pending queue is full, or the queue was
   *  extended but the pending-frames bitmap could not be written. */
  predicate EnqueueFails(peers: seq<PeerInfo>, pending: seq<seq<seq<TxFrame>>>, cfg: TxConfig,
                         peer: nat, ac: nat, writeOk: bool)
    requires peer < |peers| && peer < |pending| && ac < |pending[peer]|
  {
    |pending[peer][ac]| >= cfg.maxPendingQlen || (UpdatesBmp(peers, peer, cfg) && !writeOk)
  }

  /** The pending queue after `tx_enqueue` adds `f`: TWT-emergency frames
   *  jump the queue, the others join its tail. */
  function Enqueued(q: seq<TxFrame>, f: TxFrame): (r: seq<TxFrame>)
    ensures |r| == |q| + 1
    ensures f.emergency ==> r[0] == f && r[1..] == q
    ensures !f.emergency ==> r[|q|] == f && r[..|q|] == q
  {
    if f.emergency then [f] + q else q + [f]
  }

  /** The descriptor accounting of the engine taken together: the bitmap
   *  `buf_pool_bmp_p`, `outstanding_descs` and `spare_desc_queue_map`. */
  datatype Ledger = Ledger(bmp: seq<bool>, outstanding: seq<int>, spareMap: SpareMap)

  /**
   * The accounting `tx_buff_req_free` leaves for descriptor `desc`, charged
   * to `doneQ`, once the refill loop queued `pkts` frames from class `ac`:
   * a descriptor left empty is released under `doneQ` (`tx_desc_free`); one
   * refilled from another class is recharged to it, one outstanding count
   * and the spare-map bit moving from `doneQ` to `ac`; one refilled from
   * `doneQ` itself keeps its accounting.
   */
  function Settled(l: Ledger, desc: nat, doneQ: nat, pkts: nat, ac: int, reserved: nat): (r: Ledger)
    requires reserved > 0 && desc < |l.bmp| && |l.outstanding| == AC_MAX && doneQ < AC_MAX
    requires pkts > 0 && ac != doneQ ==> 0 <= ac < AC_MAX
    ensures |r.bmp| == |l.bmp| && |r.outstanding| == AC_MAX
    ensures pkts == 0 ==> !r.bmp[desc]
    ensures pkts > 0 ==> r.bmp == l.bmp
    ensures pkts > 0 && ac == doneQ ==> r == l
  {
    if pkts == 0 then Released(l, desc, doneQ, reserved)
    else if ac == doneQ then l
    else Recharged(l, desc, doneQ, ac, reserved)
  }

  /** `tx_desc_free(desc, q)` on the accounts: a claimed descriptor is
   *  released, its count leaves class `q` and a spare one's group bit for `q`
   *  is cleared; a free descriptor is left alone. */
  function Released(l: Ledger, desc: nat, q: nat, reserved: nat): (r: Ledger)
    requires reserved > 0 && desc < |l.bmp| && q < |l.outstanding|
    ensures |r.bmp| == |l.bmp| && |r.outstanding| == |l.outstanding| && !r.bmp[desc]
  {
    if !l.bmp[desc] then l
    else Ledger(l.bmp[desc := false], l.outstanding[q := l.outstanding[q] - 1],
                if desc < reserved then l.spareMap else ClearSpare(l.spareMap, desc, q, reserved))
  }

  /** Freeing a descriptor twice frees it once: the second `tx_desc_free`
   *  finds it unclaimed and changes nothing. */
  lemma ReleasedTwice(l: Ledger, desc: nat, q: nat, reserved: nat)
    requires reserved > 0 && desc < |l.bmp| && q < |l.outstanding|
    ensures Released(Released(l, desc, q, reserved), desc, q, reserved) == Released(l, desc, q, reserved)
  {
  }

  /** `tx_desc_get` claiming the free descriptor `desc` for class `q` on the
   *  accounts: its bit is set, `outstanding[q]` grows by one and a spare
   *  descriptor's group records `q`. */
  function Claimed(l: Ledger, desc: nat, q: nat, reserved: nat): (r: Ledger)
    requires reserved > 0 && desc < |l.bmp| && q < |l.outstanding|
    ensures r.bmp == l.bmp[desc := true] && |r.outstanding| == |l.outstanding|
    ensures r.outstanding[q] == l.outstanding[q] + 1
  {
    Ledger(l.bmp[desc := true], l.outstanding[q := l.outstanding[q] + 1],
           if desc < reserved then l.spareMap else SetSpare(l.spareMap, desc, q, reserved))
  }

  /** Releasing a descriptor just claimed under the same class gives the
   *  accounts back, provided a spare descriptor's group bit for the class was
   *  clear before the claim. */
  lemma ReleaseUndoesClaim(l: Ledger, desc: nat, q: nat, reserved: nat)
    requires reserved > 0 && desc < |l.bmp| && q < |l.outstanding| && !l.bmp[desc]
    requires desc >= reserved ==> !MapBit(l.spareMap, SpareBit(desc, q, reserved))
    ensures Released(Claimed(l, desc, q, reserved), desc, q, reserved) == l
  {
    var r := Released(Claimed(l, desc, q, reserved), desc, q, reserved);
    assert r.bmp == l.bmp && r.outstanding == l.outstanding;
    if desc >= reserved {
      var m := ClearSpare(SetSpare(l.spareMap, desc, q, reserved), desc, q, reserved);
      forall k | 0 <= k < SPARE_MAP_BITS
        ensures m[k] == l.spareMap[k]
      {
        assert MapBit(m, k) <==> MapBit(l.spareMap, k);
      }
    }
  }

  /** The spare-descriptor case of `tx_buff_req_free`: one outstanding count
   *  and the descriptor's spare-map bit move from class `from` to `to`. */
  function Recharged(l: Ledger, desc: nat, from: nat, to: nat, reserved: nat): (r: Ledger)
    requires reserved > 0 && from < |l.outstanding| && to < |l.outstanding|
    ensures r.bmp == l.bmp && |r.outstanding| == |l.outstanding|
  {
    Ledger(l.bmp, l.outstanding[from := l.outstanding[from] - 1][to := l.outstanding[to] + 1],
           SetSpare(ClearSpare(l.spareMap, desc, from, reserved), desc, to, reserved))
  }

  /** Settling touches only the completed descriptor's bit and the counters
   *  of the two classes involved. */
  lemma SettledLocal(l: Ledger, desc: nat, doneQ: nat, pkts: nat, ac: int, reserved: nat)
    requires reserved > 0 && desc < |l.bmp| && |l.outstanding| == AC_MAX && doneQ < AC_MAX
    requires pkts > 0 && ac != doneQ ==> 0 <= ac < AC_MAX
    ensures var r := Settled(l, desc, doneQ, pkts, ac, reserved);
      && (forall d :: 0 <= d < |l.bmp| && d != desc ==> r.bmp[d] == l.bmp[d])
      && (forall q :: 0 <= q < AC_MAX && q != doneQ && q != ac ==> r.outstanding[q] == l.outstanding[q])
  {
  }

  /**
   * `Settled` keeps the accounting invariant for a claimed descriptor that
   * is charged to `doneQ`, and a refilled descriptor ends up charged to the
   * class it was refilled from.
   */
  lemma SettledKeepsAccounted(l: Ledger, desc: nat, doneQ: nat, pkts: nat, ac: int, reserved: nat)
    requires reserved > 0 && Layout(|l.bmp|, reserved) && Accounted(l.bmp, l.spareMap, l.outstanding, reserved)
    requires desc < |l.bmp| && l.bmp[desc] && doneQ < AC_MAX && InClass(l.spareMap, reserved, desc, doneQ)
    requires pkts > 0 && ac != doneQ ==> reserved <= desc && 0 <= ac < SPARE_DESC_Q_MAP_SIZE
    ensures var r := Settled(l, desc, doneQ, pkts, ac, reserved);
      && Accounted(r.bmp, r.spareMap, r.outstanding, reserved)
      && (pkts > 0 ==> ac >= 0 && InClass(r.spareMap, reserved, desc, ac))
  {
    if pkts == 0 {
      ReleaseKeepsAccounted(l.bmp, l.spareMap, l.outstanding, reserved, desc, doneQ);
    } else if ac != doneQ {
      MoveKeepsAccounted(l.bmp, l.spareMap, l.outstanding, reserved, desc, doneQ, ac);
      SpareBitInMap(desc, ac, reserved, |l.bmp|);
    }
  }

  /** The class `tx_buff_req_free` charges a completed descriptor to: its own
   *  class for a reserved descriptor, the class decoded from its spare-map
   *  group for a spare one. */
  function DoneClass(m: SpareMap, desc: nat, reserved: nat): (q: nat)
    requires reserved > 0
    ensures q < AC_MAX
  {
    if desc < reserved then desc % AC_MAX else DecodeSpareClass(GetSpare(m, desc, reserved))
  }

  /** The access category `nrf_wifi_fmac_start_xmit` queues a frame under,
   *  given the peer id the receiver address resolved to. */
  function XmitAc(peers: seq<PeerInfo>, maxPeers: nat, peerId: nat, frame: seq<byte>, ra: MacAddr): (ac: nat)
    requires peerId <= maxPeers < |peers| && |frame| >= ETH_HDR_LEN
    ensures ac < AC_MAX
  {
    if peerId == maxPeers then AC_MC
    else if peers[peerId].qosSupported then GetAc(GetTid(frame), ra)
    else AC_BE
  }

  /**
   * The class a frame is queued under: the multicast class exactly when the
   * receiver address is a group address; otherwise, for a QoS peer, the
   * class IEEE 802.11 assigns to the frame's user priority, and best effort
   * for a peer without QoS.
   */
  lemma XmitAcMeaning(peers: seq<PeerInfo>, maxPeers: nat, frame: seq<byte>, ra: MacAddr)
    requires maxPeers < |peers| && IdsMatchSlots(peers, maxPeers) && |frame| >= ETH_HDR_LEN
    requires LookupId(peers, maxPeers, ra) != -1
    ensures var id := LookupId(peers, maxPeers, ra);
      0 <= id <= maxPeers
      && var ac := XmitAc(peers, maxPeers, id, frame, ra);
      && (ac == AC_MC <==> FmacUtil.IsMulticastAddr(ra))
      && (!FmacUtil.IsMulticastAddr(ra) && peers[id].qosSupported ==> ac == UpToAc(GetTid(frame) % 8))
      && (!FmacUtil.IsMulticastAddr(ra) && !peers[id].qosSupported ==> ac == AC_BE)
  {
    LookupIdMeaning(peers, maxPeers, ra);
    if !FmacUtil.IsMulticastAddr(ra) {
      var j: nat :| FirstMatchFrom(peers, maxPeers, ra, 0, j) && LookupId(peers, maxPeers, ra) == peers[j].peerId;
      assert peers[j].peerId == j;
    }
  }

  /** `desc * max_tx_aggregation + frame`, the `tx_buf_info` slot of a frame. */
  function BufSlot(desc: nat, frame: nat, maxAgg: nat): nat
  {
    desc * maxAgg + frame
  }

  lemma BufSlotInRange(desc: nat, frame: nat, maxAgg: nat, n: nat)
    requires desc < n && frame < maxAgg
    ensures BufSlot(desc, frame, maxAgg) < n * maxAgg
  {
    assert desc * maxAgg + maxAgg == (desc + 1) * maxAgg;
    assert (desc + 1) * maxAgg <= n * maxAgg by {
      MulMono(desc + 1, n, maxAgg);
    }
  }

  lemma MulMono(a: nat, b: nat, c: nat)
    requires a <= b
    ensures a * c <= b * c
  {
  }

  /** The mapping flags with the `count` slots from `base` set to `v`. */
  function SetRange(flags: seq<bool>, base: nat, count: nat, v: bool): (r: seq<bool>)
    ensures |r| == |flags|
    ensures forall i :: 0 <= i < |flags| ==> r[i] == if base <= i < base + count then v else flags[i]
  {
    seq(|flags|, i requires 0 <= i < |flags| => if base <= i < base + count then v else flags[i])
  }

  /** Frame `k` of the descriptor whose slots start at `base` is mapped and
   *  its unmap succeeds. */
  predicate Unmaps(flags: seq<bool>, base: nat, k: nat, unmapOk: nat -> bool)
  {
    base + k < |flags| && flags[base + k] && unmapOk(base + k)
  }

  /** The first frame of a completed descriptor, from `i` on, whose buffer is
   *  not mapped or fails to unmap; `count` when there is none. */
  function FirstUnmapFailure(flags: seq<bool>, base: nat, count: nat, unmapOk: nat -> bool, i: nat): (r: nat)
    requires i <= count
    ensures i <= r <= count
    ensures forall k :: i <= k < r ==> Unmaps(flags, base, k, unmapOk)
    ensures r < count ==> !Unmaps(flags, base, r, unmapOk)
    decreases count - i
  {
    if i == count then count
    else if !Unmaps(flags, base, i, unmapOk) then i
    else FirstUnmapFailure(flags, base, count, unmapOk, i + 1)
  }

  /** `FirstUnmapFailure` from frame 0 is the frame `j` when every frame
   *  before it unmaps and it does not (or is the end). */
  lemma FirstUnmapFailureIs(flags: seq<bool>, base: nat, count: nat, unmapOk: nat -> bool, j: nat)
    requires j <= count
    requires forall k :: 0 <= k < j ==> Unmaps(flags, base, k, unmapOk)
    requires j < count ==> !Unmaps(flags, base, j, unmapOk)
    ensures FirstUnmapFailure(flags, base, count, unmapOk, 0) == j
  {
  }

  /** The first class `tx_buff_req_free` tries to refill `desc` from: the
   *  descriptor's own class when it is reserved, VO for a spare. */
  function RefillFirst(desc: nat, reserved: nat): (ac: nat)
    ensures ac < AC_MAX
    ensures desc >= reserved ==> ac == AC_VO
  {
    if desc < reserved then desc % AC_MAX else AC_VO
  }

  /** The last class tried: the reserved descriptor's own class, BK for a
   *  spare. */
  function RefillLast(desc: nat, reserved: nat): (ac: nat)
    ensures ac <= RefillFirst(desc, reserved)
    ensures desc < reserved ==> ac == RefillFirst(desc, reserved) == desc % AC_MAX
  {
    if desc < reserved then desc % AC_MAX else AC_BK
  }

  /** The descriptor check of `tx_done_process` as written: only a number
   *  above `num_tx_tokens` is rejected. */
  predicate DoneDescAcceptedAsWritten(desc: nat, numTxTokens: nat)
  {
    !(desc > numTxTokens)
  }

  /**
   * The check as written lets through a descriptor number that indexes none
   * of the `num_tx_tokens`-entry per-descriptor tables (`pkt_info_p`,
   * `send_pkt_coalesce_count_p`): `num_tx_tokens` itself.
   */
  lemma DoneGuardAdmitsPastEnd(numTxTokens: nat)
    ensures exists desc: nat :: DoneDescAcceptedAsWritten(desc, numTxTokens) && desc >= numTxTokens
  {
    assert DoneDescAcceptedAsWritten(numTxTokens, numTxTokens);
  }

  /** The corrected check: exactly the descriptors the tables have entries for. */
  predicate DoneDescAccepted(desc: nat, numTxTokens: nat)
  {
    desc < numTxTokens
  }

  /**
   * The aggregation loop of `_tx_pending_process` on the pending queue `q`
   * and the transmit queue `tq0`, with TWT `awake`: dequeues head frames
   * while the running length with headroom stays below the per-token
   * budget, the frame may be sent, the peer is not legacy, the frame has
   * the first frame's addresses and the transmit queue is below the
   * aggregation limit; when that takes nothing and the transmit queue is
   * empty, takes the head frame alone if it may be sent. Returns both queues and the number of frames moved,
   * which is `Take`.
   */
  method Aggregate(q: seq<TxFrame>, tq0: seq<TxFrame>, legacy: bool, awake: bool, cfg: TxConfig) returns (pq: seq<TxFrame>, tq: seq<TxFrame>, i: nat)
    requires |q| > 0
    ensures i == Take(q, legacy, awake, |tq0|, cfg)
    ensures i <= |q| && pq == q[i..] && tq == tq0 + q[..i]
  {
    var first := q[0];
    pq := q;
    tq := tq0;
    var ampdu: int := 0;
    i := 0;
    while |pq| > 0
      invariant i <= |q| && pq == q[i..] && tq == tq0 + q[..i]
      invariant ampdu == Cost(q, i, cfg.txBufHeadroom)
      invariant Batch(q, legacy, awake, |tq0|, cfg, 0) == i + Batch(q, legacy, awake, |tq0|, cfg, i)
    {
      var nwb := pq[0];
      assert nwb == q[i] && |tq| == |tq0| + i;
      BatchStep(q, legacy, awake, |tq0|, cfg, i);
      ampdu := ampdu + cfg.txBufHeadroom + |nwb.data|;
      if ampdu >= cfg.availAmpduLenPerToken {
        break;
      }
      if !CanXmit(nwb.emergency, awake)
        || legacy
        || !FmacUtil.EtherAddrEqual(Dest(nwb), Dest(first)) || !FmacUtil.EtherAddrEqual(Src(nwb), Src(first))
        || |tq| >= cfg.maxTxAggregation
      {
        break;
      }
      assert q[..i + 1] == q[..i] + [nwb];
      pq := pq[1..];
      tq := tq + [nwb];
      i := i + 1;
    }
    if |tq| == 0 {
      if |pq| == 0 || !CanXmit(pq[0].emergency, awake) {
        return;
      }
      assert q[..1] == [pq[0]];
      tq := tq + [pq[0]];
      pq := pq[1..];
      i := 1;
    }
  }

  /** The corrected check rejects the descriptor the written one admits and
   *  otherwise agrees with it. */
  lemma DoneGuardCorrected(desc: nat, numTxTokens: nat)
    ensures DoneDescAccepted(desc, numTxTokens) <==> DoneDescAcceptedAsWritten(desc, numTxTokens) && desc != numTxTokens
  {
  }

  /** The engine's fields other than the peer table: the scheduler state
   *  (`Bounded`), the accounting fields (`Sized`) and the send records. */
  predicate EngineOk(s: Sched, cfg: TxConfig, bmp: seq<bool>, outstanding: seq<int>, reserved: nat,
                     coalesce: seq<nat>, txBufMapped: seq<bool>)
  {
    && Bounded(s, cfg)
    && Sized(bmp, outstanding, cfg.numTxTokens, reserved)
    && SendRecordsOk(coalesce, txBufMapped, cfg)
  }

  /** Replacing the wake-up list by one that names only valid peers keeps
   *  the engine's fields well formed. */
  lemma EngineOkWakeup(s: Sched, cfg: TxConfig, bmp: seq<bool>, outstanding: seq<int>, reserved: nat,
                       coalesce: seq<nat>, txBufMapped: seq<bool>, w: seq<nat>)
    requires EngineOk(s, cfg, bmp, outstanding, reserved, coalesce, txBufMapped)
    requires forall k :: 0 <= k < |w| ==> w[k] < cfg.maxPeers
    ensures EngineOk(s.(wakeup := w), cfg, bmp, outstanding, reserved, coalesce, txBufMapped)
  {
  }

  /** The records the command path writes: the transmit queues
   *  (`pkt_info_p[desc].pkt`), `send_pkt_coalesce_count_p`, the
   *  buffer-mapped flags and the wake-up list. */
  datatype SendRecord = SendRecord(txq: seq<seq<TxFrame>>, coalesce: seq<nat>, txBufMapped: seq<bool>, wakeup: seq<nat>)

  /** The number of buffer slots `tx_cmd_prepare` maps for `n` frames when
   *  the first `mapped` frames map: all of them, or the ones before the
   *  first that fails. */
  function MappedCount(mapped: nat, n: nat): (k: nat)
    ensures k <= n && k <= mapped
    ensures k == n || k == mapped
  {
    if mapped < n then mapped else n
  }

  /**
   * What `tx_cmd_init` leaves for `desc`, whose frames are queued for
   * `peer`, when the buffers of the first `mapped` frames map: the coalesce
   * count becomes the number of frames and the frames' buffer slots become
   * mapped in order up to the first frame whose map fails. When every frame
   * maps the command is prepared: the queue is handed over (emptied) and a
   * peer with no power-save tokens left leaves the wake-up list; otherwise
   * the queue and the wake-up list are kept, with the earlier frames' slots
   * still mapped.
   */
  function CmdSent(o: SendRecord, peers: seq<PeerInfo>, peer: int, desc: nat, mapped: nat, maxAgg: nat): (r: SendRecord)
    requires desc < |o.txq| && desc < |o.coalesce| && 0 <= peer < |peers|
    ensures |r.txq| == |o.txq| && r.coalesce == o.coalesce[desc := |o.txq[desc]|]
    ensures |r.txBufMapped| == |o.txBufMapped|
    ensures forall i :: 0 <= i < |o.txBufMapped| ==>
      var k := i - BufSlot(desc, 0, maxAgg);
      r.txBufMapped[i] <==> o.txBufMapped[i] || (0 <= k && k < mapped && k < |o.txq[desc]|)
    ensures mapped < |o.txq[desc]| ==> r.txq == o.txq && r.wakeup == o.wakeup
    ensures |o.txq[desc]| <= mapped ==>
      && r.txq == o.txq[desc := []]
      && r.txBufMapped == SetRange(o.txBufMapped, BufSlot(desc, 0, maxAgg), |o.txq[desc]|, true)
      && multiset(r.wakeup) + (if peers[peer].psTokenCount == 0 && peer in o.wakeup then multiset{peer} else multiset{})
           == multiset(o.wakeup)
  {
    var n := |o.txq[desc]|;
    var flags := SetRange(o.txBufMapped, BufSlot(desc, 0, maxAgg), MappedCount(mapped, n), true);
    WithoutMultiset(o.wakeup, peer);
    if mapped < n then o.(coalesce := o.coalesce[desc := n], txBufMapped := flags)
    else
      SendRecord(o.txq[desc := []], o.coalesce[desc := n], flags,
                 if peers[peer].psTokenCount == 0 then Without(o.wakeup, peer) else o.wakeup)
  }

  /**
   * The accounts and records the end of `tx_pending_process` leaves once
   * `len` frames for `peer` are queued on `desc`: with none, the descriptor
   * is released under `ac` and the records are kept; with some, the
   * accounts are kept and the command is sent (`CmdSent`).
   */
  ghost predicate SentOrReleased(cfg: TxConfig, reserved: nat, desc: nat, ac: nat, len: nat, mapped: nat,
                                 peers: seq<PeerInfo>, peer: int, l0: Ledger, c0: SendRecord, l: Ledger, c: SendRecord)
    requires reserved > 0 && desc < |l0.bmp| && ac < |l0.outstanding| && desc < |c0.coalesce| && desc < |c0.txq| && 0 <= peer < |peers|
  {
    && (len == 0 ==> l == Released(l0, desc, ac, reserved) && c == c0)
    && (len > 0 ==> l == l0 && c == CmdSent(c0, peers, peer, desc, mapped, cfg.maxTxAggregation))
  }

  /**
   * The state `tx_pending_process(desc, ac)` leaves from scheduler state
   * `s0`, accounts `l0` and records `c0`: the scheduler takes its `Inner`
   * step; with no frame queued on `desc` the descriptor is released under
   * `ac` and the records keep all but the transmit queues; with frames
   * queued the accounts are kept and the command is sent (`CmdSent`).
   */
  ghost predicate PendingProcessed(cfg: TxConfig, awake: bool, reserved: nat, desc: nat, ac: nat, mapped: nat,
                                   s0: Sched, l0: Ledger, c0: SendRecord, s: Sched, l: Ledger, c: SendRecord)
    requires SchedOk(s0, cfg) && ac < AC_MAX && desc < cfg.numTxTokens
    requires reserved > 0 && desc < |l0.bmp| && ac < |l0.outstanding| && desc < |c0.coalesce|
  {
    var r := Inner(s0, cfg, awake, desc, ac);
    var mid := SendRecord(r.0.txq, c0.coalesce, c0.txBufMapped, c0.wakeup);
    && s.peers == r.0.peers && s.pending == r.0.pending && s.cursor == r.0.cursor && s.txqPeer == r.0.txqPeer
    && SentOrReleased(cfg, reserved, desc, ac, r.1, mapped, r.0.peers, r.0.txqPeer[desc], l0, mid, l, c)
  }

  /** `PendingProcessed` from its two steps: the scheduler step of `Inner`
   *  to `s1`, then the end of `tx_pending_process` on `len` frames. */
  lemma PendingProcessedSteps(cfg: TxConfig, awake: bool, reserved: nat, desc: nat, ac: nat, mapped: nat,
                              s0: Sched, l0: Ledger, c0: SendRecord, s1: Sched, len: nat, c1: SendRecord,
                              s: Sched, l: Ledger, c: SendRecord)
    requires SchedOk(s0, cfg) && ac < AC_MAX && desc < cfg.numTxTokens
    requires reserved > 0 && desc < |l0.bmp| && ac < |l0.outstanding| && desc < |c0.coalesce|
    requires (s1, len) == Inner(s0, cfg, awake, desc, ac)
    requires c1 == SendRecord(s1.txq, c0.coalesce, c0.txBufMapped, c0.wakeup)
    requires s.peers == s1.peers && s.pending == s1.pending && s.cursor == s1.cursor && s.txqPeer == s1.txqPeer
    requires SentOrReleased(cfg, reserved, desc, ac, len, mapped, s1.peers, s1.txqPeer[desc], l0, c1, l, c)
    ensures PendingProcessed(cfg, awake, reserved, desc, ac, mapped, s0, l0, c0, s, l, c)
  { }

  /** The status of `tx_pending_process`: SUCCESS when no frame was queued,
   *  otherwise SUCCESS exactly when the command is prepared and sent. */
  function PendingStatus(s0: Sched, cfg: TxConfig, awake: bool, desc: nat, ac: nat, mapped: nat, sendOk: bool): Status
    requires SchedOk(s0, cfg) && ac < AC_MAX && desc < cfg.numTxTokens
  {
    var len := Inner(s0, cfg, awake, desc, ac).1;
    if len == 0 || (len <= mapped && sendOk) then Success else Fail
  }

  /**
   * The scheduler state once `tx_enqueue` added `f` to the pending queue of
   * (`peer`, `ac`) with room for it: that queue becomes `Enqueued`, the
   * peer's pending-frames bit is updated (`BmpUpdate`) and nothing else
   * changes.
   */
  function EnqueuedState(s: Sched, cfg: TxConfig, f: TxFrame, peer: nat, ac: nat): (r: Sched)
    requires SchedOk(s, cfg) && peer <= cfg.maxPeers && ac < AC_MAX
    ensures SchedOk(r, cfg)
    ensures r.pending[peer][ac] == Enqueued(s.pending[peer][ac], f)
    ensures forall p :: 0 <= p < |s.pending| && p != peer ==> r.pending[p] == s.pending[p]
    ensures forall a :: 0 <= a < AC_MAX && a != ac ==> r.pending[peer][a] == s.pending[peer][a]
    ensures r.peers == BmpUpdate(s.peers, r.pending, peer, ac, cfg)
    ensures r.cursor == s.cursor && r.wakeup == s.wakeup && r.txq == s.txq && r.txqPeer == s.txqPeer
  {
    var p := SetQueue(s.pending, peer, ac, Enqueued(s.pending[peer][ac], f));
    s.(pending := p, peers := BmpUpdate(s.peers, p, peer, ac, cfg))
  }

  /**
   * The decision `tx_process` takes once the frame is queued: QUEUED for a
   * peer in power save, or when class `ac` already has `tokens_per_ac`
   * descriptors outstanding and the frame can join an aggregate still below
   * the limit (same addresses as the queue head); otherwise SUCCESS, which
   * asks for a descriptor.
   */
  function Decision(peers: seq<PeerInfo>, pending: seq<seq<seq<TxFrame>>>, outstanding: seq<int>,
                    f: TxFrame, peer: nat, ac: nat, cfg: TxConfig): (st: TxStatus)
    requires peer < |peers| && peer < |pending| && ac < |pending[peer]| && ac < |outstanding|
    ensures st != TxFail
    ensures peers[peer].powerSave ==> st == TxQueued
    ensures outstanding[ac] < cfg.tokensPerAc ==> (st == TxQueued <==> peers[peer].powerSave)
  {
    var q := pending[peer][ac];
    if peers[peer].powerSave then TxQueued
    else if outstanding[ac] >= cfg.tokensPerAc && |q| > 0 && Dest(f) == Dest(q[0]) && Src(f) == Src(q[0])
            && |q| < cfg.maxTxAggregation then TxQueued
    else TxSuccess
  }

  /** The accounts, records and configuration a send starts from agree in
   *  size. */
  predicate SendSized(cfg: TxConfig, reserved: nat, l: Ledger, c: SendRecord)
  {
    reserved == AC_MAX * cfg.tokensPerAc && Sized(l.bmp, l.outstanding, cfg.numTxTokens, reserved)
    && |c.coalesce| == cfg.numTxTokens
  }

  /**
   * The state the send half of `nrf_wifi_fmac_tx` leaves: when the frame may
   * not be sent now (TWT asleep) or class `ac` has no free descriptor,
   * nothing changes; otherwise the descriptor `ChooseDesc` names is claimed
   * for `ac` (`Claimed`) and `tx_pending_process` runs on it.
   */
  ghost predicate Submitted(cfg: TxConfig, awake: bool, reserved: nat, emergency: bool, ac: nat, mapped: nat,
                            s0: Sched, l0: Ledger, c0: SendRecord, s: Sched, l: Ledger, c: SendRecord)
    requires SchedOk(s0, cfg) && ac < AC_MAX && SendSized(cfg, reserved, l0, c0)
  {
    var d := ChooseDesc(l0.bmp, ac, cfg.tokensPerAc);
    if !CanXmit(emergency, awake) || d >= |l0.bmp| then s == s0 && l == l0 && c == c0
    else PendingProcessed(cfg, awake, reserved, d, ac, mapped, s0, Claimed(l0, d, ac, reserved), c0, s, l, c)
  }

  /** The status of the send half of `nrf_wifi_fmac_tx`: QUEUED when nothing
   *  is sent, otherwise that of `tx_pending_process` on the claimed
   *  descriptor. */
  function SubmitStatus(s0: Sched, l0: Ledger, cfg: TxConfig, awake: bool, emergency: bool, ac: nat,
                        mapped: nat, sendOk: bool): TxStatus
    requires SchedOk(s0, cfg) && ac < AC_MAX && |l0.bmp| == cfg.numTxTokens && AC_MAX * cfg.tokensPerAc <= |l0.bmp|
  {
    var d := ChooseDesc(l0.bmp, ac, cfg.tokensPerAc);
    if !CanXmit(emergency, awake) || d >= |l0.bmp| then TxQueued
    else AsTxStatus(PendingStatus(s0, cfg, awake, d, ac, mapped, sendOk))
  }

  /**
   * The state `nrf_wifi_fmac_tx(f, ac, peer)` leaves: with no descriptors at
   * all, or a full pending queue, nothing changes; otherwise the frame is
   * queued (`EnqueuedState`), and unless the bitmap write failed or
   * `tx_process` decided QUEUED, the send half runs from there
   * (`Submitted`).
   */
  ghost predicate Transmitted(cfg: TxConfig, awake: bool, reserved: nat, f: TxFrame, ac: nat, peer: nat,
                              writeOk: bool, mapped: nat,
                              s0: Sched, l0: Ledger, c0: SendRecord, s: Sched, l: Ledger, c: SendRecord)
    requires SchedOk(s0, cfg) && ac < AC_MAX && peer <= cfg.maxPeers && SendSized(cfg, reserved, l0, c0)
  {
    if cfg.numTxTokens == 0 || |s0.pending[peer][ac]| >= cfg.maxPendingQlen then s == s0 && l == l0 && c == c0
    else
      var s1 := EnqueuedState(s0, cfg, f, peer, ac);
      if EnqueueFails(s0.peers, s0.pending, cfg, peer, ac, writeOk)
         || Decision(s1.peers, s1.pending, l0.outstanding, f, peer, ac, cfg) == TxQueued
      then s == s1 && l == l0 && c == c0
      else Submitted(cfg, awake, reserved, f.emergency, ac, mapped, s1, l0, c0, s, l, c)
  }

  /** The status `nrf_wifi_fmac_tx` returns. */
  function TransmitStatus(s0: Sched, l0: Ledger, cfg: TxConfig, awake: bool, f: TxFrame, ac: nat, peer: nat,
                          writeOk: bool, mapped: nat, sendOk: bool): TxStatus
    requires SchedOk(s0, cfg) && ac < AC_MAX && peer <= cfg.maxPeers
    requires |l0.bmp| == cfg.numTxTokens && AC_MAX * cfg.tokensPerAc <= |l0.bmp| && |l0.outstanding| == AC_MAX
  {
    if cfg.numTxTokens == 0 || EnqueueFails(s0.peers, s0.pending, cfg, peer, ac, writeOk) then TxFail
    else
      var s1 := EnqueuedState(s0, cfg, f, peer, ac);
      var dec := Decision(s1.peers, s1.pending, l0.outstanding, f, peer, ac, cfg);
      if dec == TxQueued then TxQueued
      else SubmitStatus(s1, l0, cfg, awake, f.emergency, ac, mapped, sendOk)
  }

  /**
   * What `nrf_wifi_fmac_tx` promises its caller: FAIL with no descriptors or
   * when the enqueue fails, and otherwise only when the command could not
   * be sent or a buffer within the aggregation limit failed to map; a peer in power save, a TWT-asleep non-emergency
   * frame and a class without a free descriptor all give QUEUED.
   */
  lemma TransmitStatusMeaning(s0: Sched, l0: Ledger, cfg: TxConfig, awake: bool, f: TxFrame, ac: nat, peer: nat,
                              writeOk: bool, mapped: nat, sendOk: bool)
    requires Bounded(s0, cfg) && ac < AC_MAX && peer <= cfg.maxPeers
    requires |l0.bmp| == cfg.numTxTokens && AC_MAX * cfg.tokensPerAc <= |l0.bmp| && |l0.outstanding| == AC_MAX
    ensures var st := TransmitStatus(s0, l0, cfg, awake, f, ac, peer, writeOk, mapped, sendOk);
      && (cfg.numTxTokens == 0 || EnqueueFails(s0.peers, s0.pending, cfg, peer, ac, writeOk) ==> st == TxFail)
      && (st == TxFail ==>
            cfg.numTxTokens == 0 || EnqueueFails(s0.peers, s0.pending, cfg, peer, ac, writeOk) || !(cfg.maxTxAggregation <= mapped && sendOk))
      && (cfg.numTxTokens > 0 && !EnqueueFails(s0.peers, s0.pending, cfg, peer, ac, writeOk) ==>
            && (s0.peers[peer].powerSave ==> st == TxQueued)
            && (!CanXmit(f.emergency, awake) ==> st == TxQueued)
            && (ChooseDesc(l0.bmp, ac, cfg.tokensPerAc) == |l0.bmp| ==> st == TxQueued))
  {
    if cfg.numTxTokens > 0 && !EnqueueFails(s0.peers, s0.pending, cfg, peer, ac, writeOk) {
      var s1 := EnqueuedState(s0, cfg, f, peer, ac);
      assert s1.peers[peer].powerSave == s0.peers[peer].powerSave;
      assert Bounded(s1, cfg);
    }
  }

  /**
   * The state the end of `tx_done_process` leaves once every buffer of
   * `desc` is unmapped, from `s0`, `l0` and `c0`: the refill walk
   * (`Refill`) runs from `RefillFirst` down to `RefillLast`, the accounts
   * settle (`Settled`), and when frames were queued while TWT is awake the
   * command is sent (`CmdSent`); otherwise the records keep all but the
   * transmit queues.
   */
  ghost predicate DoneRefilled(cfg: TxConfig, awake: bool, reserved: nat, desc: nat, mapped: nat,
                               s0: Sched, l0: Ledger, c0: SendRecord, s: Sched, l: Ledger, c: SendRecord)
    requires SchedOk(s0, cfg) && desc < cfg.numTxTokens && reserved > 0
    requires desc < |l0.bmp| && |l0.outstanding| == AC_MAX && desc < |c0.coalesce|
  {
    var first, last := RefillFirst(desc, reserved), RefillLast(desc, reserved);
    RefillKeeps(s0, cfg, awake, desc, first, last);
    var r := Refill(s0, cfg, awake, desc, first, last);
    var mid := SendRecord(r.0.txq, c0.coalesce, c0.txBufMapped, c0.wakeup);
    && s.peers == r.0.peers && s.pending == r.0.pending && s.cursor == r.0.cursor && s.txqPeer == r.0.txqPeer
    && l == Settled(l0, desc, DoneClass(l0.spareMap, desc, reserved), r.1, r.2, reserved)
    && (r.1 == 0 || !awake ==> c == mid)
    && (r.1 > 0 && awake ==> c == CmdSent(mid, r.0.peers, r.0.txqPeer[desc], desc, mapped, cfg.maxTxAggregation))
  }

  class TxEngine {
    const cfg: TxConfig
    /** `tx_config.peers`, shared with the peer table operations. */
    const table: PeerTable

    /** `buf_pool_bmp_p`: one bit per descriptor, set while it is claimed. */
    var bmp: seq<bool>
    /** `outstanding_descs[ac]`. */
    var outstanding: seq<int>
    /** `spare_desc_queue_map`. */
    var spareMap: SpareMap
    /** `data_pending_txq[peer][ac]`. */
    var pending: seq<seq<seq<TxFrame>>>
    /** `curr_peer_opp[ac]`. */
    var cursor: seq<nat>
    /** `wakeup_client_q`, as peer slots. */
    var wakeup: seq<nat>
    /** `pkt_info_p[desc].pkt` and `pkt_info_p[desc].peer_id`. */
    var txq: seq<seq<TxFrame>>
    var txqPeer: seq<int>
    /** `send_pkt_coalesce_count_p[desc]`: frames sent on the descriptor. */
    var coalesce: seq<nat>
    /** `tx_buf_info[desc * max_tx_aggregation + frame].mapped`. */
    var txBufMapped: seq<bool>
    /** `twt_sleep_status == NRF_WIFI_FMAC_TWT_STATE_AWAKE`. */
    var twtAwake: bool

    /** `num_tx_tokens_per_ac * AC_MAX`: descriptors below it are reserved. */
    function Reserved(): nat
    {
      AC_MAX * cfg.tokensPerAc
    }

    ghost function State(): Sched
      reads this`pending, this`cursor, this`wakeup, this`txq, this`txqPeer, table`peers
    {
      Sched(table.peers, pending, cursor, wakeup, txq, txqPeer)
    }

    /** The shape of the engine: the peer table and `EngineOk` on the rest. */
    ghost predicate Valid()
      reads this, table
    {
      && table.Valid() && table.maxPeers == cfg.maxPeers
      && EngineOk(State(), cfg, bmp, outstanding, Reserved(), coalesce, txBufMapped)
    }

    /** The descriptor accounting fields as one value. */
    ghost function Accounts(): Ledger
      reads this`bmp, this`outstanding, this`spareMap
    {
      Ledger(bmp, outstanding, spareMap)
    }

    /** The command-path records as one value. */
    ghost function Sending(): SendRecord
      reads this`txq, this`coalesce, this`txBufMapped, this`wakeup
    {
      SendRecord(txq, coalesce, txBufMapped, wakeup)
    }

    /** The descriptor accounting invariant of `TxAccount`. */
    ghost predicate Balanced()
      reads this`bmp, this`spareMap, this`outstanding
    {
      Accounted(bmp, spareMap, outstanding, Reserved())
    }

    /** The state `tx_init` leaves: nothing claimed, every queue empty, the
     *  cursors at 0 and the TWT state awake. */
    constructor (cfg: TxConfig, table: PeerTable)
      requires table.Valid() && table.maxPeers == cfg.maxPeers && cfg.maxPeers > 0
      requires Layout(cfg.numTxTokens, AC_MAX * cfg.tokensPerAc) && cfg.maxTxAggregation > 0
      ensures Valid() && Balanced()
      ensures this.cfg == cfg && this.table == table
      ensures forall d :: 0 <= d < |bmp| ==> !bmp[d]
      ensures outstanding == [0, 0, 0, 0, 0] && spareMap == EmptySpareMap
      ensures forall p, a :: 0 <= p < |pending| && 0 <= a < AC_MAX ==> pending[p][a] == []
      ensures wakeup == [] && twtAwake
    {
      this.cfg := cfg;
      this.table := table;
      bmp := seq(cfg.numTxTokens, _ => false);
      outstanding := [0, 0, 0, 0, 0];
      spareMap := EmptySpareMap;
      pending := seq(cfg.maxPeers + 1, _ => seq(AC_MAX, _ => []));
      cursor := seq(AC_MAX, _ => 0);
      wakeup := [];
      txq := seq(cfg.numTxTokens, _ => []);
      txqPeer := seq(cfg.numTxTokens, _ => 0);
      coalesce := seq(cfg.numTxTokens, _ => 0);
      txBufMapped := seq(cfg.numTxTokens * cfg.maxTxAggregation, _ => false);
      twtAwake := true;
      new;
      InitialAccounted(cfg.numTxTokens, AC_MAX * cfg.tokensPerAc);
      assert outstanding == seq(AC_MAX, _ => 0);
    }

    /**
     * `tx_desc_get(queue)`: claims the descriptor `ChooseDesc` names (the
     * lowest free reserved descriptor of the class, else the lowest free
     * spare) and charges it to `queue`, or returns `num_tx_tokens` and changes
     * nothing. The accounting invariant is kept except when a spare
     * descriptor is lent to the multicast class.
     */
    method DescGet(queue: nat) returns (d: nat)
      requires Valid() && queue < AC_MAX
      modifies this`bmp, this`outstanding, this`spareMap
      ensures Valid()
      ensures d == ChooseDesc(old(bmp), queue, cfg.tokensPerAc)
      ensures d <= |bmp|
      ensures d == |bmp| ==> bmp == old(bmp) && outstanding == old(outstanding) && spareMap == old(spareMap)
      ensures d < |bmp| ==>
        && !old(bmp)[d] && bmp == old(bmp)[d := true]
        && outstanding == old(outstanding)[queue := old(outstanding)[queue] + 1]
        && spareMap == (if d < Reserved() then old(spareMap) else SetSpare(old(spareMap), d, queue, Reserved()))
        && Accounts() == Claimed(old(Accounts()), d, queue, Reserved())
      ensures d < |bmp| && (d < Reserved() || queue < SPARE_DESC_Q_MAP_SIZE) ==> InClass(spareMap, Reserved(), d, queue)
      ensures old(Balanced()) && (d < Reserved() || d == |bmp| || queue < SPARE_DESC_Q_MAP_SIZE) ==> Balanced()
    {
      var tpa := cfg.tokensPerAc;
      var cnt := 0;
      while cnt < tpa
        invariant cnt <= tpa
        invariant bmp == old(bmp) && outstanding == old(outstanding) && spareMap == old(spareMap)
        invariant ReservedScan(bmp, queue, tpa, 0) == ReservedScan(bmp, queue, tpa, cnt)
      {
        ReservedDescClass(queue, cnt, tpa);
        var desc := ReservedDesc(queue, cnt);
        if !bmp[desc] {
          Claim(desc, queue);
          return desc;
        }
        cnt := cnt + 1;
      }
      d := AC_MAX * tpa;
      while d < cfg.numTxTokens
        invariant AC_MAX * tpa <= d <= cfg.numTxTokens
        invariant bmp == old(bmp) && outstanding == old(outstanding) && spareMap == old(spareMap)
        invariant SpareScan(bmp, AC_MAX * tpa) == SpareScan(bmp, d)
      {
        if !bmp[d] {
          Claim(d, queue);
          return;
        }
        d := d + 1;
      }
    }

    /**
     * The claim step of `tx_desc_get` on the free descriptor `desc`: sets its
     * bit, charges it to `queue` and, for a spare descriptor, records `queue`
     * in its group of the spare map, so that it is charged to `queue` (always
     * for a reserved descriptor, for a spare one when `queue` has a bit in
     * the group).
     */
    method Claim(desc: nat, queue: nat)
      requires Valid() && desc < |bmp| && !bmp[desc] && queue < AC_MAX
      requires desc < Reserved() ==> desc % AC_MAX == queue
      modifies this`bmp, this`outstanding, this`spareMap
      ensures Valid()
      ensures bmp == old(bmp)[desc := true]
      ensures outstanding == old(outstanding)[queue := old(outstanding)[queue] + 1]
      ensures spareMap == if desc < Reserved() then old(spareMap) else SetSpare(old(spareMap), desc, queue, Reserved())
      ensures desc < Reserved() || queue < SPARE_DESC_Q_MAP_SIZE ==> InClass(spareMap, Reserved(), desc, queue)
      ensures old(Balanced()) && (desc < Reserved() || queue < SPARE_DESC_Q_MAP_SIZE) ==> Balanced()
    {
      if Balanced() && (desc < Reserved() || queue < SPARE_DESC_Q_MAP_SIZE) {
        ClaimKeepsAccounted(bmp, spareMap, outstanding, Reserved(), desc, queue);
      }
      bmp := bmp[desc := true];
      outstanding := outstanding[queue := outstanding[queue] + 1];
      if desc >= Reserved() {
        spareMap := SetSpare(spareMap, desc, queue, Reserved());
        if queue < SPARE_DESC_Q_MAP_SIZE {
          SpareBitInMap(desc, queue, Reserved(), cfg.numTxTokens);
        }
      }
    }

    /**
     * `tx_desc_free(desc, queue)`: a descriptor that is not claimed is left
     * alone, so a second free of the same descriptor changes nothing;
     * otherwise its bit is cleared, `outstanding[queue]` drops by one and, for
     * a spare descriptor, bit `queue` of its group is cleared. Freeing under
     * the class the descriptor is charged to keeps the accounting invariant.
     */
    method DescFree(desc: nat, queue: nat)
      requires Valid() && desc < |bmp| && queue < AC_MAX
      modifies this`bmp, this`outstanding, this`spareMap
      ensures Valid()
      ensures Accounts() == Released(old(Accounts()), desc, queue, Reserved())
      ensures old(Balanced()) && (old(bmp)[desc] ==> InClass(old(spareMap), Reserved(), desc, queue)) ==> Balanced()
    {
      if !bmp[desc] {
        return;
      }
      var l := Released(Ledger(bmp, outstanding, spareMap), desc, queue, Reserved());
      if Balanced() && InClass(spareMap, Reserved(), desc, queue) {
        ReleaseKeepsAccounted(bmp, spareMap, outstanding, Reserved(), desc, queue);
      }
      bmp, outstanding, spareMap := l.bmp, l.outstanding, l.spareMap;
    }

    /**
     * `get_peer_from_wakeup_q(ac)`: walks the wake-up list and serves the
     * first peer with power-save tokens left and frames pending in `ac`,
     * spending one of its tokens; -1 with nothing changed when there is none.
     */
    method GetPeerFromWakeupQ(ac: nat) returns (peer: int)
      requires Valid() && ac < AC_MAX
      modifies table`peers
      ensures Valid()
      ensures match WakeupPick(old(State()), cfg, ac, 0)
        case None => peer == -1 && table.peers == old(table.peers)
        case Some(k) =>
          peer == old(wakeup)[k]
          && table.peers == old(table.peers)[peer := old(table.peers)[peer].(psTokenCount := old(table.peers)[peer].psTokenCount - 1)]
    {
      var i := 0;
      while i < |wakeup|
        invariant i <= |wakeup|
        invariant table.peers == old(table.peers)
        invariant WakeupPick(State(), cfg, ac, 0) == WakeupPick(State(), cfg, ac, i)
      {
        var p := wakeup[i];
        if table.peers[p].psTokenCount != 0 && |pending[p][ac]| > 0 {
          table.peers := table.peers[p := table.peers[p].(psTokenCount := table.peers[p].psTokenCount - 1)];
          return p;
        }
        i := i + 1;
      }
      return -1;
    }

    /**
     * `tx_curr_peer_opp_get(ac)`: the peer served next in class `ac` and the
     * new selection state, as `Pick` defines them (the multicast pseudo-peer
     * for AC_MC, a wake-up list peer, the round-robin choice, or -1).
     */
    method CurrPeerOppGet(ac: nat) returns (peer: int)
      requires Valid() && ac < AC_MAX
      modifies table`peers, this`cursor
      ensures Valid()
      ensures (State(), peer) == Pick(old(State()), cfg, ac)
    {
      if ac == AC_MC {
        return cfg.maxPeers;
      }
      peer := GetPeerFromWakeupQ(ac);
      if peer != -1 {
        return;
      }
      var init := cursor[ac];
      var i := 0;
      while i < cfg.maxPeers
        invariant i <= cfg.maxPeers
        invariant RoundRobin(State(), cfg, ac, 0) == RoundRobin(State(), cfg, ac, i)
      {
        var p := (init + i) % cfg.maxPeers;
        assert p == Slot(State(), cfg, ac, i);
        if !table.peers[p].powerSave && |pending[p][ac]| > 0 {
          peer := p;
          break;
        }
        i := i + 1;
      }
      if peer != -1 {
        SetCursor(ac, (peer + 1) % cfg.maxPeers);
      }
    }

    /** The round-robin cursor of class `ac` moves to `c`. */
    method SetCursor(ac: nat, c: nat)
      requires Valid() && ac < AC_MAX && c < cfg.maxPeers
      modifies this`cursor
      ensures Valid() && cursor == old(cursor)[ac := c]
    {
      cursor := cursor[ac := c];
    }

    /**
     * `update_pend_q_bmp(ac, peer)`: for a unicast peer of an AP interface,
     * records in bit `ac` of its pending-frames bitmap whether its queue of
     * that class holds frames and writes the bitmap to the RPU (`writeOk` is
     * the write's outcome); other peers are left alone and report success.
     */
    method UpdatePendQBmp(ac: nat, peer: nat, writeOk: bool) returns (status: Status)
      requires Valid() && ac < AC_MAX && peer <= cfg.maxPeers
      modifies table`peers
      ensures Valid()
      ensures table.peers == BmpUpdate(old(table.peers), pending, peer, ac, cfg)
      ensures status == Fail <==> UpdatesBmp(old(table.peers), peer, cfg) && !writeOk
    {
      if cfg.ifTypeOf(table.peers[peer].ifIdx) == Ap && peer < cfg.maxPeers {
        var bits := table.peers[peer].pendQBmp;
        if |pending[peer][ac]| == 0 {
          bits := bits - {ac};
        } else {
          bits := bits + {ac};
        }
        table.peers := table.peers[peer := table.peers[peer].(pendQBmp := bits)];
        status := if writeOk then Success else Fail;
      } else {
        status := Success;
      }
    }

    /**
     * `_tx_pending_process(desc, ac)`: picks a peer for class `ac` and moves
     * frames from its pending queue to the transmit queue of `desc`; returns
     * the length of the transmit queue, 0 when nothing was queued. The new
     * state and the result are those of `Inner`.
     */
    method PendingProcessInner(desc: nat, ac: nat) returns (len: nat)
      requires Valid() && ac < AC_MAX && desc < cfg.numTxTokens
      modifies table`peers, this`cursor, this`pending, this`txq, this`txqPeer
      ensures Valid()
      ensures (State(), len) == Inner(old(State()), cfg, twtAwake, desc, ac)
    {
      var peer := CurrPeerOppGet(ac);
      if peer == -1 {
        return 0;
      }
      len := MoveFrames(desc, peer, ac);
    }

    /**
     * The dequeue part of `_tx_pending_process` once `peer` is chosen: the
     * frames `Aggregate` takes leave the head of the pending queue for the
     * end of the transmit queue, the descriptor records the peer and the
     * peer's pending-frames bit is updated as `update_pend_q_bmp` does
     * (`BmpUpdate`; the outcome of its RPU write is ignored by the source).
     * The new state and the result are `Move`'s.
     */
    method MoveFrames(desc: nat, peer: nat, ac: nat) returns (len: nat)
      requires Valid() && ac < AC_MAX && desc < cfg.numTxTokens && peer <= cfg.maxPeers
      modifies table`peers, this`pending, this`txq, this`txqPeer
      ensures Valid()
      ensures (State(), len) == Move(old(State()), cfg, twtAwake, desc, peer, ac)
    {
      var q := pending[peer][ac];
      if |q| == 0 {
        return 0;
      }
      var pq, tq, i := Aggregate(q, txq[desc], table.peers[peer].isLegacy, twtAwake, cfg);
      if |tq| == 0 {
        return 0;
      }
      MoveShifts(State(), cfg, twtAwake, desc, peer, ac, i);
      ShiftQueues(desc, peer, ac, i);
      len := |tq|;
    }

    /** The state change of `MoveFrames`: `Shift` by `t` frames. */
    method ShiftQueues(desc: nat, peer: nat, ac: nat, t: nat)
      requires Valid() && ac < AC_MAX && desc < cfg.numTxTokens && peer <= cfg.maxPeers
      requires t <= |pending[peer][ac]| && |txq[desc]| + t <= cfg.maxTxAggregation
      modifies table`peers, this`pending, this`txq, this`txqPeer
      ensures Valid()
      ensures State() == Shift(old(State()), cfg, desc, peer, ac, t)
    {
      var s1 := Shift(Sched(table.peers, pending, cursor, wakeup, txq, txqPeer), cfg, desc, peer, ac, t);
      CountersKeepIds(table.peers, s1.peers, cfg.maxPeers);
      pending, txq, txqPeer, table.peers := s1.pending, s1.txq, s1.txqPeer, s1.peers;
    }

    /**
     * `tx_enqueue(nwb, ac, peer)`: rejects the frame, changing nothing, when
     * the pending queue already holds NRF70_MAX_TX_PENDING_QLEN frames;
     * otherwise adds it (a TWT-emergency frame at the head, any other at the
     * tail) and updates the peer's pending-frames bit, failing when the
     * bitmap write to the RPU fails (the frame then stays queued).
     */
    method Enqueue(f: TxFrame, ac: nat, peer: nat, writeOk: bool) returns (status: Status)
      requires Valid() && ac < AC_MAX && peer <= cfg.maxPeers
      modifies this`pending, table`peers
      ensures Valid()
      ensures status == Fail <==> EnqueueFails(old(table.peers), old(pending), cfg, peer, ac, writeOk)
      ensures |old(pending)[peer][ac]| >= cfg.maxPendingQlen ==>
        pending == old(pending) && table.peers == old(table.peers)
      ensures |old(pending)[peer][ac]| < cfg.maxPendingQlen ==>
        && pending == SetQueue(old(pending), peer, ac, Enqueued(old(pending)[peer][ac], f))
        && table.peers == BmpUpdate(old(table.peers), pending, peer, ac, cfg)
    {
      var queue := pending[peer][ac];
      if |queue| >= cfg.maxPendingQlen {
        return Fail;
      }
      if f.emergency {
        pending := SetQueue(pending, peer, ac, [f] + queue);
      } else {
        pending := SetQueue(pending, peer, ac, queue + [f]);
      }
      status := UpdatePendQBmp(ac, peer, writeOk);
    }

    /**
     * `tx_process`: enqueues the frame, then decides whether to send now.
     * The frame is only queued (QUEUED) when its peer is in power save, or
     * when the class already has `tokens_per_ac` descriptors outstanding and
     * the frame can join an aggregate still below the limit (same
     * addresses as the queue head); a failed enqueue is FAIL; otherwise
     * SUCCESS, meaning a descriptor should be requested.
     */
    method Process(f: TxFrame, ac: nat, peer: nat, writeOk: bool) returns (st: TxStatus)
      requires Valid() && ac < AC_MAX && peer <= cfg.maxPeers
      modifies this`pending, table`peers
      ensures Valid()
      ensures st == TxFail <==> old(EnqueueFails(table.peers, pending, cfg, peer, ac, writeOk))
      ensures |old(pending)[peer][ac]| >= cfg.maxPendingQlen ==> State() == old(State())
      ensures |old(pending)[peer][ac]| < cfg.maxPendingQlen ==> State() == EnqueuedState(old(State()), cfg, f, peer, ac)
      ensures !old(EnqueueFails(table.peers, pending, cfg, peer, ac, writeOk)) ==>
        st == Decision(table.peers, pending, outstanding, f, peer, ac, cfg)
    {
      var status := Enqueue(f, ac, peer, writeOk);
      if status != Success {
        return TxFail;
      }
      if table.peers[peer].powerSave {
        return TxQueued;
      }
      var q := pending[peer][ac];
      if outstanding[ac] >= cfg.tokensPerAc {
        var aggr := false;
        if |q| > 0 {
          var first := q[0];
          aggr := true;
          if !FmacUtil.EtherAddrEqual(Dest(f), Dest(first)) {
            aggr := false;
          }
          if !FmacUtil.EtherAddrEqual(Src(f), Src(first)) {
            aggr := false;
          }
        }
        if aggr && |q| < cfg.maxTxAggregation {
          return TxQueued;
        }
      }
      return TxSuccess;
    }

    /**
     * `pending_frames_count(peer)`: the frames pending for the peer in the
     * four WMM classes, summed from VO down to BK.
     */
    method PendingFramesCount(peer: nat) returns (count: nat)
      requires Valid() && peer <= cfg.maxPeers
      ensures count == PendingTotal(pending[peer], AC_VO + 1)
      ensures count == 0 <==> forall a :: 0 <= a <= AC_VO ==> |pending[peer][a]| == 0
    {
      var queues := pending[peer];
      count := 0;
      var ac: int := AC_VO;
      while ac >= 0
        invariant -1 <= ac <= AC_VO
        invariant count + PendingTotal(queues, ac + 1) == PendingTotal(queues, AC_VO + 1)
      {
        count := count + |queues[ac]|;
        ac := ac - 1;
      }
      PendingTotalZero(queues, AC_VO + 1);
    }

    /**
     * `tx_cmd_init(txq, desc, peer)` with the flag decisions of
     * `tx_cmd_prepare`, when the buffers of the first `mapped` frames map:
     * records the number of frames sent on the descriptor and marks their
     * buffers mapped in order up to the first that fails to map. When every
     * frame maps the command is prepared: it computes the more-data and EOSP
     * flags (`HeaderFlags`), sends the command (`sendOk`) and empties the
     * transmit queue whatever the send's outcome. A failed preparation keeps
     * the queue and the wake-up list, and the slots mapped before the
     * failure stay mapped.
     */
    method CmdInit(desc: nat, mapped: nat, sendOk: bool) returns (status: Status, moreData: bool, eosp: bool)
      requires Valid() && desc < cfg.numTxTokens && |txq[desc]| > 0
      modifies this`coalesce, this`txBufMapped, this`wakeup, this`txq
      ensures Valid()
      ensures Sending() == CmdSent(old(Sending()), table.peers, txqPeer[desc], desc, mapped, cfg.maxTxAggregation)
      ensures status == Success <==> |old(txq[desc])| <= mapped && sendOk
      ensures |old(txq[desc])| <= mapped ==>
        var peer := txqPeer[desc];
        && moreData == (cfg.ifTypeOf(table.peers[peer].ifIdx) in {Ap, ApVlan, MeshPoint}
                        && exists a :: 0 <= a <= AC_VO && |pending[peer][a]| > 0)
        && eosp == (table.peers[peer].psTokenCount == 0)
    {
      var n := |txq[desc]|;
      coalesce := coalesce[desc := n];
      MarkMapped(desc, MappedCount(mapped, n));
      if mapped < n {
        return Fail, false, false;
      }
      moreData, eosp := HeaderFlags(txqPeer[desc]);
      status := if sendOk then Success else Fail;
      ClearTxq(desc);
    }

    /** The transmit queue of `desc` is handed to the RPU and emptied. */
    method ClearTxq(desc: nat)
      requires Valid() && desc < cfg.numTxTokens
      modifies this`txq
      ensures Valid() && txq == old(txq)[desc := []]
    {
      txq := txq[desc := []];
    }

    /** `nrf_wifi_hal_buf_map_tx` for the first `count` frames of `desc`:
     *  their buffer slots become mapped. */
    method MarkMapped(desc: nat, count: nat)
      requires Valid() && desc < cfg.numTxTokens && count <= cfg.maxTxAggregation
      modifies this`txBufMapped
      ensures Valid()
      ensures txBufMapped == SetRange(old(txBufMapped), BufSlot(desc, 0, cfg.maxTxAggregation), count, true)
    {
      txBufMapped := SetRange(txBufMapped, BufSlot(desc, 0, cfg.maxTxAggregation), count, true);
    }

    /**
     * The more-data and EOSP decisions of `tx_cmd_prepare` for `peer`:
     * more-data when the peer's interface is an AP, AP-VLAN or mesh point and
     * frames are still pending for it in a WMM class; EOSP when its
     * power-save tokens are spent, in which case it leaves the wake-up list.
     */
    method HeaderFlags(peer: nat) returns (moreData: bool, eosp: bool)
      requires Valid() && peer <= cfg.maxPeers
      modifies this`wakeup
      ensures Valid()
      ensures moreData == (cfg.ifTypeOf(table.peers[peer].ifIdx) in {Ap, ApVlan, MeshPoint}
                           && exists a :: 0 <= a <= AC_VO && |pending[peer][a]| > 0)
      ensures eosp == (table.peers[peer].psTokenCount == 0)
      ensures wakeup == (if eosp then Without(old(wakeup), peer) else old(wakeup))
    {
      var ifType := cfg.ifTypeOf(table.peers[peer].ifIdx);
      var pendingCount := PendingFramesCount(peer);
      moreData := (ifType == Ap || ifType == ApVlan || ifType == MeshPoint) && pendingCount != 0;
      eosp := false;
      if table.peers[peer].psTokenCount == 0 {
        var w := Without(wakeup, peer);
        WithoutBelow(wakeup, peer, cfg.maxPeers);
        EngineOkWakeup(State(), cfg, bmp, outstanding, Reserved(), coalesce, txBufMapped, w);
        wakeup := w;
        eosp := true;
      }
    }

    /**
     * `tx_pending_process(desc, ac)`: refills `desc` from class `ac`
     * (`PendingProcessInner`); when frames were queued on it, builds and
     * sends the command (`CmdInit`), otherwise releases the descriptor under
     * `ac` and reports success.
     */
    method PendingProcess(desc: nat, ac: nat, mapped: nat, sendOk: bool) returns (status: Status)
      requires Valid() && ac < AC_MAX && desc < cfg.numTxTokens
      modifies table`peers, this`cursor, this`pending, this`txq, this`txqPeer
      modifies this`bmp, this`outstanding, this`spareMap, this`coalesce, this`txBufMapped, this`wakeup
      ensures Valid()
      ensures PendingProcessed(cfg, twtAwake, Reserved(), desc, ac, mapped, old(State()), old(Accounts()), old(Sending()),
                               State(), Accounts(), Sending())
      ensures status == PendingStatus(old(State()), cfg, twtAwake, desc, ac, mapped, sendOk)
      ensures old(Balanced()) && (old(bmp)[desc] ==> InClass(old(spareMap), Reserved(), desc, ac)) ==> Balanced()
    {
      var len := PendingProcessInner(desc, ac);
      ghost var s1, c1 := State(), Sending();
      status := SendOrRelease(desc, ac, len, mapped, sendOk);
      PendingProcessedSteps(cfg, twtAwake, Reserved(), desc, ac, mapped, old(State()), old(Accounts()), old(Sending()),
                            s1, len, c1, State(), Accounts(), Sending());
    }

    /**
     * The second half of `tx_pending_process`, once `len` frames are on the
     * transmit queue of `desc`: with frames, the command is built and sent
     * (`CmdInit`) and the descriptor stays claimed; without, the descriptor
     * is released under `ac` and the result is SUCCESS.
     */
    method SendOrRelease(desc: nat, ac: nat, len: nat, mapped: nat, sendOk: bool) returns (status: Status)
      requires Valid() && ac < AC_MAX && desc < cfg.numTxTokens
      requires len > 0 ==> |txq[desc]| == len
      modifies this`bmp, this`outstanding, this`spareMap, this`coalesce, this`txBufMapped, this`wakeup, this`txq
      ensures Valid() && pending == old(pending) && cursor == old(cursor) && txqPeer == old(txqPeer)
      ensures SentOrReleased(cfg, Reserved(), desc, ac, len, mapped, table.peers, txqPeer[desc],
                             old(Accounts()), old(Sending()), Accounts(), Sending())
      ensures status == Success <==> len == 0 || (len <= mapped && sendOk)
      ensures old(Balanced()) && (old(bmp)[desc] ==> InClass(old(spareMap), Reserved(), desc, ac)) ==> Balanced()
    {
      if len > 0 {
        var moreData, eosp;
        status, moreData, eosp := CmdInit(desc, mapped, sendOk);
      } else {
        DescFree(desc, ac);
        status := Success;
      }
    }

    /**
     * `nrf_wifi_fmac_tx(nbuf, ac, peer)`: with no descriptors at all, FAIL
     * and nothing changes. Otherwise `tx_process` queues the frame; unless
     * that asks for a descriptor (SUCCESS), its result is returned. A frame
     * that may not be sent now (TWT asleep) or finds no free descriptor of
     * its class stays QUEUED; otherwise the claimed descriptor is filled and
     * the command sent (`PendingProcess`), whose status is returned.
     */
    method FmacTx(f: TxFrame, ac: nat, peer: nat, writeOk: bool, mapped: nat, sendOk: bool) returns (st: TxStatus)
      requires Valid() && ac < AC_MAX && peer <= cfg.maxPeers
      modifies table`peers, this`cursor, this`pending, this`txq, this`txqPeer
      modifies this`bmp, this`outstanding, this`spareMap, this`coalesce, this`txBufMapped, this`wakeup
      ensures Valid()
      ensures Transmitted(cfg, twtAwake, Reserved(), f, ac, peer, writeOk, mapped, old(State()), old(Accounts()), old(Sending()),
                          State(), Accounts(), Sending())
      ensures st == TransmitStatus(old(State()), old(Accounts()), cfg, twtAwake, f, ac, peer, writeOk, mapped, sendOk)
      ensures cfg.numTxTokens == 0 ==> st == TxFail && pending == old(pending) && table.peers == old(table.peers)
      ensures cfg.numTxTokens > 0 && old(EnqueueFails(table.peers, pending, cfg, peer, ac, writeOk)) ==> st == TxFail
      ensures st == TxFail ==>
        cfg.numTxTokens == 0 || old(EnqueueFails(table.peers, pending, cfg, peer, ac, writeOk)) || !(cfg.maxTxAggregation <= mapped && sendOk)
      ensures cfg.numTxTokens > 0 && !old(EnqueueFails(table.peers, pending, cfg, peer, ac, writeOk)) ==>
        && (old(table.peers)[peer].powerSave ==> st == TxQueued)
        && (!CanXmit(f.emergency, twtAwake) ==> st == TxQueued)
        && (ChooseDesc(old(bmp), ac, cfg.tokensPerAc) == |bmp| ==> st == TxQueued)
      ensures old(Balanced()) && ac < SPARE_DESC_Q_MAP_SIZE ==> Balanced()
    {
      if cfg.numTxTokens == 0 {
        return TxFail;
      }
      st := Process(f, ac, peer, writeOk);
      if st != TxSuccess {
        return;
      }
      st := Submit(f, ac, mapped, sendOk);
    }

    /**
     * The second half of `nrf_wifi_fmac_tx`, once `tx_process` asked for a
     * descriptor: QUEUED when the frame may not be sent now (TWT asleep) or
     * no descriptor of class `ac` is free; otherwise the claimed descriptor
     * is filled and the command sent (`PendingProcess`), whose status is
     * returned.
     */
    method Submit(f: TxFrame, ac: nat, mapped: nat, sendOk: bool) returns (st: TxStatus)
      requires Valid() && ac < AC_MAX
      modifies table`peers, this`cursor, this`pending, this`txq, this`txqPeer
      modifies this`bmp, this`outstanding, this`spareMap, this`coalesce, this`txBufMapped, this`wakeup
      ensures Valid()
      ensures Submitted(cfg, twtAwake, Reserved(), f.emergency, ac, mapped, old(State()), old(Accounts()), old(Sending()),
                        State(), Accounts(), Sending())
      ensures st == SubmitStatus(old(State()), old(Accounts()), cfg, twtAwake, f.emergency, ac, mapped, sendOk)
      ensures st == TxFail ==> !(cfg.maxTxAggregation <= mapped && sendOk)
      ensures !CanXmit(f.emergency, twtAwake) ==> st == TxQueued && bmp == old(bmp) && pending == old(pending)
      ensures ChooseDesc(old(bmp), ac, cfg.tokensPerAc) == |bmp| ==> st == TxQueued && bmp == old(bmp)
      ensures old(Balanced()) && ac < SPARE_DESC_Q_MAP_SIZE ==> Balanced()
    {
      st := TxQueued;
      if !CanXmit(f.emergency, twtAwake) {
        return;
      }
      var desc := DescGet(ac);
      if desc == cfg.numTxTokens {
        return;
      }
      var status := PendingProcess(desc, ac, mapped, sendOk);
      st := AsTxStatus(status);
    }

    /**
     * `tx_buff_req_free(desc)` on a completed descriptor. Its class is the
     * reserved descriptor's own, or the one decoded from the spare map
     * (`DoneClass`). The classes from `RefillFirst` down to `RefillLast` are
     * tried in turn (`Refill`); the first that queues frames on `desc` keeps
     * it, and when that is another class one outstanding count and the
     * spare-map bit move to it. When nothing is pending the descriptor is
     * freed under its class. Returns the frames queued and the class (-1
     * when none).
     */
    method BuffReqFree(desc: nat) returns (pkts: nat, ac: int)
      requires Valid() && desc < cfg.numTxTokens && Reserved() > 0
      modifies table`peers, this`cursor, this`pending, this`txq, this`txqPeer
      modifies this`bmp, this`outstanding, this`spareMap
      ensures Valid()
      ensures (State(), pkts, ac) == Refill(old(State()), cfg, twtAwake, desc, RefillFirst(desc, Reserved()), RefillLast(desc, Reserved()))
      ensures Accounts() == Settled(old(Accounts()), desc, DoneClass(old(spareMap), desc, Reserved()), pkts, ac, Reserved())
      ensures old(Balanced()) && old(bmp)[desc] ==> Balanced() && (pkts > 0 ==> InClass(spareMap, Reserved(), desc, ac))
    {
      var first, last := RefillFirst(desc, Reserved()), RefillLast(desc, Reserved());
      ghost var l := Accounts();
      pkts, ac := RefillLoop(desc, first, last, Refill(State(), cfg, twtAwake, desc, first, last));
      assert Accounts() == l;
      Settle(desc, pkts, ac);
    }

    /**
     * The accounting at the end of `tx_buff_req_free`, with the completed
     * descriptor charged to `DoneClass`: with nothing queued (`pkts` is 0)
     * it is freed under that class; refilled from another class `ac`, one
     * outstanding count and the spare-map bit move to `ac` (`Recharge`);
     * refilled from its own class, nothing changes (`Settled`).
     */
    method Settle(desc: nat, pkts: nat, ac: int)
      requires Valid() && desc < cfg.numTxTokens && Reserved() > 0
      requires pkts > 0 ==> RefillLast(desc, Reserved()) <= ac <= RefillFirst(desc, Reserved())
      modifies this`bmp, this`outstanding, this`spareMap
      ensures Valid() && State() == old(State())
      ensures Accounts() == Settled(old(Accounts()), desc, DoneClass(old(spareMap), desc, Reserved()), pkts, ac, Reserved())
      ensures old(Balanced()) && old(bmp)[desc] ==> Balanced() && (pkts > 0 ==> InClass(spareMap, Reserved(), desc, ac))
    {
      var doneQ := DoneClass(spareMap, desc, Reserved());
      if Balanced() && bmp[desc] {
        if desc >= Reserved() {
          DecodeFindsClass(bmp, spareMap, outstanding, Reserved(), desc);
        }
        SettledKeepsAccounted(Accounts(), desc, doneQ, pkts, ac, Reserved());
      }
      if pkts > 0 {
        if ac != doneQ {
          Recharge(desc, doneQ, ac);
        }
      } else {
        DescFree(desc, doneQ);
      }
    }

    /**
     * The refill loop of `tx_buff_req_free`: tries classes `start` down to
     * `end` (`PendingProcessInner`) and stops at the first that queues
     * frames on `desc`. The new state, the frames queued and the class (-1
     * when none) are `Refill`'s; the ghost `goal` names that result up front
     * for the loop invariant.
     */
    method RefillLoop(desc: nat, start: nat, end: nat, ghost goal: (Sched, nat, int)) returns (pkts: nat, ac: int)
      requires Valid() && desc < cfg.numTxTokens && end <= start < AC_MAX
      requires goal == Refill(State(), cfg, twtAwake, desc, start, end)
      modifies table`peers, this`cursor, this`pending, this`txq, this`txqPeer
      ensures Valid()
      ensures (State(), pkts, ac) == Refill(old(State()), cfg, twtAwake, desc, start, end)
      ensures pkts > 0 ==> end <= ac <= start
    {
      pkts, ac := 0, -1;
      var cnt: int := start;
      while cnt >= end
        invariant end - 1 <= cnt <= start && pkts == 0 && ac == -1
        invariant Valid()
        invariant Refill(State(), cfg, twtAwake, desc, cnt, end) == goal
        decreases cnt
      {
        pkts := RefillTry(desc, cnt, end, goal);
        if pkts > 0 {
          ac := cnt;
          break;
        }
        cnt := cnt - 1;
      }
    }

    /** One pass of the refill loop, on class `cnt`: `PendingProcessInner`
     *  advances `Refill` by one class. */
    method RefillTry(desc: nat, cnt: nat, ghost end: nat, ghost goal: (Sched, nat, int)) returns (pkts: nat)
      requires Valid() && desc < cfg.numTxTokens && end <= cnt < AC_MAX
      requires Refill(State(), cfg, twtAwake, desc, cnt, end) == goal
      modifies table`peers, this`cursor, this`pending, this`txq, this`txqPeer
      ensures Valid()
      ensures pkts > 0 ==> goal == (State(), pkts, cnt)
      ensures pkts == 0 ==> goal == Refill(State(), cfg, twtAwake, desc, cnt - 1, end)
    {
      RefillStep(State(), cfg, twtAwake, desc, cnt, end);
      pkts := PendingProcessInner(desc, cnt);
    }

    /**
     * The class switch of `tx_buff_req_free` when a spare descriptor charged
     * to `from` is refilled from `to`: one outstanding count moves from
     * `from` to `to` and the descriptor's group of the spare map has bit
     * `from` cleared and bit `to` set, so that the descriptor is now charged
     * to `to` and the accounting invariant holds.
     */
    method Recharge(desc: nat, from: nat, to: nat)
      requires Valid() && Reserved() <= desc < cfg.numTxTokens
      requires from < SPARE_DESC_Q_MAP_SIZE && to < SPARE_DESC_Q_MAP_SIZE && from != to
      modifies this`outstanding, this`spareMap
      ensures Valid()
      ensures Accounts() == Recharged(old(Accounts()), desc, from, to, Reserved())
      ensures InClass(spareMap, Reserved(), desc, to)
    {
      outstanding := outstanding[from := outstanding[from] - 1];
      outstanding := outstanding[to := outstanding[to] + 1];
      spareMap := ClearSpare(spareMap, desc, from, Reserved());
      spareMap := SetSpare(spareMap, desc, to, Reserved());
      SpareBitInMap(desc, to, Reserved(), cfg.numTxTokens);
    }

    /**
     * `tx_done_process(desc)` for a completed descriptor, with the descriptor
     * check corrected to `DoneDescAccepted`: a descriptor outside the tables
     * is FAIL and changes nothing. Otherwise the buffers of the frames sent
     * on it are unmapped in order (`UnmapFrames`); the first one that is not
     * mapped or fails to unmap ends it with FAIL, leaving the earlier ones
     * unmapped and the descriptor claimed. When all unmap, the descriptor is
     * refilled or freed (`BuffReqFree`) and, refilled while TWT is awake,
     * the next command is sent (`CmdInit`).
     */
    method DoneProcess(desc: nat, unmapOk: nat -> bool, mapped: nat, sendOk: bool) returns (status: Status)
      requires Valid() && Reserved() > 0
      modifies table`peers, this`cursor, this`pending, this`txq, this`txqPeer
      modifies this`bmp, this`outstanding, this`spareMap, this`coalesce, this`txBufMapped, this`wakeup
      ensures Valid()
      ensures !DoneDescAccepted(desc, cfg.numTxTokens) ==>
        && status == Fail && State() == old(State()) && Accounts() == old(Accounts())
        && coalesce == old(coalesce) && txBufMapped == old(txBufMapped)
      ensures DoneDescAccepted(desc, cfg.numTxTokens) ==>
        var base, count := BufSlot(desc, 0, cfg.maxTxAggregation), old(coalesce)[desc];
        var k := FirstUnmapFailure(old(txBufMapped), base, count, unmapOk, 0);
        && (k < count ==>
              && status == Fail && State() == old(State()) && Accounts() == old(Accounts())
              && coalesce == old(coalesce) && txBufMapped == SetRange(old(txBufMapped), base, k, false))
        && (k == count ==>
              var r := Refill(old(State()), cfg, twtAwake, desc, RefillFirst(desc, Reserved()), RefillLast(desc, Reserved()));
              && DoneRefilled(cfg, twtAwake, Reserved(), desc, mapped, old(State()), old(Accounts()),
                              old(Sending()).(txBufMapped := SetRange(old(txBufMapped), base, count, false)),
                              State(), Accounts(), Sending())
              && (r.1 == 0 || !twtAwake ==> status == Success)
              && (r.1 > 0 && twtAwake ==> (status == Success <==> r.1 <= mapped && sendOk)))
      ensures old(Balanced()) && (desc < cfg.numTxTokens ==> old(bmp)[desc]) ==> Balanced()
    {
      if !DoneDescAccepted(desc, cfg.numTxTokens) {
        return Fail;
      }
      var ok := UnmapFrames(desc, unmapOk);
      if !ok {
        return Fail;
      }
      status := DoneRefill(desc, mapped, sendOk);
    }

    /**
     * The unmap loop of `tx_done_process`: for each of the
     * `send_pkt_coalesce_count_p[desc]` frames sent on `desc`, in order, its
     * buffer slot must be mapped and its unmap (`unmapOk`) succeed, and it
     * becomes unmapped. Stops at the first frame where that fails
     * (`FirstUnmapFailure`), leaving it and the later ones as they were;
     * reports whether every frame was unmapped.
     */
    method UnmapFrames(desc: nat, unmapOk: nat -> bool) returns (ok: bool)
      requires Valid() && desc < cfg.numTxTokens
      modifies this`txBufMapped
      ensures Valid()
      ensures var base, count := BufSlot(desc, 0, cfg.maxTxAggregation), coalesce[desc];
        var k := FirstUnmapFailure(old(txBufMapped), base, count, unmapOk, 0);
        && (ok <==> k == count)
        && txBufMapped == SetRange(old(txBufMapped), base, k, false)
    {
      var base := BufSlot(desc, 0, cfg.maxTxAggregation);
      var count := coalesce[desc];
      var flags := txBufMapped;
      var frame := 0;
      ok := true;
      while frame < count
        invariant frame <= count && txBufMapped == old(txBufMapped)
        invariant forall k :: 0 <= k < frame ==> Unmaps(txBufMapped, base, k, unmapOk)
        invariant flags == SetRange(txBufMapped, base, frame, false)
      {
        var slot := base + frame;
        BufSlotInRange(desc, frame, cfg.maxTxAggregation, cfg.numTxTokens);
        if !flags[slot] || !unmapOk(slot) {
          assert !Unmaps(txBufMapped, base, frame, unmapOk);
          ok := false;
          break;
        }
        flags := flags[slot := false];
        frame := frame + 1;
      }
      FirstUnmapFailureIs(txBufMapped, base, count, unmapOk, frame);
      txBufMapped := flags;
    }

    /**
     * The end of `tx_done_process` once every buffer is unmapped: the
     * descriptor is refilled or freed (`BuffReqFree`); when frames were
     * queued on it and TWT is awake the command is built and sent
     * (`CmdInit`) and its status returned, otherwise SUCCESS.
     */
    method DoneRefill(desc: nat, mapped: nat, sendOk: bool) returns (status: Status)
      requires Valid() && desc < cfg.numTxTokens && Reserved() > 0
      modifies table`peers, this`cursor, this`pending, this`txq, this`txqPeer
      modifies this`bmp, this`outstanding, this`spareMap, this`coalesce, this`txBufMapped, this`wakeup
      ensures Valid()
      ensures DoneRefilled(cfg, twtAwake, Reserved(), desc, mapped, old(State()), old(Accounts()), old(Sending()),
                           State(), Accounts(), Sending())
      ensures var r := Refill(old(State()), cfg, twtAwake, desc, RefillFirst(desc, Reserved()), RefillLast(desc, Reserved()));
        && (r.1 == 0 || !twtAwake ==> status == Success)
        && (r.1 > 0 && twtAwake ==> (status == Success <==> r.1 <= mapped && sendOk))
      ensures old(Balanced()) && old(bmp)[desc] ==> Balanced()
    {
      var pkts, ac := BuffReqFree(desc);
      if pkts > 0 && twtAwake {
        var moreData, eosp;
        status, moreData, eosp := CmdInit(desc, mapped, sendOk);
      } else {
        status := Success;
      }
    }

    /**
     * `nrf_wifi_fmac_start_xmit(if_idx, nbuf)` on interface `ifIdx`, whose
     * BSSID is `bssid`: a frame shorter than an Ethernet header is FAIL and
     * changes nothing. Otherwise its receiver address is the one
     * `nrf_wifi_util_get_ra` gives for the interface (`GetRa`); a frame for
     * an unknown peer is FAIL and changes nothing, and any other frame is
     * handed to `nrf_wifi_fmac_tx` (`FmacTx`) under the class `XmitAc`
     * gives, and only that call's FAIL is reported as FAIL; QUEUED counts as
     * SUCCESS.
     */
    method StartXmit(f: Frame, ifIdx: nat, bssid: MacAddr, writeOk: bool, mapped: nat, sendOk: bool) returns (status: Status)
      requires Valid()
      modifies table`peers, this`cursor, this`pending, this`txq, this`txqPeer
      modifies this`bmp, this`outstanding, this`spareMap, this`coalesce, this`txBufMapped, this`wakeup
      ensures Valid()
      ensures |f.data| < ETH_HDR_LEN ==> status == Fail && State() == old(State()) && Accounts() == old(Accounts())
      ensures |f.data| >= ETH_HDR_LEN ==>
        var ra := GetRa(cfg.ifTypeOf(ifIdx), bssid, f.data);
        && -1 <= LookupId(old(table.peers), cfg.maxPeers, ra) <= cfg.maxPeers
        && (LookupId(old(table.peers), cfg.maxPeers, ra) == -1 ==>
              status == Fail && State() == old(State()) && Accounts() == old(Accounts()))
      ensures |f.data| >= ETH_HDR_LEN && LookupId(old(table.peers), cfg.maxPeers, GetRa(cfg.ifTypeOf(ifIdx), bssid, f.data)) != -1 ==>
        var ra := GetRa(cfg.ifTypeOf(ifIdx), bssid, f.data);
        var id := LookupId(old(table.peers), cfg.maxPeers, ra);
        var ac := XmitAc(old(table.peers), cfg.maxPeers, id, f.data, ra);
        && Transmitted(cfg, twtAwake, Reserved(), f, ac, id, writeOk, mapped, old(State()), old(Accounts()), old(Sending()),
                       State(), Accounts(), Sending())
        && (status == Fail <==>
              TransmitStatus(old(State()), old(Accounts()), cfg, twtAwake, f, ac, id, writeOk, mapped, sendOk) == TxFail)
        && (cfg.numTxTokens == 0 || old(EnqueueFails(table.peers, pending, cfg, id, ac, writeOk)) ==> status == Fail)
        && (status == Fail ==>
              cfg.numTxTokens == 0 || old(EnqueueFails(table.peers, pending, cfg, id, ac, writeOk)) || !(cfg.maxTxAggregation <= mapped && sendOk))
        && (old(Balanced()) && ac < SPARE_DESC_Q_MAP_SIZE ==> Balanced())
    {
      if |f.data| < ETH_HDR_LEN {
        return Fail;
      }
      var ra := GetRa(cfg.ifTypeOf(ifIdx), bssid, f.data);
      LookupIdRange(table.peers, cfg.maxPeers, ra);
      var id := table.GetId(ra);
      if id == -1 {
        return Fail;
      }
      var ac := XmitAc(table.peers, cfg.maxPeers, id, f.data, ra);
      var st := FmacTx(f, ac, id, writeOk, mapped, sendOk);
      status := if st == TxFail then Fail else Success;
    }
  }
}
