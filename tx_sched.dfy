/**
 * Scheduling state of the transmit engine, on values: the per-(peer, class)
 * pending queues, the round-robin cursors, the power-save wake-up list and
 * the per-descriptor transmit queues, and what peer selection and
 * `_tx_pending_process` do to them.
 */
module TxSched {
  import opened Common
  import opened TxClassify
  import opened Peers

  /** A network buffer handed to the transmit path: its octets (an Ethernet
   *  frame) and whether it carries the TWT-emergency priority. */
  datatype Frame = Frame(data: seq<byte>, emergency: bool)

  /** A frame `nrf_wifi_fmac_start_xmit` accepts: at least an Ethernet header. */
  type TxFrame = f: Frame | |f.data| >= ETH_HDR_LEN witness Frame(seq(ETH_HDR_LEN, _ => 0), false)

  /** `nrf_wifi_get_dest` / `nrf_wifi_get_src`. */
  function Dest(f: TxFrame): MacAddr { f.data[..ETH_ADDR_LEN] }
  function Src(f: TxFrame): MacAddr { f.data[ETH_ADDR_LEN..2 * ETH_ADDR_LEN] }

  /** The sizes and limits the transmit engine is configured with, and the
   *  interface type of each interface index (`vif_ctx[i]->if_type`). */
  datatype TxConfig = TxConfig(
    maxPeers: nat,
    tokensPerAc: nat,
    numTxTokens: nat,
    maxTxAggregation: nat,
    availAmpduLenPerToken: int,
    txBufHeadroom: nat,
    maxPendingQlen: nat,
    ifTypeOf: nat -> IfType)

  datatype Sched = Sched(
    peers: seq<PeerInfo>,
    /** `data_pending_txq[peer][ac]`, MAX_PEERS + 1 rows of AC_MAX queues. */
    pending: seq<seq<seq<TxFrame>>>,
    /** `curr_peer_opp[ac]`. */
    cursor: seq<nat>,
    /** `wakeup_client_q`, as the slots of the listed peers. */
    wakeup: seq<nat>,
    /** `pkt_info_p[desc].pkt` and `pkt_info_p[desc].peer_id`, one per descriptor. */
    txq: seq<seq<TxFrame>>,
    txqPeer: seq<int>)

  predicate SchedOk(s: Sched, cfg: TxConfig)
  {
    && cfg.maxPeers > 0
    && |s.peers| == cfg.maxPeers + 1
    && |s.pending| == cfg.maxPeers + 1
    && (forall p :: 0 <= p < |s.pending| ==> |s.pending[p]| == AC_MAX)
    && |s.cursor| == AC_MAX
    && (forall a :: 0 <= a < AC_MAX ==> s.cursor[a] < cfg.maxPeers)
    && (forall k :: 0 <= k < |s.wakeup| ==> s.wakeup[k] < cfg.maxPeers)
    && |s.txq| == cfg.numTxTokens
    && |s.txqPeer| == cfg.numTxTokens
    && (forall d :: 0 <= d < |s.txqPeer| ==> 0 <= s.txqPeer[d] <= cfg.maxPeers)
  }

  /** `SchedOk` with every transmit queue within the aggregation limit. */
  predicate Bounded(s: Sched, cfg: TxConfig)
  {
    && SchedOk(s, cfg)
    && cfg.maxTxAggregation > 0
    && (forall d :: 0 <= d < |s.txq| ==> |s.txq[d]| <= cfg.maxTxAggregation)
  }

  /** The per-descriptor records of the send path: one frame count per
   *  descriptor, within the aggregation limit, and one buffer-mapped flag
   *  per frame slot. */
  predicate SendRecordsOk(coalesce: seq<nat>, txBufMapped: seq<bool>, cfg: TxConfig)
  {
    && |coalesce| == cfg.numTxTokens
    && (forall d :: 0 <= d < |coalesce| ==> coalesce[d] <= cfg.maxTxAggregation)
    && |txBufMapped| == cfg.numTxTokens * cfg.maxTxAggregation
  }

  /** Two peer entries agree on everything but the per-peer counters the
   *  scheduler keeps: the power-save tokens and the pending-frames bitmap. */
  predicate SameButCounters(a: PeerInfo, b: PeerInfo)
  {
    && a.peerId == b.peerId && a.ra == b.ra && a.ifIdx == b.ifIdx
    && a.isLegacy == b.isLegacy && a.qosSupported == b.qosSupported && a.powerSave == b.powerSave
  }

  /** The peer table changed at most in those counters. */
  predicate CountersOnly(before: seq<PeerInfo>, after: seq<PeerInfo>)
  {
    |after| == |before| && forall i :: 0 <= i < |before| ==> SameButCounters(before[i], after[i])
  }

  /** A wake-up list entry may be served: it has power-save tokens left and
   *  frames pending in the class. */
  predicate WakeupReady(s: Sched, p: nat, ac: nat)
    requires p < |s.peers| && p < |s.pending| && ac < |s.pending[p]|
  {
    s.peers[p].psTokenCount != 0 && |s.pending[p][ac]| > 0
  }

  /** A slot the round-robin scan may pick: not in power save, frames pending. */
  predicate RoundRobinReady(s: Sched, p: nat, ac: nat)
    requires p < |s.peers| && p < |s.pending| && ac < |s.pending[p]|
  {
    !s.peers[p].powerSave && |s.pending[p][ac]| > 0
  }

  /** `get_peer_from_wakeup_q`: the position of the first ready entry from `i`. */
  function WakeupPick(s: Sched, cfg: TxConfig, ac: nat, i: nat): (r: Option<nat>)
    requires SchedOk(s, cfg) && ac < AC_MAX && i <= |s.wakeup|
    ensures r.Some? ==> i <= r.value < |s.wakeup| && WakeupReady(s, s.wakeup[r.value], ac)
    decreases |s.wakeup| - i
  {
    if i == |s.wakeup| then None
    else if WakeupReady(s, s.wakeup[i], ac) then Some(i)
    else WakeupPick(s, cfg, ac, i + 1)
  }

  /** The slot the round-robin scan visits at offset `j`. */
  function Slot(s: Sched, cfg: TxConfig, ac: nat, j: nat): (p: nat)
    requires SchedOk(s, cfg) && ac < AC_MAX
    ensures p < cfg.maxPeers
  {
    (s.cursor[ac] + j) % cfg.maxPeers
  }

  /** The round-robin scan of `tx_curr_peer_opp_get` from offset `i`: the first
   *  ready slot `(cursor + i) % MAX_PEERS`. */
  function RoundRobin(s: Sched, cfg: TxConfig, ac: nat, i: nat): (r: Option<nat>)
    requires SchedOk(s, cfg) && ac < AC_MAX && i <= cfg.maxPeers
    ensures r.Some? ==> r.value < cfg.maxPeers && RoundRobinReady(s, r.value, ac)
    decreases cfg.maxPeers - i
  {
    if i == cfg.maxPeers then None
    else
      var p := Slot(s, cfg, ac, i);
      if RoundRobinReady(s, p, ac) then Some(p) else RoundRobin(s, cfg, ac, i + 1)
  }

  /**
   * `tx_curr_peer_opp_get`: the peer whose queue of class `ac` is served
   * next, and the state after choosing it.
   */
  function Pick(s: Sched, cfg: TxConfig, ac: nat): (r: (Sched, int))
    requires SchedOk(s, cfg) && ac < AC_MAX
    ensures SchedOk(r.0, cfg) && CountersOnly(s.peers, r.0.peers)
    ensures r.0.pending == s.pending && r.0.txq == s.txq && r.0.txqPeer == s.txqPeer
    ensures r.0.wakeup == s.wakeup
    ensures -1 <= r.1 <= cfg.maxPeers
    ensures ac == AC_MC <==> r.1 == cfg.maxPeers
    ensures r.1 != -1 && ac != AC_MC ==> |s.pending[r.1][ac]| > 0
  {
    if ac == AC_MC then (s, cfg.maxPeers)
    else match WakeupPick(s, cfg, ac, 0)
      case Some(k) =>
        var p := s.wakeup[k];
        (s.(peers := s.peers[p := s.peers[p].(psTokenCount := s.peers[p].psTokenCount - 1)]), p as int)
      case None =>
        match RoundRobin(s, cfg, ac, 0)
        case Some(p) => (s.(cursor := s.cursor[ac := (p + 1) % cfg.maxPeers]), p as int)
        case None => (s, -1)
  }

  lemma {:induction false} WakeupPickMeaning(s: Sched, cfg: TxConfig, ac: nat, i: nat)
    requires SchedOk(s, cfg) && ac < AC_MAX && i <= |s.wakeup|
    ensures WakeupPick(s, cfg, ac, i).None? <==>
      forall k :: i <= k < |s.wakeup| ==> !WakeupReady(s, s.wakeup[k], ac)
    ensures WakeupPick(s, cfg, ac, i).Some? ==>
      forall k :: i <= k < WakeupPick(s, cfg, ac, i).value ==> !WakeupReady(s, s.wakeup[k], ac)
    decreases |s.wakeup| - i
  {
    if i < |s.wakeup| && !WakeupReady(s, s.wakeup[i], ac) {
      WakeupPickMeaning(s, cfg, ac, i + 1);
    }
  }

  lemma ModBelowTwice(x: nat, m: nat)
    requires 0 < m && x < 2 * m
    ensures x % m == if x < m then x else x - m
  {
    if x < m {
      assert x == 0 * m + x;
    } else {
      assert x == 1 * m + (x - m);
    }
  }

  lemma {:induction false} RoundRobinScan(s: Sched, cfg: TxConfig, ac: nat, i: nat)
    requires SchedOk(s, cfg) && ac < AC_MAX && i <= cfg.maxPeers
    ensures RoundRobin(s, cfg, ac, i).None? ==>
      forall j :: i <= j < cfg.maxPeers ==> !RoundRobinReady(s, Slot(s, cfg, ac, j), ac)
    ensures RoundRobin(s, cfg, ac, i).Some? ==>
      exists j :: i <= j < cfg.maxPeers && RoundRobin(s, cfg, ac, i).value == Slot(s, cfg, ac, j)
        && forall j' :: i <= j' < j ==> !RoundRobinReady(s, Slot(s, cfg, ac, j'), ac)
  {
    RoundRobinNone(s, cfg, ac, i);
    RoundRobinSome(s, cfg, ac, i);
  }

  lemma {:induction false} RoundRobinNone(s: Sched, cfg: TxConfig, ac: nat, i: nat)
    requires SchedOk(s, cfg) && ac < AC_MAX && i <= cfg.maxPeers
    ensures RoundRobin(s, cfg, ac, i).None? ==>
      forall j :: i <= j < cfg.maxPeers ==> !RoundRobinReady(s, Slot(s, cfg, ac, j), ac)
    decreases cfg.maxPeers - i
  {
    if i < cfg.maxPeers && !RoundRobinReady(s, Slot(s, cfg, ac, i), ac) {
      assert RoundRobin(s, cfg, ac, i) == RoundRobin(s, cfg, ac, i + 1);
      RoundRobinNone(s, cfg, ac, i + 1);
    }
  }

  lemma {:induction false} RoundRobinSome(s: Sched, cfg: TxConfig, ac: nat, i: nat)
    requires SchedOk(s, cfg) && ac < AC_MAX && i <= cfg.maxPeers
    ensures RoundRobin(s, cfg, ac, i).Some? ==>
      exists j :: i <= j < cfg.maxPeers && RoundRobin(s, cfg, ac, i).value == Slot(s, cfg, ac, j)
        && forall j' :: i <= j' < j ==> !RoundRobinReady(s, Slot(s, cfg, ac, j'), ac)
    decreases cfg.maxPeers - i
  {
    if i < cfg.maxPeers {
      if RoundRobinReady(s, Slot(s, cfg, ac, i), ac) {
        assert RoundRobin(s, cfg, ac, i).value == Slot(s, cfg, ac, i);
      } else if RoundRobin(s, cfg, ac, i).Some? {
        assert RoundRobin(s, cfg, ac, i) == RoundRobin(s, cfg, ac, i + 1);
        RoundRobinSome(s, cfg, ac, i + 1);
        var j :| i + 1 <= j < cfg.maxPeers && RoundRobin(s, cfg, ac, i + 1).value == Slot(s, cfg, ac, j)
          && forall j' :: i + 1 <= j' < j ==> !RoundRobinReady(s, Slot(s, cfg, ac, j'), ac);
        assert forall j' :: i <= j' < j ==> !RoundRobinReady(s, Slot(s, cfg, ac, j'), ac);
      }
    }
  }

  /**
   * The round-robin scan starts at the cursor, visits every unicast slot
   * once in cyclic order, picks the first ready one, and finds none exactly
   * when no unicast slot is ready.
   */
  lemma RoundRobinMeaning(s: Sched, cfg: TxConfig, ac: nat)
    requires SchedOk(s, cfg) && ac < AC_MAX
    ensures RoundRobin(s, cfg, ac, 0).None? <==>
      forall p :: 0 <= p < cfg.maxPeers ==> !RoundRobinReady(s, p, ac)
    ensures RoundRobin(s, cfg, ac, 0).Some? ==>
      exists j :: 0 <= j < cfg.maxPeers && RoundRobin(s, cfg, ac, 0).value == Slot(s, cfg, ac, j)
        && forall j' :: 0 <= j' < j ==> !RoundRobinReady(s, Slot(s, cfg, ac, j'), ac)
  {
    RoundRobinScan(s, cfg, ac, 0);
    var m, c := cfg.maxPeers, s.cursor[ac];
    if RoundRobin(s, cfg, ac, 0).None? {
      forall p | 0 <= p < m
        ensures !RoundRobinReady(s, p, ac)
      {
        var j := if p >= c then p - c else p + m - c;
        ModBelowTwice(c + j, m);
        assert Slot(s, cfg, ac, j) == p;
      }
    }
  }

  /**
   * Selection by class: the multicast class always yields the pseudo-peer
   * MAX_PEERS; otherwise the first ready wake-up list entry, which spends one
   * power-save token; otherwise the round-robin choice, which moves the
   * cursor one past it; otherwise -1 with the state unchanged.
   */
  lemma PickMeaning(s: Sched, cfg: TxConfig, ac: nat)
    requires SchedOk(s, cfg) && ac < AC_MAX && ac != AC_MC
    ensures var (s', p) := Pick(s, cfg, ac);
      && ((exists k :: 0 <= k < |s.wakeup| && WakeupReady(s, s.wakeup[k], ac)) ==>
            p in s.wakeup && WakeupReady(s, p, ac) && s'.cursor == s.cursor
            && s'.peers == s.peers[p := s.peers[p].(psTokenCount := s.peers[p].psTokenCount - 1)])
      && ((forall k :: 0 <= k < |s.wakeup| ==> !WakeupReady(s, s.wakeup[k], ac)) ==>
            s'.peers == s.peers
            && (p == -1 <==> forall q :: 0 <= q < cfg.maxPeers ==> !RoundRobinReady(s, q, ac))
            && (p != -1 ==> RoundRobinReady(s, p, ac) && s'.cursor == s.cursor[ac := (p + 1) % cfg.maxPeers])
            && (p == -1 ==> s' == s))
  {
    WakeupPickMeaning(s, cfg, ac, 0);
    RoundRobinMeaning(s, cfg, ac);
  }

  /** `TX_BUF_HEADROOM + size` summed over the first `i` frames of `q`: the
   *  running `ampdu_len` once frame `i - 1` has been looked at. */
  function Cost(q: seq<TxFrame>, i: nat, headroom: nat): nat
    requires i <= |q|
  {
    if i == 0 then 0 else Cost(q, i - 1, headroom) + headroom + |q[i - 1].data|
  }

  /** The checks the aggregation loop of `_tx_pending_process` applies to the
   *  head frame `f`, with `txqLen` frames already in the transmit queue and
   *  `ampdu` the running length including `f`. */
  predicate Admits(f: TxFrame, first: TxFrame, legacy: bool, awake: bool, txqLen: nat, ampdu: int, cfg: TxConfig)
  {
    && ampdu < cfg.availAmpduLenPerToken
    && CanXmit(f.emergency, awake)
    && !legacy
    && Dest(f) == Dest(first) && Src(f) == Src(first)
    && txqLen < cfg.maxTxAggregation
  }

  /** The number of frames the aggregation loop moves from `q`, from position
   *  `i` on, onto a transmit queue that held `txqLen` frames at the start. */
  function Batch(q: seq<TxFrame>, legacy: bool, awake: bool, txqLen: nat, cfg: TxConfig, i: nat): (k: nat)
    requires 0 < |q| && i <= |q|
    ensures i + k <= |q|
    ensures txqLen + i <= cfg.maxTxAggregation ==> txqLen + i + k <= cfg.maxTxAggregation
    decreases |q| - i
  {
    if i == |q| then 0
    else if !Admits(q[i], q[0], legacy, awake, txqLen + i, Cost(q, i + 1, cfg.txBufHeadroom), cfg) then 0
    else 1 + Batch(q, legacy, awake, txqLen, cfg, i + 1)
  }

  /** One step of `Batch`: the frame at `i` joins when it passes the checks. */
  lemma BatchStep(q: seq<TxFrame>, legacy: bool, awake: bool, txqLen: nat, cfg: TxConfig, i: nat)
    requires 0 < |q| && i < |q|
    ensures Cost(q, i + 1, cfg.txBufHeadroom) == Cost(q, i, cfg.txBufHeadroom) + cfg.txBufHeadroom + |q[i].data|
    ensures Batch(q, legacy, awake, txqLen, cfg, i) ==
      if Admits(q[i], q[0], legacy, awake, txqLen + i, Cost(q, i + 1, cfg.txBufHeadroom), cfg)
      then 1 + Batch(q, legacy, awake, txqLen, cfg, i + 1) else 0
  {
  }

  /**
   * Every frame the aggregation loop batches passed every check in turn (same
   * addresses as the first frame, transmit allowed, peer not legacy, room in
   * the transmit queue, running length with it below the per-token budget);
   * the frame it stops at, if any, fails one of them.
   */
  lemma {:induction false} BatchMeaning(q: seq<TxFrame>, legacy: bool, awake: bool, txqLen: nat, cfg: TxConfig, i: nat)
    requires 0 < |q| && i <= |q|
    ensures var k := Batch(q, legacy, awake, txqLen, cfg, i);
      && (forall j :: i <= j < i + k ==>
            Admits(q[j], q[0], legacy, awake, txqLen + j, Cost(q, j + 1, cfg.txBufHeadroom), cfg))
      && (i + k < |q| ==>
            !Admits(q[i + k], q[0], legacy, awake, txqLen + i + k, Cost(q, i + k + 1, cfg.txBufHeadroom), cfg))
  {
    BatchAdmitted(q, legacy, awake, txqLen, cfg, i);
    BatchStops(q, legacy, awake, txqLen, cfg, i);
  }

  lemma {:induction false} BatchAdmitted(q: seq<TxFrame>, legacy: bool, awake: bool, txqLen: nat, cfg: TxConfig, i: nat)
    requires 0 < |q| && i <= |q|
    ensures forall j :: i <= j < i + Batch(q, legacy, awake, txqLen, cfg, i) ==>
      Admits(q[j], q[0], legacy, awake, txqLen + j, Cost(q, j + 1, cfg.txBufHeadroom), cfg)
    decreases |q| - i
  {
    if i < |q| && Admits(q[i], q[0], legacy, awake, txqLen + i, Cost(q, i + 1, cfg.txBufHeadroom), cfg) {
      assert Batch(q, legacy, awake, txqLen, cfg, i) == 1 + Batch(q, legacy, awake, txqLen, cfg, i + 1);
      BatchAdmitted(q, legacy, awake, txqLen, cfg, i + 1);
    }
  }

  lemma {:induction false} BatchStops(q: seq<TxFrame>, legacy: bool, awake: bool, txqLen: nat, cfg: TxConfig, i: nat)
    requires 0 < |q| && i <= |q|
    ensures var k := Batch(q, legacy, awake, txqLen, cfg, i);
      i + k < |q| ==>
        !Admits(q[i + k], q[0], legacy, awake, txqLen + i + k, Cost(q, i + k + 1, cfg.txBufHeadroom), cfg)
    decreases |q| - i
  {
    if i < |q| && Admits(q[i], q[0], legacy, awake, txqLen + i, Cost(q, i + 1, cfg.txBufHeadroom), cfg) {
      var k' := Batch(q, legacy, awake, txqLen, cfg, i + 1);
      assert Batch(q, legacy, awake, txqLen, cfg, i) == 1 + k';
      BatchStops(q, legacy, awake, txqLen, cfg, i + 1);
      assert i + 1 + k' == i + (1 + k');
    }
  }

  /** The number of frames `_tx_pending_process` moves from the chosen queue
   *  `q` to a transmit queue already holding `txqLen` frames: the batch, or
   *  when the batch is empty and so is the transmit queue, the head frame
   *  alone if it may be sent. */
  function Take(q: seq<TxFrame>, legacy: bool, awake: bool, txqLen: nat, cfg: TxConfig): (t: nat)
    requires |q| > 0
    ensures t <= |q|
  {
    var k := Batch(q, legacy, awake, txqLen, cfg, 0);
    if txqLen > 0 || k > 0 then k
    else if CanXmit(q[0].emergency, awake) then 1
    else 0
  }

  function SetQueue(pending: seq<seq<seq<TxFrame>>>, p: nat, ac: nat, q: seq<TxFrame>): seq<seq<seq<TxFrame>>>
    requires p < |pending| && ac < |pending[p]|
  {
    pending[p := pending[p][ac := q]]
  }

  /** `update_pend_q_bmp` on the peer table: for a unicast peer of an AP
   *  interface, bit `ac` of its pending-frames bitmap records whether its
   *  queue of that class is non-empty. */
  function BmpUpdate(peers: seq<PeerInfo>, pending: seq<seq<seq<TxFrame>>>, p: nat, ac: nat, cfg: TxConfig)
    : (r: seq<PeerInfo>)
    requires p < |peers| && p < |pending| && ac < |pending[p]|
    ensures |r| == |peers| && CountersOnly(peers, r)
    ensures forall i :: 0 <= i < |peers| && i != p ==> r[i] == peers[i]
    ensures UpdatesBmp(peers, p, cfg) ==>
      r[p] == peers[p].(pendQBmp := r[p].pendQBmp) && (ac in r[p].pendQBmp <==> |pending[p][ac]| > 0)
      && forall a :: a != ac ==> (a in r[p].pendQBmp <==> a in peers[p].pendQBmp)
    ensures !UpdatesBmp(peers, p, cfg) ==> r == peers
  {
    if UpdatesBmp(peers, p, cfg) then
      var bmp := peers[p].pendQBmp;
      peers[p := peers[p].(pendQBmp := if |pending[p][ac]| == 0 then bmp - {ac} else bmp + {ac})]
    else peers
  }

  /** The pending-frames bitmap is kept (and written to the RPU) only for
   *  unicast peers of an AP interface. */
  predicate UpdatesBmp(peers: seq<PeerInfo>, p: nat, cfg: TxConfig)
    requires p < |peers|
  {
    cfg.ifTypeOf(peers[p].ifIdx) == Ap && p < cfg.maxPeers
  }

  /**
   * The second half of `_tx_pending_process(desc, ac)`, once `peer` is
   * chosen: moves frames from the head of its queue of class `ac` to the end
   * of the transmit queue of `desc`, records the peer and updates its
   * pending-frames bit; returns the new length of the transmit queue, or 0
   * with nothing changed when nothing could be queued.
   */
  function Move(s: Sched, cfg: TxConfig, awake: bool, desc: nat, peer: nat, ac: nat): (r: (Sched, nat))
    requires SchedOk(s, cfg) && peer <= cfg.maxPeers && ac < AC_MAX && desc < cfg.numTxTokens
    ensures SchedOk(r.0, cfg) && CountersOnly(s.peers, r.0.peers)
    ensures r.0.wakeup == s.wakeup && r.0.cursor == s.cursor
    ensures r.0.txq[desc] + r.0.pending[peer][ac] == s.txq[desc] + s.pending[peer][ac]
    ensures forall p, a :: 0 <= p < |s.pending| && 0 <= a < AC_MAX && (p != peer || a != ac) ==>
      r.0.pending[p][a] == s.pending[p][a]
    ensures forall d :: 0 <= d < |s.txq| && d != desc ==> r.0.txq[d] == s.txq[d] && r.0.txqPeer[d] == s.txqPeer[d]
    ensures r.1 == 0 ==> r.0 == s
    ensures r.1 > 0 ==> r.1 == |r.0.txq[desc]| && r.0.txqPeer[desc] == peer
    ensures |s.txq[desc]| <= cfg.maxTxAggregation && cfg.maxTxAggregation > 0 ==>
      |r.0.txq[desc]| <= cfg.maxTxAggregation
  {
    var q := s.pending[peer][ac];
    if |q| == 0 then (s, 0)
    else
      var t := Take(q, s.peers[peer].isLegacy, awake, |s.txq[desc]|, cfg);
      if |s.txq[desc]| == 0 && t == 0 then (s, 0)
      else
        assert |s.txq[desc]| <= cfg.maxTxAggregation && cfg.maxTxAggregation > 0 ==>
          |s.txq[desc]| + t <= cfg.maxTxAggregation by {
          if |s.txq[desc]| <= cfg.maxTxAggregation && cfg.maxTxAggregation > 0 {
            TakeBound(q, s.peers[peer].isLegacy, awake, |s.txq[desc]|, cfg);
          }
        }
        var s' := Shift(s, cfg, desc, peer, ac, t);
        (s', |s'.txq[desc]|)
  }

  /** With a non-empty transmit queue below the cap, the batch keeps it
   *  within the cap; the single-frame fallback fills an empty queue to one. */
  lemma TakeBound(q: seq<TxFrame>, legacy: bool, awake: bool, txqLen: nat, cfg: TxConfig)
    requires |q| > 0 && txqLen <= cfg.maxTxAggregation && cfg.maxTxAggregation > 0
    ensures txqLen + Take(q, legacy, awake, txqLen, cfg) <= cfg.maxTxAggregation
  {
  }

  /** The state once the first `t` frames of queue (`peer`, `ac`) are moved
   *  to the end of the transmit queue of `desc` on behalf of `peer`, with the
   *  peer's pending-frames bit updated. */
  function Shift(s: Sched, cfg: TxConfig, desc: nat, peer: nat, ac: nat, t: nat): (r: Sched)
    requires SchedOk(s, cfg) && peer <= cfg.maxPeers && ac < AC_MAX && desc < cfg.numTxTokens
    requires t <= |s.pending[peer][ac]|
    ensures SchedOk(r, cfg) && CountersOnly(s.peers, r.peers)
    ensures r.wakeup == s.wakeup && r.cursor == s.cursor
    ensures r.txq[desc] == s.txq[desc] + s.pending[peer][ac][..t]
    ensures r.pending[peer][ac] == s.pending[peer][ac][t..]
    ensures r.txq[desc] + r.pending[peer][ac] == s.txq[desc] + s.pending[peer][ac]
    ensures forall p, a :: 0 <= p < |s.pending| && 0 <= a < AC_MAX && (p != peer || a != ac) ==>
      r.pending[p][a] == s.pending[p][a]
    ensures forall d :: 0 <= d < |s.txq| && d != desc ==> r.txq[d] == s.txq[d] && r.txqPeer[d] == s.txqPeer[d]
    ensures r.txqPeer[desc] == peer
  {
    var q := s.pending[peer][ac];
    assert (s.txq[desc] + q[..t]) + q[t..] == s.txq[desc] + q by {
      assert q[..t] + q[t..] == q;
    }
    var pending' := SetQueue(s.pending, peer, ac, q[t..]);
    s.(pending := pending',
       txq := s.txq[desc := s.txq[desc] + q[..t]],
       txqPeer := s.txqPeer[desc := peer],
       peers := BmpUpdate(s.peers, pending', peer, ac, cfg))
  }

  /** Counter updates keep every live slot's id. */
  lemma CountersKeepIds(before: seq<PeerInfo>, after: seq<PeerInfo>, maxPeers: nat)
    requires maxPeers <= |before| && CountersOnly(before, after) && IdsMatchSlots(before, maxPeers)
    ensures IdsMatchSlots(after, maxPeers)
  {
  }

  /** `Move` when something is queued: `Shift` by `Take` frames. */
  lemma MoveShifts(s: Sched, cfg: TxConfig, awake: bool, desc: nat, peer: nat, ac: nat, t: nat)
    requires SchedOk(s, cfg) && peer <= cfg.maxPeers && ac < AC_MAX && desc < cfg.numTxTokens
    requires |s.pending[peer][ac]| > 0
    requires t == Take(s.pending[peer][ac], s.peers[peer].isLegacy, awake, |s.txq[desc]|, cfg)
    requires |s.txq[desc]| + t > 0
    ensures t <= |s.pending[peer][ac]|
    ensures Move(s, cfg, awake, desc, peer, ac) == (Shift(s, cfg, desc, peer, ac, t), |s.txq[desc]| + t)
  {
  }

  /**
   * What `Move` does to the two queues: the first `Take` frames of the
   * pending queue, in their order, are appended to the transmit queue and
   * the rest stay pending; nothing moves when the pending queue is empty or
   * when neither queue would hold a frame afterwards.
   */
  lemma MoveMeaning(s: Sched, cfg: TxConfig, awake: bool, desc: nat, peer: nat, ac: nat)
    requires SchedOk(s, cfg) && peer <= cfg.maxPeers && ac < AC_MAX && desc < cfg.numTxTokens
    ensures var q := s.pending[peer][ac];
      var (s', len) := Move(s, cfg, awake, desc, peer, ac);
      && (len == 0 <==> |q| == 0 || (|s.txq[desc]| == 0 && Take(q, s.peers[peer].isLegacy, awake, 0, cfg) == 0))
      && (len > 0 ==>
            var t := Take(q, s.peers[peer].isLegacy, awake, |s.txq[desc]|, cfg);
            s'.txq[desc] == s.txq[desc] + q[..t] && s'.pending[peer][ac] == q[t..])
  {
  }

  /**
   * `_tx_pending_process(desc, ac)`: picks a peer for class `ac` and, when
   * there is one, moves its frames to the transmit queue of `desc`.
   */
  function Inner(s: Sched, cfg: TxConfig, awake: bool, desc: nat, ac: nat): (r: (Sched, nat))
    requires SchedOk(s, cfg) && ac < AC_MAX && desc < cfg.numTxTokens
    ensures SchedOk(r.0, cfg) && CountersOnly(s.peers, r.0.peers)
    ensures r.0.wakeup == s.wakeup
    ensures r.1 == 0 ==> r.0.txq == s.txq && r.0.pending == s.pending && r.0.txqPeer == s.txqPeer
    ensures r.1 > 0 ==> |r.0.txq[desc]| == r.1
    ensures Bounded(s, cfg) ==> r.1 <= cfg.maxTxAggregation
  {
    var (s1, peer) := Pick(s, cfg, ac);
    if peer == -1 then (s1, 0) else Move(s1, cfg, awake, desc, peer, ac)
  }

  /**
   * The refill loop of `tx_buff_req_free`: tries classes `cnt` down to
   * `endAc` and stops at the first that queues frames on `desc`; returns the
   * state, the number of frames queued and the class (or -1). A refill that
   * queues nothing moves no frame: only peer selection state may change.
   */
  function Refill(s: Sched, cfg: TxConfig, awake: bool, desc: nat, cnt: int, endAc: nat): (r: (Sched, nat, int))
    requires SchedOk(s, cfg) && cnt < AC_MAX && desc < cfg.numTxTokens
    ensures r.1 > 0 <==> r.2 != -1
    ensures r.2 != -1 ==> endAc <= r.2 <= cnt
    ensures |r.0.txq| == |s.txq| && (r.1 > 0 ==> |r.0.txq[desc]| == r.1)
    decreases cnt + 1 - endAc, 2
  {
    if cnt < endAc then (s, 0, -1) else RefillFrom(s, cfg, awake, desc, cnt, endAc)
  }

  /**
   * `Refill` once class `cnt` is known to be in range. It only hands over
   * to `TryClass`, so that a proof unfolding `Refill` reaches the scheduler
   * functions only when it asks for them.
   */
  function RefillFrom(s: Sched, cfg: TxConfig, awake: bool, desc: nat, cnt: nat, endAc: nat): (r: (Sched, nat, int))
    requires SchedOk(s, cfg) && endAc <= cnt < AC_MAX && desc < cfg.numTxTokens
    ensures r.1 > 0 <==> r.2 != -1
    ensures r.2 != -1 ==> endAc <= r.2 <= cnt
    ensures |r.0.txq| == |s.txq| && (r.1 > 0 ==> |r.0.txq[desc]| == r.1)
    decreases cnt + 1 - endAc, 1
  {
    TryClass(s, cfg, awake, desc, cnt, endAc)
  }

  /** Class `cnt` is tried; the next one only when it queues nothing. */
  function TryClass(s: Sched, cfg: TxConfig, awake: bool, desc: nat, cnt: nat, endAc: nat): (r: (Sched, nat, int))
    requires SchedOk(s, cfg) && endAc <= cnt < AC_MAX && desc < cfg.numTxTokens
    ensures r.1 > 0 <==> r.2 != -1
    ensures r.2 != -1 ==> endAc <= r.2 <= cnt
    ensures |r.0.txq| == |s.txq| && (r.1 > 0 ==> |r.0.txq[desc]| == r.1)
    decreases cnt + 1 - endAc, 0
  {
    var (s1, k) := Inner(s, cfg, awake, desc, cnt);
    if k > 0 then (s1, k, cnt) else Refill(s1, cfg, awake, desc, cnt - 1, endAc)
  }

  /**
   * What a refill leaves: the scheduler state stays well formed, the peer
   * table changes only in its counters and the wake-up list not at all; a
   * refill that queues nothing moves no frame.
   */
  lemma {:induction false} RefillKeeps(s: Sched, cfg: TxConfig, awake: bool, desc: nat, cnt: int, endAc: nat)
    requires SchedOk(s, cfg) && cnt < AC_MAX && desc < cfg.numTxTokens
    ensures var r := Refill(s, cfg, awake, desc, cnt, endAc);
      && SchedOk(r.0, cfg) && CountersOnly(s.peers, r.0.peers)
      && r.0.wakeup == s.wakeup
      && (r.1 == 0 ==> r.0.txq == s.txq && r.0.pending == s.pending && r.0.txqPeer == s.txqPeer)
    decreases cnt + 1 - endAc
  {
    if cnt >= endAc {
      RefillStep(s, cfg, awake, desc, cnt, endAc);
      var (s1, k) := Inner(s, cfg, awake, desc, cnt);
      if k == 0 {
        RefillKeeps(s1, cfg, awake, desc, cnt - 1, endAc);
      }
    }
  }

  /** One step of the refill loop: the class `cnt` is tried first. */
  lemma RefillStep(s: Sched, cfg: TxConfig, awake: bool, desc: nat, cnt: nat, endAc: nat)
    requires SchedOk(s, cfg) && endAc <= cnt < AC_MAX && desc < cfg.numTxTokens
    ensures var (s1, k) := Inner(s, cfg, awake, desc, cnt);
      Refill(s, cfg, awake, desc, cnt, endAc) == if k > 0 then (s1, k, cnt) else Refill(s1, cfg, awake, desc, cnt - 1, endAc)
  {
    assert Refill(s, cfg, awake, desc, cnt, endAc) == RefillFrom(s, cfg, awake, desc, cnt, endAc)
        == TryClass(s, cfg, awake, desc, cnt, endAc);
  }

  /** `pending_frames_count`: frames pending for a peer in the four WMM
   *  classes (`ac` from VO down to BK; the multicast queue is not counted). */
  function PendingTotal(queues: seq<seq<TxFrame>>, upTo: nat): nat
    requires upTo <= |queues|
  {
    if upTo == 0 then 0 else PendingTotal(queues, upTo - 1) + |queues[upTo - 1]|
  }

  lemma {:induction false} PendingTotalZero(queues: seq<seq<TxFrame>>, upTo: nat)
    requires upTo <= |queues|
    ensures PendingTotal(queues, upTo) == 0 <==> forall a :: 0 <= a < upTo ==> |queues[a]| == 0
  {
    if upTo > 0 {
      PendingTotalZero(queues, upTo - 1);
    }
  }

  /** The position of the first occurrence of `p` in `l`. */
  function IndexOf(l: seq<nat>, p: nat): (i: nat)
    requires p in l
    ensures i < |l| && l[i] == p && p !in l[..i]
  {
    if l[0] == p then 0
    else
      assert l == [l[0]] + l[1..];
      var j := IndexOf(l[1..], p);
      assert l[..j + 1] == [l[0]] + l[1..][..j];
      j + 1
  }

  /** `nrf_wifi_utils_list_del_node` of a peer on the wake-up list: the
   *  first node holding the peer is unlinked; the list is unchanged when the
   *  peer is not on it. */
  function Without(l: seq<nat>, p: nat): (r: seq<nat>)
    ensures p !in l ==> r == l
    ensures p in l ==> r == l[..IndexOf(l, p)] + l[IndexOf(l, p) + 1..]
  {
    if |l| == 0 then []
    else if l[0] == p then
      assert l == [l[0]] + l[1..];
      l[1..]
    else
      assert l == [l[0]] + l[1..];
      WithoutCons(l, p, Without(l[1..], p));
      [l[0]] + Without(l[1..], p)
  }

  /** The step of `Without` past a head that is not the peer: the first
   *  occurrence in the tail is the first in the whole list. */
  lemma WithoutCons(l: seq<nat>, p: nat, w: seq<nat>)
    requires |l| > 0 && l[0] != p
    requires p in l[1..] ==> w == l[1..][..IndexOf(l[1..], p)] + l[1..][IndexOf(l[1..], p) + 1..]
    ensures p in l ==> [l[0]] + w == l[..IndexOf(l, p)] + l[IndexOf(l, p) + 1..]
  {
    if p in l {
      var t := l[1..];
      assert l == [l[0]] + t;
      assert p in t;
      var i, j := IndexOf(l, p), IndexOf(t, p);
      assert i == j + 1;
      assert l[..i] == [l[0]] + t[..j];
      assert l[i + 1..] == t[j + 1..];
    }
  }

  /** Deleting a peer takes exactly one copy of it off the list, when
   *  there is one. */
  lemma {:induction false} WithoutMultiset(l: seq<nat>, p: nat)
    ensures multiset(Without(l, p)) + (if p in l then multiset{p} else multiset{}) == multiset(l)
  {
    if |l| > 0 {
      var t := l[1..];
      assert l == [l[0]] + t;
      WithoutMultiset(t, p);
      if l[0] != p {
        assert Without(l, p) == [l[0]] + Without(t, p);
        assert p in l <==> p in t;
      }
    }
  }

  /** On a wake-up list that holds each peer at most once, deleting a peer
   *  removes it altogether and keeps the list free of repeats. */
  lemma WithoutDistinct(l: seq<nat>, p: nat)
    requires forall i, j :: 0 <= i < j < |l| ==> l[i] != l[j]
    ensures p !in Without(l, p)
    ensures forall x :: x in Without(l, p) <==> x in l && x != p
    ensures forall i, j :: 0 <= i < j < |Without(l, p)| ==> Without(l, p)[i] != Without(l, p)[j]
  {
    var r := Without(l, p);
    if p in l {
      RemoveAtDistinct(l, IndexOf(l, p));
    }
  }

  /** Removing entry `i` of a list without repeats leaves a list without
   *  repeats holding exactly the other entries. */
  lemma RemoveAtDistinct(l: seq<nat>, i: nat)
    requires i < |l|
    requires forall a, b :: 0 <= a < b < |l| ==> l[a] != l[b]
    ensures var r := l[..i] + l[i + 1..];
      && (forall x :: x in r <==> x in l && x != l[i])
      && (forall a, b :: 0 <= a < b < |r| ==> r[a] != r[b])
  {
    var r := l[..i] + l[i + 1..];
    assert |r| == |l| - 1;
    assert forall k :: 0 <= k < |r| ==> r[k] == l[if k < i then k else k + 1];
    forall x | x in l && x != l[i]
      ensures x in r
    {
      var k :| 0 <= k < |l| && l[k] == x;
      assert r[if k < i then k else k - 1] == x;
    }
  }

  /** Deleting from the wake-up list keeps every entry below a bound. */
  lemma {:induction false} WithoutBelow(l: seq<nat>, p: nat, bound: nat)
    requires forall k :: 0 <= k < |l| ==> l[k] < bound
    ensures forall k :: 0 <= k < |Without(l, p)| ==> Without(l, p)[k] < bound
  {
    if |l| > 0 {
      WithoutBelow(l[1..], p, bound);
    }
  }
}
