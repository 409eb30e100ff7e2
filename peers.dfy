/**
 * The peer table (`tx_config.peers`): MAX_PEERS unicast slots, a slot being
 * free when its `peer_id` is -1, plus one extra slot at index MAX_PEERS for the
 * group-addressed pseudo-peer of an access point.
 */
module Peers {
  import opened Common
  import FmacUtil
  import opened TxClassify

  /** `struct peers_info`. `pendQBmp` is the pending-frames byte, modelled as
   *  the set of its set bits. */
  datatype PeerInfo = PeerInfo(
    peerId: int,
    ra: MacAddr,
    ifIdx: nat,
    isLegacy: bool,
    qosSupported: bool,
    powerSave: bool,
    psTokenCount: nat,
    pendQBmp: set<nat>)

  const ZeroAddr: MacAddr := [0, 0, 0, 0, 0, 0]

  /** A slot after `memset(peer, 0, ...)` and `peer_id = -1`. */
  const FreePeer := PeerInfo(-1, ZeroAddr, 0, false, false, false, 0, {})

  predicate Live(p: PeerInfo)
  {
    p.peerId != -1
  }

  /**
   * The id `nrf_wifi_fmac_peer_get_id` returns, scanning the unicast slots
   * from index `i`: group addresses map to MAX_PEERS, otherwise the id of the
   * first live slot holding the address, or -1.
   */
  function LookupFrom(peers: seq<PeerInfo>, maxPeers: nat, addr: MacAddr, i: nat): int
    requires maxPeers <= |peers| && i <= maxPeers
    decreases maxPeers - i
  {
    if i == maxPeers then -1
    else if Live(peers[i]) && peers[i].ra == addr then peers[i].peerId
    else LookupFrom(peers, maxPeers, addr, i + 1)
  }

  function LookupId(peers: seq<PeerInfo>, maxPeers: nat, addr: MacAddr): int
    requires maxPeers <= |peers|
  {
    if FmacUtil.IsMulticastAddr(addr) then maxPeers else LookupFrom(peers, maxPeers, addr, 0)
  }

  /** The lowest live unicast slot at or above `i` holding `addr`, if any. */
  predicate FirstMatchFrom(peers: seq<PeerInfo>, maxPeers: nat, addr: MacAddr, i: nat, j: nat)
    requires maxPeers <= |peers|
  {
    i <= j < maxPeers && Live(peers[j]) && peers[j].ra == addr
    && forall k :: i <= k < j ==> !(Live(peers[k]) && peers[k].ra == addr)
  }

  lemma {:induction false} LookupFromMeaning(peers: seq<PeerInfo>, maxPeers: nat, addr: MacAddr, i: nat)
    requires maxPeers <= |peers| && i <= maxPeers
    ensures LookupFrom(peers, maxPeers, addr, i) == -1 ==>
              forall k :: i <= k < maxPeers ==> !(Live(peers[k]) && peers[k].ra == addr)
    ensures LookupFrom(peers, maxPeers, addr, i) != -1 ==>
              exists j: nat :: FirstMatchFrom(peers, maxPeers, addr, i, j)
                && LookupFrom(peers, maxPeers, addr, i) == peers[j].peerId
    decreases maxPeers - i
  {
    if i < maxPeers && !(Live(peers[i]) && peers[i].ra == addr) {
      LookupFromMeaning(peers, maxPeers, addr, i + 1);
      var r := LookupFrom(peers, maxPeers, addr, i + 1);
      if r != -1 {
        var j: nat :| FirstMatchFrom(peers, maxPeers, addr, i + 1, j) && r == peers[j].peerId;
        assert FirstMatchFrom(peers, maxPeers, addr, i, j);
      }
    } else if i < maxPeers {
      assert FirstMatchFrom(peers, maxPeers, addr, i, i);
    }
  }

  /**
   * Meaning of `get_id`: MAX_PEERS for a group address whatever the table
   * holds; otherwise -1 exactly when no live unicast slot holds the address,
   * and else the id stored in the lowest live slot that does.
   */
  lemma LookupIdMeaning(peers: seq<PeerInfo>, maxPeers: nat, addr: MacAddr)
    requires maxPeers <= |peers|
    ensures FmacUtil.IsMulticastAddr(addr) ==> LookupId(peers, maxPeers, addr) == maxPeers
    ensures !FmacUtil.IsMulticastAddr(addr) ==>
      (LookupId(peers, maxPeers, addr) == -1 <==>
         forall k :: 0 <= k < maxPeers ==> !(Live(peers[k]) && peers[k].ra == addr))
    ensures !FmacUtil.IsMulticastAddr(addr) && LookupId(peers, maxPeers, addr) != -1 ==>
      exists j: nat :: FirstMatchFrom(peers, maxPeers, addr, 0, j) && LookupId(peers, maxPeers, addr) == peers[j].peerId
  {
    LookupFromMeaning(peers, maxPeers, addr, 0);
  }

  /** Every live unicast slot stores its own index as its id. */
  predicate IdsMatchSlots(peers: seq<PeerInfo>, maxPeers: nat)
    requires maxPeers <= |peers|
  {
    forall i :: 0 <= i < maxPeers ==> peers[i].peerId == -1 || peers[i].peerId == i
  }

  /** With ids matching their slots, a lookup yields -1 or a peer id of the
   *  table, MAX_PEERS included. */
  lemma LookupIdRange(peers: seq<PeerInfo>, maxPeers: nat, addr: MacAddr)
    requires maxPeers < |peers| && IdsMatchSlots(peers, maxPeers)
    ensures -1 <= LookupId(peers, maxPeers, addr) <= maxPeers
  {
    LookupIdMeaning(peers, maxPeers, addr);
    if !FmacUtil.IsMulticastAddr(addr) && LookupId(peers, maxPeers, addr) != -1 {
      var j: nat :| FirstMatchFrom(peers, maxPeers, addr, 0, j) && LookupId(peers, maxPeers, addr) == peers[j].peerId;
    }
  }

  /** The first free unicast slot, as the `add` loop finds it. */
  function FirstFree(peers: seq<PeerInfo>, maxPeers: nat, i: nat): (r: nat)
    requires maxPeers <= |peers| && i <= maxPeers
    ensures i <= r <= maxPeers
    ensures r < maxPeers ==> !Live(peers[r])
    ensures forall k :: i <= k < r ==> Live(peers[k])
    decreases maxPeers - i
  {
    if i == maxPeers || !Live(peers[i]) then i else FirstFree(peers, maxPeers, i + 1)
  }

  /** The table after `remove(if_idx, peer_id)`. */
  function RemoveSpec(peers: seq<PeerInfo>, maxPeers: nat, ifIdx: nat, peerId: int): seq<PeerInfo>
    requires maxPeers <= |peers|
  {
    if peerId == -1 || peerId >= maxPeers || peerId < 0 then peers
    else if !Live(peers[peerId]) || peers[peerId].peerId >= maxPeers || peers[peerId].ifIdx != ifIdx then peers
    else peers[peerId := FreePeer]
  }

  /** Removing twice is removing once. */
  lemma RemoveIdempotent(peers: seq<PeerInfo>, maxPeers: nat, ifIdx: nat, peerId: int)
    requires maxPeers <= |peers|
    ensures RemoveSpec(RemoveSpec(peers, maxPeers, ifIdx, peerId), maxPeers, ifIdx, peerId)
            == RemoveSpec(peers, maxPeers, ifIdx, peerId)
  {
  }

  /**
   * After `add` fills the first free slot `i` with `addr`, `get_id(addr)`
   * returns `i` unless a lower slot (all of which are live) already held
   * the address: `add` does not de-duplicate.
   */
  lemma {:induction false} LookupAfterAdd(peers: seq<PeerInfo>, maxPeers: nat, addr: MacAddr, entry: PeerInfo)
    requires maxPeers <= |peers| && IdsMatchSlots(peers, maxPeers)
    requires !FmacUtil.IsMulticastAddr(addr)
    requires FirstFree(peers, maxPeers, 0) < maxPeers
    requires var i := FirstFree(peers, maxPeers, 0); entry.peerId == i && entry.ra == addr
    ensures var i := FirstFree(peers, maxPeers, 0);
      var before := LookupId(peers, maxPeers, addr);
      LookupId(peers[i := entry], maxPeers, addr) == if 0 <= before < i then before else i
  {
    var i := FirstFree(peers, maxPeers, 0);
    var q := peers[i := entry];
    LookupIdMeaning(peers, maxPeers, addr);
    LookupIdMeaning(q, maxPeers, addr);
    var before := LookupId(peers, maxPeers, addr);
    if exists j: nat :: 0 <= j < i && peers[j].ra == addr {
      var j: nat :| 0 <= j < i && peers[j].ra == addr;
      LowestBelow(peers, maxPeers, addr, j);
      var m: nat :| FirstMatchFrom(peers, maxPeers, addr, 0, m) && m <= j;
      assert FirstMatchFrom(q, maxPeers, addr, 0, m);
      FirstMatchUnique(peers, maxPeers, addr, m);
      FirstMatchUnique(q, maxPeers, addr, m);
    } else {
      assert FirstMatchFrom(q, maxPeers, addr, 0, i);
      FirstMatchUnique(q, maxPeers, addr, i);
      if before != -1 {
        var j: nat :| FirstMatchFrom(peers, maxPeers, addr, 0, j) && before == peers[j].peerId;
        assert j >= i;
        assert before == j;
      }
    }
  }

  /** A live match at `j` below the first free slot gives a lowest match at or below `j`. */
  lemma {:induction false} LowestBelow(peers: seq<PeerInfo>, maxPeers: nat, addr: MacAddr, j: nat)
    requires maxPeers <= |peers| && j < FirstFree(peers, maxPeers, 0) && peers[j].ra == addr
    ensures exists m: nat :: m <= j && FirstMatchFrom(peers, maxPeers, addr, 0, m)
    decreases j
  {
    if exists k :: 0 <= k < j && peers[k].ra == addr {
      var k :| 0 <= k < j && peers[k].ra == addr;
      LowestBelow(peers, maxPeers, addr, k);
    } else {
      assert FirstMatchFrom(peers, maxPeers, addr, 0, j);
    }
  }

  lemma FirstMatchUnique(peers: seq<PeerInfo>, maxPeers: nat, addr: MacAddr, m: nat)
    requires maxPeers <= |peers| && FirstMatchFrom(peers, maxPeers, addr, 0, m)
    ensures forall j: nat :: FirstMatchFrom(peers, maxPeers, addr, 0, j) ==> j == m
  {
  }

  class PeerTable {
    const maxPeers: nat
    /** `tx_config.peers`: MAX_PEERS unicast slots and the pseudo-peer slot. */
    var peers: seq<PeerInfo>

    ghost predicate Valid()
      reads this
    {
      |peers| == maxPeers + 1 && IdsMatchSlots(peers, maxPeers)
    }

    /** The table `tx_init` leaves: every unicast slot free, the pseudo-peer zeroed. */
    constructor (maxPeers: nat)
      ensures Valid() && this.maxPeers == maxPeers
      ensures forall i :: 0 <= i < maxPeers ==> peers[i] == FreePeer
      ensures peers[maxPeers] == FreePeer.(peerId := 0)
    {
      this.maxPeers := maxPeers;
      peers := seq(maxPeers, _ => FreePeer) + [FreePeer.(peerId := 0)];
    }

    /** `nrf_wifi_fmac_peer_get_id`. */
    method GetId(addr: MacAddr) returns (r: int)
      requires Valid()
      ensures r == LookupId(peers, maxPeers, addr)
      ensures -1 <= r <= maxPeers
    {
      if FmacUtil.IsMulticastAddr(addr) {
        return maxPeers;
      }
      var i := 0;
      while i < maxPeers
        invariant i <= maxPeers
        invariant LookupFrom(peers, maxPeers, addr, 0) == LookupFrom(peers, maxPeers, addr, i)
      {
        if peers[i].peerId != -1 && FmacUtil.EtherAddrEqual(addr, peers[i].ra) {
          return peers[i].peerId;
        }
        i := i + 1;
      }
      return -1;
    }

    /**
     * `nrf_wifi_fmac_peer_add`. A group address on an AP interface claims the
     * pseudo-peer slot (its `if_idx`, `peer_id` and `is_legacy` only); any other
     * address takes the first free unicast slot, or -1 when the table is full.
     */
    method Add(ifIdx: nat, addr: MacAddr, isLegacy: bool, qosSupported: bool, ifType: IfType)
      returns (r: int)
      requires Valid()
      modifies this`peers
      ensures Valid()
      ensures FmacUtil.IsMulticastAddr(addr) && ifType == Ap ==>
        r == maxPeers
        && peers == old(peers)[maxPeers := old(peers)[maxPeers].(ifIdx := ifIdx, peerId := maxPeers, isLegacy := true)]
      ensures !(FmacUtil.IsMulticastAddr(addr) && ifType == Ap) ==>
        var i := FirstFree(old(peers), maxPeers, 0);
        && (i == maxPeers ==> r == -1 && peers == old(peers))
        && (i < maxPeers ==> r == i && peers == old(peers)[i := old(peers)[i].(
              ra := addr, ifIdx := ifIdx, peerId := i, isLegacy := isLegacy, qosSupported := qosSupported)])
    {
      if FmacUtil.IsMulticastAddr(addr) && ifType == Ap {
        peers := peers[maxPeers := peers[maxPeers].(ifIdx := ifIdx, peerId := maxPeers, isLegacy := true)];
        return maxPeers;
      }
      var i := 0;
      while i < maxPeers
        invariant i <= maxPeers
        invariant FirstFree(peers, maxPeers, 0) == FirstFree(peers, maxPeers, i)
        invariant peers == old(peers)
      {
        if peers[i].peerId == -1 {
          peers := peers[i := peers[i].(ra := addr, ifIdx := ifIdx, peerId := i,
                                        isLegacy := isLegacy, qosSupported := qosSupported)];
          return i;
        }
        i := i + 1;
      }
      return -1;
    }

    /** `nrf_wifi_fmac_peer_remove`: frees a live unicast slot of interface `ifIdx`. */
    method Remove(ifIdx: nat, peerId: int)
      requires Valid()
      modifies this`peers
      ensures Valid()
      ensures peers == RemoveSpec(old(peers), maxPeers, ifIdx, peerId)
    {
      if peerId == -1 || peerId >= maxPeers || peerId < 0 {
        return;
      }
      var peer := peers[peerId];
      if peer.peerId == -1 || peer.peerId >= maxPeers || peer.ifIdx != ifIdx {
        return;
      }
      peers := peers[peerId := FreePeer];
    }

    /**
     * `nrf_wifi_fmac_peers_flush`: frees the pseudo-peer (its id only) and
     * every live unicast slot of interface `ifIdx`.
     */
    method Flush(ifIdx: nat)
      requires Valid()
      modifies this`peers
      ensures Valid()
      ensures peers[maxPeers] == old(peers)[maxPeers].(peerId := -1)
      ensures forall i :: 0 <= i < maxPeers ==>
        peers[i] == (if Live(old(peers)[i]) && old(peers)[i].ifIdx == ifIdx then FreePeer else old(peers)[i])
      ensures forall i :: 0 <= i < maxPeers ==> !(Live(peers[i]) && peers[i].ifIdx == ifIdx)
    {
      peers := peers[maxPeers := peers[maxPeers].(peerId := -1)];
      var i := 0;
      while i < maxPeers
        invariant i <= maxPeers && |peers| == maxPeers + 1
        invariant peers[maxPeers] == old(peers)[maxPeers].(peerId := -1)
        invariant forall k :: 0 <= k < i ==>
          peers[k] == (if Live(old(peers)[k]) && old(peers)[k].ifIdx == ifIdx then FreePeer else old(peers)[k])
        invariant forall k :: i <= k < maxPeers ==> peers[k] == old(peers)[k]
      {
        if peers[i].peerId != -1 && peers[i].ifIdx == ifIdx {
          peers := peers[i := FreePeer];
        }
        i := i + 1;
      }
    }
  }
}
