# nRF70 Wi-Fi host driver: verified model of the data plane

This project models, in Dafny, the host side of the nRF70 Wi-Fi driver. It is the code that sits between
the operating system's network stack and the RPU, the radio processor that runs the UMAC/LMAC firmware.
The model follows the nRF70 build without IPC. It covers these parts of the driver:

- **Transmit path** (`fw_if/umac_if/src/system/tx.c`), in several modules:
  - `TxClassify`: frame classification. The TID comes from the VLAN, MPLS, IPv4 or IPv6 header; TIDs map
    to access categories (AC); the receiver address is chosen by interface type.
  - `TxSpare`: the spare-descriptor bit map.
  - `TxAccount`: descriptor choice (reserved descriptors first, then spare ones), and an accounting
    invariant over the descriptor bitmap, the spare map and the per-AC outstanding counters.
  - `TxSched`: the per-peer pending queues, the wake-up list for power-save peers, the round-robin peer
    scheduler, aggregation into a descriptor, and the refill walk over ACs on completion.
  - `TxPlacement`: where a batch of frames lands in packet RAM.
  - `TxEngine`: a `class` holding the mutable TX state. Its methods are `nrf_wifi_fmac_tx`, `tx_enqueue`,
    `tx_pending_process`, `tx_buff_req_free`, `tx_done_process` and `nrf_wifi_fmac_start_xmit`. Each is
    proved against the functions above.
- **Receive path** (`rx.c`), module `Rx`:
  - mapping a descriptor to its pool;
  - the RX buffer command (`rx_cmd_send`: map or unmap a buffer, tag it with its descriptor id);
  - 802.11-to-Ethernet conversion of MPDUs and A-MSDU subframes, with the address table the code uses.
    That table matches IEEE 802.11-2016 section 9.3.2.1 for the three cases with at most one DS bit
    set. With both bits set it takes Address 1 (the receiver) as the destination, where the standard
    names Address 3 (see "## Left out");
  - the RX event loop, as the `RxEngine` class.
- **Peer table** (`fmac_peer.c`), module `Peers`: lookup, add, remove and flush on the `PeerTable` class.
- **Utilities** (`fmac_util.c`), module `FmacUtil`: unicast test, address equality, EtherType
  extraction, mode validity, zero test.
- **HAL buffers** (`hal_api.c`), module `HalBuf`:
  - the packet-RAM layout of the RX pools;
  - RX and TX bounce-buffer mapping and unmapping, on the `HalBuffers` class;
  - frame placement inside a TX token;
  - the address of the data-command slot.
- **Queues**: the host-port queue register protocol (`hpqm.c`, module `Hpqm`) and the single-producer,
  single-consumer queue (`spsc_qm.c`, module `Spsc`, class `Spsc32`).
- **IPC service** (`wifi_ipc_service.c`), module `Ipc`: free/busy queues, endpoint binding, command
  send, and free-queue seeding.
- **Address translation** (`pal.c`), module `Pal`: RPU address regions, the offset into the host
  view, and firmware patch locations.
- **Firmware image parsing** (`fmac_api_common.c`), module `FwParse`: header validation (signature,
  image count, patch version, feature flags) and the walk over image records.
- **Two build scripts**:
  - `update_blobs.py`, module `UpdateBlobs`: version extraction and blob paths;
  - `nrf70_fw_stats_parser.py`, module `StatsParser`: parsing struct fields out of a C header, the
    size of each format character, and cutting a statistics blob into sections.
  - Python string operations they use (`split`, `join`, `strip`, `find`) are in module `PyStr`.

Hardware, the OS abstraction layer and the firmware are not modelled. Every call into them becomes an
outcome parameter of the method that makes it: register reads and writes, DMA map/unmap, memory
copies, IPC sends, and command submission to the RPU. A model method takes "did the write succeed", the
value read, or the mapped address as an argument, and its contract covers every outcome.

Constants that the driver fixes:

- The AC order is BK=0, BE=1, VI=2, VO=3, MC=4, with five ACs in total.
- Each spare descriptor owns a group of `SPARE_DESC_Q_MAP_SIZE` = 4 bits in a 16-bit spare map.
- Reserved descriptors `q + 5*k` belong to AC `q`. Spare descriptors follow the `5 * tokens_per_ac`
  reserved ones.

Where the code and its surrounding documentation disagree, the model follows the code:

- `nrf_wifi_fmac_rx_cmd_send` returns success for an unknown command type, because the status is left
  over from the pool lookup.
- The spare-descriptor class is decoded by testing BK first, then BE, VI and VO.
- `nrf_wifi_fmac_tx` can also fail when the command send in `tx_pending_process` fails.
- `parse_version_from_binary` joins bytes 8 to 11 in their stored order (see `UpdateBlobs.DocExampleAsWritten`).

## Model

| member | source | states |
|---|---|---|
| Common.AsTxStatus | fw_if/umac_if/src/system/tx.c:1596-1606 | a HAL/command status becomes a TX status that is never QUEUED and is SUCCESS exactly when the status was SUCCESS |
| FmacUtil.IsUnicastAddr | fw_if/umac_if/src/common/fmac_util.c:17-26 | true exactly when the group bit (bit 0 of the first octet) is clear, i.e. the address is not multicast |
| FmacUtil.WordInjective | fw_if/umac_if/src/common/fmac_util.c:29-36 | two 16-bit address words are equal exactly when both of their octets are equal |
| FmacUtil.EtherAddrEqual | fw_if/umac_if/src/common/fmac_util.c:29-36 | comparing the three 16-bit words is true exactly when the two 6-octet addresses are equal |
| FmacUtil.RxGetEthType | fw_if/umac_if/src/common/fmac_util.c:38-45 | the result is a 16-bit value whose high byte is payload octet 6 and low byte octet 7 (big-endian) |
| FmacUtil.TxGetEthType | fw_if/umac_if/src/common/fmac_util.c:48-55 | the result is the 16-bit big-endian EtherType taken from octets 12 and 13 of the Ethernet header |
| FmacUtil.CheckModeValidity | fw_if/umac_if/src/common/fmac_util.c:58-73 | SUCCESS exactly for station mode, or monitor mode when raw RX support is built in; FAIL otherwise |
| FmacUtil.IsArrZero | fw_if/umac_if/src/common/fmac_util.c:75-87 | true exactly when every one of the first `size` octets is zero |
| Peers.LookupFromMeaning | fw_if/umac_if/src/system/fmac_peer.c:30-41 | the scan returns -1 exactly when no live slot from i on holds the address, otherwise the first such slot |
| Peers.LookupIdMeaning | fw_if/umac_if/src/system/fmac_peer.c:17-42 | multicast addresses map to the group slot MAX_PEERS; a unicast address maps to the first live slot with that address, or -1 when there is none |
| Peers.LookupIdRange | fw_if/umac_if/src/system/fmac_peer.c:17-42 | a lookup result is always -1 or a slot index up to MAX_PEERS |
| Peers.FirstFree | fw_if/umac_if/src/system/fmac_peer.c:70-80 | the chosen slot is the first one that is not in use: every slot before it is live, and it is free or equals MAX_PEERS (table full) |
| Peers.RemoveIdempotent | fw_if/umac_if/src/system/fmac_peer.c:100-135 | removing the same peer twice leaves the table as removing it once |
| Peers.LookupAfterAdd | fw_if/umac_if/src/system/fmac_peer.c:30-41 | after a unicast peer is stored in the first free slot, looking its address up finds a live slot holding that address, at or before the new one |
| Peers.LowestBelow | fw_if/umac_if/src/system/fmac_peer.c:30-41 | a live slot holding the address below the first free slot implies a first matching slot at or below it |
| Peers.FirstMatchUnique | fw_if/umac_if/src/system/fmac_peer.c:30-41 | the first matching slot is unique |
| Peers.PeerTable.constructor | fw_if/umac_if/src/system/tx.c:1696-1698 | every peer slot starts free, and the group slot starts with peer id 0 |
| Peers.PeerTable.GetId | fw_if/umac_if/src/system/fmac_peer.c:17-42 | returns the lookup result over the current table, in range -1..MAX_PEERS |
| Peers.PeerTable.Add | fw_if/umac_if/src/system/fmac_peer.c:44-97 | a multicast address on an AP interface fills the group slot (lines 59-67); otherwise the first free slot receives the peer with its id, or -1 is returned when the table is full; other slots are unchanged |
| Peers.PeerTable.Remove | fw_if/umac_if/src/system/fmac_peer.c:100-135 | the table becomes the specification of removal applied to the old table |
| Peers.PeerTable.Flush | fw_if/umac_if/src/system/fmac_peer.c:138-173 | no live slot of the interface remains, slots of other interfaces are unchanged, and the group slot's id becomes -1 |
| TxClassify.GetTidMeaning | fw_if/umac_if/src/system/tx.c:126-198 | the TID is below 8 and, per EtherType: for VLAN the top three bits of octet 18 (the two octets read are 4 and 5 past the Ethernet header, not the TCI at 14-15), for MPLS the low three bits of octet 17, for IPv4 the precedence, for IPv6 the traffic class; 802.21 gives 7 and any other EtherType gives TID 0 |
| TxClassify.VlanPcp | fw_if/umac_if/src/system/tx.c:151-155 | the VLAN priority mask and shift applied to the two octets read keep the top three bits of the first of them |
| TxClassify.MplsLow | fw_if/umac_if/src/system/tx.c:162-168 | as written the mask is shifted before the AND, so the TID is the low three bits of the label's fourth octet |
| TxClassify.TosPrecedence | fw_if/umac_if/src/system/tx.c:171-177 | masking the ECN bits off the IPv4 TOS octet leaves the precedence unchanged |
| TxClassify.Ipv6Class | fw_if/umac_if/src/system/tx.c:178-185 | the IPv6 mask and shift yield the top three bits of the traffic class |
| TxClassify.MapAcFromTidIsStandard | fw_if/umac_if/src/system/tx.c:1826-1840 | the TID-to-AC table equals the user-priority-to-AC table of IEEE 802.11-2016 section 10.2.4.2 and never yields the multicast AC |
| TxClassify.GetAc | fw_if/umac_if/src/system/tx.c:1843-1851 | the AC is MC exactly when the receiver address is multicast, otherwise the standard AC of the TID |
| TxClassify.GetRa | fw_if/umac_if/src/system/tx.c:1854-1870 | a station sends to its BSSID; every other interface type sends to the frame's destination address |
| TxSpare.SetSpare | fw_if/umac_if/src/system/tx.c:45-66 | exactly the descriptor's class bit is added to the map (when it lies inside the 16-bit map); every other bit is kept |
| TxSpare.ClearSpare | fw_if/umac_if/src/system/tx.c:73-94 | exactly the descriptor's class bit is removed; every other bit is kept |
| TxSpare.GetSpareBits | fw_if/umac_if/src/system/tx.c:97-112 | bit k of the 4-bit value read for a descriptor is the map bit of class k of that descriptor |
| TxSpare.SetGetClearGet | fw_if/umac_if/src/system/tx.c:45-112 | after a set, the group reads back with the class bit on and the others unchanged; after a clear, with it off |
| TxSpare.SpareGroupsDisjoint | fw_if/umac_if/src/system/tx.c:61-65 | two different spare descriptors never share a bit for classes BK..VO |
| TxSpare.McSpareOverlapsNextGroup | fw_if/umac_if/src/system/tx.c:345-374 | the MC bit of a spare descriptor is the BK bit of the next spare descriptor |
| TxSpare.DecodeSpareClass | fw_if/umac_if/src/system/tx.c:1259-1266 | the decoded class is the lowest set bit of the group, or BK when none is set |
| TxSpare.DecodeSingleBit | fw_if/umac_if/src/system/tx.c:1259-1266 | a group with exactly one bit set decodes to that class |
| TxAccount.ReservedDescClass | fw_if/umac_if/src/system/tx.c:327-332 | reserved descriptor q + 5k belongs to AC q and lies in the reserved range |
| TxAccount.ReservedScanMeaning | fw_if/umac_if/src/system/tx.c:326-342 | the reserved scan stops at the first free descriptor of the AC, after only busy ones |
| TxAccount.SpareScanMeaning | fw_if/umac_if/src/system/tx.c:345-379 | the spare scan stops at the first free spare descriptor, after only busy ones |
| TxAccount.ChooseDescMeaning | fw_if/umac_if/src/system/tx.c:309-382 | the chosen descriptor is a free reserved one of the AC when there is one, else the first free spare, else "none" (the token count) |
| TxAccount.InitialAccounted | fw_if/umac_if/src/system/tx.c:1641-1698 | with every descriptor free, an empty spare map and zero counters, the accounting invariant holds |
| TxAccount.ClaimKeepsAccounted | fw_if/umac_if/src/system/tx.c:337-374 | claiming a free descriptor for an AC (and setting its spare bit) keeps each AC's outstanding count equal to the descriptors charged to it |
| TxAccount.ReleaseKeepsAccounted | fw_if/umac_if/src/system/tx.c:276-306 | freeing a busy descriptor of its AC keeps the invariant, and that AC's count was at least 1 |
| TxAccount.MoveKeepsAccounted | fw_if/umac_if/src/system/tx.c:1283-1293 | moving a spare descriptor from one AC to another (clear, set, decrement, increment) keeps the invariant |
| TxAccount.DecodeFindsClass | fw_if/umac_if/src/system/tx.c:1256-1266 | under the invariant, decoding a busy spare descriptor's group gives the AC it is charged to |
| TxAccount.McSpareClaimBreaksAccounted | fw_if/umac_if/src/system/tx.c:345-374 | a concrete state where giving a spare descriptor to the MC AC breaks the accounting of the next spare descriptor |
| TxSched.WakeupPickMeaning | fw_if/umac_if/src/system/tx.c:432-468 | the wake-up pick finds the first listed peer that still has power-save tokens (`ps_token_count` not 0) and frames pending for the AC, and none when no listed peer qualifies |
| TxSched.RoundRobinMeaning | fw_if/umac_if/src/system/tx.c:495-521 | the round-robin search, starting after the AC's cursor, returns the first awake peer with frames pending, and none when there is none |
| TxSched.PickMeaning | fw_if/umac_if/src/system/tx.c:471-521 | the wake-up list is served first, then round robin; the picked peer has frames for the AC, and the cursor moves only on a round-robin pick |
| TxSched.Pick | fw_if/umac_if/src/system/tx.c:471-521 | the MC AC always picks the group slot; a unicast pick is -1 or a peer with frames pending; only peer counters change |
| TxSched.BatchMeaning | fw_if/umac_if/src/system/tx.c:579-599 | the batch is the longest prefix of frames that pass the aggregation test: byte budget, TWT sleep allows sending (`can_xmit`), not a legacy peer, same receiver and source as the head, and the aggregation limit |
| TxSched.TakeBound | fw_if/umac_if/src/system/tx.c:591 | the descriptor never holds more than the aggregation limit |
| TxSched.BmpUpdate | fw_if/umac_if/src/system/tx.c:220-273 | only the peer's pending bitmap changes, and only for a unicast peer of an AP interface: its AC bit then tracks whether the queue is non-empty; the bitmaps of all other peers are unchanged |
| TxSched.MoveMeaning | fw_if/umac_if/src/system/tx.c:575-625 | frames move in order: the descriptor queue gains exactly the batch taken from the head of the pending queue, and nothing else changes |
| TxSched.Move | fw_if/umac_if/src/system/tx.c:575-625 | the descriptor queue plus the pending queue is unchanged as a sequence, other queues are unchanged, and the result is the descriptor's new length |
| TxSched.Shift | fw_if/umac_if/src/system/tx.c:604-615 | the first t pending frames are appended to the descriptor queue and removed from the pending queue |
| TxSched.Inner | fw_if/umac_if/src/system/tx.c:523-626 | when no frame moves, no queue changes; otherwise the descriptor holds exactly the returned count |
| TxSched.Refill | fw_if/umac_if/src/system/tx.c:1276-1296 | the walk over ACs from high to low returns frames exactly when it returns an AC in the range searched, and the descriptor's queue then holds exactly that many frames |
| TxSched.RefillKeeps | fw_if/umac_if/src/system/tx.c:1276-1296 | a refill keeps the scheduler state well formed, changes only the peers' counters and not the wake-up list, and moves no frame when it queues nothing |
| TxSched.RefillStep | fw_if/umac_if/src/system/tx.c:1276-1296 | one step of the walk: if the AC yields frames the walk stops there, else it continues with the next lower AC |
| TxSched.PendingTotalZero | fw_if/umac_if/src/system/tx.c:201-217 | the pending total is zero exactly when every queue counted is empty |
| TxSched.Without | fw_if/umac_if/src/system/tx.c:956-958 | deleting a peer unlinks its first occurrence (`IndexOf`) on the wake-up list and keeps the rest in order; a list without the peer is unchanged |
| TxSched.WithoutMultiset | fw_if/umac_if/src/system/tx.c:956-958 | exactly one copy of the peer leaves the list when it is on it, and nothing else changes in its contents |
| TxSched.WithoutDistinct | fw_if/umac_if/src/system/tx.c:956-958 | on a list without repeats the deleted peer is gone altogether, every other entry stays and no repeat appears |
| TxSched.WithoutBelow | fw_if/umac_if/src/system/tx.c:956-958 | removal keeps every wake-up entry a valid peer index |
| TxPlacement.FootprintIsCost | fw_if/umac_if/src/system/tx.c:582-587 | the scheduler's byte budget of a batch equals its footprint in the HAL's placement |
| TxPlacement.BatchPlacement | fw_if/umac_if/src/system/tx.c:582-587 | a batched aggregate ends before the token base plus its budget plus 6 bytes per frame (3 when aligned), so padding is the only overrun |
| TxPlacement.SingleFramePlacement | hw_if/hal/src/system/hal_api.c:240-247 | a single frame that passes the length check ends within the maximum frame size plus 6 of the token base |
| TxEngine.Enqueued | fw_if/umac_if/src/system/tx.c:1139-1151 | an emergency frame goes to the head of the pending queue, any other frame to the tail, and the rest is kept in order |
| TxEngine.Settled | fw_if/umac_if/src/system/tx.c:1276-1305 | on completion the descriptor is freed when nothing was refilled, kept when refilled in its own AC, and recharged to the new AC otherwise |
| TxEngine.Released | fw_if/umac_if/src/system/tx.c:276-306 | after `tx_desc_free` the descriptor is free and the tables keep their sizes |
| TxEngine.ReleasedTwice | fw_if/umac_if/src/system/tx.c:294-296 | freeing a descriptor a second time changes nothing |
| TxEngine.Claimed | fw_if/umac_if/src/system/tx.c:337-374 | claiming a descriptor for an AC marks it busy, counts one more for that AC and keeps the tables' sizes |
| TxEngine.ReleaseUndoesClaim | fw_if/umac_if/src/system/tx.c:276-374 | freeing a descriptor under the AC it was just claimed for gives back the accounts from before the claim |
| TxEngine.Recharged | fw_if/umac_if/src/system/tx.c:1283-1293 | recharging a spare descriptor leaves the bitmap alone and keeps the counter table's size |
| TxEngine.SettledLocal | fw_if/umac_if/src/system/tx.c:1276-1305 | settling changes no other descriptor's bit and no counter outside the two ACs involved |
| TxEngine.SettledKeepsAccounted | fw_if/umac_if/src/system/tx.c:1276-1305 | settling a completed descriptor keeps the accounting invariant, and a refilled descriptor is charged to the refill AC |
| TxEngine.DoneClass | fw_if/umac_if/src/system/tx.c:1249-1274 | the AC of a completed descriptor is always a valid AC |
| TxEngine.XmitAcMeaning | fw_if/umac_if/src/system/tx.c:2000-2018 | a QoS peer gets the AC of the frame's TID (MC for the group slot), a non-QoS peer gets BE |
| TxEngine.EnqueuedState | fw_if/umac_if/src/system/tx.c:1117-1155 | the enqueued state has the frame added to its queue (head or tail), other queues kept, the peer's bitmap updated and the rest unchanged |
| TxEngine.Decision | fw_if/umac_if/src/system/tx.c:1178-1231 | a peer in power save gives QUEUED; below the per-AC descriptor count the frame is queued only for power save; never FAIL |
| TxEngine.CmdSent | fw_if/umac_if/src/system/tx.c:1011-1063 | the coalesce count becomes the queue length and the buffer slots of the frames that map before the first map failure become mapped; when some frame fails to map the queue and wake-up list are kept with the earlier slots left mapped; when all map the queue is emptied and a tokenless peer loses exactly one copy on the wake-up list |
| TxEngine.TransmitStatusMeaning | fw_if/umac_if/src/system/tx.c:1559-1611 | the transmit status is FAIL for no tokens or a failed enqueue, FAIL otherwise only on a send failure or a buffer within the aggregation limit that fails to map, and QUEUED for power save, TWT sleep or no free descriptor |
| TxEngine.BufSlotInRange | fw_if/umac_if/src/system/tx.c:1343-1374 | the buffer slot of frame i of a descriptor lies inside the descriptor-times-aggregation table |
| TxEngine.SetRange | fw_if/umac_if/src/system/tx.c:1343-1374 | exactly the flags in the range take the new value; all others are kept |
| TxEngine.FirstUnmapFailure | fw_if/umac_if/src/system/tx.c:1343-1374 | every frame before the result unmaps, and the frame at the result (if any) does not |
| TxEngine.FirstUnmapFailureIs | fw_if/umac_if/src/system/tx.c:1343-1374 | the first failing frame is unique |
| TxEngine.RefillFirst | fw_if/umac_if/src/system/tx.c:1251-1274 | a spare descriptor's refill starts at VO; a reserved one's at its own AC |
| TxEngine.RefillLast | fw_if/umac_if/src/system/tx.c:1251-1274 | a reserved descriptor refills only from its own AC; a spare one down to BK |
| TxEngine.DoneGuardAdmitsPastEnd | fw_if/umac_if/src/system/tx.c:1336 | the guard as written accepts descriptor number num_tx_tokens, one past the end of the per-descriptor arrays |
| TxEngine.DoneGuardCorrected | fw_if/umac_if/src/system/tx.c:1336 | the corrected guard accepts what the written one does, except descriptor number num_tx_tokens |
| TxEngine.TxEngine.constructor | fw_if/umac_if/src/system/tx.c:1614-1738 | all descriptors free, zero counters, an empty spare map, empty pending queues and wake-up list, awake; the accounting invariant holds |
| TxEngine.TxEngine.DescGet | fw_if/umac_if/src/system/tx.c:309-382 | returns the descriptor the choice function picks; a picked descriptor is claimed for the AC (the accounts become the claimed ledger), "none" changes nothing; the accounting invariant is kept |
| TxEngine.TxEngine.Claim | fw_if/umac_if/src/system/tx.c:337-374 | marks the descriptor busy, counts it for the AC, sets its spare bit, and keeps the accounting invariant |
| TxEngine.TxEngine.DescFree | fw_if/umac_if/src/system/tx.c:276-306 | the accounts become the released ledger; freeing under the AC the descriptor is charged to keeps the accounting invariant |
| TxEngine.TxEngine.GetPeerFromWakeupQ | fw_if/umac_if/src/system/tx.c:432-468 | returns the wake-up pick, or -1 when there is none |
| TxEngine.TxEngine.CurrPeerOppGet | fw_if/umac_if/src/system/tx.c:471-521 | the new state and returned peer are those of the scheduler's pick |
| TxEngine.TxEngine.UpdatePendQBmp | fw_if/umac_if/src/system/tx.c:220-273 | the peer table becomes the bitmap update; FAIL exactly when an update was due and the RPU write failed |
| TxEngine.TxEngine.PendingProcessInner | fw_if/umac_if/src/system/tx.c:523-626 | the state and count are those of the scheduler's inner step; the accounts are unchanged |
| TxEngine.TxEngine.MoveFrames | fw_if/umac_if/src/system/tx.c:565-626 | the state and count are those of moving the batch from the peer's queue to the descriptor |
| TxEngine.Aggregate | fw_if/umac_if/src/system/tx.c:575-615 | the loop moves exactly the batch: the first i frames go to the descriptor queue in order, the rest stay pending |
| TxEngine.TxEngine.Enqueue | fw_if/umac_if/src/system/tx.c:1117-1155 | a full pending queue refuses the frame; otherwise it is enqueued and the bitmap updated; FAIL exactly in the failure cases |
| TxEngine.TxEngine.Process | fw_if/umac_if/src/system/tx.c:1158-1232 | FAIL exactly when the enqueue fails; a full queue leaves the state unchanged, otherwise the frame is enqueued even when the bitmap write fails; after a successful enqueue the status is the QUEUED/SUCCESS decision |
| TxEngine.TxEngine.PendingFramesCount | fw_if/umac_if/src/system/tx.c:201-217 | the count sums the peer's unicast queues and is zero exactly when all of them are empty |
| TxEngine.TxEngine.CmdInit | fw_if/umac_if/src/system/tx.c:1011-1063 | the records become those of a sent command (coalesce count and the buffers mapped up to the first map failure, then on a prepared command an emptied queue and the wake-up list update); SUCCESS exactly when every frame maps and the send succeeds; the header flags are set |
| TxEngine.TxEngine.MarkMapped | fw_if/umac_if/src/system/tx.c:704-781 | exactly the descriptor's first `count` buffer slots become mapped, the frames that map before the first failure |
| TxEngine.TxEngine.HeaderFlags | fw_if/umac_if/src/system/tx.c:949-964 | more-data is set for AP-like interfaces with frames still pending; EOSP when the peer has no tokens left, which also removes it from the wake-up list |
| TxEngine.TxEngine.PendingProcess | fw_if/umac_if/src/system/tx.c:1066-1114 | the scheduler takes its inner step; with frames queued the descriptor stays claimed and the command is sent, even when the send fails; with none the descriptor is released; the status is that of the send, or SUCCESS; the invariant is kept |
| TxEngine.TxEngine.SendOrRelease | fw_if/umac_if/src/system/tx.c:1082-1110 | with no frames the descriptor is released and the records are kept; with frames the accounts are kept whatever the send outcome and the records become those of a sent command; queues are unchanged |
| TxEngine.TxEngine.FmacTx | fw_if/umac_if/src/system/tx.c:1559-1611 | the state is the enqueue, then the descriptor claim and pending processing when the frame is not held back; the status is FAIL for no tokens, a failed enqueue, a frame that fails to map or a failed send, QUEUED when held back; the invariant is kept |
| TxEngine.TxEngine.Submit | fw_if/umac_if/src/system/tx.c:1578-1606 | without TWT clearance or a free descriptor nothing changes and QUEUED is returned; otherwise the descriptor is claimed and the pending processing's state and status follow |
| TxEngine.TxEngine.BuffReqFree | fw_if/umac_if/src/system/tx.c:1235-1306 | the state and result are those of the refill walk, the accounts those of settling; the invariant is kept and a refilled descriptor is charged to its AC |
| TxEngine.TxEngine.Settle | fw_if/umac_if/src/system/tx.c:1276-1305 | the accounts become the settled ledger and the queues are unchanged |
| TxEngine.TxEngine.RefillLoop | fw_if/umac_if/src/system/tx.c:1276-1296 | the loop computes the refill walk; when frames are queued the AC returned is in the range searched |
| TxEngine.TxEngine.RefillTry | fw_if/umac_if/src/system/tx.c:1276-1281 | one loop iteration agrees with one step of the refill walk |
| TxEngine.TxEngine.Recharge | fw_if/umac_if/src/system/tx.c:1283-1293 | the accounts become the recharged ledger and the descriptor is then charged to the new AC |
| TxEngine.TxEngine.DoneProcess | fw_if/umac_if/src/system/tx.c:1309-1437 | an out-of-range descriptor changes nothing; otherwise the frames are unmapped up to the first failure, and when all unmap the descriptor is refilled, settled and, refilled while awake, its command sent; the invariant is kept |
| TxEngine.TxEngine.UnmapFrames | fw_if/umac_if/src/system/tx.c:1343-1374 | unmaps the frames up to the first failure, clearing their flags, and succeeds exactly when all unmap |
| TxEngine.TxEngine.DoneRefill | fw_if/umac_if/src/system/tx.c:1376-1437 | the state follows the refill walk, the accounts settle, and refilled frames are sent when TWT is awake, with that send's status; otherwise SUCCESS and the records keep all but the queues; the invariant is kept |
| TxEngine.TxEngine.StartXmit | fw_if/umac_if/src/system/tx.c:1976-2038 | a frame too short is dropped with FAIL and nothing changes; the receiver address is `GetRa` for the interface's type and BSSID; a frame for an unknown peer is dropped with FAIL and nothing changes; otherwise the state is that of transmitting it under the peer's AC, and FAIL is returned exactly when that transmit fails |
| Rx.PoolOfMeaning | fw_if/umac_if/src/system/rx.c:18-42 | a descriptor maps to the first pool whose range contains it, with its index inside the pool, and to none when no pool contains it |
| Rx.MapDescToPool | fw_if/umac_if/src/system/rx.c:18-42 | the loop returns the pool mapping of the descriptor |
| Rx.SkipHeaderBytes | fw_if/umac_if/src/system/rx.c:45-63 | 8 bytes (the LLC/SNAP header) are skipped exactly for EtherType values, 2 otherwise |
| Rx.Proto | fw_if/umac_if/src/system/rx.c:94-106 | the protocol field is a 16-bit value |
| Rx.ProtoInNetworkOrder | fw_if/umac_if/src/system/rx.c:160-164 | after the host byte swap, the stored protocol bytes are the EtherType in network order |
| Rx.EthHeader | fw_if/umac_if/src/system/rx.c:109-165 | the Ethernet header is 14 bytes: destination, source, protocol |
| Rx.ParseWlanHdr | fw_if/umac_if/src/system/rx.c:109-122 | the four addresses are read from octets 4, 10, 16 and 24 of the 802.11 header |
| Rx.DsBits | fw_if/umac_if/src/system/rx.c:123-158 | the two distribution-system bits of the frame control select one of four cases |
| Rx.EthAddrsTable | fw_if/umac_if/src/system/rx.c:123-158 | source and destination for each To-DS/From-DS case are those the code copies: (addr2, addr1), (addr2, addr3), (addr3, addr1), and (addr4, addr1) with both bits set; the first three agree with IEEE 802.11-2016 section 9.3.2.1 |
| Rx.ConvertToEth | fw_if/umac_if/src/system/rx.c:109-165 | the converted buffer is the 14-byte Ethernet header followed by the payload unchanged |
| Rx.MpduToEthRoundTrip | fw_if/umac_if/src/system/rx.c:435-455 | an MPDU built from an 802.11 header, LLC header, EtherType and payload converts to the Ethernet frame with those addresses, that EtherType and that payload |
| Rx.AmsduToEthRoundTrip | fw_if/umac_if/src/system/rx.c:65-107 | an A-MSDU subframe converts to destination, source, EtherType and the payload |
| Rx.TaggedBuffer | fw_if/umac_if/src/system/rx.c:198-236 | a new RX buffer starts with the descriptor id in host byte order |
| Rx.CmdSendMeaning | fw_if/umac_if/src/system/rx.c:168-285 | INIT maps a tagged buffer and records it, DEINIT unmaps and frees it, an unknown descriptor fails, and every failure leaves the state alone |
| Rx.DeinitUndoesInit | fw_if/umac_if/src/system/rx.c:168-285 | an INIT followed by a successful DEINIT leaves the descriptor unmapped |
| Rx.Received | fw_if/umac_if/src/system/rx.c:403-409 | the delivered buffer holds exactly the received bytes after the headroom |
| Rx.Step | fw_if/umac_if/src/system/rx.c:368-534 | one packet changes only its own descriptor, and only data packets are delivered |
| Rx.RunKeepsOthers | fw_if/umac_if/src/system/rx.c:328-539 | the event loop does not touch descriptors that no packet names |
| Rx.CleanBatchRearms | fw_if/umac_if/src/system/rx.c:328-539 | when every unmap and re-init succeeds, each descriptor of the event ends mapped again and the event reports success |
| Rx.BatchStatus | fw_if/umac_if/src/system/rx.c:537-538 | the event succeeds exactly when it has packets and every packet succeeded |
| Rx.BatchStatusHidesFailure | fw_if/umac_if/src/system/rx.c:526-538 | as written, a failure followed by a success reports success |
| Rx.BatchStatusAgrees | fw_if/umac_if/src/system/rx.c:526-538 | the written and intended statuses agree when the last packet failed or all succeeded |
| Rx.RxEngine.constructor | fw_if/umac_if/src/system/rx.c:168-236 | no descriptor is mapped at start |
| Rx.RxEngine.RxCmdSend | fw_if/umac_if/src/system/rx.c:168-285 | the new state and status are those of the buffer command |
| Rx.RxEngine.ProcessPacket | fw_if/umac_if/src/system/rx.c:368-534 | the new state, status and delivered frame are those of one step |
| Rx.RxEngine.EventProcess | fw_if/umac_if/src/system/rx.c:328-539 | the state and delivered frames are those of the event loop, and the status is that of the last packet, FAIL for an event without packets, as the code returns it |
| HalBuf.PoolsSizeMono | hw_if/hal/src/system/hal_api.c:42-51 | the sizes of the first i pools grow with i |
| HalBuf.PoolsDisjoint | hw_if/hal/src/system/hal_api.c:42-51 | RX pool i ends before pool j starts for i < j, and all pools fit the RX area when their total fits |
| HalBuf.RxBouncesDisjoint | hw_if/hal/src/system/hal_api.c:127-147 | two bounce buffers of a pool do not overlap |
| HalBuf.RpuAddrOfTranslates | hw_if/hal/src/system/hal_api.c:138 | the RPU address given for a bounce buffer translates back to it through the packet-RAM offset |
| HalBuf.MapRxEntry | hw_if/hal/src/system/hal_api.c:99-164 | mapping records the buffer and returns the physical address it stored |
| HalBuf.UnmapRxEntry | hw_if/hal/src/system/hal_api.c:167-213 | unmapping leaves a well-formed entry |
| HalBuf.MapRxTwice | hw_if/hal/src/system/hal_api.c:118-122 | mapping an entry that is already mapped changes nothing and returns its stored physical address again, which the caller takes as success |
| HalBuf.RxMapUnmapRoundTrip | hw_if/hal/src/system/hal_api.c:99-213 | map then unmap returns the original buffer and leaves the entry empty |
| HalBuf.Round4 | hw_if/hal/src/system/hal_api.c:256-257 | rounding up to 4 gives the smallest multiple of 4 at or above the input |
| HalBuf.TxFramesDisjoint | hw_if/hal/src/system/hal_api.c:249-260 | a frame placed at the rounded offset ends before the next frame's rounded offset, headroom included |
| HalBuf.Place | hw_if/hal/src/system/hal_api.c:249-260 | placement never moves backwards |
| HalBuf.PlaceBound | hw_if/hal/src/system/hal_api.c:253-260 | placement ends within the footprint plus 6 bytes of padding per frame (3 when aligned) |
| HalBuf.PlaceRoundingCost | hw_if/hal/src/system/hal_api.c:253-260 | a concrete batch where rounding costs 12 bytes more than the footprint |
| HalBuf.MapTxEntry | hw_if/hal/src/system/hal_api.c:216-296 | mapping records the buffer and returns the physical address it stored |
| HalBuf.UnmapTxEntry | hw_if/hal/src/system/hal_api.c:299-332 | unmapping leaves a well-formed entry |
| HalBuf.TxMapUnmapRoundTrip | hw_if/hal/src/system/hal_api.c:216-332 | map then unmap returns the original buffer and leaves the entry empty |
| HalBuf.DataCmdAddr | hw_if/hal/src/system/hal_api.c:352-371 | a command type that is neither RX nor TX gets address 0 |
| HalBuf.DataCmdSlotsDisjoint | hw_if/hal/src/system/hal_api.c:352-371 | data-command slots of different descriptors do not overlap |
| HalBuf.HalBuffers.constructor | hw_if/hal/src/system/hal_api.c:455-651 | every RX and TX entry starts empty |
| HalBuf.HalBuffers.PktramBufMapInit | hw_if/hal/src/system/hal_api.c:25-56 | the packet-RAM base is the translated RPU address, TX shares it, and each RX pool starts where the layout says |
| HalBuf.HalBuffers.MapRx | hw_if/hal/src/system/hal_api.c:99-164 | the entry becomes the mapped entry and the physical address is returned |
| HalBuf.HalBuffers.UnmapRx | hw_if/hal/src/system/hal_api.c:167-213 | the entry becomes the unmapped entry and the host address is returned |
| HalBuf.HalBuffers.MapTx | hw_if/hal/src/system/hal_api.c:216-296 | the entry becomes the mapped entry and the frame offset advances |
| HalBuf.HalBuffers.UnmapTx | hw_if/hal/src/system/hal_api.c:299-332 | the entry becomes the unmapped entry and the host address is returned |
| Hpqm.DequeueAccesses | hw_if/hal/src/common/hpqm.c:37-69 | a dequeue reads the register and writes back only a non-zero value that was read successfully |
| Hpqm.DequeuePopsHead | hw_if/hal/src/common/hpqm.c:54-66 | reading then writing back the head removes exactly the head of the queue |
| Hpqm.EnqueueAppends | hw_if/hal/src/common/hpqm.c:16-34 | writing the enqueue register appends the value |
| Hpqm.HpqPort.Enqueue | hw_if/hal/src/common/hpqm.c:16-34 | one register write; SUCCESS exactly when it succeeds |
| Hpqm.HpqPort.Dequeue | hw_if/hal/src/common/hpqm.c:37-69 | the accesses of a dequeue are made and the read value returned; SUCCESS exactly when the read, and the write when needed, succeed |
| Spsc.PushSpec | hw_if/hal/src/spsc_qm.c:16-32 | a push succeeds exactly when there is room, and then appends |
| Spsc.PopSpec | hw_if/hal/src/spsc_qm.c:34-51 | a pop fails exactly on an empty queue, and otherwise returns and removes the head |
| Spsc.RunFifo | hw_if/hal/src/spsc_qm.c:16-51 | over any sequence of operations, values leave in the order they entered |
| Spsc.RunBounded | hw_if/hal/src/spsc_qm.c:16-32 | the queue never holds more than its capacity |
| Spsc.Spsc32.constructor | hw_if/hal/src/spsc_qm.c:11-14 | the queue starts empty |
| Spsc.Spsc32.Push | hw_if/hal/src/spsc_qm.c:16-32 | the contents and result are those of a push |
| Spsc.Spsc32.Pop | hw_if/hal/src/spsc_qm.c:34-51 | the contents and result are those of a pop |
| Spsc.Spsc32.ReadHead | hw_if/hal/src/spsc_qm.c:53-68 | returns the head without removing it, or none when empty |
| Spsc.Spsc32.IsEmpty | hw_if/hal/src/spsc_qm.c:70-74 | true exactly when a pop would fail |
| Spsc.Spsc32.IsFull | hw_if/hal/src/spsc_qm.c:76-81 | true exactly when a push would fail |
| Ipc.RegisterStatus | hw_if/hal/src/wifi_ipc_service.c:83-105 | success exactly when the instance opens and the endpoint registers |
| Ipc.BufferAddrs | hw_if/hal/src/wifi_ipc_service.c:266-300 | n buffer addresses starting at the base |
| Ipc.BufferAddrsDisjoint | hw_if/hal/src/wifi_ipc_service.c:266-300 | the buffers seeded into a free queue do not overlap |
| Ipc.BusyQ.constructor | hw_if/hal/src/wifi_ipc_service.c:70-78 | not ready, nothing sent or received |
| Ipc.BusyQ.Init | hw_if/hal/src/wifi_ipc_service.c:70-78 | the busy queue is not ready after init |
| Ipc.WifiIpc.constructor | hw_if/hal/src/wifi_ipc_service.c:70-78 | no free queue and no linked peer |
| Ipc.WifiIpc.EpBound | hw_if/hal/src/wifi_ipc_service.c:49-53 | the endpoint becomes ready |
| Ipc.WifiIpc.BindTxRx | hw_if/hal/src/wifi_ipc_service.c:129-142 | TX is linked to RX's busy queue, and the status is the registration status |
| Ipc.WifiIpc.FreeqGet | hw_if/hal/src/wifi_ipc_service.c:144-162 | no free queue is an error; an empty one reports empty; otherwise the head is returned |
| Ipc.WifiIpc.FreeqSend | hw_if/hal/src/wifi_ipc_service.c:164-171 | the free queue becomes the push result, and a full queue is reported |
| Ipc.WifiIpc.BusyqSend | hw_if/hal/src/wifi_ipc_service.c:173-209 | the value is sent to the linked busy queue when ready, with a status for each failure |
| Ipc.WifiIpc.HostCmdSendMemcpy | hw_if/hal/src/wifi_ipc_service.c:239-253 | a buffer is taken from the free queue and sent; no queue or an empty one sends nothing |
| Ipc.WifiIpc.InitFreeQ | hw_if/hal/src/wifi_ipc_service.c:266-300 | a new free queue holds the buffer addresses that fit; success exactly when all fit |
| Ipc.WifiIpc.RpuEventInit | hw_if/hal/src/wifi_ipc_service.c:266-282 | the event free queue holds the event buffer addresses |
| Ipc.WifiIpc.RpuCmdInit | hw_if/hal/src/wifi_ipc_service.c:284-300 | the command free queue holds the command buffer addresses |
| Ipc.WifiIpc.RecvCallback | hw_if/hal/src/wifi_ipc_service.c:55-68 | the received address is handed to the busy queue and returned to the free queue |
| Pal.CheckRpuMcuRegions | hw_if/hal/src/common/pal.c:14-32 | true exactly when the address is in one of the processor's MCU regions |
| Pal.AddrBase | hw_if/hal/src/common/pal.c:39 | the base is the aligned block containing the address |
| Pal.AddrOffset | hw_if/hal/src/common/pal.c:123 | base plus offset gives the address back |
| Pal.RegionOf | hw_if/hal/src/common/pal.c:104-121 | the region is chosen by base address: system bus, GRAM, packet RAM, MCU or unknown |
| Pal.RpuAddrOffsetGet | hw_if/hal/src/common/pal.c:34-139 | fails exactly for an unknown region; otherwise it adds the region's host offset |
| Pal.TranslationKeepsDistance | hw_if/hal/src/common/pal.c:123 | two addresses in the same region keep their distance after translation |
| Pal.PktRamTranslation | hw_if/hal/src/common/pal.c:111-112 | a packet-RAM address maps to the host view of packet RAM plus its offset |
| Pal.PktRamRoundTrip | hw_if/hal/src/common/pal.c:123 | the translated packet-RAM base plus k is the translation of the RPU address plus k |
| Pal.GetFwLoc | hw_if/hal/src/common/pal.c:162-201 | a location exists exactly for a known firmware type and subtype |
| Pal.FwLocInjective | hw_if/hal/src/common/pal.c:162-201 | different firmware parts get different locations |
| FwParse.PatchVersionCompat | fw_if/umac_if/src/common/fmac_api_common.c:29-66 | compatible exactly when the version equals the expected family, major, minor and patch packed into 32 bits |
| FwParse.FeatureFlagsCompat | fw_if/umac_if/src/common/fmac_api_common.c:68-107 | compatible exactly when the mode is known and its required feature flag is set |
| FwParse.FirstHeaderFault | fw_if/umac_if/src/common/fmac_api_common.c:126-158 | the first failing check, in order: signature, image count, version, feature flags |
| FwParse.ValidateFwHeader | fw_if/umac_if/src/common/fmac_api_common.c:126-158 | SUCCESS exactly when all four header checks pass |
| FwParse.Record | fw_if/umac_if/src/common/fmac_api_common.c:204-224 | exactly the image slot of the id is replaced |
| FwParse.ImageFits | fw_if/umac_if/src/common/fmac_api_common.c:194 | an accepted image header and data end inside the firmware |
| FwParse.ImageFitsAsWritten | fw_if/umac_if/src/common/fmac_api_common.c:194 | the 32-bit check agrees with the exact one whenever the sum does not wrap |
| FwParse.ImageFitsAsWrittenWraps | fw_if/umac_if/src/common/fmac_api_common.c:194 | a length near 2^32 wraps the sum back to the same offset and passes the written check |
| FwParse.WalkStep | fw_if/umac_if/src/common/fmac_api_common.c:186-227 | one step of the walk records the image and continues after its data, or stops with FAIL |
| FwParse.WalkRecords | fw_if/umac_if/src/common/fmac_api_common.c:186-227 | after a successful walk, image k is recorded at its computed offset |
| FwParse.WalkKeeps | fw_if/umac_if/src/common/fmac_api_common.c:186-227 | the walk leaves slots it does not reach unchanged |
| FwParse.Parse | fw_if/umac_if/src/common/fmac_api_common.c:160-230 | a missing image, a bad size or a bad header fails without recording anything |
| FwParse.ParseRecordsImages | fw_if/umac_if/src/common/fmac_api_common.c:169-227 | a successful parse had a valid header and recorded each image at its offset |
| FwParse.ImageOffsetGrows | fw_if/umac_if/src/common/fmac_api_common.c:226 | image offsets never decrease |
| FwParse.FmacFwInfo.constructor | fw_if/umac_if/src/common/fmac_api_common.c:160-168 | every image slot starts empty |
| FwParse.FmacFwInfo.RecordImage | fw_if/umac_if/src/common/fmac_api_common.c:204-224 | the images become the record with the new slot |
| FwParse.FwParse | fw_if/umac_if/src/common/fmac_api_common.c:160-230 | no info structure gives FAIL; otherwise the status and images are those of the parse |
| UpdateBlobs.Decimal | scripts/update_blobs.py:43-45 | the text is digits with no leading zero, and at most three digits for a byte |
| UpdateBlobs.DecimalRoundTrip | scripts/update_blobs.py:43-45 | reading the decimal text back gives the number |
| UpdateBlobs.NoDotInDecimal | scripts/update_blobs.py:43-45 | the text of a byte has no dot, so joining with dots can be split apart |
| UpdateBlobs.ParseVersion | scripts/update_blobs.py:29-48 | a binary shorter than 12 bytes gives "1.0.0" |
| UpdateBlobs.ParseVersionFromBinary | scripts/update_blobs.py:29-48 | the loop builds the version string of the function |
| UpdateBlobs.VersionComponents | scripts/update_blobs.py:40-47 | the version splits on dots into the decimal texts of bytes 8 to 11, in stored order |
| UpdateBlobs.VersionOnlyReadsBytes8To11 | scripts/update_blobs.py:39 | two binaries that agree on bytes 8 to 11 get the same version |
| UpdateBlobs.IntendedVersionFields | scripts/update_blobs.py:31-32 | the documented version lists the little-endian word's bytes from most to least significant |
| UpdateBlobs.DocExampleAsWritten | scripts/update_blobs.py:31-47 | the docstring's example bytes give "2.14.2.1" as written |
| UpdateBlobs.DocExampleIntended | scripts/update_blobs.py:32 | the documented order gives "1.2.14.2" |
| UpdateBlobs.GetWifiBlobInfo | scripts/update_blobs.py:51-59 | the blob keeps its name, has version "1.0.0", and its paths live under the remote and local roots |
| UpdateBlobs.BlobPathsDistinct | scripts/update_blobs.py:56-57 | different blob names give different remote and local paths |
| StatsParser.LineField | scripts/nrf70_fw_stats_parser.py:53-70 | blank and comment lines give no field; a field always has a type and a name |
| StatsParser.WordsField | scripts/nrf70_fw_stats_parser.py:64-70 | a declaration gives a field exactly when it has at least two words, and that field has a non-empty type and a non-empty name without whitespace |
| StatsParser.FieldPartClean | scripts/nrf70_fw_stats_parser.py:57-65 | after comments are cut, no comment marker or semicolon remains |
| StatsParser.LineFieldWords | scripts/nrf70_fw_stats_parser.py:64-70 | the name is the last word and the type is the words before it |
| StatsParser.FieldsWellFormed | scripts/nrf70_fw_stats_parser.py:49-72 | every parsed field is well formed |
| StatsParser.FieldsAppend | scripts/nrf70_fw_stats_parser.py:52-70 | parsing lines a then b gives the fields of a then the fields of b |
| StatsParser.FieldsSnoc | scripts/nrf70_fw_stats_parser.py:52-70 | one more line adds its field, if any, at the end |
| StatsParser.ParseStructFields | scripts/nrf70_fw_stats_parser.py:47-72 | the loop returns the fields of the stripped body's lines |
| StatsParser.GetTypeFormat | scripts/nrf70_fw_stats_parser.py:74-96 | nested structs have no format; mapped types get their format; other types get 'I' |
| StatsParser.FormatSize | scripts/nrf70_fw_stats_parser.py:110-118 | each format character is 1, 2, 4 or 8 bytes |
| StatsParser.FieldFormats | scripts/nrf70_fw_stats_parser.py:110-118 | one format character per field |
| StatsParser.CalcSizeAllI | scripts/nrf70_fw_stats_parser.py:110-118 | n unsigned-int fields take 4n bytes |
| StatsParser.SectionSize | scripts/nrf70_fw_stats_parser.py:108-118 | a section has a size exactly when its struct is known, 4 bytes per field for the all-unsigned sections |
| StatsParser.Sizes | scripts/nrf70_fw_stats_parser.py:108-118 | one size per section, in order |
| StatsParser.SectionStep | scripts/nrf70_fw_stats_parser.py:119-127 | a section that fits is unpacked and the offset advances by its size; otherwise nothing changes |
| StatsParser.StatsFromTiles | scripts/nrf70_fw_stats_parser.py:98-249 | the unpacked sections tile the blob from the start without gaps and stay inside it |
| StatsParser.StructParser.constructor | scripts/nrf70_fw_stats_parser.py:16-20 | the parser keeps the struct definitions it is given |
| StatsParser.StructParser.Section | scripts/nrf70_fw_stats_parser.py:119-127 | one section step |
| StatsParser.StructParser.ParseRpuSysFwStats | scripts/nrf70_fw_stats_parser.py:98-249 | the offset and sections are those of the section walk from offset 0 |

## Left out

- Concurrency: spin locks, tasklets, IRQ guards and the busy-wait retry in the IPC receive callback are not modelled; every operation runs alone.
- OS abstraction calls (network buffers, memory allocation, logging, timers) become parameters or are dropped; buffer contents are modelled only where the driver reads or writes them.
- DMA and RPU memory copies and register accesses become outcome parameters; the bytes written to RPU memory are not modelled.
- The raw-TX and promiscuous-mode branches, the nRF71 and IPC build variants, and multi-VIF DMA are not modelled. The model follows the build without `NRF_WIFI_MGMT_BUFF_OFFLOAD`: with that option the RX loop skips re-arming the buffer of a beacon or probe response (rx.c:485-487), which `Rx.Step` always re-arms.
- Radio-test mode is not part of this model.
- The header that defines the classification masks is not part of this model; the VLAN, MPLS and IPv6 mask and shift values are taken to be the usual Linux ones (`0xE000 >> 13`, `0x0E00 >> 9`, `0x0FF0 >> 4`), and `NRF_WIFI_FMAC_ETH_TYPE_MASK` to be `0xFFFF`, so `GetTid` switches on the EtherType unmasked.
- `tx_init` and `tx_deinit` are modelled only by the initial state they build (`TxEngine.TxEngine.constructor`); their allocation-failure unwinding and `hal_dev_add` are left out.
- The byte layout of the TX command built by `tx_cmd_prepare` is not modelled.
- TxEngine.CmdSent / TxEngine.TxEngine.CmdInit: the outcome of the buffer maps is the number of frames that map before the first failure (`mapped`), a free parameter; `tx_cmd_prep_callbk_fn` also fails on a slot that is already mapped (tx.c:739-746), and the model does not tie `mapped` to the slots' current flags, so it does not capture that refusal.
- The RPU write of the pending bitmap in `update_pend_q_bmp` is an outcome parameter.
- The copy and post of a data command (`hal_rpu_data_cmd_send`) are not modelled, only the slot address.
- The functions in `fmac_api_common.c` other than firmware version, feature and image parsing are not modelled.
- Script I/O is not modelled: the header regex in `parse_header`, printing, argument parsing, HTTP download, hashing, template rendering, `compute_sha256` and `main`.
- StatsParser: the section values themselves are not unpacked; only each section's offset and size are modelled.
- TxEngine.TxEngine.Claim: the accounting invariant is only promised for ACs below 4; the MC AC on a spare descriptor writes into the next descriptor's group (see `TxAccount.McSpareClaimBreaksAccounted`).
- TxEngine.TxEngine.DescGet: the same restriction as `Claim` on the MC AC.
- Peers.PeerTable.Remove: a negative peer id is treated as a no-op.
- TxClassify.GetTidMeaning: the code may read past a short frame; the model reads missing bytes as 0.
- Rx.EthAddrs / Rx.EthAddrsTable: with both DS bits set, `nrf_wifi_convert_to_eth` (rx.c:124-131) copies Address 1, the immediate receiver, as the Ethernet destination. The address table of IEEE 802.11-2016 section 9.3.2.1 gives the final destination there, which is Address 3. The two agree only when this device is the frame's final destination. The model keeps the code's choice and does not state the standard's four-address destination.
- Rx.Step: requires `PacketFits`, that the octets the device reports (`rx_pkt_len`) cover the headers the conversion reads and that the headroom leaves room for the Ethernet header it writes; a shorter report makes the code read stale buffer octets or pull past the data, which the platform's buffer calls define, so the model does not cover it.
- Rx.Run: requires `EventFits`, the same condition for every packet of the event, for the same reason.
- Rx.RxEngine.ProcessPacket: requires `PacketFits` for the packet, for the same reason.
- Rx.RxEngine.EventProcess: requires `EventFits` for the event, for the same reason.
- FwParse.Parse / FwParse.FwParse: require `ParseReadable`, that every image header the loop reads lies inside the blob. The code reads an image's `len` at `offset` before its bounds check (fmac_api_common.c:187-194), so a blob whose last header starts within 8 bytes of `fw_size` is read past `fw_size`; the model does not cover reading past the blob.
- Ipc.WifiIpc.RecvCallback: requires room in the free queue instead of modelling the busy-wait retry.

## Findings

| source | as written | input that shows it | evidently intended | confidence | as-written member | corrected member |
|---|---|---|---|---|---|---|
| fw_if/umac_if/src/system/tx.c:1336 | the completion guard rejects only `desc > num_tx_tokens` | `desc == num_tx_tokens`, which then indexes one past the per-descriptor packet and coalesce arrays | reject `desc >= num_tx_tokens` | not executed | TxEngine.DoneGuardAdmitsPastEnd | TxEngine.DoneGuardCorrected |
| fw_if/umac_if/src/system/rx.c:537-538 | the event returns the status of the last packet only | statuses `[Fail, Success]` report success | as the comment says, a single failure fails the whole event | not executed | Rx.BatchStatusHidesFailure | Rx.BatchStatus |
| fw_if/umac_if/src/common/fmac_api_common.c:194 | `offset + sizeof(image) + len > fw_size` is computed in 32 bits on a target where `size_t` is 32 bits, as on the nRF MCUs this driver runs on | offset 16, len 0xFFFFFFF8, fw_size 16: the sum wraps to 16 and the check passes, so the walk re-reads the same header | an overflow-free bound check | not executed | FwParse.ImageFitsAsWrittenWraps | FwParse.ImageFits |
