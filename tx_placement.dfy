/**
 * How the aggregation budget of `_tx_pending_process` (`tx.c`) relates to
 * where the HAL then places the aggregated frames (`hal_api.c`): the
 * budget counts each frame's size plus `TX_BUF_HEADROOM`, while the HAL
 * also rounds every bounce buffer and every length up to 4 bytes. Both
 * layers are taken to use the same headroom.
 */
module TxPlacement {
  import opened TxSched
  import opened HalBuf

  /** The sizes of the first `k` frames of `q`, as `map_tx` receives them. */
  function Sizes(q: seq<TxFrame>, k: nat): (s: seq<nat>)
    requires k <= |q|
    ensures |s| == k && forall i :: 0 <= i < k ==> s[i] == |q[i].data|
  {
    seq(k, i requires 0 <= i < k => |q[i].data|)
  }

  lemma {:induction false} FootprintSnoc(s: seq<nat>, x: nat, headroom: nat)
    ensures Footprint(s + [x], headroom) == Footprint(s, headroom) + x + headroom
    decreases |s|
  {
    if |s| > 0 {
      assert (s + [x])[1..] == s[1..] + [x];
      FootprintSnoc(s[1..], x, headroom);
    }
  }

  /** The HAL's footprint of the first `k` frames is the budget's running
   *  length after them. */
  lemma {:induction false} FootprintIsCost(q: seq<TxFrame>, k: nat, headroom: nat)
    requires k <= |q|
    ensures Footprint(Sizes(q, k), headroom) == Cost(q, k, headroom)
    decreases k
  {
    if k > 0 {
      assert Sizes(q, k) == Sizes(q, k - 1) + [|q[k - 1].data|];
      FootprintSnoc(Sizes(q, k - 1), |q[k - 1].data|, headroom);
      FootprintIsCost(q, k - 1, headroom);
    }
  }

  /**
   * The budget bounds the placement only up to the rounding: a non-empty
   * aggregate the loop batched ends, in the HAL's placement from the token
   * base, less than `avail_ampdu_len_per_token + 6 × k` past it, and less
   * than `avail_ampdu_len_per_token + 3 × k` past it when the base and the
   * headroom are 4-aligned. So the aggregate stays inside its token's
   * `max_ampdu_len_per_token` bytes whenever the budget leaves that much
   * slack.
   */
  lemma BatchPlacement(q: seq<TxFrame>, legacy: bool, awake: bool, txqLen: nat, cfg: TxConfig, tokenBase: nat)
    requires 0 < |q|
    requires Batch(q, legacy, awake, txqLen, cfg, 0) > 0
    ensures var k := Batch(q, legacy, awake, txqLen, cfg, 0);
      && Place(tokenBase, Sizes(q, k), cfg.txBufHeadroom) < tokenBase + cfg.availAmpduLenPerToken + 6 * k
      && (tokenBase % 4 == 0 && cfg.txBufHeadroom % 4 == 0 ==>
            Place(tokenBase, Sizes(q, k), cfg.txBufHeadroom) < tokenBase + cfg.availAmpduLenPerToken + 3 * k)
  {
    var k := Batch(q, legacy, awake, txqLen, cfg, 0);
    BatchMeaning(q, legacy, awake, txqLen, cfg, 0);
    assert Cost(q, k, cfg.txBufHeadroom) < cfg.availAmpduLenPerToken;
    FootprintIsCost(q, k, cfg.txBufHeadroom);
    PlaceBound(tokenBase, Sizes(q, k), cfg.txBufHeadroom);
  }

  /** The single frame sent when the budget rejects even the first one is
   *  bounded only by the HAL's frame limit: it ends within
   *  `max_tx_frm_sz + 6` bytes of the token base. */
  lemma SingleFramePlacement(len: nat, c: HalCfg, tokenBase: nat)
    requires TxLenOk(len, c)
    ensures Place(tokenBase, [len], c.txHeadroom) <= tokenBase + c.maxTxFrmSz + 6
  {
    PlaceBound(tokenBase, [len], c.txHeadroom);
    assert Footprint([len], c.txHeadroom) == len + c.txHeadroom;
  }
}
