/**
 * Firmware patch bundle checks and parsing (`fmac_api_common.c`): the
 * version and feature-flag compatibility of the bundle header, its
 * validation, and the walk over the images that follow it, recording the
 * four patch images (LMAC and UMAC, primary and secondary).
 *
 * The expected signature, image count and version bytes, the feature-flag
 * bits and `sizeof(struct nrf70_fw_image_info)` come from a header that is
 * not part of this model: they are parameters. The bundle header's first
 * four 32-bit fields (signature, image count, version, feature flags) and
 * each image header (type, then length) are read as little-endian words,
 * the RPU's and the host's byte order.
 */
module FwParse {
  import opened Common

  const TWO_32: nat := 0x1_0000_0000

  /** The 32-bit little-endian word at `at`. */
  function Le32(b: seq<byte>, at: nat): u32
    requires at + 4 <= |b|
  {
    (b[at] as int) + 0x100 * (b[at + 1] as int) + 0x1_0000 * (b[at + 2] as int) + 0x100_0000 * (b[at + 3] as int)
  }

  /** The four bytes of a little-endian word, as the version fields see
   *  them: bits 31-24 are the last byte, bits 7-0 the first. */
  lemma Le32Bytes(b: seq<byte>, at: nat)
    requires at + 4 <= |b|
    ensures var v := Le32(b, at);
      && v / 0x100_0000 % 0x100 == b[at + 3]
      && v / 0x1_0000 % 0x100 == b[at + 2]
      && v / 0x100 % 0x100 == b[at + 1]
      && v % 0x100 == b[at]
  {
    var x0, x1, x2, x3 := b[at] as int, b[at + 1] as int, b[at + 2] as int, b[at + 3] as int;
    var v := Le32(b, at);
    var r2 := x2 + 0x100 * x3;
    var r1 := x1 + 0x100 * r2;
    ByteSplit(v, r1, x0);
    ByteSplit(r1, r2, x1);
    ByteSplit(r2, x3, x2);
    assert v == (x0 + 0x100 * x1) + 0x1_0000 * r2;
    assert v == (x0 + 0x100 * x1 + 0x1_0000 * x2) + 0x100_0000 * x3;
  }

  /** The low byte and the rest of a number. */
  lemma ByteSplit(v: int, q: int, r: int)
    requires 0 <= r < 0x100 && v == q * 0x100 + r
    ensures v / 0x100 == q && v % 0x100 == r
  {
  }

  /** The compatibility constants a bundle is checked against. */
  datatype Expected = Expected(signature: u32, numImages: u32,
                               family: byte, major: byte, minor: byte, patch: byte)

  /** `RPU_FAMILY`, `RPU_MAJOR_VERSION`, `RPU_MINOR_VERSION` and
   *  `RPU_PATCH_VERSION` packed into one version word, most significant
   *  first. */
  function PackedVersion(exp: Expected): u32
  {
    exp.family * 0x100_0000 + exp.major * 0x1_0000 + exp.minor * 0x100 + exp.patch
  }

  /** A word is the sum of its four bytes in place. */
  lemma VersionDecompose(v: u32)
    ensures v == (v / 0x100_0000 % 0x100) * 0x100_0000 + (v / 0x1_0000 % 0x100) * 0x1_0000
                 + (v / 0x100 % 0x100) * 0x100 + v % 0x100
  {
    var r1 := v / 0x100;
    var r2 := v / 0x1_0000;
    var r3 := v / 0x100_0000;
    assert r2 == r1 / 0x100;
    assert r3 == r2 / 0x100;
    assert v == r1 * 0x100 + v % 0x100;
    assert r1 == r2 * 0x100 + r1 % 0x100;
    assert r2 == r3 * 0x100 + r2 % 0x100;
    assert r3 % 0x100 == r3;
  }

  /**
   * `nrf_wifi_patch_version_compat` (true for 0, false for -1): each of the
   * four version bytes, bits 31-24, 23-16, 15-8 and 7-0, must match. That
   * is, the version word must be exactly the expected one.
   */
  function PatchVersionCompat(exp: Expected, version: u32): (ok: bool)
    ensures ok <==> version == PackedVersion(exp)
  {
    var family := version / 0x100_0000 % 0x100;
    var major := version / 0x1_0000 % 0x100;
    var minor := version / 0x100 % 0x100;
    var patch := version % 0x100;
    VersionDecompose(version);
    if family != exp.family then false
    else if major != exp.major then false
    else if minor != exp.minor then false
    else if patch != exp.patch then false
    else true
  }

  /** `fmac_dev_ctx->op_mode`. */
  datatype OpMode = OpModeRt | OpModeSys | OpModeOffRawTx | OtherOpMode

  /** Which of `NRF70_SCAN_ONLY`, `NRF70_SYSTEM_MODE` and
   *  `NRF70_SYSTEM_WITH_RAW_MODES` the driver is built with, if any. */
  datatype SysBuild = ScanOnlyBuild | SystemModeBuild | SystemWithRawBuild | NoModeBuild

  /** The `NRF70_FEAT_*` bits. */
  datatype FeatureBits = FeatureBits(radioTest: u32, scanOnly: u32, systemMode: u32,
                                     systemWithRaw: u32, offloadedRawTx: u32)

  /** `flags & mask` is not zero. */
  predicate FlagSet(flags: u32, mask: u32)
  {
    (flags as bv32) & (mask as bv32) != 0
  }

  /** The feature bit an operating mode needs in this build: none for the
   *  system mode of a build without a mode, which is only logged. */
  function RequiredFeature(mode: OpMode, build: SysBuild, bits: FeatureBits): Option<u32>
    requires mode != OtherOpMode
  {
    match mode
    case OpModeRt => Some(bits.radioTest)
    case OpModeOffRawTx => Some(bits.offloadedRawTx)
    case OpModeSys =>
      match build
      case ScanOnlyBuild => Some(bits.scanOnly)
      case SystemModeBuild => Some(bits.systemMode)
      case SystemWithRawBuild => Some(bits.systemWithRaw)
      case NoModeBuild => None
  }

  /**
   * `nrf_wifi_patch_feature_flags_compat`: an unknown operating mode is
   * refused; otherwise the flags must carry the bit the mode needs.
   */
  function FeatureFlagsCompat(mode: OpMode, build: SysBuild, bits: FeatureBits, flags: u32): (ok: bool)
    ensures ok <==> mode != OtherOpMode &&
                    (RequiredFeature(mode, build, bits).Some? ==> FlagSet(flags, RequiredFeature(mode, build, bits).value))
  {
    if mode == OpModeRt then FlagSet(flags, bits.radioTest)
    else if mode == OpModeSys then
      if build == ScanOnlyBuild then FlagSet(flags, bits.scanOnly)
      else if build == SystemModeBuild then FlagSet(flags, bits.systemMode)
      else if build == SystemWithRawBuild then FlagSet(flags, bits.systemWithRaw)
      else true
    else if mode == OpModeOffRawTx then FlagSet(flags, bits.offloadedRawTx)
    else false
  }

  /** `struct nrf70_fw_image_info`, the fields that are checked. */
  datatype FwImageInfo = FwImageInfo(signature: u32, numImages: u32, version: u32, featureFlags: u32)

  /** The bundle header at the start of the blob. */
  function DecodeInfo(fw: seq<byte>): FwImageInfo
    requires 16 <= |fw|
  {
    FwImageInfo(Le32(fw, 0), Le32(fw, 4), Le32(fw, 8), Le32(fw, 12))
  }

  /** The reason `nrf_wifi_validate_fw_header` logs for its failure. */
  datatype HeaderFault = BadSignature | BadNumImages | BadVersion | BadFeatureFlags

  /** The first check of `nrf_wifi_validate_fw_header` that fails: the
   *  signature, then the image count, then the version, then the flags. */
  function FirstHeaderFault(exp: Expected, mode: OpMode, build: SysBuild, bits: FeatureBits,
                            info: FwImageInfo): (r: Option<HeaderFault>)
    ensures r == Some(BadSignature) <==> info.signature != exp.signature
    ensures r == Some(BadNumImages) <==> info.signature == exp.signature && info.numImages != exp.numImages
    ensures r == Some(BadVersion) <==>
      info.signature == exp.signature && info.numImages == exp.numImages && info.version != PackedVersion(exp)
    ensures r == Some(BadFeatureFlags) <==>
      info.signature == exp.signature && info.numImages == exp.numImages && info.version == PackedVersion(exp) &&
      !FeatureFlagsCompat(mode, build, bits, info.featureFlags)
  {
    if info.signature != exp.signature then Some(BadSignature)
    else if info.numImages != exp.numImages then Some(BadNumImages)
    else if !PatchVersionCompat(exp, info.version) then Some(BadVersion)
    else if !FeatureFlagsCompat(mode, build, bits, info.featureFlags) then Some(BadFeatureFlags)
    else None
  }

  /** `nrf_wifi_validate_fw_header`: success exactly when the header
   *  matches every expectation. */
  function ValidateFwHeader(exp: Expected, mode: OpMode, build: SysBuild, bits: FeatureBits,
                            info: FwImageInfo): (s: Status)
    ensures s == Success <==>
      info.signature == exp.signature && info.numImages == exp.numImages &&
      info.version == PackedVersion(exp) && FeatureFlagsCompat(mode, build, bits, info.featureFlags)
  {
    if FirstHeaderFault(exp, mode, build, bits, info).None? then Success else Fail
  }

  /** `sizeof(struct nrf70_fw_image)`: the type and length words. */
  const IMAGE_HDR_SIZE: nat := 8

  /** A recorded image: where its data starts in the blob, and its size. */
  datatype ImageRef = ImageRef(data: nat, size: nat)

  /** The four patch slots of `struct nrf_wifi_fmac_fw_info`. */
  datatype FwImages = FwImages(lmacPri: ImageRef, lmacSec: ImageRef, umacPri: ImageRef, umacSec: ImageRef)

  /** Slot `k` (`NRF70_IMAGE_LMAC_PRI` .. `NRF70_IMAGE_UMAC_SEC`). */
  function Slot(s: FwImages, k: nat): ImageRef
    requires k < 4
  {
    if k == 0 then s.lmacPri else if k == 1 then s.lmacSec else if k == 2 then s.umacPri else s.umacSec
  }

  /** The `switch (image_id)`: ids 0 to 3 fill their slot, any other id
   *  leaves every slot as it was. */
  function Record(s: FwImages, id: nat, r: ImageRef): (t: FwImages)
    ensures forall k :: 0 <= k < 4 ==> Slot(t, k) == if k == id then r else Slot(s, k)
  {
    if id == 0 then s.(lmacPri := r)
    else if id == 1 then s.(lmacSec := r)
    else if id == 2 then s.(umacPri := r)
    else if id == 3 then s.(umacSec := r)
    else s
  }

  /** The length word of the image header at `offset`. */
  function ImageLen(fw: seq<byte>, offset: nat): u32
    requires offset + IMAGE_HDR_SIZE <= |fw|
  {
    Le32(fw, offset + 4)
  }

  /**
   * The bounds check of `nrf_wifi_fmac_fw_parse`, computed without
   * wrap-around: the image header and data end within `fw_size`. An image
   * that passes it lies inside the blob.
   */
  function ImageFits(offset: nat, len: nat, fwSize: nat): (ok: bool)
    ensures ok ==> offset < offset + IMAGE_HDR_SIZE <= offset + IMAGE_HDR_SIZE + len <= fwSize
  {
    offset + IMAGE_HDR_SIZE + len <= fwSize
  }

  /** The same check as written, where `offset + sizeof(...) + len` is
   *  evaluated in 32 bits (a 32-bit `size_t`). */
  function ImageFitsAsWritten(offset: u32, len: u32, fwSize: u32): (ok: bool)
    ensures offset + IMAGE_HDR_SIZE + len < TWO_32 ==> (ok <==> ImageFits(offset, len, fwSize))
  {
    (offset + IMAGE_HDR_SIZE + len) % TWO_32 <= fwSize
  }

  /**
   * The 32-bit check lets through an image whose length word is
   * `0xFFFFFFF8`: the sum wraps back to `offset`, the image is recorded
   * with a size far beyond the blob, and the next offset, also computed in
   * 32 bits, is the same header again.
   */
  lemma ImageFitsAsWrittenWraps()
    ensures ImageFitsAsWritten(16, 0xFFFF_FFF8, 16)
    ensures !ImageFits(16, 0xFFFF_FFF8, 16)
    ensures (16 + IMAGE_HDR_SIZE + 0xFFFF_FFF8) % TWO_32 == 16
  {
  }

  /** Whether every image header the walk reads lies in readable memory:
   *  the walk reads the header at `offset` before checking it. */
  ghost predicate Readable(fw: seq<byte>, fwSize: nat, n: nat, id: nat, offset: nat)
    decreases n - id
  {
    id < n ==>
      && offset + IMAGE_HDR_SIZE <= |fw|
      && (ImageFits(offset, ImageLen(fw, offset), fwSize) ==>
            Readable(fw, fwSize, n, id + 1, offset + IMAGE_HDR_SIZE + ImageLen(fw, offset)))
  }

  /** The image loop of `nrf_wifi_fmac_fw_parse` from image `id` at
   *  `offset`: failure at the first image that does not fit, otherwise
   *  every image recorded in turn. */
  function Walk(fw: seq<byte>, fwSize: nat, n: nat, id: nat, offset: nat, s: FwImages): (r: (Status, FwImages))
    requires Readable(fw, fwSize, n, id, offset)
    decreases n - id
  {
    if id >= n then (Success, s)
    else
      var len := ImageLen(fw, offset);
      if !ImageFits(offset, len, fwSize) then (Fail, s)
      else Walk(fw, fwSize, n, id + 1, offset + IMAGE_HDR_SIZE + len,
                Record(s, id, ImageRef(offset + IMAGE_HDR_SIZE, len)))
  }

  /** One image of the walk. */
  lemma WalkStep(fw: seq<byte>, fwSize: nat, n: nat, id: nat, offset: nat, s: FwImages)
    requires id < n && Readable(fw, fwSize, n, id, offset)
    ensures var len := ImageLen(fw, offset);
      Walk(fw, fwSize, n, id, offset, s) ==
        if !ImageFits(offset, len, fwSize) then (Fail, s)
        else Walk(fw, fwSize, n, id + 1, offset + IMAGE_HDR_SIZE + len,
                  Record(s, id, ImageRef(offset + IMAGE_HDR_SIZE, len)))
  {
  }

  /** The offset of the `j`-th image after the one at `offset`: images are
   *  consecutive, each starting where the previous one's data ends. */
  function ImageOffset(fw: seq<byte>, offset: nat, j: nat): nat
    decreases j
  {
    if j == 0 || offset + IMAGE_HDR_SIZE > |fw| then offset
    else ImageOffset(fw, offset + IMAGE_HDR_SIZE + ImageLen(fw, offset), j - 1)
  }

  /**
   * After a successful walk, the slot of image `k` holds that image: its
   * data starts right after its own header, at the `k`-th consecutive
   * offset, and ends within `fw_size`.
   */
  lemma {:induction false} WalkRecords(fw: seq<byte>, fwSize: nat, n: nat, id: nat, offset: nat, s: FwImages, k: nat)
    requires Readable(fw, fwSize, n, id, offset)
    requires Walk(fw, fwSize, n, id, offset, s).0 == Success
    requires id <= k < n && k < 4
    ensures var o := ImageOffset(fw, offset, k - id);
      && o + IMAGE_HDR_SIZE <= |fw|
      && Slot(Walk(fw, fwSize, n, id, offset, s).1, k) == ImageRef(o + IMAGE_HDR_SIZE, ImageLen(fw, o))
      && o + IMAGE_HDR_SIZE + ImageLen(fw, o) <= fwSize
    decreases n - id
  {
    var len := ImageLen(fw, offset);
    var next := offset + IMAGE_HDR_SIZE + len;
    var s' := Record(s, id, ImageRef(offset + IMAGE_HDR_SIZE, len));
    if k == id {
      assert ImageOffset(fw, offset, 0) == offset;
      WalkKeeps(fw, fwSize, n, id + 1, next, s', k);
    } else {
      assert ImageOffset(fw, offset, k - id) == ImageOffset(fw, next, k - (id + 1));
      WalkRecords(fw, fwSize, n, id + 1, next, s', k);
    }
  }

  /** The walk from image `id` onwards leaves the slots of earlier ids
   *  alone. */
  lemma {:induction false} WalkKeeps(fw: seq<byte>, fwSize: nat, n: nat, id: nat, offset: nat, s: FwImages, k: nat)
    requires Readable(fw, fwSize, n, id, offset)
    requires k < id && k < 4
    ensures Slot(Walk(fw, fwSize, n, id, offset, s).1, k) == Slot(s, k)
    decreases n - id
  {
    if id < n {
      var len := ImageLen(fw, offset);
      if ImageFits(offset, len, fwSize) {
        WalkKeeps(fw, fwSize, n, id + 1, offset + IMAGE_HDR_SIZE + len,
                  Record(s, id, ImageRef(offset + IMAGE_HDR_SIZE, len)), k);
      }
    }
  }

  /** The inputs `nrf_wifi_fmac_fw_parse` refuses before reading any image:
   *  no blob, an empty one, one shorter than the bundle header, or a
   *  header that does not validate. */
  predicate RefusedUpFront(fw: Option<seq<byte>>, fwSize: u32, infoSize: nat,
                           exp: Expected, mode: OpMode, build: SysBuild, bits: FeatureBits)
    requires infoSize >= 16 && (fw.Some? ==> fwSize <= |fw.value|)
  {
    || fw.None? || fwSize == 0 || fwSize < infoSize
    || ValidateFwHeader(exp, mode, build, bits, DecodeInfo(fw.value)) != Success
  }

  /** The memory the parse reads: `fw_size` bytes at `fw_data`, and every
   *  image header the walk reaches. */
  ghost predicate ParseReadable(fw: Option<seq<byte>>, fwSize: u32, infoSize: nat)
  {
    fw.Some? ==>
      && fwSize <= |fw.value|
      && (infoSize <= fwSize && 16 <= |fw.value| ==>
            Readable(fw.value, fwSize, DecodeInfo(fw.value).numImages, 0, infoSize))
  }

  /** `nrf_wifi_fmac_fw_parse` on the slots `s` of `fw_info`. */
  function Parse(fw: Option<seq<byte>>, fwSize: u32, infoSize: nat,
                 exp: Expected, mode: OpMode, build: SysBuild, bits: FeatureBits, s: FwImages): (r: (Status, FwImages))
    requires infoSize >= 16 && ParseReadable(fw, fwSize, infoSize)
    ensures RefusedUpFront(fw, fwSize, infoSize, exp, mode, build, bits) ==> r == (Fail, s)
  {
    if RefusedUpFront(fw, fwSize, infoSize, exp, mode, build, bits) then (Fail, s)
    else Walk(fw.value, fwSize, DecodeInfo(fw.value).numImages, 0, infoSize, s)
  }

  /**
   * A successful parse has validated the header and recorded each of the
   * first four images in its slot: consecutive from the end of the bundle
   * header, each one's data right after its own header and inside
   * `fw_size`.
   */
  lemma ParseRecordsImages(fw: Option<seq<byte>>, fwSize: u32, infoSize: nat,
                           exp: Expected, mode: OpMode, build: SysBuild, bits: FeatureBits, s: FwImages, k: nat)
    requires infoSize >= 16 && ParseReadable(fw, fwSize, infoSize)
    requires Parse(fw, fwSize, infoSize, exp, mode, build, bits, s).0 == Success
    requires k < 4 && k < exp.numImages
    ensures fw.Some? && 0 < infoSize <= fwSize
    ensures ValidateFwHeader(exp, mode, build, bits, DecodeInfo(fw.value)) == Success
    ensures var o := ImageOffset(fw.value, infoSize, k);
      && o + IMAGE_HDR_SIZE <= |fw.value|
      && Slot(Parse(fw, fwSize, infoSize, exp, mode, build, bits, s).1, k) == ImageRef(o + IMAGE_HDR_SIZE, ImageLen(fw.value, o))
      && infoSize <= o && o + IMAGE_HDR_SIZE + ImageLen(fw.value, o) <= fwSize
  {
    WalkRecords(fw.value, fwSize, DecodeInfo(fw.value).numImages, 0, infoSize, s, k);
    ImageOffsetGrows(fw.value, infoSize, k);
  }

  /** Image offsets never go back. */
  lemma {:induction false} ImageOffsetGrows(fw: seq<byte>, offset: nat, j: nat)
    ensures offset <= ImageOffset(fw, offset, j)
    decreases j
  {
    if j > 0 && offset + IMAGE_HDR_SIZE <= |fw| {
      ImageOffsetGrows(fw, offset + IMAGE_HDR_SIZE + ImageLen(fw, offset), j - 1);
    }
  }

  /** `struct nrf_wifi_fmac_fw_info`, the four patch slots the parse
   *  fills. */
  class FmacFwInfo {
    var lmacPatchPri: ImageRef
    var lmacPatchSec: ImageRef
    var umacPatchPri: ImageRef
    var umacPatchSec: ImageRef

    function Images(): FwImages
      reads this
    {
      FwImages(lmacPatchPri, lmacPatchSec, umacPatchPri, umacPatchSec)
    }

    constructor ()
      ensures Images() == FwImages(ImageRef(0, 0), ImageRef(0, 0), ImageRef(0, 0), ImageRef(0, 0))
    {
      lmacPatchPri := ImageRef(0, 0);
      lmacPatchSec := ImageRef(0, 0);
      umacPatchPri := ImageRef(0, 0);
      umacPatchSec := ImageRef(0, 0);
    }

    /** One arm of the `switch (image_id)`. */
    method RecordImage(id: nat, r: ImageRef)
      modifies this
      ensures Images() == Record(old(Images()), id, r)
    {
      if id == 0 {
        lmacPatchPri := r;
      } else if id == 1 {
        lmacPatchSec := r;
      } else if id == 2 {
        umacPatchPri := r;
      } else if id == 3 {
        umacPatchSec := r;
      }
    }
  }

  /**
   * `nrf_wifi_fmac_fw_parse`: the up-front refusals (a missing `fw_info`
   * among them), then the loop over `num_images` images advancing `offset`
   * past each header and its data and writing the slot of ids 0 to 3.
   */
  method FwParse(fw: Option<seq<byte>>, fwSize: u32, fwInfo: FmacFwInfo?, infoSize: nat,
                 exp: Expected, mode: OpMode, build: SysBuild, bits: FeatureBits) returns (status: Status)
    requires infoSize >= 16 && ParseReadable(fw, fwSize, infoSize)
    modifies fwInfo
    ensures fwInfo == null ==> status == Fail
    ensures fwInfo != null ==>
      (status, fwInfo.Images()) == Parse(fw, fwSize, infoSize, exp, mode, build, bits, old(fwInfo.Images()))
  {
    if fw.None? || fwSize == 0 || fwInfo == null {
      return Fail;
    }
    if fwSize < infoSize {
      return Fail;
    }
    var blob := fw.value;
    var info := DecodeInfo(blob);
    if ValidateFwHeader(exp, mode, build, bits, info) != Success {
      return Fail;
    }
    ghost var goal := Walk(blob, fwSize, info.numImages, 0, infoSize, fwInfo.Images());
    assert goal == Parse(fw, fwSize, infoSize, exp, mode, build, bits, fwInfo.Images());
    var offset: nat := infoSize;
    var id: nat := 0;
    while id < info.numImages
      invariant Readable(blob, fwSize, info.numImages, id, offset)
      invariant Walk(blob, fwSize, info.numImages, id, offset, fwInfo.Images()) == goal
      decreases info.numImages - id
    {
      var len := ImageLen(blob, offset);
      WalkStep(blob, fwSize, info.numImages, id, offset, fwInfo.Images());
      if !ImageFits(offset, len, fwSize) {
        return Fail;
      }
      fwInfo.RecordImage(id, ImageRef(offset + IMAGE_HDR_SIZE, len));
      offset := offset + IMAGE_HDR_SIZE + len;
      id := id + 1;
    }
    status := Success;
  }
}
