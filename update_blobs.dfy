/**
 * The blob-metadata helpers of `scripts/update_blobs.py`: the version
 * string read out of a firmware bundle, and the per-mode blob description.
 * The hashing, HTTP download and template rendering are not modelled.
 */
module UpdateBlobs {
  import opened Common
  import FwParse
  import opened PyStr

  /** The ASCII digit of `d`. */
  function Digit(d: nat): (c: char)
    requires d < 10
    ensures '0' <= c <= '9'
  {
    (48 + d) as char
  }

  /** The value of an ASCII digit. */
  function DigitValue(c: char): nat
  {
    if '0' <= c <= '9' then (c as int) - 48 else 0
  }

  predicate IsDigits(s: string)
  {
    forall i :: 0 <= i < |s| ==> '0' <= s[i] <= '9'
  }

  /** Python's `str(n)` for a natural number: its decimal digits, with no
   *  leading zero. */
  function Decimal(n: nat): (s: string)
    ensures |s| >= 1 && IsDigits(s)
    ensures s[0] == '0' ==> n == 0 && s == "0"
    ensures n < 10 ==> |s| == 1
    ensures n < 100 ==> |s| <= 2
    ensures n < 1000 ==> |s| <= 3
    decreases n
  {
    if n < 10 then [Digit(n)] else Decimal(n / 10) + [Digit(n % 10)]
  }

  /** The number a string of decimal digits denotes. */
  function DecimalValue(s: string): nat
  {
    if |s| == 0 then 0 else 10 * DecimalValue(s[..|s| - 1]) + DigitValue(s[|s| - 1])
  }

  /** `str` loses nothing: reading the digits back gives the number. */
  lemma {:induction false} DecimalRoundTrip(n: nat)
    ensures DecimalValue(Decimal(n)) == n
    decreases n
  {
    if n >= 10 {
      DecimalRoundTrip(n / 10);
      var s := Decimal(n);
      assert s[..|s| - 1] == Decimal(n / 10);
      assert DigitValue(s[|s| - 1]) == n % 10;
    }
  }

  /** Decimal digits hold no `.`. */
  lemma NoDotInDecimal(n: nat)
    ensures '.' !in Decimal(n)
  {
  }

  /** The components `parse_version_from_binary` builds: each byte of
   *  `bytes`, in stored order, as a decimal. */
  function VersionParts(bytes: seq<byte>): (parts: seq<string>)
  {
    seq(|bytes|, i requires 0 <= i < |bytes| => Decimal(bytes[i]))
  }

  /**
   * `parse_version_from_binary`: `"1.0.0"` for a blob shorter than 12
   * bytes, otherwise bytes 8 to 11 as decimals joined by dots.
   */
  function ParseVersion(data: seq<byte>): (r: string)
    ensures |data| < 12 ==> r == "1.0.0"
  {
    if |data| < 12 then "1.0.0" else Join(VersionParts(data[8..12]), '.')
  }

  /** The loop of `parse_version_from_binary`, appending one component per
   *  version byte. */
  method ParseVersionFromBinary(data: seq<byte>) returns (version: string)
    ensures version == ParseVersion(data)
  {
    if |data| < 12 {
      return "1.0.0";
    }
    var versionBytes := data[8..12];
    var parts: seq<string> := [];
    var i := 0;
    while i < |versionBytes|
      invariant i <= |versionBytes|
      invariant parts == VersionParts(versionBytes[..i])
    {
      parts := parts + [Decimal(versionBytes[i])];
      i := i + 1;
      assert versionBytes[..i][..i - 1] == versionBytes[..i - 1];
    }
    assert versionBytes[..i] == versionBytes;
    version := Join(parts, '.');
  }

  /**
   * A version string from a blob of at least 12 bytes has exactly four
   * dot-separated decimal components, which read back as bytes 8, 9, 10
   * and 11 in that order, and depends on nothing else in the blob.
   */
  lemma VersionComponents(data: seq<byte>)
    requires |data| >= 12
    ensures var parts := Split(ParseVersion(data), '.');
      && |parts| == 4
      && forall k :: 0 <= k < 4 ==> IsDigits(parts[k]) && |parts[k]| <= 3 && DecimalValue(parts[k]) == data[8 + k]
  {
    var bs := data[8..12];
    var parts := VersionParts(bs);
    forall k | 0 <= k < |parts|
      ensures '.' !in parts[k]
    {
      NoDotInDecimal(bs[k]);
    }
    SplitJoin(parts, '.');
    forall k | 0 <= k < 4
      ensures DecimalValue(parts[k]) == data[8 + k]
    {
      DecimalRoundTrip(bs[k]);
    }
  }

  /** Two blobs that agree on bytes 8 to 11 get the same version. */
  lemma VersionOnlyReadsBytes8To11(a: seq<byte>, b: seq<byte>)
    requires |a| >= 12 && |b| >= 12 && a[8..12] == b[8..12]
    ensures ParseVersion(a) == ParseVersion(b)
  {
  }

  /**
   * The version as the bundle header defines it: the 32-bit word at byte 8,
   * read little-endian, printed family, major, minor, patch (bits 31-24
   * down to 7-0), so bytes 11, 10, 9, 8.
   */
  function IntendedVersion(data: seq<byte>): (r: string)
    ensures |data| < 12 ==> r == "1.0.0"
  {
    if |data| < 12 then "1.0.0"
    else Join([Decimal(data[11]), Decimal(data[10]), Decimal(data[9]), Decimal(data[8])], '.')
  }

  /** The intended string prints the version word's fields that
   *  `nrf_wifi_patch_version_compat` checks, most significant first. */
  lemma IntendedVersionFields(data: seq<byte>)
    requires |data| >= 12
    ensures var v := FwParse.Le32(data, 8);
      IntendedVersion(data) ==
        Join([Decimal(v / 0x100_0000 % 0x100), Decimal(v / 0x1_0000 % 0x100),
              Decimal(v / 0x100 % 0x100), Decimal(v % 0x100)], '.')
  {
    FwParse.Le32Bytes(data, 8);
  }

  lemma SmallDecimals()
    ensures Decimal(1) == "1" && Decimal(2) == "2" && Decimal(14) == "14"
  {
    assert Decimal(14) == Decimal(1) + ['4'];
  }

  /** The docstring's own example as written: bytes `02 0e 02 01` print as
   *  `2.14.2.1`. */
  lemma DocExampleAsWritten()
    ensures ParseVersion([0, 0, 0, 0, 0, 0, 0, 0, 2, 14, 2, 1]) == "2.14.2.1"
  {
    var data: seq<byte> := [0, 0, 0, 0, 0, 0, 0, 0, 2, 14, 2, 1];
    SmallDecimals();
    assert data[8..12] == [2, 14, 2, 1];
    var vp := VersionParts([2, 14, 2, 1]);
    assert vp[0] == "2" && vp[1] == "14" && vp[2] == "2" && vp[3] == "1";
    assert vp == ["2", "14", "2", "1"];
    JoinFour("2", "14", "2", "1", '.');
  }

  /** The same bytes give the docstring's `1.2.14.2` when printed as the
   *  header's version word. */
  lemma DocExampleIntended()
    ensures IntendedVersion([0, 0, 0, 0, 0, 0, 0, 0, 2, 14, 2, 1]) == "1.2.14.2"
  {
    SmallDecimals();
    JoinFour("1", "2", "14", "2", '.');
  }

  const WIFI_FW_BIN_NAME: string := "nrf70.bin"

  /** `BlobInfo`. */
  datatype BlobInfo = BlobInfo(name: string, description: string, version: string,
                               rpath: string, lpath: string, docpath: string)

  /** `get_wifi_blob_info`: the blob of firmware mode `name`. */
  function GetWifiBlobInfo(name: string): (b: BlobInfo)
    ensures b.name == name && b.version == "1.0.0"
    ensures "nrf_wifi/bin/zephyr/" <= b.rpath && "wifi_fw_bins/" <= b.lpath
  {
    BlobInfo(name,
             "nRF70 Wi-Fi firmware for " + name + " mode",
             "1.0.0",
             "nrf_wifi/bin/zephyr/" + name + "/" + WIFI_FW_BIN_NAME,
             "wifi_fw_bins/" + name + "/" + WIFI_FW_BIN_NAME,
             "https://docs.nordicsemi.com/bundle/ps_nrf7000/page/chapters/notice/doc/notice_on_sw.html")
  }

  /** The mode name sits in both paths and the description, so different
   *  modes never share a path. */
  lemma BlobPathsDistinct(a: string, b: string)
    requires a != b
    ensures GetWifiBlobInfo(a).rpath != GetWifiBlobInfo(b).rpath
    ensures GetWifiBlobInfo(a).lpath != GetWifiBlobInfo(b).lpath
  {
    var t := "/" + WIFI_FW_BIN_NAME;
    assert GetWifiBlobInfo(a).rpath == "nrf_wifi/bin/zephyr/" + a + t;
    assert GetWifiBlobInfo(b).rpath == "nrf_wifi/bin/zephyr/" + b + t;
    assert GetWifiBlobInfo(a).lpath == "wifi_fw_bins/" + a + t;
    assert GetWifiBlobInfo(b).lpath == "wifi_fw_bins/" + b + t;
    if GetWifiBlobInfo(a).rpath == GetWifiBlobInfo(b).rpath {
      MiddleInjective("nrf_wifi/bin/zephyr/", a, b, t);
    }
    if GetWifiBlobInfo(a).lpath == GetWifiBlobInfo(b).lpath {
      MiddleInjective("wifi_fw_bins/", a, b, t);
    }
  }

  /** A piece between a fixed prefix and a fixed suffix is determined by
   *  the whole. */
  lemma MiddleInjective(p: string, a: string, b: string, t: string)
    requires p + a + t == p + b + t
    ensures a == b
  {
    var x := p + a + t;
    var y := p + b + t;
    assert |a| == |b|;
    assert x[|p|..|p| + |a|] == a;
    assert y[|p|..|p| + |b|] == b;
  }
}
