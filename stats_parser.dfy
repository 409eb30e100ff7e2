/**
 * The firmware statistics decoder of `scripts/nrf70_fw_stats_parser.py`:
 * the field list read out of a C struct body, the `struct` format character
 * of each field type, and the walk over a statistics blob that unpacks the
 * six sections in turn, each only if it fits in what is left of the blob.
 *
 * Finding the struct bodies in the header (a regular expression), reading
 * files, printing the values and the command line are not modelled; the
 * parser object is built from the struct bodies already found.
 */
module StatsParser {
  import opened Common
  import opened PyStr

  /** A struct field: its C type and its name. */
  datatype Field = Field(ctype: string, name: string)

  /** A field with a non-empty type and a non-empty name without
   *  whitespace. */
  predicate FieldOk(f: Field)
  {
    |f.ctype| > 0 && |f.name| > 0 && NoSpace(f.name)
  }

  /** The field one line of a struct body declares, if any: blank and
   *  comment lines declare none, trailing comments are cut, and the text
   *  before the first `;` must hold a type and a name. */
  function LineField(raw: string): (r: Option<Field>)
    ensures Strip(raw) == "" || "//" <= Strip(raw) || "/*" <= Strip(raw) ==> r.None?
    ensures r.Some? ==> FieldOk(r.value)
  {
    var line := Strip(raw);
    if line == "" || "//" <= line || "/*" <= line then None
    else WordsField(SplitWs(FieldPart(raw)))
  }

  /** The field the words of a declaration give: the last word is the name
   *  and the words before it, joined by spaces, the type; fewer than two
   *  words give none. */
  function WordsField(parts: seq<string>): (r: Option<Field>)
    requires IsWords(parts)
    ensures r.Some? <==> |parts| >= 2
    ensures r.Some? ==> FieldOk(r.value)
  {
    if |parts| >= 2 then
      var ty := parts[..|parts| - 1];
      JoinHead(ty, ' ');
      Some(Field(Join(ty, ' '), parts[|parts| - 1]))
    else None
  }

  /** The line with its comments cut, at the first `//` and then at the
   *  first block-comment opener. */
  function Uncommented(raw: string): string
  {
    CutAt(CutAt(Strip(raw), "//"), "/*")
  }

  /** `line[:line.index(';')].strip()` of the uncommented line, or the empty
   *  string (which declares nothing) when it holds no `;`. */
  function FieldPart(raw: string): string
  {
    var line := Uncommented(raw);
    if ';' in line then Strip(line[..FirstIndex(line, ';')]) else ""
  }

  /** What a field is taken from holds no comment marker and no `;`. */
  lemma FieldPartClean(raw: string)
    ensures forall j :: 0 <= j ==> !OccursAt(Uncommented(raw), "//", j) && !OccursAt(Uncommented(raw), "/*", j)
    ensures ';' !in FieldPart(raw)
  {
    var c1 := CutAt(Strip(raw), "//");
    var c2 := CutAt(c1, "/*");
    CutAtClean(Strip(raw), "//");
    CutAtClean(c1, "/*");
    forall j | 0 <= j && OccursAt(c2, "//", j)
      ensures OccursAt(c1, "//", j)
    {
      assert c1[j..j + 2] == c2[j..j + 2];
    }
    if ';' in c2 {
      var pre := c2[..FirstIndex(c2, ';')];
      StripChars(pre);
    }
  }

  /** `strip()` keeps only characters of the string. */
  lemma StripChars(s: string)
    ensures forall c :: c in Strip(s) ==> c in s
  {
    var r := Strip(s);
    var i := StripStart(s);
    forall c | c in r
      ensures c in s
    {
      var k :| 0 <= k < |r| && r[k] == c;
      assert s[i + k] == c;
    }
  }

  /**
   * A field is the last word of its declaration, with the words before it
   * as the type: splitting the type again gives them back, and the name
   * holds no `;`.
   */
  lemma LineFieldWords(raw: string)
    requires LineField(raw).Some?
    ensures var f := LineField(raw).value;
      SplitWs(f.ctype) + [f.name] == SplitWs(FieldPart(raw)) && ';' !in f.name
  {
    var parts := SplitWs(FieldPart(raw));
    assert LineField(raw) == WordsField(parts);
    LastWordSplit(parts);
    FieldPartClean(raw);
    NoSemicolonWords(FieldPart(raw));
  }

  /** Splitting the words before the last again gives them back. */
  lemma LastWordSplit(parts: seq<string>)
    requires IsWords(parts) && |parts| >= 2
    ensures SplitWs(Join(parts[..|parts| - 1], ' ')) + [parts[|parts| - 1]] == parts
  {
    var ty, last := parts[..|parts| - 1], parts[|parts| - 1];
    assert ty + [last] == parts;
    WordsPrefix(parts, |parts| - 1);
    SplitWsJoin(ty);
  }

  /** No word of a string without `;` holds one. */
  lemma NoSemicolonWords(s: string)
    requires ';' !in s
    ensures forall k :: 0 <= k < |SplitWs(s)| ==> ';' !in SplitWs(s)[k]
  {
    SplitWsAvoids(s, ';');
  }

  /** A character absent from a string is absent from each of its
   *  `split()` words. */
  lemma {:induction false} SplitWsAvoids(s: string, c: char)
    requires c !in s
    ensures forall k :: 0 <= k < |SplitWs(s)| ==> c !in SplitWs(s)[k]
    decreases |s|
  {
    var t := LStrip(s);
    assert c !in t by {
      assert t == s[|s| - |t|..];
    }
    if |t| > 0 {
      var n := WordLen(t);
      assert c !in t[..n] && c !in t[n..] by {
        assert t == t[..n] + t[n..];
      }
      SplitWsAvoids(t[n..], c);
      var parts := SplitWs(s);
      var rest := SplitWs(t[n..]);
      assert parts == [t[..n]] + rest;
      forall k | 0 < k < |parts|
        ensures c !in parts[k]
      {
        assert parts[k] == rest[k - 1];
      }
    }
  }

  /** The field a line declares, as a list of zero or one fields. */
  function Declared(line: string): seq<Field>
  {
    var f := LineField(line);
    if f.Some? then [f.value] else []
  }

  /** The values of the present options, in order. */
  function Somes(opts: seq<Option<Field>>): (r: seq<Field>)
    ensures |r| <= |opts|
  {
    if |opts| == 0 then []
    else (if opts[0].Some? then [opts[0].value] else []) + Somes(opts[1..])
  }

  /** The field each line declares, line by line. */
  function LineFields(lines: seq<string>): (r: seq<Option<Field>>)
    ensures |r| == |lines|
  {
    if |lines| == 0 then [] else [LineField(lines[0])] + LineFields(lines[1..])
  }

  /** The fields of a struct body, in line order. */
  function Fields(lines: seq<string>): (r: seq<Field>)
    ensures |r| <= |lines|
  {
    Somes(LineFields(lines))
  }

  lemma {:induction false} LineFieldsOk(lines: seq<string>)
    ensures forall i :: 0 <= i < |LineFields(lines)| && LineFields(lines)[i].Some? ==>
      FieldOk(LineFields(lines)[i].value)
  {
    if |lines| > 0 {
      LineFieldsOk(lines[1..]);
      var r := LineFields(lines);
      var tail := LineFields(lines[1..]);
      assert r == [LineField(lines[0])] + tail;
      forall i | 0 < i < |r|
        ensures r[i] == tail[i - 1]
      {
      }
    }
  }

  lemma {:induction false} LineFieldsAppend(a: seq<string>, b: seq<string>)
    ensures LineFields(a + b) == LineFields(a) + LineFields(b)
    decreases |a|
  {
    if |a| > 0 {
      assert (a + b)[1..] == a[1..] + b;
      assert (a + b)[0] == a[0];
      LineFieldsAppend(a[1..], b);
    } else {
      assert a + b == b;
    }
  }

  lemma {:induction false} SomesOk(opts: seq<Option<Field>>)
    requires forall i :: 0 <= i < |opts| && opts[i].Some? ==> FieldOk(opts[i].value)
    ensures forall k :: 0 <= k < |Somes(opts)| ==> FieldOk(Somes(opts)[k])
  {
    if |opts| > 0 {
      SomesOk(opts[1..]);
      var head := if opts[0].Some? then [opts[0].value] else [];
      var tail := Somes(opts[1..]);
      var r := Somes(opts);
      assert r == head + tail;
      forall k | 0 <= k < |r|
        ensures FieldOk(r[k])
      {
        if k >= |head| {
          assert r[k] == tail[k - |head|];
        }
      }
    }
  }

  lemma {:induction false} SomesAppend(a: seq<Option<Field>>, b: seq<Option<Field>>)
    ensures Somes(a + b) == Somes(a) + Somes(b)
    decreases |a|
  {
    if |a| > 0 {
      assert (a + b)[1..] == a[1..] + b;
      SomesAppend(a[1..], b);
    } else {
      assert a + b == b;
    }
  }

  /** Every field found has a non-empty type and a non-empty name without
   *  whitespace. */
  lemma FieldsWellFormed(lines: seq<string>)
    ensures forall k :: 0 <= k < |Fields(lines)| ==> FieldOk(Fields(lines)[k])
  {
    LineFieldsOk(lines);
    SomesOk(LineFields(lines));
  }

  /** Fields of consecutive lines are the fields of each part in turn, so
   *  the output keeps the source-line order. */
  lemma FieldsAppend(a: seq<string>, b: seq<string>)
    ensures Fields(a + b) == Fields(a) + Fields(b)
  {
    LineFieldsAppend(a, b);
    SomesAppend(LineFields(a), LineFields(b));
  }

  /** One more line adds its field, if it declares one, at the end. */
  lemma FieldsSnoc(lines: seq<string>, i: int)
    requires 0 <= i < |lines|
    ensures Fields(lines[..i + 1]) == Fields(lines[..i]) + Declared(lines[i])
  {
    assert lines[..i + 1] == lines[..i] + [lines[i]];
    FieldsOne(lines[i]);
    FieldsAppend(lines[..i], [lines[i]]);
  }

  /** A single line declares what `Declared` says. */
  lemma FieldsOne(line: string)
    ensures Fields([line]) == Declared(line)
  {
    assert [line][1..] == [];
    assert LineFields([line]) == [LineField(line)];
    var opts := [LineField(line)];
    assert Somes(opts) == (if opts[0].Some? then [opts[0].value] else []) + Somes(opts[1..]);
  }


  /** `StructParser.parse_struct_fields`: the lines of the stripped body,
   *  one field appended for each line that declares one. */
  method ParseStructFields(structBody: string) returns (fields: seq<Field>)
    ensures fields == Fields(Split(Strip(structBody), '\n'))
  {
    var lines := Split(Strip(structBody), '\n');
    fields := FieldsOfLines(lines);
  }

  /** The loop of `parse_struct_fields` over the body's lines. */
  method FieldsOfLines(lines: seq<string>) returns (fields: seq<Field>)
    ensures fields == Fields(lines)
  {
    fields := [];
    var i := 0;
    while i < |lines|
      invariant i <= |lines|
      invariant fields == Fields(lines[..i])
    {
      FieldsSnoc(lines, i);
      fields := fields + Declared(lines[i]);
      i := i + 1;
    }
    assert lines[..i] == lines;
  }

  /** The C types `get_type_format` maps, and their `struct` characters. */
  const TYPE_MAPPING: map<string, char> := map[
    "signed char" := 'b', "unsigned char" := 'B', "char" := 'b',
    "short" := 'h', "unsigned short" := 'H', "int" := 'i', "unsigned int" := 'I',
    "long" := 'l', "unsigned long" := 'L', "long long" := 'q', "unsigned long long" := 'Q',
    "float" := 'f', "double" := 'd']

  /** The format characters of the `struct` module used here. */
  predicate IsFormatChar(c: char)
  {
    c in "bBhHiIlLqQfd"
  }

  /**
   * `StructParser.get_type_format`: no character for a type naming a
   * struct (`None`), the mapped one for the thirteen listed C types, and
   * `'I'` for anything else.
   */
  function GetTypeFormat(fieldType: string): (r: Option<char>)
    ensures r.None? <==> Find(fieldType, "struct").Some?
    ensures r.Some? ==> IsFormatChar(r.value)
    ensures r.Some? && fieldType !in TYPE_MAPPING ==> r.value == 'I'
    ensures r.Some? && fieldType in TYPE_MAPPING ==> r.value == TYPE_MAPPING[fieldType]
  {
    if Find(fieldType, "struct").Some? then None
    else if fieldType in TYPE_MAPPING then Some(TYPE_MAPPING[fieldType])
    else Some('I')
  }

  /** `struct.calcsize` of one character under `<`: standard sizes. */
  function FormatSize(c: char): (n: nat)
    ensures IsFormatChar(c) ==> n in {1, 2, 4, 8}
  {
    if c in "bB" then 1
    else if c in "hH" then 2
    else if c in "qQd" then 8
    else 4
  }

  /** `struct.calcsize('<' + chars)`: no padding under `<`. */
  function CalcSize(chars: string): nat
  {
    if |chars| == 0 then 0 else FormatSize(chars[0]) + CalcSize(chars[1..])
  }

  /** The format characters of the PHY and LMAC sections: each field's own
   *  character, `'I'` for a nested struct. */
  function FieldFormats(fields: seq<Field>): (r: string)
    ensures |r| == |fields|
    ensures forall k :: 0 <= k < |r| ==> IsFormatChar(r[k])
  {
    if |fields| == 0 then ""
    else
      var c := GetTypeFormat(fields[0].ctype);
      [if c.Some? then c.value else 'I'] + FieldFormats(fields[1..])
  }

  /** The six sections of `rpu_sys_fw_stats`, in blob order. */
  const SECTIONS: seq<string> := ["rpu_phy_stats", "rpu_lmac_stats", "umac_tx_dbg_params",
                                  "umac_rx_dbg_params", "umac_cmd_evnt_dbg_params",
                                  "nrf_wifi_interface_stats"]

  /** The size of section `k` when its struct was found: its fields'
   *  formats for the first two, four bytes a field for the others. */
  function SectionSize(structs: map<string, seq<Field>>, k: nat): (r: Option<nat>)
    requires k < |SECTIONS|
    ensures r.Some? <==> SECTIONS[k] in structs
    ensures r.Some? && k >= 2 ==> r.value == 4 * |structs[SECTIONS[k]]|
  {
    var name := SECTIONS[k];
    if name !in structs then None
    else if k < 2 then Some(CalcSize(FieldFormats(structs[name])))
    else
      CalcSizeAllI(|structs[name]|);
      Some(CalcSize(seq(|structs[name]|, _ => 'I')))
  }

  /** `'I' * n` takes four bytes a field. */
  lemma {:induction false} CalcSizeAllI(n: nat)
    ensures CalcSize(seq(n, _ => 'I')) == 4 * n
  {
    if n > 0 {
      assert seq(n, _ => 'I')[1..] == seq(n - 1, _ => 'I');
      CalcSizeAllI(n - 1);
    }
  }

  /** A section that was unpacked: which, where it starts, its size. */
  datatype Unpacked = Unpacked(section: nat, start: nat, size: nat)

  /** The size of each section, or `None` for a struct not found. */
  function Sizes(structs: map<string, seq<Field>>): (r: seq<Option<nat>>)
    ensures |r| == |SECTIONS|
    ensures forall k :: 0 <= k < |SECTIONS| ==> r[k] == SectionSize(structs, k)
  {
    seq(|SECTIONS|, k requires 0 <= k < |SECTIONS| => SectionSize(structs, k))
  }

  /** One section block: unpacked and passed over when it fits in the
   *  blob, skipped otherwise (and then the offset stays). */
  function SectionStep(size: Option<nat>, k: nat, offset: nat, blobLen: nat, done: seq<Unpacked>): (r: (nat, seq<Unpacked>))
    ensures size.Some? && offset + size.value <= blobLen ==> r == (offset + size.value, done + [Unpacked(k, offset, size.value)])
    ensures !(size.Some? && offset + size.value <= blobLen) ==> r == (offset, done)
  {
    if size.Some? && offset + size.value <= blobLen then (offset + size.value, done + [Unpacked(k, offset, size.value)])
    else (offset, done)
  }

  /** The section blocks from `k` on. */
  function StatsFrom(sizes: seq<Option<nat>>, k: nat, offset: nat, blobLen: nat, done: seq<Unpacked>): (r: (nat, seq<Unpacked>))
    requires k <= |sizes|
    decreases |sizes| - k
  {
    if k == |sizes| then (offset, done)
    else
      var (o, d) := SectionStep(sizes[k], k, offset, blobLen, done);
      StatsFrom(sizes, k + 1, o, blobLen, d)
  }

  /** The sections unpacked so far lie back to back, in section order,
   *  from byte 0 to `offset`, which is within the blob. */
  ghost predicate Tiled(done: seq<Unpacked>, offset: nat, blobLen: nat, k: nat)
  {
    && offset <= blobLen
    && (|done| == 0 ==> offset == 0)
    && (|done| > 0 ==> done[0].start == 0 && done[|done| - 1].start + done[|done| - 1].size == offset
                       && done[|done| - 1].section < k)
    && (forall i :: 0 <= i < |done| - 1 ==>
          done[i].start + done[i].size == done[i + 1].start && done[i].section < done[i + 1].section)
  }

  /** Each unpacked section is one whose struct was found, at its full
   *  size. */
  ghost predicate FullSections(sizes: seq<Option<nat>>, done: seq<Unpacked>)
  {
    forall i :: 0 <= i < |done| ==> done[i].section < |sizes| && sizes[done[i].section] == Some(done[i].size)
  }

  /**
   * `parse_rpu_sys_fw_stats`'s offset never passes the end of the blob:
   * every unpacked section lies inside it, the sections are back to back
   * from the start and in the fixed order, and each unpacked section is
   * one whose struct was found, at its full size.
   */
  lemma {:induction false} StatsFromTiles(sizes: seq<Option<nat>>, k: nat, offset: nat, blobLen: nat, done: seq<Unpacked>)
    requires k <= |sizes| && Tiled(done, offset, blobLen, k) && FullSections(sizes, done)
    ensures var r := StatsFrom(sizes, k, offset, blobLen, done);
      Tiled(r.1, r.0, blobLen, |sizes|) && done <= r.1 && FullSections(sizes, r.1)
    decreases |sizes| - k
  {
    if k < |sizes| {
      var (o, d) := SectionStep(sizes[k], k, offset, blobLen, done);
      SectionStepTiles(sizes, k, offset, blobLen, done);
      StatsFromTiles(sizes, k + 1, o, blobLen, d);
    }
  }

  /** One section block keeps the sections tiled and full. */
  lemma SectionStepTiles(sizes: seq<Option<nat>>, k: nat, offset: nat, blobLen: nat, done: seq<Unpacked>)
    requires k < |sizes| && Tiled(done, offset, blobLen, k) && FullSections(sizes, done)
    ensures var (o, d) := SectionStep(sizes[k], k, offset, blobLen, done);
      Tiled(d, o, blobLen, k + 1) && FullSections(sizes, d) && done <= d
  {
    var (o, d) := SectionStep(sizes[k], k, offset, blobLen, done);
    if sizes[k].Some? && offset + sizes[k].value <= blobLen {
      var u := Unpacked(k, offset, sizes[k].value);
      assert d == done + [u];
      assert forall i :: 0 <= i < |done| ==> d[i] == done[i];
      assert d[|d| - 1] == u;
    }
  }

  /** `StructParser`: the struct bodies found in the header, parsed. */
  class StructParser {
    const structs: map<string, seq<Field>>

    /** The parser over the field lists `parse_header` found. */
    constructor (structs: map<string, seq<Field>>)
      ensures this.structs == structs
    {
      this.structs := structs;
    }

    /** One section block of `parse_rpu_sys_fw_stats`. */
    method Section(k: nat, offset: nat, blob: seq<byte>, done: seq<Unpacked>) returns (offset': nat, done': seq<Unpacked>)
      requires k < |SECTIONS|
      ensures (offset', done') == SectionStep(Sizes(structs)[k], k, offset, |blob|, done)
    {
      var size := Sizes(structs)[k];
      if size.Some? && offset + size.value <= |blob| {
        offset' := offset + size.value;
        done' := done + [Unpacked(k, offset, size.value)];
      } else {
        offset', done' := offset, done;
      }
    }

    /**
     * `StructParser.parse_rpu_sys_fw_stats`: the PHY, LMAC, UMAC TX, UMAC
     * RX, UMAC control and interface blocks in turn, each unpacking its
     * section and advancing the offset only if the section fits in what is
     * left of the blob. Returns the final offset and the sections unpacked.
     */
    method ParseRpuSysFwStats(blob: seq<byte>) returns (offset: nat, done: seq<Unpacked>)
      ensures (offset, done) == StatsFrom(Sizes(structs), 0, 0, |blob|, [])
    {
      ghost var goal := StatsFrom(Sizes(structs), 0, 0, |blob|, []);
      offset, done := 0, [];
      offset, done := Section(0, offset, blob, done);
      assert StatsFrom(Sizes(structs), 1, offset, |blob|, done) == goal;
      offset, done := Section(1, offset, blob, done);
      assert StatsFrom(Sizes(structs), 2, offset, |blob|, done) == goal;
      offset, done := Section(2, offset, blob, done);
      assert StatsFrom(Sizes(structs), 3, offset, |blob|, done) == goal;
      offset, done := Section(3, offset, blob, done);
      assert StatsFrom(Sizes(structs), 4, offset, |blob|, done) == goal;
      offset, done := Section(4, offset, blob, done);
      assert StatsFrom(Sizes(structs), 5, offset, |blob|, done) == goal;
      offset, done := Section(5, offset, blob, done);
    }
  }
}
