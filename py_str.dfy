/**
 * The few Python string operations the scripts rely on, on `seq<char>`:
 * `join`, `split` with a separator and with none, `strip`, `startswith`,
 * `in` and `index` for substrings. Whitespace is the set `str.isspace` accepts.
 */
module PyStr {
  import opened Common

  /** Python's `sep.join(parts)`. */
  function Join(parts: seq<string>, sep: char): (s: string)
    ensures |parts| == 1 ==> s == parts[0]
  {
    if |parts| == 0 then ""
    else if |parts| == 1 then parts[0]
    else parts[0] + [sep] + Join(parts[1..], sep)
  }

  /** Python's `s.split(sep)`: the pieces between the separators. */
  function Split(s: string, sep: char): (parts: seq<string>)
    ensures |parts| >= 1
    decreases |s|
  {
    if sep !in s then [s]
    else
      var i := FirstIndex(s, sep);
      [s[..i]] + Split(s[i + 1..], sep)
  }

  function FirstIndex(s: string, c: char): (i: nat)
    requires c in s
    ensures i < |s| && s[i] == c && c !in s[..i]
  {
    if s[0] == c then 0
    else
      assert c in s[1..] by {
        var k :| 0 <= k < |s| && s[k] == c;
        assert s[1..][k - 1] == c;
      }
      var j := FirstIndex(s[1..], c);
      assert s[..j + 1] == [s[0]] + s[1..][..j];
      j + 1
  }

  /** Splitting undoes joining pieces that do not hold the separator. */
  lemma {:induction false} SplitJoin(parts: seq<string>, sep: char)
    requires |parts| >= 1
    requires forall k :: 0 <= k < |parts| ==> sep !in parts[k]
    ensures Split(Join(parts, sep), sep) == parts
    decreases |parts|
  {
    if |parts| > 1 {
      var head, tail := parts[0], parts[1..];
      assert parts == [head] + tail;
      assert forall k :: 0 <= k < |tail| ==> tail[k] == parts[k + 1];
      assert Join(parts, sep) == head + [sep] + Join(tail, sep);
      SplitCons(head, Join(tail, sep), sep);
      SplitJoin(tail, sep);
    }
  }

  /** A piece without the separator, then the separator, splits off first. */
  lemma SplitCons(head: string, tail: string, sep: char)
    requires sep !in head
    ensures Split(head + [sep] + tail, sep) == [head] + Split(tail, sep)
  {
    var s := head + [sep] + tail;
    assert s[|head|] == sep;
    assert s[..|head|] == head;
    assert FirstIndex(s, sep) == |head|;
    assert s[|head| + 1..] == tail;
  }

  /** `sep.join` of four pieces. */
  lemma JoinFour(a: string, b: string, c: string, d: string, sep: char)
    ensures Join([a, b, c, d], sep) == a + [sep] + b + [sep] + c + [sep] + d
  {
    assert [a, b, c, d][1..] == [b, c, d];
    assert [b, c, d][1..] == [c, d];
    assert [c, d][1..] == [d];
    assert Join([c, d], sep) == c + [sep] + d;
    assert Join([b, c, d], sep) == b + [sep] + (c + [sep] + d);
    assert Join([a, b, c, d], sep) == a + [sep] + (b + [sep] + (c + [sep] + d));
  }


  /** The whitespace `str.strip()` and `str.split()` remove, as
   *  `str.isspace` defines it: tab to carriage return (0x09 to 0x0D), the
   *  separators 0x1C to 0x1F, space, NEL (0x85), no-break space (0xA0), and
   *  the Unicode spaces and separators U+1680, U+2000 to U+200A, U+2028,
   *  U+2029, U+202F, U+205F and U+3000. */
  predicate IsSpace(c: char)
  {
    || '\t' <= c <= '\r' || '\U{1C}' <= c <= ' ' || c == '\U{85}' || c == '\U{A0}'
    || c == '\U{1680}' || '\U{2000}' <= c <= '\U{200A}' || c == '\U{2028}' || c == '\U{2029}'
    || c == '\U{202F}' || c == '\U{205F}' || c == '\U{3000}'
  }

  predicate NoSpace(s: string)
  {
    forall i :: 0 <= i < |s| ==> !IsSpace(s[i])
  }

  predicate AllSpace(s: string)
  {
    forall i :: 0 <= i < |s| ==> IsSpace(s[i])
  }

  /** `s.lstrip()`: the suffix after the leading whitespace. */
  function LStrip(s: string): (r: string)
    ensures |r| <= |s| && r == s[|s| - |r|..]
    ensures AllSpace(s[..|s| - |r|])
    ensures |r| > 0 ==> !IsSpace(r[0])
    decreases |s|
  {
    if |s| > 0 && IsSpace(s[0]) then
      var r := LStrip(s[1..]);
      assert s[1..][|s| - 1 - |r|..] == s[|s| - |r|..];
      AllSpaceCons(s[0], s[1..][..|s| - 1 - |r|]);
      assert s[..|s| - |r|] == [s[0]] + s[1..][..|s| - 1 - |r|];
      r
    else s
  }

  lemma AllSpaceCons(c: char, t: string)
    requires IsSpace(c) && AllSpace(t)
    ensures AllSpace([c] + t) && AllSpace(t + [c])
  {
    forall i | 0 <= i < |t| + 1
      ensures IsSpace(([c] + t)[i]) && IsSpace((t + [c])[i])
    {
      if i > 0 {
        assert ([c] + t)[i] == t[i - 1];
      }
      if i < |t| {
        assert (t + [c])[i] == t[i];
      }
    }
  }

  /** `s.rstrip()`: the prefix before the trailing whitespace. */
  function RStrip(s: string): (r: string)
    ensures |r| <= |s| && r == s[..|r|]
    ensures AllSpace(s[|r|..])
    ensures |r| > 0 ==> !IsSpace(r[|r| - 1])
    decreases |s|
  {
    if |s| > 0 && IsSpace(s[|s| - 1]) then
      var r := RStrip(s[..|s| - 1]);
      assert s[..|s| - 1][..|r|] == s[..|r|];
      AllSpaceCons(s[|s| - 1], s[..|s| - 1][|r|..]);
      assert s[|r|..] == s[..|s| - 1][|r|..] + [s[|s| - 1]];
      r
    else s
  }

  /** Where `s.strip()` starts: after the leading whitespace. */
  function StripStart(s: string): (i: nat)
    ensures i <= |s| && AllSpace(s[..i])
  {
    |s| - |LStrip(s)|
  }

  /** A prefix `r` of the suffix `l` of `s` starting at `i` is the slice of
   *  `s` from `i`, and what follows it in `l` is what follows it in `s`. */
  lemma SliceOfSuffix(s: string, i: nat, l: string, r: string)
    requires i <= |s| && l == s[i..] && |r| <= |l| && r == l[..|r|]
    ensures i + |r| <= |s| && r == s[i..i + |r|] && s[i + |r|..] == l[|r|..]
  {
    assert s[i..][..|r|] == s[i..i + |r|];
  }

  /** `s.strip()`: `s` without whitespace at either end, and nothing else
   *  removed. */
  function Strip(s: string): (r: string)
    ensures StripStart(s) + |r| <= |s|
    ensures r == s[StripStart(s)..StripStart(s) + |r|]
    ensures AllSpace(s[StripStart(s) + |r|..])
    ensures |r| > 0 ==> !IsSpace(r[0]) && !IsSpace(r[|r| - 1])
  {
    var l := LStrip(s);
    var r := RStrip(l);
    SliceOfSuffix(s, StripStart(s), l, r);
    r
  }

  /** `pat` occurs in `s` at position `i`. */
  predicate OccursAt(s: string, pat: string, i: nat)
  {
    i + |pat| <= |s| && s[i..i + |pat|] == pat
  }

  /** `s.find(pat)`, with `None` for -1. */
  function Find(s: string, pat: string): (r: Option<nat>)
    ensures r.Some? ==> OccursAt(s, pat, r.value)
    decreases |s|
  {
    if |s| < |pat| then None
    else if s[..|pat|] == pat then Some(0)
    else
      match Find(s[1..], pat)
      case None => None
      case Some(k) =>
        assert s[k + 1..k + 1 + |pat|] == s[1..][k..k + |pat|];
        Some(k + 1)
  }

  /** `find` gives the first position of `pat`, and `None` only when `pat`
   *  does not occur at all. */
  lemma {:induction false} FindFirst(s: string, pat: string)
    ensures Find(s, pat).Some? ==> forall j :: 0 <= j < Find(s, pat).value ==> !OccursAt(s, pat, j)
    ensures Find(s, pat).None? ==> forall j :: 0 <= j ==> !OccursAt(s, pat, j)
    decreases |s|
  {
    if |s| >= |pat| && s[..|pat|] != pat {
      FindFirst(s[1..], pat);
      forall j | 1 <= j && OccursAt(s, pat, j)
        ensures OccursAt(s[1..], pat, j - 1)
      {
        assert s[1..][j - 1..j - 1 + |pat|] == s[j..j + |pat|];
      }
    }
  }

  /** `s[:s.index(pat)]` when `pat in s`, `s` otherwise. */
  function CutAt(s: string, pat: string): (r: string)
    ensures r <= s
    ensures Find(s, pat).None? ==> r == s
  {
    match Find(s, pat)
    case None => s
    case Some(i) => s[..i]
  }

  /** What is left after the cut holds no `pat`. */
  lemma CutAtClean(s: string, pat: string)
    requires |pat| > 0
    ensures forall j :: 0 <= j ==> !OccursAt(CutAt(s, pat), pat, j)
  {
    FindFirst(s, pat);
    var r := CutAt(s, pat);
    forall j | 0 <= j && OccursAt(r, pat, j)
      ensures OccursAt(s, pat, j)
    {
      assert s[j..j + |pat|] == r[j..j + |pat|];
    }
  }

  /** The length of the first run of non-whitespace. */
  function WordLen(s: string): (n: nat)
    ensures n <= |s| && NoSpace(s[..n]) && (n < |s| ==> IsSpace(s[n]))
  {
    if |s| == 0 || IsSpace(s[0]) then 0
    else
      var n := 1 + WordLen(s[1..]);
      assert s[..n] == [s[0]] + s[1..][..n - 1];
      n
  }

  /** Non-empty pieces without whitespace. */
  predicate IsWords(parts: seq<string>)
  {
    forall k :: 0 <= k < |parts| ==> |parts[k]| > 0 && NoSpace(parts[k])
  }

  lemma WordsCons(w: string, rest: seq<string>)
    requires |w| > 0 && NoSpace(w) && IsWords(rest)
    ensures IsWords([w] + rest)
  {
    forall k | 0 <= k < |[w] + rest|
      ensures |([w] + rest)[k]| > 0 && NoSpace(([w] + rest)[k])
    {
      if k > 0 {
        assert ([w] + rest)[k] == rest[k - 1];
      }
    }
  }

  /** A prefix of a list of words is a list of words. */
  lemma WordsPrefix(parts: seq<string>, n: nat)
    requires IsWords(parts) && n <= |parts|
    ensures IsWords(parts[..n])
  {
    forall k | 0 <= k < n
      ensures |parts[..n][k]| > 0 && NoSpace(parts[..n][k])
    {
      assert parts[..n][k] == parts[k];
    }
  }

  /** `s.split()`: the maximal runs of non-whitespace, in order. */
  function SplitWs(s: string): (parts: seq<string>)
    ensures IsWords(parts)
    decreases |s|
  {
    var t := LStrip(s);
    if |t| == 0 then []
    else
      var n := WordLen(t);
      assert n > 0 by {
        assert !IsSpace(t[0]);
      }
      var rest := SplitWs(t[n..]);
      WordsCons(t[..n], rest);
      [t[..n]] + rest
  }

  /** A word followed by whitespace or nothing is one word long. */
  lemma {:induction false} WordLenOf(w: string, x: string)
    requires NoSpace(w) && (|x| == 0 || IsSpace(x[0]))
    ensures WordLen(w + x) == |w|
    decreases |w|
  {
    if |w| > 0 {
      assert (w + x)[1..] == w[1..] + x;
      WordLenOf(w[1..], x);
    } else {
      assert w + x == x;
    }
  }

  /** A join starts with its first piece. */
  lemma {:induction false} JoinHead(parts: seq<string>, sep: char)
    requires |parts| >= 1
    ensures parts[0] <= Join(parts, sep)
  {
    if |parts| > 1 {
      assert Join(parts, sep) == parts[0] + ([sep] + Join(parts[1..], sep));
    }
  }

  /**
   * `split()` undoes `' '.join` of words without whitespace, so the type
   * words a field line is rebuilt from come back unchanged.
   */
  lemma {:induction false} SplitWsJoin(words: seq<string>)
    requires IsWords(words)
    ensures SplitWs(Join(words, ' ')) == words
    decreases |words|
  {
    if |words| <= 1 {
      SplitWsJoinShort(words);
    } else {
      var w, tail := words[0], words[1..];
      assert words == [w] + tail;
      SplitWsJoinStep(words);
      WordsSuffix(words);
      SplitWsJoin(tail);
    }
  }

  lemma SplitWsJoinShort(words: seq<string>)
    requires IsWords(words) && |words| <= 1
    ensures SplitWs(Join(words, ' ')) == words
  {
    if |words| == 1 {
      var w := words[0];
      assert words == [w];
      SplitWsOne(w);
    } else {
      assert LStrip("") == "";
    }
  }

  /** A single word splits into itself. */
  lemma SplitWsOne(w: string)
    requires |w| > 0 && NoSpace(w)
    ensures SplitWs(w) == [w]
  {
    SplitWsWord(w, "");
    assert w + "" == w;
    assert LStrip("") == "";
  }

  /** The first of two or more joined words splits off first. */
  lemma SplitWsJoinStep(words: seq<string>)
    requires IsWords(words) && |words| > 1
    ensures SplitWs(Join(words, ' ')) == [words[0]] + SplitWs(Join(words[1..], ' '))
  {
    var rest := Join(words[1..], ' ');
    assert Join(words, ' ') == words[0] + ([' '] + rest);
    SplitWsWord(words[0], [' '] + rest);
    JoinHead(words[1..], ' ');
    assert rest[0] == words[1][0];
    SplitWsSpace(rest);
  }

  lemma WordsSuffix(parts: seq<string>)
    requires IsWords(parts) && |parts| > 0
    ensures IsWords(parts[1..])
  {
    forall k | 0 <= k < |parts| - 1
      ensures |parts[1..][k]| > 0 && NoSpace(parts[1..][k])
    {
      assert parts[1..][k] == parts[k + 1];
    }
  }

  /** A word followed by whitespace or nothing splits off first. */
  lemma SplitWsWord(w: string, x: string)
    requires |w| > 0 && NoSpace(w) && (|x| == 0 || IsSpace(x[0]))
    ensures SplitWs(w + x) == [w] + SplitWs(x)
  {
    var s := w + x;
    assert s[0] == w[0];
    assert LStrip(s) == s;
    WordLenOf(w, x);
    assert s[..|w|] == w && s[|w|..] == x;
  }

  /** One space before a string that starts with a word is dropped. */
  lemma SplitWsSpace(rest: string)
    requires |rest| > 0 && !IsSpace(rest[0])
    ensures SplitWs([' '] + rest) == SplitWs(rest)
  {
    assert LStrip(rest) == rest;
    assert ([' '] + rest)[1..] == rest;
    assert LStrip([' '] + rest) == rest;
  }
}
