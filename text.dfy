/** The JavaScript string operations the assemblers, the preprocessor and
    the disassemblers use, on `string` (a sequence of UTF-16 code units is
    modelled as a sequence of `char`). */
module Text {
  import opened Wrappers

  /** The characters matched by the JavaScript class `\s` and removed by
      `String.prototype.trim`: WhiteSpace and LineTerminator of ECMA-262. */
  predicate IsSpace(c: char) {
    c == ' ' || c == '\t' || c == '\n' || c == '\r' || c == '\U{000B}' || c == '\U{000C}'
    || c == '\U{00A0}' || c == '\U{1680}' || ('\U{2000}' <= c <= '\U{200A}')
    || c == '\U{2028}' || c == '\U{2029}' || c == '\U{202F}' || c == '\U{205F}'
    || c == '\U{3000}' || c == '\U{FEFF}'
  }

  predicate StartsWith(s: string, prefix: string) {
    |prefix| <= |s| && s[..|prefix|] == prefix
  }

  predicate EndsWith(s: string, suffix: string) {
    |suffix| <= |s| && s[|s| - |suffix|..] == suffix
  }

  /** `s.trim()` */
  function Trim(s: string): (r: string)
    ensures |r| <= |s|
    ensures r == [] || (!IsSpace(r[0]) && !IsSpace(r[|r| - 1]))
  {
    TrimEnd(TrimStart(s))
  }

  function TrimStart(s: string): (r: string)
    ensures |r| <= |s|
    ensures r == [] || !IsSpace(r[0])
  {
    if s == [] || !IsSpace(s[0]) then s else TrimStart(s[1..])
  }

  /** What `TrimStart` keeps is a suffix. */
  lemma {:induction false} TrimStartIsSuffix(s: string)
    ensures TrimStart(s) == s[|s| - |TrimStart(s)|..]
    decreases |s|
  {
    if s != [] && IsSpace(s[0]) {
      TrimStartIsSuffix(s[1..]);
    }
  }

  function TrimEnd(s: string): (r: string)
    ensures |r| <= |s| && r == s[..|r|]
    ensures r == [] || !IsSpace(r[|r| - 1])
  {
    if s == [] || !IsSpace(s[|s| - 1]) then s else TrimEnd(s[..|s| - 1])
  }

  /** What `TrimStart` removes is white space. */
  lemma {:induction false} TrimStartRemovesSpaces(s: string)
    ensures forall k :: 0 <= k < |s| - |TrimStart(s)| ==> IsSpace(s[k])
    decreases |s|
  {
    if s != [] && IsSpace(s[0]) {
      TrimStartRemovesSpaces(s[1..]);
      forall k | 1 <= k < |s| - |TrimStart(s)| ensures IsSpace(s[k]) {
        assert s[k] == s[1..][k - 1];
      }
    }
  }

  /** What `TrimEnd` removes is white space. */
  lemma {:induction false} TrimEndRemovesSpaces(s: string)
    ensures forall k :: |TrimEnd(s)| <= k < |s| ==> IsSpace(s[k])
    decreases |s|
  {
    if s != [] && IsSpace(s[|s| - 1]) {
      TrimEndRemovesSpaces(s[..|s| - 1]);
      forall k | |TrimEnd(s)| <= k < |s| - 1 ensures IsSpace(s[k]) {
        assert s[k] == s[..|s| - 1][k];
      }
    }
  }

  /** `s.trim()` is the part of `s` between a run of leading and a run of
      trailing white space, and begins and ends with no white space. */
  lemma TrimIsInfix(s: string)
    ensures var i := |s| - |TrimStart(s)|;
      0 <= i <= |s| - |Trim(s)| && Trim(s) == s[i..i + |Trim(s)|] &&
      (forall k :: 0 <= k < i ==> IsSpace(s[k])) &&
      (forall k :: i + |Trim(s)| <= k < |s| ==> IsSpace(s[k]))
  {
    var u := TrimStart(s);
    var r := Trim(s);
    var i := |s| - |u|;
    TrimStartIsSuffix(s);
    TrimStartRemovesSpaces(s);
    TrimEndRemovesSpaces(u);
    assert r == s[i..i + |r|];
    forall k | i + |r| <= k < |s| ensures IsSpace(s[k]) {
      assert s[k] == u[k - i];
    }
  }

  /** The index of the first `c` in `s`, or None (`indexOf` returning -1). */
  function IndexOf(s: string, c: char): (r: Option<nat>)
    ensures r.Some? ==> r.value < |s| && s[r.value] == c && c !in s[..r.value]
    ensures r.None? ==> c !in s
  {
    if s == [] then None
    else if s[0] == c then Some(0)
    else match IndexOf(s[1..], c)
      case None => None
      case Some(k) => assert s[1..][..k] == s[1..k + 1]; Some(k + 1)
  }

  /** `s.split(sep)` for a one-character separator. */
  function Split(s: string, sep: char): (parts: seq<string>)
    ensures |parts| > 0
    ensures forall k :: 0 <= k < |parts| ==> sep !in parts[k]
  {
    match IndexOf(s, sep)
    case None => [s]
    case Some(k) => [s[..k]] + Split(s[k + 1..], sep)
  }

  /** A piece without the separator, the separator and a rest split into
      that piece and the pieces of the rest. */
  lemma SplitAtFirst(a: string, sep: char, b: string)
    requires sep !in a
    ensures Split(a + [sep] + b, sep) == [a] + Split(b, sep)
  {
    var s := a + [sep] + b;
    assert s[|a|] == sep && s[..|a|] == a && s[|a| + 1..] == b;
    var k := IndexOf(s, sep);
    assert k.Some? && k.value == |a|;
  }

  lemma SplitWithoutSeparator(s: string, sep: char)
    requires sep !in s
    ensures Split(s, sep) == [s]
  {
  }

  /** `parts.join(sep)` */
  function Join(parts: seq<string>, sep: char): string {
    if parts == [] then []
    else if |parts| == 1 then parts[0]
    else parts[0] + [sep] + Join(parts[1..], sep)
  }

  /** Splitting and joining again gives back the original string. */
  lemma {:induction false} JoinSplit(s: string, sep: char)
    ensures Join(Split(s, sep), sep) == s
    decreases |s|
  {
    match IndexOf(s, sep)
    case None =>
    case Some(k) =>
      JoinSplit(s[k + 1..], sep);
      assert s == s[..k] + [sep] + s[k + 1..];
  }

  /** `s.split("\n")[0]` */
  function FirstLine(s: string): (r: string)
    ensures '\n' !in r
    ensures StartsWith(s, r)
    ensures r == s || (|r| < |s| && s[|r|] == '\n')
  {
    match IndexOf(s, '\n')
    case None => s
    case Some(k) => s[..k]
  }

  /** The index just past the run of white space starting at `i`. */
  function SkipSpaces(s: string, i: nat): (j: nat)
    requires i <= |s|
    ensures i <= j <= |s|
    ensures j == |s| || !IsSpace(s[j])
    decreases |s| - i
  {
    if i < |s| && IsSpace(s[i]) then SkipSpaces(s, i + 1) else i
  }

  lemma {:induction false} SkipSpacesSkipsSpaces(s: string, i: nat)
    requires i <= |s|
    ensures forall k :: i <= k < SkipSpaces(s, i) ==> IsSpace(s[k])
    decreases |s| - i
  {
    if i < |s| && IsSpace(s[i]) {
      SkipSpacesSkipsSpaces(s, i + 1);
    }
  }

  /** The index of the first white-space character at or after `i`. */
  function FirstSpace(s: string, i: nat): (j: nat)
    requires i <= |s|
    ensures i <= j <= |s|
    ensures j == |s| || IsSpace(s[j])
    decreases |s| - i
  {
    if i < |s| && !IsSpace(s[i]) then FirstSpace(s, i + 1) else i
  }

  lemma {:induction false} FirstSpaceSkipsWord(s: string, i: nat)
    requires i <= |s|
    ensures forall k :: i <= k < FirstSpace(s, i) ==> !IsSpace(s[k])
    decreases |s| - i
  {
    if i < |s| && !IsSpace(s[i]) {
      FirstSpaceSkipsWord(s, i + 1);
    }
  }

  /** `s.split(/\s+/)`: the pieces between maximal runs of white space. */
  function SplitSpaces(s: string): (parts: seq<string>)
    ensures |parts| > 0
    decreases |s|
  {
    var i := FirstSpace(s, 0);
    if i == |s| then [s]
    else
      var j := SkipSpaces(s, i);
      [s[..i]] + SplitSpaces(s[j..])
  }

  /** No piece of `s.split(/\s+/)` holds white space. */
  lemma {:induction false} SplitSpacesHaveNoSpace(s: string)
    ensures forall k :: 0 <= k < |SplitSpaces(s)| ==> forall c :: c in SplitSpaces(s)[k] ==> !IsSpace(c)
    decreases |s|
  {
    var i := FirstSpace(s, 0);
    FirstSpaceSkipsWord(s, 0);
    if i < |s| {
      var j := SkipSpaces(s, i);
      SplitSpacesHaveNoSpace(s[j..]);
      var parts := SplitSpaces(s);
      forall k | 0 <= k < |parts| ensures forall c :: c in parts[k] ==> !IsSpace(c) {
        if k == 0 {
          forall c | c in parts[0] ensures !IsSpace(c) {
            var m :| 0 <= m < i && s[..i][m] == c;
          }
        } else {
          assert parts[k] == SplitSpaces(s[j..])[k - 1];
        }
      }
    }
  }

  /** The pieces of a trimmed, non-empty string are its words: none is
      empty, so the first piece is the first word. */
  lemma {:induction false} SplitSpacesOfTrimmed(s: string)
    requires s != [] && !IsSpace(s[0]) && !IsSpace(s[|s| - 1])
    ensures forall k :: 0 <= k < |SplitSpaces(s)| ==> SplitSpaces(s)[k] != []
    decreases |s|
  {
    var i := FirstSpace(s, 0);
    if i < |s| {
      var j := SkipSpaces(s, i);
      SkipSpacesSkipsSpaces(s, i);
      assert j < |s|;
      SplitSpacesOfTrimmed(s[j..]);
    }
  }

  predicate NoSpace(w: string) {
    forall k :: 0 <= k < |w| ==> !IsSpace(w[k])
  }

  lemma {:induction false} FirstSpaceOfWord(w: string, rest: string, i: nat)
    requires i <= |w| && NoSpace(w)
    ensures FirstSpace(w + rest, i) == |w| + FirstSpace(rest, 0)
    decreases |w| - i
  {
    if i < |w| {
      assert (w + rest)[i] == w[i];
      FirstSpaceOfWord(w, rest, i + 1);
    } else {
      FirstSpaceFrom(w, rest, 0);
    }
  }

  lemma {:induction false} FirstSpaceFrom(w: string, rest: string, j: nat)
    requires j <= |rest|
    ensures FirstSpace(w + rest, |w| + j) == |w| + FirstSpace(rest, j)
    decreases |rest| - j
  {
    if j < |rest| {
      assert (w + rest)[|w| + j] == rest[j];
      FirstSpaceFrom(w, rest, j + 1);
    }
  }

  /** A word without white space is one piece. */
  lemma SplitSpacesOfWord(w: string)
    requires NoSpace(w)
    ensures SplitSpaces(w) == [w]
  {
    FirstSpaceOfWord(w, [], 0);
    assert w + [] == w;
  }

  /** A word, one space and a rest that starts with no space split into
      the word and the pieces of the rest. */
  lemma SplitSpacesOfWords(w: string, rest: string)
    requires NoSpace(w) && rest != [] && !IsSpace(rest[0])
    ensures SplitSpaces(w + " " + rest) == [w] + SplitSpaces(rest)
  {
    var s := w + " " + rest;
    assert s == w + (" " + rest);
    FirstSpaceOfWord(w, " " + rest, 0);
    assert FirstSpace(s, 0) == |w|;
    assert s[|w|] == ' ' && s[|w| + 1] == rest[0];
    assert SkipSpaces(s, |w| + 1) == |w| + 1;
    assert s[..|w|] == w && s[|w| + 1..] == rest;
  }

  /** A string that begins and ends with no white space is its own trim. */
  lemma TrimOfTrimmed(s: string)
    requires s != [] && !IsSpace(s[0]) && !IsSpace(s[|s| - 1])
    ensures Trim(s) == s
  {
  }

  function DigitChar(d: nat): (c: char)
    requires d < 10
    ensures '0' <= c <= '9' && (c as int) - ('0' as int) == d
  {
    (('0' as int) + d) as char
  }

  /** `n.toString()` for a natural number. */
  function NatToString(n: nat): (s: string)
    ensures |s| > 0
    ensures forall k :: 0 <= k < |s| ==> '0' <= s[k] <= '9'
    ensures s[0] == '0' ==> n == 0
    decreases n
  {
    if n < 10 then [DigitChar(n)] else NatToString(n / 10) + [DigitChar(n % 10)]
  }

  /** `n.toString()` for any integer. */
  function IntToString(n: int): (s: string)
    ensures |s| > 0
    ensures s[0] == '-' <==> n < 0
  {
    if n < 0 then "-" + NatToString(-n) else NatToString(n)
  }

  function Repeat(c: char, n: nat): (s: string)
    ensures |s| == n && forall k :: 0 <= k < n ==> s[k] == c
  {
    if n == 0 then [] else [c] + Repeat(c, n - 1)
  }

  /** `s.padStart(n, c)` for a one-character filler. */
  function PadStart(s: string, n: nat, c: char): (r: string)
    ensures |r| == if |s| < n then n else |s|
    ensures EndsWith(r, s)
    ensures forall k :: 0 <= k < |r| - |s| ==> r[k] == c
  {
    if |s| < n then Repeat(c, n - |s|) + s else s
  }

  /** Whether `p` occurs in `s` at position `i`. */
  predicate OccursAt(s: string, p: string, i: nat) {
    i + |p| <= |s| && s[i..i + |p|] == p
  }

  /** `s.replaceAll(p, v)` for a non-empty search string `p` and a
      replacement in which `$` is not special: occurrences are replaced
      from left to right without overlapping. */
  function ReplaceAll(s: string, p: string, v: string): string
    requires p != []
    decreases |s|
  {
    if |s| < |p| then s
    else if s[..|p|] == p then v + ReplaceAll(s[|p|..], p, v)
    else [s[0]] + ReplaceAll(s[1..], p, v)
  }

  /** Replacing a string that does not occur changes nothing. */
  lemma {:induction false} ReplaceAllAbsent(s: string, p: string, v: string)
    requires p != []
    requires forall i :: 0 <= i <= |s| ==> !OccursAt(s, p, i)
    ensures ReplaceAll(s, p, v) == s
    decreases |s|
  {
    if |s| >= |p| {
      assert !OccursAt(s, p, 0);
      forall i | 0 <= i <= |s[1..]| ensures !OccursAt(s[1..], p, i) {
        assert !OccursAt(s, p, i + 1);
        if i + |p| <= |s[1..]| {
          assert s[1..][i..i + |p|] == s[i + 1..i + 1 + |p|];
        }
      }
      ReplaceAllAbsent(s[1..], p, v);
    }
  }
}
