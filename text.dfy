/**
 * The string operations of Python that the network reader relies on, restricted to
 * ASCII: `str.split()`, `str.split(sep)`, `str.lstrip(' ')`, `str.startswith`,
 * `str.endswith`, substring search, `str.find`, slicing, `int(...)` of a digit string,
 * `str.capitalize()` and the first match of the regular expressions `[a-zA-Z]+` and `\d+`.
 */
module Text {

  /** `c.isalpha()` for ASCII characters. */
  predicate IsLetter(c: char) {
    'a' <= c <= 'z' || 'A' <= c <= 'Z'
  }

  /** `c.isdigit()` for ASCII characters (the class `\d`). */
  predicate IsDigit(c: char) {
    '0' <= c <= '9'
  }

  /** `c.isspace()` for ASCII characters: space, tab, line feed, vertical tab, form feed,
      carriage return and the four separators 0x1C..0x1F. */
  predicate IsSpace(c: char) {
    c == ' ' || '\t' <= c <= '\r' || 28 <= c as int <= 31
  }

  predicate NoSpaces(s: string) {
    forall i :: 0 <= i < |s| ==> !IsSpace(s[i])
  }

  predicate AllSpaces(s: string) {
    forall i :: 0 <= i < |s| ==> IsSpace(s[i])
  }

  /** `s.isalpha()`: non-empty and letters only. */
  predicate IsAlpha(s: string) {
    |s| > 0 && forall i :: 0 <= i < |s| ==> IsLetter(s[i])
  }

  /** `s.isdigit()`: non-empty and digits only. */
  predicate IsDecimal(s: string) {
    |s| > 0 && forall i :: 0 <= i < |s| ==> IsDigit(s[i])
  }

  predicate StartsWith(s: string, prefix: string) {
    |prefix| <= |s| && s[..|prefix|] == prefix
  }

  predicate EndsWith(s: string, suffix: string) {
    |suffix| <= |s| && s[|s| - |suffix|..] == suffix
  }

  /** `re.findall(sub, s)` is non-empty, for a pattern without special characters. */
  predicate Contains(s: string, sub: string)
    decreases |s|
  {
    StartsWith(s, sub) || (s != [] && Contains(s[1..], sub))
  }

  /** Every character of a contained string occurs in the containing one. */
  lemma {:induction false} ContainsChar(s: string, sub: string, c: char)
    requires Contains(s, sub) && c in sub
    ensures c in s
    decreases |s|
  {
    if StartsWith(s, sub) {
      var k :| 0 <= k < |sub| && sub[k] == c;
      assert s[k] == c;
    } else {
      ContainsChar(s[1..], sub, c);
      assert s[1..] == s[1..|s|];
    }
  }

  /** The longest prefix of `s` without whitespace. */
  function NonSpacePrefix(s: string): (w: string)
    ensures |w| <= |s| && w == s[..|w|] && NoSpaces(w)
    ensures |w| < |s| ==> IsSpace(s[|w|])
    ensures s != [] && !IsSpace(s[0]) ==> |w| > 0
  {
    if s == [] || IsSpace(s[0]) then [] else [s[0]] + NonSpacePrefix(s[1..])
  }

  /** `s.split()` (equivalently `s.strip().split()`): the maximal runs of
      non-whitespace characters, in order. */
  function Words(s: string): (ws: seq<string>)
    ensures forall i :: 0 <= i < |ws| ==> ws[i] != [] && NoSpaces(ws[i])
    decreases |s|
  {
    if s == [] then []
    else if IsSpace(s[0]) then Words(s[1..])
    else
      var w := NonSpacePrefix(s);
      [w] + Words(s[|w|..])
  }

  lemma {:induction false} NonSpacePrefixOf(w: string, q: string)
    requires NoSpaces(w)
    requires q == [] || IsSpace(q[0])
    ensures NonSpacePrefix(w + q) == w
  {
    if w != [] {
      assert (w + q)[1..] == w[1..] + q;
      NonSpacePrefixOf(w[1..], q);
    } else {
      assert w + q == q;
    }
  }

  /** A word followed by nothing or by whitespace is split off as the first word. */
  lemma {:induction false} WordsCons(w: string, q: string)
    requires w != [] && NoSpaces(w)
    requires q == [] || IsSpace(q[0])
    ensures Words(w + q) == [w] + Words(q)
  {
    NonSpacePrefixOf(w, q);
    assert (w + q)[|w|..] == q;
  }

  /** Leading whitespace does not change the split. */
  lemma {:induction false} WordsSkipSpaces(p: string, s: string)
    requires AllSpaces(p)
    ensures Words(p + s) == Words(s)
  {
    if p != [] {
      assert (p + s)[1..] == p[1..] + s;
      WordsSkipSpaces(p[1..], s);
    } else {
      assert p + s == s;
    }
  }

  /** Trailing whitespace after the last word does not change the split. */
  lemma WordsTrailing(w: string, after: string)
    requires w != [] && NoSpaces(w) && AllSpaces(after)
    ensures Words(w + after) == [w]
  {
    WordsCons(w, after);
    WordsSkipSpaces(after, []);
    assert after + [] == after;
  }

  /** Whitespace, then a word, then nothing or more whitespace: the word comes first. */
  lemma WordsSpaced(sep: string, w: string, q: string)
    requires AllSpaces(sep) && w != [] && NoSpaces(w)
    requires q == [] || IsSpace(q[0])
    ensures Words(sep + (w + q)) == [w] + Words(q)
  {
    WordsSkipSpaces(sep, w + q);
    WordsCons(w, q);
  }

  /** `s.split(sep)` for a non-empty separator: the pieces between the non-overlapping
      occurrences of `sep`, found from the left. */
  function SplitOn(s: string, sep: string): (parts: seq<string>)
    requires sep != []
    ensures |parts| >= 1
    decreases |s|
  {
    if s == [] then [[]]
    else if StartsWith(s, sep) then [[]] + SplitOn(s[|sep|..], sep)
    else
      var rest := SplitOn(s[1..], sep);
      [[s[0]] + rest[0]] + rest[1..]
  }

  /** `sep.join(parts)`. */
  function Join(parts: seq<string>, sep: string): string
  {
    if parts == [] then []
    else if |parts| == 1 then parts[0]
    else parts[0] + sep + Join(parts[1..], sep)
  }

  /** Prepending a character to the first piece prepends it to the joined string. */
  lemma JoinPrepend(c: char, parts: seq<string>, sep: string)
    requires |parts| >= 1
    ensures Join([[c] + parts[0]] + parts[1..], sep) == [c] + Join(parts, sep)
  {
    var q := [[c] + parts[0]] + parts[1..];
    assert q[1..] == parts[1..];
    if |parts| > 1 {
      assert Join(q, sep) == ([c] + parts[0]) + sep + Join(parts[1..], sep);
      assert ([c] + parts[0]) + sep + Join(parts[1..], sep) == [c] + (parts[0] + sep + Join(parts[1..], sep));
    }
  }

  /** Splitting on a separator loses nothing: joining the pieces gives the string back. */
  lemma {:induction false} SplitOnJoin(s: string, sep: string)
    requires sep != []
    ensures Join(SplitOn(s, sep), sep) == s
    decreases |s|
  {
    if s == [] {
    } else if StartsWith(s, sep) {
      var rest := SplitOn(s[|sep|..], sep);
      assert Join([[]] + rest, sep) == [] + sep + Join(rest, sep) by {
        assert ([[]] + rest)[1..] == rest;
      }
      SplitOnJoin(s[|sep|..], sep);
      assert s == sep + s[|sep|..];
    } else {
      SplitOnJoin(s[1..], sep);
      JoinPrepend(s[0], SplitOn(s[1..], sep), sep);
      assert s == [s[0]] + s[1..];
    }
  }

  /** `s.lstrip(' ')`: drops leading blanks (only the space character). */
  function LStripSpaces(s: string): (t: string)
    ensures |t| <= |s| && t == s[|s| - |t|..]
    ensures forall i :: 0 <= i < |s| - |t| ==> s[i] == ' '
    ensures t != [] ==> t[0] != ' '
  {
    if s != [] && s[0] == ' ' then LStripSpaces(s[1..]) else s
  }

  /** `s.find(c)` when `c` occurs in `s`. */
  function IndexOf(s: string, c: char): (i: nat)
    requires c in s
    ensures i < |s| && s[i] == c && c !in s[..i]
  {
    if s[0] == c then 0
    else
      assert c in s[1..] by { var k :| 0 <= k < |s| && s[k] == c; assert s[1..][k - 1] == c; }
      var j := IndexOf(s[1..], c);
      assert s[..j + 1] == [s[0]] + s[1..][..j];
      j + 1
  }

  /** `s[s.find(open) + 1 : s.find(close)]`: the text after the first `open` and before
      the first `close`, empty when the first `close` comes first. */
  function Between(s: string, open: char, close: char): (t: string)
    requires open in s && close in s
    ensures IndexOf(s, open) < IndexOf(s, close) ==> t == s[IndexOf(s, open) + 1 .. IndexOf(s, close)]
    ensures IndexOf(s, close) <= IndexOf(s, open) ==> t == []
  {
    var i := IndexOf(s, open) + 1;
    var j := IndexOf(s, close);
    if i <= j then s[i..j] else []
  }

  /** `w[1:-1]`: drops the first and the last character (the quotes around a file name). */
  function Unquote(w: string): (t: string)
    ensures |w| >= 2 ==> [w[0]] + t + [w[|w| - 1]] == w
    ensures |w| < 2 ==> t == []
  {
    if |w| >= 2 then w[1..|w| - 1] else []
  }

  function DigitValue(c: char): (v: nat)
    requires IsDigit(c)
    ensures v < 10
  {
    c as int - '0' as int
  }

  function DigitChar(v: nat): (c: char)
    requires v < 10
    ensures IsDigit(c) && DigitValue(c) == v
  {
    ('0' as int + v) as char
  }

  /** `int(s)` for a string of decimal digits (leading zeros allowed). */
  function NatOf(s: string): nat
    requires forall i :: 0 <= i < |s| ==> IsDigit(s[i])
  {
    if s == [] then 0 else NatOf(s[..|s| - 1]) * 10 + DigitValue(s[|s| - 1])
  }

  /** `str(n)`: the decimal numeral of `n`, without leading zeros. */
  function Decimal(n: nat): (s: string)
    ensures IsDecimal(s)
  {
    if n < 10 then [DigitChar(n)] else Decimal(n / 10) + [DigitChar(n % 10)]
  }

  /** Reading back a written numeral gives the number. */
  lemma {:induction false} NatOfDecimal(n: nat)
    ensures NatOf(Decimal(n)) == n
  {
    if n >= 10 {
      var s := Decimal(n);
      assert s[..|s| - 1] == Decimal(n / 10);
      NatOfDecimal(n / 10);
    }
  }

  /** The two character classes the classifier's regular expressions look for. */
  datatype CharClass = Letters | Digits

  predicate InClass(c: char, k: CharClass) {
    match k
    case Letters => IsLetter(c)
    case Digits => IsDigit(c)
  }

  /** The longest prefix of `s` whose characters all belong to class `k`. */
  function ClassPrefix(s: string, k: CharClass): (run: string)
    ensures |run| <= |s| && run == s[..|run|]
    ensures forall i :: 0 <= i < |run| ==> InClass(run[i], k)
    ensures |run| < |s| ==> !InClass(s[|run|], k)
  {
    if s == [] || !InClass(s[0], k) then [] else [s[0]] + ClassPrefix(s[1..], k)
  }

  /** Where the first character of class `k` in `s` is (`|s|` when there is none). */
  function RunStart(s: string, k: CharClass): (i: nat)
    ensures i <= |s|
    ensures forall j :: 0 <= j < i ==> !InClass(s[j], k)
    ensures i < |s| ==> InClass(s[i], k)
  {
    if s == [] || InClass(s[0], k) then 0 else 1 + RunStart(s[1..], k)
  }

  /** The first match of `[a-zA-Z]+` (for `Letters`) or `\d+` (for `Digits`) in `s`,
      that is `re.findall(...)[0]`; empty when there is no match. */
  function FirstRun(s: string, k: CharClass): (run: string)
    ensures forall i :: 0 <= i < |run| ==> InClass(run[i], k)
    ensures run == [] <==> forall i :: 0 <= i < |s| ==> !InClass(s[i], k)
  {
    if s == [] then []
    else if InClass(s[0], k) then ClassPrefix(s, k)
    else FirstRun(s[1..], k)
  }

  /** The first match is the longest run of the class that starts at the first character
      of the class. */
  lemma {:induction false} FirstRunIsFirstMatch(s: string, k: CharClass)
    ensures FirstRun(s, k) == ClassPrefix(s[RunStart(s, k)..], k)
    decreases |s|
  {
    if s != [] && !InClass(s[0], k) {
      FirstRunIsFirstMatch(s[1..], k);
      assert s[1..][RunStart(s[1..], k)..] == s[RunStart(s, k)..];
    }
  }

  lemma {:induction false} ClassPrefixOf(w: string, q: string, k: CharClass)
    requires forall i :: 0 <= i < |w| ==> InClass(w[i], k)
    requires q == [] || !InClass(q[0], k)
    ensures ClassPrefix(w + q, k) == w
  {
    if w != [] {
      assert (w + q)[1..] == w[1..] + q;
      ClassPrefixOf(w[1..], q, k);
    } else {
      assert w + q == q;
    }
  }

  /** Characters outside the class before the first match are skipped. */
  lemma {:induction false} FirstRunSkip(p: string, s: string, k: CharClass)
    requires forall i :: 0 <= i < |p| ==> !InClass(p[i], k)
    ensures FirstRun(p + s, k) == FirstRun(s, k)
  {
    if p != [] {
      assert (p + s)[1..] == p[1..] + s;
      FirstRunSkip(p[1..], s, k);
    } else {
      assert p + s == s;
    }
  }

  /** Splitting on a character that does not occur gives the whole string back. */
  lemma {:induction false} SplitOnAbsent(s: string, c: char)
    requires c !in s
    ensures SplitOn(s, [c]) == [s]
  {
    if s != [] {
      assert !StartsWith(s, [c]) by { assert s[..1] == [s[0]]; }
      assert c !in s[1..];
      SplitOnAbsent(s[1..], c);
      assert [s[0]] + s[1..] == s;
    }
  }

  function Upper(c: char): char {
    if 'a' <= c <= 'z' then (c as int - 32) as char else c
  }

  function Lower(c: char): char {
    if 'A' <= c <= 'Z' then (c as int + 32) as char else c
  }

  /** `s.capitalize()`: first character upper case, the rest lower case. */
  function Capitalize(s: string): (t: string)
    ensures |t| == |s|
    ensures s != [] ==> t[0] == Upper(s[0])
    ensures forall i :: 1 <= i < |s| ==> t[i] == Lower(s[i])
  {
    if s == [] then [] else [Upper(s[0])] + seq(|s| - 1, i requires 0 <= i < |s| - 1 => Lower(s[i + 1]))
  }
}
