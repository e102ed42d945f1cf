/** Python `str` operations used throughout the code base, with their laws. */
module Strings {

  /** `str.isspace()` for one character; also what `\s` matches in a `re` pattern. */
  predicate IsSpace(c: char) {
    c == ' ' || c == '\t' || c == '\n' || c == '\r' || c == '\U{b}' || c == '\U{c}'
    || ('\U{1c}' <= c <= '\U{1f}') || c == '\U{85}' || c == '\U{a0}' || c == '\U{1680}'
    || ('\U{2000}' <= c <= '\U{200a}') || c == '\U{2028}' || c == '\U{2029}'
    || c == '\U{202f}' || c == '\U{205f}' || c == '\U{3000}'
  }

  /** Removes leading characters satisfying `p` (`str.lstrip(chars)`). */
  function LStripWith(s: string, p: char -> bool): (r: string)
    ensures |r| <= |s|
    decreases |s|
  {
    if s != [] && p(s[0]) then LStripWith(s[1..], p) else s
  }

  /** `LStripWith` keeps a suffix that does not start with a character
      satisfying `p`, and only such characters were removed. */
  lemma {:induction false} LStripShape(s: string, p: char -> bool)
    ensures var r := LStripWith(s, p);
      r == s[|s| - |r|..] && (r == [] || !p(r[0]))
      && forall i :: 0 <= i < |s| - |r| ==> p(s[i])
    decreases |s|
  {
    if s != [] && p(s[0]) {
      LStripShape(s[1..], p);
      forall i | 1 <= i < |s| - |LStripWith(s, p)| ensures p(s[i]) {
        assert s[i] == s[1..][i - 1];
      }
    }
  }

  /** Removes trailing characters satisfying `p` (`str.rstrip(chars)`). */
  function RStripWith(s: string, p: char -> bool): (r: string)
    ensures |r| <= |s|
    decreases |s|
  {
    if s != [] && p(s[|s| - 1]) then RStripWith(s[..|s| - 1], p) else s
  }

  /** `RStripWith` keeps a prefix that does not end with a character
      satisfying `p`, and only such characters were removed. */
  lemma {:induction false} RStripShape(s: string, p: char -> bool)
    ensures var r := RStripWith(s, p);
      r == s[..|r|] && (r == [] || !p(r[|r| - 1]))
      && forall i :: |r| <= i < |s| ==> p(s[i])
    decreases |s|
  {
    if s != [] && p(s[|s| - 1]) {
      RStripShape(s[..|s| - 1], p);
      forall i | |RStripWith(s, p)| <= i < |s| - 1 ensures p(s[i]) {
        assert s[i] == s[..|s| - 1][i];
      }
    }
  }

  /** `str.strip()`: removes leading and trailing whitespace. */
  function Strip(s: string): (r: string)
    ensures |r| <= |s|
  {
    RStripWith(LStripWith(s, IsSpace), IsSpace)
  }

  /** A stripped string neither starts nor ends with whitespace. */
  lemma StripEnds(s: string)
    ensures var r := Strip(s);
      r == [] || (!IsSpace(r[0]) && !IsSpace(r[|r| - 1]))
  {
    var l := LStripWith(s, IsSpace);
    LStripShape(s, IsSpace);
    RStripShape(l, IsSpace);
    var r := RStripWith(l, IsSpace);
    if r != [] {
      assert r[0] == l[0];
    }
  }

  /** `s[a..b]` is what is left of `s` once only whitespace is cut from
      either side. */
  predicate Trimmed(s: string, a: int, b: int) {
    0 <= a <= b <= |s|
    && (forall i :: 0 <= i < a ==> IsSpace(s[i]))
    && (forall i :: b <= i < |s| ==> IsSpace(s[i]))
  }

  /** The result of `Strip` is a contiguous piece of its input, and only
      whitespace was removed on either side. */
  lemma StripIsInfix(s: string)
    ensures exists a, b :: Trimmed(s, a, b) && Strip(s) == s[a..b]
  {
    var l := LStripWith(s, IsSpace);
    var a := |s| - |l|;
    var r := RStripWith(l, IsSpace);
    LStripShape(s, IsSpace);
    RStripShape(l, IsSpace);
    forall i | a + |r| <= i < |s| ensures IsSpace(s[i]) {
      assert s[i] == l[i - a];
    }
    assert Trimmed(s, a, a + |r|);
    assert r == s[a..a + |r|];
  }

  /** Stripping a string that has no outer whitespace changes nothing. */
  lemma StripUnchanged(s: string)
    requires s == [] || (!IsSpace(s[0]) && !IsSpace(s[|s| - 1]))
    ensures Strip(s) == s
  {
  }

  lemma {:induction false} StripIdempotent(s: string)
    ensures Strip(Strip(s)) == Strip(s)
  {
    StripEnds(s);
    StripUnchanged(Strip(s));
  }

  /** Only whitespace: `s.strip() == ""`, and `s.isspace() or s == ""`. */
  predicate IsBlank(s: string) {
    forall i :: 0 <= i < |s| ==> IsSpace(s[i])
  }

  /** A string made only of whitespace strips to the empty string, and conversely. */
  lemma StripEmptyIff(s: string)
    ensures Strip(s) == [] <==> IsBlank(s)
  {
    StripIsInfix(s);
    StripEnds(s);
    var a, b :| Trimmed(s, a, b) && Strip(s) == s[a..b];
    if Strip(s) != [] {
      assert s[a] == Strip(s)[0];
    }
  }

  predicate StartsWith(s: string, prefix: string) {
    |prefix| <= |s| && s[..|prefix|] == prefix
  }

  predicate EndsWith(s: string, suffix: string) {
    |suffix| <= |s| && s[|s| - |suffix|..] == suffix
  }

  lemma EndsWithAppend(a: string, b: string)
    ensures EndsWith(a + b, b)
  {
    assert (a + b)[|a + b| - |b|..] == b;
  }

  lemma StartsWithAppend(a: string, b: string, p: string)
    requires StartsWith(a, p)
    ensures StartsWith(a + b, p)
  {
    assert (a + b)[..|p|] == a[..|p|];
  }

  lemma StartsWithSelf(a: string, b: string)
    ensures StartsWith(a + b, a)
  {
    assert (a + b)[..|a|] == a;
  }

  /** The first piece of `s.split(c)` is everything before the first `c`. */
  lemma SplitFirstChar(s: string, a: string, c: char)
    requires StartsWith(s, a + [c]) && c !in a
    ensures Split(s, [c])[0] == a
  {
    forall j | 0 <= j < |a| ensures !OccursAt(s, [c], j) {
      assert s[j] == (a + [c])[j] == a[j];
      assert s[j..j + 1] == [s[j]];
    }
    assert s[|a|] == (a + [c])[|a|];
    assert s[|a|..|a| + 1] == [c];
    assert OccursAt(s, [c], |a|);
    assert Find(s, [c]) == |a|;
    assert s[..|a|] == (a + [c])[..|a|] == a;
  }

  predicate OccursAt(s: string, sub: string, i: int) {
    0 <= i && i + |sub| <= |s| && s[i..i + |sub|] == sub
  }

  /** `s.find(sub, k)`: the first index `>= k` where `sub` occurs, or -1. */
  function FindFrom(s: string, sub: string, k: nat): (r: int)
    ensures r == -1 || (k <= r && OccursAt(s, sub, r))
    ensures forall j :: k <= j && (r == -1 || j < r) ==> !OccursAt(s, sub, j)
    decreases |s| - k
  {
    if k + |sub| > |s| then -1
    else if s[k..k + |sub|] == sub then k
    else FindFrom(s, sub, k + 1)
  }

  /** `s.find(sub)`. */
  function Find(s: string, sub: string): (r: int)
    ensures r == -1 || OccursAt(s, sub, r)
    ensures forall j :: 0 <= j && (r == -1 || j < r) ==> !OccursAt(s, sub, j)
  {
    FindFrom(s, sub, 0)
  }

  /** `sub in s`. */
  predicate Contains(s: string, sub: string) {
    Find(s, sub) >= 0
  }

  lemma ContainsIff(s: string, sub: string)
    ensures Contains(s, sub) <==> exists i :: OccursAt(s, sub, i)
  {
  }

  /** `s.rfind(c)` for one character: the last index holding `c`, or -1. */
  function RFindChar(s: string, c: char): (r: int)
    ensures -1 <= r < |s|
    ensures r >= 0 ==> s[r] == c
    ensures forall j :: r < j < |s| ==> s[j] != c
    decreases |s|
  {
    if s == [] then -1
    else if s[|s| - 1] == c then |s| - 1
    else RFindChar(s[..|s| - 1], c)
  }

  /** `s.split(sep)` for a non-empty separator: the pieces between the
      non-overlapping occurrences of `sep`, scanned from the left. */
  function Split(s: string, sep: string): (r: seq<string>)
    requires sep != []
    ensures |r| >= 1
    decreases |s|
  {
    var i := Find(s, sep);
    if i < 0 then [s] else [s[..i]] + Split(s[i + |sep|..], sep)
  }

  /** `sep.join(parts)`. */
  function Join(sep: string, parts: seq<string>): string {
    if parts == [] then []
    else if |parts| == 1 then parts[0]
    else parts[0] + sep + Join(sep, parts[1..])
  }

  /** `"".join(parts)`. */
  function Concat(parts: seq<string>): string {
    if parts == [] then [] else parts[0] + Concat(parts[1..])
  }

  lemma {:induction false} ConcatAppend(a: seq<string>, b: seq<string>)
    ensures Concat(a + b) == Concat(a) + Concat(b)
  {
    if a != [] {
      assert (a + b)[1..] == a[1..] + b;
      ConcatAppend(a[1..], b);
    } else {
      assert a + b == b;
    }
  }

  lemma SplitUnfold(s: string, sep: string)
    requires sep != [] && Find(s, sep) >= 0
    ensures Split(s, sep) == [s[..Find(s, sep)]] + Split(s[Find(s, sep) + |sep|..], sep)
  {
  }

  lemma JoinCons(sep: string, head: string, tail: seq<string>)
    requires tail != []
    ensures Join(sep, [head] + tail) == head + sep + Join(sep, tail)
  {
    assert ([head] + tail)[1..] == tail;
  }

  /** One occurrence of the separator: the join of the pieces is rebuilt from
      the join of the pieces after it. */
  lemma JoinSplitStep(s: string, sep: string)
    requires sep != [] && Find(s, sep) >= 0
    requires Join(sep, Split(s[Find(s, sep) + |sep|..], sep)) == s[Find(s, sep) + |sep|..]
    ensures Join(sep, Split(s, sep)) == s
  {
    var i := Find(s, sep);
    var rest := s[i + |sep|..];
    SplitUnfold(s, sep);
    JoinCons(sep, s[..i], Split(rest, sep));
    assert Join(sep, Split(s, sep)) == s[..i] + sep + rest;
  }

  /** Splitting and joining back with the same separator is the identity. */
  lemma {:induction false} JoinSplit(s: string, sep: string)
    requires sep != []
    ensures Join(sep, Split(s, sep)) == s
    decreases |s|
  {
    var i := Find(s, sep);
    if i >= 0 {
      JoinSplit(s[i + |sep|..], sep);
      JoinSplitStep(s, sep);
    }
  }

  /** No piece produced by `Split` contains the separator. */
  lemma {:induction false} SplitPiecesFree(s: string, sep: string)
    requires sep != []
    ensures forall p :: p in Split(s, sep) ==> !Contains(p, sep)
    decreases |s|
  {
    var i := Find(s, sep);
    if i >= 0 {
      SplitPiecesFree(s[i + |sep|..], sep);
      var head := s[..i];
      forall j | OccursAt(head, sep, j) ensures false {
        assert head[j..j + |sep|] == s[j..j + |sep|];
        assert OccursAt(s, sep, j);
      }
    }
  }

  /** `p` occurs somewhere in `s` as a contiguous piece. */
  predicate IsInfix(p: string, s: string) {
    exists i :: 0 <= i <= |s| && OccursAt(s, p, i)
  }

  /** Every piece produced by `Split` is an infix of the text. */
  lemma {:induction false} SplitPiecesInfix(s: string, sep: string)
    requires sep != []
    ensures forall p :: p in Split(s, sep) ==> IsInfix(p, s)
    decreases |s|
  {
    var i := Find(s, sep);
    if i < 0 {
      assert OccursAt(s, s, 0);
    } else {
      var tail := s[i + |sep|..];
      SplitPiecesInfix(tail, sep);
      assert OccursAt(s, s[..i], 0);
      forall p | p in Split(tail, sep) ensures IsInfix(p, s) {
        var j :| 0 <= j <= |tail| && OccursAt(tail, p, j);
        assert s[i + |sep| + j..i + |sep| + j + |p|] == tail[j..j + |p|];
        assert OccursAt(s, p, i + |sep| + j);
      }
    }
  }

  /** `s.replace(old, new)` for a non-empty `old`. */
  function Replace(s: string, pattern: string, replacement: string): string
    requires pattern != []
  {
    Join(replacement, Split(s, pattern))
  }

  /** Replacing a character by a string that lacks it leaves no occurrence of it. */
  lemma ReplaceRemovesChar(s: string, c: char, replacement: string)
    requires c !in replacement
    ensures c !in Replace(s, [c], replacement)
  {
    SplitPiecesFree(s, [c]);
    var parts := Split(s, [c]);
    forall p | p in parts ensures c !in p {
      if c in p {
        var j :| 0 <= j < |p| && p[j] == c;
        assert OccursAt(p, [c], j);
      }
    }
    JoinFree(replacement, parts, c);
  }

  lemma {:induction false} JoinFree(sep: string, parts: seq<string>, c: char)
    requires c !in sep
    requires forall p :: p in parts ==> c !in p
    ensures c !in Join(sep, parts)
  {
    if |parts| > 1 {
      JoinFree(sep, parts[1..], c);
    }
  }

  /** `s.count(sub)` for a non-empty `sub`: non-overlapping occurrences. */
  function Count(s: string, sub: string): nat
    requires sub != []
  {
    |Split(s, sub)| - 1
  }

  /** The last element of a non-empty sequence (`xs[-1]`). */
  function Last<T>(xs: seq<T>): T
    requires xs != []
  {
    xs[|xs| - 1]
  }

  /** `posixpath.basename`: everything after the last '/'. */
  function Basename(path: string): (r: string)
    ensures '/' !in r
    ensures EndsWith(path, r)
  {
    var i := RFindChar(path, '/');
    path[i + 1..]
  }

  function LowerChar(c: char): char {
    if 'A' <= c <= 'Z' then (c as int + 32) as char else c
  }

  /** `str.lower()` restricted to ASCII letters. */
  function Lower(s: string): (r: string)
    ensures |r| == |s|
    ensures forall i :: 0 <= i < |s| ==> r[i] == LowerChar(s[i])
  {
    if s == [] then [] else [LowerChar(s[0])] + Lower(s[1..])
  }

  /** `s * n` for a string. */
  function Repeat(s: string, n: nat): (r: string)
    ensures |r| == |s| * n
  {
    if n == 0 then [] else s + Repeat(s, n - 1)
  }

  function DigitChar(d: nat): char
    requires d < 10
  {
    ['0', '1', '2', '3', '4', '5', '6', '7', '8', '9'][d]
  }

  /** `str(n)` for a natural number. */
  function NatToString(n: nat): (r: string)
    ensures r != []
    ensures forall i :: 0 <= i < |r| ==> '0' <= r[i] <= '9'
  {
    if n < 10 then [DigitChar(n)] else NatToString(n / 10) + [DigitChar(n % 10)]
  }

  /** `str(i)` for an integer. */
  function IntToString(i: int): string {
    if i < 0 then "-" + NatToString(-i) else NatToString(i)
  }

  /** `str.splitlines()`: the line boundaries Python recognises, with `\r\n`
      as one boundary, and no empty line after a final boundary. */
  predicate IsLineBreak(c: char) {
    c == '\n' || c == '\r' || c == '\U{b}' || c == '\U{c}' || c == '\U{1c}' || c == '\U{1d}'
    || c == '\U{1e}' || c == '\U{85}' || c == '\U{2028}' || c == '\U{2029}'
  }

  function SplitLines(s: string): (r: seq<string>)
    ensures forall l :: l in r ==> forall i :: 0 <= i < |l| ==> !IsLineBreak(l[i])
    decreases |s|
  {
    if s == [] then []
    else
      var k := LineLength(s);
      if k == |s| then [s]
      else
        var skip := if s[k] == '\r' && k + 1 < |s| && s[k + 1] == '\n' then 2 else 1;
        [s[..k]] + SplitLines(s[k + skip..])
  }

  function LineLength(s: string): (k: nat)
    ensures k <= |s|
    ensures forall i :: 0 <= i < k ==> !IsLineBreak(s[i])
    ensures k < |s| ==> IsLineBreak(s[k])
  {
    if s == [] || IsLineBreak(s[0]) then 0 else 1 + LineLength(s[1..])
  }
}
