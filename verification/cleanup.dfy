/** The two `cleanup_content` variants: regex run collapsing followed by a strip.
    A pattern `x{n,}` replaced by `rep` is modelled by `Collapse`, which scans
    left to right and replaces every maximal run of at least `n` characters of
    class `x` by `rep`, exactly what a leftmost, greedy, non-overlapping
    `re.sub` does. */
module Cleanup {
  import opened Strings

  predicate IsNewline(c: char) { c == '\n' }

  /** `[^\S\n]`: whitespace other than a newline. */
  predicate IsInlineSpace(c: char) { IsSpace(c) && c != '\n' }

  predicate IsDash(c: char) { c == '-' }

  /** Length of the longest prefix of `s` made of characters satisfying `p`. */
  function RunLen(s: string, p: char -> bool): (k: nat)
    ensures k <= |s|
    ensures k < |s| ==> !p(s[k])
  {
    if s != [] && p(s[0]) then 1 + RunLen(s[1..], p) else 0
  }

  /** Every character of the leading run satisfies `p`. */
  lemma {:induction false} RunLenAll(s: string, p: char -> bool)
    ensures forall i :: 0 <= i < RunLen(s, p) ==> p(s[i])
  {
    if s != [] && p(s[0]) {
      RunLenAll(s[1..], p);
      forall i | 1 <= i < RunLen(s, p) ensures p(s[i]) {
        assert s[i] == s[1..][i - 1];
      }
    }
  }

  /** Every run of `p`-characters in `s` is at most `b` long. */
  predicate RunsAtMost(s: string, p: char -> bool, b: nat) {
    forall i :: 0 <= i < |s| ==> RunLen(s[i..], p) <= b
  }

  /** `re.sub(x{n,}, rep, s)` for the character class `p`. */
  function Collapse(s: string, p: char -> bool, n: nat, rep: string): string
    decreases |s|
  {
    if s == [] then []
    else if !p(s[0]) then [s[0]] + Collapse(s[1..], p, n, rep)
    else
      var k := RunLen(s, p);
      (if k >= n then rep else s[..k]) + Collapse(s[k..], p, n, rep)
  }

  /** The three substitutions of `cleanup_content` of parsers/text_utils.py. */
  function Collapsed(content: string): string {
    Collapse(Collapse(Collapse(content, IsNewline, 3, "\n\n"), IsInlineSpace, 3, "  "), IsDash, 3, "---")
  }

  /** `cleanup_content` of parsers/text_utils.py. */
  function CleanupContent(content: string): (r: string)
    ensures r == [] || (!IsSpace(r[0]) && !IsSpace(r[|r| - 1]))
  {
    StripEnds(Collapsed(content));
    Strip(Collapsed(content))
  }

  /** The three substitutions of `cleanup_content` of ragcore/utils.py. */
  function CollapsedCompact(content: string): string {
    Collapse(Collapse(Collapse(content, IsNewline, 2, "\n"), IsInlineSpace, 2, " "), IsDash, 2, "--")
  }

  /** `cleanup_content` of ragcore/utils.py: the same shape with threshold 2. */
  function CleanupContentCompact(content: string): (r: string)
    ensures r == [] || (!IsSpace(r[0]) && !IsSpace(r[|r| - 1]))
  {
    StripEnds(CollapsedCompact(content));
    Strip(CollapsedCompact(content))
  }

  // ---------------------------------------------------------------------------
  // Runs

  lemma {:induction false} RunLenSuffix(s: string, p: char -> bool, i: nat)
    requires i <= RunLen(s, p)
    ensures RunLen(s[i..], p) == RunLen(s, p) - i
  {
    if i > 0 {
      RunLenSuffix(s[1..], p, i - 1);
      assert s[1..][i - 1..] == s[i..];
    }
  }

  /** A run in `a + b` starting inside `a` stops at the end of `a` when `b`
      does not continue it. */
  lemma {:induction false} RunLenAppend(a: string, b: string, p: char -> bool)
    requires b == [] || !p(b[0])
    ensures RunLen(a + b, p) == RunLen(a, p)
  {
    if a == [] {
      assert a + b == b;
    } else if p(a[0]) {
      RunLenAppend(a[1..], b, p);
      assert (a + b)[1..] == a[1..] + b;
    }
  }

  /** A run in a prefix is no longer than the run in the whole string. */
  lemma {:induction false} RunLenPrefix(s: string, j: nat, p: char -> bool)
    requires j <= |s|
    ensures RunLen(s[..j], p) <= RunLen(s, p)
  {
    if j > 0 && p(s[0]) {
      RunLenPrefix(s[1..], j - 1, p);
      assert s[1..][..j - 1] == s[..j][1..];
    }
  }

  lemma RunsAtMostSuffix(s: string, p: char -> bool, b: nat, k: nat)
    requires k <= |s| && RunsAtMost(s, p, b)
    ensures RunsAtMost(s[k..], p, b)
  {
    forall i | 0 <= i < |s[k..]| ensures RunLen(s[k..][i..], p) <= b {
      assert s[k..][i..] == s[k + i..];
    }
  }

  /** Any contiguous piece of a string keeps its run bound. */
  lemma RunsAtMostInfix(s: string, p: char -> bool, b: nat, lo: nat, hi: nat)
    requires lo <= hi <= |s| && RunsAtMost(s, p, b)
    ensures RunsAtMost(s[lo..hi], p, b)
  {
    forall i | 0 <= i < hi - lo ensures RunLen(s[lo..hi][i..], p) <= b {
      RunInfix(s, p, lo, hi, i);
    }
  }

  lemma RunInfix(s: string, p: char -> bool, lo: nat, hi: nat, i: nat)
    requires lo <= hi <= |s| && i < hi - lo
    ensures RunLen(s[lo..hi][i..], p) <= RunLen(s[lo + i..], p)
  {
    assert s[lo..hi][i..] == s[lo + i..][..hi - lo - i];
    RunLenPrefix(s[lo + i..], hi - lo - i, p);
  }

  /** Gluing two strings keeps a run bound when the join does not extend a run. */
  lemma RunsAtMostAppend(a: string, b: string, p: char -> bool, bound: nat)
    requires |a| <= bound || RunsAtMost(a, p, bound)
    requires RunsAtMost(b, p, bound)
    requires b == [] || !p(b[0])
    ensures RunsAtMost(a + b, p, bound)
  {
    forall i | 0 <= i < |a + b| ensures RunLen((a + b)[i..], p) <= bound {
      if i < |a| {
        assert (a + b)[i..] == a[i..] + b;
        RunLenAppend(a[i..], b, p);
      } else {
        assert (a + b)[i..] == b[i - |a|..];
      }
    }
  }

  /** A string that begins with a character outside `p` has a run of length 0 there. */
  lemma RunsAtMostCons(c: char, s: string, p: char -> bool, bound: nat)
    requires !p(c) && RunsAtMost(s, p, bound)
    ensures RunsAtMost([c] + s, p, bound)
  {
    forall i | 0 <= i < |[c] + s| ensures RunLen(([c] + s)[i..], p) <= bound {
      if i > 0 {
        assert ([c] + s)[i..] == s[i - 1..];
      }
    }
  }

  /** RunsAtMost means: no window of `b + 1` consecutive `p`-characters. */
  lemma RunsAtMostWindow(s: string, p: char -> bool, b: nat, i: nat)
    requires RunsAtMost(s, p, b) && i + b + 1 <= |s|
    ensures exists j :: i <= j < i + b + 1 && !p(s[j])
  {
    var k := RunLen(s[i..], p);
    assert !p(s[i..][k]);
  }

  // ---------------------------------------------------------------------------
  // Collapse

  /** The first character of a collapse is the first character of its input
      when that character is outside the class. */
  lemma CollapseHead(s: string, p: char -> bool, n: nat, rep: string)
    requires s != [] && !p(s[0])
    ensures Collapse(s, p, n, rep) == [s[0]] + Collapse(s[1..], p, n, rep)
  {
  }

  /** After collapsing, runs of `p` are no longer than `n - 1` or `|rep|`. */
  lemma {:induction false} CollapseBoundsRuns(s: string, p: char -> bool, n: nat, rep: string, b: nat)
    requires n >= 1 && n - 1 <= b && |rep| <= b
    ensures RunsAtMost(Collapse(s, p, n, rep), p, b)
    decreases |s|
  {
    if s == [] {
    } else if !p(s[0]) {
      CollapseBoundsRuns(s[1..], p, n, rep, b);
      RunsAtMostCons(s[0], Collapse(s[1..], p, n, rep), p, b);
    } else {
      var k := RunLen(s, p);
      var piece := if k >= n then rep else s[..k];
      var rest := Collapse(s[k..], p, n, rep);
      CollapseBoundsRuns(s[k..], p, n, rep, b);
      if k < |s| {
        CollapseHead(s[k..], p, n, rep);
      }
      RunsAtMostAppend(piece, rest, p, b);
    }
  }

  /** Collapsing runs of `p` does not change the leading run of a disjoint class `q`. */
  lemma {:induction false} CollapseKeepsLeadingRun(s: string, p: char -> bool, q: char -> bool, n: nat, rep: string)
    requires forall c :: !(p(c) && q(c))
    requires rep != [] && !q(rep[0])
    ensures RunLen(Collapse(s, p, n, rep), q) == RunLen(s, q)
    decreases |s|
  {
    if s != [] && !p(s[0]) && q(s[0]) {
      CollapseKeepsLeadingRun(s[1..], p, q, n, rep);
      assert (Collapse(s, p, n, rep))[1..] == Collapse(s[1..], p, n, rep);
    }
  }

  /** Collapsing runs of `p` keeps a run bound for a disjoint class `q`, when
      the replacement holds no `q`-character. */
  lemma {:induction false} CollapseKeepsRuns(s: string, p: char -> bool, q: char -> bool, n: nat, rep: string, b: nat)
    requires forall c :: !(p(c) && q(c))
    requires rep != [] && forall i :: 0 <= i < |rep| ==> !q(rep[i])
    requires RunsAtMost(s, q, b)
    ensures RunsAtMost(Collapse(s, p, n, rep), q, b)
    decreases |s|
  {
    var out := Collapse(s, p, n, rep);
    if s == [] {
    } else if !p(s[0]) {
      RunsAtMostSuffix(s, q, b, 1);
      CollapseKeepsRuns(s[1..], p, q, n, rep, b);
      CollapseKeepsLeadingRun(s, p, q, n, rep);
      assert s[0..] == s;
      RunsAtMostCons2(out, q, b);
    } else {
      var k := RunLen(s, p);
      var piece := if k >= n then rep else s[..k];
      var rest := Collapse(s[k..], p, n, rep);
      RunsAtMostSuffix(s, q, b, k);
      CollapseKeepsRuns(s[k..], p, q, n, rep, b);
      RunLenAll(s, p);
      assert forall i :: 0 <= i < |piece| ==> !q(piece[i]);
      NoRunsAppend(piece, rest, q, b);
    }
  }

  /** A string whose first run and whose tail keep a bound keeps it. */
  lemma RunsAtMostCons2(out: string, q: char -> bool, b: nat)
    requires out != [] && RunLen(out, q) <= b && RunsAtMost(out[1..], q, b)
    ensures RunsAtMost(out, q, b)
  {
    forall i | 0 <= i < |out| ensures RunLen(out[i..], q) <= b {
      if i == 0 {
        assert out[0..] == out;
      } else {
        assert out[i..] == out[1..][i - 1..];
      }
    }
  }

  /** A piece without `q`-characters in front of a string keeps its bound. */
  lemma NoRunsAppend(piece: string, rest: string, q: char -> bool, b: nat)
    requires forall i :: 0 <= i < |piece| ==> !q(piece[i])
    requires RunsAtMost(rest, q, b)
    ensures RunsAtMost(piece + rest, q, b)
  {
    var out := piece + rest;
    forall i | 0 <= i < |out| ensures RunLen(out[i..], q) <= b {
      if i < |piece| {
        assert out[i..][0] == piece[i];
      } else {
        assert out[i..] == rest[i - |piece|..];
      }
    }
  }

  /** Nothing to collapse: runs shorter than the threshold are kept as they are. */
  lemma {:induction false} CollapseShortRunsUnchanged(s: string, p: char -> bool, n: nat, rep: string)
    requires n >= 1 && RunsAtMost(s, p, n - 1)
    ensures Collapse(s, p, n, rep) == s
    decreases |s|
  {
    if s == [] {
    } else if !p(s[0]) {
      RunsAtMostSuffix(s, p, n - 1, 1);
      CollapseShortRunsUnchanged(s[1..], p, n, rep);
    } else {
      var k := RunLen(s, p);
      assert s[0..] == s;
      RunsAtMostSuffix(s, p, n - 1, k);
      CollapseShortRunsUnchanged(s[k..], p, n, rep);
      assert s[..k] + s[k..] == s;
    }
  }

  /** A class of one character `c` whose runs are at most `n` long is left
      unchanged when the replacement is `n` copies of `c`. */
  lemma {:induction false} CollapseExactRunsUnchanged(s: string, p: char -> bool, c: char, n: nat, rep: string)
    requires forall x :: p(x) <==> x == c
    requires |rep| == n && forall j :: 0 <= j < n ==> rep[j] == c
    requires RunsAtMost(s, p, n)
    ensures Collapse(s, p, n, rep) == s
    decreases |s|
  {
    if s == [] {
    } else if !p(s[0]) {
      RunsAtMostSuffix(s, p, n, 1);
      CollapseExactRunsUnchanged(s[1..], p, c, n, rep);
    } else {
      var k := RunLen(s, p);
      assert s[0..] == s;
      assert k <= n;
      RunsAtMostSuffix(s, p, n, k);
      CollapseExactRunsUnchanged(s[k..], p, c, n, rep);
      if k >= n {
        RunLenAll(s, p);
        forall j | 0 <= j < k ensures s[..k][j] == rep[j] {
          assert p(s[j]);
        }
        assert s[..k] == rep;
      }
      assert s[..k] + s[k..] == s;
    }
  }

  // ---------------------------------------------------------------------------
  // cleanup_content (threshold 3)

  lemma StripKeepsRuns(s: string, p: char -> bool, b: nat)
    requires RunsAtMost(s, p, b)
    ensures RunsAtMost(Strip(s), p, b)
  {
    StripIsInfix(s);
    var lo, hi :| 0 <= lo <= hi <= |s| && Strip(s) == s[lo..hi];
    RunsAtMostInfix(s, p, b, lo, hi);
  }

  lemma NewlineInlineDisjoint()
    ensures forall c :: !(IsNewline(c) && IsInlineSpace(c))
    ensures forall c :: !(IsNewline(c) && IsDash(c))
    ensures forall c :: !(IsInlineSpace(c) && IsDash(c))
  {
  }

  /** Newline runs are at most 2 long, other whitespace runs at most 2 long,
      dash runs at most 3 long, and there is no outer whitespace. */
  predicate IsClean(r: string) {
    RunsAtMost(r, IsNewline, 2) && RunsAtMost(r, IsInlineSpace, 2) && RunsAtMost(r, IsDash, 3)
    && (r == [] || (!IsSpace(r[0]) && !IsSpace(r[|r| - 1])))
  }

  /** The output of `cleanup_content` is clean. */
  lemma CleanupContentIsClean(content: string)
    ensures IsClean(CleanupContent(content))
  {
    var o3 := Collapsed(content);
    CollapsedNewlines(content);
    CollapsedSpaces(content);
    CollapsedDashes(content);
    StripKeepsRuns(o3, IsNewline, 2);
    StripKeepsRuns(o3, IsInlineSpace, 2);
    StripKeepsRuns(o3, IsDash, 3);
  }

  lemma CollapsedNewlines(content: string)
    ensures RunsAtMost(Collapsed(content), IsNewline, 2)
  {
    NewlineInlineDisjoint();
    var o1 := Collapse(content, IsNewline, 3, "\n\n");
    var o2 := Collapse(o1, IsInlineSpace, 3, "  ");
    CollapseBoundsRuns(content, IsNewline, 3, "\n\n", 2);
    CollapseKeepsRuns(o1, IsInlineSpace, IsNewline, 3, "  ", 2);
    CollapseKeepsRuns(o2, IsDash, IsNewline, 3, "---", 2);
  }

  lemma CollapsedSpaces(content: string)
    ensures RunsAtMost(Collapsed(content), IsInlineSpace, 2)
  {
    NewlineInlineDisjoint();
    var o1 := Collapse(content, IsNewline, 3, "\n\n");
    var o2 := Collapse(o1, IsInlineSpace, 3, "  ");
    CollapseBoundsRuns(o1, IsInlineSpace, 3, "  ", 2);
    CollapseKeepsRuns(o2, IsDash, IsInlineSpace, 3, "---", 2);
  }

  lemma CollapsedDashes(content: string)
    ensures RunsAtMost(Collapsed(content), IsDash, 3)
  {
    var o2 := Collapse(Collapse(content, IsNewline, 3, "\n\n"), IsInlineSpace, 3, "  ");
    CollapseBoundsRuns(o2, IsDash, 3, "---", 3);
  }

  /** Clean input is returned unchanged. */
  lemma CleanupContentFixesClean(s: string)
    requires IsClean(s)
    ensures CleanupContent(s) == s
  {
    CollapseShortRunsUnchanged(s, IsNewline, 3, "\n\n");
    CollapseShortRunsUnchanged(s, IsInlineSpace, 3, "  ");
    CollapseExactRunsUnchanged(s, IsDash, '-', 3, "---");
    StripUnchanged(s);
  }

  /** No three consecutive newlines survive `cleanup_content`. */
  lemma CleanupContentNoTripleNewline(content: string, i: nat)
    requires i + 3 <= |CleanupContent(content)|
    ensures CleanupContent(content)[i..i + 3] != "\n\n\n"
  {
    CleanupContentIsClean(content);
    var r := CleanupContent(content);
    RunsAtMostWindow(r, IsNewline, 2, i);
    var j :| i <= j < i + 3 && !IsNewline(r[j]);
    assert r[i..i + 3][j - i] == r[j];
  }

  /** `cleanup_content` is idempotent. */
  lemma CleanupContentIdempotent(content: string)
    ensures CleanupContent(CleanupContent(content)) == CleanupContent(content)
  {
    CleanupContentIsClean(content);
    CleanupContentFixesClean(CleanupContent(content));
  }

  // ---------------------------------------------------------------------------
  // cleanup_content (threshold 2)

  /** Newline and other whitespace runs are single characters, dash runs at
      most 2 long, and there is no outer whitespace. */
  predicate IsCompact(r: string) {
    RunsAtMost(r, IsNewline, 1) && RunsAtMost(r, IsInlineSpace, 1) && RunsAtMost(r, IsDash, 2)
    && (r == [] || (!IsSpace(r[0]) && !IsSpace(r[|r| - 1])))
  }

  lemma CleanupContentCompactIsCompact(content: string)
    ensures IsCompact(CleanupContentCompact(content))
  {
    var o3 := CollapsedCompact(content);
    CompactNewlines(content);
    CompactSpaces(content);
    CompactDashes(content);
    StripKeepsRuns(o3, IsNewline, 1);
    StripKeepsRuns(o3, IsInlineSpace, 1);
    StripKeepsRuns(o3, IsDash, 2);
  }

  lemma CompactNewlines(content: string)
    ensures RunsAtMost(CollapsedCompact(content), IsNewline, 1)
  {
    NewlineInlineDisjoint();
    var o1 := Collapse(content, IsNewline, 2, "\n");
    var o2 := Collapse(o1, IsInlineSpace, 2, " ");
    CollapseBoundsRuns(content, IsNewline, 2, "\n", 1);
    CollapseKeepsRuns(o1, IsInlineSpace, IsNewline, 2, " ", 1);
    CollapseKeepsRuns(o2, IsDash, IsNewline, 2, "--", 1);
  }

  lemma CompactSpaces(content: string)
    ensures RunsAtMost(CollapsedCompact(content), IsInlineSpace, 1)
  {
    NewlineInlineDisjoint();
    var o1 := Collapse(content, IsNewline, 2, "\n");
    var o2 := Collapse(o1, IsInlineSpace, 2, " ");
    CollapseBoundsRuns(o1, IsInlineSpace, 2, " ", 1);
    CollapseKeepsRuns(o2, IsDash, IsInlineSpace, 2, "--", 1);
  }

  lemma CompactDashes(content: string)
    ensures RunsAtMost(CollapsedCompact(content), IsDash, 2)
  {
    var o2 := Collapse(Collapse(content, IsNewline, 2, "\n"), IsInlineSpace, 2, " ");
    CollapseBoundsRuns(o2, IsDash, 2, "--", 2);
  }

  lemma CleanupContentCompactFixesCompact(s: string)
    requires IsCompact(s)
    ensures CleanupContentCompact(s) == s
  {
    CollapseShortRunsUnchanged(s, IsNewline, 2, "\n");
    CollapseShortRunsUnchanged(s, IsInlineSpace, 2, " ");
    CollapseExactRunsUnchanged(s, IsDash, '-', 2, "--");
    StripUnchanged(s);
  }

  lemma CleanupContentCompactIdempotent(content: string)
    ensures CleanupContentCompact(CleanupContentCompact(content)) == CleanupContentCompact(content)
  {
    CleanupContentCompactIsCompact(content);
    CleanupContentCompactFixesCompact(CleanupContentCompact(content));
  }
}
