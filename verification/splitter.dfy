/** `RecursiveCharacterTextSplitter`: split a text on the first separator of
    a list that occurs in it, merge the small pieces with `_merge_splits`,
    and split the large ones again with the separators after it, or cut them
    into fixed-width snippets when none is left. Separators are literal
    strings (`is_separator_regex` is false, so every separator goes through
    `re.escape`). */
module Splitting {
  import opened Wrappers
  import opened Strings
  import opened Merging

  /** The separators of a splitter constructed without any. */
  const DefaultSeparators: seq<string> := ["\n\n", "\n", " ", ""]

  /** `MarkdownTextSplitter`'s separators, escaped and so matched literally. */
  const MarkdownSeparators: seq<string> :=
    ["\n#{1,6} ", "```\n", "\n\\*\\*\\*+\n", "\n---+\n", "\n___+\n", "\n\n", "\n", " ", ""]

  /** `PythonCodeTextSplitter`'s separators. */
  const PythonSeparators: seq<string> := ["\nclass ", "\ndef ", "\n\tdef ", "\n\n", "\n", " ", ""]

  // ---------------------------------------------------------------------------
  // Choosing the separator

  /** The separator `_split_text` splits on and the separators left for
      recursive calls. */
  datatype Choice = Choice(sep: string, rest: seq<string>)

  /** The scan stops at a separator that is empty or occurs in the text. */
  predicate Stops(text: string, s: string) {
    s == "" || Contains(text, s)
  }

  function ChooseFrom(text: string, seps: seq<string>, i: nat): (r: Choice)
    requires 0 < |seps| && i <= |seps|
    ensures |r.rest| < |seps| && r.sep in seps
    decreases |seps| - i
  {
    if i == |seps| then Choice(seps[|seps| - 1], [])
    else if seps[i] == "" then Choice("", [])
    else if Contains(text, seps[i]) then Choice(seps[i], seps[i + 1..])
    else ChooseFrom(text, seps, i + 1)
  }

  /** The separator loop of `_split_text`: the first separator that is empty
      or occurs in the text, with the separators after it when it is not
      empty; the last separator and nothing left when no separator stops
      the scan. */
  function ChooseSeparator(text: string, seps: seq<string>): (r: Choice)
    requires seps != []
    ensures |r.rest| < |seps| && r.sep in seps
  {
    ChooseFrom(text, seps, 0)
  }

  /** The separator loop, as written. */
  method ChooseSeparatorLoop(text: string, seps: seq<string>) returns (c: Choice)
    requires seps != []
    ensures c == ChooseSeparator(text, seps)
  {
    var separator := seps[|seps| - 1];
    var newSeparators: seq<string> := [];
    var i := 0;
    while i < |seps|
      invariant i <= |seps|
      invariant ChooseFrom(text, seps, i) == ChooseSeparator(text, seps)
    {
      var s := seps[i];
      if s == "" {
        return Choice("", []);
      }
      if Contains(text, s) {
        return Choice(s, seps[i + 1..]);
      }
      i := i + 1;
    }
    return Choice(separator, newSeparators);
  }

  lemma {:induction false} ChooseFromFirst(text: string, seps: seq<string>, i: nat)
    requires 0 < |seps| && i <= |seps|
    requires forall j :: 0 <= j < i ==> !Stops(text, seps[j])
    ensures var r := ChooseFrom(text, seps, i);
      (exists k :: 0 <= k < |seps| && Stops(text, seps[k])
         && (forall j :: 0 <= j < k ==> !Stops(text, seps[j]))
         && r.sep == seps[k] && r.rest == (if seps[k] == "" then [] else seps[k + 1..]))
      || ((forall j :: 0 <= j < |seps| ==> !Stops(text, seps[j])) && r == Choice(seps[|seps| - 1], []))
    decreases |seps| - i
  {
    if i < |seps| && !Stops(text, seps[i]) {
      ChooseFromFirst(text, seps, i + 1);
    }
  }

  /** The chosen separator is the first one, in list order, that is empty or
      occurs in the text; the recursion gets exactly the separators after it
      (none after an empty one). When none stops the scan, the last
      separator is used and nothing is left for recursion. */
  lemma ChooseSeparatorFirst(text: string, seps: seq<string>)
    requires seps != []
    ensures var r := ChooseSeparator(text, seps);
      (exists k :: 0 <= k < |seps| && Stops(text, seps[k])
         && (forall j :: 0 <= j < k ==> !Stops(text, seps[j]))
         && r.sep == seps[k] && r.rest == (if seps[k] == "" then [] else seps[k + 1..]))
      || ((forall j :: 0 <= j < |seps| ==> !Stops(text, seps[j])) && r == Choice(seps[|seps| - 1], []))
  {
    ChooseFromFirst(text, seps, 0);
  }

  // ---------------------------------------------------------------------------
  // Splitting on one separator

  /** The pieces that are not empty, in order. */
  function NonEmpty(xs: seq<string>): (r: seq<string>)
    ensures forall k :: 0 <= k < |r| ==> r[k] != []
    ensures |r| <= |xs|
  {
    if xs == [] then []
    else if xs[0] == [] then NonEmpty(xs[1..])
    else [xs[0]] + NonEmpty(xs[1..])
  }

  /** The pieces of `re.split("(sep)", text)` with each separator glued to
      the piece after it: `[p0, sep + p1, sep + p2, ...]`. */
  function KeepPieces(parts: seq<string>, sep: string): (r: seq<string>)
    requires parts != []
  {
    [parts[0]] + Prefixed(parts[1..], sep)
  }

  function Prefixed(parts: seq<string>, sep: string): (r: seq<string>)
    ensures |r| == |parts|
    ensures forall k :: 0 <= k < |parts| ==> r[k] == sep + parts[k]
  {
    if parts == [] then [] else [sep + parts[0]] + Prefixed(parts[1..], sep)
  }

  /** `list(text)`: one piece per character. */
  function Chars(text: string): (r: seq<string>)
    ensures |r| == |text|
    ensures forall k :: 0 <= k < |text| ==> r[k] == [text[k]]
  {
    if text == [] then [] else [[text[0]]] + Chars(text[1..])
  }

  /** `_split_text_with_regex` for a literal separator. */
  function SplitWithSeparator(text: string, sep: string, keep: bool): (r: seq<string>)
    ensures forall k :: 0 <= k < |r| ==> r[k] != []
  {
    if sep == "" then Chars(text)
    else if keep then NonEmpty(KeepPieces(Split(text, sep), sep))
    else NonEmpty(Split(text, sep))
  }

  lemma {:induction false} NonEmptyConcat(xs: seq<string>)
    ensures Concat(NonEmpty(xs)) == Concat(xs)
  {
    if xs != [] {
      NonEmptyConcat(xs[1..]);
    }
  }

  lemma {:induction false} NonEmptySubset(xs: seq<string>)
    ensures forall p :: p in NonEmpty(xs) ==> p in xs
  {
    if xs != [] {
      NonEmptySubset(xs[1..]);
    }
  }

  lemma {:induction false} KeepPiecesConcat(parts: seq<string>, sep: string)
    requires parts != []
    ensures Concat(KeepPieces(parts, sep)) == Join(sep, parts)
    decreases |parts|
  {
    if |parts| > 1 {
      var tail := parts[1..];
      KeepPiecesConcat(tail, sep);
      var k := KeepPieces(parts, sep);
      assert k[1..] == [sep + tail[0]] + Prefixed(tail[1..], sep);
      assert KeepPieces(tail, sep) == [tail[0]] + Prefixed(tail[1..], sep);
      calc {
        Concat(k);
        parts[0] + Concat(k[1..]);
        parts[0] + ((sep + tail[0]) + Concat(Prefixed(tail[1..], sep)));
        { assert Concat(KeepPieces(tail, sep)) == tail[0] + Concat(Prefixed(tail[1..], sep)); }
        parts[0] + sep + Join(sep, tail);
      }
    } else {
      assert KeepPieces(parts, sep) == [parts[0]];
    }
  }

  lemma {:induction false} CharsConcat(text: string)
    ensures Concat(Chars(text)) == text
  {
    if text != [] {
      CharsConcat(text[1..]);
    }
  }

  /** Keeping the separator, no piece is empty and the pieces concatenate
      back to the text exactly. */
  lemma SplitKeepSeparatorLossless(text: string, sep: string)
    ensures var r := SplitWithSeparator(text, sep, true);
      (forall k :: 0 <= k < |r| ==> r[k] != []) && Concat(r) == text
  {
    if sep == "" {
      CharsConcat(text);
    } else {
      var parts := Split(text, sep);
      NonEmptyConcat(KeepPieces(parts, sep));
      KeepPiecesConcat(parts, sep);
      JoinSplit(text, sep);
    }
  }

  /** With an empty separator the pieces are the single characters of the
      text, whatever `keep_separator` says. */
  lemma SplitEmptySeparatorChars(text: string, keep: bool)
    ensures var r := SplitWithSeparator(text, "", keep);
      |r| == |text| && forall k :: 0 <= k < |text| ==> r[k] == [text[k]]
  {
  }

  /** Dropping the separator, the pieces are the non-empty pieces of
      `text.split(sep)`, none of which holds the separator. */
  lemma SplitDropSeparator(text: string, sep: string)
    requires sep != ""
    ensures var r := SplitWithSeparator(text, sep, false);
      r == NonEmpty(Split(text, sep)) && Join(sep, Split(text, sep)) == text
      && forall p :: p in r ==> !Contains(p, sep)
  {
    JoinSplit(text, sep);
    SplitPiecesFree(text, sep);
    NonEmptySubset(Split(text, sep));
  }

  // ---------------------------------------------------------------------------
  // The fixed-width fallback

  function Min(a: int, b: int): int { if a <= b then a else b }

  /** `math.ceil(n / d)` for a positive `d`. */
  function CeilDiv(n: nat, d: nat): nat
    requires d > 0
  {
    (n + d - 1) / d
  }

  /** `CeilDiv` is the ceiling of the quotient: the least `q` with `q * d >= n`. */
  lemma CeilDivIsCeiling(n: nat, d: nat)
    requires d > 0
    ensures CeilDiv(n, d) * d >= n
    ensures CeilDiv(n, d) == 0 || (CeilDiv(n, d) - 1) * d < n
  {
    var q := CeilDiv(n, d);
    var m := (n + d - 1) % d;
    assert q * d + m == n + d - 1;
    assert 0 <= m < d;
    if q > 0 {
      assert (q - 1) * d == q * d - d;
    }
  }

  lemma CeilDivAtMost(n: nat, d: nat)
    requires d > 0
    ensures CeilDiv(n, d) <= n
  {
    var q := CeilDiv(n, d);
    CeilDivIsCeiling(n, d);
    if q > 0 {
      var p: nat := q - 1;
      assert p * (d - 1) >= 0;
      assert p * d == p + p * (d - 1);
    }
  }

  /** The snippets `s[i : i + size]` for `i` in `range(ceil(len(s) / size))`:
      consecutive start offsets, not multiples of `size`. */
  function HardSlices(s: string, size: nat): (r: seq<string>)
    requires size > 0
    ensures |r| == CeilDiv(|s|, size) <= |s|
  {
    CeilDivAtMost(|s|, size);
    seq(CeilDiv(|s|, size), i requires 0 <= i < CeilDiv(|s|, size) => s[Min(i, |s|)..Min(i + size, |s|)])
  }

  /** `math.ceil(len(s) / size)` divides by zero for size 0 and gives no
      snippet for a negative size. */
  function HardSlice(s: string, size: int): (r: Result<seq<string>>)
  {
    if size == 0 then Failure(DivisionByZero)
    else if size < 0 then Success([])
    else Success(HardSlices(s, size))
  }

  /** The fallback emits `ceil(len(s) / size)` snippets; snippet `i` starts
      at offset `i` and holds at most `size` characters, and none is empty. */
  lemma HardSliceShape(s: string, size: int)
    requires size > 0
    ensures HardSlice(s, size).Success?
    ensures var r := HardSlice(s, size).value;
      |r| == CeilDiv(|s|, size)
      && (forall i :: 0 <= i < |r| ==> r[i] == s[i..Min(i + size, |s|)])
      && (forall i :: 0 <= i < |r| ==> 0 < |r[i]| <= size)
  {
  }

  /** Snippets start one character apart, so a long piece loses its tail:
      `"abcd"` with size 2 gives `"ab"` and `"bc"`. */
  lemma HardSliceExample()
    ensures HardSlice("abcd", 2) == Success(["ab", "bc"])
  {
    assert CeilDiv(4, 2) == 2;
    var r := HardSlices("abcd", 2);
    assert |r| == 2;
    assert Min(0, 4) == 0 && Min(2, 4) == 2 && Min(1, 4) == 1 && Min(3, 4) == 3;
    assert r[0] == "abcd"[0..2] == "ab";
    assert r[1] == "abcd"[1..3] == "bc";
    assert r == ["ab", "bc"];
  }

  // ---------------------------------------------------------------------------
  // The cascade

  /** What one call of `_split_text` reads from the splitter. */
  datatype SplitConfig = SplitConfig(tok: string -> nat, keep: bool, chunkSize: int, overlap: int)

  /** `_split_text(text, seps)`. */
  function SplitTextSpec(c: SplitConfig, text: string, seps: seq<string>): Result<seq<string>>
    decreases |seps|, 0
  {
    if seps == [] then Failure(IndexOutOfRange)
    else
      var choice := ChooseSeparator(text, seps);
      var splits := SplitWithSeparator(text, choice.sep, c.keep);
      var mc := MergeConfig(c.tok, if c.keep then "" else choice.sep, c.chunkSize, c.overlap);
      Cascade(c, mc, splits, choice.rest, 0, [], [])
  }

  /** `if _good_splits: ... self._merge_splits(_good_splits, _separator)`:
      pending small pieces are merged, and nothing is emitted without them. */
  function Flush(mc: MergeConfig, good: seq<string>): Result<seq<string>> {
    if good == [] then Success([]) else MergeSplits(mc, good)
  }

  /** The piece loop of `_split_text` from piece `i` on, with the pending
      small pieces `good` and the chunks `acc` emitted so far. */
  function Cascade(c: SplitConfig, mc: MergeConfig, splits: seq<string>, rest: seq<string>,
                   i: nat, good: seq<string>, acc: seq<string>): Result<seq<string>>
    requires i <= |splits|
    decreases |rest|, 2, |splits| - i
  {
    if i == |splits| then
      var flushed :- Flush(mc, good);
      Success(acc + flushed)
    else
      var s := splits[i];
      if c.tok(s) < c.chunkSize then Cascade(c, mc, splits, rest, i + 1, good + [s], acc)
      else
        var flushed := Flush(mc, good);
        if flushed.Failure? then Failure(flushed.error)
        else
          var sub := if rest == [] then HardSlice(s, c.chunkSize) else SplitTextSpec(c, s, rest);
          if sub.Failure? then Failure(sub.error)
          else Cascade(c, mc, splits, rest, i + 1, [], acc + flushed.value + sub.value)
  }

  // ---------------------------------------------------------------------------
  // Properties of the cascade

  predicate AllNonEmpty(xs: seq<string>) {
    forall k :: 0 <= k < |xs| ==> xs[k] != []
  }

  lemma MergeSplitsNonEmpty(mc: MergeConfig, good: seq<string>)
    requires MergeSplits(mc, good).Success?
    ensures AllNonEmpty(MergeSplits(mc, good).value)
  {
    var docs := MergeSplits(mc, good).value;
    forall k | 0 <= k < |docs| ensures docs[k] != [] {
      MergeSplitsChunks(mc, good, docs[k]);
    }
  }

  lemma AllNonEmptyAppend(a: seq<string>, b: seq<string>)
    requires AllNonEmpty(a) && AllNonEmpty(b)
    ensures AllNonEmpty(a + b)
  {
    forall k | 0 <= k < |a + b| ensures (a + b)[k] != [] {
      if k >= |a| {
        assert (a + b)[k] == b[k - |a|];
      }
    }
  }

  /** A flush emits no empty chunk, and fails only for a negative overlap. */
  lemma FlushFacts(mc: MergeConfig, good: seq<string>)
    ensures var f := Flush(mc, good);
      (f.Success? ==> AllNonEmpty(f.value)) && (mc.overlap >= 0 ==> f.Success?)
  {
    if good != [] {
      MergeSplitsFailure(mc, good);
      if MergeSplits(mc, good).Success? {
        MergeSplitsNonEmpty(mc, good);
      }
    }
  }

  /** The fallback emits no empty snippet, and fails only for size 0. */
  lemma HardSliceNonEmpty(s: string, size: int)
    ensures var r := HardSlice(s, size);
      (r.Success? ==> AllNonEmpty(r.value)) && (size > 0 ==> r.Success?)
  {
    if size > 0 {
      HardSliceShape(s, size);
    }
  }

  lemma {:induction false} CascadeFacts(c: SplitConfig, mc: MergeConfig, splits: seq<string>, rest: seq<string>,
                                         i: nat, good: seq<string>, acc: seq<string>)
    requires i <= |splits| && AllNonEmpty(splits) && AllNonEmpty(acc)
    requires mc.chunkSize == c.chunkSize && mc.overlap == c.overlap
    ensures var r := Cascade(c, mc, splits, rest, i, good, acc);
      (r.Success? ==> AllNonEmpty(r.value))
      && (c.chunkSize > 0 && c.overlap >= 0 ==> r.Success?)
    decreases |rest|, 2, |splits| - i
  {
    FlushFacts(mc, good);
    var flushed := Flush(mc, good);
    if i == |splits| {
      if flushed.Success? {
        AllNonEmptyAppend(acc, flushed.value);
      }
    } else {
      var s := splits[i];
      if c.tok(s) < c.chunkSize {
        CascadeFacts(c, mc, splits, rest, i + 1, good + [s], acc);
      } else if flushed.Success? {
        var sub := if rest == [] then HardSlice(s, c.chunkSize) else SplitTextSpec(c, s, rest);
        if rest == [] {
          HardSliceNonEmpty(s, c.chunkSize);
        } else {
          SplitTextFacts(c, s, rest);
        }
        if sub.Success? {
          AllNonEmptyAppend(acc, flushed.value);
          AllNonEmptyAppend(acc + flushed.value, sub.value);
          CascadeFacts(c, mc, splits, rest, i + 1, [], acc + flushed.value + sub.value);
        }
      }
    }
  }

  /** `_split_text` never emits an empty chunk, and it succeeds for every
      text when the chunk size is positive, the overlap is not negative and
      there is a separator: the `IndexError` of an empty separator list, the
      `ZeroDivisionError` of the fallback and the `IndexError` of a negative
      overlap are its only failures. */
  lemma {:induction false} SplitTextFacts(c: SplitConfig, text: string, seps: seq<string>)
    ensures var r := SplitTextSpec(c, text, seps);
      (r.Success? ==> AllNonEmpty(r.value))
      && (c.chunkSize > 0 && c.overlap >= 0 && seps != [] ==> r.Success?)
    decreases |seps|, 1
  {
    if seps != [] {
      var choice := ChooseSeparator(text, seps);
      var splits := SplitWithSeparator(text, choice.sep, c.keep);
      var mc := MergeConfig(c.tok, if c.keep then "" else choice.sep, c.chunkSize, c.overlap);
      CascadeFacts(c, mc, splits, choice.rest, 0, [], []);
    }
  }

  // ---------------------------------------------------------------------------
  // The splitter object

  class RecursiveCharacterTextSplitter {
    const separators: seq<string>
    const keepSeparator: bool
    /** The token estimator `_split_text` installs as `_length_function`. */
    const tok: string -> nat
    /** `_chunk_size` and `_chunk_overlap`, set by every call of `_split_text`. */
    var chunkSize: int
    var chunkOverlap: int

    /** `separators or ["\n\n", "\n", " ", ""]`: no separators means the defaults. */
    constructor(separators: seq<string>, keepSeparator: bool, tok: string -> nat)
      ensures this.separators == if separators == [] then DefaultSeparators else separators
      ensures this.keepSeparator == keepSeparator && this.tok == tok
    {
      this.separators := if separators == [] then DefaultSeparators else separators;
      this.keepSeparator := keepSeparator;
      this.tok := tok;
    }

    /** `MarkdownTextSplitter()`. */
    constructor Markdown(keepSeparator: bool, tok: string -> nat)
      ensures separators == MarkdownSeparators
      ensures this.keepSeparator == keepSeparator && this.tok == tok
    {
      separators := MarkdownSeparators;
      this.keepSeparator := keepSeparator;
      this.tok := tok;
    }

    /** `PythonCodeTextSplitter()`. */
    constructor Python(keepSeparator: bool, tok: string -> nat)
      ensures separators == PythonSeparators
      ensures this.keepSeparator == keepSeparator && this.tok == tok
    {
      separators := PythonSeparators;
      this.keepSeparator := keepSeparator;
      this.tok := tok;
    }

    function Config(): SplitConfig
      reads this
    {
      SplitConfig(tok, keepSeparator, chunkSize, chunkOverlap)
    }

    /** `split_text(text, token_limit, chunk_overlap)`. */
    method SplitText(text: string, tokenLimit: int, overlap: int) returns (r: Result<seq<string>>)
      modifies this
      ensures chunkSize == tokenLimit && chunkOverlap == overlap
      ensures r == SplitTextSpec(Config(), text, separators)
    {
      r := SplitTextWith(text, tokenLimit, overlap, separators);
    }

    /** `_split_text(text, token_limit, chunk_overlap, separators)`. */
    method SplitTextWith(text: string, tokenLimit: int, overlap: int, seps: seq<string>) returns (r: Result<seq<string>>)
      modifies this
      ensures chunkSize == tokenLimit && chunkOverlap == overlap
      ensures r == SplitTextSpec(Config(), text, seps)
      decreases |seps|
    {
      chunkSize := tokenLimit;
      chunkOverlap := overlap;
      if seps == [] {
        return Failure(IndexOutOfRange);
      }
      var choice := ChooseSeparatorLoop(text, seps);
      var splits := SplitWithSeparator(text, choice.sep, keepSeparator);
      var mc := MergeConfig(tok, if keepSeparator then "" else choice.sep, chunkSize, chunkOverlap);
      var finalChunks: seq<string> := [];
      var goodSplits: seq<string> := [];
      for i := 0 to |splits|
        invariant chunkSize == tokenLimit && chunkOverlap == overlap
        invariant Cascade(Config(), mc, splits, choice.rest, i, goodSplits, finalChunks)
               == SplitTextSpec(Config(), text, seps)
      {
        var s := splits[i];
        if tok(s) < chunkSize {
          goodSplits := goodSplits + [s];
        } else {
          var flushed: seq<string> := [];
          if goodSplits != [] {
            var merged := MergeSplitsLoop(mc, goodSplits);
            if merged.Failure? {
              return Failure(merged.error);
            }
            flushed := merged.value;
          }
          var sub: seq<string>;
          if choice.rest == [] {
            if chunkSize == 0 {
              return Failure(DivisionByZero);
            }
            sub := HardSliceLoop(s, chunkSize);
          } else {
            var other := SplitTextWith(s, chunkSize, chunkOverlap, choice.rest);
            if other.Failure? {
              return Failure(other.error);
            }
            sub := other.value;
          }
          finalChunks := finalChunks + flushed + sub;
          goodSplits := [];
        }
      }
      var flushed: seq<string> := [];
      if goodSplits != [] {
        var merged := MergeSplitsLoop(mc, goodSplits);
        if merged.Failure? {
          return Failure(merged.error);
        }
        flushed := merged.value;
      }
      return Success(finalChunks + flushed);
    }
  }

  /** The snippet loop of the fallback. */
  method HardSliceLoop(s: string, size: int) returns (snippets: seq<string>)
    requires size != 0
    ensures Success(snippets) == HardSlice(s, size)
  {
    snippets := [];
    if size < 0 {
      return;
    }
    var count := CeilDiv(|s|, size);
    for i := 0 to count
      invariant |snippets| == i
      invariant forall k :: 0 <= k < i ==> snippets[k] == s[Min(k, |s|)..Min(k + size, |s|)]
    {
      snippets := snippets + [s[Min(i, |s|)..Min(i + size, |s|)]];
    }
    assert snippets == HardSlices(s, size);
  }
}
