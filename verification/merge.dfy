/** The two accumulators that glue small fragments into chunks under a token
    budget: the overlap-aware `_merge_splits` of the text splitters and the
    serial `merge_chunks_serially`. Both are specified by the sequence of
    fragment windows `[lo, hi)` they close, so that the chunk texts are
    functions of the windows. */
module Merging {
  import opened Wrappers
  import opened Strings

  /** A window of fragments `splits[lo..hi]`. */
  datatype Window = Window(lo: nat, hi: nat)

  predicate InRange(wins: seq<Window>, n: nat) {
    forall j :: 0 <= j < |wins| ==> wins[j].lo <= wins[j].hi <= n
  }

  // ===========================================================================
  // _merge_splits

  /** The state `_merge_splits` reads from its splitter: the length function,
      the separator, `_chunk_size` and `_chunk_overlap`. */
  datatype MergeConfig = MergeConfig(tok: string -> nat, sep: string, chunkSize: int, overlap: int)

  /** The running `total` of `_merge_splits`: the tokens of the fragments plus
      one separator between each two of them. */
  function Cost(tok: string -> nat, sepLen: nat, xs: seq<string>): nat {
    if xs == [] then 0
    else if |xs| == 1 then tok(xs[0])
    else tok(xs[0]) + sepLen + Cost(tok, sepLen, xs[1..])
  }

  function WindowCost(c: MergeConfig, splits: seq<string>, lo: nat, hi: nat): nat
    requires lo <= hi <= |splits|
  {
    Cost(c.tok, c.tok(c.sep), splits[lo..hi])
  }

  /** The test at the head of the loop: adding fragment `i` to the current
      fragments `splits[lo..i]` would exceed the chunk size. */
  predicate Overflows(c: MergeConfig, splits: seq<string>, lo: nat, i: nat)
    requires lo <= i < |splits|
  {
    WindowCost(c, splits, lo, i) + c.tok(splits[i]) + (if lo < i then c.tok(c.sep) else 0) > c.chunkSize
  }

  /** The pop loop: drop leading fragments while the total exceeds the overlap,
      or while fragment `i` still does not fit and the total is positive.
      Popping from an empty list raises `IndexError`. */
  function PopFrom(c: MergeConfig, splits: seq<string>, lo: nat, i: nat): (r: Result<nat>)
    requires lo <= i < |splits|
    ensures r.Success? ==> lo <= r.value <= i
    ensures r.Failure? ==> r == Failure(IndexOutOfRange)
    ensures r.Success? ==> WindowCost(c, splits, r.value, i) <= c.overlap
    ensures r.Success? ==> !Overflows(c, splits, r.value, i) || WindowCost(c, splits, r.value, i) == 0
    decreases i - lo
  {
    var total := WindowCost(c, splits, lo, i);
    if total > c.overlap || (Overflows(c, splits, lo, i) && total > 0) then
      if lo == i then Failure(IndexOutOfRange) else PopFrom(c, splits, lo + 1, i)
    else Success(lo)
  }

  /** The main loop from fragment `i` on, with current fragments
      `splits[lo..i]` and the windows closed so far. */
  function MergeFrom(c: MergeConfig, splits: seq<string>, i: nat, lo: nat, wins: seq<Window>): (r: Result<seq<Window>>)
    requires lo <= i <= |splits|
    requires InRange(wins, i)
    ensures r.Success? ==> InRange(r.value, |splits|)
    decreases |splits| - i
  {
    if i == |splits| then Success(wins + [Window(lo, i)])
    else if Overflows(c, splits, lo, i) && lo < i then
      match PopFrom(c, splits, lo, i)
      case Failure(e) => Failure(e)
      case Success(next) => MergeFrom(c, splits, i + 1, next, wins + [Window(lo, i)])
    else MergeFrom(c, splits, i + 1, lo, wins)
  }

  /** The windows `_merge_splits` joins, the last one being the final join. */
  function MergeWindows(c: MergeConfig, splits: seq<string>): (r: Result<seq<Window>>)
    ensures r.Success? ==> InRange(r.value, |splits|)
  {
    MergeFrom(c, splits, 0, 0, [])
  }

  /** `_join_docs`: join, strip, and drop a blank result. */
  function JoinDocs(docs: seq<string>, sep: string): Option<string> {
    var text := Strip(Join(sep, docs));
    if text == [] then None else Some(text)
  }

  /** A chunk is made exactly when the stripped join is not blank, and is
      that stripped join. */
  lemma JoinDocsFacts(docs: seq<string>, sep: string)
    ensures var r := JoinDocs(docs, sep);
      (r.Some? ==> r.value != [] && r.value == Strip(Join(sep, docs)))
      && (r.None? <==> Strip(Join(sep, docs)) == [])
  {
  }

  /** What `_join_docs` makes of each window, in order. */
  function WindowJoins(splits: seq<string>, sep: string, wins: seq<Window>): (r: seq<Option<string>>)
    requires InRange(wins, |splits|)
    ensures |r| == |wins|
  {
    if wins == [] then []
    else
      var w := wins[|wins| - 1];
      WindowJoins(splits, sep, wins[..|wins| - 1]) + [JoinDocs(splits[w.lo..w.hi], sep)]
  }

  lemma {:induction false} WindowJoinsAt(splits: seq<string>, sep: string, wins: seq<Window>, j: nat)
    requires InRange(wins, |splits|) && j < |wins|
    ensures WindowJoins(splits, sep, wins)[j] == JoinDocs(splits[wins[j].lo..wins[j].hi], sep)
  {
    var n := |wins| - 1;
    if j < n {
      WindowJoinsAt(splits, sep, wins[..n], j);
    }
  }

  /** The values of the present entries, in order. */
  function Somes(xs: seq<Option<string>>): seq<string> {
    if xs == [] then []
    else Somes(xs[..|xs| - 1]) + Present(xs[|xs| - 1])
  }

  function Present(x: Option<string>): seq<string> {
    match x
    case None => []
    case Some(t) => [t]
  }

  /** The chunk texts of the windows whose join is not blank, in order. */
  function WindowDocs(splits: seq<string>, sep: string, wins: seq<Window>): seq<string>
    requires InRange(wins, |splits|)
  {
    Somes(WindowJoins(splits, sep, wins))
  }

  /** `_merge_splits(splits, separator)`. */
  function MergeSplits(c: MergeConfig, splits: seq<string>): Result<seq<string>> {
    match MergeWindows(c, splits)
    case Failure(e) => Failure(e)
    case Success(wins) => Success(WindowDocs(splits, c.sep, wins))
  }

  /** The loop of `_merge_splits`. */
  method MergeSplitsLoop(c: MergeConfig, splits: seq<string>) returns (r: Result<seq<string>>)
    ensures r == MergeSplits(c, splits)
  {
    var separatorLen := c.tok(c.sep);
    var docs: seq<string> := [];
    var currentDoc: seq<string> := [];
    var total: nat := 0;
    ghost var lo: nat := 0;
    ghost var wins: seq<Window> := [];
    for i := 0 to |splits|
      invariant lo <= i && InRange(wins, i)
      invariant currentDoc == splits[lo..i]
      invariant total == Cost(c.tok, separatorLen, currentDoc)
      invariant MergeFrom(c, splits, i, lo, wins) == MergeWindows(c, splits)
      invariant docs == WindowDocs(splits, c.sep, wins)
    {
      var ok;
      ok, docs, currentDoc, total, lo, wins := MergeStep(c, splits, separatorLen, i, docs, currentDoc, total, lo, wins);
      if !ok {
        return Failure(IndexOutOfRange);
      }
    }
    var doc := JoinDocs(currentDoc, c.sep);
    MergeSplitsEnd(c, splits, lo, wins);
    ghost var front := docs;
    if doc.Some? {
      docs := docs + [doc.value];
    }
    assert docs == front + Present(doc);
    return Success(docs);
  }

  /** After the last fragment, the current fragments make the final chunk. */
  lemma MergeSplitsEnd(c: MergeConfig, splits: seq<string>, lo: nat, wins: seq<Window>)
    requires lo <= |splits| && InRange(wins, |splits|)
    requires MergeFrom(c, splits, |splits|, lo, wins) == MergeWindows(c, splits)
    ensures MergeSplits(c, splits)
         == Success(WindowDocs(splits, c.sep, wins) + Present(JoinDocs(splits[lo..|splits|], c.sep)))
  {
    WindowDocsSnoc(splits, c.sep, wins, Window(lo, |splits|));
  }

  /** One pass of the loop of `_merge_splits`, taking fragment `i`: flush the
      current fragments as a chunk and pop from their front when fragment `i`
      does not fit, then append it. `ok` is false where Python raises. */
  method MergeStep(c: MergeConfig, splits: seq<string>, separatorLen: nat, i: nat,
                   docs: seq<string>, currentDoc: seq<string>, total: nat, ghost lo: nat, ghost wins: seq<Window>)
    returns (ok: bool, docs': seq<string>, currentDoc': seq<string>, total': nat, ghost lo': nat, ghost wins': seq<Window>)
    requires i < |splits| && separatorLen == c.tok(c.sep)
    requires lo <= i && InRange(wins, i)
    requires currentDoc == splits[lo..i] && total == Cost(c.tok, separatorLen, currentDoc)
    requires docs == WindowDocs(splits, c.sep, wins)
    ensures !ok ==> MergeFrom(c, splits, i, lo, wins) == Failure(IndexOutOfRange)
    ensures ok ==> lo' <= i + 1 && InRange(wins', i + 1)
    ensures ok ==> currentDoc' == splits[lo'..i + 1] && total' == Cost(c.tok, separatorLen, currentDoc')
    ensures ok ==> MergeFrom(c, splits, i + 1, lo', wins') == MergeFrom(c, splits, i, lo, wins)
    ensures ok ==> docs' == WindowDocs(splits, c.sep, wins')
  {
    var d := splits[i];
    var len := c.tok(d);
    docs', currentDoc', total', lo', wins' := docs, currentDoc, total, lo, wins;
    if total + len + (if |currentDoc| > 0 then separatorLen else 0) > c.chunkSize && |currentDoc| > 0 {
      ok, docs', currentDoc', total', lo', wins' := CloseStep(c, splits, separatorLen, i, docs, currentDoc, total, lo, wins);
      if !ok {
        return;
      }
    } else {
      MergeFromKeep(c, splits, i, lo, wins);
    }
    CostAppend(c.tok, separatorLen, currentDoc', d);
    currentDoc' := currentDoc' + [d];
    total' := total' + len + (if |currentDoc'| > 1 then separatorLen else 0);
    SliceSnoc(splits, lo', i);
    ok := true;
  }

  /** The flush-and-pop half of a pass, when fragment `i` does not fit. */
  method CloseStep(c: MergeConfig, splits: seq<string>, separatorLen: nat, i: nat,
                   docs: seq<string>, currentDoc: seq<string>, total: nat, ghost lo: nat, ghost wins: seq<Window>)
    returns (ok: bool, docs': seq<string>, currentDoc': seq<string>, total': nat, ghost lo': nat, ghost wins': seq<Window>)
    requires lo < i < |splits| && separatorLen == c.tok(c.sep) && InRange(wins, i)
    requires Overflows(c, splits, lo, i)
    requires currentDoc == splits[lo..i] && total == Cost(c.tok, separatorLen, currentDoc)
    requires docs == WindowDocs(splits, c.sep, wins)
    ensures !ok ==> MergeFrom(c, splits, i, lo, wins) == Failure(IndexOutOfRange)
    ensures ok ==> lo' <= i && InRange(wins', i + 1)
    ensures ok ==> currentDoc' == splits[lo'..i] && total' == Cost(c.tok, separatorLen, currentDoc')
    ensures ok ==> MergeFrom(c, splits, i + 1, lo', wins') == MergeFrom(c, splits, i, lo, wins)
    ensures ok ==> docs' == WindowDocs(splits, c.sep, wins')
  {
    docs', wins' := docs, wins;
    ok, currentDoc', total', lo' := PopLoop(c, splits, separatorLen, i, c.tok(splits[i]), lo, currentDoc, total);
    if !ok {
      MergeFromCloseFails(c, splits, i, lo, wins);
      return;
    }
    MergeFromClosePops(c, splits, i, lo, wins, lo');
    var doc := JoinDocs(currentDoc, c.sep);
    if doc.Some? {
      docs' := docs' + [doc.value];
    }
    wins' := wins + [Window(lo, i)];
    WindowDocsSnoc(splits, c.sep, wins, Window(lo, i));
  }

  lemma MergeFromCloseFails(c: MergeConfig, splits: seq<string>, i: nat, lo: nat, wins: seq<Window>)
    requires lo < i < |splits| && InRange(wins, i)
    requires Overflows(c, splits, lo, i) && PopFrom(c, splits, lo, i).Failure?
    ensures MergeFrom(c, splits, i, lo, wins) == Failure(IndexOutOfRange)
  {
  }

  lemma MergeFromClosePops(c: MergeConfig, splits: seq<string>, i: nat, lo: nat, wins: seq<Window>, next: nat)
    requires lo < i < |splits| && InRange(wins, i)
    requires Overflows(c, splits, lo, i) && PopFrom(c, splits, lo, i) == Success(next)
    ensures next <= i && InRange(wins + [Window(lo, i)], i + 1)
    ensures MergeFrom(c, splits, i, lo, wins) == MergeFrom(c, splits, i + 1, next, wins + [Window(lo, i)])
  {
  }

  lemma SomesSnoc(xs: seq<Option<string>>, x: Option<string>)
    ensures Somes(xs + [x]) == Somes(xs) + Present(x)
  {
    assert (xs + [x])[..|xs|] == xs;
  }

  lemma WindowDocsSnoc(splits: seq<string>, sep: string, wins: seq<Window>, w: Window)
    requires InRange(wins, |splits|) && w.lo <= w.hi <= |splits|
    ensures InRange(wins + [w], |splits|)
    ensures WindowDocs(splits, sep, wins + [w])
         == WindowDocs(splits, sep, wins) + Present(JoinDocs(splits[w.lo..w.hi], sep))
  {
    var x := JoinDocs(splits[w.lo..w.hi], sep);
    assert (wins + [w])[..|wins|] == wins;
    assert WindowJoins(splits, sep, wins + [w]) == WindowJoins(splits, sep, wins) + [x];
    SomesSnoc(WindowJoins(splits, sep, wins), x);
  }

  lemma SliceSnoc(xs: seq<string>, lo: nat, i: nat)
    requires lo <= i < |xs|
    ensures xs[lo..i + 1] == xs[lo..i] + [xs[i]]
  {
  }

  lemma MergeFromKeep(c: MergeConfig, splits: seq<string>, i: nat, lo: nat, wins: seq<Window>)
    requires lo <= i < |splits| && InRange(wins, i)
    requires !(Overflows(c, splits, lo, i) && lo < i)
    ensures MergeFrom(c, splits, i, lo, wins) == MergeFrom(c, splits, i + 1, lo, wins)
  {
  }

  /** The inner loop of `_merge_splits`: pop leading fragments of
      `splits[lo..i]` as `PopFrom` says; `ok` is false where Python's
      `pop(0)` would raise on an empty list. */
  method PopLoop(c: MergeConfig, splits: seq<string>, separatorLen: nat, i: nat, len: nat, ghost lo: nat,
                 currentDoc: seq<string>, total: nat)
    returns (ok: bool, currentDoc': seq<string>, total': nat, ghost lo': nat)
    requires lo < i < |splits| && separatorLen == c.tok(c.sep) && len == c.tok(splits[i])
    requires currentDoc == splits[lo..i] && total == Cost(c.tok, separatorLen, currentDoc)
    ensures ok <==> PopFrom(c, splits, lo, i).Success?
    ensures ok ==> lo' == PopFrom(c, splits, lo, i).value && lo' <= i
    ensures ok ==> currentDoc' == splits[lo'..i] && total' == Cost(c.tok, separatorLen, currentDoc')
  {
    currentDoc', total', lo' := currentDoc, total, lo;
    while total' > c.overlap || (total' + len + (if |currentDoc'| > 0 then separatorLen else 0) > c.chunkSize && total' > 0)
      invariant lo <= lo' <= i
      invariant currentDoc' == splits[lo'..i]
      invariant total' == Cost(c.tok, separatorLen, currentDoc')
      invariant PopFrom(c, splits, lo', i) == PopFrom(c, splits, lo, i)
      decreases i - lo'
    {
      if |currentDoc'| == 0 {
        return false, currentDoc', total', lo';
      }
      assert PopFrom(c, splits, lo', i) == PopFrom(c, splits, lo' + 1, i);
      total' := total' - (c.tok(currentDoc'[0]) + (if |currentDoc'| > 1 then separatorLen else 0));
      currentDoc' := currentDoc'[1..];
      lo' := lo' + 1;
    }
    return true, currentDoc', total', lo';
  }

  lemma {:induction false} CostAppend(tok: string -> nat, sepLen: nat, xs: seq<string>, d: string)
    ensures Cost(tok, sepLen, xs + [d]) == Cost(tok, sepLen, xs) + tok(d) + (if xs == [] then 0 else sepLen)
  {
    if |xs| > 1 {
      assert (xs + [d])[1..] == xs[1..] + [d];
      CostAppend(tok, sepLen, xs[1..], d);
    } else if |xs| == 1 {
      assert (xs + [d])[1..] == [d];
    }
  }

  lemma {:induction false} CostPositive(tok: string -> nat, sepLen: nat, xs: seq<string>)
    requires xs != [] && forall k :: 0 <= k < |xs| ==> tok(xs[k]) > 0
    ensures Cost(tok, sepLen, xs) > 0
  {
  }

  // ---------------------------------------------------------------------------
  // Properties of _merge_splits

  /** Windows listed in input order: each starts no earlier and ends strictly
      later than the one before, and starts no later than the one before ends. */
  predicate Ordered(wins: seq<Window>) {
    forall j :: 0 <= j < |wins| - 1 ==>
      wins[j].lo <= wins[j + 1].lo && wins[j].hi < wins[j + 1].hi && wins[j + 1].lo <= wins[j].hi
  }

  predicate ShapeInv(n: nat, i: nat, lo: nat, wins: seq<Window>) {
    lo <= i <= n
    && (wins == [] ==> lo == 0)
    && (wins != [] ==> wins[0].lo == 0 && wins[|wins| - 1].lo <= lo <= wins[|wins| - 1].hi < i)
    && (forall j :: 0 <= j < |wins| ==> wins[j].lo < wins[j].hi)
    && Ordered(wins)
  }

  /** Closing the window `[lo, i)` and carrying `splits[next..i]` keeps the shape. */
  lemma ShapeClose(n: nat, i: nat, lo: nat, next: nat, wins: seq<Window>)
    requires ShapeInv(n, i, lo, wins) && lo < i < n && lo <= next <= i
    ensures ShapeInv(n, i + 1, next, wins + [Window(lo, i)])
  {
    var w2 := wins + [Window(lo, i)];
    forall j | 0 <= j < |w2| - 1
      ensures w2[j].lo <= w2[j + 1].lo && w2[j].hi < w2[j + 1].hi && w2[j + 1].lo <= w2[j].hi
    {
      if j < |wins| - 1 {
        assert w2[j] == wins[j] && w2[j + 1] == wins[j + 1];
      } else {
        assert w2[j] == wins[|wins| - 1] && w2[j + 1] == Window(lo, i);
      }
    }
    forall j | 0 <= j < |w2| ensures w2[j].lo < w2[j].hi {
      if j < |wins| {
        assert w2[j] == wins[j];
      }
    }
  }

  /** The final window `[lo, n)` completes the shape. */
  lemma ShapeFinal(n: nat, lo: nat, wins: seq<Window>)
    requires ShapeInv(n, n, lo, wins)
    ensures Shaped(wins + [Window(lo, n)], n)
  {
    var r := wins + [Window(lo, n)];
    if wins != [] {
      assert r[0] == wins[0];
    }
    forall j | 0 <= j < |r| - 1
      ensures r[j].lo <= r[j + 1].lo && r[j].hi < r[j + 1].hi && r[j + 1].lo <= r[j].hi
    {
      if j < |wins| - 1 {
        assert r[j] == wins[j] && r[j + 1] == wins[j + 1];
      } else {
        assert r[j] == wins[|wins| - 1];
      }
    }
    if n > 0 {
      forall j | 0 <= j < |r| ensures r[j].lo < r[j].hi {
        if j < |wins| {
          assert r[j] == wins[j];
        }
      }
    }
  }

  /** Windows that run in order from fragment 0 to fragment `n`, each
      non-empty unless there are no fragments. */
  predicate Shaped(wins: seq<Window>, n: nat) {
    wins != [] && wins[0].lo == 0 && wins[|wins| - 1].hi == n
    && Ordered(wins)
    && (n > 0 ==> forall j :: 0 <= j < |wins| ==> wins[j].lo < wins[j].hi)
  }

  lemma {:induction false} MergeFromShape(c: MergeConfig, splits: seq<string>, i: nat, lo: nat, wins: seq<Window>)
    requires InRange(wins, i) && ShapeInv(|splits|, i, lo, wins)
    ensures MergeFrom(c, splits, i, lo, wins).Success? ==> Shaped(MergeFrom(c, splits, i, lo, wins).value, |splits|)
    decreases |splits| - i
  {
    if i == |splits| {
      ShapeFinal(|splits|, lo, wins);
    } else if Overflows(c, splits, lo, i) && lo < i {
      var p := PopFrom(c, splits, lo, i);
      if p.Success? {
        MergeFromClosePops(c, splits, i, lo, wins, p.value);
        ShapeClose(|splits|, i, lo, p.value, wins);
        MergeFromShape(c, splits, i + 1, p.value, wins + [Window(lo, i)]);
      }
    } else {
      MergeFromKeep(c, splits, i, lo, wins);
      MergeFromShape(c, splits, i + 1, lo, wins);
    }
  }

  /** The windows of `_merge_splits` run in input order from the first
      fragment to the last, each non-empty, consecutive ones overlapping or
      adjacent: every fragment enters some chunk, in order. */
  lemma MergeWindowsShape(c: MergeConfig, splits: seq<string>)
    ensures MergeWindows(c, splits).Success? ==> Shaped(MergeWindows(c, splits).value, |splits|)
  {
    MergeFromShape(c, splits, 0, 0, []);
  }

  /** Contiguous windows from 0 to `n` cover every index below `n`. */
  lemma {:induction false} OrderedCovers(wins: seq<Window>, n: nat, k: nat)
    requires wins != [] && wins[0].lo == 0 && wins[|wins| - 1].hi == n && Ordered(wins)
    requires k < n
    ensures exists j :: 0 <= j < |wins| && wins[j].lo <= k < wins[j].hi
    decreases |wins|
  {
    if |wins| > 1 {
      var front := wins[..|wins| - 1];
      var last := wins[|wins| - 1];
      if k < front[|front| - 1].hi {
        OrderedCovers(front, front[|front| - 1].hi, k);
        var j :| 0 <= j < |front| && front[j].lo <= k < front[j].hi;
        assert wins[j] == front[j];
      } else {
        assert last.lo <= front[|front| - 1].hi;
      }
    }
  }

  /** Every fragment lies in some window of `_merge_splits`. */
  lemma MergeWindowsCover(c: MergeConfig, splits: seq<string>, k: nat)
    requires k < |splits| && MergeWindows(c, splits).Success?
    ensures var wins := MergeWindows(c, splits).value;
      exists j :: 0 <= j < |wins| && wins[j].lo <= k < wins[j].hi
  {
    MergeWindowsShape(c, splits);
    OrderedCovers(MergeWindows(c, splits).value, |splits|, k);
  }

  predicate MaximalInv(c: MergeConfig, splits: seq<string>, wins: seq<Window>)
    requires InRange(wins, |splits|)
  {
    forall j :: 0 <= j < |wins| ==> wins[j].hi < |splits| && Overflows(c, splits, wins[j].lo, wins[j].hi)
  }

  /** Every window but the last overflows once the fragment after it is added. */
  predicate ClosedFull(c: MergeConfig, splits: seq<string>, wins: seq<Window>)
    requires InRange(wins, |splits|)
  {
    forall j :: 0 <= j < |wins| - 1 ==> wins[j].hi < |splits| && Overflows(c, splits, wins[j].lo, wins[j].hi)
  }

  lemma MaximalClose(c: MergeConfig, splits: seq<string>, i: nat, lo: nat, wins: seq<Window>)
    requires lo <= i < |splits| && InRange(wins, i) && MaximalInv(c, splits, wins)
    requires Overflows(c, splits, lo, i)
    ensures InRange(wins + [Window(lo, i)], |splits|) && MaximalInv(c, splits, wins + [Window(lo, i)])
  {
    var w2 := wins + [Window(lo, i)];
    forall j | 0 <= j < |w2|
      ensures w2[j].lo <= w2[j].hi < |splits| && Overflows(c, splits, w2[j].lo, w2[j].hi)
    {
      if j < |wins| {
        assert w2[j] == wins[j];
      }
    }
  }

  lemma MaximalFinal(c: MergeConfig, splits: seq<string>, lo: nat, wins: seq<Window>)
    requires lo <= |splits| && InRange(wins, |splits|) && MaximalInv(c, splits, wins)
    ensures InRange(wins + [Window(lo, |splits|)], |splits|)
    ensures ClosedFull(c, splits, wins + [Window(lo, |splits|)])
  {
    var w2 := wins + [Window(lo, |splits|)];
    forall j | 0 <= j < |w2| - 1
      ensures w2[j].hi < |splits| && Overflows(c, splits, w2[j].lo, w2[j].hi)
    {
      assert w2[j] == wins[j];
    }
  }

  lemma {:induction false} MergeFromMaximal(c: MergeConfig, splits: seq<string>, i: nat, lo: nat, wins: seq<Window>)
    requires lo <= i <= |splits| && InRange(wins, i) && MaximalInv(c, splits, wins)
    ensures var r := MergeFrom(c, splits, i, lo, wins);
      r.Success? ==> ClosedFull(c, splits, r.value)
    decreases |splits| - i
  {
    if i == |splits| {
      MaximalFinal(c, splits, lo, wins);
    } else if Overflows(c, splits, lo, i) && lo < i {
      var p := PopFrom(c, splits, lo, i);
      if p.Success? {
        MergeFromClosePops(c, splits, i, lo, wins, p.value);
        MaximalClose(c, splits, i, lo, wins);
        MergeFromMaximal(c, splits, i + 1, p.value, wins + [Window(lo, i)]);
      }
    } else {
      MergeFromKeep(c, splits, i, lo, wins);
      MergeFromMaximal(c, splits, i + 1, lo, wins);
    }
  }

  /** A chunk is closed only when the next fragment would not fit in it:
      every window but the last overflows the chunk size once the fragment
      after it is added. */
  lemma MergeWindowsMaximal(c: MergeConfig, splits: seq<string>)
    ensures var r := MergeWindows(c, splits);
      r.Success? ==> forall j :: 0 <= j < |r.value| - 1 ==>
        r.value[j].hi < |splits| && Overflows(c, splits, r.value[j].lo, r.value[j].hi)
  {
    MergeFromMaximal(c, splits, 0, 0, []);
  }

  predicate OverlapInv(c: MergeConfig, splits: seq<string>, i: nat, lo: nat, wins: seq<Window>) {
    ShapeInv(|splits|, i, lo, wins) && InRange(wins, i)
    && (forall j :: 0 <= j < |wins| - 1 ==> WindowCost(c, splits, wins[j + 1].lo, wins[j].hi) <= c.overlap)
    && (wins != [] ==> WindowCost(c, splits, lo, wins[|wins| - 1].hi) <= c.overlap)
  }

  /** Consecutive windows share fragments costing at most `chunk_overlap`. */
  predicate SharesWithin(c: MergeConfig, splits: seq<string>, wins: seq<Window>)
    requires InRange(wins, |splits|)
  {
    Ordered(wins) && forall j :: 0 <= j < |wins| - 1 ==>
      WindowCost(c, splits, wins[j + 1].lo, wins[j].hi) <= c.overlap
  }

  lemma OverlapClose(c: MergeConfig, splits: seq<string>, i: nat, lo: nat, next: nat, wins: seq<Window>)
    requires OverlapInv(c, splits, i, lo, wins) && lo < i < |splits| && lo <= next <= i
    requires WindowCost(c, splits, next, i) <= c.overlap
    ensures OverlapInv(c, splits, i + 1, next, wins + [Window(lo, i)])
  {
    var w2 := wins + [Window(lo, i)];
    ShapeClose(|splits|, i, lo, next, wins);
    forall j | 0 <= j < |w2| - 1
      ensures WindowCost(c, splits, w2[j + 1].lo, w2[j].hi) <= c.overlap
    {
      if j < |wins| - 1 {
        assert w2[j] == wins[j] && w2[j + 1] == wins[j + 1];
      } else {
        assert w2[j] == wins[|wins| - 1] && w2[j + 1] == Window(lo, i);
      }
    }
    assert w2[|w2| - 1] == Window(lo, i);
  }

  lemma OverlapFinal(c: MergeConfig, splits: seq<string>, lo: nat, wins: seq<Window>)
    requires OverlapInv(c, splits, |splits|, lo, wins)
    ensures InRange(wins + [Window(lo, |splits|)], |splits|)
    ensures SharesWithin(c, splits, wins + [Window(lo, |splits|)])
  {
    ShapeFinal(|splits|, lo, wins);
    var r := wins + [Window(lo, |splits|)];
    forall j | 0 <= j < |r| - 1
      ensures WindowCost(c, splits, r[j + 1].lo, r[j].hi) <= c.overlap
    {
      if j < |wins| - 1 {
        assert r[j] == wins[j] && r[j + 1] == wins[j + 1];
      } else {
        assert r[j] == wins[|wins| - 1] && r[j + 1] == Window(lo, |splits|);
      }
    }
  }

  lemma {:induction false} MergeFromOverlap(c: MergeConfig, splits: seq<string>, i: nat, lo: nat, wins: seq<Window>)
    requires OverlapInv(c, splits, i, lo, wins)
    ensures MergeFrom(c, splits, i, lo, wins).Success? ==>
      SharesWithin(c, splits, MergeFrom(c, splits, i, lo, wins).value)
    decreases |splits| - i
  {
    if i == |splits| {
      OverlapFinal(c, splits, lo, wins);
    } else if Overflows(c, splits, lo, i) && lo < i {
      var p := PopFrom(c, splits, lo, i);
      if p.Success? {
        MergeFromClosePops(c, splits, i, lo, wins, p.value);
        OverlapClose(c, splits, i, lo, p.value, wins);
        MergeFromOverlap(c, splits, i + 1, p.value, wins + [Window(lo, i)]);
      }
    } else {
      MergeFromKeep(c, splits, i, lo, wins);
      MergeFromOverlap(c, splits, i + 1, lo, wins);
    }
  }

  /** What one chunk carries into the next: the fragments two consecutive
      windows share cost at most `chunk_overlap` tokens. */
  lemma MergeWindowsOverlap(c: MergeConfig, splits: seq<string>)
    ensures MergeWindows(c, splits).Success? ==> SharesWithin(c, splits, MergeWindows(c, splits).value)
  {
    MergeFromOverlap(c, splits, 0, 0, []);
  }

  /** Every fragment costs between 1 and `chunk_size` tokens. */
  predicate FragmentsFit(c: MergeConfig, splits: seq<string>) {
    forall k :: 0 <= k < |splits| ==> 0 < c.tok(splits[k]) <= c.chunkSize
  }

  /** Every window costs at most the chunk size. */
  predicate WithinBudget(c: MergeConfig, splits: seq<string>, wins: seq<Window>)
    requires InRange(wins, |splits|)
  {
    forall j :: 0 <= j < |wins| ==> WindowCost(c, splits, wins[j].lo, wins[j].hi) <= c.chunkSize
  }

  lemma BudgetAppend(c: MergeConfig, splits: seq<string>, wins: seq<Window>, w: Window)
    requires InRange(wins, |splits|) && WithinBudget(c, splits, wins)
    requires w.lo <= w.hi <= |splits| && WindowCost(c, splits, w.lo, w.hi) <= c.chunkSize
    ensures InRange(wins + [w], |splits|) && WithinBudget(c, splits, wins + [w])
  {
    var w2 := wins + [w];
    forall j | 0 <= j < |w2|
      ensures w2[j].lo <= w2[j].hi <= |splits| && WindowCost(c, splits, w2[j].lo, w2[j].hi) <= c.chunkSize
    {
      if j < |wins| {
        assert w2[j] == wins[j];
      }
    }
  }

  /** Adding fragment `i` to the current fragments keeps them within the
      chunk size unless the loop overflows. */
  lemma BudgetGrow(c: MergeConfig, splits: seq<string>, lo: nat, i: nat)
    requires lo <= i < |splits| && FragmentsFit(c, splits)
    requires !(Overflows(c, splits, lo, i) && lo < i)
    ensures WindowCost(c, splits, lo, i + 1) <= c.chunkSize
  {
    SliceSnoc(splits, lo, i);
    CostAppend(c.tok, c.tok(c.sep), splits[lo..i], splits[i]);
  }

  /** After the pop, fragment `i` fits with what is left. */
  lemma BudgetAfterPop(c: MergeConfig, splits: seq<string>, next: nat, i: nat)
    requires next <= i < |splits| && FragmentsFit(c, splits)
    requires !Overflows(c, splits, next, i) || WindowCost(c, splits, next, i) == 0
    ensures WindowCost(c, splits, next, i + 1) <= c.chunkSize
  {
    SliceSnoc(splits, next, i);
    CostAppend(c.tok, c.tok(c.sep), splits[next..i], splits[i]);
    if next < i {
      CostPositive(c.tok, c.tok(c.sep), splits[next..i]);
    }
  }

  lemma {:induction false} MergeFromBudget(c: MergeConfig, splits: seq<string>, i: nat, lo: nat, wins: seq<Window>)
    requires lo <= i <= |splits| && InRange(wins, i) && FragmentsFit(c, splits)
    requires WindowCost(c, splits, lo, i) <= c.chunkSize
    requires WithinBudget(c, splits, wins)
    ensures var r := MergeFrom(c, splits, i, lo, wins);
      r.Success? ==> WithinBudget(c, splits, r.value)
    decreases |splits| - i
  {
    if i == |splits| {
      BudgetAppend(c, splits, wins, Window(lo, i));
    } else if Overflows(c, splits, lo, i) && lo < i {
      var p := PopFrom(c, splits, lo, i);
      if p.Success? {
        MergeFromClosePops(c, splits, i, lo, wins, p.value);
        BudgetAppend(c, splits, wins, Window(lo, i));
        BudgetAfterPop(c, splits, p.value, i);
        MergeFromBudget(c, splits, i + 1, p.value, wins + [Window(lo, i)]);
      }
    } else {
      MergeFromKeep(c, splits, i, lo, wins);
      BudgetGrow(c, splits, lo, i);
      MergeFromBudget(c, splits, i + 1, lo, wins);
    }
  }

  /** When every fragment is non-empty in tokens and fits the chunk size on
      its own, no window costs more than the chunk size. */
  lemma MergeWindowsBudget(c: MergeConfig, splits: seq<string>)
    requires FragmentsFit(c, splits) && c.chunkSize >= 0
    ensures var r := MergeWindows(c, splits);
      r.Success? ==> forall j :: 0 <= j < |r.value| ==> WindowCost(c, splits, r.value[j].lo, r.value[j].hi) <= c.chunkSize
  {
    MergeFromBudget(c, splits, 0, 0, []);
  }

  lemma {:induction false} PopFromSucceeds(c: MergeConfig, splits: seq<string>, lo: nat, i: nat)
    requires lo <= i < |splits|
    ensures PopFrom(c, splits, lo, i).Success? <==> c.overlap >= 0
    decreases i - lo
  {
    if lo < i {
      PopFromSucceeds(c, splits, lo + 1, i);
    }
  }

  lemma {:induction false} MergeFromFailure(c: MergeConfig, splits: seq<string>, i: nat, lo: nat, wins: seq<Window>)
    requires lo <= i <= |splits| && InRange(wins, i)
    ensures c.overlap >= 0 ==> MergeFrom(c, splits, i, lo, wins).Success?
    ensures c.overlap < 0 && MergeFrom(c, splits, i, lo, wins).Success? ==>
      |MergeFrom(c, splits, i, lo, wins).value| == |wins| + 1
    decreases |splits| - i
  {
    if i == |splits| {
    } else if Overflows(c, splits, lo, i) && lo < i {
      PopFromSucceeds(c, splits, lo, i);
      var p := PopFrom(c, splits, lo, i);
      if p.Success? {
        MergeFromClosePops(c, splits, i, lo, wins, p.value);
        MergeFromFailure(c, splits, i + 1, p.value, wins + [Window(lo, i)]);
      }
    } else {
      MergeFromKeep(c, splits, i, lo, wins);
      MergeFromFailure(c, splits, i + 1, lo, wins);
    }
  }

  /** `_merge_splits` raises `IndexError` only for a negative overlap, and
      then only when some chunk had to be closed before the last fragment. */
  lemma MergeSplitsFailure(c: MergeConfig, splits: seq<string>)
    ensures c.overlap >= 0 ==> MergeWindows(c, splits).Success?
    ensures c.overlap < 0 && MergeWindows(c, splits).Success? ==> |MergeWindows(c, splits).value| == 1
  {
    MergeFromFailure(c, splits, 0, 0, []);
  }

  /** Where a value of `Somes(xs)` comes from. */
  lemma {:induction false} SomesMember(xs: seq<Option<string>>, t: string) returns (j: nat)
    requires t in Somes(xs)
    ensures j < |xs| && xs[j] == Some(t)
  {
    var n := |xs| - 1;
    SomesSnoc(xs[..n], xs[n]);
    assert xs == xs[..n] + [xs[n]];
    if t in Somes(xs[..n]) {
      j := SomesMember(xs[..n], t);
      assert xs[j] == xs[..n][j];
    } else {
      j := n;
    }
  }

  /** The window a chunk of `WindowDocs` was joined from. */
  lemma WindowDocsFromWindows(splits: seq<string>, sep: string, wins: seq<Window>, t: string) returns (j: nat)
    requires InRange(wins, |splits|)
    requires t in WindowDocs(splits, sep, wins)
    ensures j < |wins| && JoinDocs(splits[wins[j].lo..wins[j].hi], sep) == Some(t)
  {
    j := SomesMember(WindowJoins(splits, sep, wins), t);
    WindowJoinsAt(splits, sep, wins, j);
  }

  /** `_merge_splits` never emits a blank chunk, and every chunk it emits is
      the stripped join of the fragments of one of its windows. */
  lemma MergeSplitsChunks(c: MergeConfig, splits: seq<string>, t: string)
    requires MergeSplits(c, splits).Success? && t in MergeSplits(c, splits).value
    ensures t != [] && Strip(t) == t
    ensures var wins := MergeWindows(c, splits).value;
      exists j :: 0 <= j < |wins| && t == Strip(Join(c.sep, splits[wins[j].lo..wins[j].hi]))
  {
    var wins := MergeWindows(c, splits).value;
    assert MergeSplits(c, splits).value == WindowDocs(splits, c.sep, wins);
    var j := WindowDocsFromWindows(splits, c.sep, wins, t);
    JoinDocsSome(splits[wins[j].lo..wins[j].hi], c.sep, t);
  }

  lemma JoinDocsSome(docs: seq<string>, sep: string, t: string)
    requires JoinDocs(docs, sep) == Some(t)
    ensures t != [] && Strip(t) == t && t == Strip(Join(sep, docs))
  {
    JoinDocsFacts(docs, sep);
    StripIdempotent(Join(sep, docs));
  }

  // ===========================================================================
  // merge_chunks_serially

  function SumTok(tok: string -> nat, xs: seq<string>): nat {
    if xs == [] then 0 else tok(xs[0]) + SumTok(tok, xs[1..])
  }

  lemma {:induction false} SumTokAppend(tok: string -> nat, xs: seq<string>, d: string)
    ensures SumTok(tok, xs + [d]) == SumTok(tok, xs) + tok(d)
  {
    if xs != [] {
      assert (xs + [d])[1..] == xs[1..] + [d];
      SumTokAppend(tok, xs[1..], d);
    }
  }

  /** The loop of `merge_chunks_serially` from piece `i` on, with current
      group `pieces[lo..i]`: a group with a positive size is closed when the
      next piece would take it over `num_tokens`; the last group is yielded
      only when its size is positive. */
  function SeriallyFrom(tok: string -> nat, pieces: seq<string>, numTokens: int, i: nat, lo: nat, wins: seq<Window>): (r: seq<Window>)
    requires lo <= i <= |pieces| && InRange(wins, i)
    ensures InRange(r, |pieces|)
    decreases |pieces| - i
  {
    var total := SumTok(tok, pieces[lo..i]);
    if i == |pieces| then
      if total > 0 then wins + [Window(lo, i)] else wins
    else if total > 0 && total + tok(pieces[i]) > numTokens then
      SeriallyFrom(tok, pieces, numTokens, i + 1, i, wins + [Window(lo, i)])
    else
      SeriallyFrom(tok, pieces, numTokens, i + 1, lo, wins)
  }

  function SeriallyWindows(tok: string -> nat, pieces: seq<string>, numTokens: int): (r: seq<Window>)
    ensures InRange(r, |pieces|)
  {
    SeriallyFrom(tok, pieces, numTokens, 0, 0, [])
  }

  /** A yielded group: its text and its size. */
  datatype Group = Group(text: string, size: nat)

  function GroupsOf(tok: string -> nat, pieces: seq<string>, wins: seq<Window>): (r: seq<Group>)
    requires InRange(wins, |pieces|)
    ensures |r| == |wins|
    ensures forall j :: 0 <= j < |wins| ==>
      r[j] == Group(Concat(pieces[wins[j].lo..wins[j].hi]), SumTok(tok, pieces[wins[j].lo..wins[j].hi]))
  {
    if wins == [] then []
    else
      assert InRange(wins[1..], |pieces|);
      [Group(Concat(pieces[wins[0].lo..wins[0].hi]), SumTok(tok, pieces[wins[0].lo..wins[0].hi]))]
      + GroupsOf(tok, pieces, wins[1..])
  }

  /** The `(chunk, size)` pairs `merge_chunks_serially` yields. */
  function MergeChunksSerially(tok: string -> nat, pieces: seq<string>, numTokens: int): seq<Group> {
    GroupsOf(tok, pieces, SeriallyWindows(tok, pieces, numTokens))
  }

  /** The generator `merge_chunks_serially`, collected into a list. */
  method MergeChunksSeriallyLoop(tok: string -> nat, chunkedContentList: seq<string>, numTokens: int) returns (out: seq<Group>)
    ensures out == MergeChunksSerially(tok, chunkedContentList, numTokens)
  {
    var currentChunk := "";
    var totalSize: nat := 0;
    out := [];
    ghost var lo: nat := 0;
    ghost var wins: seq<Window> := [];
    for i := 0 to |chunkedContentList|
      invariant lo <= i && InRange(wins, i)
      invariant currentChunk == Concat(chunkedContentList[lo..i])
      invariant totalSize == SumTok(tok, chunkedContentList[lo..i])
      invariant SeriallyFrom(tok, chunkedContentList, numTokens, i, lo, wins) == SeriallyWindows(tok, chunkedContentList, numTokens)
      invariant out == GroupsOf(tok, chunkedContentList, wins)
    {
      out, currentChunk, totalSize, lo, wins := SerialStep(tok, chunkedContentList, numTokens, i, out, currentChunk, totalSize, lo, wins);
    }
    if totalSize > 0 {
      GroupsOfAppend(tok, chunkedContentList, wins, Window(lo, |chunkedContentList|));
      out := out + [Group(currentChunk, totalSize)];
    }
  }

  /** One pass of the loop of `merge_chunks_serially`, taking piece `i`:
      yield the current group when piece `i` would take it over the limit,
      then add piece `i` to the current group. */
  method SerialStep(tok: string -> nat, pieces: seq<string>, numTokens: int, i: nat,
                    out: seq<Group>, currentChunk: string, totalSize: nat, ghost lo: nat, ghost wins: seq<Window>)
    returns (out': seq<Group>, currentChunk': string, totalSize': nat, ghost lo': nat, ghost wins': seq<Window>)
    requires lo <= i < |pieces| && InRange(wins, i)
    requires currentChunk == Concat(pieces[lo..i]) && totalSize == SumTok(tok, pieces[lo..i])
    requires out == GroupsOf(tok, pieces, wins)
    ensures lo' <= i + 1 && InRange(wins', i + 1)
    ensures currentChunk' == Concat(pieces[lo'..i + 1]) && totalSize' == SumTok(tok, pieces[lo'..i + 1])
    ensures SeriallyFrom(tok, pieces, numTokens, i + 1, lo', wins') == SeriallyFrom(tok, pieces, numTokens, i, lo, wins)
    ensures out' == GroupsOf(tok, pieces, wins')
  {
    var chunkedContent := pieces[i];
    var chunkSize := tok(chunkedContent);
    out', currentChunk', totalSize', lo', wins' := out, currentChunk, totalSize, lo, wins;
    if totalSize > 0 && totalSize + chunkSize > numTokens {
      SeriallyFromClose(tok, pieces, numTokens, i, lo, wins);
      out' := out + [Group(currentChunk, totalSize)];
      GroupsOfAppend(tok, pieces, wins, Window(lo, i));
      wins' := wins + [Window(lo, i)];
      currentChunk' := "";
      totalSize' := 0;
      lo' := i;
      assert pieces[lo'..i] == [];
    } else {
      SeriallyFromKeep(tok, pieces, numTokens, i, lo, wins);
    }
    SliceSnoc(pieces, lo', i);
    SumTokAppend(tok, pieces[lo'..i], chunkedContent);
    ConcatAppend(pieces[lo'..i], [chunkedContent]);
    totalSize' := totalSize' + chunkSize;
    currentChunk' := currentChunk' + chunkedContent;
  }

  lemma SeriallyFromClose(tok: string -> nat, pieces: seq<string>, numTokens: int, i: nat, lo: nat, wins: seq<Window>)
    requires lo <= i < |pieces| && InRange(wins, i)
    requires SumTok(tok, pieces[lo..i]) > 0 && SumTok(tok, pieces[lo..i]) + tok(pieces[i]) > numTokens
    ensures SeriallyFrom(tok, pieces, numTokens, i, lo, wins)
         == SeriallyFrom(tok, pieces, numTokens, i + 1, i, wins + [Window(lo, i)])
  {
  }

  lemma SeriallyFromKeep(tok: string -> nat, pieces: seq<string>, numTokens: int, i: nat, lo: nat, wins: seq<Window>)
    requires lo <= i < |pieces| && InRange(wins, i)
    requires !(SumTok(tok, pieces[lo..i]) > 0 && SumTok(tok, pieces[lo..i]) + tok(pieces[i]) > numTokens)
    ensures SeriallyFrom(tok, pieces, numTokens, i, lo, wins)
         == SeriallyFrom(tok, pieces, numTokens, i + 1, lo, wins)
  {
  }

  lemma GroupsOfAppend(tok: string -> nat, pieces: seq<string>, wins: seq<Window>, w: Window)
    requires InRange(wins, |pieces|) && w.lo <= w.hi <= |pieces|
    ensures InRange(wins + [w], |pieces|)
    ensures GroupsOf(tok, pieces, wins + [w])
         == GroupsOf(tok, pieces, wins) + [Group(Concat(pieces[w.lo..w.hi]), SumTok(tok, pieces[w.lo..w.hi]))]
  {
  }

  // ---------------------------------------------------------------------------
  // Properties of merge_chunks_serially

  /** Groups tile the pieces: each starts where the previous ended. */
  predicate Tiled(wins: seq<Window>) {
    (forall j :: 0 <= j < |wins| ==> wins[j].lo < wins[j].hi)
    && (forall j :: 0 <= j < |wins| - 1 ==> wins[j].hi == wins[j + 1].lo)
  }

  /** Every group has a positive size and keeps to `GroupLimit`. */
  predicate GoodGroups(tok: string -> nat, pieces: seq<string>, numTokens: int, wins: seq<Window>)
    requires InRange(wins, |pieces|)
  {
    forall j :: 0 <= j < |wins| ==>
      SumTok(tok, pieces[wins[j].lo..wins[j].hi]) > 0 && GroupLimit(tok, pieces, numTokens, wins[j])
  }

  predicate SeriallyInv(tok: string -> nat, pieces: seq<string>, numTokens: int, i: nat, lo: nat, wins: seq<Window>)
    requires lo <= i <= |pieces| && InRange(wins, i)
  {
    Tiled(wins)
    && (wins == [] ==> lo == 0)
    && (wins != [] ==> wins[0].lo == 0 && wins[|wins| - 1].hi == lo)
    && GoodGroups(tok, pieces, numTokens, wins)
    && (lo < i ==> GroupLimit(tok, pieces, numTokens, Window(lo, i)))
  }

  /** A group over the limit holds exactly one piece with a positive size, its last. */
  predicate GroupLimit(tok: string -> nat, pieces: seq<string>, numTokens: int, w: Window)
    requires w.lo <= w.hi <= |pieces|
  {
    SumTok(tok, pieces[w.lo..w.hi]) > numTokens ==>
      w.lo < w.hi && SumTok(tok, pieces[w.lo..w.hi - 1]) == 0
  }

  lemma {:induction false} SumTokZeroPrefix(tok: string -> nat, xs: seq<string>, k: nat)
    requires k <= |xs| && SumTok(tok, xs) == 0
    ensures SumTok(tok, xs[..k]) == 0
  {
    if k > 0 {
      SumTokZeroPrefix(tok, xs[1..], k - 1);
      assert xs[..k][1..] == xs[1..][..k - 1];
    }
  }

  /** What `merge_chunks_serially` yields: consecutive groups of pieces from
      the first piece on, none of size 0; a group is over `num_tokens` only
      when a single piece in it has a positive size, its last; whatever
      follows the last group has size 0. */
  predicate SerialShaped(tok: string -> nat, pieces: seq<string>, numTokens: int, r: seq<Window>)
    requires InRange(r, |pieces|)
  {
    Tiled(r)
    && (r != [] ==> r[0].lo == 0)
    && GoodGroups(tok, pieces, numTokens, r)
    && SumTok(tok, pieces[EndOf(r, 0)..]) == 0
  }

  /** Closing a group of positive size within the limit right after the
      last one keeps the groups tiled and good. */
  lemma GroupAppend(tok: string -> nat, pieces: seq<string>, numTokens: int, wins: seq<Window>, w: Window)
    requires InRange(wins, |pieces|) && Tiled(wins) && GoodGroups(tok, pieces, numTokens, wins)
    requires w.lo < w.hi <= |pieces| && (wins != [] ==> wins[|wins| - 1].hi == w.lo)
    requires SumTok(tok, pieces[w.lo..w.hi]) > 0 && GroupLimit(tok, pieces, numTokens, w)
    ensures InRange(wins + [w], |pieces|) && Tiled(wins + [w]) && GoodGroups(tok, pieces, numTokens, wins + [w])
    ensures (wins + [w])[0] == if wins == [] then w else wins[0]
  {
    var w2 := wins + [w];
    forall j | 0 <= j < |w2| - 1 ensures w2[j].hi == w2[j + 1].lo {
      if j < |wins| - 1 {
        assert w2[j] == wins[j] && w2[j + 1] == wins[j + 1];
      } else {
        assert w2[j] == wins[|wins| - 1] && w2[j + 1] == w;
      }
    }
    forall j | 0 <= j < |w2|
      ensures w2[j].lo < w2[j].hi <= |pieces|
      ensures SumTok(tok, pieces[w2[j].lo..w2[j].hi]) > 0 && GroupLimit(tok, pieces, numTokens, w2[j])
    {
      if j < |wins| {
        assert w2[j] == wins[j];
      }
    }
  }

  /** A group of one piece keeps to `GroupLimit`. */
  lemma SingleLimit(tok: string -> nat, pieces: seq<string>, numTokens: int, i: nat)
    requires i < |pieces|
    ensures GroupLimit(tok, pieces, numTokens, Window(i, i + 1))
  {
    assert pieces[i..i + 1][..0] == [];
    assert pieces[i..i + 1 - 1] == [];
  }

  lemma SeriallyClose(tok: string -> nat, pieces: seq<string>, numTokens: int, i: nat, lo: nat, wins: seq<Window>)
    requires lo <= i < |pieces| && InRange(wins, i)
    requires SeriallyInv(tok, pieces, numTokens, i, lo, wins)
    requires SumTok(tok, pieces[lo..i]) > 0
    ensures InRange(wins + [Window(lo, i)], i + 1)
    ensures SeriallyInv(tok, pieces, numTokens, i + 1, i, wins + [Window(lo, i)])
  {
    if lo == i {
      assert false;
    }
    GroupAppend(tok, pieces, numTokens, wins, Window(lo, i));
    SingleLimit(tok, pieces, numTokens, i);
  }

  lemma SeriallyKeep(tok: string -> nat, pieces: seq<string>, numTokens: int, i: nat, lo: nat, wins: seq<Window>)
    requires lo <= i < |pieces| && InRange(wins, i)
    requires SeriallyInv(tok, pieces, numTokens, i, lo, wins)
    requires !(SumTok(tok, pieces[lo..i]) > 0 && SumTok(tok, pieces[lo..i]) + tok(pieces[i]) > numTokens)
    ensures SeriallyInv(tok, pieces, numTokens, i + 1, lo, wins)
  {
    SliceSnoc(pieces, lo, i);
    SumTokAppend(tok, pieces[lo..i], pieces[i]);
    assert pieces[lo..i + 1][..i - lo] == pieces[lo..i];
  }

  lemma SeriallyEnd(tok: string -> nat, pieces: seq<string>, numTokens: int, lo: nat, wins: seq<Window>)
    requires lo <= |pieces| && InRange(wins, |pieces|)
    requires SeriallyInv(tok, pieces, numTokens, |pieces|, lo, wins)
    ensures SerialShaped(tok, pieces, numTokens, SeriallyFrom(tok, pieces, numTokens, |pieces|, lo, wins))
  {
    var n := |pieces|;
    if SumTok(tok, pieces[lo..n]) > 0 {
      assert SeriallyFrom(tok, pieces, numTokens, n, lo, wins) == wins + [Window(lo, n)];
      SeriallyEndClosed(tok, pieces, numTokens, lo, wins);
    } else {
      assert SeriallyFrom(tok, pieces, numTokens, n, lo, wins) == wins;
      assert pieces[lo..n] == pieces[EndOf(wins, 0)..];
    }
  }

  /** The last group is yielded when its size is positive. */
  lemma SeriallyEndClosed(tok: string -> nat, pieces: seq<string>, numTokens: int, lo: nat, wins: seq<Window>)
    requires lo <= |pieces| && InRange(wins, |pieces|)
    requires SeriallyInv(tok, pieces, numTokens, |pieces|, lo, wins)
    requires SumTok(tok, pieces[lo..|pieces|]) > 0
    ensures SerialShaped(tok, pieces, numTokens, wins + [Window(lo, |pieces|)])
  {
    var n := |pieces|;
    if lo == n {
      assert false;
    }
    GroupAppend(tok, pieces, numTokens, wins, Window(lo, n));
    assert pieces[n..] == [];
  }

  lemma {:induction false} SeriallyFromShape(tok: string -> nat, pieces: seq<string>, numTokens: int, i: nat, lo: nat, wins: seq<Window>)
    requires lo <= i <= |pieces| && InRange(wins, i)
    requires SeriallyInv(tok, pieces, numTokens, i, lo, wins)
    ensures SerialShaped(tok, pieces, numTokens, SeriallyFrom(tok, pieces, numTokens, i, lo, wins))
    decreases |pieces| - i, 1
  {
    var total := SumTok(tok, pieces[lo..i]);
    if i == |pieces| {
      SeriallyEnd(tok, pieces, numTokens, lo, wins);
    } else if total > 0 && total + tok(pieces[i]) > numTokens {
      SeriallyShapeClose(tok, pieces, numTokens, i, lo, wins);
    } else {
      SeriallyShapeKeep(tok, pieces, numTokens, i, lo, wins);
    }
  }

  lemma {:induction false} SeriallyShapeClose(tok: string -> nat, pieces: seq<string>, numTokens: int, i: nat, lo: nat, wins: seq<Window>)
    requires lo <= i < |pieces| && InRange(wins, i)
    requires SeriallyInv(tok, pieces, numTokens, i, lo, wins)
    requires SumTok(tok, pieces[lo..i]) > 0 && SumTok(tok, pieces[lo..i]) + tok(pieces[i]) > numTokens
    ensures SerialShaped(tok, pieces, numTokens, SeriallyFrom(tok, pieces, numTokens, i, lo, wins))
    decreases |pieces| - i, 0
  {
    SeriallyClose(tok, pieces, numTokens, i, lo, wins);
    SeriallyFromClose(tok, pieces, numTokens, i, lo, wins);
    SeriallyFromShape(tok, pieces, numTokens, i + 1, i, wins + [Window(lo, i)]);
  }

  lemma {:induction false} SeriallyShapeKeep(tok: string -> nat, pieces: seq<string>, numTokens: int, i: nat, lo: nat, wins: seq<Window>)
    requires lo <= i < |pieces| && InRange(wins, i)
    requires SeriallyInv(tok, pieces, numTokens, i, lo, wins)
    requires !(SumTok(tok, pieces[lo..i]) > 0 && SumTok(tok, pieces[lo..i]) + tok(pieces[i]) > numTokens)
    ensures SerialShaped(tok, pieces, numTokens, SeriallyFrom(tok, pieces, numTokens, i, lo, wins))
    decreases |pieces| - i, 0
  {
    SeriallyKeep(tok, pieces, numTokens, i, lo, wins);
    SeriallyFromKeep(tok, pieces, numTokens, i, lo, wins);
    SeriallyFromShape(tok, pieces, numTokens, i + 1, lo, wins);
  }

  lemma SeriallyWindowsShape(tok: string -> nat, pieces: seq<string>, numTokens: int)
    ensures SerialShaped(tok, pieces, numTokens, SeriallyWindows(tok, pieces, numTokens))
  {
    assert pieces[0..0] == [];
    SeriallyFromShape(tok, pieces, numTokens, 0, 0, []);
  }

  /** Each yielded size is positive and is the sum of its pieces' sizes. */
  lemma MergeChunksSeriallySizes(tok: string -> nat, pieces: seq<string>, numTokens: int)
    ensures var wins := SeriallyWindows(tok, pieces, numTokens);
      var out := MergeChunksSerially(tok, pieces, numTokens);
      forall j :: 0 <= j < |out| ==>
        out[j].size > 0 && out[j].size == SumTok(tok, pieces[wins[j].lo..wins[j].hi])
        && out[j].text == Concat(pieces[wins[j].lo..wins[j].hi])
  {
    SeriallyWindowsShape(tok, pieces, numTokens);
  }

  /** A yielded size exceeds `num_tokens` only for a single piece when every
      piece has a positive size. */
  lemma MergeChunksSeriallyOversized(tok: string -> nat, pieces: seq<string>, numTokens: int, j: nat)
    requires forall k :: 0 <= k < |pieces| ==> tok(pieces[k]) > 0
    requires j < |MergeChunksSerially(tok, pieces, numTokens)|
    requires MergeChunksSerially(tok, pieces, numTokens)[j].size > numTokens
    ensures var w := SeriallyWindows(tok, pieces, numTokens)[j]; w.hi == w.lo + 1
  {
    SeriallyWindowsShape(tok, pieces, numTokens);
    var w := SeriallyWindows(tok, pieces, numTokens)[j];
    assert GroupLimit(tok, pieces, numTokens, w);
  }

  lemma {:induction false} SumTokZeroConcat(tok: string -> nat, xs: seq<string>)
    requires forall k :: 0 <= k < |xs| ==> xs[k] != [] ==> tok(xs[k]) > 0
    requires SumTok(tok, xs) == 0
    ensures Concat(xs) == []
  {
    if xs != [] {
      SumTokZeroConcat(tok, xs[1..]);
    }
  }

  function EndOf(wins: seq<Window>, lo: nat): nat {
    if wins == [] then lo else wins[|wins| - 1].hi
  }

  lemma {:induction false} TiledEnd(wins: seq<Window>, lo: nat)
    requires Tiled(wins) && (wins != [] ==> wins[0].lo == lo)
    ensures lo <= EndOf(wins, lo)
    decreases |wins|
  {
    if |wins| > 1 {
      TiledEnd(wins[1..], wins[0].hi);
    }
  }

  /** The concatenation of a slice, cut in two. */
  lemma ConcatSlices(xs: seq<string>, a: nat, b: nat, c: nat)
    requires a <= b <= c <= |xs|
    ensures Concat(xs[a..c]) == Concat(xs[a..b]) + Concat(xs[b..c])
  {
    assert xs[a..c] == xs[a..b] + xs[b..c];
    ConcatAppend(xs[a..b], xs[b..c]);
  }

  lemma TiledTail(pieces: seq<string>, wins: seq<Window>)
    requires wins != [] && InRange(wins, |pieces|) && Tiled(wins)
    ensures InRange(wins[1..], |pieces|) && Tiled(wins[1..])
    ensures |wins| > 1 ==> wins[1].lo == wins[0].hi
    ensures EndOf(wins[1..], wins[0].hi) == EndOf(wins, wins[0].lo)
  {
  }

  lemma GroupTextsCons(pieces: seq<string>, wins: seq<Window>)
    requires wins != [] && InRange(wins, |pieces|)
    ensures InRange(wins[1..], |pieces|)
    ensures Concat(GroupTexts(pieces, wins))
         == Concat(pieces[wins[0].lo..wins[0].hi]) + Concat(GroupTexts(pieces, wins[1..]))
  {
  }

  lemma {:induction false} ConcatTiled(pieces: seq<string>, wins: seq<Window>, lo: nat)
    requires InRange(wins, |pieces|) && Tiled(wins)
    requires wins != [] ==> wins[0].lo == lo
    requires lo <= EndOf(wins, lo) <= |pieces|
    ensures Concat(GroupTexts(pieces, wins)) == Concat(pieces[lo..EndOf(wins, lo)])
    decreases |wins|
  {
    if wins != [] {
      var w := wins[0];
      var end := EndOf(wins, lo);
      TiledTail(pieces, wins);
      TiledEnd(wins[1..], w.hi);
      ConcatTiled(pieces, wins[1..], w.hi);
      GroupTextsCons(pieces, wins);
      ConcatSlices(pieces, lo, w.hi, end);
    } else {
      assert pieces[lo..lo] == [];
    }
  }

  function GroupTexts(pieces: seq<string>, wins: seq<Window>): (r: seq<string>)
    requires InRange(wins, |pieces|)
    ensures |r| == |wins|
    ensures forall j :: 0 <= j < |wins| ==> r[j] == Concat(pieces[wins[j].lo..wins[j].hi])
  {
    if wins == [] then [] else
      assert InRange(wins[1..], |pieces|);
      [Concat(pieces[wins[0].lo..wins[0].hi])] + GroupTexts(pieces, wins[1..])
  }

  /** The texts of yielded groups, in order. */
  function Texts(gs: seq<Group>): (r: seq<string>)
    ensures |r| == |gs| && forall j :: 0 <= j < |gs| ==> r[j] == gs[j].text
  {
    if gs == [] then [] else [gs[0].text] + Texts(gs[1..])
  }

  /** Pieces after `end` whose sizes sum to 0 add nothing to the text. */
  lemma ConcatZeroTail(tok: string -> nat, pieces: seq<string>, end: nat)
    requires end <= |pieces|
    requires forall k :: 0 <= k < |pieces| ==> pieces[k] != [] ==> tok(pieces[k]) > 0
    requires SumTok(tok, pieces[end..]) == 0
    ensures Concat(pieces) == Concat(pieces[0..end])
  {
    var tail := pieces[end..];
    PositiveSuffix(tok, pieces, end);
    SumTokZeroConcat(tok, tail);
    assert pieces == pieces[0..end] + tail;
    ConcatAppend(pieces[0..end], tail);
  }

  lemma PositiveSuffix(tok: string -> nat, pieces: seq<string>, end: nat)
    requires end <= |pieces|
    requires forall k :: 0 <= k < |pieces| ==> pieces[k] != [] ==> tok(pieces[k]) > 0
    ensures forall k :: 0 <= k < |pieces[end..]| ==> pieces[end..][k] != [] ==> tok(pieces[end..][k]) > 0
  {
    forall k | 0 <= k < |pieces[end..]| ensures pieces[end..][k] != [] ==> tok(pieces[end..][k]) > 0 {
      assert pieces[end..][k] == pieces[end + k];
    }
  }

  /** If only empty pieces have size 0, the yielded chunks concatenate back to
      the concatenation of all pieces. */
  lemma MergeChunksSeriallyLossless(tok: string -> nat, pieces: seq<string>, numTokens: int)
    requires forall k :: 0 <= k < |pieces| ==> pieces[k] != [] ==> tok(pieces[k]) > 0
    ensures Concat(Texts(MergeChunksSerially(tok, pieces, numTokens))) == Concat(pieces)
  {
    var wins := SeriallyWindows(tok, pieces, numTokens);
    var texts := Texts(MergeChunksSerially(tok, pieces, numTokens));
    assert texts == GroupTexts(pieces, wins);
    SeriallyWindowsShape(tok, pieces, numTokens);
    var end := EndOf(wins, 0);
    TiledEnd(wins, 0);
    ConcatTiled(pieces, wins, 0);
    assert Concat(texts) == Concat(pieces[0..end]);
    assert end <= |pieces|;
    ConcatZeroTail(tok, pieces, end);
  }

}
