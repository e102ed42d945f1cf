/** What `chunk_onthefly_with_highlights` guarantees: which hits are chunked,
    how the per-filepath counter numbers the candidates, and what the two
    outcomes (the hits kept, or the candidates ranked) look like. */
module HighlightFacts {
  import opened Wrappers
  import opened Strings
  import opened Documents
  import opened Ranking
  import opened TextChunking
  import opened OnTheFly

  /** `d` is a copy of `doc` in which only the content, the metadata and the
      chunk id may differ. */
  predicate CopyOf(d: Document, doc: Document) {
    d.(content := doc.content, metadata := doc.metadata, chunkId := doc.chunkId) == doc
  }

  /** `c` is a copy of `doc` of at least 2 tokens made from one of the
      chunks from `lo` on: its content is the chunk with both tags removed
      and its id is the chunk's index past `base`. */
  ghost predicate FromChunk(c: Candidate, doc: Document, chunks: seq<Document>, tag: string, tagEnd: string, base: nat, lo: nat) {
    tag != [] && tagEnd != [] && c.tokens >= 2 && CopyOf(c.doc, doc)
    && exists k :: lo <= k < |chunks| && c.doc.content == Replace(Replace(chunks[k].content, tag, ""), tagEnd, "")
                                     && c.doc.chunkId == StrId(NatToString(base + k))
  }

  /** Every candidate of a chunked highlight comes from one of its chunks. */
  lemma {:induction false} SubChunkCandidatesFacts(env: SearchEnv, doc: Document, sim: real, chunks: seq<Document>, tag: string,
                                                   tagEnd: string, base: nat, meta: string, j: nat, cs: seq<Candidate>)
    requires tag != [] && tagEnd != [] && j <= |chunks|
    requires cs == SubChunkCandidates(env, doc, sim, chunks, tag, tagEnd, base, meta, j)
    ensures forall i :: 0 <= i < |cs| ==> FromChunk(cs[i], doc, chunks, tag, tagEnd, base, j)
    decreases |chunks| - j
  {
    if j < |chunks| {
      var rest := SubChunkCandidates(env, doc, sim, chunks, tag, tagEnd, base, meta, j + 1);
      SubChunkCandidatesFacts(env, doc, sim, chunks, tag, tagEnd, base, meta, j + 1, rest);
      var content := Replace(Replace(chunks[j].content, tag, ""), tagEnd, "");
      if Tokens(env, content) < 2 {
        assert cs == rest;
        forall i | 0 <= i < |cs| ensures FromChunk(cs[i], doc, chunks, tag, tagEnd, base, j) {
          assert FromChunk(rest[i], doc, chunks, tag, tagEnd, base, j + 1);
        }
      } else {
        assert cs == [cs[0]] + rest;
        assert cs[0].doc.content == content && cs[0].tokens == Tokens(env, content);
        forall i | 0 <= i < |cs| ensures FromChunk(cs[i], doc, chunks, tag, tagEnd, base, j) {
          if i > 0 {
            assert cs[i] == rest[i - 1];
            assert FromChunk(rest[i - 1], doc, chunks, tag, tagEnd, base, j + 1);
          }
        }
      }
    }
  }

  /** A hit as it is kept when it is not chunked: its metadata records its
      size, its similarity and its highlight count, and it is numbered `id`. */
  function KeptHit(env: SearchEnv, doc: Document, sim: real, highlight: string, tag: string, id: nat): Document
    requires tag != []
  {
    doc.(metadata := Chunking(OriginalMetadata(env, Tokens(env, doc.content), sim, Count(highlight, tag))),
         chunkId := StrId(NatToString(id)))
  }

  /** A hit is chunked exactly when it is over budget and has highlight
      text; every candidate it gives is a copy of it; an unchunked hit gives
      exactly itself with the new metadata and the running id `base`. */
  lemma HitCandidatesFacts(env: SearchEnv, chunker: TextChunker, doc: Document, sim: real, highlight: string, tag: string,
                           tagEnd: string, maxChunkSize: int, base: nat, hit: (seq<Candidate>, bool))
    requires tag != [] && tagEnd != []
    requires hit == HitCandidates(env, chunker, doc, sim, highlight, tag, tagEnd, maxChunkSize, base)
    ensures (hit.1 <==> Tokens(env, doc.content) > maxChunkSize && highlight != [])
            && (forall i :: 0 <= i < |hit.0| ==> CopyOf(hit.0[i].doc, doc))
            && (!hit.1 ==> |hit.0| == 1 && hit.0[0].doc == KeptHit(env, doc, sim, highlight, tag, base))
  {
    var n := Tokens(env, doc.content);
    var count := Count(highlight, tag);
    var meta := OriginalMetadata(env, n, sim, count);
    if n <= maxChunkSize || highlight == [] {
    } else if Tokens(env, highlight) < maxChunkSize {
    } else {
      match ChunkContent(chunker, env.chunkEnv, highlight, doc.filepath, None, true, maxChunkSize, 0, 0, false)
      case Failure(_) =>
      case Success(chunks) =>
        var cs := SubChunkCandidates(env, doc, sim, chunks, tag, tagEnd, base, meta, 0);
        SubChunkCandidatesFacts(env, doc, sim, chunks, tag, tagEnd, base, meta, 0, cs);
        assert forall i :: 0 <= i < |cs| ==> FromChunk(cs[i], doc, chunks, tag, tagEnd, base, 0);
    }
  }

  /** The paths of the candidates' documents. */
  function CandPaths(cands: seq<Candidate>): (r: seq<Option<string>>)
    ensures |r| == |cands| && forall i :: 0 <= i < |cands| ==> r[i] == cands[i].doc.filepath
  {
    seq(|cands|, i requires 0 <= i < |cands| => cands[i].doc.filepath)
  }

  lemma {:induction false} MultisetConst<T>(xs: seq<T>, p: T, x: T)
    requires forall i :: 0 <= i < |xs| ==> xs[i] == p
    ensures multiset(xs)[x] == if x == p then |xs| else 0
  {
    if xs != [] {
      MultisetConst(xs[1..], p, x);
      assert xs == [xs[0]] + xs[1..];
    }
  }

  /** Every candidate the k-th hit gives is a copy of that hit. */
  ghost predicate CopiesOf(hitOf: HitFn, results: seq<Document>) {
    forall k: nat, b: nat, i :: k < |results| && 0 <= i < |hitOf(k, b).0| ==> CopyOf(hitOf(k, b).0[i].doc, results[k])
  }

  /** One hit, all of whose candidates have path `p`, keeps the counter of a
      truthy path equal to the number of candidates with that path. */
  lemma CounterStep(counter: map<string, nat>, cands: seq<Candidate>, hit: seq<Candidate>, p: Option<string>, fp: string)
    requires fp != []
    requires BaseId(counter, Some(fp)) == multiset(CandPaths(cands))[Some(fp)]
    requires forall i :: 0 <= i < |hit| ==> hit[i].doc.filepath == p
    ensures BaseId(Advance(counter, p, |hit|), Some(fp)) == multiset(CandPaths(cands + hit))[Some(fp)]
  {
    MultisetConst(CandPaths(hit), p, Some(fp));
    assert CandPaths(cands + hit) == CandPaths(cands) + CandPaths(hit);
  }

  /** The counter holds, for each truthy path, the number of candidates so
      far whose path it is. */
  lemma {:induction false} FoldCounter(hitOf: HitFn, results: seq<Document>, n: nat, fp: string)
    requires n <= |results| && fp != []
    requires CopiesOf(hitOf, results)
    ensures var s := Fold(hitOf, Paths(results), n);
            BaseId(s.counter, Some(fp)) == multiset(CandPaths(s.cands))[Some(fp)]
  {
    if n > 0 {
      var s := Fold(hitOf, Paths(results), n - 1);
      FoldCounter(hitOf, results, n - 1, fp);
      var hit := hitOf(n - 1, BaseId(s.counter, results[n - 1].filepath));
      forall i | 0 <= i < |hit.0| ensures hit.0[i].doc.filepath == results[n - 1].filepath {
        assert CopyOf(hit.0[i].doc, results[n - 1]);
      }
      CounterStep(s.counter, s.cands, hit.0, results[n - 1].filepath, fp);
    }
  }

  /** The id a kept hit gets: the number of earlier hits with the same
      truthy path. */
  function RunningId(results: seq<Document>, k: nat): nat
    requires k < |results|
  {
    if HasPath(results[k].filepath) then multiset(Paths(results)[..k])[results[k].filepath] else 0
  }

  /** Hits that each give a single candidate when unchunked: when no hit is
      chunked, the candidates are the hits in order, the k-th numbered by
      its running id. */
  lemma {:induction false} FoldUnchunked(hitOf: HitFn, results: seq<Document>, n: nat)
    requires n <= |results|
    requires CopiesOf(hitOf, results)
    requires forall k: nat, b: nat :: k < |results| && !hitOf(k, b).1 ==> |hitOf(k, b).0| == 1
    requires !Fold(hitOf, Paths(results), n).chunked
    ensures var s := Fold(hitOf, Paths(results), n);
            |s.cands| == n && forall k :: 0 <= k < n ==> [s.cands[k]] == hitOf(k, RunningId(results, k)).0
  {
    if n > 0 {
      var s := Fold(hitOf, Paths(results), n - 1);
      FoldUnchunked(hitOf, results, n - 1);
      var doc := results[n - 1];
      var base := BaseId(s.counter, doc.filepath);
      if HasPath(doc.filepath) {
        FoldCounter(hitOf, results, n - 1, doc.filepath.value);
        KeptPaths(hitOf, results, s.cands);
      }
      assert base == RunningId(results, n - 1);
      var hit := hitOf(n - 1, base);
      assert !hit.1 && |hit.0| == 1;
      var t := s.cands + hit.0;
      forall k | 0 <= k < n ensures [t[k]] == hitOf(k, RunningId(results, k)).0 {
        if k == n - 1 {
          assert t[k] == hit.0[0];
        } else {
          assert t[k] == s.cands[k];
        }
      }
    }
  }

  /** Candidates that are the hits' single candidates in order have the
      hits' paths. */
  lemma KeptPaths(hitOf: HitFn, results: seq<Document>, cands: seq<Candidate>)
    requires |cands| <= |results|
    requires CopiesOf(hitOf, results)
    requires forall k :: 0 <= k < |cands| ==> [cands[k]] == hitOf(k, RunningId(results, k)).0
    ensures CandPaths(cands) == Paths(results)[..|cands|]
  {
    forall k | 0 <= k < |cands| ensures CandPaths(cands)[k] == Paths(results)[k] {
      assert cands[k] == hitOf(k, RunningId(results, k)).0[0];
      assert CopyOf(hitOf(k, RunningId(results, k)).0[0].doc, results[k]);
    }
  }

  /** The candidate is a copy of one of the first `n` hits. */
  ghost predicate FromHit(c: Candidate, results: seq<Document>, n: nat) {
    exists k :: 0 <= k < n && k < |results| && CopyOf(c.doc, results[k])
  }

  /** Every candidate is a copy of one of the first `n` hits. */
  ghost predicate FromHits(cands: seq<Candidate>, results: seq<Document>, n: nat) {
    forall i :: 0 <= i < |cands| ==> FromHit(cands[i], results, n)
  }

  lemma CopiesStep(cands: seq<Candidate>, hit: seq<Candidate>, results: seq<Document>, n: nat)
    requires 0 < n <= |results|
    requires FromHits(cands, results, n - 1)
    requires forall i :: 0 <= i < |hit| ==> CopyOf(hit[i].doc, results[n - 1])
    ensures FromHits(cands + hit, results, n)
  {
    var t := cands + hit;
    forall i | 0 <= i < |t| ensures FromHit(t[i], results, n) {
      if i < |cands| {
        assert t[i] == cands[i];
        assert FromHit(cands[i], results, n - 1);
        var k :| 0 <= k < n - 1 && k < |results| && CopyOf(cands[i].doc, results[k]);
        assert CopyOf(t[i].doc, results[k]);
      } else {
        assert t[i] == hit[i - |cands|];
        assert CopyOf(t[i].doc, results[n - 1]);
      }
    }
  }

  /** Every candidate is a copy of one of the hits. */
  lemma {:induction false} FoldCopies(hitOf: HitFn, results: seq<Document>, n: nat)
    requires n <= |results|
    requires CopiesOf(hitOf, results)
    ensures FromHits(Fold(hitOf, Paths(results), n).cands, results, n)
  {
    if n > 0 {
      var s := Fold(hitOf, Paths(results), n - 1);
      FoldCopies(hitOf, results, n - 1);
      var hit := hitOf(n - 1, BaseId(s.counter, results[n - 1].filepath));
      forall i | 0 <= i < |hit.0| ensures CopyOf(hit.0[i].doc, results[n - 1]) {
      }
      CopiesStep(s.cands, hit.0, results, n);
    }
  }

  /** The flag is raised exactly when some hit so far was chunked. */
  lemma {:induction false} FoldChunked(hitOf: HitFn, results: seq<Document>, flags: seq<bool>, n: nat)
    requires n <= |results| == |flags|
    requires forall k: nat, b: nat :: k < |results| ==> hitOf(k, b).1 == flags[k]
    ensures Fold(hitOf, Paths(results), n).chunked <==> exists k :: 0 <= k < n && flags[k]
  {
    if n > 0 {
      FoldChunked(hitOf, results, flags, n - 1);
    }
  }

  /** Whether the k-th hit is chunked: it is over budget and has highlight
      text. */
  predicate OverBudget(env: SearchEnv, doc: Document, highlight: string, maxChunkSize: int) {
    Tokens(env, doc.content) > maxChunkSize && highlight != []
  }

  /** The facts of `HitCandidatesFacts`, for every hit and every starting id
      at once. */
  lemma HighlightHitFacts(env: SearchEnv, chunker: TextChunker, results: seq<Document>, sims: seq<real>, highlights: seq<string>,
                          tag: string, tagEnd: string, maxChunkSize: int, h: HitFn)
    requires |sims| == |results| && |highlights| == |results| && tag != [] && tagEnd != []
    requires h == HighlightHit(env, chunker, results, sims, highlights, tag, tagEnd, maxChunkSize)
    ensures CopiesOf(h, results)
    ensures forall k: nat, b: nat :: k < |results| ==> (h(k, b).1 <==> OverBudget(env, results[k], highlights[k], maxChunkSize))
    ensures forall k: nat, b: nat :: k < |results| && !h(k, b).1 ==>
              |h(k, b).0| == 1 && h(k, b).0[0].doc == KeptHit(env, results[k], sims[k], highlights[k], tag, b)
  {
    forall k: nat, b: nat | k < |results|
      ensures (forall i :: 0 <= i < |h(k, b).0| ==> CopyOf(h(k, b).0[i].doc, results[k]))
              && (h(k, b).1 <==> OverBudget(env, results[k], highlights[k], maxChunkSize))
              && (!h(k, b).1 ==> |h(k, b).0| == 1 && h(k, b).0[0].doc == KeptHit(env, results[k], sims[k], highlights[k], tag, b))
    {
      HitCandidatesFacts(env, chunker, results[k], sims[k], highlights[k], tag, tagEnd, maxChunkSize, b, h(k, b));
    }
  }

  /** When no hit is over budget with highlight text, the hits come back in
      order, each with its size, score and highlight count recorded and
      numbered by the number of earlier hits with its path. */
  lemma HighlightsKept(env: SearchEnv, chunker: TextChunker, results: seq<Document>, sims: seq<real>, highlights: seq<string>,
                       tag: string, tagEnd: string, maxChunkSize: int, topK: int, r: Result<seq<Document>>)
    requires HighlightArgsOk(results, sims, highlights, tag, tagEnd)
    requires forall k :: 0 <= k < |results| ==> !OverBudget(env, results[k], highlights[k], maxChunkSize)
    requires r == ChunkOnTheFlyWithHighlights(env, chunker, results, sims, highlights, tag, tagEnd, maxChunkSize, topK)
    ensures r.Success? && |r.value| == |results|
    ensures forall k :: 0 <= k < |results| ==>
              r.value[k] == KeptHit(env, results[k], sims[k], highlights[k], tag, RunningId(results, k))
  {
    var h := HighlightHit(env, chunker, results, sims, highlights, tag, tagEnd, maxChunkSize);
    HighlightHitFacts(env, chunker, results, sims, highlights, tag, tagEnd, maxChunkSize, h);
    var flags := seq(|results|, k requires 0 <= k < |results| => OverBudget(env, results[k], highlights[k], maxChunkSize));
    FoldChunked(h, results, flags, |results|);
    FoldUnchunked(h, results, |results|);
    var s := Fold(h, Paths(results), |results|);
    assert s == ScanHits(env, chunker, results, sims, highlights, tag, tagEnd, maxChunkSize, |results|);
    assert r == Success(CandidateDocs(s.cands));
    forall k | 0 <= k < |results|
      ensures r.value[k] == KeptHit(env, results[k], sims[k], highlights[k], tag, RunningId(results, k))
    {
      assert [s.cands[k]] == h(k, RunningId(results, k)).0;
    }
  }

  /** `d` is a copy of one of `results` in which only the content, the
      metadata, the chunk id and the score may differ. */
  ghost predicate RescoredCopy(d: Document, results: seq<Document>) {
    exists k :: 0 <= k < |results| && CopyOf(d.(score := results[k].score), results[k])
  }

  /** The candidates ranked by key and cut to `topK`: as many as the cut
      keeps, each a candidate scored with its key, scores descending, and
      each a copy of a hit. */
  lemma RankedCandidatesFacts(cands: seq<Candidate>, results: seq<Document>, topK: int, out: seq<Document>)
    requires FromHits(cands, results, |results|)
    requires out == WithScores(PyTake(SortDesc(RankedCandidates(cands)), topK))
    ensures |out| == TakeCount(|cands|, topK)
    ensures forall i, j :: 0 <= i < j < |out| ==> out[i].score.Some? && out[j].score.Some? && out[i].score.value >= out[j].score.value
    ensures forall i :: 0 <= i < |out| ==> exists m :: 0 <= m < |cands| && out[i] == cands[m].doc.(score := Some(Key(cands[m])))
    ensures forall i :: 0 <= i < |out| ==> RescoredCopy(out[i], results)
  {
    var xs := RankedCandidates(cands);
    RankedCut(xs, topK);
    forall i | 0 <= i < |out|
      ensures (exists m :: 0 <= m < |cands| && out[i] == cands[m].doc.(score := Some(Key(cands[m]))))
              && RescoredCopy(out[i], results)
    {
      var m :| 0 <= m < |xs| && out[i] == xs[m].item.(score := Some(xs[m].key));
      assert xs[m] == Ranked(cands[m].doc, Key(cands[m]));
      assert FromHit(cands[m], results, |results|);
      var k :| 0 <= k < |results| && CopyOf(cands[m].doc, results[k]);
      assert CopyOf(out[i].(score := results[k].score), results[k]);
    }
  }

  /** The scan of all hits is chunked exactly when some hit is over budget
      with highlight text, and every candidate is a copy of a hit. */
  lemma ScanChunked(env: SearchEnv, chunker: TextChunker, results: seq<Document>, sims: seq<real>, highlights: seq<string>,
                    tag: string, tagEnd: string, maxChunkSize: int, s: Scan)
    requires |sims| == |results| && |highlights| == |results| && tag != [] && tagEnd != []
    requires s == ScanHits(env, chunker, results, sims, highlights, tag, tagEnd, maxChunkSize, |results|)
    ensures s.chunked <==> exists k :: 0 <= k < |results| && OverBudget(env, results[k], highlights[k], maxChunkSize)
    ensures FromHits(s.cands, results, |results|)
  {
    var h := HighlightHit(env, chunker, results, sims, highlights, tag, tagEnd, maxChunkSize);
    HighlightHitFacts(env, chunker, results, sims, highlights, tag, tagEnd, maxChunkSize, h);
    var flags := seq(|results|, k requires 0 <= k < |results| => OverBudget(env, results[k], highlights[k], maxChunkSize));
    FoldChunked(h, results, flags, |results|);
    FoldCopies(h, results, |results|);
    if exists k :: 0 <= k < |results| && OverBudget(env, results[k], highlights[k], maxChunkSize) {
      var k0 :| 0 <= k0 < |results| && OverBudget(env, results[k0], highlights[k0], maxChunkSize);
      assert flags[k0];
    }
  }

  /** When some hit is over budget with highlight text, the candidates come
      back ranked: highlights times score per token, largest first, the
      first `topK` kept, each a copy of a hit scored with its key; the
      candidates kept are a best part of all of them, none taken twice and
      none left out ranking higher than one kept. */
  lemma HighlightsRanked(env: SearchEnv, chunker: TextChunker, results: seq<Document>, sims: seq<real>, highlights: seq<string>,
                         tag: string, tagEnd: string, maxChunkSize: int, topK: int, r: Result<seq<Document>>)
    requires HighlightArgsOk(results, sims, highlights, tag, tagEnd)
    requires exists k :: 0 <= k < |results| && OverBudget(env, results[k], highlights[k], maxChunkSize)
    requires r == ChunkOnTheFlyWithHighlights(env, chunker, results, sims, highlights, tag, tagEnd, maxChunkSize, topK)
    ensures r.Success?
    ensures var cands := ScanHits(env, chunker, results, sims, highlights, tag, tagEnd, maxChunkSize, |results|).cands;
            |r.value| == TakeCount(|cands|, topK)
            && forall i :: 0 <= i < |r.value| ==> exists m :: 0 <= m < |cands| && r.value[i] == cands[m].doc.(score := Some(Key(cands[m])))
    ensures forall i, j :: 0 <= i < j < |r.value| ==> r.value[i].score.Some? && r.value[j].score.Some? && r.value[i].score.value >= r.value[j].score.value
    ensures forall i :: 0 <= i < |r.value| ==> RescoredCopy(r.value[i], results)
    ensures var xs := RankedCandidates(ScanHits(env, chunker, results, sims, highlights, tag, tagEnd, maxChunkSize, |results|).cands);
            var top := PyTake(SortDesc(xs), topK);
            r.value == WithScores(top) && BestOf(top, xs)
  {
    var s := ScanHits(env, chunker, results, sims, highlights, tag, tagEnd, maxChunkSize, |results|);
    ScanChunked(env, chunker, results, sims, highlights, tag, tagEnd, maxChunkSize, s);
    var xs := RankedCandidates(s.cands);
    SortDescIdempotent(xs);
    var out := WithScores(PyTake(SortDesc(xs), topK));
    assert HighlightDocs(s, topK) == WithScores(PyTake(SortDesc(SortDesc(xs)), topK));
    assert r == Success(HighlightDocs(s, topK));
    RankedCandidatesFacts(s.cands, results, topK, out);
    TopBest(xs, topK);
  }
}
