/** What `chunk_onthefly` guarantees: the hits that fit come back with their
    chunk id reset, and otherwise the pieces come back ranked by their
    TF-IDF similarity to the query. */
module OnTheFlyFacts {
  import opened Wrappers
  import opened Strings
  import opened Documents
  import opened Ranking
  import opened TextChunking
  import opened OnTheFly

  /** `d` is a piece of `doc`: only the content and the chunk id may
      differ. */
  predicate PieceOf(d: Document, doc: Document) {
    d.(content := doc.content, chunkId := doc.chunkId) == doc
  }

  /** The pieces of one hit are pieces of it numbered from `base` on, and
      a hit that fits is its single piece. */
  lemma PieceDocsFacts(env: SearchEnv, chunker: TextChunker, doc: Document, maxChunkSize: int, base: nat, pd: seq<Document>)
    requires pd == PieceDocs(env, chunker, doc, maxChunkSize, base)
    ensures forall i :: 0 <= i < |pd| ==> PieceOf(pd[i], doc) && pd[i].chunkId == StrId(NatToString(base + i))
    ensures Tokens(env, doc.content) <= maxChunkSize ==> pd == [doc.(chunkId := StrId(NatToString(base)))]
  {
  }

  /** `d` is a piece of one of the first `n` hits. */
  ghost predicate PieceOfHit(d: Document, results: seq<Document>, n: nat) {
    exists k :: 0 <= k < n && k < |results| && PieceOf(d, results[k])
  }

  /** Every piece comes from one of the first `n` hits, and when each of
      them fits the budget there is one piece per hit. */
  lemma {:induction false} PiecesFacts(env: SearchEnv, chunker: TextChunker, results: seq<Document>, maxChunkSize: int, n: nat,
                                       ps: seq<Document>)
    requires n <= |results|
    requires ps == Pieces(env, chunker, results, maxChunkSize, n)
    ensures forall i :: 0 <= i < |ps| ==> PieceOfHit(ps[i], results, n)
    ensures (forall k :: 0 <= k < n ==> Tokens(env, results[k].content) <= maxChunkSize) ==> |ps| == n
  {
    if n > 0 {
      var prev := Pieces(env, chunker, results, maxChunkSize, n - 1);
      PiecesFacts(env, chunker, results, maxChunkSize, n - 1, prev);
      var pd := PieceDocs(env, chunker, results[n - 1], maxChunkSize, 0);
      PieceDocsFacts(env, chunker, results[n - 1], maxChunkSize, 0, pd);
      assert ps == prev + pd;
      forall i | 0 <= i < |ps| ensures PieceOfHit(ps[i], results, n) {
        if i < |prev| {
          assert ps[i] == prev[i];
          assert PieceOfHit(prev[i], results, n - 1);
        } else {
          assert ps[i] == pd[i - |prev|];
          assert PieceOf(ps[i], results[n - 1]);
        }
      }
    }
  }

  /** With a query and every hit within budget, the hits come back in order,
      each with chunk id "0" and nothing else changed. */
  lemma OnTheFlyFits(env: SearchEnv, chunker: TextChunker, query: Option<string>, results: seq<Document>,
                     maxChunkSize: int, topK: int, r: Result<seq<Document>>)
    requires HasQuery(query)
    requires forall k :: 0 <= k < |results| ==> Tokens(env, results[k].content) <= maxChunkSize
    requires r == ChunkOnTheFly(env, chunker, query, results, maxChunkSize, topK)
    ensures r.Success? && |r.value| == |results|
    ensures forall k :: 0 <= k < |results| ==> r.value[k] == results[k].(chunkId := StrId("0"))
  {
    if results != [] {
      var ps := Pieces(env, chunker, results, maxChunkSize, |results|);
      PiecesFacts(env, chunker, results, maxChunkSize, |results|, ps);
      assert NatToString(0) == "0";
      assert r == Success(PassThrough(env, results, maxChunkSize));
    }
  }

  /** The TF-IDF ranking of pieces of the hits: as many as `topK` keeps,
      scores descending, each a piece scored with its similarity to the
      query, and so a piece of a hit. */
  lemma TfidfRankedFacts(env: SearchEnv, query: Option<string>, ps: seq<Document>, results: seq<Document>, topK: int)
    requires HasQuery(query)
    requires forall i :: 0 <= i < |ps| ==> PieceOfHit(ps[i], results, |results|)
    ensures var t := TfidfRanked(env, query, ps, topK);
            |t| == TakeCount(|ps|, topK)
            && forall i :: 0 <= i < |t| ==>
                 exists m :: 0 <= m < |ps| && t[i] == ps[m].(score := Some(env.sim(query.value, Contents(ps), m)))
    ensures var t := TfidfRanked(env, query, ps, topK);
            forall i, j :: 0 <= i < j < |t| ==> t[i].score.Some? && t[j].score.Some? && t[i].score.value >= t[j].score.value
    ensures var t := TfidfRanked(env, query, ps, topK);
            forall i :: 0 <= i < |t| ==> exists k :: 0 <= k < |results| && PieceOf(t[i].(score := results[k].score), results[k])
  {
    var xs := Scored(ps, TfidfScores(env, query, Contents(ps)));
    var t := TfidfRanked(env, query, ps, topK);
    RankedCut(xs, topK);
    forall i | 0 <= i < |t|
      ensures (exists m :: 0 <= m < |ps| && t[i] == ps[m].(score := Some(env.sim(query.value, Contents(ps), m))))
              && exists k :: 0 <= k < |results| && PieceOf(t[i].(score := results[k].score), results[k])
    {
      var m :| 0 <= m < |xs| && t[i] == xs[m].item.(score := Some(xs[m].key));
      assert xs[m] == Ranked(ps[m], env.sim(query.value, Contents(ps), m));
      assert PieceOfHit(ps[m], results, |results|);
      var k :| 0 <= k < |results| && PieceOf(ps[m], results[k]);
      assert PieceOf(t[i].(score := results[k].score), results[k]);
    }
  }

  /** When chunking changed the number of documents, the pieces come back
      ranked: as many as `topK` keeps, scores descending, each a piece of a
      hit scored with its TF-IDF similarity to the query. */
  lemma OnTheFlyRanked(env: SearchEnv, chunker: TextChunker, query: Option<string>, results: seq<Document>,
                       maxChunkSize: int, topK: int, r: Result<seq<Document>>)
    requires HasQuery(query) && results != []
    requires |Pieces(env, chunker, results, maxChunkSize, |results|)| != |results|
    requires r == ChunkOnTheFly(env, chunker, query, results, maxChunkSize, topK)
    ensures var ps := Pieces(env, chunker, results, maxChunkSize, |results|);
            r.Success? && |r.value| == TakeCount(|ps|, topK)
            && forall i :: 0 <= i < |r.value| ==>
                 exists m :: 0 <= m < |ps| && r.value[i] == ps[m].(score := Some(env.sim(query.value, Contents(ps), m)))
    ensures forall i, j :: 0 <= i < j < |r.value| ==> r.value[i].score.Some? && r.value[j].score.Some? && r.value[i].score.value >= r.value[j].score.value
    ensures forall i :: 0 <= i < |r.value| ==> exists k :: 0 <= k < |results| && PieceOf(r.value[i].(score := results[k].score), results[k])
  {
    var ps := Pieces(env, chunker, results, maxChunkSize, |results|);
    PiecesFacts(env, chunker, results, maxChunkSize, |results|, ps);
    assert r == Success(TfidfRanked(env, query, ps, topK));
    TfidfRankedFacts(env, query, ps, results, topK);
  }

  /** In the same case, the pieces kept are a best part of all the pieces
      scored by similarity: none is taken twice, and none left out scores
      higher than one kept. */
  lemma OnTheFlyBest(env: SearchEnv, chunker: TextChunker, query: Option<string>, results: seq<Document>,
                     maxChunkSize: int, topK: int, r: Result<seq<Document>>)
    requires HasQuery(query) && results != []
    requires |Pieces(env, chunker, results, maxChunkSize, |results|)| != |results|
    requires r == ChunkOnTheFly(env, chunker, query, results, maxChunkSize, topK)
    ensures var ps := Pieces(env, chunker, results, maxChunkSize, |results|);
            var xs := Scored(ps, TfidfScores(env, query, Contents(ps)));
            var top := PyTake(SortDesc(xs), topK);
            (forall m :: 0 <= m < |ps| ==> xs[m] == Ranked(ps[m], env.sim(query.value, Contents(ps), m)))
            && r == Success(WithScores(top)) && BestOf(top, xs)
  {
    var ps := Pieces(env, chunker, results, maxChunkSize, |results|);
    var xs := Scored(ps, TfidfScores(env, query, Contents(ps)));
    TopBest(xs, topK);
  }
}
