/** `select_chunks_core`: reciprocal-rank fusion of the chunk lists of
    several queries. Each list is sorted by score; the occurrence at 1-based
    rank `r` contributes `1/(r + 60)` to its chunk, chunks being identified
    by title, file path and content; the chunks are then ranked by their
    fused score and the first `top_k` are returned as dicts. */
module Fusion {
  import opened Wrappers
  import opened Json
  import opened Documents
  import opened Ranking
  import opened SearchChunkers

  const RrfConst: nat := 60

  /** `(chunk.title, chunk.filepath, chunk.content)`. */
  datatype ChunkKey = ChunkKey(title: Option<string>, filepath: Option<string>, content: string)

  function KeyOf(d: Document): ChunkKey {
    ChunkKey(d.title, d.filepath, d.content)
  }

  /** What one occurrence at 1-based rank `rank` adds. */
  function Contribution(rank: nat): (c: real)
    ensures 0.0 < c <= 1.0 / (RrfConst as real)
  {
    1.0 / ((rank + RrfConst) as real)
  }

  /** One entry of `chunk_rrf`: the fused score and the last chunk stored. */
  datatype Entry = Entry(key: ChunkKey, rrf: real, doc: Document)

  // ===========================================================================
  // The table `chunk_rrf`, a dict kept in insertion order
  // ===========================================================================

  function TableKeys(table: seq<Entry>): (r: seq<ChunkKey>)
    ensures |r| == |table| && forall i :: 0 <= i < |table| ==> r[i] == table[i].key
  {
    seq(|table|, i requires 0 <= i < |table| => table[i].key)
  }

  /** `chunk_rrf.get(key, (0, None))[0]`. */
  function RrfOf(table: seq<Entry>, k: ChunkKey): real {
    if table == [] then 0.0
    else if table[0].key == k then table[0].rrf
    else RrfOf(table[1..], k)
  }

  /** The chunk stored under a key, if any. */
  function DocOf(table: seq<Entry>, k: ChunkKey): Option<Document> {
    if table == [] then None
    else if table[0].key == k then Some(table[0].doc)
    else DocOf(table[1..], k)
  }

  /** `chunk_rrf[key] = (chunk_rrf.get(key, (0, None))[0] + c, doc)`: an
      existing key keeps its place, a new key goes last. */
  function Add(table: seq<Entry>, doc: Document, c: real): (r: seq<Entry>)
    ensures |r| == |table| || |r| == |table| + 1
  {
    if table == [] then [Entry(KeyOf(doc), c, doc)]
    else if table[0].key == KeyOf(doc) then [Entry(KeyOf(doc), table[0].rrf + c, doc)] + table[1..]
    else [table[0]] + Add(table[1..], doc, c)
  }

  /** Adding to a key raises its score by the contribution and stores the
      chunk under it; every other key keeps its score and chunk; the keys are
      the old ones, in their order, then the new key if it was absent. */
  lemma {:induction false} AddFacts(table: seq<Entry>, doc: Document, c: real, k: ChunkKey)
    ensures RrfOf(Add(table, doc, c), k) == RrfOf(table, k) + (if k == KeyOf(doc) then c else 0.0)
    ensures DocOf(Add(table, doc, c), k) == if k == KeyOf(doc) then Some(doc) else DocOf(table, k)
    ensures TableKeys(Add(table, doc, c)) ==
              if KeyOf(doc) in TableKeys(table) then TableKeys(table) else TableKeys(table) + [KeyOf(doc)]
  {
    if table != [] && table[0].key != KeyOf(doc) {
      AddFacts(table[1..], doc, c, k);
      assert TableKeys(table) == [table[0].key] + TableKeys(table[1..]);
    }
  }

  /** A key is in the table exactly when a chunk is stored under it. */
  lemma {:induction false} DocOfPresent(table: seq<Entry>, k: ChunkKey)
    ensures DocOf(table, k).Some? <==> k in TableKeys(table)
  {
    if table != [] {
      DocOfPresent(table[1..], k);
      assert TableKeys(table) == [table[0].key] + TableKeys(table[1..]);
    }
  }

  /** Every key of a table that only grew by `Add` appears once. */
  predicate DistinctKeys(table: seq<Entry>) {
    forall i, j :: 0 <= i < j < |table| ==> table[i].key != table[j].key
  }

  /** In a table whose keys are distinct, an entry's score and chunk are the
      ones found under its key. */
  lemma {:induction false} EntryFound(table: seq<Entry>, i: nat)
    requires DistinctKeys(table) && i < |table|
    ensures RrfOf(table, table[i].key) == table[i].rrf && DocOf(table, table[i].key) == Some(table[i].doc)
  {
    if i > 0 {
      EntryFound(table[1..], i - 1);
    }
  }

  lemma AddDistinct(table: seq<Entry>, doc: Document, c: real)
    requires DistinctKeys(table)
    ensures DistinctKeys(Add(table, doc, c))
  {
    var r := Add(table, doc, c);
    AddFacts(table, doc, c, KeyOf(doc));
    assert TableKeys(r) == if KeyOf(doc) in TableKeys(table) then TableKeys(table) else TableKeys(table) + [KeyOf(doc)];
    forall i, j | 0 <= i < j < |r| ensures r[i].key != r[j].key {
      assert r[i].key == TableKeys(r)[i] && r[j].key == TableKeys(r)[j];
    }
  }

  // ===========================================================================
  // One list
  // ===========================================================================

  /** `min_score` is truthy: present and not zero. */
  predicate MinTruthy(minScore: Option<real>) {
    minScore.Some? && minScore.value != 0.0
  }

  /** `if min_score and chunk.score < min_score: continue`: comparing a
      missing score raises TypeError. */
  function Skip(minScore: Option<real>, d: Document): (r: Result<bool>)
    ensures r.Failure? <==> MinTruthy(minScore) && d.score.None?
  {
    if !MinTruthy(minScore) then Success(false)
    else if d.score.None? then Failure(TypeMismatch)
    else Success(d.score.value < minScore.value)
  }

  /** An occurrence that survives the threshold. */
  predicate Kept(minScore: Option<real>, d: Document) {
    Skip(minScore, d) == Success(false)
  }

  /** The loop over one sorted list, the first element at rank `rank`; a
      skipped occurrence still takes its rank. */
  function FuseList(table: seq<Entry>, sorted: seq<Document>, rank: nat, minScore: Option<real>): Result<seq<Entry>>
    decreases |sorted|
  {
    if sorted == [] then Success(table)
    else
      var skip :- Skip(minScore, sorted[0]);
      FuseList(if skip then table else Add(table, sorted[0], Contribution(rank)), sorted[1..], rank + 1, minScore)
  }

  /** The contributions the surviving occurrences of `k` in a sorted list
      make, the first element being at rank `rank`. */
  function ListSum(sorted: seq<Document>, k: ChunkKey, rank: nat, minScore: Option<real>): real
    decreases |sorted|
  {
    if sorted == [] then 0.0
    else (if Kept(minScore, sorted[0]) && KeyOf(sorted[0]) == k then Contribution(rank) else 0.0)
         + ListSum(sorted[1..], k, rank + 1, minScore)
  }

  /** The last surviving occurrence of `k` in a list. */
  function LastKept(sorted: seq<Document>, k: ChunkKey, minScore: Option<real>): (r: Option<Document>)
    ensures r.Some? ==> KeyOf(r.value) == k && r.value in sorted
    decreases |sorted|
  {
    if sorted == [] then None
    else
      var rest := LastKept(sorted[1..], k, minScore);
      if rest.Some? then rest
      else if Kept(minScore, sorted[0]) && KeyOf(sorted[0]) == k then Some(sorted[0])
      else None
  }

  /** A list fails exactly when the threshold meets a missing score. */
  lemma {:induction false} FuseListFails(table: seq<Entry>, sorted: seq<Document>, rank: nat, minScore: Option<real>)
    ensures FuseList(table, sorted, rank, minScore).Failure?
            <==> MinTruthy(minScore) && exists i :: 0 <= i < |sorted| && sorted[i].score.None?
    decreases |sorted|
  {
    if sorted != [] {
      var skip := Skip(minScore, sorted[0]);
      if skip.Success? {
        FuseListFails(if skip.value then table else Add(table, sorted[0], Contribution(rank)), sorted[1..], rank + 1, minScore);
        assert forall i :: 1 <= i < |sorted| ==> sorted[1..][i - 1] == sorted[i];
      }
    }
  }

  /** After a list, each key's score has grown by the contributions of its
      surviving occurrences. */
  lemma {:induction false} FuseListSum(table: seq<Entry>, sorted: seq<Document>, rank: nat, minScore: Option<real>, k: ChunkKey)
    requires FuseList(table, sorted, rank, minScore).Success?
    ensures RrfOf(FuseList(table, sorted, rank, minScore).value, k) == RrfOf(table, k) + ListSum(sorted, k, rank, minScore)
    decreases |sorted|
  {
    if sorted != [] {
      var skip := Skip(minScore, sorted[0]).value;
      var t := if skip then table else Add(table, sorted[0], Contribution(rank));
      FuseListSum(t, sorted[1..], rank + 1, minScore, k);
      if !skip {
        AddFacts(table, sorted[0], Contribution(rank), k);
      }
    }
  }

  /** After a list, each key holds its last surviving occurrence, if it has
      one, and its old chunk otherwise. */
  lemma {:induction false} FuseListDoc(table: seq<Entry>, sorted: seq<Document>, rank: nat, minScore: Option<real>, k: ChunkKey)
    requires FuseList(table, sorted, rank, minScore).Success?
    ensures DocOf(FuseList(table, sorted, rank, minScore).value, k)
            == if LastKept(sorted, k, minScore).Some? then LastKept(sorted, k, minScore) else DocOf(table, k)
    decreases |sorted|
  {
    if sorted != [] {
      var skip := Skip(minScore, sorted[0]).value;
      var t := if skip then table else Add(table, sorted[0], Contribution(rank));
      FuseListDoc(t, sorted[1..], rank + 1, minScore, k);
      if !skip {
        AddFacts(table, sorted[0], Contribution(rank), k);
      }
    }
  }

  /** A list adds each key at most once. */
  lemma {:induction false} FuseListDistinct(table: seq<Entry>, sorted: seq<Document>, rank: nat, minScore: Option<real>)
    requires FuseList(table, sorted, rank, minScore).Success? && DistinctKeys(table)
    ensures DistinctKeys(FuseList(table, sorted, rank, minScore).value)
    decreases |sorted|
  {
    if sorted != [] {
      var skip := Skip(minScore, sorted[0]).value;
      if !skip {
        AddDistinct(table, sorted[0], Contribution(rank));
      }
      FuseListDistinct(if skip then table else Add(table, sorted[0], Contribution(rank)), sorted[1..], rank + 1, minScore);
    }
  }

  // ===========================================================================
  // All lists
  // ===========================================================================

  /** The loop over the lists: each sorted by score, then fused. */
  function FuseLists(table: seq<Entry>, lists: seq<seq<Document>>, minScore: Option<real>): Result<seq<Entry>>
    decreases |lists|
  {
    if lists == [] then Success(table)
    else
      var sorted :- SortByScore(lists[0]);
      var t :- FuseList(table, sorted, 1, minScore);
      FuseLists(t, lists[1..], minScore)
  }

  /** The fused score of a key: its contributions over all lists. */
  function FusedScore(lists: seq<seq<Document>>, k: ChunkKey, minScore: Option<real>): real
    decreases |lists|
  {
    if lists == [] then 0.0
    else
      var sorted := SortByScore(lists[0]);
      (if sorted.Success? then ListSum(sorted.value, k, 1, minScore) else 0.0) + FusedScore(lists[1..], k, minScore)
  }

  /** The chunk kept for a key: its last surviving occurrence over all
      lists. */
  function LastDoc(lists: seq<seq<Document>>, k: ChunkKey, minScore: Option<real>): Option<Document>
    decreases |lists|
  {
    if lists == [] then None
    else
      var rest := LastDoc(lists[1..], k, minScore);
      var sorted := SortByScore(lists[0]);
      if rest.Some? then rest
      else if sorted.Success? then LastKept(sorted.value, k, minScore)
      else None
  }

  lemma {:induction false} FuseListsFacts(table: seq<Entry>, lists: seq<seq<Document>>, minScore: Option<real>, k: ChunkKey)
    requires FuseLists(table, lists, minScore).Success?
    ensures var r := FuseLists(table, lists, minScore).value;
            RrfOf(r, k) == RrfOf(table, k) + FusedScore(lists, k, minScore)
            && DocOf(r, k) == (if LastDoc(lists, k, minScore).Some? then LastDoc(lists, k, minScore) else DocOf(table, k))
            && (DistinctKeys(table) ==> DistinctKeys(r))
    decreases |lists|
  {
    if lists != [] {
      var sorted := SortByScore(lists[0]).value;
      FuseListSum(table, sorted, 1, minScore, k);
      FuseListDoc(table, sorted, 1, minScore, k);
      if DistinctKeys(table) {
        FuseListDistinct(table, sorted, 1, minScore);
      }
      var t := FuseList(table, sorted, 1, minScore).value;
      FuseListsFacts(t, lists[1..], minScore, k);
    }
  }

  // ===========================================================================
  // select_chunks_core
  // ===========================================================================

  /** The table entries ranked by fused score. */
  function RankedEntries(table: seq<Entry>): (r: seq<Ranked<Entry>>)
    ensures |r| == |table| && forall i :: 0 <= i < |table| ==> r[i] == Ranked(table[i], table[i].rrf)
  {
    seq(|table|, i requires 0 <= i < |table| => Ranked(table[i], table[i].rrf))
  }

  /** `dataclass_to_dict(chunk)` with `score` set to the fused score: the
      dict of the chunk whose score is the fused one. */
  function EntryDict(e: Entry): Value {
    ToDict(e.doc.(score := Some(e.rrf)))
  }

  /** Storing the fused score under `score` in the chunk's dict gives the
      same dict, field order included; the other fields are the chunk's. */
  lemma EntryDictPut(e: Entry)
    ensures EntryDict(e) == Obj(Put(ToDict(e.doc).fields, "score", Float(e.rrf)))
    ensures Lookup(EntryDict(e).fields, "score") == Some(Float(e.rrf))
    ensures forall k :: k != "score" ==> Lookup(EntryDict(e).fields, k) == Lookup(ToDict(e.doc).fields, k)
  {
    var fs := ToDict(e.doc).fields;
    var v := Float(e.rrf);
    assert fs[1..][1..] == fs[2..] && fs[2..][1..] == fs[3..];
    assert Put(fs[2..], "score", v) == [Field("score", v)] + fs[3..];
    assert Put(fs[1..], "score", v) == [fs[1], Field("score", v)] + fs[3..];
    assert Put(fs, "score", v) == EntryDict(e).fields;
    forall k ensures Lookup(EntryDict(e).fields, k) == if k == "score" then Some(v) else Lookup(fs, k) {
      LookupPut(fs, "score", v, k);
    }
  }

  /** How many entries the output loop appends before its `break`: at least
      one when there is any, since the test comes after the append. */
  function EmitCount(n: nat, topK: int): (m: nat)
    ensures m <= n
  {
    if n == 0 then 0 else if topK < 1 then 1 else if topK < n then topK else n
  }

  /** The fused table: every list converted, sorted and fused in turn. */
  function Fused(results: seq<seq<Value>>, minScore: Option<real>): Result<seq<Entry>> {
    var lists :- ConvertLists(results);
    FuseLists([], lists, minScore)
  }

  /** The entries ranked by fused score, largest first, ties in insertion
      order. */
  function Rank(table: seq<Entry>): (r: seq<Entry>)
    ensures |r| == |table|
  {
    ItemsOf(SortDesc(RankedEntries(table)))
  }

  /** The entries of a table whose fused score is `v`, in table order. */
  function WithRrf(table: seq<Entry>, v: real): (r: seq<Entry>)
    ensures |r| <= |table|
  {
    if table == [] then [] else (if table[0].rrf == v then [table[0]] else []) + WithRrf(table[1..], v)
  }

  lemma {:induction false} WithKeyItems(xs: seq<Ranked<Entry>>, v: real)
    requires forall i :: 0 <= i < |xs| ==> xs[i].key == xs[i].item.rrf
    ensures ItemsOf(WithKey(xs, v)) == WithRrf(ItemsOf(xs), v)
  {
    if xs != [] {
      WithKeyItems(xs[1..], v);
      ItemsOfCons(xs[0], xs[1..]);
      assert [xs[0]] + xs[1..] == xs;
      if xs[0].key == v {
        ItemsOfCons(xs[0], WithKey(xs[1..], v));
      }
    }
  }

  lemma RankedEntriesItems(table: seq<Entry>)
    ensures ItemsOf(RankedEntries(table)) == table
  {
  }

  /** The sorted entries carry their fused score as key. */
  lemma SortedKeys(table: seq<Entry>)
    ensures var s := SortDesc(RankedEntries(table));
            forall i :: 0 <= i < |s| ==> s[i].key == s[i].item.rrf && s[i].item in table
  {
    var xs := RankedEntries(table);
    var s := SortDesc(xs);
    SortDescFacts(xs);
    forall i | 0 <= i < |s| ensures s[i].key == s[i].item.rrf && s[i].item in table {
      assert s[i] in multiset(xs);
      var m :| 0 <= m < |xs| && xs[m] == s[i];
    }
  }

  /** Ranking is a permutation of the table. */
  lemma RankPermutes(table: seq<Entry>)
    ensures multiset(Rank(table)) == multiset(table)
  {
    SortDescItems(RankedEntries(table));
    RankedEntriesItems(table);
  }

  /** Entries with equal fused scores keep their table order. */
  lemma RankStable(table: seq<Entry>, v: real)
    ensures WithRrf(Rank(table), v) == WithRrf(table, v)
  {
    var xs := RankedEntries(table);
    var s := SortDesc(xs);
    SortDescFacts(xs);
    SortedKeys(table);
    WithKeyItems(s, v);
    WithKeyItems(xs, v);
    RankedEntriesItems(table);
  }

  /** Ranking permutes the table into descending order of fused score;
      entries with equal scores keep their table order, as the sort is
      stable. */
  lemma RankFacts(table: seq<Entry>)
    ensures forall i :: 0 <= i < |table| ==> Rank(table)[i] in table
    ensures forall i, j :: 0 <= i < j < |table| ==> Rank(table)[i].rrf >= Rank(table)[j].rrf
    ensures multiset(Rank(table)) == multiset(table)
    ensures forall v :: WithRrf(Rank(table), v) == WithRrf(table, v)
  {
    var s := SortDesc(RankedEntries(table));
    SortDescFacts(RankedEntries(table));
    SortedKeys(table);
    RankPermutes(table);
    forall v ensures WithRrf(Rank(table), v) == WithRrf(table, v) {
      RankStable(table, v);
    }
  }

  /** The output loop: one dict per ranked entry until `top_k` are in. */
  function Emit(ranked: seq<Entry>, topK: int): (r: seq<Value>)
    ensures |r| == EmitCount(|ranked|, topK)
    ensures forall i :: 0 <= i < |r| ==> r[i] == EntryDict(ranked[i])
  {
    seq(EmitCount(|ranked|, topK), i requires 0 <= i < EmitCount(|ranked|, topK) => EntryDict(ranked[i]))
  }

  /** `select_chunks_core`. */
  function SelectChunksCore(results: seq<seq<Value>>, topK: int, minScore: Option<real>): Result<seq<Value>> {
    var table :- Fused(results, minScore);
    Success(Emit(Rank(table), topK))
  }

  /** The fused table holds each key once, with its fused score (the sum
      of its surviving occurrences' contributions over all lists) and its
      last surviving occurrence; a key none of whose occurrences survives
      the threshold is absent. */
  lemma FusedFacts(results: seq<seq<Value>>, minScore: Option<real>, k: ChunkKey)
    requires Fused(results, minScore).Success?
    ensures var table := Fused(results, minScore).value;
            var lists := ConvertLists(results).value;
            DistinctKeys(table)
            && (k in TableKeys(table) <==> LastDoc(lists, k, minScore).Some?)
            && (k in TableKeys(table) ==> RrfOf(table, k) == FusedScore(lists, k, minScore)
                                          && DocOf(table, k) == LastDoc(lists, k, minScore))
  {
    var lists := ConvertLists(results).value;
    FuseListsFacts([], lists, minScore, k);
    DocOfPresent(Fused(results, minScore).value, k);
  }

  /** `out` is what the output loop emits for `table`: the dicts, with
      their fused scores, of the first entries of a ranking of the table.
      The ranking is a permutation of the table in descending order of fused
      score, keeping table order among equal scores; so no entry left out
      has a higher fused score than one emitted. */
  ghost predicate RankedOutput(out: seq<Value>, table: seq<Entry>, topK: int) {
    var ranked := Rank(table);
    |out| == EmitCount(|table|, topK)
    && (forall i :: 0 <= i < |out| ==> out[i] == EntryDict(ranked[i]))
    && multiset(ranked) == multiset(table)
    && (forall i, j :: 0 <= i < j < |ranked| ==> ranked[i].rrf >= ranked[j].rrf)
    && (forall v :: WithRrf(ranked, v) == WithRrf(table, v))
    && (forall e :: e in table && e !in ranked[..|out|] ==>
          forall i :: 0 <= i < |out| ==> ranked[i].rrf >= e.rrf)
  }

  /** The output loop emits at most `top_k` dicts, and exactly one when
      `top_k` is not positive and the table is not empty (the test follows
      the append): the best-scored entries of the table, as
      `RankedOutput` states. */
  lemma EmitFacts(table: seq<Entry>, topK: int)
    ensures var out := Emit(Rank(table), topK);
            (topK >= 1 ==> |out| <= topK)
            && (topK < 1 && |table| > 0 ==> |out| == 1)
            && RankedOutput(out, table, topK)
  {
    RankFacts(table);
    var ranked := Rank(table);
    var out := Emit(ranked, topK);
    forall e | e in table && e !in ranked[..|out|]
      ensures forall i :: 0 <= i < |out| ==> ranked[i].rrf >= e.rrf
    {
      assert e in multiset(ranked);
      var j :| 0 <= j < |ranked| && ranked[j] == e;
      assert j >= |out|;
    }
  }

  /** `select_chunks_core` fails exactly when the conversion or the fusion
      does, and otherwise emits at most `top_k` dicts (one when `top_k` is
      not positive), the best-scored entries of the fused table. */
  lemma SelectChunksCoreFacts(results: seq<seq<Value>>, topK: int, minScore: Option<real>, r: Result<seq<Value>>)
    requires r == SelectChunksCore(results, topK, minScore)
    ensures r.Success? <==> Fused(results, minScore).Success?
    ensures r.Success? ==>
              var table := Fused(results, minScore).value;
              (topK >= 1 ==> |r.value| <= topK)
              && (topK < 1 && |table| > 0 ==> |r.value| == 1)
              && RankedOutput(r.value, table, topK)
  {
    if r.Success? {
      EmitFacts(Fused(results, minScore).value, topK);
    }
  }

  /** The fused score of a chunk that tops two lists and survives: 2/61. */
  lemma TwoFirstPlaces(d: Document)
    ensures FuseLists([], [[d], [d]], None) == Success([Entry(KeyOf(d), 2.0 / 61.0, d)])
  {
    assert [[d], [d]][1..] == [[d]];
    assert [d][1..] == [];
    assert SortByScore([d]) == Success([d]);
    assert Contribution(1) == 1.0 / 61.0;
    assert Add([], d, Contribution(1)) == [Entry(KeyOf(d), 1.0 / 61.0, d)];
    assert FuseList([], [d], 1, None) == Success([Entry(KeyOf(d), 1.0 / 61.0, d)]);
    assert Add([Entry(KeyOf(d), 1.0 / 61.0, d)], d, 1.0 / 61.0) == [Entry(KeyOf(d), 2.0 / 61.0, d)];
    assert FuseList([Entry(KeyOf(d), 1.0 / 61.0, d)], [d], 1, None) == Success([Entry(KeyOf(d), 2.0 / 61.0, d)]);
    assert FuseLists([Entry(KeyOf(d), 2.0 / 61.0, d)], [], None) == Success([Entry(KeyOf(d), 2.0 / 61.0, d)]);
    assert FuseLists([Entry(KeyOf(d), 1.0 / 61.0, d)], [[d]], None) == Success([Entry(KeyOf(d), 2.0 / 61.0, d)]);
  }

  // ===========================================================================
  // The loops
  // ===========================================================================

  /** The inner loop: `for [rank, chunk] in enumerate(sorted_chunks, start=1)`. */
  method FuseListMethod(table0: seq<Entry>, sorted: seq<Document>, minScore: Option<real>) returns (r: Result<seq<Entry>>)
    ensures r == FuseList(table0, sorted, 1, minScore)
  {
    var table := table0;
    for i := 0 to |sorted|
      invariant FuseList(table, sorted[i..], i + 1, minScore) == FuseList(table0, sorted, 1, minScore)
    {
      assert sorted[i..][1..] == sorted[i + 1..];
      var chunk := sorted[i];
      if MinTruthy(minScore) {
        if chunk.score.None? {
          return Failure(TypeMismatch);
        }
        if chunk.score.value < minScore.value {
          continue;
        }
      }
      table := Add(table, chunk, Contribution(i + 1));
    }
    r := Success(table);
  }

  /** The outer loop over the lists. */
  method FuseListsMethod(lists: seq<seq<Document>>, minScore: Option<real>) returns (r: Result<seq<Entry>>)
    ensures r == FuseLists([], lists, minScore)
  {
    var table: seq<Entry> := [];
    for i := 0 to |lists|
      invariant FuseLists(table, lists[i..], minScore) == FuseLists([], lists, minScore)
    {
      assert lists[i..][1..] == lists[i + 1..];
      var sorted := SortByScore(lists[i]);
      if sorted.Failure? {
        return Failure(sorted.error);
      }
      var t := FuseListMethod(table, sorted.value, minScore);
      if t.Failure? {
        return Failure(t.error);
      }
      table := t.value;
    }
    r := Success(table);
  }

  /** `select_chunks_core`: convert, fuse, rank, and append dicts until
      `top_k` are in. */
  method SelectChunksCoreMethod(results: seq<seq<Value>>, topK: int, minScore: Option<real>) returns (r: Result<seq<Value>>)
    ensures r == SelectChunksCore(results, topK, minScore)
  {
    var lists := ResultsListToDocsList(results);
    if lists.Failure? {
      return Failure(lists.error);
    }
    var fused := FuseListsMethod(lists.value, minScore);
    if fused.Failure? {
      return Failure(fused.error);
    }
    var ranked := Rank(fused.value);
    var out := EmitMethod(ranked, topK);
    r := Success(out);
  }

  /** The output loop, with its `break` once `top_k` dicts are in. */
  method EmitMethod(ranked: seq<Entry>, topK: int) returns (out: seq<Value>)
    ensures out == Emit(ranked, topK)
  {
    out := [];
    for i := 0 to |ranked|
      invariant out == Emit(ranked[..i], topK) && |out| == i
      invariant i > 0 ==> i < topK
    {
      out := out + [EntryDict(ranked[i])];
      if |out| >= topK {
        assert out == Emit(ranked[..i + 1], topK);
        return;
      }
    }
    assert ranked[..|ranked|] == ranked;
  }
}
