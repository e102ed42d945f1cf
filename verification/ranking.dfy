/** Python's `sorted(..., key=..., reverse=True)` and `xs[:k]`, as used by
    every ranking step of ragcore: a stable sort by a real key, largest key
    first, and a slice with Python's treatment of negative bounds. */
module Ranking {

  /** An element paired with the key it is ranked by. */
  datatype Ranked<T> = Ranked(item: T, key: real)

  /** Largest key first. */
  ghost predicate Descending<T>(xs: seq<Ranked<T>>) {
    forall i, j :: 0 <= i < j < |xs| ==> xs[i].key >= xs[j].key
  }

  /** The elements of `xs` whose key is `k`, in order. */
  function WithKey<T>(xs: seq<Ranked<T>>, k: real): (r: seq<Ranked<T>>)
    ensures |r| <= |xs|
  {
    if xs == [] then []
    else (if xs[0].key == k then [xs[0]] else []) + WithKey(xs[1..], k)
  }

  /** `x` placed before the first element whose key is not larger than its
      own: after every larger key and before every equal one. */
  function Insert<T>(x: Ranked<T>, ys: seq<Ranked<T>>): (r: seq<Ranked<T>>)
    ensures |r| == |ys| + 1
  {
    if ys == [] || ys[0].key <= x.key then [x] + ys
    else [ys[0]] + Insert(x, ys[1..])
  }

  /** `sorted(xs, key=..., reverse=True)`: each element inserted into the
      sorted rest, so an element precedes the later ones with an equal key. */
  function SortDesc<T>(xs: seq<Ranked<T>>): (r: seq<Ranked<T>>)
    ensures |r| == |xs|
  {
    if xs == [] then [] else Insert(xs[0], SortDesc(xs[1..]))
  }

  lemma {:induction false} InsertPermutes<T>(x: Ranked<T>, ys: seq<Ranked<T>>)
    ensures multiset(Insert(x, ys)) == multiset([x] + ys)
  {
    if ys != [] && ys[0].key > x.key {
      InsertPermutes(x, ys[1..]);
      assert ys == [ys[0]] + ys[1..];
    }
  }

  /** Inserting under a bound every key respects keeps every key under it. */
  lemma {:induction false} InsertBounded<T>(x: Ranked<T>, ys: seq<Ranked<T>>, b: real)
    requires x.key <= b
    requires forall i :: 0 <= i < |ys| ==> ys[i].key <= b
    ensures forall i :: 0 <= i < |Insert(x, ys)| ==> Insert(x, ys)[i].key <= b
  {
    if ys != [] && ys[0].key > x.key {
      InsertBounded(x, ys[1..], b);
    }
  }

  lemma {:induction false} InsertDescending<T>(x: Ranked<T>, ys: seq<Ranked<T>>)
    requires Descending(ys)
    ensures Descending(Insert(x, ys))
  {
    if ys != [] && ys[0].key > x.key {
      var r := Insert(x, ys[1..]);
      InsertDescending(x, ys[1..]);
      InsertBounded(x, ys[1..], ys[0].key);
      var s := [ys[0]] + r;
      forall i, j | 0 <= i < j < |s| ensures s[i].key >= s[j].key {
        if i > 0 {
          assert s[i] == r[i - 1] && s[j] == r[j - 1];
        }
      }
    }
  }

  lemma {:induction false} InsertWithKey<T>(x: Ranked<T>, ys: seq<Ranked<T>>, k: real)
    ensures WithKey(Insert(x, ys), k) == WithKey([x] + ys, k)
  {
    if ys != [] && ys[0].key > x.key {
      InsertWithKey(x, ys[1..], k);
      assert ([x] + ys)[1..] == ys;
      assert ([x] + ys[1..])[1..] == ys[1..];
      assert ([ys[0]] + Insert(x, ys[1..]))[1..] == Insert(x, ys[1..]);
    }
  }

  /** The sort is a permutation whose keys descend and which keeps the
      input order among elements of equal key (it is stable). */
  lemma {:induction false} SortDescFacts<T>(xs: seq<Ranked<T>>)
    ensures Descending(SortDesc(xs))
    ensures multiset(SortDesc(xs)) == multiset(xs)
    ensures forall k :: WithKey(SortDesc(xs), k) == WithKey(xs, k)
  {
    if xs != [] {
      SortDescFacts(xs[1..]);
      InsertDescending(xs[0], SortDesc(xs[1..]));
      InsertPermutes(xs[0], SortDesc(xs[1..]));
      assert xs == [xs[0]] + xs[1..];
      forall k ensures WithKey(SortDesc(xs), k) == WithKey(xs, k) {
        InsertWithKey(xs[0], SortDesc(xs[1..]), k);
        assert ([xs[0]] + SortDesc(xs[1..]))[1..] == SortDesc(xs[1..]);
      }
    }
  }

  /** Sorting a list that is already sorted changes nothing, so sorting
      twice is sorting once. */
  lemma {:induction false} SortDescSorted<T>(xs: seq<Ranked<T>>)
    requires Descending(xs)
    ensures SortDesc(xs) == xs
  {
    if xs != [] {
      SortDescSorted(xs[1..]);
      assert xs == [xs[0]] + xs[1..];
    }
  }

  lemma SortDescIdempotent<T>(xs: seq<Ranked<T>>)
    ensures SortDesc(SortDesc(xs)) == SortDesc(xs)
  {
    SortDescFacts(xs);
    SortDescSorted(SortDesc(xs));
  }

  /** The number of elements `xs[:k]` keeps. */
  function TakeCount(n: nat, k: int): (m: nat)
    ensures m <= n
    ensures k >= 0 ==> m == if k < n then k else n
    ensures k < 0 ==> m == if n + k > 0 then n + k else 0
  {
    if k >= 0 then (if k < n then k else n)
    else if n + k > 0 then n + k else 0
  }

  /** `xs[:k]`: the first `k` elements, or all but the last `-k` when `k` is
      negative. */
  function PyTake<T>(xs: seq<T>, k: int): (r: seq<T>)
    ensures r == xs[..TakeCount(|xs|, k)]
  {
    xs[..TakeCount(|xs|, k)]
  }

  /** The keys of a ranked list. */
  function KeysOf<T>(xs: seq<Ranked<T>>): (r: seq<real>)
    ensures |r| == |xs| && forall i :: 0 <= i < |xs| ==> r[i] == xs[i].key
  {
    seq(|xs|, i requires 0 <= i < |xs| => xs[i].key)
  }

  /** The items of a ranked list. */
  function ItemsOf<T>(xs: seq<Ranked<T>>): (r: seq<T>)
    ensures |r| == |xs| && forall i :: 0 <= i < |xs| ==> r[i] == xs[i].item
  {
    seq(|xs|, i requires 0 <= i < |xs| => xs[i].item)
  }

  lemma ItemsOfCons<T>(x: Ranked<T>, ys: seq<Ranked<T>>)
    ensures ItemsOf([x] + ys) == [x.item] + ItemsOf(ys)
  {
    var l, r := ItemsOf([x] + ys), [x.item] + ItemsOf(ys);
    assert |l| == |r|;
    forall i | 0 <= i < |l| ensures l[i] == r[i] {
      if i > 0 {
        assert ([x] + ys)[i] == ys[i - 1];
      }
    }
  }

  lemma {:induction false} InsertItems<T>(x: Ranked<T>, ys: seq<Ranked<T>>)
    ensures multiset(ItemsOf(Insert(x, ys))) == multiset([x.item] + ItemsOf(ys))
  {
    if ys == [] || ys[0].key <= x.key {
      ItemsOfCons(x, ys);
    } else {
      InsertItems(x, ys[1..]);
      ItemsOfCons(ys[0], Insert(x, ys[1..]));
      ItemsOfCons(ys[0], ys[1..]);
      assert [ys[0]] + ys[1..] == ys;
    }
  }

  /** Sorting permutes the items. */
  lemma {:induction false} SortDescItems<T>(xs: seq<Ranked<T>>)
    ensures multiset(ItemsOf(SortDesc(xs))) == multiset(ItemsOf(xs))
  {
    if xs != [] {
      SortDescItems(xs[1..]);
      InsertItems(xs[0], SortDesc(xs[1..]));
      ItemsOfCons(xs[0], xs[1..]);
      assert [xs[0]] + xs[1..] == xs;
    }
  }

  /** `sorted(xs, reverse=True)[:k]` keeps a best part of `xs`: what is
      kept, followed by what is dropped, is a permutation of `xs`; the kept
      keys descend; and no dropped element has a larger key than a kept one. */
  lemma TopFacts<T>(xs: seq<Ranked<T>>, k: int)
    ensures var s := SortDesc(xs); var top := PyTake(s, k);
            multiset(top + s[|top|..]) == multiset(xs)
            && Descending(top)
            && forall i, j :: 0 <= i < |top| <= j < |s| ==> top[i].key >= s[j].key
  {
    var s := SortDesc(xs);
    var top := PyTake(s, k);
    SortDescFacts(xs);
    assert top + s[|top|..] == s;
  }

  /** `top` is a best part of `xs`, largest key first: it takes each
      element of `xs` at most as often as `xs` holds it, and no element it
      leaves out has a larger key than one it takes. */
  ghost predicate BestOf<T>(top: seq<Ranked<T>>, xs: seq<Ranked<T>>) {
    multiset(top) <= multiset(xs)
    && Descending(top)
    && forall x :: x in multiset(xs) - multiset(top) ==> forall i :: 0 <= i < |top| ==> top[i].key >= x.key
  }

  /** The cut of the sorted list is a best part of the list. */
  lemma TopBest<T>(xs: seq<Ranked<T>>, k: int)
    ensures BestOf(PyTake(SortDesc(xs), k), xs)
  {
    var s := SortDesc(xs);
    var top := PyTake(s, k);
    var rest := s[|top|..];
    TopFacts(xs, k);
    assert multiset(xs) - multiset(top) == multiset(rest);
    forall x | x in multiset(xs) - multiset(top)
      ensures forall i :: 0 <= i < |top| ==> top[i].key >= x.key
    {
      var j :| 0 <= j < |rest| && rest[j] == x;
      assert s[|top| + j] == x;
    }
  }

  /** What the cut keeps comes from the list, key and all. */
  lemma TopFrom<T>(xs: seq<Ranked<T>>, topK: int, i: nat)
    requires i < |PyTake(SortDesc(xs), topK)|
    ensures PyTake(SortDesc(xs), topK)[i] in xs
  {
    SortDescFacts(xs);
    assert SortDesc(xs)[i] in multiset(xs);
  }

  /** An element of the list that the cut drops has a key no larger than
      any that it keeps. */
  lemma TopDropped<T>(xs: seq<Ranked<T>>, topK: int, x: Ranked<T>)
    requires x in xs && x !in PyTake(SortDesc(xs), topK)
    ensures forall i :: 0 <= i < |PyTake(SortDesc(xs), topK)| ==> PyTake(SortDesc(xs), topK)[i].key >= x.key
  {
    var s := SortDesc(xs);
    var top := PyTake(s, topK);
    SortDescFacts(xs);
    TopFacts(xs, topK);
    assert x in multiset(s);
    var j :| 0 <= j < |s| && s[j] == x;
    assert j >= |top|;
  }

  /** A stable sort is determined: two lists of keys 3, 5, 5 come out with
      both 5s first, in their original order. */
  lemma SortDescExample()
    ensures SortDesc([Ranked("a", 3.0), Ranked("b", 5.0), Ranked("c", 5.0)])
      == [Ranked("b", 5.0), Ranked("c", 5.0), Ranked("a", 3.0)]
  {
    var xs := [Ranked("a", 3.0), Ranked("b", 5.0), Ranked("c", 5.0)];
    assert xs[1..][1..] == [Ranked("c", 5.0)];
    assert SortDesc(xs[1..][1..]) == [Ranked("c", 5.0)];
    assert SortDesc(xs[1..]) == [Ranked("b", 5.0), Ranked("c", 5.0)];
  }
}
