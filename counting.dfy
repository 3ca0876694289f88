/** Python's `collections.Counter` over words: an insertion-ordered dictionary
    from word to count, its `update`, and `most_common(n)`. */
module Counting {
  import opened Collections

  /** The keys in insertion order (first encounter) and the count of each. */
  datatype Counter = Counter(keys: seq<string>, counts: map<string, nat>)

  const Empty := Counter([], map[])

  /** `counter[w]`: a missing word counts 0. */
  function Count(c: Counter, w: string): nat {
    if w in c.counts then c.counts[w] else 0
  }

  /** One step of `update`: increment an existing key in place, or append a
      new key with count 1. */
  function Add(c: Counter, w: string): Counter {
    if w in c.counts then Counter(c.keys, c.counts[w := c.counts[w] + 1])
    else Counter(c.keys + [w], c.counts[w := 1])
  }

  /** `counter.update(words)`. */
  function Update(c: Counter, words: seq<string>): Counter
    decreases |words|
  {
    if words == [] then c else Add(Update(c, words[..|words| - 1]), words[|words| - 1])
  }

  /** `Counter(words)`. */
  function Tally(words: seq<string>): Counter {
    Update(Empty, words)
  }

  /** `counter.items()` in dictionary order. */
  function Items(c: Counter): (items: seq<(string, nat)>)
    ensures |items| == |c.keys|
  {
    seq(|c.keys|, i requires 0 <= i < |c.keys| => (c.keys[i], Count(c, c.keys[i])))
  }

  /** Updating with two lists in turn is updating with their concatenation. */
  lemma {:induction false} UpdateAppend(c: Counter, a: seq<string>, b: seq<string>)
    ensures Update(c, a + b) == Update(Update(c, a), b)
    decreases |b|
  {
    if b == [] {
      assert a + b == a;
    } else {
      assert (a + b)[..|a + b| - 1] == a + b[..|b| - 1];
      UpdateAppend(c, a, b[..|b| - 1]);
    }
  }

  /** `Counter(words)` holds each distinct word once, in order of first
      encounter, with its exact number of occurrences. */
  lemma {:induction false} TallySpec(words: seq<string>)
    ensures Tally(words).keys == Dedup(words)
    ensures forall w :: w in Tally(words).counts <==> w in words
    ensures forall w :: Count(Tally(words), w) == Occurrences(words, w)
    decreases |words|
  {
    if words != [] {
      var p, x := words[..|words| - 1], words[|words| - 1];
      assert words == p + [x];
      TallySpec(p);
      DedupSpec(p);
    }
  }

  /** The ranking used by `most_common`: a larger count first, and between
      equal counts the earlier item first (Python's sort is stable). */
  predicate Before(items: seq<(string, nat)>, i: nat, j: nat) {
    i < |items| && j < |items| &&
    (items[i].1 > items[j].1 || (items[i].1 == items[j].1 && i < j))
  }

  /** The positions `order` are in ranking order. */
  predicate Ranked(items: seq<(string, nat)>, order: seq<nat>) {
    forall p, q :: 0 <= p < q < |order| ==> Before(items, order[p], order[q])
  }

  /** Insert position `k` into a ranked list of positions. */
  function Insert(items: seq<(string, nat)>, k: nat, order: seq<nat>): (r: seq<nat>)
    ensures |r| == |order| + 1
    ensures forall x :: x in r <==> x == k || x in order
    ensures forall i :: 0 <= i < |r| ==> r[i] == k || r[i] in order
    decreases |order|
  {
    if order == [] then [k]
    else if Before(items, k, order[0]) then [k] + order
    else [order[0]] + Insert(items, k, order[1..])
  }

  lemma {:induction false} InsertRanked(items: seq<(string, nat)>, k: nat, order: seq<nat>)
    requires k < |items| && k !in order
    requires forall x :: x in order ==> x < |items|
    requires Ranked(items, order)
    ensures Ranked(items, Insert(items, k, order))
    decreases |order|
  {
    if order != [] && !Before(items, k, order[0]) {
      var rest := order[1..];
      assert Ranked(items, rest) by {
        forall p, q | 0 <= p < q < |rest| ensures Before(items, rest[p], rest[q]) {
          assert rest[p] == order[p + 1] && rest[q] == order[q + 1];
        }
      }
      InsertRanked(items, k, rest);
      var r := Insert(items, k, order);
      var ins := Insert(items, k, rest);
      assert r == [order[0]] + ins;
      assert order[0] in order;
      forall q | 0 <= q < |ins| ensures Before(items, order[0], ins[q]) {
        assert ins[q] in ins;
        if ins[q] != k {
          assert ins[q] in rest;
          var m :| 0 <= m < |rest| && rest[m] == ins[q];
          assert order[m + 1] == ins[q];
        }
      }
      forall p, q | 0 <= p < q < |r| ensures Before(items, r[p], r[q]) {
        if p > 0 {
          assert r[p] == ins[p - 1] && r[q] == ins[q - 1];
        } else {
          assert r[q] == ins[q - 1];
        }
      }
    }
  }

  /** The positions 0..m-1 of `items`, in ranking order (insertion sort). */
  function Ranking(items: seq<(string, nat)>, m: nat): (order: seq<nat>)
    requires m <= |items|
    ensures |order| == m
    ensures forall x: int :: x in order <==> 0 <= x < m
  {
    if m == 0 then [] else Insert(items, m - 1, Ranking(items, m - 1))
  }

  lemma {:induction false} RankingRanked(items: seq<(string, nat)>, m: nat)
    requires m <= |items|
    ensures Ranked(items, Ranking(items, m))
  {
    if m > 0 {
      RankingRanked(items, m - 1);
      InsertRanked(items, m - 1, Ranking(items, m - 1));
    }
  }

  function Min(a: nat, b: nat): nat {
    if a < b then a else b
  }

  /** The positions of the items `most_common(n)` returns, best first. */
  function TopPositions(items: seq<(string, nat)>, n: nat): (top: seq<nat>)
    ensures |top| == Min(n, |items|)
    ensures forall p :: 0 <= p < |top| ==> top[p] < |items|
  {
    var order := Ranking(items, |items|);
    var top := order[..Min(n, |items|)];
    assert forall p :: 0 <= p < |top| ==> top[p] in order;
    top
  }

  /** `most_common(n)`: the items by count, highest first, ties in insertion
      order, cut to the first `n`. */
  function MostCommon(items: seq<(string, nat)>, n: nat): (r: seq<(string, nat)>)
    ensures |r| == Min(n, |items|)
  {
    var top := TopPositions(items, n);
    seq(|top|, p requires 0 <= p < |top| => items[top[p]])
  }

  /** `most_common(n)` returns the `min(n, len)` best-ranked items in ranking
      order, and every item it leaves out ranks below every item it returns. */
  lemma MostCommonSpec(items: seq<(string, nat)>, n: nat)
    ensures forall p :: 0 <= p < |MostCommon(items, n)| ==>
      MostCommon(items, n)[p] == items[TopPositions(items, n)[p]]
    ensures Ranked(items, TopPositions(items, n))
    ensures forall k, p :: 0 <= k < |items| && k !in TopPositions(items, n) && 0 <= p < |TopPositions(items, n)| ==>
      Before(items, TopPositions(items, n)[p], k)
  {
    var order := Ranking(items, |items|);
    RankingRanked(items, |items|);
    var top := TopPositions(items, n);
    assert top == order[..|top|];
    forall k, p | 0 <= k < |items| && k !in top && 0 <= p < |top| ensures Before(items, top[p], k) {
      assert k in order;
      var q :| 0 <= q < |order| && order[q] == k;
      assert q >= |top|;
    }
  }

  /** Each returned pair is a word of the list with its exact count. */
  predicate ExactCounts(words: seq<string>, r: seq<(string, nat)>) {
    forall p :: 0 <= p < |r| ==> r[p].0 in words && r[p].1 == Occurrences(words, r[p].0)
  }

  predicate NonIncreasing(r: seq<(string, nat)>) {
    forall p, q :: 0 <= p < q < |r| ==> r[p].1 >= r[q].1
  }

  /** Pairs with equal counts keep the order in which their words were first
      met. */
  predicate TiesInFirstEncounterOrder(words: seq<string>, r: seq<(string, nat)>) {
    forall p, q :: 0 <= p < q < |r| && r[p].0 in words && r[q].0 in words && r[p].1 == r[q].1 ==>
      FirstIndex(words, r[p].0) < FirstIndex(words, r[q].0)
  }

  /** A word of the list that was left out ranks below every returned pair. */
  predicate OmittedRankLower(words: seq<string>, r: seq<(string, nat)>) {
    forall w, p :: w in words && w !in Keys(r) && 0 <= p < |r| && r[p].0 in words ==>
      Occurrences(words, w) < r[p].1 ||
      (Occurrences(words, w) == r[p].1 && FirstIndex(words, r[p].0) < FirstIndex(words, w))
  }

  /** Everything `most_common(n)` promises about its result `r` for a word
      list: `min(n, distinct words)` pairs with distinct words, each with its
      exact count, by non-increasing count, ties in first-encounter order, and
      no omitted word ranks above a returned one. */
  predicate IsMostCommon(words: seq<string>, n: nat, r: seq<(string, nat)>) {
    |r| == Min(n, |Dedup(words)|)
    && NoDuplicates(Keys(r))
    && ExactCounts(words, r)
    && NonIncreasing(r)
    && TiesInFirstEncounterOrder(words, r)
    && OmittedRankLower(words, r)
  }

  /** `Counter(words).most_common(n)` meets that description. */
  lemma MostCommonOfTally(words: seq<string>, n: nat)
    ensures IsMostCommon(words, n, MostCommon(Items(Tally(words)), n))
  {
    var items := Items(Tally(words));
    var r := MostCommon(items, n);
    var top := TopPositions(items, n);
    var d := Dedup(words);
    TallyItems(words);
    DedupSpec(words);
    MostCommonSpec(items, n);
    assert forall p :: 0 <= p < |r| ==> r[p] == items[top[p]] && r[p].0 == d[top[p]] && d[top[p]] in d;
    MostCommonOrder(items, r, top, d, words);
    MostCommonOmitted(items, r, top, d, words);
  }

  /** The items of `Counter(words)`: the distinct words in first-encounter
      order, each with its number of occurrences. */
  lemma TallyItems(words: seq<string>)
    ensures |Items(Tally(words))| == |Dedup(words)|
    ensures forall k :: 0 <= k < |Dedup(words)| ==>
      Items(Tally(words))[k] == (Dedup(words)[k], Occurrences(words, Dedup(words)[k]))
  {
    TallySpec(words);
  }

  lemma MostCommonOrder(items: seq<(string, nat)>, r: seq<(string, nat)>, top: seq<nat>, d: seq<string>, words: seq<string>)
    requires |items| == |d| && |r| == |top|
    requires forall k :: 0 <= k < |d| ==> items[k] == (d[k], Occurrences(words, d[k])) && d[k] in words
    requires forall i, j :: 0 <= i < j < |d| ==> FirstIndex(words, d[i]) < FirstIndex(words, d[j])
    requires forall p :: 0 <= p < |r| ==> top[p] < |items| && r[p] == items[top[p]]
    requires Ranked(items, top)
    ensures NoDuplicates(Keys(r)) && ExactCounts(words, r) && NonIncreasing(r)
    ensures TiesInFirstEncounterOrder(words, r)
  {
    forall p, q | 0 <= p < q < |r| ensures Keys(r)[p] != Keys(r)[q] && r[p].1 >= r[q].1 {
      assert Before(items, top[p], top[q]);
      if top[p] < top[q] {
        assert FirstIndex(words, d[top[p]]) < FirstIndex(words, d[top[q]]);
      } else {
        assert FirstIndex(words, d[top[q]]) < FirstIndex(words, d[top[p]]);
      }
    }
    forall p, q | 0 <= p < q < |r| && r[p].0 in words && r[q].0 in words && r[p].1 == r[q].1
      ensures FirstIndex(words, r[p].0) < FirstIndex(words, r[q].0)
    {
      assert Before(items, top[p], top[q]);
    }
  }

  lemma MostCommonOmitted(items: seq<(string, nat)>, r: seq<(string, nat)>, top: seq<nat>, d: seq<string>, words: seq<string>)
    requires |items| == |d| && |r| == |top|
    requires forall k :: 0 <= k < |d| ==> items[k] == (d[k], Occurrences(words, d[k])) && d[k] in words
    requires forall i, j :: 0 <= i < j < |d| ==> FirstIndex(words, d[i]) < FirstIndex(words, d[j])
    requires forall w :: w in words ==> w in d
    requires forall p :: 0 <= p < |r| ==> top[p] < |items| && r[p] == items[top[p]]
    requires forall k, p :: 0 <= k < |items| && k !in top && 0 <= p < |top| ==> Before(items, top[p], k)
    ensures OmittedRankLower(words, r)
  {
    forall w, p | w in words && w !in Keys(r) && 0 <= p < |r| && r[p].0 in words
      ensures Occurrences(words, w) < r[p].1 ||
        (Occurrences(words, w) == r[p].1 && FirstIndex(words, r[p].0) < FirstIndex(words, w))
    {
      var k := FirstIndex(d, w);
      forall p' | 0 <= p' < |top| ensures top[p'] != k {
        assert Keys(r)[p'] == r[p'].0;
      }
      assert k < |items| && k !in top;
      assert Before(items, top[p], k);
      if top[p] < k {
        assert FirstIndex(words, d[top[p]]) < FirstIndex(words, d[k]);
      }
    }
  }

  /** The words of a list of `(word, count)` pairs. */
  function Keys(pairs: seq<(string, nat)>): (ks: seq<string>)
    ensures |ks| == |pairs|
  {
    seq(|pairs|, i requires 0 <= i < |pairs| => pairs[i].0)
  }
}
