/** Sequence facts shared by the cleaning and feature code: counting occurrences,
    keeping first occurrences (pandas `drop_duplicates`, the `seen`-set loop of
    `_row_keywords`), filtering, flattening, and subsequence witnesses. */
module Collections {

  /** Number of times `x` occurs in `s` (Python's `list.count`). */
  function Occurrences<T(==)>(s: seq<T>, x: T): (n: nat)
    ensures n <= |s|
    ensures n > 0 <==> x in s
  {
    if s == [] then 0
    else
      assert s == s[..|s| - 1] + [s[|s| - 1]];
      Occurrences(s[..|s| - 1], x) + if s[|s| - 1] == x then 1 else 0
  }

  lemma {:induction false} OccurrencesAppend<T>(a: seq<T>, b: seq<T>, x: T)
    ensures Occurrences(a + b, x) == Occurrences(a, x) + Occurrences(b, x)
    decreases |b|
  {
    if b == [] {
      assert a + b == a;
    } else {
      var b' := b[..|b| - 1];
      assert (a + b)[..|a + b| - 1] == a + b';
      OccurrencesAppend(a, b', x);
    }
  }

  predicate NoDuplicates<T(==)>(s: seq<T>) {
    forall i, j :: 0 <= i < j < |s| ==> s[i] != s[j]
  }

  /** In a duplicate-free sequence every member occurs exactly once. */
  lemma {:induction false} OccursOnce<T>(s: seq<T>, x: T)
    requires NoDuplicates(s) && x in s
    ensures Occurrences(s, x) == 1
    decreases |s|
  {
    var p := s[..|s| - 1];
    assert s == p + [s[|s| - 1]];
    if s[|s| - 1] == x {
      forall k | 0 <= k < |p| ensures p[k] != x {
        assert s[k] == p[k];
      }
    } else {
      assert x in p;
      assert NoDuplicates(p) by {
        forall i, j | 0 <= i < j < |p| ensures p[i] != p[j] {
          assert s[i] == p[i] && s[j] == p[j];
        }
      }
      OccursOnce(p, x);
    }
  }

  /** Index of the first occurrence of `x` in `s` (Python's `list.index`). */
  function FirstIndex<T(==)>(s: seq<T>, x: T): (k: nat)
    requires x in s
    ensures k < |s| && s[k] == x && x !in s[..k]
    decreases |s|
  {
    var p := s[..|s| - 1];
    assert s == p + [s[|s| - 1]];
    if x in p then
      var k := FirstIndex(p, x);
      assert s[..k] == p[..k];
      k
    else |s| - 1
  }

  /** Appending to a sequence does not move the first occurrence of a member. */
  lemma FirstIndexAppend<T>(s: seq<T>, y: T, x: T)
    requires x in s
    ensures FirstIndex(s + [y], x) == FirstIndex(s, x)
  {
    assert (s + [y])[..|s + [y]| - 1] == s;
  }

  /** The elements of `s` satisfying `keep`, each taken once, at its first
      occurrence: the loop `for x in s: if keep(x) and x not in seen: ...`. */
  function FirstOccurrences<T(==)>(s: seq<T>, keep: T -> bool): (r: seq<T>)
    ensures NoDuplicates(r)
    ensures forall i :: 0 <= i < |r| ==> r[i] in s && keep(r[i])
    ensures forall i :: 0 <= i < |s| && keep(s[i]) ==> s[i] in r
    decreases |s|
  {
    if s == [] then []
    else
      var p := s[..|s| - 1];
      var x := s[|s| - 1];
      assert s == p + [x];
      var r := FirstOccurrences(p, keep);
      if keep(x) && x !in r then r + [x] else r
  }

  /** Members kept by `FirstOccurrences` appear in the order of their first
      occurrence in the input. */
  lemma {:induction false} FirstOccurrencesOrder<T>(s: seq<T>, keep: T -> bool)
    ensures forall i, j :: 0 <= i < j < |FirstOccurrences(s, keep)| ==>
      FirstIndex(s, FirstOccurrences(s, keep)[i]) < FirstIndex(s, FirstOccurrences(s, keep)[j])
    decreases |s|
  {
    if s != [] {
      var p := s[..|s| - 1];
      var x := s[|s| - 1];
      assert s == p + [x];
      FirstOccurrencesOrder(p, keep);
      var rp := FirstOccurrences(p, keep);
      var r := FirstOccurrences(s, keep);
      assert r == if keep(x) && x !in rp then rp + [x] else rp;
      forall i, j | 0 <= i < j < |r| ensures FirstIndex(s, r[i]) < FirstIndex(s, r[j]) {
        assert r[i] == rp[i] && rp[i] in p;
        FirstIndexAppend(p, x, r[i]);
        if j < |rp| {
          assert r[j] == rp[j] && rp[j] in p;
          FirstIndexAppend(p, x, r[j]);
        } else {
          assert r[j] == x && x !in p;
          assert forall m :: 0 <= m < |p| ==> s[m] == p[m];
          assert FirstIndex(s, x) == |p|;
        }
      }
    }
  }

  /** Every position of `r` holds the first occurrence of its value in `s`, at
      strictly increasing positions: `r` is a subsequence of `s` picked at first
      occurrences. */
  lemma FirstOccurrencesSubsequence<T>(s: seq<T>, keep: T -> bool)
    ensures IsSubsequenceAt(FirstOccurrences(s, keep), s, FirstPositions(FirstOccurrences(s, keep), s))
  {
    FirstOccurrencesOrder(s, keep);
  }

  /** The first-occurrence position in `s` of each member of `r`. */
  function FirstPositions<T(==)>(r: seq<T>, s: seq<T>): (at: seq<nat>)
    requires forall i :: 0 <= i < |r| ==> r[i] in s
    ensures |at| == |r|
  {
    seq(|r|, i requires 0 <= i < |r| => FirstIndex(s, r[i]))
  }

  /** `r` sits inside `s` at the strictly increasing positions `at`. */
  predicate IsSubsequenceAt<T(==)>(r: seq<T>, s: seq<T>, at: seq<nat>) {
    |at| == |r|
    && (forall i :: 0 <= i < |r| ==> at[i] < |s| && s[at[i]] == r[i])
    && (forall i, j :: 0 <= i < j < |r| ==> at[i] < at[j])
  }

  /** Pandas' `drop_duplicates()` with its default `keep="first"`. */
  function Dedup<T(==)>(s: seq<T>): seq<T> {
    FirstOccurrences(s, _ => true)
  }

  /** Number of positions whose value already occurred earlier
      (`len(df[df.duplicated()])`). */
  function DuplicateCount<T(==)>(s: seq<T>): nat
    decreases |s|
  {
    if s == [] then 0
    else DuplicateCount(s[..|s| - 1]) + if s[|s| - 1] in s[..|s| - 1] then 1 else 0
  }

  /** Deduplication removes exactly the positions `duplicated()` marks, keeps
      each distinct value once, and keeps first-occurrence order. */
  lemma {:induction false} DedupSpec<T>(s: seq<T>)
    ensures |Dedup(s)| == |s| - DuplicateCount(s)
    ensures forall x :: x in s ==> Occurrences(Dedup(s), x) == 1
    ensures forall x :: x in Dedup(s) <==> x in s
    ensures forall i, j :: 0 <= i < j < |Dedup(s)| ==> FirstIndex(s, Dedup(s)[i]) < FirstIndex(s, Dedup(s)[j])
    decreases |s|
  {
    FirstOccurrencesOrder(s, _ => true);
    forall x | x in s ensures Occurrences(Dedup(s), x) == 1 {
      OccursOnce(Dedup(s), x);
    }
    if s != [] {
      DedupSpec(s[..|s| - 1]);
    }
  }

  /** The elements of `s` satisfying `keep`, in order (a list comprehension
      `[x for x in s if keep(x)]`). */
  function Select<T>(s: seq<T>, keep: T -> bool): (r: seq<T>)
    ensures |r| <= |s|
    ensures forall i :: 0 <= i < |r| ==> r[i] in s && keep(r[i])
    decreases |s|
  {
    if s == [] then []
    else
      var p := s[..|s| - 1];
      assert s == p + [s[|s| - 1]];
      Select(p, keep) + if keep(s[|s| - 1]) then [s[|s| - 1]] else []
  }

  /** Positions in `s` of the elements `Select` keeps. */
  function SelectPositions<T>(s: seq<T>, keep: T -> bool): (at: seq<nat>)
    ensures forall k :: k in at <==> 0 <= k < |s| && keep(s[k])
    decreases |s|
  {
    if s == [] then []
    else
      var p := s[..|s| - 1];
      assert forall k :: 0 <= k < |p| ==> p[k] == s[k];
      SelectPositions(p, keep) + if keep(s[|s| - 1]) then [|s| - 1] else []
  }

  /** A filter keeps order: its result is a subsequence of its input, and it
      drops only rejected elements. */
  lemma {:induction false} SelectSubsequence<T>(s: seq<T>, keep: T -> bool)
    ensures IsSubsequenceAt(Select(s, keep), s, SelectPositions(s, keep))
    decreases |s|
  {
    if s != [] {
      var p, x := s[..|s| - 1], s[|s| - 1];
      assert s == p + [x];
      SelectSubsequence(p, keep);
      SubsequenceExtend(Select(p, keep), p, SelectPositions(p, keep), x, keep(x));
    }
  }

  /** Extending the input by `x`, and the result too when `x` is taken, keeps
      the subsequence relation. */
  lemma SubsequenceExtend<T>(r: seq<T>, p: seq<T>, at: seq<nat>, x: T, take: bool)
    requires IsSubsequenceAt(r, p, at)
    ensures IsSubsequenceAt(if take then r + [x] else r, p + [x], if take then at + [|p|] else at)
  {
    var s := p + [x];
    var r', at' := if take then r + [x] else r, if take then at + [|p|] else at;
    forall i | 0 <= i < |r'| ensures at'[i] < |s| && s[at'[i]] == r'[i] {
      if i < |r| {
        assert at'[i] == at[i] && r'[i] == r[i] && p[at[i]] == s[at[i]];
      }
    }
    forall i, j | 0 <= i < j < |r'| ensures at'[i] < at'[j] {
      if j < |r| {
        assert at'[i] == at[i] && at'[j] == at[j];
      } else {
        assert at'[i] == at[i] < |p|;
      }
    }
  }

  /** A filter drops only the elements it rejects: every copy of a kept
      value stays, and no copy of a rejected one. */
  lemma {:induction false} SelectKeeps<T>(s: seq<T>, keep: T -> bool)
    ensures forall i :: 0 <= i < |s| && keep(s[i]) ==> s[i] in Select(s, keep)
    ensures forall x :: Occurrences(Select(s, keep), x) == if keep(x) then Occurrences(s, x) else 0
    decreases |s|
  {
    if s != [] {
      var p := s[..|s| - 1];
      SelectKeeps(p, keep);
      forall x ensures Occurrences(Select(s, keep), x) == if keep(x) then Occurrences(s, x) else 0 {
        OccurrencesAppend(Select(p, keep), if keep(s[|s| - 1]) then [s[|s| - 1]] else [], x);
      }
      forall i | 0 <= i < |s| && keep(s[i]) ensures s[i] in Select(s, keep) {
        if i < |p| {
          assert p[i] == s[i];
        }
      }
    }
  }

  /** A filter that rejects nothing returns its input. */
  lemma {:induction false} SelectAll<T>(s: seq<T>, keep: T -> bool)
    requires forall x :: x in s ==> keep(x)
    ensures Select(s, keep) == s
    decreases |s|
  {
    if s != [] {
      var p := s[..|s| - 1];
      assert s == p + [s[|s| - 1]];
      SelectAll(p, keep);
    }
  }

  /** Concatenation of a list of lists (`[x for xs in ss for x in xs]`). */
  function Flatten<T>(ss: seq<seq<T>>): (r: seq<T>)
    ensures forall i, j :: 0 <= i < |ss| && 0 <= j < |ss[i]| ==> ss[i][j] in r
    decreases |ss|
  {
    if ss == [] then []
    else
      var p := ss[..|ss| - 1];
      assert ss == p + [ss[|ss| - 1]];
      Flatten(p) + ss[|ss| - 1]
  }

  /** Every element of a concatenation comes from one of the lists. */
  lemma {:induction false} FlattenMember<T>(ss: seq<seq<T>>, x: T)
    requires x in Flatten(ss)
    ensures exists i :: 0 <= i < |ss| && x in ss[i]
    decreases |ss|
  {
    var p := ss[..|ss| - 1];
    if x in Flatten(p) {
      FlattenMember(p, x);
      var i :| 0 <= i < |p| && x in p[i];
      assert ss[i] == p[i];
    } else {
      assert x in ss[|ss| - 1];
    }
  }

  lemma FlattenPrefix<T>(ss: seq<seq<T>>, i: nat)
    requires i < |ss|
    ensures Flatten(ss[..i + 1]) == Flatten(ss[..i]) + ss[i]
  {
    assert ss[..i + 1][..i] == ss[..i];
  }

  /** Number of lists in `ss` that contain `x`. */
  function ListsContaining<T(==)>(ss: seq<seq<T>>, x: T): nat
    decreases |ss|
  {
    if ss == [] then 0
    else ListsContaining(ss[..|ss| - 1], x) + if x in ss[|ss| - 1] then 1 else 0
  }

  /** When no list repeats an element, the occurrences of `x` in the
      concatenation are the number of lists that contain `x`. */
  lemma {:induction false} FlattenOccurrences<T>(ss: seq<seq<T>>, x: T)
    requires forall i :: 0 <= i < |ss| ==> NoDuplicates(ss[i])
    ensures Occurrences(Flatten(ss), x) == ListsContaining(ss, x)
    decreases |ss|
  {
    if ss != [] {
      var p := ss[..|ss| - 1];
      var last := ss[|ss| - 1];
      FlattenOccurrences(p, x);
      OccurrencesAppend(Flatten(p), last, x);
      if x in last {
        OccursOnce(last, x);
      }
    }
  }
}
