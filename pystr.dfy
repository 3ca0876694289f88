/** The Python string operations the pipeline relies on, over ASCII:
    `str.isspace`, `str.lower`, `str.strip()`, `str.split()`, `sep.join` and
    `str.split(", ")`. */
module PyStr {
  import opened Collections

  /** Python's `str.isspace()` on ASCII: tab, line feed, vertical tab, form
      feed, carriage return, the separators 0x1C-0x1F, and space. */
  predicate IsSpace(c: char) {
    9 <= c as int <= 13 || 28 <= c as int <= 32
  }

  predicate NoSpace(s: string) {
    forall i :: 0 <= i < |s| ==> !IsSpace(s[i])
  }

  predicate IsUpper(c: char) {
    'A' <= c <= 'Z'
  }

  function LowerChar(c: char): (d: char)
    ensures !IsUpper(d)
    ensures IsSpace(d) == IsSpace(c)
    ensures IsUpper(c) ==> d as int == c as int + 32
    ensures IsUpper(c) || d == c
  {
    if IsUpper(c) then (c as int + 32) as char else c
  }

  /** Python's `str.lower()` on ASCII letters; other characters are kept. */
  function Lower(s: string): (r: string)
    ensures |r| == |s|
    ensures forall i :: 0 <= i < |s| ==> !IsUpper(r[i]) && IsSpace(r[i]) == IsSpace(s[i])
    ensures forall i :: 0 <= i < |s| && IsUpper(s[i]) ==> r[i] as int == s[i] as int + 32
    ensures forall i :: 0 <= i < |s| && !IsUpper(s[i]) ==> r[i] == s[i]
  {
    seq(|s|, i requires 0 <= i < |s| => LowerChar(s[i]))
  }

  /** Number of whitespace characters at the start of `s`. */
  function LeadingSpaces(s: string): (k: nat)
    ensures k <= |s|
    ensures forall i :: 0 <= i < k ==> IsSpace(s[i])
    ensures k < |s| ==> !IsSpace(s[k])
  {
    if s == [] || !IsSpace(s[0]) then 0 else 1 + LeadingSpaces(s[1..])
  }

  /** Number of whitespace characters at the end of `s`. */
  function TrailingSpaces(s: string): (k: nat)
    ensures k <= |s|
    ensures forall i :: |s| - k <= i < |s| ==> IsSpace(s[i])
    ensures k < |s| ==> !IsSpace(s[|s| - 1 - k])
  {
    if s == [] || !IsSpace(s[|s| - 1]) then 0 else 1 + TrailingSpaces(s[..|s| - 1])
  }

  /** Python's `str.strip()`: the infix of `s` left after removing whitespace
      from both ends. */
  function Strip(s: string): (r: string)
    ensures LeadingSpaces(s) + |r| <= |s|
    ensures r == s[LeadingSpaces(s)..LeadingSpaces(s) + |r|]
    ensures forall i :: LeadingSpaces(s) + |r| <= i < |s| ==> IsSpace(s[i])
    ensures r == [] || (!IsSpace(r[0]) && !IsSpace(r[|r| - 1]))
  {
    var t := s[LeadingSpaces(s)..];
    t[..|t| - TrailingSpaces(t)]
  }

  /** Stripping only changes a string that starts or ends with whitespace, and
      blanks out only strings made entirely of whitespace. */
  lemma StripFacts(s: string)
    ensures Strip(s) == [] <==> forall i :: 0 <= i < |s| ==> IsSpace(s[i])
    ensures s != [] && !IsSpace(s[0]) && !IsSpace(s[|s| - 1]) ==> Strip(s) == s
  {
    var a, r := LeadingSpaces(s), Strip(s);
    if s != [] && !IsSpace(s[0]) && !IsSpace(s[|s| - 1]) {
      assert a == 0;
      assert s[0..|s|] == s;
    }
  }

  /** Length of the run of non-whitespace characters that starts `s`. */
  function WordLength(s: string): (k: nat)
    ensures k <= |s| && NoSpace(s[..k])
    ensures k < |s| ==> IsSpace(s[k])
  {
    if s == [] || IsSpace(s[0]) then 0
    else
      var k := WordLength(s[1..]);
      assert s[..1 + k] == [s[0]] + s[1..][..k];
      1 + k
  }

  /** Python's `str.split()` with no separator: the maximal runs of
      non-whitespace characters of `s`, in order. */
  function Split(s: string): (words: seq<string>)
    ensures forall i :: 0 <= i < |words| ==> words[i] != [] && NoSpace(words[i])
    decreases |s|
  {
    if s == [] then []
    else if IsSpace(s[0]) then Split(s[1..])
    else
      var k := WordLength(s);
      [s[..k]] + Split(s[k..])
  }

  /** Position `k` of `s` starts a word: a non-whitespace character at the
      start of `s` or right after whitespace. */
  predicate IsWordStart(s: string, k: int) {
    0 <= k < |s| && !IsSpace(s[k]) && (k == 0 || IsSpace(s[k - 1]))
  }

  function Shifted(at: seq<nat>, d: nat): (r: seq<nat>)
    ensures |r| == |at| && forall i :: 0 <= i < |at| ==> r[i] == at[i] + d
  {
    seq(|at|, i requires 0 <= i < |at| => at[i] + d)
  }

  /** Where each word of `Split(s)` starts in `s`. */
  function WordStarts(s: string): (at: seq<nat>)
    decreases |s|
  {
    if s == [] then []
    else if IsSpace(s[0]) then Shifted(WordStarts(s[1..]), 1)
    else
      var k := WordLength(s);
      [0] + Shifted(WordStarts(s[k..]), k)
  }

  /** Word starts of `s` past a cut at `d` are those of `s[d..]`, shifted,
      when the cut does not fall inside a word. */
  lemma WordStartAfterCut(s: string, d: nat, j: int)
    requires d <= |s| && (d == 0 || d == |s| || IsSpace(s[d - 1]) || IsSpace(s[d]))
    requires 0 <= j
    ensures IsWordStart(s[d..], j) <==> IsWordStart(s, j + d)
  {
    if j < |s| - d {
      assert s[d..][j] == s[j + d];
      if j > 0 {
        assert s[d..][j - 1] == s[j + d - 1];
      }
    }
  }

  /** Each of `words` sits in `s` at the word start `at[j]`. */
  predicate WordsAt(s: string, words: seq<string>, at: seq<nat>) {
    |at| == |words|
    && forall j :: 0 <= j < |words| ==>
      IsWordStart(s, at[j]) && at[j] + |words[j]| <= |s| && s[at[j]..at[j] + |words[j]|] == words[j]
  }

  /** Each of `words`, placed at `at[j]`, runs up to whitespace or the end. */
  predicate RunsEnd(s: string, words: seq<string>, at: seq<nat>) {
    |at| == |words|
    && forall j :: 0 <= j < |words| && at[j] + |words[j]| < |s| ==> IsSpace(s[at[j] + |words[j]|])
  }

  predicate Increasing(at: seq<nat>) {
    forall i, j :: 0 <= i < j < |at| ==> at[i] < at[j]
  }

  /** Every word start of `s` is one of `at`. */
  predicate CoversStarts(s: string, at: seq<nat>) {
    forall k :: 0 <= k < |s| && IsWordStart(s, k) ==> k in at
  }

  lemma SliceAfterCut(s: string, d: nat, a: nat, n: nat)
    requires d + a + n <= |s|
    ensures s[d..][a..a + n] == s[a + d..a + d + n]
  {
  }

  lemma WordsAtAfterCut(s: string, d: nat, w: seq<string>, at: seq<nat>)
    requires d <= |s| && (d == 0 || d == |s| || IsSpace(s[d - 1]) || IsSpace(s[d]))
    requires WordsAt(s[d..], w, at)
    ensures WordsAt(s, w, Shifted(at, d))
  {
    forall j | 0 <= j < |w|
      ensures IsWordStart(s, at[j] + d) && s[at[j] + d..at[j] + d + |w[j]|] == w[j]
    {
      WordStartAfterCut(s, d, at[j]);
      SliceAfterCut(s, d, at[j], |w[j]|);
    }
  }

  lemma RunsEndAfterCut(s: string, d: nat, w: seq<string>, at: seq<nat>)
    requires d <= |s| && RunsEnd(s[d..], w, at)
    ensures RunsEnd(s, w, Shifted(at, d))
  {
    forall j | 0 <= j < |w| && at[j] + d + |w[j]| < |s| ensures IsSpace(s[at[j] + d + |w[j]|]) {
      assert s[d..][at[j] + |w[j]|] == s[at[j] + d + |w[j]|];
    }
  }

  lemma CoversAfterCut(s: string, d: nat, at: seq<nat>)
    requires d <= |s| && (d == 0 || d == |s| || IsSpace(s[d - 1]) || IsSpace(s[d]))
    requires CoversStarts(s[d..], at)
    ensures forall k :: d <= k < |s| && IsWordStart(s, k) ==> k in Shifted(at, d)
  {
    var at' := Shifted(at, d);
    forall k | d <= k < |s| && IsWordStart(s, k) ensures k in at' {
      WordStartAfterCut(s, d, k - d);
      assert k - d in at;
      var i :| 0 <= i < |at| && at[i] == k - d;
      assert at'[i] == k;
    }
  }

  /** The first word of `s`, at position 0, goes in front of the words
      placed in the rest of `s`. */
  lemma PrependWordAt(s: string, k: nat, w: seq<string>, sh: seq<nat>)
    requires s != [] && !IsSpace(s[0]) && k == WordLength(s) && WordsAt(s, w, sh)
    ensures WordsAt(s, [s[..k]] + w, [0] + sh)
  {
    var ws, ats := [s[..k]] + w, [0] + sh;
    forall j | 0 <= j < |ws|
      ensures IsWordStart(s, ats[j]) && ats[j] + |ws[j]| <= |s| && s[ats[j]..ats[j] + |ws[j]|] == ws[j]
    {
      if j > 0 {
        assert ws[j] == w[j - 1] && ats[j] == sh[j - 1];
      }
    }
  }

  lemma PrependRunsEnd(s: string, k: nat, w: seq<string>, sh: seq<nat>)
    requires s != [] && !IsSpace(s[0]) && k == WordLength(s) && RunsEnd(s, w, sh)
    ensures RunsEnd(s, [s[..k]] + w, [0] + sh)
  {
    var ws, ats := [s[..k]] + w, [0] + sh;
    forall j | 0 <= j < |ws| && ats[j] + |ws[j]| < |s| ensures IsSpace(s[ats[j] + |ws[j]|]) {
      if j > 0 {
        assert ws[j] == w[j - 1] && ats[j] == sh[j - 1];
      }
    }
  }

  /** A word start after position 0 lies past the first word. */
  lemma NoStartInsideWord(s: string, k: nat)
    requires s != [] && IsWordStart(s, k)
    ensures k == 0 || k >= WordLength(s)
  {
  }

  lemma PrependCovers(s: string, k: nat, sh: seq<nat>)
    requires s != [] && !IsSpace(s[0]) && k == WordLength(s)
    requires forall k' :: k <= k' < |s| && IsWordStart(s, k') ==> k' in sh
    ensures CoversStarts(s, [0] + sh)
  {
    forall k' | 0 <= k' < |s| && IsWordStart(s, k') ensures k' in [0] + sh {
      NoStartInsideWord(s, k');
      if k' == 0 {
        assert ([0] + sh)[0] == 0;
      } else {
        var i :| 0 <= i < |sh| && sh[i] == k';
        assert ([0] + sh)[i + 1] == k';
      }
    }
  }

  /** `str.split()` returns exactly the maximal runs of non-whitespace
      characters: its words sit in `s` at strictly increasing word starts,
      each runs up to whitespace or the end of `s`, and every word start of
      `s` begins one of them. */
  lemma {:induction false} SplitIsMaximalRuns(s: string)
    ensures WordsAt(s, Split(s), WordStarts(s)) && RunsEnd(s, Split(s), WordStarts(s))
    ensures Increasing(WordStarts(s)) && CoversStarts(s, WordStarts(s))
    decreases |s|
  {
    if s != [] {
      if IsSpace(s[0]) {
        var t := s[1..];
        SplitIsMaximalRuns(t);
        WordsAtAfterCut(s, 1, Split(t), WordStarts(t));
        RunsEndAfterCut(s, 1, Split(t), WordStarts(t));
        CoversAfterCut(s, 1, WordStarts(t));
      } else {
        SplitIsMaximalRuns(s[WordLength(s)..]);
        SplitAfterWord(s);
      }
    }
  }

  lemma PrependIncreasing(k: nat, at: seq<nat>)
    requires k > 0 && Increasing(at)
    ensures Increasing([0] + Shifted(at, k))
  {
    assert forall j :: 0 < j < |at| + 1 ==> ([0] + Shifted(at, k))[j] == at[j - 1] + k;
  }

  /** One step of `SplitIsMaximalRuns` where `s` starts with a word. */
  lemma SplitAfterWord(s: string)
    requires s != [] && !IsSpace(s[0])
    requires WordsAt(s[WordLength(s)..], Split(s[WordLength(s)..]), WordStarts(s[WordLength(s)..]))
    requires RunsEnd(s[WordLength(s)..], Split(s[WordLength(s)..]), WordStarts(s[WordLength(s)..]))
    requires Increasing(WordStarts(s[WordLength(s)..])) && CoversStarts(s[WordLength(s)..], WordStarts(s[WordLength(s)..]))
    ensures WordsAt(s, Split(s), WordStarts(s)) && RunsEnd(s, Split(s), WordStarts(s))
    ensures Increasing(WordStarts(s)) && CoversStarts(s, WordStarts(s))
  {
    var k := WordLength(s);
    var t := s[k..];
    var w, at := Split(t), WordStarts(t);
    WordsAtAfterCut(s, k, w, at);
    RunsEndAfterCut(s, k, w, at);
    CoversAfterCut(s, k, at);
    PrependWordAt(s, k, w, Shifted(at, k));
    PrependRunsEnd(s, k, w, Shifted(at, k));
    PrependCovers(s, k, Shifted(at, k));
    PrependIncreasing(k, at);
    assert Split(s) == [s[..k]] + w && WordStarts(s) == [0] + Shifted(at, k);
  }

  /** The characters of `s` that are not whitespace, in order. */
  function NonSpaceChars(s: string): string
    decreases |s|
  {
    if s == [] then [] else (if IsSpace(s[0]) then [] else [s[0]]) + NonSpaceChars(s[1..])
  }

  /** Every character of a word of `Split(s)` is a character of `s`. */
  lemma {:induction false} SplitChars(s: string, j: nat)
    requires j < |Split(s)|
    ensures forall k :: 0 <= k < |Split(s)[j]| ==> Split(s)[j][k] in s
    decreases |s|
  {
    if IsSpace(s[0]) {
      SplitChars(s[1..], j);
      assert forall c :: c in s[1..] ==> c in s;
    } else {
      var k := WordLength(s);
      if j > 0 {
        SplitChars(s[k..], j - 1);
        assert forall c :: c in s[k..] ==> c in s;
      } else {
        assert forall c :: c in s[..k] ==> c in s;
      }
    }
  }

  /** Python's `"".join(words)`. */
  function Concat(words: seq<string>): string
    decreases |words|
  {
    if words == [] then [] else words[0] + Concat(words[1..])
  }

  lemma {:induction false} NonSpaceCharsAppend(a: string, b: string)
    ensures NonSpaceChars(a + b) == NonSpaceChars(a) + NonSpaceChars(b)
    decreases |a|
  {
    if a == [] {
      assert a + b == b;
    } else {
      assert (a + b)[1..] == a[1..] + b;
      NonSpaceCharsAppend(a[1..], b);
    }
  }

  lemma {:induction false} NonSpaceCharsOfWord(w: string)
    requires NoSpace(w)
    ensures NonSpaceChars(w) == w
    decreases |w|
  {
    if w != [] {
      NonSpaceCharsOfWord(w[1..]);
    }
  }

  /** Splitting loses exactly the whitespace: gluing the words back together
      gives the non-whitespace characters of the input, in order. */
  lemma {:induction false} SplitKeepsText(s: string)
    ensures Concat(Split(s)) == NonSpaceChars(s)
    decreases |s|
  {
    if s != [] {
      if IsSpace(s[0]) {
        SplitKeepsText(s[1..]);
      } else {
        var k := WordLength(s);
        SplitKeepsText(s[k..]);
        assert s == s[..k] + s[k..];
        NonSpaceCharsAppend(s[..k], s[k..]);
        NonSpaceCharsOfWord(s[..k]);
        assert Split(s)[1..] == Split(s[k..]);
      }
    }
  }

  /** Python's `sep.join(words)`. */
  function Join(words: seq<string>, sep: string): (s: string)
    ensures words == [] ==> s == []
    decreases |words|
  {
    if words == [] then []
    else if |words| == 1 then words[0]
    else words[0] + sep + Join(words[1..], sep)
  }

  /** Python's `s.split(", ")`: the pieces between non-overlapping
      occurrences of the separator, scanning left to right. There is always at
      least one piece: `"".split(", ") == [""]`. */
  function SplitComma(s: string): (parts: seq<string>)
    ensures |parts| >= 1
    decreases |s|
  {
    if |s| >= 2 && s[0] == ',' && s[1] == ' ' then [""] + SplitComma(s[2..])
    else if s == [] then [""]
    else
      var rest := SplitComma(s[1..]);
      [[s[0]] + rest[0]] + rest[1..]
  }

  lemma {:induction false} SplitCommaPlain(w: string)
    requires ',' !in w
    ensures SplitComma(w) == [w]
    decreases |w|
  {
    if w != [] {
      SplitCommaPlain(w[1..]);
      assert [w[0]] + w[1..] == w;
    }
  }

  lemma {:induction false} SplitCommaFirst(w: string, t: string)
    requires ',' !in w
    ensures SplitComma(w + ", " + t) == [w] + SplitComma(t)
    decreases |w|
  {
    if w == [] {
      assert w + ", " + t == ", " + t;
      assert (", " + t)[2..] == t;
    } else {
      SplitCommaFirst(w[1..], t);
      assert (w + ", " + t)[1..] == w[1..] + ", " + t;
      assert [w[0]] + w[1..] == w;
    }
  }

  /** `s.split(", ")` undoes `", ".join` on a non-empty list whose items hold no
      comma. (The empty list joins to `""`, which splits to `[""]`.) */
  lemma {:induction false} SplitCommaJoin(items: seq<string>)
    requires items != []
    requires forall i :: 0 <= i < |items| ==> ',' !in items[i]
    ensures SplitComma(Join(items, ", ")) == items
    decreases |items|
  {
    if |items| == 1 {
      SplitCommaPlain(items[0]);
    } else {
      SplitCommaJoin(items[1..]);
      SplitCommaFirst(items[0], Join(items[1..], ", "));
    }
  }
}
