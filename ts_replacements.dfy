/**
 * The text-splicing half of the TSX editor (src/@tandem/typescript-extension/sandbox/ts-editor.ts):
 * a replacement is a `{start, end, value}` record; the final text applies the replacements
 * one after another, each as `text.substr(0, start) + value + text.substr(end)`, after sorting
 * them by descending start with the comparator `a.start > b.start ? -1 : 1`.
 */
module TsReplacements {

  datatype Replacement = Replacement(start: int, end: int, value: string)

  /** `s.substr(0, n)`: the first `n` characters, clamped to the string. */
  function Head(s: string, n: int): (r: string)
    ensures 0 <= n <= |s| ==> r == s[..n]
  {
    if n <= 0 then "" else if n >= |s| then s else s[..n]
  }

  /** `s.substr(k)`: a negative `k` counts from the end, a `k` past the end gives "". */
  function Tail(s: string, k: int): (r: string)
    ensures 0 <= k <= |s| ==> r == s[k..]
  {
    if k < 0 then (if |s| + k <= 0 then s else s[|s| + k..])
    else if k >= |s| then ""
    else s[k..]
  }

  /** One step of the splice loop. */
  function Splice(text: string, r: Replacement): string {
    Head(text, r.start) + r.value + Tail(text, r.end)
  }

  /** The splice loop over `rs`, in list order. */
  function SpliceAll(text: string, rs: seq<Replacement>): string
    decreases |rs|
  {
    if rs == [] then text else Splice(SpliceAll(text, rs[..|rs| - 1]), rs[|rs| - 1])
  }

  /**
   * Insert `x` into a list sorted by descending start, as an insertion sort driven by the
   * comparator `a.start > b.start ? -1 : 1` does: `x` moves in front of every element whose
   * start is not greater than its own.
   */
  function InsertDesc(sorted: seq<Replacement>, x: Replacement): seq<Replacement>
  {
    if sorted == [] then [x]
    else if sorted[0].start > x.start then [sorted[0]] + InsertDesc(sorted[1..], x)
    else [x] + sorted
  }

  /** The array after `_replacements.sort(...)`. */
  function SortDesc(rs: seq<Replacement>): seq<Replacement>
    decreases |rs|
  {
    if rs == [] then [] else InsertDesc(SortDesc(rs[..|rs| - 1]), rs[|rs| - 1])
  }

  predicate NonIncreasing(rs: seq<Replacement>) {
    forall i, j :: 0 <= i < j < |rs| ==> rs[i].start >= rs[j].start
  }

  lemma {:induction false} InsertDescCount(sorted: seq<Replacement>, x: Replacement)
    ensures multiset(InsertDesc(sorted, x)) == multiset(sorted) + multiset{x}
  {
    if sorted != [] && sorted[0].start > x.start {
      InsertDescCount(sorted[1..], x);
      assert sorted == [sorted[0]] + sorted[1..];
    }
  }

  /** Inserting keeps every start at or below a bound that `x` and the list respect. */
  lemma {:induction false} InsertDescBounded(sorted: seq<Replacement>, x: Replacement, bound: int)
    requires forall k :: 0 <= k < |sorted| ==> sorted[k].start <= bound
    requires x.start <= bound
    ensures forall k :: 0 <= k < |InsertDesc(sorted, x)| ==> InsertDesc(sorted, x)[k].start <= bound
  {
    if sorted != [] && sorted[0].start > x.start {
      InsertDescBounded(sorted[1..], x, bound);
    }
  }

  lemma {:induction false} InsertDescFacts(sorted: seq<Replacement>, x: Replacement)
    requires NonIncreasing(sorted)
    ensures NonIncreasing(InsertDesc(sorted, x))
    ensures multiset(InsertDesc(sorted, x)) == multiset(sorted) + multiset{x}
  {
    InsertDescCount(sorted, x);
    if sorted != [] && sorted[0].start > x.start {
      var tail := sorted[1..];
      InsertDescFacts(tail, x);
      var r := InsertDesc(tail, x);
      InsertDescBounded(tail, x, sorted[0].start);
      var full := [sorted[0]] + r;
      assert InsertDesc(sorted, x) == full;
      forall i, j | 0 <= i < j < |full| ensures full[i].start >= full[j].start {
        assert full[j] == r[j - 1];
        if i > 0 {
          assert full[i] == r[i - 1];
        }
      }
    }
  }

  /** The sort yields a permutation of the replacements, ordered by descending start. */
  lemma {:induction false} SortDescIsSortedPermutation(rs: seq<Replacement>)
    ensures NonIncreasing(SortDesc(rs))
    ensures multiset(SortDesc(rs)) == multiset(rs)
    ensures |SortDesc(rs)| == |rs|
  {
    if rs != [] {
      var init := rs[..|rs| - 1];
      SortDescIsSortedPermutation(init);
      InsertDescFacts(SortDesc(init), rs[|rs| - 1]);
      assert rs == init + [rs[|rs| - 1]];
      assert |multiset(SortDesc(rs))| == |multiset(rs)|;
    }
  }

  /** Non-negative, ordered and inside the text. */
  predicate InText(text: string, r: Replacement) {
    0 <= r.start <= r.end <= |text|
  }

  /**
   * The replacements the source's contract allows in one pass: each inside the text, pairwise
   * non-overlapping, and (so that the sort is deterministic) with pairwise distinct starts.
   */
  predicate Separated(text: string, rs: seq<Replacement>) {
    (forall i :: 0 <= i < |rs| ==> InText(text, rs[i]))
    && (forall i, j :: 0 <= i < |rs| && 0 <= j < |rs| && i != j ==>
          rs[i].start != rs[j].start && (rs[i].end <= rs[j].start || rs[j].end <= rs[i].start))
  }

  /** Ordered by descending start, each ending at or before the start of the one before it. */
  predicate Chained(text: string, rs: seq<Replacement>) {
    (forall i :: 0 <= i < |rs| ==> InText(text, rs[i]))
    && (forall i :: 0 <= i < |rs| - 1 ==> rs[i + 1].end <= rs[i].start)
  }

  /** Where the text after the chained replacements resumes. */
  function Lowest(text: string, rs: seq<Replacement>): int {
    if rs == [] then |text| else rs[|rs| - 1].start
  }

  /**
   * Reference definition of the spliced text: walk the spans from the lowest up, copying the
   * text between them unchanged and emitting each replacement's value in place of its span.
   */
  function Stitch(text: string, rs: seq<Replacement>, from: int): string
    requires Chained(text, rs) && 0 <= from <= Lowest(text, rs)
    decreases |rs|
  {
    if rs == [] then text[from..]
    else
      var r := rs[|rs| - 1];
      text[from..r.start] + r.value + Stitch(text, rs[..|rs| - 1], r.end)
  }

  /** The net length change `Σ(|value| − (end − start))`. */
  function Delta(rs: seq<Replacement>): int
    decreases |rs|
  {
    if rs == [] then 0
    else Delta(rs[..|rs| - 1]) + |rs[|rs| - 1].value| - (rs[|rs| - 1].end - rs[|rs| - 1].start)
  }

  lemma {:induction false} StitchSplit(text: string, rs: seq<Replacement>, a: int, b: int)
    requires Chained(text, rs) && 0 <= a <= b <= Lowest(text, rs)
    ensures Stitch(text, rs, a) == text[a..b] + Stitch(text, rs, b)
  {
    if rs != [] {
      var r := rs[|rs| - 1];
      assert text[a..r.start] == text[a..b] + text[b..r.start];
    }
  }

  /** Splicing a chained list in descending order leaves everything outside the spans alone. */
  lemma {:induction false} SpliceAllIsStitch(text: string, rs: seq<Replacement>)
    requires Chained(text, rs)
    ensures SpliceAll(text, rs) == Stitch(text, rs, 0)
  {
    if rs != [] {
      var init, low := rs[..|rs| - 1], rs[|rs| - 1];
      assert Chained(text, init);
      SpliceAllIsStitch(text, init);
      StitchSplit(text, init, 0, low.end);
      var y := Stitch(text, init, low.end);
      var x := text[0..low.end] + y;
      assert SpliceAll(text, init) == x;
      assert Head(x, low.start) == text[..low.start];
      assert Tail(x, low.end) == y;
    }
  }

  lemma {:induction false} StitchLength(text: string, rs: seq<Replacement>, from: int)
    requires Chained(text, rs) && 0 <= from <= Lowest(text, rs)
    ensures |Stitch(text, rs, from)| == |text| - from + Delta(rs)
  {
    if rs != [] {
      var init := rs[..|rs| - 1];
      assert Chained(text, init);
      StitchLength(text, init, rs[|rs| - 1].end);
    }
  }

  lemma {:induction false} DeltaInsert(sorted: seq<Replacement>, x: Replacement)
    ensures Delta(InsertDesc(sorted, x)) == Delta(sorted) + |x.value| - (x.end - x.start)
  {
    if sorted != [] && sorted[0].start > x.start {
      DeltaInsert(sorted[1..], x);
      assert sorted == [sorted[0]] + sorted[1..];
      DeltaCons(sorted[0], sorted[1..]);
      DeltaCons(sorted[0], InsertDesc(sorted[1..], x));
    } else {
      DeltaCons(x, sorted);
    }
  }

  lemma {:induction false} DeltaCons(x: Replacement, rs: seq<Replacement>)
    ensures Delta([x] + rs) == |x.value| - (x.end - x.start) + Delta(rs)
    decreases |rs|
  {
    if rs != [] {
      var init := rs[..|rs| - 1];
      assert ([x] + rs)[..|rs|] == [x] + init;
      DeltaCons(x, init);
    }
  }

  lemma {:induction false} DeltaSort(rs: seq<Replacement>)
    ensures Delta(SortDesc(rs)) == Delta(rs)
  {
    if rs != [] {
      DeltaSort(rs[..|rs| - 1]);
      DeltaInsert(SortDesc(rs[..|rs| - 1]), rs[|rs| - 1]);
    }
  }

  predicate StrictlyDescending(rs: seq<Replacement>) {
    forall i :: 0 <= i < |rs| - 1 ==> rs[i].start > rs[i + 1].start
  }

  lemma {:induction false} InsertDescStrict(sorted: seq<Replacement>, x: Replacement)
    requires StrictlyDescending(sorted)
    requires forall y :: y in sorted ==> y.start != x.start
    ensures StrictlyDescending(InsertDesc(sorted, x))
    ensures |InsertDesc(sorted, x)| > 0
    ensures InsertDesc(sorted, x)[0] == (if sorted != [] && sorted[0].start > x.start then sorted[0] else x)
  {
    if sorted != [] && sorted[0].start > x.start {
      InsertDescStrict(sorted[1..], x);
    }
  }

  lemma {:induction false} SortDescStrict(text: string, rs: seq<Replacement>)
    requires Separated(text, rs)
    ensures StrictlyDescending(SortDesc(rs))
  {
    if rs != [] {
      var init, x := rs[..|rs| - 1], rs[|rs| - 1];
      assert Separated(text, init);
      SortDescStrict(text, init);
      SortDescIsSortedPermutation(init);
      forall y | y in SortDesc(init) ensures y.start != x.start {
        assert y in multiset(SortDesc(init));
        assert y in init;
        var j :| 0 <= j < |init| && init[j] == y;
        assert rs[j] == y;
      }
      InsertDescStrict(SortDesc(init), x);
    }
  }

  /** Sorting a separated list puts it in chained form. */
  lemma SortedSeparatedIsChained(text: string, rs: seq<Replacement>)
    requires Separated(text, rs)
    ensures Chained(text, SortDesc(rs))
  {
    var s := SortDesc(rs);
    SortDescIsSortedPermutation(rs);
    SortDescStrict(text, rs);
    forall k | 0 <= k < |s| ensures InText(text, s[k]) {
      assert s[k] in multiset(rs);
    }
    forall k | 0 <= k < |s| - 1 ensures s[k + 1].end <= s[k].start {
      assert s[k] in multiset(rs) && s[k + 1] in multiset(rs);
      var i :| 0 <= i < |rs| && rs[i] == s[k];
      var j :| 0 <= j < |rs| && rs[j] == s[k + 1];
      assert i != j;
    }
  }

  /**
   * The final text of `getFormattedContent` for a separated list: the text outside the spans is
   * copied unchanged, each value takes the place of its span, and the length grows by
   * `Σ(|value| − (end − start))`.
   */
  lemma FormattedText(text: string, rs: seq<Replacement>)
    requires Separated(text, rs)
    ensures Chained(text, SortDesc(rs))
    ensures SpliceAll(text, SortDesc(rs)) == Stitch(text, SortDesc(rs), 0)
    ensures |SpliceAll(text, SortDesc(rs))| == |text| + Delta(rs)
  {
    SortedSeparatedIsChained(text, rs);
    SpliceAllIsStitch(text, SortDesc(rs));
    StitchLength(text, SortDesc(rs), 0);
    DeltaSort(rs);
  }

  /** Two spans that do not overlap (zero-width spans may touch either end). */
  predicate Disjoint(a: Replacement, b: Replacement) {
    a.end <= b.start || b.end <= a.start
  }

  /** Each replacement inside the text, and no two of them overlapping; starts may repeat. */
  predicate NonOverlapping(text: string, rs: seq<Replacement>) {
    (forall i :: 0 <= i < |rs| ==> InText(text, rs[i]))
    && (forall i, j :: 0 <= i < j < |rs| ==> Disjoint(rs[i], rs[j]))
  }

  /** Inserting a replacement that overlaps none of the list keeps the list non-overlapping. */
  lemma {:induction false} InsertDescDisjoint(text: string, sorted: seq<Replacement>, x: Replacement)
    requires NonOverlapping(text, sorted) && InText(text, x)
    requires forall k :: 0 <= k < |sorted| ==> Disjoint(x, sorted[k])
    ensures NonOverlapping(text, InsertDesc(sorted, x))
  {
    var full := InsertDesc(sorted, x);
    InsertDescCount(sorted, x);
    forall i | 0 <= i < |full| ensures InText(text, full[i]) {
      assert full[i] in multiset(full);
      if full[i] != x {
        assert full[i] in multiset(sorted);
        var k :| 0 <= k < |sorted| && sorted[k] == full[i];
      }
    }
    if sorted != [] && sorted[0].start > x.start {
      var tail := sorted[1..];
      InsertDescDisjoint(text, tail, x);
      var r := InsertDesc(tail, x);
      InsertDescCount(tail, x);
      assert full == [sorted[0]] + r;
      forall i, j | 0 <= i < j < |full| ensures Disjoint(full[i], full[j]) {
        assert full[j] == r[j - 1];
        if i > 0 {
          assert full[i] == r[i - 1];
        } else {
          assert r[j - 1] in multiset(r);
          if r[j - 1] != x {
            assert r[j - 1] in multiset(tail);
            var k :| 0 <= k < |tail| && tail[k] == r[j - 1];
            assert tail[k] == sorted[k + 1];
          }
        }
      }
    } else {
      assert full == [x] + sorted;
      forall i, j | 0 <= i < j < |full| ensures Disjoint(full[i], full[j]) {
        assert full[j] == sorted[j - 1];
        if i > 0 {
          assert full[i] == sorted[i - 1];
        }
      }
    }
  }

  /** Sorting keeps a non-overlapping list non-overlapping. */
  lemma {:induction false} SortDescDisjoint(text: string, rs: seq<Replacement>)
    requires NonOverlapping(text, rs)
    ensures NonOverlapping(text, SortDesc(rs))
  {
    if rs != [] {
      var init := rs[..|rs| - 1];
      var x := rs[|rs| - 1];
      assert NonOverlapping(text, init);
      SortDescDisjoint(text, init);
      var sorted := SortDesc(init);
      SortDescIsSortedPermutation(init);
      forall k | 0 <= k < |sorted| ensures Disjoint(x, sorted[k]) {
        assert sorted[k] in multiset(init);
        var j :| 0 <= j < |init| && init[j] == sorted[k];
        assert Disjoint(rs[j], rs[|rs| - 1]);
      }
      InsertDescDisjoint(text, sorted, x);
    }
  }

  /** Every replacement starts at or after `p`, or is zero-width: none removes text below `p`. */
  predicate ClearBelow(rs: seq<Replacement>, p: int) {
    forall k :: 0 <= k < |rs| ==> p <= rs[k].start || rs[k].start == rs[k].end
  }

  /**
   * Applying a non-overlapping list ordered by descending start, first to last: every splice
   * lands inside the text it is applied to, so the length grows by `Delta`; and the text keeps
   * at least `p` characters when no replacement removes text below `p`.
   */
  lemma {:induction false} SpliceAllLength(text: string, rs: seq<Replacement>)
    requires NonIncreasing(rs) && NonOverlapping(text, rs)
    ensures |SpliceAll(text, rs)| == |text| + Delta(rs)
    ensures forall p :: 0 <= p <= |text| && ClearBelow(rs, p) ==> p <= |SpliceAll(text, rs)|
    decreases |rs|
  {
    if rs != [] {
      var init := rs[..|rs| - 1];
      var low := rs[|rs| - 1];
      assert NonOverlapping(text, init);
      SpliceAllLength(text, init);
      var t := SpliceAll(text, init);
      forall k | 0 <= k < |init| ensures low.end <= init[k].start || init[k].start == init[k].end {
        assert init[k].start >= low.start;
        assert Disjoint(rs[k], rs[|rs| - 1]);
      }
      assert ClearBelow(init, low.end);
      assert InText(text, low);
      assert low.end <= |t|;
      assert SpliceAll(text, rs) == Splice(t, low);
      assert |Splice(t, low)| == low.start + |low.value| + (|t| - low.end);
      forall p | 0 <= p <= |text| && ClearBelow(rs, p) ensures p <= |SpliceAll(text, rs)| {
        assert ClearBelow(init, p);
      }
    }
  }

  /**
   * The length of `getFormattedContent`'s text for any non-overlapping list, whatever order the
   * sort leaves replacements with equal starts in: it grows by `Σ(|value| − (end − start))`.
   */
  lemma FormattedLength(text: string, rs: seq<Replacement>)
    requires NonOverlapping(text, rs)
    ensures |SpliceAll(text, SortDesc(rs))| == |text| + Delta(rs)
  {
    SortDescIsSortedPermutation(rs);
    SortDescDisjoint(text, rs);
    SpliceAllLength(text, SortDesc(rs));
    DeltaSort(rs);
  }
}
