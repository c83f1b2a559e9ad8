/**
 * The background list editing of the front-end's backgrounds pane
 * (packages/front-end/src/components/root/workspace/right-gutter/styles/pretty/panes/backgrounds-controller.tsx):
 * a CSS `background` value is read as the list of its `rgba(...)` colours, one entry is
 * replaced, and the list is written back joined with commas.
 *
 * An absent value (`undefined`) is `None`. The React component around these helpers is not
 * part of this model.
 */
module Backgrounds {
  import opened Wrappers
  import opened Strings

  const DEFAULT_COLOR := "rgba(200, 200, 200, 1)"

  /** The characters the regular expression `.` does not match. */
  predicate IsLineTerminator(c: char) {
    c == '\n' || c == '\r' || c == '\U{2028}' || c == '\U{2029}'
  }

  /** The literal `rgba(` starts at index `i`. */
  predicate OpensAt(s: string, i: int) {
    0 <= i && i + 5 <= |s|
    && s[i] == 'r' && s[i + 1] == 'g' && s[i + 2] == 'b' && s[i + 3] == 'a' && s[i + 4] == '('
  }

  /** A string the pattern `rgba\(.*?\)` matches whole: `rgba(`, no `)` or line break, `)`. */
  predicate IsBackground(w: string) {
    |w| >= 6 && OpensAt(w, 0) && w[|w| - 1] == ')'
    && forall k :: 5 <= k < |w| - 1 ==> w[k] != ')' && !IsLineTerminator(w[k])
  }

  // ---------------------------------------------------------------------------------------
  // splitBackgrounds: `(value || "").match(/rgba\(.*?\)/g) || []`
  // ---------------------------------------------------------------------------------------

  /** The first index from `j` on holding `)` or a line break, or the end. */
  function CloseFrom(s: string, j: nat): (k: nat)
    requires j <= |s|
    ensures j <= k <= |s|
    decreases |s| - j
  {
    if j == |s| || s[j] == ')' || IsLineTerminator(s[j]) then j else CloseFrom(s, j + 1)
  }

  /** The lazy match tried at the front of `s`: the index of its closing `)`, if it matches there. */
  function MatchAt(s: string): (r: Option<nat>)
    ensures r.Some? ==> 5 <= r.value < |s|
  {
    if OpensAt(s, 0) then
      var k := CloseFrom(s, 5);
      if k < |s| && s[k] == ')' then Some(k) else None
    else None
  }

  /**
   * The global match over what is left of the string: after a match the search resumes past
   * its end, otherwise one character further on.
   */
  function Matches(s: string): (r: seq<string>)
    decreases |s|
  {
    if s == "" then []
    else
      match MatchAt(s)
      case Some(k) => [s[..k + 1]] + Matches(s[k + 1..])
      case None => Matches(s[1..])
  }

  function SplitBackgrounds(value: Option<string>): (r: seq<string>)
  {
    Matches(if value.None? then "" else value.value)
  }

  // ---------------------------------------------------------------------------------------
  // replaceBackground
  // ---------------------------------------------------------------------------------------

  /** `arraySplice(arr, index, 1, replacement)`: a copy with one entry at `index` replaced (or appended at the end). */
  function ArraySplice(arr: seq<string>, index: int, replacement: string): (r: seq<string>)
    ensures 0 <= index < |arr| ==> r == arr[index := replacement]
  {
    var s := SpliceStart(|arr|, index);
    var r := arr[..s] + [replacement] + arr[(if s < |arr| then s + 1 else s)..];
    assert 0 <= index < |arr| ==> r == arr[index := replacement] by {
      if 0 <= index < |arr| {
        assert s == index;
        assert |r| == |arr|;
        assert forall m :: 0 <= m < |r| ==> r[m] == arr[index := replacement][m];
      }
    }
    r
  }

  /** `.filter(v => Boolean(v.trim()))`. */
  function NonBlank(xs: seq<string>): (r: seq<string>)
    decreases |xs|
  {
    if xs == [] then [] else (if IsBlank(xs[0]) then [] else [xs[0]]) + NonBlank(xs[1..])
  }

  /** `... .join(",") || undefined`. */
  function ReplaceBackground(oldValue: Option<string>, replacement: string, index: int): Option<string> {
    var joined := Join(NonBlank(ArraySplice(SplitBackgrounds(oldValue), index, replacement)), ",");
    if joined == "" then None else Some(joined)
  }

  /** The value the plus button writes: the default colour appended to a non-empty value. */
  function PlusValue(value: Option<string>): string {
    AppendColor(value, DEFAULT_COLOR)
  }

  /** `value ? value + "," + color : color`. */
  function AppendColor(value: Option<string>, color: string): string {
    if value.Some? && value.value != "" then value.value + "," + color else color
  }

  // ---------------------------------------------------------------------------------------
  // Properties
  // ---------------------------------------------------------------------------------------

  /** The scan stops at the first `)` or line break, and at nothing before it. */
  lemma {:induction false} CloseFromStops(s: string, j: nat)
    requires j <= |s|
    ensures forall m :: j <= m < CloseFrom(s, j) ==> s[m] != ')' && !IsLineTerminator(s[m])
    ensures CloseFrom(s, j) < |s| ==> s[CloseFrom(s, j)] == ')' || IsLineTerminator(s[CloseFrom(s, j)])
    decreases |s| - j
  {
    if j < |s| && s[j] != ')' && !IsLineTerminator(s[j]) {
      CloseFromStops(s, j + 1);
    }
  }

  /** What the lazy match finds at the front is a whole background. */
  lemma MatchIsBackground(s: string)
    requires MatchAt(s).Some?
    ensures IsBackground(s[..MatchAt(s).value + 1])
  {
    var k := MatchAt(s).value;
    CloseFromStops(s, 5);
    var w := s[..k + 1];
    assert forall m :: 0 <= m < |w| ==> w[m] == s[m];
  }

  /** `p` is a piece of `s`. */
  ghost predicate OccursIn(s: string, p: string) {
    exists k :: OccursAt(s, p, k)
  }

  /** A piece of a suffix is a piece of the whole string. */
  lemma OccursInSuffix(s: string, d: nat, p: string)
    requires d <= |s| && OccursIn(s[d..], p)
    ensures OccursIn(s, p)
  {
    var j :| OccursAt(s[d..], p, j);
    assert s[d + j..d + j + |p|] == s[d..][j..j + |p|];
    assert OccursAt(s, p, d + j);
  }

  /** Every match is a whole background, and it occurs in the value. */
  lemma {:induction false} MatchesAreBackgrounds(s: string)
    ensures forall m :: 0 <= m < |Matches(s)| ==> IsBackground(Matches(s)[m])
    ensures forall m :: 0 <= m < |Matches(s)| ==> OccursIn(s, Matches(s)[m])
    decreases |s|
  {
    if s != "" {
      var r := Matches(s);
      match MatchAt(s)
      case Some(k) =>
        MatchIsBackground(s);
        var t := s[k + 1..];
        MatchesAreBackgrounds(t);
        assert r == [s[..k + 1]] + Matches(t);
        forall m | 0 <= m < |r| ensures IsBackground(r[m]) && OccursIn(s, r[m]) {
          if m > 0 {
            assert r[m] == Matches(t)[m - 1];
            OccursInSuffix(s, k + 1, r[m]);
          } else {
            assert OccursAt(s, r[0], 0);
          }
        }
      case None =>
        var t := s[1..];
        MatchesAreBackgrounds(t);
        assert r == Matches(t);
        forall m | 0 <= m < |r| ensures OccursIn(s, r[m]) {
          OccursInSuffix(s, 1, r[m]);
        }
    } else {
      assert Matches(s) == [];
    }
  }

  /** A background at the front of a string is matched whole. */
  lemma MatchLeading(w: string, rest: string)
    requires IsBackground(w)
    ensures MatchAt(w + rest) == Some(|w| - 1)
  {
    var x := w + rest;
    assert forall m :: 0 <= m < |w| ==> x[m] == w[m];
    var k := CloseFrom(x, 5);
    CloseFromStops(x, 5);
    assert x[|w| - 1] == ')';
    assert k == |w| - 1;
  }

  lemma JoinCons(w: string, rest: seq<string>, sep: string)
    requires rest != []
    ensures Join([w] + rest, sep) == w + sep + Join(rest, sep)
  {
    assert ([w] + rest)[1..] == rest;
  }

  lemma SplitSingle(w: string)
    requires IsBackground(w)
    ensures Matches(w) == [w]
  {
    assert w + "" == w;
    MatchLeading(w, "");
    assert w[..|w|] == w;
    assert w[|w|..] == "";
  }

  /** A background, a comma, then anything: the background is the first match, the rest is searched alone. */
  lemma SplitCons(w: string, tail: string)
    requires IsBackground(w)
    ensures Matches(w + "," + tail) == [w] + Matches(tail)
  {
    var x := w + "," + tail;
    assert x == w + ("," + tail);
    MatchLeading(w, "," + tail);
    assert x[..|w|] == w;
    var y := x[|w|..];
    assert y == "," + tail;
    assert MatchAt(y).None? by {
      assert y[0] == ',';
    }
    assert y[1..] == tail;
  }

  /** Splitting a comma-joined list of backgrounds gives the list back. */
  lemma {:induction false} SplitJoin(items: seq<string>)
    requires forall m :: 0 <= m < |items| ==> IsBackground(items[m])
    ensures SplitBackgrounds(Some(Join(items, ","))) == items
    decreases |items|
  {
    if items != [] {
      var w := items[0];
      var rest := items[1..];
      assert items == [w] + rest;
      if rest == [] {
        SplitSingle(w);
      } else {
        JoinCons(w, rest, ",");
        SplitCons(w, Join(rest, ","));
        SplitJoin(rest);
      }
    }
  }

  /** Editing entry `index` of a list of backgrounds writes back the list with that entry replaced. */
  lemma ReplaceRoundTrip(items: seq<string>, replacement: string, index: int)
    requires forall m :: 0 <= m < |items| ==> IsBackground(items[m])
    requires 0 <= index < |items| && IsBackground(replacement)
    ensures ReplaceBackground(Some(Join(items, ",")), replacement, index) == Some(Join(items[index := replacement], ","))
    ensures SplitBackgrounds(ReplaceBackground(Some(Join(items, ",")), replacement, index)) == items[index := replacement]
  {
    SplitJoin(items);
    var edited := items[index := replacement];
    NotBlank(edited);
    NonBlankAll(edited);
    JoinEmptyOnlyIfNoParts(edited, ",");
    SplitJoin(edited);
  }

  lemma NotBlank(items: seq<string>)
    requires forall m :: 0 <= m < |items| ==> IsBackground(items[m])
    ensures forall m :: 0 <= m < |items| ==> !IsBlank(items[m])
    ensures "" !in items
  {
    forall m | 0 <= m < |items| ensures !IsBlank(items[m]) {
      assert items[m][0] == 'r';
    }
  }

  /** Clearing entry `index` removes it; clearing the only entry leaves no value at all, never `""`. */
  lemma ClearRemoves(items: seq<string>, index: int)
    requires forall m :: 0 <= m < |items| ==> IsBackground(items[m])
    requires 0 <= index < |items|
    ensures var r := ReplaceBackground(Some(Join(items, ",")), "", index);
            (|items| == 1 ==> r.None?)
            && (|items| > 1 ==> r == Some(Join(items[..index] + items[index + 1..], ",")))
  {
    SplitJoin(items);
    NotBlank(items);
    var kept := items[..index] + items[index + 1..];
    ClearedDropped(items, index);
    var joined := Join(NonBlank(ArraySplice(SplitBackgrounds(Some(Join(items, ","))), index, "")), ",");
    assert joined == Join(kept, ",");
    SliceWithout(items, index, "");
    JoinEmptyOnlyIfNoParts(kept, ",");
  }

  /** A value absent from a list is absent from the list with one entry cut out. */
  lemma SliceWithout<T>(items: seq<T>, index: int, x: T)
    requires 0 <= index < |items|
    requires x !in items
    ensures x !in items[..index] + items[index + 1..]
  {
    var kept := items[..index] + items[index + 1..];
    forall m | 0 <= m < |kept| ensures kept[m] != x {
      if m < index {
        assert kept[m] == items[m];
      } else {
        assert kept[m] == items[m + 1];
      }
    }
  }

  lemma ClearedDropped(items: seq<string>, index: int)
    requires forall m :: 0 <= m < |items| ==> !IsBlank(items[m])
    requires 0 <= index < |items|
    ensures NonBlank(ArraySplice(items, index, "")) == items[..index] + items[index + 1..]
  {
    var pre, post := items[..index], items[index + 1..];
    assert items[index := ""] == pre + ([""] + post);
    assert forall m :: 0 <= m < |pre| ==> pre[m] == items[m];
    assert forall m :: 0 <= m < |post| ==> post[m] == items[index + 1 + m];
    DropBlank(pre, post);
  }

  /** A blank entry between two runs of non-blank entries is the only one dropped. */
  lemma DropBlank(pre: seq<string>, post: seq<string>)
    requires forall m :: 0 <= m < |pre| ==> !IsBlank(pre[m])
    requires forall m :: 0 <= m < |post| ==> !IsBlank(post[m])
    ensures NonBlank(pre + ([""] + post)) == pre + post
  {
    NonBlankAppend(pre, [""] + post);
    DropEmptyHead(post);
    NonBlankAll(pre);
    NonBlankAll(post);
  }

  lemma DropEmptyHead(post: seq<string>)
    ensures NonBlank([""] + post) == NonBlank(post)
  {
    var xs := [""] + post;
    assert IsBlank(xs[0]);
    assert xs[1..] == post;
  }

  /** Nothing is dropped from a list with no blank entries. */
  lemma {:induction false} NonBlankAll(xs: seq<string>)
    requires forall m :: 0 <= m < |xs| ==> !IsBlank(xs[m])
    ensures NonBlank(xs) == xs
    decreases |xs|
  {
    if xs != [] {
      NonBlankAll(xs[1..]);
      assert [xs[0]] + xs[1..] == xs;
    }
  }

  lemma {:induction false} NonBlankAppend(a: seq<string>, b: seq<string>)
    ensures NonBlank(a + b) == NonBlank(a) + NonBlank(b)
    decreases |a|
  {
    if a == [] {
      assert a + b == b;
    } else {
      var head := if IsBlank(a[0]) then [] else [a[0]];
      assert NonBlank(a) == head + NonBlank(a[1..]);
      assert (a + b)[0] == a[0];
      assert (a + b)[1..] == a[1..] + b;
      assert NonBlank(a + b) == head + NonBlank(a[1..] + b);
      NonBlankAppend(a[1..], b);
      assert head + (NonBlank(a[1..]) + NonBlank(b)) == (head + NonBlank(a[1..])) + NonBlank(b);
    }
  }

  /** What the filter keeps is non-blank and comes from the list. */
  lemma {:induction false} NonBlankKept(xs: seq<string>)
    ensures forall m :: 0 <= m < |NonBlank(xs)| ==> !IsBlank(NonBlank(xs)[m]) && NonBlank(xs)[m] in xs
    decreases |xs|
  {
    if xs != [] {
      NonBlankKept(xs[1..]);
      var r := NonBlank(xs);
      var rest := NonBlank(xs[1..]);
      if IsBlank(xs[0]) {
        assert r == rest;
      } else {
        assert r == [xs[0]] + rest;
        forall m | 0 <= m < |r| ensures !IsBlank(r[m]) && r[m] in xs {
          if m > 0 {
            assert r[m] == rest[m - 1];
          }
        }
      }
    }
  }

  /** `replaceBackground` writes no value exactly when every entry left after the splice is blank. */
  lemma NoValueOnlyWhenAllBlank(oldValue: Option<string>, replacement: string, index: int)
    ensures var entries := ArraySplice(SplitBackgrounds(oldValue), index, replacement);
            ReplaceBackground(oldValue, replacement, index).None? <==> forall m :: 0 <= m < |entries| ==> IsBlank(entries[m])
    ensures ReplaceBackground(oldValue, replacement, index) != Some("")
  {
    var entries := ArraySplice(SplitBackgrounds(oldValue), index, replacement);
    var kept := NonBlank(entries);
    NonBlankKept(entries);
    assert "" !in kept by {
      assert IsBlank("");
    }
    JoinEmptyOnlyIfNoParts(kept, ",");
    if kept == [] {
      forall m | 0 <= m < |entries| ensures IsBlank(entries[m]) {
        if !IsBlank(entries[m]) {
          NonBlankKeeps(entries, m);
        }
      }
    } else {
      assert !IsBlank(kept[0]) && kept[0] in entries;
    }
  }

  lemma {:induction false} NonBlankKeeps(xs: seq<string>, m: nat)
    requires m < |xs| && !IsBlank(xs[m])
    ensures NonBlank(xs) != []
    decreases |xs|
  {
    if m > 0 && IsBlank(xs[0]) {
      NonBlankKeeps(xs[1..], m - 1);
    }
  }

  lemma DefaultIsBackground()
    ensures IsBackground(DEFAULT_COLOR)
  {
    var inner := "200, 200, 200, 1";
    assert DEFAULT_COLOR == "rgba(" + inner + ")";
    assert forall k :: 0 <= k < |inner| ==> inner[k] in "012, ";
    Wrapped(inner);
  }

  lemma Wrapped(inner: string)
    requires forall k :: 0 <= k < |inner| ==> inner[k] != ')' && !IsLineTerminator(inner[k])
    ensures IsBackground("rgba(" + inner + ")")
  {
    var w := "rgba(" + inner + ")";
    assert forall k :: 5 <= k < |w| - 1 ==> w[k] == inner[k - 5];
  }

  /** The plus button adds the default colour as a new last entry. */
  lemma PlusAppendsDefault(items: seq<string>)
    requires forall m :: 0 <= m < |items| ==> IsBackground(items[m])
    ensures SplitBackgrounds(Some(PlusValue(Some(Join(items, ","))))) == items + [DEFAULT_COLOR]
    ensures PlusValue(None) == DEFAULT_COLOR
  {
    var w := DEFAULT_COLOR;
    DefaultIsBackground();
    assert IsBackground(w);
    AppendToValue(items, w);
  }

  /** Writing `w` after a comma, or alone when there is no value yet, adds `w` as the last entry. */
  lemma AppendToValue(items: seq<string>, w: string)
    requires IsBackground(w)
    requires forall m :: 0 <= m < |items| ==> IsBackground(items[m])
    ensures SplitBackgrounds(Some(AppendColor(Some(Join(items, ",")), w))) == items + [w]
  {
    if items == [] {
      SplitJoin([w]);
      assert [] + [w] == [w];
    } else {
      NotBlank(items);
      JoinEmptyOnlyIfNoParts(items, ",");
      AppendEntry(items, w);
    }
  }

  /** A background appended after a comma to a non-empty list is read back as its last entry. */
  lemma AppendEntry(items: seq<string>, w: string)
    requires items != [] && IsBackground(w)
    requires forall m :: 0 <= m < |items| ==> IsBackground(items[m])
    ensures SplitBackgrounds(Some(Join(items, ",") + "," + w)) == items + [w]
  {
    var all := items + [w];
    AllBackgrounds(items, w);
    JoinSnoc(items, w, ",");
    SplitJoin(all);
    var x := Join(items, ",") + "," + w;
    assert x == Join(all, ",");
    assert SplitBackgrounds(Some(x)) == all;
  }

  lemma AllBackgrounds(items: seq<string>, w: string)
    requires IsBackground(w)
    requires forall m :: 0 <= m < |items| ==> IsBackground(items[m])
    ensures forall m :: 0 <= m < |items + [w]| ==> IsBackground((items + [w])[m])
  {
    var all := items + [w];
    forall m | 0 <= m < |all|
      ensures IsBackground(all[m])
    {
      if m < |items| {
        assert all[m] == items[m];
      } else {
        assert all[m] == w;
      }
    }
  }

  lemma {:induction false} JoinSnoc(items: seq<string>, w: string, sep: string)
    requires items != []
    ensures Join(items + [w], sep) == Join(items, sep) + sep + w
    decreases |items|
  {
    if |items| == 1 {
      assert items + [w] == [items[0]] + [w];
      JoinCons(items[0], [w], sep);
    } else {
      assert items + [w] == [items[0]] + (items[1..] + [w]);
      JoinCons(items[0], items[1..] + [w], sep);
      JoinSnoc(items[1..], w, sep);
      JoinCons(items[0], items[1..], sep);
      assert [items[0]] + items[1..] == items;
    }
  }
}
