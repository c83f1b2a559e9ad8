/**
 * The few JavaScript string operations the editors rely on, over `seq<char>`:
 * `indexOf`, `replace(str, "")` (first occurrence only), `replace(/^&/, "")`,
 * `trim()`-blankness and `join(sep)`; and the start index `Array.prototype.splice` uses.
 */
module Strings {

  predicate IsPrefix(p: string, s: string) {
    |p| <= |s| && s[..|p|] == p
  }

  /** `p` occurs in `s` at index `k`. */
  predicate OccursAt(s: string, p: string, k: int) {
    0 <= k && k + |p| <= |s| && s[k..k + |p|] == p
  }

  /** `s.indexOf(p)`: the first index at which `p` occurs, or -1. */
  function IndexOf(s: string, p: string): (r: int)
    ensures r == -1 || OccursAt(s, p, r)
    ensures forall k :: 0 <= k && (r == -1 || k < r) ==> !OccursAt(s, p, k)
  {
    IndexFrom(s, p, 0)
  }

  function IndexFrom(s: string, p: string, from: nat): (r: int)
    ensures r == -1 || (from <= r && OccursAt(s, p, r))
    ensures forall k :: from <= k && (r == -1 || k < r) ==> !OccursAt(s, p, k)
    decreases |s| + 1 - from
  {
    if from + |p| > |s| then -1
    else if s[from..from + |p|] == p then from
    else IndexFrom(s, p, from + 1)
  }

  /** `s.replace(p, w)` with a string pattern: only the first occurrence is replaced. */
  function ReplaceFirst(s: string, p: string, w: string): (r: string)
    ensures IndexOf(s, p) == -1 ==> r == s
    ensures IndexOf(s, p) >= 0 ==>
      r == s[..IndexOf(s, p)] + w + s[IndexOf(s, p) + |p|..]
  {
    var i := IndexOf(s, p);
    if i < 0 then s else s[..i] + w + s[i + |p|..]
  }

  /** Removing a leading occurrence of the pattern gives back what follows it. */
  lemma ReplaceLeading(p: string, s: string)
    ensures ReplaceFirst(p + s, p, "") == s
  {
    assert OccursAt(p + s, p, 0);
    assert (p + s)[|p|..] == s;
  }

  /** `s.replace(/^&/, "")`. */
  function StripAmp(s: string): (r: string)
    ensures IsPrefix("&", s) ==> r == s[1..]
    ensures !IsPrefix("&", s) ==> r == s
  {
    if |s| > 0 && s[0] == '&' then s[1..] else s
  }

  /** The characters `String.prototype.trim` removes (White_Space and line terminators). */
  predicate IsJsWhitespace(c: char) {
    c == ' ' || c == '\t' || c == '\n' || c == '\r' || c == '\U{000B}' || c == '\U{000C}'
    || c == '\U{00A0}' || c == '\U{1680}' || ('\U{2000}' <= c <= '\U{200A}')
    || c == '\U{2028}' || c == '\U{2029}' || c == '\U{202F}' || c == '\U{205F}'
    || c == '\U{3000}' || c == '\U{FEFF}'
  }

  /** `Boolean(s.trim())` is false. */
  predicate IsBlank(s: string)
    decreases |s|
  {
    s == "" || (IsJsWhitespace(s[0]) && IsBlank(s[1..]))
  }

  /** `parts.join(sep)`. */
  function Join(parts: seq<string>, sep: string): (r: string)
    ensures parts == [] ==> r == ""
    ensures |parts| == 1 ==> r == parts[0]
  {
    if parts == [] then ""
    else if |parts| == 1 then parts[0]
    else parts[0] + sep + Join(parts[1..], sep)
  }

  lemma JoinEmptyOnlyIfNoParts(parts: seq<string>, sep: string)
    requires "" !in parts
    ensures Join(parts, sep) == "" <==> parts == []
  {
    if |parts| > 1 {
      assert |Join(parts, sep)| >= |parts[0]|;
    }
  }

  /** The start `Array.prototype.splice` uses: a negative index counts from the end, and both ends clamp. */
  function SpliceStart(len: nat, index: int): (s: nat)
    ensures s <= len
    ensures 0 <= index <= len ==> s == index
  {
    if index < 0 then (if len + index < 0 then 0 else len + index) else if index > len then len else index
  }
}
