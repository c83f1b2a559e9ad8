/**
 * The TSX source editor (src/@tandem/typescript-extension/sandbox/ts-editor.ts): each edit
 * change is turned into `{start, end, value}` replacements pushed onto the editor's
 * `_replacements` list, and the final text splices them in (see module TsReplacements).
 *
 * The TypeScript compiler's syntax tree is replaced by the datatype `TsNode`: every node carries
 * its `getStart()`/`getEnd()` offsets and the line/character TypeScript reports for its full
 * start; `ForEachChild` lists the children in the order `ts.forEachChild` visits them.
 */
module TsEditor {
  import opened Wrappers
  import opened TsReplacements

  datatype Span = Span(start: int, end: int, line: int, character: int)

  datatype TsNode =
    | JsxElement(span: Span, opening: TsNode, jsxChildren: seq<TsNode>, closing: TsNode)
    | JsxOpeningElement(span: Span, tagName: TsNode, attributes: seq<TsNode>)
    | JsxSelfClosingElement(span: Span, tagName: TsNode, attributes: seq<TsNode>)
    | JsxAttribute(span: Span, name: TsNode, initializer: Option<TsNode>)
    | Identifier(span: Span, text: string)
    | OtherNode(span: Span, children: seq<TsNode>)

  /** The children of a node, in `ts.forEachChild` order. */
  function ForEachChild(n: TsNode): (r: seq<TsNode>)
    ensures forall i :: 0 <= i < |r| ==> r[i] < n
  {
    match n
    case JsxElement(_, opening, jsxChildren, closing) => [opening] + jsxChildren + [closing]
    case JsxOpeningElement(_, tagName, attributes) => [tagName] + attributes
    case JsxSelfClosingElement(_, tagName, attributes) => [tagName] + attributes
    case JsxAttribute(_, name, initializer) =>
      if initializer.Some? then [name, initializer.value] else [name]
    case Identifier(_, _) => []
    case OtherNode(_, children) => children
  }

  /** `node.getText()`: `String.prototype.substring` of the source between start and end. */
  function Substring(s: string, a: int, b: int): (r: string)
    ensures 0 <= a <= b <= |s| ==> r == s[a..b]
  {
    var lo := if a < 0 then 0 else if a > |s| then |s| else a;
    var hi := if b < 0 then 0 else if b > |s| then |s| else b;
    if lo <= hi then s[lo..hi] else s[hi..lo]
  }

  function GetText(content: string, n: TsNode): string {
    Substring(content, n.span.start, n.span.end)
  }

  // ---------------------------------------------------------------------------------------
  // findTargetASTNode
  // ---------------------------------------------------------------------------------------

  /** The synthetic DOM node an edit refers to: its node type and recorded source start. */
  datatype SyntheticNode = SyntheticNode(isElement: bool, line: int, column: int)

  /** The tag-name Identifier test: the full start's line + 1 and character − 1 equal the recorded position. */
  predicate IsAnchor(node: TsNode, target: SyntheticNode) {
    target.isElement && node.Identifier?
    && node.span.line + 1 == target.line && node.span.character - 1 == target.column
  }

  /** `found = node.parent`, lifted from an opening element to its element. */
  function Lift(parent: TsNode, grand: TsNode): TsNode {
    if parent.JsxOpeningElement? then grand else parent
  }

  /** One call of the inner `find`: it may set `found`, and descends only while nothing is found. */
  function Visit(found: Option<TsNode>, node: TsNode, parent: TsNode, grand: TsNode,
                 target: SyntheticNode): Option<TsNode>
    decreases node, 1
  {
    var f := if IsAnchor(node, target) then Some(Lift(parent, grand)) else found;
    if f.None? then VisitAll(f, ForEachChild(node), node, parent, target) else f
  }

  /** `ts.forEachChild(parent, find)`: `find` returns nothing, so every child is visited. */
  function VisitAll(found: Option<TsNode>, nodes: seq<TsNode>, parent: TsNode, grand: TsNode,
                    target: SyntheticNode): Option<TsNode>
    requires forall i :: 0 <= i < |nodes| ==> nodes[i] < parent
    decreases parent, 0, |nodes|
  {
    if nodes == [] then found
    else VisitAll(Visit(found, nodes[0], parent, grand, target), nodes[1..], parent, grand, target)
  }

  /** `findTargetASTNode(root, target)`; the root's own parent is never consulted. */
  function FindTargetAstNode(root: TsNode, target: SyntheticNode): Option<TsNode>
    requires !root.JsxOpeningElement?
  {
    VisitAll(None, ForEachChild(root), root, root, target)
  }

  /** Reference: the lifted parents of every anchor Identifier below `node`'s children, in pre-order. */
  function AnchorsOf(node: TsNode, parent: TsNode, grand: TsNode, target: SyntheticNode): seq<TsNode>
    decreases node, 1
  {
    (if IsAnchor(node, target) then [Lift(parent, grand)] else [])
    + AnchorsAll(ForEachChild(node), node, parent, target)
  }

  function AnchorsAll(nodes: seq<TsNode>, parent: TsNode, grand: TsNode, target: SyntheticNode): seq<TsNode>
    requires forall i :: 0 <= i < |nodes| ==> nodes[i] < parent
    decreases parent, 0, |nodes|
  {
    if nodes == [] then []
    else AnchorsOf(nodes[0], parent, grand, target) + AnchorsAll(nodes[1..], parent, grand, target)
  }

  function Anchors(root: TsNode, target: SyntheticNode): seq<TsNode> {
    AnchorsAll(ForEachChild(root), root, root, target)
  }

  lemma {:induction false} VisitFacts(found: Option<TsNode>, node: TsNode, parent: TsNode, grand: TsNode,
                                      target: SyntheticNode)
    ensures var r := Visit(found, node, parent, grand, target);
            var m := AnchorsOf(node, parent, grand, target);
            (r.None? <==> found.None? && m == []) && (r.Some? ==> r == found || r.value in m)
    decreases node, 1
  {
    if !IsAnchor(node, target) && found.None? {
      VisitAllFacts(found, ForEachChild(node), node, parent, target);
    }
  }

  lemma {:induction false} VisitAllFacts(found: Option<TsNode>, nodes: seq<TsNode>, parent: TsNode,
                                         grand: TsNode, target: SyntheticNode)
    requires forall i :: 0 <= i < |nodes| ==> nodes[i] < parent
    ensures var r := VisitAll(found, nodes, parent, grand, target);
            var m := AnchorsAll(nodes, parent, grand, target);
            (r.None? <==> found.None? && m == []) && (r.Some? ==> r == found || r.value in m)
    decreases parent, 0, |nodes|
  {
    if nodes != [] {
      var f1 := Visit(found, nodes[0], parent, grand, target);
      VisitFacts(found, nodes[0], parent, grand, target);
      VisitAllFacts(f1, nodes[1..], parent, grand, target);
    }
  }

  /**
   * The locator finds something iff some Identifier sits at the recorded position; what it finds
   * is the (lifted) parent of such an Identifier, and when exactly one Identifier sits there it is
   * that one's. (A later sibling of the first match, or of one of its ancestors, is still tested
   * and overwrites `found`; only its subtree is skipped.)
   */
  lemma FindTargetIsAnAnchor(root: TsNode, target: SyntheticNode)
    requires !root.JsxOpeningElement?
    ensures FindTargetAstNode(root, target).None? <==> Anchors(root, target) == []
    ensures FindTargetAstNode(root, target).Some? ==>
              FindTargetAstNode(root, target).value in Anchors(root, target)
    ensures |Anchors(root, target)| == 1 ==> FindTargetAstNode(root, target) == Some(Anchors(root, target)[0])
  {
    VisitAllFacts(None, ForEachChild(root), root, root, target);
  }

  // ---------------------------------------------------------------------------------------
  // The replacements each handler emits
  // ---------------------------------------------------------------------------------------

  /** Delete a node's `[getStart, getEnd)` span. */
  function Deletion(n: TsNode): Replacement {
    Replacement(n.span.start, n.span.end, "")
  }

  /** Insert `value` without removing anything, at `pos`. */
  function Insertion(pos: int, value: string): Replacement {
    Replacement(pos, pos, value)
  }

  /** Move-child: delete the child, then insert its own text at the start of `before`. */
  function MoveEdits(content: string, child: TsNode, before: TsNode): seq<Replacement> {
    [Deletion(child), Insertion(before.span.start, GetText(content, child))]
  }

  /** Where the child may go in the insert-child handler of a non-self-closing element. */
  datatype ChildIndex = At(i: int) | Infinity

  /** The value the attribute handlers print for `action.newValue` in a template string. */
  datatype JsValue = Undefined | Null | Str(s: string)

  function Show(v: JsValue): string {
    match v
    case Undefined => "undefined"
    case Null => "null"
    case Str(s) => s
  }

  predicate IsNullish(v: JsValue) {
    v.Undefined? || v.Null?
  }

  /** The handler's only alias: `class` is also looked up as `className`. */
  function AlternativeName(name: string): Option<string> {
    if name == "class" then Some("className") else None
  }

  predicate NameMatches(attr: TsNode, name: string)
    requires attr.JsxAttribute?
  {
    attr.name.Identifier?
    && (attr.name.text == name || Some(attr.name.text) == AlternativeName(name))
  }

  /** The state of the attribute loop: pushed replacements, the `found` flag, whether it threw. */
  datatype Scan = Scan(pushed: seq<Replacement>, found: bool, threw: bool)

  /** One iteration of the attribute loop. */
  function ScanStep(s: Scan, attr: TsNode, name: string, newValue: JsValue): Scan {
    if s.threw then s
    else if !attr.JsxAttribute? then Scan(s.pushed, s.found, true)   // `attr.name.text` on a spread
    else if !NameMatches(attr, name) then s
    else if IsNullish(newValue) then Scan(s.pushed + [Deletion(attr)], true, false)
    else if attr.initializer.None? then Scan(s.pushed, true, true)  // `attr.initializer.getStart()`
    else Scan(s.pushed + [ValueEdit(attr.initializer.value, newValue)], true, false)
  }

  /** The initializer's text is replaced by the new value in double quotes. */
  function ValueEdit(init: TsNode, newValue: JsValue): Replacement {
    Replacement(init.span.start, init.span.end, "\"" + Show(newValue) + "\"")
  }

  /** ` name="value"` inserted right after the tag name. */
  function AttributeEdit(el: TsNode, name: string, newValue: JsValue): Replacement
    requires el.JsxOpeningElement? || el.JsxSelfClosingElement?
  {
    Insertion(el.tagName.span.end, " " + name + "=\"" + Show(newValue) + "\"")
  }

  function ScanAttributes(attrs: seq<TsNode>, name: string, newValue: JsValue): Scan
    decreases |attrs|
  {
    if attrs == [] then Scan([], false, false)
    else ScanStep(ScanAttributes(attrs[..|attrs| - 1], name, newValue), attrs[|attrs| - 1], name, newValue)
  }

  /** The whole of `modify(el)`: the replacements pushed, and whether it returned normally. */
  function ModifyEdits(el: TsNode, name: string, newValue: JsValue): (seq<Replacement>, bool)
  {
    if !(el.JsxOpeningElement? || el.JsxSelfClosingElement?) then ([], false)
    else
      var s := ScanAttributes(el.attributes, name, newValue);
      if s.threw then (s.pushed, false)
      else if s.found then (s.pushed, true)
      else (s.pushed + [AttributeEdit(el, name, newValue)], true)
  }

  // ---------------------------------------------------------------------------------------
  // The editor
  // ---------------------------------------------------------------------------------------

  class Editor {
    /** The text the tree was parsed from. */
    const content: string
    /** `_replacements`. */
    var replacements: seq<Replacement>

    constructor (content: string)
      ensures this.content == content && replacements == []
    {
      this.content := content;
      replacements := [];
    }

    /** MOVE_CHILD_NODE_EDIT. Returns false where the handler throws (no child found, no such index). */
    method MoveChild(target: TsNode, child: SyntheticNode, newIndex: int) returns (ok: bool)
      requires !target.JsxOpeningElement?
      modifies this
      ensures var c := FindTargetAstNode(target, child);
        && (c.None? ==> !ok && replacements == old(replacements))
        && (c.Some? && !(target.JsxElement? && 0 <= newIndex < |target.jsxChildren|) ==>
              !ok && replacements == old(replacements) + [Deletion(c.value)])
        && (c.Some? && target.JsxElement? && 0 <= newIndex < |target.jsxChildren| ==>
              ok && replacements == old(replacements)
                                    + MoveEdits(content, c.value, target.jsxChildren[newIndex]))
    {
      var c := FindTargetAstNode(target, child);
      if c.None? {
        return false;
      }
      replacements := replacements + [Deletion(c.value)];
      if !(target.JsxElement? && 0 <= newIndex < |target.jsxChildren|) {
        return false;
      }
      var beforeChild := target.jsxChildren[newIndex];
      replacements := replacements + [Insertion(beforeChild.span.start, GetText(content, c.value))];
      ok := true;
    }

    /** REMOVE_CHILD_NODE_EDIT. */
    method RemoveChild(target: TsNode, child: SyntheticNode) returns (ok: bool)
      requires !target.JsxOpeningElement?
      modifies this
      ensures var c := FindTargetAstNode(target, child);
        && ok == c.Some?
        && replacements == old(replacements) + (if ok then [Deletion(c.value)] else [])
    {
      var c := FindTargetAstNode(target, child);
      if c.None? {
        return false;
      }
      replacements := replacements + [Deletion(c.value)];
      ok := true;
    }

    /**
     * INSERT_CHILD_NODE_EDIT, with `childText` the serialised child (`action.child.toString()`).
     * A self-closing element has its trailing `/>` replaced by `>child</tag>`; otherwise the text
     * is inserted right after `children[index]` (the last child for Infinity), or right after the
     * opening element when there are no children.
     */
    method InsertChild(target: TsNode, childText: string, index: ChildIndex) returns (ok: bool)
      modifies this
      ensures target.JsxSelfClosingElement? ==>
        ok && replacements == old(replacements) + [SelfClosingInsertion(content, target, childText)]
      ensures target.JsxElement? && target.jsxChildren == [] ==>
        ok && replacements == old(replacements) + [Insertion(target.opening.span.end, childText)]
      ensures target.JsxElement? && target.jsxChildren != [] ==>
        var k := if index.Infinity? then |target.jsxChildren| - 1 else index.i;
        && ok == (0 <= k < |target.jsxChildren|)
        && replacements == old(replacements)
             + (if ok then [Insertion(target.jsxChildren[k].span.end, childText)] else [])
      ensures !target.JsxSelfClosingElement? && !target.JsxElement? ==>
        !ok && replacements == old(replacements)
    {
      if target.JsxSelfClosingElement? {
        replacements := replacements + [SelfClosingInsertion(content, target, childText)];
        return true;
      }
      if !target.JsxElement? {
        return false;   // `jsxElement.children.length` on a node without children
      }
      var pos: int;
      if |target.jsxChildren| > 0 {
        var k := if index.Infinity? then |target.jsxChildren| - 1 else index.i;
        if !(0 <= k < |target.jsxChildren|) {
          return false;  // `children[index]` is undefined
        }
        pos := target.jsxChildren[k].span.end;
      } else {
        pos := target.opening.span.end;
      }
      replacements := replacements + [Insertion(pos, childText)];
      ok := true;
    }

    /**
     * SET_ELEMENT_ATTRIBUTE_EDIT on a self-closing element or on an element's opening tag;
     * any other target is left alone.
     */
    method SetAttribute(target: TsNode, name: string, newValue: JsValue) returns (ok: bool)
      modifies this
      ensures target.JsxSelfClosingElement? ==>
        replacements == old(replacements) + ModifyEdits(target, name, newValue).0
        && ok == ModifyEdits(target, name, newValue).1
      ensures target.JsxElement? ==>
        replacements == old(replacements) + ModifyEdits(target.opening, name, newValue).0
        && ok == ModifyEdits(target.opening, name, newValue).1
      ensures !target.JsxSelfClosingElement? && !target.JsxElement? ==>
        ok && replacements == old(replacements)
    {
      if target.JsxSelfClosingElement? {
        ok := Modify(target, name, newValue);
      } else if target.JsxElement? {
        ok := Modify(target.opening, name, newValue);
      } else {
        ok := true;
      }
    }

    /** The inner `modify`: the attribute loop, then the new attribute when none matched. */
    method Modify(el: TsNode, name: string, newValue: JsValue) returns (ok: bool)
      modifies this
      ensures replacements == old(replacements) + ModifyEdits(el, name, newValue).0
      ensures ok == ModifyEdits(el, name, newValue).1
    {
      if !(el.JsxOpeningElement? || el.JsxSelfClosingElement?) {
        assert old(replacements) + [] == replacements;
        return false;   // `for (… of target.attributes)` over undefined
      }
      var found, threw := ScanLoop(el.attributes, name, newValue);
      if threw {
        return false;
      }
      if !found {
        replacements := replacements + [AttributeEdit(el, name, newValue)];
      }
      ok := true;
    }

    /** `for (const attr of target.attributes)`: pushes an edit for every attribute named `name`. */
    method ScanLoop(attrs: seq<TsNode>, name: string, newValue: JsValue) returns (found: bool, threw: bool)
      modifies this
      ensures replacements == old(replacements) + ScanAttributes(attrs, name, newValue).pushed
      ensures found == ScanAttributes(attrs, name, newValue).found
      ensures threw == ScanAttributes(attrs, name, newValue).threw
    {
      found, threw := false, false;
      var i := 0;
      while i < |attrs|
        invariant 0 <= i <= |attrs|
        invariant !ScanAttributes(attrs[..i], name, newValue).threw
        invariant found == ScanAttributes(attrs[..i], name, newValue).found
        invariant replacements == old(replacements) + ScanAttributes(attrs[..i], name, newValue).pushed
      {
        ScanSnoc(attrs, i, name, newValue);
        var attr := attrs[i];
        if !attr.JsxAttribute? {
          ScanStaysThrown(attrs, i + 1, name, newValue);
          return found, true;   // `attr.name.text` on a spread attribute
        }
        if NameMatches(attr, name) {
          found := true;
          if IsNullish(newValue) {
            replacements := replacements + [Deletion(attr)];
          } else if attr.initializer.None? {
            ScanStaysThrown(attrs, i + 1, name, newValue);
            return found, true;   // `attr.initializer.getStart()` on a bare attribute
          } else {
            replacements := replacements + [ValueEdit(attr.initializer.value, newValue)];
          }
        }
        i := i + 1;
      }
      assert attrs[..i] == attrs;
    }

    /** `getFormattedContent`: sort `_replacements` in place, then splice them into the text. */
    method GetFormattedContent() returns (text: string)
      modifies this
      ensures replacements == SortDesc(old(replacements))
      ensures text == SpliceAll(content, replacements)
      ensures old(replacements) == [] ==> text == content
      ensures NonOverlapping(content, old(replacements)) ==> |text| == |content| + Delta(old(replacements))
      ensures Separated(content, old(replacements)) ==>
        Chained(content, replacements) && text == Stitch(content, replacements, 0)
    {
      if NonOverlapping(content, replacements) {
        FormattedLength(content, replacements);
      }
      if Separated(content, replacements) {
        FormattedText(content, replacements);
      }
      replacements := SortDesc(replacements);
      text := content;
      var i := 0;
      while i < |replacements|
        invariant 0 <= i <= |replacements|
        invariant text == SpliceAll(content, replacements[..i])
      {
        assert replacements[..i + 1][..i] == replacements[..i];
        text := Splice(text, replacements[i]);
        i := i + 1;
      }
      assert replacements[..i] == replacements;
    }
  }

  /** Self-closing insert: `/>` (the last two characters) becomes `>child</tag>`. */
  function SelfClosingInsertion(content: string, el: TsNode, childText: string): Replacement
    requires el.JsxSelfClosingElement?
  {
    Replacement(el.span.end - 2, el.span.end, ">" + childText + "</" + GetText(content, el.tagName) + ">")
  }

  lemma ScanSnoc(attrs: seq<TsNode>, i: nat, name: string, newValue: JsValue)
    requires i < |attrs|
    ensures ScanAttributes(attrs[..i + 1], name, newValue)
            == ScanStep(ScanAttributes(attrs[..i], name, newValue), attrs[i], name, newValue)
  {
    assert attrs[..i + 1][..i] == attrs[..i];
  }

  lemma {:induction false} ScanStaysThrown(attrs: seq<TsNode>, k: nat, name: string, newValue: JsValue)
    requires k <= |attrs| && ScanAttributes(attrs[..k], name, newValue).threw
    ensures ScanAttributes(attrs, name, newValue) == ScanAttributes(attrs[..k], name, newValue)
    decreases |attrs| - k
  {
    if k < |attrs| {
      assert attrs[..k + 1][..k] == attrs[..k];
      ScanStaysThrown(attrs, k + 1, name, newValue);
    } else {
      assert attrs[..k] == attrs;
    }
  }

  // ---------------------------------------------------------------------------------------
  // What the handlers do to the text
  // ---------------------------------------------------------------------------------------

  /** A single replacement inside the text: the span is swapped for the value, nothing else moves. */
  lemma SingleReplacementText(content: string, r: Replacement)
    requires InText(content, r)
    ensures SpliceAll(content, SortDesc([r])) == content[..r.start] + r.value + content[r.end..]
  {
    assert SortDesc([r]) == [r];
    assert [r][..0] == [];
  }

  /** Remove-child deletes exactly the child's `[getStart, getEnd)` span. */
  lemma RemoveChildText(content: string, child: TsNode)
    requires InText(content, Deletion(child))
    ensures SpliceAll(content, SortDesc([Deletion(child)]))
            == content[..child.span.start] + content[child.span.end..]
  {
    SingleReplacementText(content, Deletion(child));
  }

  /** Two replacements are applied one after the other, the first one first. */
  lemma SpliceTwo(text: string, r1: Replacement, r2: Replacement)
    ensures SpliceAll(text, [r1, r2]) == Splice(Splice(text, r1), r2)
  {
    assert [r1, r2][..1] == [r1];
    assert [r1][..0] == [];
    assert SpliceAll(text, [r1]) == Splice(text, r1);
  }

  /** Sorting two replacements puts the second one first unless the first starts strictly later. */
  lemma SortTwo(r1: Replacement, r2: Replacement)
    ensures SortDesc([r1, r2]) == if r1.start > r2.start then [r1, r2] else [r2, r1]
  {
    assert [r1, r2][..1] == [r1];
    assert [r1][..0] == [];
    assert SortDesc([r1]) == [r1];
    assert [r1][1..] == [];
    assert InsertDesc([], r2) == [r2];
    assert SortDesc([r1, r2]) == InsertDesc([r1], r2);
  }

  lemma CutBefore(content: string, cs: int, ce: int, b: int)
    requires 0 <= b < cs <= ce <= |content|
    ensures Splice(Splice(content, Replacement(cs, ce, "")), Replacement(b, b, content[cs..ce]))
            == content[..b] + content[cs..ce] + content[b..cs] + content[ce..]
  {
    var x := content[..cs] + content[ce..];
    assert Splice(content, Replacement(cs, ce, "")) == x;
    assert x[..b] == content[..b];
    assert x[b..] == content[b..cs] + content[ce..];
  }

  lemma CutAfter(content: string, cs: int, ce: int, b: int)
    requires 0 <= cs <= ce <= b <= |content| && cs < b
    ensures Splice(Splice(content, Replacement(b, b, content[cs..ce])), Replacement(cs, ce, ""))
            == content[..cs] + content[ce..b] + content[cs..ce] + content[b..]
  {
    var c := content[cs..ce];
    var y := content[..b] + c + content[b..];
    assert Splice(content, Replacement(b, b, c)) == y;
    assert y[..cs] == content[..cs];
    assert y == content[..ce] + (content[ce..b] + c + content[b..]);
    assert y[ce..] == content[ce..b] + c + content[b..];
  }

  /**
   * Moving a child in front of an earlier sibling: the child's own text is cut out and
   * re-inserted before that sibling; the rest of the text keeps its order.
   */
  lemma MoveChildBackwardText(content: string, child: TsNode, before: TsNode)
    requires 0 <= before.span.start < child.span.start <= child.span.end <= |content|
    ensures SpliceAll(content, SortDesc(MoveEdits(content, child, before)))
            == content[..before.span.start] + content[child.span.start..child.span.end]
               + content[before.span.start..child.span.start] + content[child.span.end..]
  {
    var d, i := Deletion(child), Insertion(before.span.start, GetText(content, child));
    SortTwo(d, i);
    SpliceTwo(content, d, i);
    CutBefore(content, child.span.start, child.span.end, before.span.start);
  }

  /** Moving a child in front of a later sibling. */
  lemma MoveChildForwardText(content: string, child: TsNode, before: TsNode)
    requires 0 <= child.span.start <= child.span.end <= before.span.start <= |content|
    requires child.span.start < before.span.start
    ensures SpliceAll(content, SortDesc(MoveEdits(content, child, before)))
            == content[..child.span.start] + content[child.span.end..before.span.start]
               + content[child.span.start..child.span.end] + content[before.span.start..]
  {
    var d, i := Deletion(child), Insertion(before.span.start, GetText(content, child));
    SortTwo(d, i);
    SpliceTwo(content, i, d);
    CutAfter(content, child.span.start, child.span.end, before.span.start);
  }

  /**
   * Moving a child to its own position gives the text back unchanged: the insertion is sorted in
   * front of the deletion (equal starts), and the deletion then removes the inserted copy.
   */
  lemma MoveChildInPlaceText(content: string, child: TsNode, before: TsNode)
    requires 0 <= child.span.start <= child.span.end <= |content|
    requires before.span.start == child.span.start
    ensures SpliceAll(content, SortDesc(MoveEdits(content, child, before))) == content
  {
    var s, e := child.span.start, child.span.end;
    var d, i := Deletion(child), Insertion(s, GetText(content, child));
    SortTwo(d, i);
    SpliceTwo(content, i, d);
    PasteThenCut(content, s, e);
  }

  lemma PasteThenCut(content: string, s: int, e: int)
    requires 0 <= s <= e <= |content|
    ensures Splice(Splice(content, Replacement(s, s, content[s..e])), Replacement(s, e, "")) == content
  {
    var x := content[..s] + content[s..e] + content[s..];
    assert Splice(content, Replacement(s, s, content[s..e])) == x;
    assert Head(x, s) == content[..s];
    assert x == (content[..s] + content[s..e]) + content[s..];
    assert Tail(x, e) == content[s..];
    assert content[..s] + content[s..] == content;
  }

  /** Insert-child into a self-closing element rewrites its trailing two characters. */
  lemma SelfClosingInsertText(content: string, el: TsNode, childText: string)
    requires el.JsxSelfClosingElement? && 2 <= el.span.end <= |content|
    ensures SpliceAll(content, SortDesc([SelfClosingInsertion(content, el, childText)]))
            == content[..el.span.end - 2] + (">" + childText + "</" + GetText(content, el.tagName) + ">")
               + content[el.span.end..]
  {
    SingleReplacementText(content, SelfClosingInsertion(content, el, childText));
  }

  /**
   * Inserting into a bare self-closing element gives it an explicit closing tag with its own name:
   * `<div/>` with a `<span/>` child becomes `<div><span/></div>`, for any tag and child text.
   */
  lemma SelfClosingExample(tag: string, childText: string)
    ensures var content := "<" + tag + "/>";
            var el := JsxSelfClosingElement(Span(0, |tag| + 3, 0, 0), Identifier(Span(1, |tag| + 1, 0, 1), tag), []);
            SpliceAll(content, SortDesc([SelfClosingInsertion(content, el, childText)]))
            == "<" + tag + ">" + childText + "</" + tag + ">"
  {
    var content := "<" + tag + "/>";
    var el := JsxSelfClosingElement(Span(0, |tag| + 3, 0, 0), Identifier(Span(1, |tag| + 1, 0, 1), tag), []);
    SelfClosingInsertText(content, el, childText);
    assert content[..|tag| + 1] == "<" + tag;
    assert content[1..|tag| + 1] == tag;
    assert content[|tag| + 3..] == "";
  }

  /** A zero-width insertion puts the value at `pos` and moves nothing else. */
  lemma InsertionText(content: string, pos: int, value: string)
    requires 0 <= pos <= |content|
    ensures SpliceAll(content, SortDesc([Insertion(pos, value)])) == content[..pos] + value + content[pos..]
  {
    SingleReplacementText(content, Insertion(pos, value));
  }

  /** The attributes the set-attribute loop acts on: those named `name` (or its alias), in order. */
  function Matching(attrs: seq<TsNode>, name: string): (r: seq<TsNode>)
    ensures forall i :: 0 <= i < |r| ==> r[i] in attrs && r[i].JsxAttribute? && NameMatches(r[i], name)
    decreases |attrs|
  {
    if attrs == [] then []
    else
      var last := attrs[|attrs| - 1];
      Matching(attrs[..|attrs| - 1], name) + (if last.JsxAttribute? && NameMatches(last, name) then [last] else [])
  }

  function Deletions(attrs: seq<TsNode>): seq<Replacement>
    decreases |attrs|
  {
    if attrs == [] then [] else Deletions(attrs[..|attrs| - 1]) + [Deletion(attrs[|attrs| - 1])]
  }

  /** Each attribute's initializer span replaced by the quoted new value. */
  function ValueEdits(attrs: seq<TsNode>, newValue: JsValue): seq<Replacement>
    requires forall i :: 0 <= i < |attrs| ==> attrs[i].JsxAttribute? && attrs[i].initializer.Some?
    decreases |attrs|
  {
    if attrs == [] then []
    else
      var a := attrs[|attrs| - 1];
      ValueEdits(attrs[..|attrs| - 1], newValue)
      + [ValueEdit(a.initializer.value, newValue)]
  }

  predicate PlainAttributes(attrs: seq<TsNode>) {
    forall i :: 0 <= i < |attrs| ==> attrs[i].JsxAttribute?
  }

  /** With a null or undefined value the loop deletes exactly the matching attributes' spans. */
  lemma {:induction false} ScanNullish(attrs: seq<TsNode>, name: string, newValue: JsValue)
    requires IsNullish(newValue) && PlainAttributes(attrs)
    ensures ScanAttributes(attrs, name, newValue)
            == Scan(Deletions(Matching(attrs, name)), Matching(attrs, name) != [], false)
    decreases |attrs|
  {
    if attrs != [] {
      ScanNullish(attrs[..|attrs| - 1], name, newValue);
      var m0 := Matching(attrs[..|attrs| - 1], name);
      var m := Matching(attrs, name);
      if m != m0 {
        assert m[..|m| - 1] == m0;
      }
    }
  }

  /** With a value the loop replaces exactly the matching attributes' initializer spans. */
  lemma {:induction false} ScanValue(attrs: seq<TsNode>, name: string, newValue: JsValue)
    requires !IsNullish(newValue) && PlainAttributes(attrs)
    requires forall i :: 0 <= i < |attrs| && NameMatches(attrs[i], name) ==> attrs[i].initializer.Some?
    ensures ScanAttributes(attrs, name, newValue)
            == Scan(ValueEdits(Matching(attrs, name), newValue), Matching(attrs, name) != [], false)
    decreases |attrs|
  {
    if attrs != [] {
      ScanValue(attrs[..|attrs| - 1], name, newValue);
      var m0 := Matching(attrs[..|attrs| - 1], name);
      var m := Matching(attrs, name);
      if m != m0 {
        assert m[..|m| - 1] == m0;
      }
    }
  }

  /**
   * What set-attribute pushes for a tag whose attributes are all plain `name=value` attributes:
   * no match — one insertion of ` name="value"` right after the tag name; a null or undefined
   * value — the deletion of each matching attribute's span; otherwise — each matching
   * attribute's initializer replaced by `"value"`.
   */
  lemma SetAttributeEdits(el: TsNode, name: string, newValue: JsValue)
    requires el.JsxOpeningElement? || el.JsxSelfClosingElement?
    requires PlainAttributes(el.attributes)
    requires !IsNullish(newValue) ==>
      forall i :: 0 <= i < |el.attributes| && NameMatches(el.attributes[i], name) ==> el.attributes[i].initializer.Some?
    ensures ModifyEdits(el, name, newValue).1
    ensures Matching(el.attributes, name) == [] ==>
      ModifyEdits(el, name, newValue).0 == [Insertion(el.tagName.span.end, " " + name + "=\"" + Show(newValue) + "\"")]
    ensures Matching(el.attributes, name) != [] && IsNullish(newValue) ==>
      ModifyEdits(el, name, newValue).0 == Deletions(Matching(el.attributes, name))
    ensures Matching(el.attributes, name) != [] && !IsNullish(newValue) ==>
      ModifyEdits(el, name, newValue).0 == ValueEdits(Matching(el.attributes, name), newValue)
  {
    if IsNullish(newValue) {
      ScanNullish(el.attributes, name, newValue);
    } else {
      ScanValue(el.attributes, name, newValue);
    }
  }

  /**
   * Setting `class` to undefined on `<a class="x"/>` deletes the attribute's own span and keeps
   * the blank in front of it: the result is `<a />`.
   */
  lemma RemoveClassExample()
    ensures var attr := JsxAttribute(Span(3, 16, 0, 2), Identifier(Span(3, 12, 0, 2), "className"),
                                     Some(OtherNode(Span(13, 16, 0, 9), [])));
            var el := JsxSelfClosingElement(Span(0, 18, 0, 0), Identifier(Span(1, 2, 0, 1), "a"), [attr]);
            && ModifyEdits(el, "class", Undefined) == ([Deletion(attr)], true)
            && SpliceAll("<a className=\"x\"/>", SortDesc(ModifyEdits(el, "class", Undefined).0)) == "<a />"
  {
    var attr := JsxAttribute(Span(3, 16, 0, 2), Identifier(Span(3, 12, 0, 2), "className"),
                             Some(OtherNode(Span(13, 16, 0, 9), [])));
    var el := JsxSelfClosingElement(Span(0, 18, 0, 0), Identifier(Span(1, 2, 0, 1), "a"), [attr]);
    assert [attr][..0] == [];
    assert ScanAttributes([attr], "class", Undefined) == Scan([Deletion(attr)], true, false);
    RemoveChildText("<a className=\"x\"/>", attr);
  }
}
