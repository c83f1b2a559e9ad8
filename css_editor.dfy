/**
 * The CSS source editor (src/@tandem/synthetic-browser/sandbox/css-editor.ts): the
 * `setRuleSelector` and `setDeclaration` handlers edit a postcss rule node in place, and
 * `findTargetASTNode` locates the rule a synthetic CSS object came from, refining the recorded
 * source position by the rule's effective (nested, SASS-style) selector.
 *
 * The postcss tree is the datatype `CssNode`; `source` is `node.source.start` (a node created by
 * an edit has none). The rule being edited is a `RuleNode` object whose `selector` and `nodes`
 * the handlers reassign; `parents` is its chain `node.parent`, `node.parent.parent`, ...
 */
module CssEditor {
  import opened Wrappers
  import opened Strings

  datatype Position = Position(line: int, column: int)

  datatype CssNode =
    | Root(source: Option<Position>, nodes: seq<CssNode>)
    | Rule(source: Option<Position>, selector: string, nodes: seq<CssNode>)
    | AtRule(source: Option<Position>, name: string, nodes: seq<CssNode>)
    | Decl(source: Option<Position>, prop: string, value: Option<string>)
    | Comment(source: Option<Position>, text: string)

  /** postcss's `node.type` tag: "root", "rule", "atrule", "decl" or "comment". */
  datatype NodeType = RootType | RuleType | AtRuleType | DeclType | CommentType

  function Kind(n: CssNode): NodeType {
    match n
    case Root(_, _) => RootType
    case Rule(_, _, _) => RuleType
    case AtRule(_, _, _) => AtRuleType
    case Decl(_, _, _) => DeclType
    case Comment(_, _) => CommentType
  }

  /** The children of a container, in document order; other nodes have none. */
  function Children(n: CssNode): (r: seq<CssNode>)
    ensures forall i :: 0 <= i < |r| ==> r[i] < n
  {
    if n.Root? || n.Rule? || n.AtRule? then n.nodes else []
  }

  // ---------------------------------------------------------------------------------------
  // findTargetASTNode
  // ---------------------------------------------------------------------------------------

  /** `container.walk`: every descendant, each before its own descendants. */
  function WalkNode(n: CssNode): seq<CssNode>
    decreases n, 1
  {
    [n] + WalkAll(Children(n), n)
  }

  function WalkAll(nodes: seq<CssNode>, parent: CssNode): seq<CssNode>
    requires forall i :: 0 <= i < |nodes| ==> nodes[i] < parent
    decreases parent, 0, |nodes|
  {
    if nodes == [] then [] else WalkNode(nodes[0]) + WalkAll(nodes[1..], parent)
  }

  function Walk(root: CssNode): seq<CssNode> {
    WalkAll(Children(root), root)
  }

  /** The anchor test: same node type and same recorded start position. */
  predicate IsStart(n: CssNode, kind: NodeType, start: Position) {
    Kind(n) == kind && n.source == Some(start)
  }

  /**
   * `findMatchingRuleNode(node, synthetic, prefix)`: the rule itself when its effective selector
   * (`prefix` + own selector without a leading `&`) is the synthetic's, else the first match found
   * among its child rules, in document order.
   */
  function FindMatchingRuleNode(node: CssNode, target: string, prefix: string): Option<CssNode>
    requires node.Rule?
    decreases node, 1
  {
    var selector := prefix + StripAmp(node.selector);
    if selector == target then Some(node) else FindInChildRules(node.nodes, node, target, selector)
  }

  /** `node.each(...)`: stops at the first child rule whose search succeeds. */
  function FindInChildRules(nodes: seq<CssNode>, parent: CssNode, target: string, prefix: string)
    : Option<CssNode>
    requires forall i :: 0 <= i < |nodes| ==> nodes[i] < parent
    decreases parent, 0, |nodes|
  {
    if nodes == [] then None
    else if nodes[0].Rule? && FindMatchingRuleNode(nodes[0], target, prefix).Some? then
      FindMatchingRuleNode(nodes[0], target, prefix)
    else FindInChildRules(nodes[1..], parent, target, prefix)
  }

  /** `findNestedASTNode`: a rule anchor is refined by its selector, anything else is the answer. */
  function FindNestedAstNode(node: CssNode, target: string): Option<CssNode> {
    if node.Rule? then FindMatchingRuleNode(node, target, "") else Some(node)
  }

  /**
   * `findTargetASTNode`: the walk stops (`return false`) at the first node of the recorded kind
   * and start position, and the answer is that anchor refined by the synthetic rule's selector.
   */
  method FindTargetAstNode(root: CssNode, kind: NodeType, start: Position, selector: string)
    returns (found: Option<CssNode>)
    ensures (forall k :: 0 <= k < |Walk(root)| ==> !IsStart(Walk(root)[k], kind, start)) ==> found == None
    ensures forall k :: 0 <= k < |Walk(root)| && IsStart(Walk(root)[k], kind, start)
                        && (forall j :: 0 <= j < k ==> !IsStart(Walk(root)[j], kind, start))
                        ==> found == FindNestedAstNode(Walk(root)[k], selector)
  {
    var nodes := Walk(root);
    var index := FirstAnchor(nodes, kind, start);
    if index < 0 {
      found := None;
    } else {
      found := FindNestedAstNode(nodes[index], selector);
    }
  }

  /** The walk's loop: the index of the first visited node that is the anchor, or -1. */
  method FirstAnchor(nodes: seq<CssNode>, kind: NodeType, start: Position) returns (index: int)
    ensures -1 <= index < |nodes|
    ensures index == -1 <==> forall k :: 0 <= k < |nodes| ==> !IsStart(nodes[k], kind, start)
    ensures index >= 0 ==> IsStart(nodes[index], kind, start)
    ensures forall j :: 0 <= j < index ==> !IsStart(nodes[j], kind, start)
  {
    var i := 0;
    while i < |nodes|
      invariant 0 <= i <= |nodes|
      invariant forall j :: 0 <= j < i ==> !IsStart(nodes[j], kind, start)
    {
      if IsStart(nodes[i], kind, start) {
        return i;
      }
      i := i + 1;
    }
    index := -1;
  }

  // The reference for the nested search: every rule below `node` with its effective selector, in
  // document order; the search answers the first whose effective selector is the target.

  function RuleCandidates(node: CssNode, prefix: string): seq<(CssNode, string)>
    requires node.Rule?
    decreases node, 1
  {
    var selector := prefix + StripAmp(node.selector);
    [(node, selector)] + CandidatesAll(node.nodes, node, selector)
  }

  function CandidatesAll(nodes: seq<CssNode>, parent: CssNode, prefix: string): seq<(CssNode, string)>
    requires forall i :: 0 <= i < |nodes| ==> nodes[i] < parent
    decreases parent, 0, |nodes|
  {
    if nodes == [] then []
    else (if nodes[0].Rule? then RuleCandidates(nodes[0], prefix) else []) + CandidatesAll(nodes[1..], parent, prefix)
  }

  /** The first candidate whose effective selector is `target`. */
  function FirstSelected(cs: seq<(CssNode, string)>, target: string): Option<CssNode> {
    if cs == [] then None
    else if cs[0].1 == target then Some(cs[0].0)
    else FirstSelected(cs[1..], target)
  }

  lemma {:induction false} FirstSelectedFacts(cs: seq<(CssNode, string)>, target: string)
    ensures FirstSelected(cs, target).None? <==> forall i :: 0 <= i < |cs| ==> cs[i].1 != target
    ensures FirstSelected(cs, target).Some? ==>
              exists i :: 0 <= i < |cs| && cs[i] == (FirstSelected(cs, target).value, target)
                          && forall j :: 0 <= j < i ==> cs[j].1 != target
    decreases |cs|
  {
    if cs != [] && cs[0].1 != target {
      FirstSelectedFacts(cs[1..], target);
      var r := FirstSelected(cs, target);
      if r.Some? {
        var i :| 0 <= i < |cs[1..]| && cs[1..][i] == (r.value, target)
                 && forall j :: 0 <= j < i ==> cs[1..][j].1 != target;
        assert cs[i + 1] == (r.value, target);
        assert forall j :: 0 <= j < i + 1 ==> cs[j].1 != target by {
          forall j | 0 <= j < i + 1 ensures cs[j].1 != target {
            if j > 0 { assert cs[j] == cs[1..][j - 1]; }
          }
        }
      } else {
        forall i | 0 <= i < |cs| ensures cs[i].1 != target {
          if i > 0 { assert cs[i] == cs[1..][i - 1]; }
        }
      }
    }
  }

  lemma {:induction false} FirstSelectedAppend(a: seq<(CssNode, string)>, b: seq<(CssNode, string)>, target: string)
    ensures FirstSelected(a + b, target)
            == if FirstSelected(a, target).Some? then FirstSelected(a, target) else FirstSelected(b, target)
    decreases |a|
  {
    if a != [] {
      assert (a + b)[1..] == a[1..] + b;
      FirstSelectedAppend(a[1..], b, target);
    } else {
      assert a + b == b;
    }
  }

  lemma {:induction false} MatchingIsFirstCandidate(node: CssNode, target: string, prefix: string)
    requires node.Rule?
    ensures FindMatchingRuleNode(node, target, prefix) == FirstSelected(RuleCandidates(node, prefix), target)
    decreases node, 1
  {
    var selector := prefix + StripAmp(node.selector);
    if selector != target {
      InChildRulesIsFirstCandidate(node.nodes, node, target, selector);
      var cs := RuleCandidates(node, prefix);
      assert cs[1..] == CandidatesAll(node.nodes, node, selector);
    }
  }

  lemma {:induction false} InChildRulesIsFirstCandidate(nodes: seq<CssNode>, parent: CssNode, target: string,
                                                        prefix: string)
    requires forall i :: 0 <= i < |nodes| ==> nodes[i] < parent
    ensures FindInChildRules(nodes, parent, target, prefix)
            == FirstSelected(CandidatesAll(nodes, parent, prefix), target)
    decreases parent, 0, |nodes|
  {
    if nodes != [] {
      var head := if nodes[0].Rule? then RuleCandidates(nodes[0], prefix) else [];
      FirstSelectedAppend(head, CandidatesAll(nodes[1..], parent, prefix), target);
      InChildRulesIsFirstCandidate(nodes[1..], parent, target, prefix);
      if nodes[0].Rule? {
        MatchingIsFirstCandidate(nodes[0], target, prefix);
      }
    }
  }

  /**
   * The nested search answers a rule whose effective selector is the synthetic's, and no rule
   * earlier in document order has that effective selector; it answers nothing iff no rule below
   * (or at) the anchor does.
   */
  lemma FindMatchingRuleNodeIsFirstMatch(node: CssNode, target: string, prefix: string)
    requires node.Rule?
    ensures var cs := RuleCandidates(node, prefix);
            && (FindMatchingRuleNode(node, target, prefix).None? <==> forall i :: 0 <= i < |cs| ==> cs[i].1 != target)
            && (FindMatchingRuleNode(node, target, prefix).Some? ==>
                  exists i :: 0 <= i < |cs| && cs[i] == (FindMatchingRuleNode(node, target, prefix).value, target)
                              && forall j :: 0 <= j < i ==> cs[j].1 != target)
  {
    MatchingIsFirstCandidate(node, target, prefix);
    FirstSelectedFacts(RuleCandidates(node, prefix), target);
  }

  /** Every candidate the nested search considers is a rule. */
  lemma {:induction false} CandidatesAreRules(node: CssNode, prefix: string)
    requires node.Rule?
    ensures forall i :: 0 <= i < |RuleCandidates(node, prefix)| ==> RuleCandidates(node, prefix)[i].0.Rule?
    decreases node, 1
  {
    CandidatesAllAreRules(node.nodes, node, prefix + StripAmp(node.selector));
  }

  lemma {:induction false} CandidatesAllAreRules(nodes: seq<CssNode>, parent: CssNode, prefix: string)
    requires forall i :: 0 <= i < |nodes| ==> nodes[i] < parent
    ensures forall i :: 0 <= i < |CandidatesAll(nodes, parent, prefix)| ==> CandidatesAll(nodes, parent, prefix)[i].0.Rule?
    decreases parent, 0, |nodes|
  {
    if nodes != [] {
      if nodes[0].Rule? {
        CandidatesAreRules(nodes[0], prefix);
      }
      CandidatesAllAreRules(nodes[1..], parent, prefix);
    }
  }

  // ---------------------------------------------------------------------------------------
  // Selector prefix
  // ---------------------------------------------------------------------------------------

  /** How many of the innermost ancestors are rules: where the prefix loop stops. */
  function RuleRun(parents: seq<CssNode>): (n: nat)
    ensures n <= |parents|
    ensures forall i :: 0 <= i < n ==> parents[i].Rule?
    ensures n < |parents| ==> !parents[n].Rule?
  {
    if parents == [] || !parents[0].Rule? then 0 else 1 + RuleRun(parents[1..])
  }

  /** The selectors of a chain of enclosing rules (innermost first), joined outermost first. */
  function Outermost(rules: seq<CssNode>): string
    requires forall i :: 0 <= i < |rules| ==> rules[i].Rule?
  {
    if rules == [] then "" else Outermost(rules[1..]) + StripAmp(rules[0].selector)
  }

  /** The nested-selector prefix of a rule with this parent chain. */
  function SelectorPrefix(parents: seq<CssNode>): string {
    Outermost(parents[..RuleRun(parents)])
  }

  lemma {:induction false} OutermostSnoc(rules: seq<CssNode>, r: CssNode)
    requires forall i :: 0 <= i < |rules| ==> rules[i].Rule?
    requires r.Rule?
    ensures Outermost(rules + [r]) == StripAmp(r.selector) + Outermost(rules)
    decreases |rules|
  {
    if rules != [] {
      assert (rules + [r])[1..] == rules[1..] + [r];
      OutermostSnoc(rules[1..], r);
    } else {
      assert ([] + [r])[1..] == [];
    }
  }

  /** A rule directly below the root (or an at-rule) has no prefix. */
  lemma TopLevelPrefix(parents: seq<CssNode>)
    requires parents == [] || !parents[0].Rule?
    ensures SelectorPrefix(parents) == ""
  {
  }

  /** One more enclosing rule, outside the ones seen so far, goes in front of the prefix. */
  lemma {:induction false} PrefixOfNestedRule(parent: CssNode, parents: seq<CssNode>)
    requires parent.Rule?
    ensures SelectorPrefix([parent] + parents) == SelectorPrefix(parents) + StripAmp(parent.selector)
  {
    var run := RuleRun(parents);
    assert RuleRun([parent] + parents) == 1 + run by {
      assert ([parent] + parents)[1..] == parents;
    }
    assert ([parent] + parents)[..1 + run][1..] == parents[..run];
  }

  // ---------------------------------------------------------------------------------------
  // Selector rewrite
  // ---------------------------------------------------------------------------------------

  /** `(selector.indexOf("&") === 0 ? "&" : "") + newValue.replace(prefix, "")`. */
  function RewriteSelector(selector: string, prefix: string, newValue: string): string {
    (if IndexOf(selector, "&") == 0 then "&" else "") + ReplaceFirst(newValue, prefix, "")
  }

  /**
   * The rewrite keeps a leading `&` exactly when the old selector had one, and when the new
   * effective selector is the prefix followed by the rule's own part, the rewritten rule's
   * effective selector is that new value (provided a bare own part does not itself start with `&`).
   */
  lemma RewriteSelectorRoundTrip(selector: string, prefix: string, own: string)
    requires IsPrefix("&", selector) || !IsPrefix("&", own)
    ensures IsPrefix("&", RewriteSelector(selector, prefix, prefix + own)) <==> IsPrefix("&", selector) || IsPrefix("&", own)
    ensures prefix + StripAmp(RewriteSelector(selector, prefix, prefix + own)) == prefix + own
    ensures RewriteSelector(selector, prefix, prefix + own) == (if IsPrefix("&", selector) then "&" + own else own)
  {
    ReplaceLeading(prefix, own);
    if IsPrefix("&", selector) {
      assert OccursAt(selector, "&", 0);
      var r := RewriteSelector(selector, prefix, prefix + own);
      assert r == "&" + own;
      assert r[1..] == own;
    } else {
      assert IndexOf(selector, "&") != 0;
    }
  }

  /** The rule `&:hover` inside `.a` (inside the root) has the prefix `.a`. */
  lemma HoverPrefixExample()
    ensures SelectorPrefix([Rule(None, ".a", []), Root(None, [])]) == ".a"
  {
    var parents := [Rule(None, ".a", []), Root(None, [])];
    assert parents[1..] == [Root(None, [])];
    TopLevelPrefix(parents[1..]);
    PrefixOfNestedRule(parents[0], parents[1..]);
    assert [parents[0]] + parents[1..] == parents;
  }

  /** Editing that rule to `.a:focus` rewrites its selector to `&:focus`. */
  lemma RewriteHoverExample(selector: string, prefix: string, own: string)
    requires selector == "&:hover" && prefix == ".a" && own == ":focus"
    ensures RewriteSelector(selector, prefix, prefix + own) == "&:focus"
  {
    assert IsPrefix("&", selector);
    RewriteSelectorRoundTrip(selector, prefix, own);
  }

  // ---------------------------------------------------------------------------------------
  // Declaration edit
  // ---------------------------------------------------------------------------------------

  /** JavaScript truthiness of an optional string. */
  predicate Truthy(v: Option<string>) {
    v.Some? && v.value != ""
  }

  /** The node at a path of child indices. */
  function NodeAt(nodes: seq<CssNode>, path: seq<int>): Option<CssNode>
    decreases |path|
  {
    if path == [] || !(0 <= path[0] < |nodes|) then None
    else if |path| == 1 then Some(nodes[path[0]])
    else NodeAt(Children(nodes[path[0]]), path[1..])
  }

  /**
   * `walkDecls` up to the first declaration whose `prop` is `name`: the path of child indices
   * leading to it, or None when the walk never stops.
   */
  function FindDecl(nodes: seq<CssNode>, parent: CssNode, name: string): (r: Option<seq<int>>)
    requires forall i :: 0 <= i < |nodes| ==> nodes[i] < parent
    ensures r.Some? ==> |r.value| > 0 && NodeAt(nodes, r.value).Some?
                        && NodeAt(nodes, r.value).value.Decl? && NodeAt(nodes, r.value).value.prop == name
    decreases parent, |nodes|
  {
    if nodes == [] then None
    else
      var n := nodes[0];
      if n.Decl? && n.prop == name then Some([0])
      else
        var inner := FindDecl(Children(n), n, name);
        if inner.Some? then
          assert NodeAt(nodes, [0] + inner.value) == NodeAt(Children(n), inner.value) by {
            assert ([0] + inner.value)[1..] == inner.value;
          }
          Some([0] + inner.value)
        else
          var rest := FindDecl(nodes[1..], parent, name);
          if rest.Some? then
            assert NodeAt(nodes, [rest.value[0] + 1] + rest.value[1..]) == NodeAt(nodes[1..], rest.value) by {
              assert ([rest.value[0] + 1] + rest.value[1..])[1..] == rest.value[1..];
            }
            Some([rest.value[0] + 1] + rest.value[1..])
          else None
  }

  /** The truthy branch: `decl.prop = newName || name; decl.value = newValue`, at the path. */
  function SetDeclAt(nodes: seq<CssNode>, path: seq<int>, newProp: string, newValue: Option<string>)
    : (r: seq<CssNode>)
    ensures |r| == |nodes|
    decreases |path|
  {
    if path == [] || !(0 <= path[0] < |nodes|) then nodes
    else
      var n := nodes[path[0]];
      if |path| == 1 then
        (if n.Decl? then nodes[path[0] := Decl(n.source, newProp, newValue)] else nodes)
      else if n.Rule? then nodes[path[0] := Rule(n.source, n.selector, SetDeclAt(n.nodes, path[1..], newProp, newValue))]
      else if n.AtRule? then nodes[path[0] := AtRule(n.source, n.name, SetDeclAt(n.nodes, path[1..], newProp, newValue))]
      else if n.Root? then nodes[path[0] := Root(n.source, SetDeclAt(n.nodes, path[1..], newProp, newValue))]
      else nodes
  }

  /**
   * `array.splice(index, 1)`: the element at the clamped start is removed and the others keep
   * their order (a negative index counts from the end); a start at the end removes nothing.
   */
  function SpliceOut<T>(s: seq<T>, index: int): (r: seq<T>)
    ensures var k := SpliceStart(|s|, index);
            k < |s| ==> |r| == |s| - 1 && r[..k] == s[..k] && r[k..] == s[k + 1..]
    ensures SpliceStart(|s|, index) == |s| ==> r == s
  {
    var k := SpliceStart(|s|, index);
    if k < |s| then s[..k] + s[k + 1..] else s
  }

  /** `newName || name`. */
  function NewProp(name: string, newName: Option<string>): string {
    if Truthy(newName) then newName.value else name
  }

  /** The rule's nodes after `SET_DECLARATION`. */
  function SetDeclarationNodes(nodes: seq<CssNode>, name: string, newValue: Option<string>,
                               newName: Option<string>): seq<CssNode>
  {
    var hit := FindDecl(nodes, Root(None, nodes), name);
    if hit.None? then nodes + [Decl(None, name, newValue)]
    else if Truthy(newValue) then SetDeclAt(nodes, hit.value, NewProp(name, newName), newValue)
    // `node.nodes.splice(index, 1)` with the index the walk reported: the declaration's index
    // within its own parent, which is the rule only when the declaration is a direct child
    else SpliceOut(nodes, hit.value[|hit.value| - 1])
  }

  /** A rule whose children are all declarations and comments (no nested rules or at-rules). */
  predicate Flat(nodes: seq<CssNode>) {
    forall i :: 0 <= i < |nodes| ==> nodes[i].Decl? || nodes[i].Comment?
  }

  /** The first direct declaration named `name`, if any. */
  predicate FirstDeclNamed(nodes: seq<CssNode>, name: string, k: int) {
    0 <= k < |nodes| && nodes[k].Decl? && nodes[k].prop == name
    && forall j :: 0 <= j < k ==> !(nodes[j].Decl? && nodes[j].prop == name)
  }

  lemma {:induction false} FindDeclFlat(nodes: seq<CssNode>, parent: CssNode, name: string)
    requires forall i :: 0 <= i < |nodes| ==> nodes[i] < parent
    requires Flat(nodes)
    ensures FindDecl(nodes, parent, name).None? <==> forall k :: 0 <= k < |nodes| ==> !(nodes[k].Decl? && nodes[k].prop == name)
    ensures forall k :: FirstDeclNamed(nodes, name, k) ==> FindDecl(nodes, parent, name) == Some([k])
    decreases |nodes|
  {
    if nodes != [] {
      var n := nodes[0];
      if !(n.Decl? && n.prop == name) {
        assert Children(n) == [];
        FindDeclFlat(nodes[1..], parent, name);
        forall k | FirstDeclNamed(nodes, name, k) ensures FindDecl(nodes, parent, name) == Some([k]) {
          assert FirstDeclNamed(nodes[1..], name, k - 1);
          assert [k - 1 + 1] + [k - 1][1..] == [k];
        }
      }
    }
  }

  /**
   * On a rule holding only declarations and comments, `SET_DECLARATION` touches only the first
   * declaration named `name`: a truthy value renames it to `newName || name` and sets its value,
   * anything else removes it; every other node stays where it was. With no such declaration a new
   * one is appended, whatever the value.
   */
  lemma SetDeclarationOnFlatRule(nodes: seq<CssNode>, name: string, newValue: Option<string>,
                                 newName: Option<string>)
    requires Flat(nodes)
    ensures (forall k :: 0 <= k < |nodes| ==> !(nodes[k].Decl? && nodes[k].prop == name)) ==>
              SetDeclarationNodes(nodes, name, newValue, newName) == nodes + [Decl(None, name, newValue)]
    ensures forall k :: FirstDeclNamed(nodes, name, k) && Truthy(newValue) ==>
              SetDeclarationNodes(nodes, name, newValue, newName)
              == nodes[k := Decl(nodes[k].source, NewProp(name, newName), newValue)]
    ensures forall k :: FirstDeclNamed(nodes, name, k) && !Truthy(newValue) ==>
              SetDeclarationNodes(nodes, name, newValue, newName) == nodes[..k] + nodes[k + 1..]
  {
    FindDeclFlat(nodes, Root(None, nodes), name);
  }

  /**
   * As written, removing a declaration that sits inside a nested rule splices the edited rule's
   * own children at the declaration's inner index: in `.x { .y { color: red } margin: 0 }`,
   * removing `color` drops the whole `.y` rule and keeps `color`'s declaration nowhere.
   */
  lemma NestedRemovalExample()
    ensures var color := Decl(None, "color", Some("red"));
            var margin := Decl(None, "margin", Some("0"));
            SetDeclarationNodes([Rule(None, ".y", [color]), margin], "color", None, None) == [margin]
  {
    var color := Decl(None, "color", Some("red"));
    var margin := Decl(None, "margin", Some("0"));
    var nodes := [Rule(None, ".y", [color]), margin];
    assert Children(nodes[0]) == [color];
    assert FindDecl([color], nodes[0], "color") == Some([0]);
    assert [0] + [0] == [0, 0];
    assert FindDecl(nodes, Root(None, nodes), "color") == Some([0, 0]);
  }

  // ---------------------------------------------------------------------------------------
  // The rule node being edited
  // ---------------------------------------------------------------------------------------

  class RuleNode {
    var selector: string
    var nodes: seq<CssNode>
    /** `node.parent`, `node.parent.parent`, ...: innermost first. */
    const parents: seq<CssNode>

    constructor(selector: string, nodes: seq<CssNode>, parents: seq<CssNode>)
      ensures this.selector == selector && this.nodes == nodes && this.parents == parents
    {
      this.selector := selector;
      this.nodes := nodes;
      this.parents := parents;
    }

    /** `getRuleSelectorPrefix(node)`: climbs while the parent is a rule. */
    method GetRuleSelectorPrefix() returns (prefix: string)
      ensures prefix == SelectorPrefix(parents)
    {
      prefix := "";
      var i := 0;
      while i < |parents| && parents[i].Rule?
        invariant 0 <= i <= |parents|
        invariant forall k :: 0 <= k < i ==> parents[k].Rule?
        invariant prefix == Outermost(parents[..i])
      {
        OutermostSnoc(parents[..i], parents[i]);
        assert parents[..i + 1] == parents[..i] + [parents[i]];
        prefix := StripAmp(parents[i].selector) + prefix;
        i := i + 1;
      }
      assert i == RuleRun(parents) by {
        RuleRunStops(parents, i);
      }
    }

    /** `SET_RULE_SELECTOR`. */
    method SetRuleSelector(newValue: string)
      modifies this
      ensures selector == RewriteSelector(old(selector), SelectorPrefix(parents), newValue)
      ensures nodes == old(nodes)
    {
      var prefix := GetRuleSelectorPrefix();
      selector := (if IndexOf(selector, "&") == 0 then "&" else "") + ReplaceFirst(newValue, prefix, "");
    }

    /** `SET_DECLARATION`. */
    method SetDeclaration(name: string, newValue: Option<string>, newName: Option<string>)
      modifies this
      ensures nodes == SetDeclarationNodes(old(nodes), name, newValue, newName)
      ensures selector == old(selector)
    {
      var hit := FindDecl(nodes, Root(None, nodes), name);
      var shouldAdd := hit.None?;
      if !shouldAdd {
        var path := hit.value;
        if Truthy(newValue) {
          nodes := SetDeclAt(nodes, path, NewProp(name, newName), newValue);
        } else {
          nodes := SpliceOut(nodes, path[|path| - 1]);
        }
      }
      if shouldAdd {
        nodes := nodes + [Decl(None, name, newValue)];
      }
    }
  }

  lemma {:induction false} RuleRunStops(parents: seq<CssNode>, i: int)
    requires 0 <= i <= |parents|
    requires forall k :: 0 <= k < i ==> parents[k].Rule?
    requires i == |parents| || !parents[i].Rule?
    ensures i == RuleRun(parents)
    decreases i
  {
    if i > 0 {
      RuleRunStops(parents[1..], i - 1);
    }
  }
}
