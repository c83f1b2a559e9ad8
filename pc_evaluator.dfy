/**
 * The Paperclip runtime evaluator (packages/paperclip/native/src/pc/runtime/evaluator.rs): it
 * turns a template AST into the virtual DOM, given the data the template is rendered with.
 *
 * What the evaluator calls out to is a parameter, held in `Env`:
 * - the JS evaluator and the truthiness and `to_string` of its values;
 * - the name a shorthand attribute `{name}` gives itself;
 * - the dependency graph's lookup of an imported component's file;
 * - the isolated evaluation of a component's file with its props.
 * The CSS evaluator and the crc32 component scope are inputs too: the combined style element
 * and the `scope` string. So are the import ids of the file.
 */
module PcEvaluator {
  import opened Wrappers

  datatype Location = Location(start: nat, end: nat)

  /** A JS statement of a slot, a shorthand attribute or a condition. */
  datatype Script = Script(source: string)

  // The template AST of pc::ast.

  datatype AttributeValue = StringValue(value: string) | SlotValue(script: Script)

  datatype Attribute =
    | KeyValueAttribute(name: string, value: Option<AttributeValue>)
    | ShorthandAttribute(reference: Script)

  datatype Node =
    | Element(tagName: string, attributes: seq<Attribute>, children: seq<Node>, openTagLocation: Location)
    | StyleElement(sheet: string)
    | Text(value: string)
    | Slot(script: Script)
    | Fragment(children: seq<Node>)
    | Block(block: ConditionalBlock)
    | Comment(comment: string)

  datatype ConditionalBlock =
    | PassFailBlock(condition: Script, node: Option<Node>, fail: Option<ConditionalBlock>)
    | FinalBlock(node: Option<Node>)

  // The virtual DOM and the JS values.

  datatype VAttribute = VAttribute(name: string, value: Option<string>)

  datatype VNode =
    | VText(text: string)
    | VElement(tagName: string, attributes: seq<VAttribute>, children: seq<VNode>)
    | VFragment(children: seq<VNode>)
    | VStyleElement(sheet: string)

  datatype JsValue =
    | JsUndefined
    | JsBoolean(boolean: bool)
    | JsNumber(number: int)
    | JsString(str: string)
    | JsArray(values: seq<JsValue>)
    | JsObject(entries: map<string, JsValue>)
    | JsNode(vnode: VNode)

  datatype RuntimeError = RuntimeError(message: string, location: Location)

  type Outcome = Result<Option<VNode>, RuntimeError>

  datatype Env = Env(
    evaluateJs: (Script, JsValue) -> Result<JsValue, RuntimeError>,
    truthy: JsValue -> bool,
    show: JsValue -> string,
    shorthandName: Script -> Result<string, string>,
    importPath: (string, string) -> string,
    isolated: (string, JsValue) -> Outcome)

  datatype Context = Context(env: Env, filePath: string, importIds: set<string>, scope: string, data: JsValue,
                             inPart: bool)

  /** `create_context`: a fresh context is never inside a part. */
  function CreateContext(env: Env, filePath: string, importIds: set<string>, scope: string, data: JsValue): (c: Context)
    ensures !c.inPart && c.scope == scope && c.data == data
  {
    Context(env, filePath, importIds, scope, data, false)
  }

  const SELF_OUTSIDE_PART := "<self /> can only be used in part"

  // ---------------------------------------------------------------------------------------
  // Attributes
  // ---------------------------------------------------------------------------------------

  function EvaluateAttributeSlot(script: Script, ctx: Context): Result<JsValue, RuntimeError> {
    ctx.env.evaluateJs(script, ctx.data)
  }

  /** A string is its value; a slot is its JS value printed. */
  function EvaluateAttributeValue(v: AttributeValue, ctx: Context): (r: Result<Option<string>, RuntimeError>)
    ensures r.Ok? ==> r.value.Some?
    ensures v.StringValue? ==> r == Ok(Some(v.value))
  {
    match v
    case StringValue(s) => Ok(Some(s))
    case SlotValue(script) =>
      match EvaluateAttributeSlot(script, ctx)
      case Err(e) => Err(e)
      case Ok(js) => Ok(Some(ctx.env.show(js)))
  }

  /** A shorthand attribute's name; the error it gives carries no location. */
  function ShorthandName(script: Script, ctx: Context): Result<string, RuntimeError> {
    match ctx.env.shorthandName(script)
    case Err(message) => Err(RuntimeError(message, Location(0, 0)))
    case Ok(name) => Ok(name)
  }

  /** One pass of the attribute loop of `evaluate_basic_element`. */
  function AttributeEntry(a: Attribute, ctx: Context): (r: Result<VAttribute, RuntimeError>)
    ensures a.KeyValueAttribute? && r.Ok? ==> r.value.name == a.name
    ensures a.KeyValueAttribute? && a.value.None? ==> r == Ok(VAttribute(a.name, None))
    ensures (a.KeyValueAttribute? && a.value.Some? && a.value.value.StringValue?)
            ==> r == Ok(VAttribute(a.name, Some(a.value.value.value)))
  {
    match a
    case KeyValueAttribute(name, value) =>
      if value.None? then Ok(VAttribute(name, None))
      else
        (match EvaluateAttributeValue(value.value, ctx)
         case Err(e) => Err(e)
         case Ok(v) => Ok(VAttribute(name, v)))
    case ShorthandAttribute(reference) =>
      match ShorthandName(reference, ctx)
      case Err(e) => Err(e)
      case Ok(name) =>
        match EvaluateAttributeSlot(reference, ctx)
        case Err(e) => Err(e)
        case Ok(js) => Ok(VAttribute(name, Some(ctx.env.show(js))))
  }

  /** The attribute loop from attribute `i` on, with `acc` pushed so far; the first error ends it. */
  function EvaluateAttributes(attrs: seq<Attribute>, i: nat, ctx: Context, acc: seq<VAttribute>)
    : (r: Result<seq<VAttribute>, RuntimeError>)
    requires i <= |attrs|
    ensures r.Ok? <==> forall k :: i <= k < |attrs| ==> AttributeEntry(attrs[k], ctx).Ok?
    ensures r.Ok? ==> |r.value| == |acc| + |attrs| - i && r.value[..|acc|] == acc
                      && forall k :: i <= k < |attrs| ==> AttributeEntry(attrs[k], ctx) == Ok(r.value[|acc| + k - i])
    decreases |attrs| - i
  {
    if i == |attrs| then Ok(acc)
    else
      match AttributeEntry(attrs[i], ctx)
      case Err(e) => Err(e)
      case Ok(a) =>
        var r := EvaluateAttributes(attrs, i + 1, ctx, acc + [a]);
        assert r.Ok? ==> r.value[..|acc|] == (acc + [a])[..|acc|];
        r
  }

  function ScopeAttribute(scope: string): VAttribute {
    VAttribute("data-pc-" + scope, None)
  }

  // ---------------------------------------------------------------------------------------
  // Component props
  // ---------------------------------------------------------------------------------------

  /**
   * One pass of the attribute loop of `evaluate_component`: a bare attribute is `true`, a
   * value is its printed string, and a shorthand attribute is its JS value itself.
   */
  function PropEntry(a: Attribute, ctx: Context): Result<(string, JsValue), RuntimeError> {
    match a
    case KeyValueAttribute(name, value) =>
      if value.None? then Ok((name, JsBoolean(true)))
      else
        (match EvaluateAttributeValue(value.value, ctx)
         case Err(e) => Err(e)
         case Ok(v) => Ok((name, JsString(v.value))))
    case ShorthandAttribute(reference) =>
      match ShorthandName(reference, ctx)
      case Err(e) => Err(e)
      case Ok(name) =>
        match EvaluateAttributeSlot(reference, ctx)
        case Err(e) => Err(e)
        case Ok(js) => Ok((name, js))
  }

  /** The props map from attribute `i` on: a later attribute of the same name wins. */
  function ComponentProps(attrs: seq<Attribute>, i: nat, ctx: Context, acc: map<string, JsValue>)
    : (r: Result<map<string, JsValue>, RuntimeError>)
    requires i <= |attrs|
    ensures r.Ok? ==> acc.Keys <= r.value.Keys
    decreases |attrs| - i
  {
    if i == |attrs| then Ok(acc)
    else
      match PropEntry(attrs[i], ctx)
      case Err(e) => Err(e)
      case Ok((name, value)) => ComponentProps(attrs, i + 1, ctx, acc[name := value])
  }

  /** The props a component is rendered with: its attributes, and its children under `children`. */
  function WithChildren(props: map<string, JsValue>, children: seq<VNode>): map<string, JsValue> {
    props["children" := JsArray(seq(|children|, k requires 0 <= k < |children| => JsNode(children[k])))]
  }

  // ---------------------------------------------------------------------------------------
  // Slots
  // ---------------------------------------------------------------------------------------

  /** An array item of a slot: a node is itself, anything else is its printed text. */
  function SlotItem(item: JsValue, show: JsValue -> string): VNode {
    if item.JsNode? then item.vnode else VText(show(item))
  }

  /** `evaluate_slot`: an array is a fragment of its items, anything else a text. */
  function EvaluateSlot(script: Script, ctx: Context): (r: Outcome)
    ensures r.Ok? ==> r.value.Some?
  {
    match ctx.env.evaluateJs(script, ctx.data)
    case Err(e) => Err(e)
    case Ok(js) =>
      if js.JsArray? then
        Ok(Some(VFragment(seq(|js.values|, k requires 0 <= k < |js.values| => SlotItem(js.values[k], ctx.env.show)))))
      else Ok(Some(VText(ctx.env.show(js))))
  }

  // ---------------------------------------------------------------------------------------
  // Nodes
  // ---------------------------------------------------------------------------------------

  /** `evaluate_node`. */
  function EvaluateNode(n: Node, isRoot: bool, ctx: Context): (r: Outcome)
    decreases n, 4
  {
    match n
    case Element(_, _, _, _) => EvaluateElement(n, isRoot, ctx)
    case StyleElement(_) => Ok(None)
    case Text(v) => Ok(Some(VText(v)))
    case Slot(script) => EvaluateSlot(script, ctx)
    case Fragment(cs) => ChildrenAsFragment(cs, ctx, n)
    case Block(b) => EvaluateConditional(b, ctx, n)
    case Comment(_) => Ok(None)
  }

  /** `evaluate_element`: dispatch on the tag name. */
  function EvaluateElement(n: Node, isRoot: bool, ctx: Context): (r: Outcome)
    requires n.Element?
    decreases n, 3
  {
    if n.tagName == "import" then Ok(None)
    else if n.tagName == "self" then
      if !ctx.inPart then Err(RuntimeError(SELF_OUTSIDE_PART, n.openTagLocation))
      else EvaluateComponent(n, ctx.filePath, ctx)
    else if n.tagName == "part" then
      if !isRoot then Ok(None) else ChildrenAsFragment(n.children, ctx.(inPart := true), n)
    else if n.tagName == "script" then Ok(None)
    else if n.tagName in ctx.importIds then EvaluateComponent(n, ctx.env.importPath(ctx.filePath, n.tagName), ctx)
    else EvaluateBasicElement(n, ctx)
  }

  /** `evaluate_component`: props from the attributes and children, then the dependency evaluated with them. */
  function EvaluateComponent(n: Node, depPath: string, ctx: Context): (r: Outcome)
    requires n.Element?
    decreases n, 2
  {
    var c := ctx.(inPart := false);
    match ComponentProps(n.attributes, 0, c, map[])
    case Err(e) => Err(e)
    case Ok(props) =>
      match EvaluateChildren(n.children, 0, c, [], n)
      case Err(e) => Err(e)
      case Ok(children) => c.env.isolated(depPath, JsObject(WithChildren(props, children)))
  }

  /** `evaluate_basic_element`: attributes, the scope attribute last, then the children. */
  function EvaluateBasicElement(n: Node, ctx: Context): (r: Outcome)
    requires n.Element?
    decreases n, 2
  {
    match EvaluateAttributes(n.attributes, 0, ctx, [])
    case Err(e) => Err(e)
    case Ok(attrs) =>
      match EvaluateChildren(n.children, 0, ctx, [], n)
      case Err(e) => Err(e)
      case Ok(children) => Ok(Some(VElement(n.tagName, attrs + [ScopeAttribute(ctx.scope)], children)))
  }

  /** `evaluate_children_as_fragment`: a single child stands for itself. */
  function ChildrenAsFragment(cs: seq<Node>, ctx: Context, ghost parent: Node): (r: Outcome)
    requires forall k :: 0 <= k < |cs| ==> cs[k] < parent
    ensures r.Ok? ==> r.value.Some?
    decreases parent, 1
  {
    match EvaluateChildren(cs, 0, ctx, [], parent)
    case Err(e) => Err(e)
    case Ok(children) => if |children| == 1 then Ok(Some(children[0])) else Ok(Some(VFragment(children)))
  }

  /** The children loop of `evaluate_children` from child `i` on: results that are nothing are skipped. */
  function EvaluateChildren(cs: seq<Node>, i: nat, ctx: Context, acc: seq<VNode>, ghost parent: Node)
    : (r: Result<seq<VNode>, RuntimeError>)
    requires i <= |cs| && forall k :: 0 <= k < |cs| ==> cs[k] < parent
    decreases parent, 0, |cs| - i
  {
    if i == |cs| then Ok(acc)
    else
      match EvaluateNode(cs[i], false, ctx)
      case Err(e) => Err(e)
      case Ok(c) => EvaluateChildren(cs, i + 1, ctx, if c.Some? then acc + [c.value] else acc, parent)
  }

  function EvaluateConditional(b: ConditionalBlock, ctx: Context, ghost owner: Node): (r: Outcome)
    requires b < owner
    decreases owner, 1, b, 1
  {
    match b
    case PassFailBlock(_, _, _) => EvaluatePassFail(b, ctx, owner)
    case FinalBlock(node) => if node.Some? then EvaluateNode(node.value, false, ctx) else Ok(None)
  }

  /** `evaluate_pass_fail_block`. */
  function EvaluatePassFail(b: ConditionalBlock, ctx: Context, ghost owner: Node): (r: Outcome)
    requires b.PassFailBlock? && b < owner
    decreases owner, 1, b, 0
  {
    match ctx.env.evaluateJs(b.condition, ctx.data)
    case Err(e) => Err(e)
    case Ok(condition) =>
      if ctx.env.truthy(condition) && b.node.Some? then EvaluateNode(b.node.value, false, ctx)
      else if b.fail.Some? then EvaluateConditional(b.fail.value, ctx, owner)
      else Ok(None)
  }

  // ---------------------------------------------------------------------------------------
  // The entry point
  // ---------------------------------------------------------------------------------------

  /** `ast::get_children`: the children of an element or a fragment. */
  function GetChildren(n: Node): Option<seq<Node>> {
    if n.Element? || n.Fragment? then Some(n.children) else None
  }

  /** `ast::get_attribute_value`: the string value of the first key-value attribute of that name. */
  function GetAttributeValue(name: string, attrs: seq<Attribute>): (r: Option<string>)
    decreases |attrs|
  {
    if attrs == [] then None
    else if attrs[0].KeyValueAttribute? && attrs[0].name == name then
      if attrs[0].value.Some? && attrs[0].value.value.StringValue? then Some(attrs[0].value.value.value) else None
    else GetAttributeValue(name, attrs[1..])
  }

  predicate IsPart(n: Node, id: string) {
    n.Element? && n.tagName == "part" && GetAttributeValue("id", n.attributes) == Some(id)
  }

  /** `find`: the first part of the given id. */
  function FindPart(cs: seq<Node>, id: string): (r: Option<Node>)
    ensures r.None? <==> forall k :: 0 <= k < |cs| ==> !IsPart(cs[k], id)
    ensures r.Some? ==> exists k :: 0 <= k < |cs| && cs[k] == r.value && IsPart(cs[k], id)
                                     && forall j :: 0 <= j < k ==> !IsPart(cs[j], id)
    decreases |cs|
  {
    if cs == [] then None
    else if IsPart(cs[0], id) then Some(cs[0])
    else
      var r := FindPart(cs[1..], id);
      if r.Some? then
        var k :| 0 <= k < |cs| - 1 && cs[1..][k] == r.value && IsPart(cs[1..][k], id)
                 && forall j :: 0 <= j < k ==> !IsPart(cs[1..][j], id);
        assert cs[k + 1] == r.value && forall j :: 0 <= j < k + 1 ==> !IsPart(cs[j], id) by {
          forall j | 0 <= j < k + 1 ensures !IsPart(cs[j], id) {
            if j > 0 { assert cs[j] == cs[1..][j - 1]; }
          }
        }
        r
      else
        assert forall k :: 1 <= k < |cs| ==> cs[k] == cs[1..][k - 1];
        r
  }

  /** The node `evaluate` renders: the part asked for, else the whole template. */
  function SelectTarget(root: Node, part: Option<string>): Node {
    if part.None? then root
    else
      match GetChildren(root)
      case None => root
      case Some(cs) => match FindPart(cs, part.value) case Some(p) => p case None => root
  }

  /** `prepend_child` of the virtual DOM; a text or a style element has no children to prepend to. */
  function PrependChild(n: VNode, child: VNode): VNode {
    match n
    case VElement(tag, attrs, cs) => VElement(tag, attrs, [child] + cs)
    case VFragment(cs) => VFragment([child] + cs)
    case _ => n
  }

  /** `evaluate`: the selected node, rendered as the root, with the combined style element prepended. */
  function Evaluate(root: Node, env: Env, filePath: string, importIds: set<string>, scope: string, data: JsValue,
                    part: Option<string>, style: Result<VNode, RuntimeError>): Outcome
  {
    var ctx := CreateContext(env, filePath, importIds, scope, data);
    var r := EvaluateNode(SelectTarget(root, part), true, ctx);
    if r.Ok? && r.value.Some? then
      match style
      case Err(e) => Err(e)
      case Ok(s) => Ok(Some(PrependChild(r.value.value, s)))
    else r
  }

  // ---------------------------------------------------------------------------------------
  // Properties
  // ---------------------------------------------------------------------------------------

  /** What each child evaluates to on its own, not at the root. */
  function Outcomes(cs: seq<Node>, ctx: Context): (outs: seq<Outcome>)
    ensures |outs| == |cs| && forall k :: 0 <= k < |cs| ==> outs[k] == EvaluateNode(cs[k], false, ctx)
  {
    seq(|cs|, k requires 0 <= k < |cs| => EvaluateNode(cs[k], false, ctx))
  }

  /** The nodes among successful outcomes, in order. */
  function Somes(outs: seq<Outcome>): (r: seq<VNode>)
    ensures |r| <= |outs|
    decreases |outs|
  {
    if outs == [] then []
    else (if outs[0].Ok? && outs[0].value.Some? then [outs[0].value.value] else []) + Somes(outs[1..])
  }

  /** The index of the first failed outcome, if any. */
  function FirstError(outs: seq<Outcome>, i: nat): (k: nat)
    requires i <= |outs|
    ensures i <= k <= |outs| && (k < |outs| ==> outs[k].Err?)
    ensures forall j :: i <= j < k ==> outs[j].Ok?
    decreases |outs| - i
  {
    if i == |outs| || outs[i].Err? then i else FirstError(outs, i + 1)
  }

  lemma {:induction false} ChildrenCollect(cs: seq<Node>, i: nat, ctx: Context, acc: seq<VNode>, parent: Node)
    requires i <= |cs| && forall k :: 0 <= k < |cs| ==> cs[k] < parent
    ensures var outs := Outcomes(cs, ctx);
            var k := FirstError(outs, i);
            EvaluateChildren(cs, i, ctx, acc, parent)
              == if k < |outs| then Err(outs[k].error) else Ok(acc + Somes(outs[i..]))
    decreases |cs| - i
  {
    var outs := Outcomes(cs, ctx);
    if i == |cs| {
      assert acc + Somes(outs[i..]) == acc;
    } else if outs[i].Err? {
      assert FirstError(outs, i) == i;
    } else {
      var next := if outs[i].value.Some? then acc + [outs[i].value.value] else acc;
      assert EvaluateChildren(cs, i, ctx, acc, parent) == EvaluateChildren(cs, i + 1, ctx, next, parent);
      ChildrenCollect(cs, i + 1, ctx, next, parent);
      SomesStep(outs, i, acc);
    }
  }

  lemma SomesStep(outs: seq<Outcome>, i: nat, acc: seq<VNode>)
    requires i < |outs| && outs[i].Ok?
    ensures FirstError(outs, i) == FirstError(outs, i + 1)
    ensures acc + Somes(outs[i..]) == (if outs[i].value.Some? then acc + [outs[i].value.value] else acc) + Somes(outs[i + 1..])
  {
    assert outs[i..][1..] == outs[i + 1..];
    assert Somes(outs[i..]) == (if outs[i].value.Some? then [outs[i].value.value] else []) + Somes(outs[i + 1..]);
  }

  /**
   * Children keep their order and lose those that evaluate to nothing; the first child that fails
   * fails them all.
   */
  lemma ChildrenKeepOrder(cs: seq<Node>, ctx: Context, parent: Node)
    requires forall k :: 0 <= k < |cs| ==> cs[k] < parent
    ensures var outs := Outcomes(cs, ctx);
            var r := EvaluateChildren(cs, 0, ctx, [], parent);
            (r.Ok? <==> forall k :: 0 <= k < |cs| ==> outs[k].Ok?)
            && (r.Ok? ==> r.value == Somes(outs))
            && (r.Err? ==> exists k :: 0 <= k < |cs| && outs[k].Err? && r.error == outs[k].error
                                       && forall j :: 0 <= j < k ==> outs[j].Ok?)
  {
    ChildrenCollect(cs, 0, ctx, [], parent);
    var outs := Outcomes(cs, ctx);
    assert outs[0..] == outs;
    assert [] + Somes(outs) == Somes(outs);
  }

  /** A part at the root or a fragment with exactly one surviving child is that child, otherwise a fragment. */
  lemma SingleChildFlattened(cs: seq<Node>, ctx: Context, parent: Node)
    requires forall k :: 0 <= k < |cs| ==> cs[k] < parent
    requires forall k :: 0 <= k < |cs| ==> Outcomes(cs, ctx)[k].Ok?
    ensures var kept := Somes(Outcomes(cs, ctx));
            ChildrenAsFragment(cs, ctx, parent) == if |kept| == 1 then Ok(Some(kept[0])) else Ok(Some(VFragment(kept)))
  {
    ChildrenKeepOrder(cs, ctx, parent);
  }

  /** Comments, style elements, imports, scripts, and parts below the root evaluate to nothing. */
  lemma SkippedNodes(ctx: Context, isRoot: bool, tag: string, attrs: seq<Attribute>, cs: seq<Node>, loc: Location,
                     text: string)
    ensures EvaluateNode(Comment(text), isRoot, ctx) == Ok(None)
    ensures EvaluateNode(StyleElement(text), isRoot, ctx) == Ok(None)
    ensures EvaluateNode(Element("import", attrs, cs, loc), isRoot, ctx) == Ok(None)
    ensures EvaluateNode(Element("script", attrs, cs, loc), isRoot, ctx) == Ok(None)
    ensures EvaluateNode(Element("part", attrs, cs, loc), false, ctx) == Ok(None)
  {
  }

  /** `<self>` outside a part is an error at its open tag; a fresh context is outside every part. */
  lemma SelfOutsidePart(ctx: Context, isRoot: bool, attrs: seq<Attribute>, cs: seq<Node>, loc: Location)
    requires !ctx.inPart
    ensures EvaluateNode(Element("self", attrs, cs, loc), isRoot, ctx) == Err(RuntimeError(SELF_OUTSIDE_PART, loc))
  {
  }

  /** The tags `evaluate_element` treats as a plain element. */
  predicate PlainTag(tag: string, ctx: Context) {
    tag != "import" && tag != "self" && tag != "part" && tag != "script" && tag !in ctx.importIds
  }

  /**
   * A plain element keeps its tag, its attributes in order with their names (a bare one has no
   * value, a string its string), gains the scope attribute last, and has its children kept in order.
   */
  lemma PlainElementShape(n: Node, isRoot: bool, ctx: Context)
    requires n.Element? && PlainTag(n.tagName, ctx)
    requires forall k :: 0 <= k < |n.attributes| ==> AttributeEntry(n.attributes[k], ctx).Ok?
    requires forall k :: 0 <= k < |n.children| ==> Outcomes(n.children, ctx)[k].Ok?
    ensures var r := EvaluateNode(n, isRoot, ctx);
            r.Ok? && r.value.Some? && r.value.value.VElement?
            && r.value.value.tagName == n.tagName
            && |r.value.value.attributes| == |n.attributes| + 1
            && r.value.value.attributes[|n.attributes|] == ScopeAttribute(ctx.scope)
            && (forall k :: 0 <= k < |n.attributes| ==> AttributeEntry(n.attributes[k], ctx) == Ok(r.value.value.attributes[k]))
            && r.value.value.children == Somes(Outcomes(n.children, ctx))
            && forall k :: 0 <= k < |n.attributes| && n.attributes[k].KeyValueAttribute? ==>
                 var a, v := n.attributes[k], r.value.value.attributes[k];
                 v.name == a.name && (a.value.None? ==> v.value.None?)
                 && (a.value.Some? && a.value.value.StringValue? ==> v.value == Some(a.value.value.value))
  {
    ChildrenKeepOrder(n.children, ctx, n);
    assert EvaluateNode(n, isRoot, ctx) == EvaluateBasicElement(n, ctx);
    var attrs := EvaluateAttributes(n.attributes, 0, ctx, []);
    assert attrs.Ok?;
  }

  /** A pass/fail block: the node when the condition holds and there is one, else the fail branch, else nothing. */
  lemma PassFail(b: ConditionalBlock, ctx: Context, owner: Node)
    requires b.PassFailBlock? && b < owner
    ensures var c := ctx.env.evaluateJs(b.condition, ctx.data);
            var r := EvaluatePassFail(b, ctx, owner);
            (c.Err? ==> r == Err(c.error))
            && (c.Ok? && ctx.env.truthy(c.value) && b.node.Some? ==> r == EvaluateNode(b.node.value, false, ctx))
            && ((c.Ok? && !(ctx.env.truthy(c.value) && b.node.Some?) && b.fail.Some?)
                ==> r == EvaluateConditional(b.fail.value, ctx, owner))
            && (c.Ok? && !(ctx.env.truthy(c.value) && b.node.Some?) && b.fail.None? ==> r == Ok(None))
  {
  }

  /**
   * A slot is its script's error, or a text showing the value, or for an array a fragment with one
   * child per item, in order: a node item is itself and any other item the text showing it.
   */
  lemma SlotShape(script: Script, ctx: Context)
    ensures var js := ctx.env.evaluateJs(script, ctx.data);
            var r := EvaluateSlot(script, ctx);
            (js.Err? ==> r == Err(js.error))
            && (js.Ok? && !js.value.JsArray? ==> r == Ok(Some(VText(ctx.env.show(js.value)))))
            && (js.Ok? && js.value.JsArray? ==>
                  r.Ok? && r.value.Some? && r.value.value.VFragment?
                  && |r.value.value.children| == |js.value.values|
                  && forall k :: 0 <= k < |js.value.values| ==>
                       r.value.value.children[k]
                       == (if js.value.values[k].JsNode? then js.value.values[k].vnode
                           else VText(ctx.env.show(js.value.values[k]))))
  {
  }

  /** The value a plain key-value attribute gives a component prop. */
  function PropValue(a: Attribute): JsValue
    requires a.KeyValueAttribute?
  {
    if a.value.None? then JsBoolean(true)
    else if a.value.value.StringValue? then JsString(a.value.value.value)
    else JsUndefined
  }

  predicate PlainProps(attrs: seq<Attribute>) {
    forall k :: 0 <= k < |attrs| ==>
      attrs[k].KeyValueAttribute? && (attrs[k].value.None? || attrs[k].value.value.StringValue?)
  }

  /**
   * With key-value attributes holding no slot, the props hold one entry per attribute name: `true`
   * for a bare attribute, the string otherwise, the last attribute of a name winning.
   */
  lemma {:induction false} PropsOfPlainAttributes(attrs: seq<Attribute>, i: nat, ctx: Context, acc: map<string, JsValue>)
    requires i <= |attrs| && PlainProps(attrs)
    ensures var r := ComponentProps(attrs, i, ctx, acc);
            r.Ok?
            && r.value.Keys == acc.Keys + (set k | i <= k < |attrs| :: attrs[k].name)
            && (forall k :: i <= k < |attrs| && (forall j :: k < j < |attrs| ==> attrs[j].name != attrs[k].name)
                  ==> r.value[attrs[k].name] == PropValue(attrs[k]))
            && (forall key :: key in acc && (forall k :: i <= k < |attrs| ==> attrs[k].name != key) ==> r.value[key] == acc[key])
    decreases |attrs| - i
  {
    if i < |attrs| {
      var a := attrs[i];
      var acc' := acc[a.name := PropValue(a)];
      assert PropEntry(a, ctx) == Ok((a.name, PropValue(a)));
      var r := ComponentProps(attrs, i, ctx, acc);
      assert r == ComponentProps(attrs, i + 1, ctx, acc');
      PropsOfPlainAttributes(attrs, i + 1, ctx, acc');
      assert (set k | i <= k < |attrs| :: attrs[k].name) == {a.name} + set k | i + 1 <= k < |attrs| :: attrs[k].name;
      forall k | i <= k < |attrs| && (forall j :: k < j < |attrs| ==> attrs[j].name != attrs[k].name)
        ensures r.value[attrs[k].name] == PropValue(attrs[k])
      {
        if k == i {
          assert forall j :: i + 1 <= j < |attrs| ==> attrs[j].name != a.name;
          assert a.name in acc';
        }
      }
      forall key | key in acc && (forall k :: i <= k < |attrs| ==> attrs[k].name != key)
        ensures r.value[key] == acc[key]
      {
        assert key != a.name && key in acc' && acc'[key] == acc[key];
      }
    }
  }

  /**
   * Whatever the attributes, when every one of them evaluates, the props hold one entry per prop
   * name the attributes give (a shorthand attribute's name is its reference's last part), each the
   * value of the last attribute of that name; entries no attribute names are kept.
   */
  lemma {:induction false} PropsOfAttributes(attrs: seq<Attribute>, i: nat, ctx: Context, acc: map<string, JsValue>)
    requires i <= |attrs|
    requires forall k :: i <= k < |attrs| ==> PropEntry(attrs[k], ctx).Ok?
    ensures var r := ComponentProps(attrs, i, ctx, acc);
            r.Ok?
            && r.value.Keys == acc.Keys + (set k | i <= k < |attrs| :: PropEntry(attrs[k], ctx).value.0)
            && (forall k :: i <= k < |attrs|
                  && (forall j :: k < j < |attrs| ==> PropEntry(attrs[j], ctx).value.0 != PropEntry(attrs[k], ctx).value.0)
                  ==> r.value[PropEntry(attrs[k], ctx).value.0] == PropEntry(attrs[k], ctx).value.1)
            && (forall key :: key in acc && (forall k :: i <= k < |attrs| ==> PropEntry(attrs[k], ctx).value.0 != key)
                  ==> r.value[key] == acc[key])
    decreases |attrs| - i
  {
    if i < |attrs| {
      var e := PropEntry(attrs[i], ctx).value;
      var acc' := acc[e.0 := e.1];
      var r := ComponentProps(attrs, i, ctx, acc);
      assert r == ComponentProps(attrs, i + 1, ctx, acc');
      PropsOfAttributes(attrs, i + 1, ctx, acc');
      assert (set k | i <= k < |attrs| :: PropEntry(attrs[k], ctx).value.0)
          == {e.0} + set k | i + 1 <= k < |attrs| :: PropEntry(attrs[k], ctx).value.0;
      forall k | i <= k < |attrs|
          && (forall j :: k < j < |attrs| ==> PropEntry(attrs[j], ctx).value.0 != PropEntry(attrs[k], ctx).value.0)
        ensures r.value[PropEntry(attrs[k], ctx).value.0] == PropEntry(attrs[k], ctx).value.1
      {
        if k == i {
          assert forall j :: i + 1 <= j < |attrs| ==> PropEntry(attrs[j], ctx).value.0 != e.0;
          assert e.0 in acc';
        }
      }
      forall key | key in acc && (forall k :: i <= k < |attrs| ==> PropEntry(attrs[k], ctx).value.0 != key)
        ensures r.value[key] == acc[key]
      {
        assert key != e.0 && key in acc' && acc'[key] == acc[key];
      }
    }
  }

  /** The first attribute that fails to evaluate makes the props that error, whatever follows it. */
  lemma {:induction false} PropsFirstError(attrs: seq<Attribute>, i: nat, ctx: Context, acc: map<string, JsValue>, bad: nat)
    requires i <= bad < |attrs| && PropEntry(attrs[bad], ctx).Err?
    requires forall k :: i <= k < bad ==> PropEntry(attrs[k], ctx).Ok?
    ensures ComponentProps(attrs, i, ctx, acc) == Err(PropEntry(attrs[bad], ctx).error)
    decreases bad - i
  {
    if i < bad {
      var e := PropEntry(attrs[i], ctx).value;
      PropsFirstError(attrs, i + 1, ctx, acc[e.0 := e.1], bad);
    }
  }

  /**
   * A component is evaluated with its props and `children`: the nodes its children evaluate to, in
   * order, as an array; it is evaluated outside every part.
   */
  lemma ComponentData(n: Node, depPath: string, ctx: Context)
    requires n.Element?
    requires forall k :: 0 <= k < |n.attributes| ==> PropEntry(n.attributes[k], ctx.(inPart := false)).Ok?
    requires forall k :: 0 <= k < |n.children| ==> Outcomes(n.children, ctx.(inPart := false))[k].Ok?
    ensures var c := ctx.(inPart := false);
            var p := ComponentProps(n.attributes, 0, c, map[]);
            p.Ok? &&
            var kept := Somes(Outcomes(n.children, c));
            var data := WithChildren(p.value, kept);
            EvaluateComponent(n, depPath, ctx) == ctx.env.isolated(depPath, JsObject(data))
            && data.Keys == {"children"} + (set k | 0 <= k < |n.attributes| :: PropEntry(n.attributes[k], c).value.0)
            && data["children"] == JsArray(seq(|kept|, k requires 0 <= k < |kept| => JsNode(kept[k])))
  {
    var c := ctx.(inPart := false);
    PropsOfAttributes(n.attributes, 0, c, map[]);
    ChildrenKeepOrder(n.children, c, n);
  }

  /** A component one of whose attributes fails to evaluate is that attribute's error. */
  lemma ComponentAttributeError(n: Node, depPath: string, ctx: Context, bad: nat)
    requires n.Element? && bad < |n.attributes|
    requires PropEntry(n.attributes[bad], ctx.(inPart := false)).Err?
    requires forall k :: 0 <= k < bad ==> PropEntry(n.attributes[k], ctx.(inPart := false)).Ok?
    ensures EvaluateComponent(n, depPath, ctx) == Err(PropEntry(n.attributes[bad], ctx.(inPart := false)).error)
  {
    PropsFirstError(n.attributes, 0, ctx.(inPart := false), map[], bad);
  }

  /** The target is the first top-level part of the id asked for, else the whole template. */
  lemma TargetIsFirstPart(root: Node, id: string)
    ensures var t := SelectTarget(root, Some(id));
            t == root
            || (GetChildren(root).Some?
                && exists k :: 0 <= k < |root.children| && t == root.children[k] && IsPart(t, id)
                               && forall j :: 0 <= j < k ==> !IsPart(root.children[j], id))
    ensures GetChildren(root).Some? && (exists k :: 0 <= k < |root.children| && IsPart(root.children[k], id))
            ==> IsPart(SelectTarget(root, Some(id)), id)
  {
  }

  /**
   * A rendered root gets the combined style element as its first child (failing if the style does);
   * nothing, or an error, passes through.
   */
  lemma StylePrepended(root: Node, env: Env, filePath: string, importIds: set<string>, scope: string,
                       data: JsValue, part: Option<string>, style: Result<VNode, RuntimeError>)
    ensures var r := EvaluateNode(SelectTarget(root, part), true, CreateContext(env, filePath, importIds, scope, data));
            var e := Evaluate(root, env, filePath, importIds, scope, data, part, style);
            (!(r.Ok? && r.value.Some?) ==> e == r)
            && (r.Ok? && r.value.Some? && style.Err? ==> e == Err(style.error))
            && ((r.Ok? && r.value.Some? && style.Ok? && (r.value.value.VElement? || r.value.value.VFragment?))
                ==> e.Ok? && e.value.Some? && e.value.value.children == [style.value] + r.value.value.children)
  {
  }

  /**
   * `<style>…</style><div></div>`: the style evaluates to nothing, so the single div is the root,
   * with its scope attribute and the combined style as its only child.
   */
  lemma StyleAndDiv(env: Env, filePath: string, scope: string, data: JsValue, sheet: string, loc: Location, style: VNode)
    ensures Evaluate(Fragment([StyleElement(sheet), Element("div", [], [], loc)]), env, filePath, {}, scope, data,
                     None, Ok(style))
            == Ok(Some(VElement("div", [ScopeAttribute(scope)], [style])))
  {
    var ctx := CreateContext(env, filePath, {}, scope, data);
    var div := Element("div", [], [], loc);
    var root := Fragment([StyleElement(sheet), div]);
    assert EvaluateAttributes([], 0, ctx, []) == Ok([]);
    assert EvaluateChildren([], 0, ctx, [], div) == Ok([]);
    assert [] + [ScopeAttribute(scope)] == [ScopeAttribute(scope)];
    assert EvaluateBasicElement(div, ctx) == Ok(Some(VElement("div", [ScopeAttribute(scope)], [])));
    assert EvaluateNode(div, false, ctx) == Ok(Some(VElement("div", [ScopeAttribute(scope)], [])));
    ChildrenKeepOrder([StyleElement(sheet), div], ctx, root);
    var outs := Outcomes([StyleElement(sheet), div], ctx);
    assert outs[1..][1..] == [];
    assert Somes(outs) == [VElement("div", [ScopeAttribute(scope)], [])];
    SingleChildFlattened([StyleElement(sheet), div], ctx, root);
    assert EvaluateNode(SelectTarget(root, None), true, ctx) == Ok(Some(VElement("div", [ScopeAttribute(scope)], [])));
    assert [style] + [] == [style];
  }

  // ---------------------------------------------------------------------------------------
  // The loops, as the source writes them
  // ---------------------------------------------------------------------------------------

  method EvaluateChildrenLoop(cs: seq<Node>, ctx: Context, ghost parent: Node) returns (r: Result<seq<VNode>, RuntimeError>)
    requires forall k :: 0 <= k < |cs| ==> cs[k] < parent
    ensures r == EvaluateChildren(cs, 0, ctx, [], parent)
  {
    var children: seq<VNode> := [];
    var i := 0;
    while i < |cs|
      invariant 0 <= i <= |cs|
      invariant EvaluateChildren(cs, i, ctx, children, parent) == EvaluateChildren(cs, 0, ctx, [], parent)
    {
      var c := EvaluateNode(cs[i], false, ctx);
      if c.Err? {
        return Err(c.error);
      }
      if c.value.Some? {
        children := children + [c.value.value];
      }
      i := i + 1;
    }
    r := Ok(children);
  }

  method EvaluateBasicElementSteps(n: Node, ctx: Context) returns (r: Outcome)
    requires n.Element?
    ensures r == EvaluateBasicElement(n, ctx)
  {
    var attributes: seq<VAttribute> := [];
    var i := 0;
    while i < |n.attributes|
      invariant 0 <= i <= |n.attributes|
      invariant EvaluateAttributes(n.attributes, i, ctx, attributes) == EvaluateAttributes(n.attributes, 0, ctx, [])
    {
      var a := AttributeEntry(n.attributes[i], ctx);
      if a.Err? {
        return Err(a.error);
      }
      attributes := attributes + [a.value];
      i := i + 1;
    }
    attributes := attributes + [ScopeAttribute(ctx.scope)];
    var children := EvaluateChildrenLoop(n.children, ctx, n);
    if children.Err? {
      return Err(children.error);
    }
    r := Ok(Some(VElement(n.tagName, attributes, children.value)));
  }

  method EvaluateComponentSteps(n: Node, depPath: string, ctx: Context) returns (r: Outcome)
    requires n.Element?
    ensures r == EvaluateComponent(n, depPath, ctx)
  {
    var c := ctx.(inPart := false);
    var data: map<string, JsValue> := map[];
    var i := 0;
    while i < |n.attributes|
      invariant 0 <= i <= |n.attributes|
      invariant ComponentProps(n.attributes, i, c, data) == ComponentProps(n.attributes, 0, c, map[])
    {
      var entry := PropEntry(n.attributes[i], c);
      if entry.Err? {
        return Err(entry.error);
      }
      data := data[entry.value.0 := entry.value.1];
      i := i + 1;
    }
    var children := EvaluateChildrenLoop(n.children, c, n);
    if children.Err? {
      return Err(children.error);
    }
    var jsChildren: seq<JsValue> := [];
    var k := 0;
    while k < |children.value|
      invariant 0 <= k <= |children.value|
      invariant jsChildren == seq(k, j requires 0 <= j < k => JsNode(children.value[j]))
    {
      jsChildren := jsChildren + [JsNode(children.value[k])];
      k := k + 1;
    }
    data := data["children" := JsArray(jsChildren)];
    r := c.env.isolated(depPath, JsObject(data));
  }

  method EvaluateSlotSteps(script: Script, ctx: Context) returns (r: Outcome)
    ensures r == EvaluateSlot(script, ctx)
  {
    var js := ctx.env.evaluateJs(script, ctx.data);
    if js.Err? {
      return Err(js.error);
    }
    if js.value.JsArray? {
      var items := js.value.values;
      var children: seq<VNode> := [];
      while items != []
        invariant |children| + |items| == |js.value.values|
        invariant items == js.value.values[|children|..]
        invariant forall k :: 0 <= k < |children| ==> children[k] == SlotItem(js.value.values[k], ctx.env.show)
      {
        var item := items[0];
        items := items[1..];
        if item.JsNode? {
          children := children + [item.vnode];
        } else {
          children := children + [VText(ctx.env.show(item))];
        }
      }
      assert children == seq(|js.value.values|, k requires 0 <= k < |js.value.values| => SlotItem(js.value.values[k], ctx.env.show));
      return Ok(Some(VFragment(children)));
    }
    r := Ok(Some(VText(ctx.env.show(js.value))));
  }
}
