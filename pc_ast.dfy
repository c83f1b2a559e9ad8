/**
 * The Paperclip template AST of packages/paperclip/src/parser/ast.rs: its printer (the `Display`
 * impls) and its translation to the virtual DOM (the `Executable` impls).
 *
 * The `Expression { item }` wrapper carries nothing but its item and is left implicit. The
 * struct `Element` is the `Element` case of `Node` here; a style element's sheet is a CSS AST
 * printed by the CSS module, which is not part of this model, so it is held as its printed text.
 */
module PcAst {
  import opened Wrappers

  datatype Str = Str(value: string)

  datatype AttributeValue = StringValue(str: Str)

  datatype Attribute = Attribute(name: string, value: Option<AttributeValue>)

  datatype Node =
    | Text(text: string)
    | Element(tagName: string, attributes: seq<Attribute>, children: seq<Node>)
    | Fragment(children: seq<Node>)
    | StyleElement(styleAttributes: seq<Attribute>, sheet: string)
    | Slot(script: string)

  /** The virtual DOM (`parser::virt`) that `execute` builds. */
  datatype VAttribute = VAttribute(name: string, value: Option<string>)

  datatype VNode =
    | VText(value: string)
    | VElement(tagName: string, attributes: seq<VAttribute>, children: seq<VNode>)

  // ---------------------------------------------------------------------------------------
  // Display
  // ---------------------------------------------------------------------------------------

  /** `Str` prints its value in double quotes. */
  function StrString(s: Str): string {
    "\"" + s.value + "\""
  }

  function AttributeValueString(v: AttributeValue): string {
    StrString(v.str)
  }

  /** The bare name, or `name=` and the printed value. */
  function AttributeString(a: Attribute): string {
    a.name + (if a.value.None? then "" else "=" + AttributeValueString(a.value.value))
  }

  /** `fmt_attributes`: a blank before each attribute. */
  function AttributesString(attrs: seq<Attribute>): string
    decreases |attrs|
  {
    if attrs == [] then "" else " " + AttributeString(attrs[0]) + AttributesString(attrs[1..])
  }

  function StartTag(tagName: string, attrs: seq<Attribute>): string {
    "<" + tagName + AttributesString(attrs) + ">"
  }

  function EndTag(tagName: string): string {
    "</" + tagName + ">"
  }

  /** `Node`'s `Display`, with `Element`'s and `Fragment`'s. */
  function NodeString(n: Node): string
    decreases n, 1
  {
    match n
    case Text(v) => v
    case Slot(v) => "{{" + v + "}}"
    case Fragment(cs) => FragmentString(cs, n)
    case Element(tag, attrs, cs) => StartTag(tag, attrs) + ChildrenString(cs, n) + EndTag(tag)
    case StyleElement(attrs, sheet) => StartTag("style", attrs) + sheet + EndTag("style")
  }

  /** An element's children, each followed by one blank. */
  function ChildrenString(cs: seq<Node>, ghost parent: Node): string
    requires forall i :: 0 <= i < |cs| ==> cs[i] < parent
    decreases parent, 0, |cs|
  {
    if cs == [] then "" else NodeString(cs[0]) + " " + ChildrenString(cs[1..], parent)
  }

  /** A fragment's children, with nothing between them. */
  function FragmentString(cs: seq<Node>, ghost parent: Node): string
    requires forall i :: 0 <= i < |cs| ==> cs[i] < parent
    decreases parent, 0, |cs|
  {
    if cs == [] then "" else NodeString(cs[0]) + FragmentString(cs[1..], parent)
  }

  // ---------------------------------------------------------------------------------------
  // Execute
  // ---------------------------------------------------------------------------------------

  /** `AttributeValue::execute`: a string is its value. */
  function ExecuteAttributeValue(v: AttributeValue): (r: Result<Option<string>, string>)
    ensures r == Ok(Some(v.str.value))
  {
    match v
    case StringValue(st) => Ok(Some(st.value))
  }

  /** The executed value of one attribute: none for a bare attribute. */
  function AttributeOut(a: Attribute): Option<string> {
    if a.value.None? then None else Some(a.value.value.str.value)
  }

  /** The attribute loop of `Element::execute`; an error of a value would end it. */
  function ExecuteAttributes(attrs: seq<Attribute>): (r: Result<seq<VAttribute>, string>)
    ensures r.Ok? && |r.value| == |attrs|
    ensures forall i :: 0 <= i < |attrs| ==> r.value[i] == VAttribute(attrs[i].name, AttributeOut(attrs[i]))
    decreases |attrs|
  {
    if attrs == [] then Ok([])
    else
      var a := attrs[0];
      var value := if a.value.None? then Ok(None) else ExecuteAttributeValue(a.value.value);
      match value
      case Err(e) => Err(e)
      case Ok(v) =>
        match ExecuteAttributes(attrs[1..])
        case Err(e) => Err(e)
        case Ok(rest) => Ok([VAttribute(a.name, v)] + rest)
  }

  /** Text, slots and elements render; fragments and style elements execute to nothing. */
  predicate Renderable(n: Node) {
    n.Text? || n.Slot? || n.Element?
  }

  /** `Node::execute`, with `Element::execute`. */
  function ExecuteNode(n: Node): (r: Result<Option<VNode>, string>)
    ensures r.Ok? && (r.value.Some? <==> Renderable(n))
    decreases n, 1
  {
    match n
    case Text(v) => Ok(Some(VText(v)))
    case Slot(v) => Ok(Some(VText(v)))
    case Element(tag, attrs, cs) =>
      (match ExecuteAttributes(attrs)
       case Err(e) => Err(e)
       case Ok(vattrs) =>
         match ExecuteChildren(cs, n)
         case Err(e) => Err(e)
         case Ok(vchildren) => Ok(Some(VElement(tag, vattrs, vchildren))))
    case _ => Ok(None)
  }

  /** The children loop of `Element::execute`: results that are nothing are skipped. */
  function ExecuteChildren(cs: seq<Node>, ghost parent: Node): (r: Result<seq<VNode>, string>)
    requires forall i :: 0 <= i < |cs| ==> cs[i] < parent
    ensures r.Ok? && |r.value| <= |cs|
    decreases parent, 0, |cs|
  {
    if cs == [] then Ok([])
    else
      match ExecuteNode(cs[0])
      case Err(e) => Err(e)
      case Ok(c) =>
        match ExecuteChildren(cs[1..], parent)
        case Err(e) => Err(e)
        case Ok(rest) => if c.Some? then Ok([c.value] + rest) else Ok(rest)
  }

  /** The virtual node a renderable node executes to. */
  function Executed(n: Node): VNode
    requires Renderable(n)
  {
    ExecuteNode(n).value.value
  }

  /** The renderable nodes of `cs`, in order. */
  function Renderables(cs: seq<Node>): (r: seq<Node>)
    ensures |r| <= |cs|
    ensures forall i :: 0 <= i < |r| ==> Renderable(r[i]) && r[i] in cs
    decreases |cs|
  {
    if cs == [] then [] else (if Renderable(cs[0]) then [cs[0]] else []) + Renderables(cs[1..])
  }

  function ExecutedAll(rs: seq<Node>): (r: seq<VNode>)
    requires forall i :: 0 <= i < |rs| ==> Renderable(rs[i])
    ensures |r| == |rs|
    ensures forall i :: 0 <= i < |rs| ==> r[i] == Executed(rs[i])
    decreases |rs|
  {
    if rs == [] then [] else [Executed(rs[0])] + ExecutedAll(rs[1..])
  }

  // ---------------------------------------------------------------------------------------
  // Properties
  // ---------------------------------------------------------------------------------------

  /** The children an element executes to: its renderable children, in order, each executed. */
  lemma {:induction false} ChildrenAreRenderablesExecuted(cs: seq<Node>, parent: Node)
    requires forall i :: 0 <= i < |cs| ==> cs[i] < parent
    ensures ExecuteChildren(cs, parent) == Ok(ExecutedAll(Renderables(cs)))
    decreases |cs|
  {
    if cs != [] {
      ChildrenAreRenderablesExecuted(cs[1..], parent);
      var rest := Renderables(cs[1..]);
      if Renderable(cs[0]) {
        assert Renderables(cs) == [cs[0]] + rest;
        assert ExecutedAll([cs[0]] + rest) == [Executed(cs[0])] + ExecutedAll(rest) by {
          assert ([cs[0]] + rest)[1..] == rest;
        }
      } else {
        assert Renderables(cs) == rest;
      }
    }
  }

  /**
   * An element executes to a virtual element with the same tag name, its attributes with the same
   * names in the same order, and its renderable children executed in order.
   */
  lemma ExecuteElement(tag: string, attrs: seq<Attribute>, cs: seq<Node>)
    ensures var r := ExecuteNode(Element(tag, attrs, cs));
            r.Ok? && r.value.Some? && r.value.value.VElement?
            && r.value.value.tagName == tag
            && |r.value.value.attributes| == |attrs|
            && (forall i :: 0 <= i < |attrs| ==>
                  r.value.value.attributes[i] == VAttribute(attrs[i].name, AttributeOut(attrs[i])))
            && r.value.value.children == ExecutedAll(Renderables(cs))
  {
    ChildrenAreRenderablesExecuted(cs, Element(tag, attrs, cs));
  }

  /** Text and slots both execute to a virtual text with the same value. */
  lemma TextAndSlotExecute(v: string)
    ensures Executed(Text(v)) == VText(v) && Executed(Slot(v)) == VText(v)
    ensures NodeString(Text(v)) == v && NodeString(Slot(v)) == "{{" + v + "}}"
  {
  }

  /** A fragment inside an element leaves no trace in its executed children. */
  lemma {:induction false} FragmentChildrenDropped(tag: string, attrs: seq<Attribute>, cs: seq<Node>)
    requires forall i :: 0 <= i < |cs| ==> cs[i].Fragment? || cs[i].StyleElement?
    ensures ExecuteNode(Element(tag, attrs, cs)).value.value.children == []
  {
    ExecuteElement(tag, attrs, cs);
    NoRenderables(cs);
  }

  lemma {:induction false} NoRenderables(cs: seq<Node>)
    requires forall i :: 0 <= i < |cs| ==> !Renderable(cs[i])
    ensures Renderables(cs) == []
    decreases |cs|
  {
    if cs != [] {
      NoRenderables(cs[1..]);
    }
  }

  /** An element always prints as an open and a close tag, even with no children. */
  lemma EmptyElementPrintsPair(tag: string)
    ensures NodeString(Element(tag, [], [])) == "<" + tag + "></" + tag + ">"
  {
  }

  /** A fragment of texts prints as their concatenation; inside an element each is followed by a blank. */
  lemma {:induction false} TextsPrint(vs: seq<string>, parent: Node)
    requires forall i :: 0 <= i < |vs| ==> Text(vs[i]) < parent
    ensures FragmentString(Texts(vs), parent) == Concat(vs)
    ensures ChildrenString(Texts(vs), parent) == Concat(Suffixed(vs, " "))
    decreases |vs|
  {
    if vs != [] {
      assert Texts(vs)[1..] == Texts(vs[1..]);
      assert Suffixed(vs, " ")[1..] == Suffixed(vs[1..], " ");
      TextsPrint(vs[1..], parent);
    }
  }

  function Texts(vs: seq<string>): (r: seq<Node>)
    ensures |r| == |vs| && forall i :: 0 <= i < |vs| ==> r[i] == Text(vs[i])
  {
    seq(|vs|, i requires 0 <= i < |vs| => Text(vs[i]))
  }

  function Suffixed(vs: seq<string>, sep: string): (r: seq<string>)
    ensures |r| == |vs| && forall i :: 0 <= i < |vs| ==> r[i] == vs[i] + sep
  {
    seq(|vs|, i requires 0 <= i < |vs| => vs[i] + sep)
  }

  function Concat(vs: seq<string>): string
    decreases |vs|
  {
    if vs == [] then "" else vs[0] + Concat(vs[1..])
  }

  // A printed attribute reads back: the name is everything before the first `=`, and the value
  // sits between the quotes after it.

  /** The index of the first `c` in `s`, or `|s|`. */
  function FirstOf(s: string, c: char): (k: nat)
    ensures k <= |s| && (k < |s| ==> s[k] == c)
    ensures forall j :: 0 <= j < k ==> s[j] != c
    decreases |s|
  {
    if s == [] then 0 else if s[0] == c then 0 else 1 + FirstOf(s[1..], c)
  }

  function DecodeAttribute(s: string): Option<Attribute> {
    var k := FirstOf(s, '=');
    if k == |s| then Some(Attribute(s, None))
    else
      var rest := s[k + 1..];
      if |rest| >= 2 && rest[0] == '"' && rest[|rest| - 1] == '"' then
        Some(Attribute(s[..k], Some(StringValue(Str(rest[1..|rest| - 1])))))
      else None
  }

  lemma FirstOfAppend(a: string, b: string, c: char)
    requires forall j :: 0 <= j < |a| ==> a[j] != c
    ensures FirstOf(a + b, c) == |a| + FirstOf(b, c)
    decreases |a|
  {
    if a != [] {
      assert (a + b)[1..] == a[1..] + b;
      FirstOfAppend(a[1..], b, c);
    } else {
      assert a + b == b;
    }
  }

  /** An attribute whose name holds no `=` prints to text that decodes back to it. */
  lemma {:induction false} AttributeRoundTrip(a: Attribute)
    requires forall j :: 0 <= j < |a.name| ==> a.name[j] != '='
    ensures DecodeAttribute(AttributeString(a)) == Some(a)
  {
    var s := AttributeString(a);
    if a.value.None? {
      assert a.name + "" == a.name;
      FirstOfAppend(a.name, "", '=');
      assert FirstOf(s, '=') == |s|;
      assert a == Attribute(a.name, None);
    } else {
      var v := a.value.value.str.value;
      var tail := "=" + "\"" + v + "\"";
      assert s == a.name + tail;
      FirstOfAppend(a.name, tail, '=');
      assert FirstOf(tail, '=') == 0;
      assert s[..|a.name|] == a.name;
      var rest := s[|a.name| + 1..];
      assert rest == "\"" + v + "\"";
      assert rest[1..|rest| - 1] == v;
      assert a == Attribute(a.name, Some(StringValue(Str(v))));
    }
  }
}
