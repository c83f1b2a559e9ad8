/**
 * The Paperclip template parser (packages/paperclip/src/parser/mod.rs): recursive descent over
 * the tokenizer's token stream, with a mutable cursor.
 *
 * The tokenizer module is not part of this model: its output is the sequence `toks`, and the
 * cursor `tok.pos` is an index into it (`Pos` gives the corresponding byte offset, so a source
 * slice `source[start..end]` is the text of the tokens between two cursors). `next()` and
 * `peek()` fail at the end of input. Each parsing function returns the expression and the
 * cursor after it; the methods are the loops of the source, each proved equal to its function.
 */
module PcParser {
  import opened Wrappers

  datatype Token =
    | Word(text: string)
    | Whitespace(text: string)
    | SlotOpen | SlotClose
    | LessThan | GreaterThan | SelfCloseTag | CloseTag
    | Equals | SingleQuote | DoubleQuote
    | Other(text: string)

  /** The source text a token was read from. */
  function TokenText(t: Token): string {
    match t
    case Word(s) => s
    case Whitespace(s) => s
    case Other(s) => s
    case SlotOpen => "{{"
    case SlotClose => "}}"
    case LessThan => "<"
    case GreaterThan => ">"
    case SelfCloseTag => "/>"
    case CloseTag => "</"
    case Equals => "="
    case SingleQuote => "'"
    case DoubleQuote => "\""
  }

  /** The source text of a run of tokens. */
  function SourceOf(toks: seq<Token>): string {
    if toks == [] then "" else TokenText(toks[0]) + SourceOf(toks[1..])
  }

  /** `tok.pos` at cursor `i`: the byte offset of token `i`. */
  function Pos(toks: seq<Token>, i: nat): nat
    requires i <= |toks|
  {
    |SourceOf(toks[..i])|
  }

  lemma {:induction false} TextAppend(a: seq<Token>, b: seq<Token>)
    ensures SourceOf(a + b) == SourceOf(a) + SourceOf(b)
    decreases |a|
  {
    if a != [] {
      assert (a + b)[1..] == a[1..] + b;
      TextAppend(a[1..], b);
    } else {
      assert a + b == b;
    }
  }

  /** `source[Pos(i)..Pos(j)]` is the text of the tokens between the two cursors. */
  lemma SliceIsText(toks: seq<Token>, i: nat, j: nat)
    requires i <= j <= |toks|
    ensures Pos(toks, i) <= Pos(toks, j) <= |SourceOf(toks)|
    ensures SourceOf(toks)[Pos(toks, i)..Pos(toks, j)] == SourceOf(toks[i..j])
  {
    assert toks[..j] == toks[..i] + toks[i..j];
    assert toks == toks[..j] + toks[j..];
    TextAppend(toks[..i], toks[i..j]);
    TextAppend(toks[..j], toks[j..]);
  }

  /** The AST `mod.rs` builds (its `ast::Grammar`; the `Expression` wrapper is left implicit). */
  datatype Expr =
    | Text(text: string)
    | Slot(script: string)
    | Element(tagName: string, attributes: seq<Expr>, children: seq<Expr>)
    | Fragment(children: seq<Expr>)
    | Attribute(name: string, value: Option<Expr>)
    | Str(chars: string)

  /** `Err("Unkown element")`, `Err("Unexpected token")`, and the tokenizer's end-of-input error. */
  datatype ParseError = UnknownElement | UnexpectedToken | EndOfInput

  type Parsed<T> = Result<(T, nat), ParseError>

  // ---------------------------------------------------------------------------------------
  // Cursor helpers
  // ---------------------------------------------------------------------------------------

  /** `tok.eat_whitespace()`: the cursor after any whitespace tokens. */
  function SkipWs(toks: seq<Token>, i: nat): (j: nat)
    requires i <= |toks|
    ensures i <= j <= |toks|
    ensures forall k :: i <= k < j ==> toks[k].Whitespace?
    ensures j < |toks| ==> !toks[j].Whitespace?
    decreases |toks| - i
  {
    if i < |toks| && toks[i].Whitespace? then SkipWs(toks, i + 1) else i
  }

  /** The `until` predicates handed to `get_buffer`. */
  datatype Until = TagName | SlotBody | StringBody(quote: Token)

  predicate Continues(u: Until, t: Token) {
    match u
    case TagName => !(t.Whitespace? || t.GreaterThan? || t.Equals?)
    case SlotBody => t != SlotClose
    case StringBody(quote) => t != quote
  }

  /** The first cursor from `j` on whose token stops the buffer, or the end. */
  function ScanUntil(toks: seq<Token>, j: nat, u: Until): (k: nat)
    requires j <= |toks|
    ensures j <= k <= |toks|
    ensures forall m :: j <= m < k ==> Continues(u, toks[m])
    ensures k < |toks| ==> !Continues(u, toks[k])
    decreases |toks| - j
  {
    if j < |toks| && Continues(u, toks[j]) then ScanUntil(toks, j + 1, u) else j
  }

  /**
   * `get_buffer`: the first token is taken whatever it is; the buffer then runs up to the first
   * token that stops it. At the end of input the buffer ends where the last token began.
   */
  function GetBuffer(toks: seq<Token>, i: nat, u: Until): (r: Parsed<string>)
    requires i <= |toks|
    ensures r.Ok? ==> i < r.value.1 <= |toks|
  {
    if i >= |toks| then Err(EndOfInput)
    else
      var k := ScanUntil(toks, i + 1, u);
      if k < |toks| then Ok((SourceOf(toks[i..k]), k)) else Ok((SourceOf(toks[i..|toks| - 1]), |toks|))
  }

  // ---------------------------------------------------------------------------------------
  // The grammar, as functions
  // ---------------------------------------------------------------------------------------

  function ParseTagName(toks: seq<Token>, i: nat): (r: Parsed<string>)
    requires i <= |toks|
    ensures r.Ok? ==> i < r.value.1 <= |toks|
  {
    GetBuffer(toks, i, TagName)
  }

  /** `parse_string`: the opening quote, the buffer up to the same quote, and the closing quote. */
  function ParseString(toks: seq<Token>, i: nat): (r: Parsed<Expr>)
    requires i <= |toks|
    ensures r.Ok? ==> i < r.value.1 <= |toks|
  {
    if i >= |toks| then Err(EndOfInput)
    else
      match GetBuffer(toks, i + 1, StringBody(toks[i]))
      case Err(e) => Err(e)
      case Ok((value, j)) => if j >= |toks| then Err(EndOfInput) else Ok((Str(value), j + 1))
  }

  function ParseAttributeValue(toks: seq<Token>, i: nat): (r: Parsed<Expr>)
    requires i <= |toks|
    ensures r.Ok? ==> i < r.value.1 <= |toks|
  {
    if i >= |toks| then Err(EndOfInput)
    else if toks[i] == SingleQuote || toks[i] == DoubleQuote then ParseString(toks, i)
    else Err(UnexpectedToken)
  }

  function ParseAttribute(toks: seq<Token>, i: nat): (r: Parsed<Expr>)
    requires i <= |toks|
    ensures r.Ok? ==> i < r.value.1 <= |toks|
  {
    match ParseTagName(toks, i)
    case Err(e) => Err(e)
    case Ok((name, j)) =>
      if j >= |toks| then Err(EndOfInput)
      else if toks[j] == Equals then
        match ParseAttributeValue(toks, j + 1)
        case Err(e) => Err(e)
        case Ok((value, k)) => Ok((Attribute(name, Some(value)), k))
      else Ok((Attribute(name, None), j))
  }

  /** `parse_attributes` from cursor `i`, with `acc` already collected. */
  function ParseAttributes(toks: seq<Token>, i: nat, acc: seq<Expr>): (r: Parsed<seq<Expr>>)
    requires i <= |toks|
    ensures r.Ok? ==> i <= r.value.1 < |toks|
                      && (toks[r.value.1] == SelfCloseTag || toks[r.value.1] == GreaterThan)
    decreases |toks| - i
  {
    var j := SkipWs(toks, i);
    if j >= |toks| then Err(EndOfInput)
    else if toks[j] == SelfCloseTag || toks[j] == GreaterThan then Ok((acc, j))
    else
      match ParseAttribute(toks, j)
      case Err(e) => Err(e)
      case Ok((a, k)) => ParseAttributes(toks, k, acc + [a])
  }

  function ParseSlot(toks: seq<Token>, i: nat): (r: Parsed<Expr>)
    requires i <= |toks|
    ensures r.Ok? ==> i < r.value.1 <= |toks|
  {
    match GetBuffer(toks, i, SlotBody)
    case Err(e) => Err(e)
    case Ok((script, j)) => if j >= |toks| then Err(EndOfInput) else Ok((Slot(script), j + 1))
  }

  /** `parse_node`. */
  function ParseNode(toks: seq<Token>, i: nat): (r: Parsed<Expr>)
    requires i <= |toks|
    ensures r.Ok? ==> i < r.value.1 <= |toks|
    decreases |toks| - i, 0
  {
    var j := SkipWs(toks, i);
    if j >= |toks| then Err(EndOfInput)
    else if toks[j].Word? then Ok((Text(toks[j].text), j + 1))
    else if toks[j] == SlotOpen then ParseSlot(toks, j + 1)
    else if toks[j] == LessThan then ParseElement(toks, j + 1)
    else Err(UnknownElement)
  }

  /** `parse_element`, after the `<`. */
  function ParseElement(toks: seq<Token>, i: nat): (r: Parsed<Expr>)
    requires i <= |toks|
    ensures r.Ok? ==> i < r.value.1 <= |toks|
    decreases |toks| - i, 3
  {
    match ParseTagName(toks, i)
    case Err(e) => Err(e)
    case Ok((tagName, j)) =>
      match ParseAttributes(toks, j, [])
      case Err(e) => Err(e)
      case Ok((attributes, k)) => ElementBody(toks, tagName, attributes, k)
  }

  /**
   * The rest of `parse_element`, at the `/>` or `>` the attribute loop stopped at (it stops at
   * nothing else, so the `Unexpected token` arm is never taken).
   */
  function ElementBody(toks: seq<Token>, tagName: string, attributes: seq<Expr>, k: nat): (r: Parsed<Expr>)
    requires k < |toks| && (toks[k] == SelfCloseTag || toks[k] == GreaterThan)
    ensures r.Ok? ==> k < r.value.1 <= |toks|
    decreases |toks| - k, 2
  {
    if toks[k] == SelfCloseTag then Ok((Element(tagName, attributes, []), k + 1))
    else
      match ParseChildren(toks, SkipWs(toks, k + 1), [])
      case Err(e) => Err(e)
      case Ok((children, p)) => CloseElement(toks, tagName, attributes, children, p)
  }

  /** The close tag, then a tag name that is never compared, then one more token, unchecked. */
  function CloseElement(toks: seq<Token>, tagName: string, attributes: seq<Expr>, children: seq<Expr>,
                        p: nat): (r: Parsed<Expr>)
    requires p < |toks|
    ensures r.Ok? ==> p < r.value.1 <= |toks|
  {
    match ParseTagName(toks, p + 1)
    case Err(e) => Err(e)
    case Ok((_, q)) => if q >= |toks| then Err(EndOfInput) else Ok((Element(tagName, attributes, children), q + 1))
  }

  /** The children loop of `parse_element`: nodes up to the close-tag token. */
  function ParseChildren(toks: seq<Token>, i: nat, acc: seq<Expr>): (r: Parsed<seq<Expr>>)
    requires i <= |toks|
    ensures r.Ok? ==> i <= r.value.1 < |toks| && toks[r.value.1] == CloseTag
    decreases |toks| - i, 1
  {
    if i >= |toks| then Err(EndOfInput)
    else if toks[i] == CloseTag then Ok((acc, i))
    else
      match ParseNode(toks, i)
      case Err(e) => Err(e)
      case Ok((n, j)) => ParseChildren(toks, SkipWs(toks, j), acc + [n])
  }

  /** The loop of `parse_fragment`: nodes until the end of input. */
  function FragmentNodes(toks: seq<Token>, i: nat, acc: seq<Expr>): Result<seq<Expr>, ParseError>
    requires i <= |toks|
    decreases |toks| - i
  {
    if i >= |toks| then Ok(acc)
    else
      match ParseNode(toks, i)
      case Err(e) => Err(e)
      case Ok((n, j)) => FragmentNodes(toks, SkipWs(toks, j), acc + [n])
  }

  /** `parse`: a single top-level node is the result itself, otherwise a fragment of them. */
  function Parse(toks: seq<Token>): Result<Expr, ParseError> {
    match FragmentNodes(toks, 0, [])
    case Err(e) => Err(e)
    case Ok(children) => if |children| == 1 then Ok(children[0]) else Ok(Fragment(children))
  }

  // ---------------------------------------------------------------------------------------
  // The grammar, as the source's loops
  // ---------------------------------------------------------------------------------------

  method EatWhitespace(toks: seq<Token>, i: nat) returns (j: nat)
    requires i <= |toks|
    ensures j == SkipWs(toks, i)
  {
    j := i;
    while j < |toks| && toks[j].Whitespace?
      invariant i <= j <= |toks|
      invariant SkipWs(toks, j) == SkipWs(toks, i)
    {
      j := j + 1;
    }
  }

  method GetBufferLoop(toks: seq<Token>, i: nat, u: Until) returns (r: Parsed<string>)
    requires i <= |toks|
    ensures r == GetBuffer(toks, i, u)
  {
    if i >= |toks| {
      return Err(EndOfInput);
    }
    var start := i;
    var end := start;
    var pos := i + 1;
    while pos < |toks|
      invariant i + 1 <= pos <= |toks|
      invariant ScanUntil(toks, pos, u) == ScanUntil(toks, i + 1, u)
      invariant end == pos - 1
    {
      end := pos;
      if !Continues(u, toks[pos]) {
        break;
      }
      pos := pos + 1;
    }
    r := Ok((SourceOf(toks[start..end]), pos));
  }

  method ParseAttributesLoop(toks: seq<Token>, i: nat) returns (r: Parsed<seq<Expr>>)
    requires i <= |toks|
    ensures r == ParseAttributes(toks, i, [])
  {
    var attributes: seq<Expr> := [];
    var pos := i;
    while true
      invariant pos <= |toks|
      invariant ParseAttributes(toks, pos, attributes) == ParseAttributes(toks, i, [])
      decreases |toks| - pos
    {
      pos := EatWhitespace(toks, pos);
      if pos >= |toks| {
        return Err(EndOfInput);
      }
      if toks[pos] == SelfCloseTag || toks[pos] == GreaterThan {
        break;
      }
      var a := ParseAttributeSteps(toks, pos);
      if a.Err? {
        return Err(a.error);
      }
      attributes := attributes + [a.value.0];
      pos := a.value.1;
    }
    r := Ok((attributes, pos));
  }

  method ParseAttributeSteps(toks: seq<Token>, i: nat) returns (r: Parsed<Expr>)
    requires i <= |toks|
    ensures r == ParseAttribute(toks, i)
  {
    var name := GetBufferLoop(toks, i, TagName);
    if name.Err? {
      return Err(name.error);
    }
    var pos := name.value.1;
    if pos >= |toks| {
      return Err(EndOfInput);
    }
    var value: Option<Expr> := None;
    if toks[pos] == Equals {
      pos := pos + 1;
      if pos >= |toks| {
        return Err(EndOfInput);
      }
      if !(toks[pos] == SingleQuote || toks[pos] == DoubleQuote) {
        return Err(UnexpectedToken);
      }
      var s := ParseStringSteps(toks, pos);
      if s.Err? {
        return Err(s.error);
      }
      value := Some(s.value.0);
      pos := s.value.1;
    }
    r := Ok((Attribute(name.value.0, value), pos));
  }

  method ParseStringSteps(toks: seq<Token>, i: nat) returns (r: Parsed<Expr>)
    requires i <= |toks|
    ensures r == ParseString(toks, i)
  {
    if i >= |toks| {
      return Err(EndOfInput);
    }
    var quote := toks[i];
    var value := GetBufferLoop(toks, i + 1, StringBody(quote));
    if value.Err? {
      return Err(value.error);
    }
    if value.value.1 >= |toks| {
      return Err(EndOfInput);
    }
    r := Ok((Str(value.value.0), value.value.1 + 1));
  }

  method ParseNodeSteps(toks: seq<Token>, i: nat) returns (r: Parsed<Expr>)
    requires i <= |toks|
    ensures r == ParseNode(toks, i)
    decreases |toks| - i, 0
  {
    var pos := EatWhitespace(toks, i);
    if pos >= |toks| {
      return Err(EndOfInput);
    }
    var token := toks[pos];
    if token.Word? {
      r := Ok((Text(token.text), pos + 1));
    } else if token == SlotOpen {
      var script := GetBufferLoop(toks, pos + 1, SlotBody);
      if script.Err? {
        return Err(script.error);
      }
      if script.value.1 >= |toks| {
        return Err(EndOfInput);
      }
      r := Ok((Slot(script.value.0), script.value.1 + 1));
    } else if token == LessThan {
      r := ParseElementSteps(toks, pos + 1);
    } else {
      r := Err(UnknownElement);
    }
  }

  method ParseElementSteps(toks: seq<Token>, i: nat) returns (r: Parsed<Expr>)
    requires i <= |toks|
    ensures r == ParseElement(toks, i)
    decreases |toks| - i, 3
  {
    var tagName := GetBufferLoop(toks, i, TagName);
    if tagName.Err? {
      return Err(tagName.error);
    }
    var attributes := ParseAttributesLoop(toks, tagName.value.1);
    if attributes.Err? {
      return Err(attributes.error);
    }
    r := ElementBodySteps(toks, tagName.value.0, attributes.value.0, attributes.value.1);
  }

  method ElementBodySteps(toks: seq<Token>, tagName: string, attributes: seq<Expr>, k: nat) returns (r: Parsed<Expr>)
    requires k < |toks| && (toks[k] == SelfCloseTag || toks[k] == GreaterThan)
    ensures r == ElementBody(toks, tagName, attributes, k)
    decreases |toks| - k, 2
  {
    var pos := EatWhitespace(toks, k);
    if toks[pos] == SelfCloseTag {
      return Ok((Element(tagName, attributes, []), pos + 1));
    }
    pos := EatWhitespace(toks, pos + 1);
    var children := ParseChildrenLoop(toks, pos);
    if children.Err? {
      return Err(children.error);
    }
    r := CloseElementSteps(toks, tagName, attributes, children.value.0, children.value.1);
  }

  method CloseElementSteps(toks: seq<Token>, tagName: string, attributes: seq<Expr>, children: seq<Expr>,
                           p: nat) returns (r: Parsed<Expr>)
    requires p < |toks|
    ensures r == CloseElement(toks, tagName, attributes, children, p)
  {
    var endTagName := GetBufferLoop(toks, p + 1, TagName);
    if endTagName.Err? {
      return Err(endTagName.error);
    }
    if endTagName.value.1 >= |toks| {
      return Err(EndOfInput);
    }
    r := Ok((Element(tagName, attributes, children), endTagName.value.1 + 1));
  }

  /** The children loop of `parse_element`. */
  method ParseChildrenLoop(toks: seq<Token>, i: nat) returns (r: Parsed<seq<Expr>>)
    requires i <= |toks|
    ensures r == ParseChildren(toks, i, [])
    decreases |toks| - i, 1
  {
    var children: seq<Expr> := [];
    var pos := i;
    while true
      invariant i <= pos <= |toks|
      invariant ParseChildren(toks, pos, children) == ParseChildren(toks, i, [])
      decreases |toks| - pos
    {
      if pos >= |toks| {
        return Err(EndOfInput);
      }
      if toks[pos] == CloseTag {
        break;
      }
      var child := ParseNodeSteps(toks, pos);
      if child.Err? {
        return Err(child.error);
      }
      children := children + [child.value.0];
      pos := EatWhitespace(toks, child.value.1);
    }
    r := Ok((children, pos));
  }

  method ParseFragmentLoop(toks: seq<Token>) returns (r: Result<Expr, ParseError>)
    ensures r == Parse(toks)
  {
    var children: seq<Expr> := [];
    var pos := 0;
    while pos < |toks|
      invariant pos <= |toks|
      invariant FragmentNodes(toks, pos, children) == FragmentNodes(toks, 0, [])
      decreases |toks| - pos
    {
      var child := ParseNodeSteps(toks, pos);
      if child.Err? {
        return Err(child.error);
      }
      children := children + [child.value.0];
      pos := EatWhitespace(toks, child.value.1);
    }
    if |children| == 1 {
      r := Ok(children[0]);
    } else {
      r := Ok(Fragment(children));
    }
  }

  // ---------------------------------------------------------------------------------------
  // Properties
  // ---------------------------------------------------------------------------------------

  /** The end of input reached while the tag name is read: its buffer cannot see the next token. */
  lemma {:induction false} ScanUntilAt(toks: seq<Token>, j: nat, k: nat, u: Until)
    requires j <= k <= |toks|
    requires forall m :: j <= m < k ==> Continues(u, toks[m])
    requires k < |toks| ==> !Continues(u, toks[k])
    ensures ScanUntil(toks, j, u) == k
    decreases k - j
  {
    if j < k {
      ScanUntilAt(toks, j + 1, k, u);
    }
  }

  /**
   * A quoted value is the text between the opening quote and the next token equal to it, and the
   * cursor ends after the closing quote; the body must hold at least one token, since the buffer
   * takes its first token unseen.
   */
  lemma QuotedString(toks: seq<Token>, i: nat, n: nat)
    requires i + n + 1 < |toks| && n >= 1
    requires toks[i] == SingleQuote || toks[i] == DoubleQuote
    requires forall m :: i + 1 <= m < i + 1 + n ==> toks[m] != toks[i]
    requires toks[i + 1 + n] == toks[i]
    ensures ParseString(toks, i) == Ok((Str(SourceOf(toks[i + 1..i + 1 + n])), i + n + 2))
    ensures ParseAttributeValue(toks, i) == ParseString(toks, i)
  {
    ScanUntilAt(toks, i + 2, i + 1 + n, StringBody(toks[i]));
  }

  /** A tag name is the text from its first token up to a whitespace, `>` or `=` token. */
  lemma TagNameRun(toks: seq<Token>, i: nat, n: nat)
    requires i + n < |toks| && n >= 1
    requires forall m :: i + 1 <= m < i + n ==> Continues(TagName, toks[m])
    requires !Continues(TagName, toks[i + n])
    ensures ParseTagName(toks, i) == Ok((SourceOf(toks[i..i + n]), i + n))
  {
    ScanUntilAt(toks, i + 1, i + n, TagName);
  }

  lemma SourceOfOne(t: Token)
    ensures SourceOf([t]) == TokenText(t)
  {
    assert [t][1..] == [];
  }

  /** A single word followed by whitespace, `>` or `=` is a tag name of its own. */
  lemma TagWord(toks: seq<Token>, i: nat, name: string)
    requires i + 1 < |toks| && toks[i] == Word(name) && !Continues(TagName, toks[i + 1])
    ensures ParseTagName(toks, i) == Ok((name, i + 1))
  {
    TagNameRun(toks, i, 1);
    assert toks[i..i + 1] == [Word(name)];
    SourceOfOne(Word(name));
  }

  /** `<name />` at cursor `i` is an element with no attributes and no children. */
  lemma SelfClosingTag(toks: seq<Token>, i: nat, name: string)
    requires i + 3 < |toks| && toks[i] == LessThan && toks[i + 1] == Word(name)
    requires toks[i + 2].Whitespace? && toks[i + 3] == SelfCloseTag
    ensures ParseNode(toks, i) == Ok((Element(name, [], []), i + 4))
  {
    TagWord(toks, i + 1, name);
    assert SkipWs(toks, i + 2) == i + 3;
    assert ParseAttributes(toks, i + 2, []) == Ok(([], i + 3));
    assert ParseElement(toks, i + 1) == Ok((Element(name, [], []), i + 4));
  }

  /** A stream that one node spans end to end parses to that node. */
  lemma SingleNode(toks: seq<Token>, e: Expr)
    requires ParseNode(toks, 0) == Ok((e, |toks|))
    ensures Parse(toks) == Ok(e)
  {
    assert FragmentNodes(toks, |toks|, [e]) == Ok([e]);
    assert [] + [e] == [e];
  }

  /** Whitespace, then an attribute: the attribute loop collects it and carries on after it. */
  lemma AttributesStep(toks: seq<Token>, i: nat, acc: seq<Expr>, a: Expr, k: nat)
    requires i + 1 < |toks| && toks[i].Whitespace? && !toks[i + 1].Whitespace?
    requires toks[i + 1] != SelfCloseTag && toks[i + 1] != GreaterThan
    requires ParseAttribute(toks, i + 1) == Ok((a, k))
    ensures ParseAttributes(toks, i, acc) == ParseAttributes(toks, k, acc + [a])
  {
    assert SkipWs(toks, i + 1) == i + 1;
  }

  /** Whitespace, then `/>`: the attribute loop stops with what it has collected. */
  lemma AttributesEnd(toks: seq<Token>, i: nat, acc: seq<Expr>)
    requires i + 1 < |toks| && toks[i].Whitespace? && toks[i + 1] == SelfCloseTag
    ensures ParseAttributes(toks, i, acc) == Ok((acc, i + 1))
  {
    assert SkipWs(toks, i + 1) == i + 1;
  }

  /** `<tag` and attributes that run up to a final `/>`: the whole stream is that one element. */
  lemma LoneSelfClosing(toks: seq<Token>, tag: string, attributes: seq<Expr>)
    requires 3 < |toks| && toks[0] == LessThan && toks[1] == Word(tag) && toks[2].Whitespace?
    requires toks[|toks| - 1] == SelfCloseTag
    requires ParseAttributes(toks, 2, []) == Ok((attributes, |toks| - 1))
    ensures Parse(toks) == Ok(Element(tag, attributes, []))
  {
    TagWord(toks, 1, tag);
    assert ParseElement(toks, 1) == Ok((Element(tag, attributes, []), |toks|));
    assert SkipWs(toks, 0) == 0;
    assert ParseNode(toks, 0) == Ok((Element(tag, attributes, []), |toks|));
    SingleNode(toks, Element(tag, attributes, []));
  }

  /** A one-word attribute followed by whitespace, `/>` or `>` has no value. */
  lemma BareAttribute(toks: seq<Token>, i: nat, name: string)
    requires i + 1 < |toks| && toks[i] == Word(name)
    requires toks[i + 1].Whitespace? || toks[i + 1] == GreaterThan
    ensures ParseAttribute(toks, i) == Ok((Attribute(name, None), i + 1))
  {
    TagWord(toks, i, name);
  }

  /** `name='value'`, each a single word, is an attribute holding that string. */
  lemma QuotedAttribute(toks: seq<Token>, i: nat, name: string, value: string)
    requires i + 5 < |toks| && toks[i] == Word(name) && toks[i + 1] == Equals
    requires toks[i + 2] == SingleQuote && toks[i + 3] == Word(value) && toks[i + 4] == SingleQuote
    ensures ParseAttribute(toks, i) == Ok((Attribute(name, Some(Str(value))), i + 5))
  {
    TagWord(toks, i, name);
    QuotedString(toks, i + 2, 1);
    assert toks[i + 3..i + 4] == [Word(value)];
    SourceOfOne(Word(value));
    assert ParseAttributeValue(toks, i + 2) == Ok((Str(value), i + 5));
  }

  /** `<a></b>` parses to an `a` element: the closing tag's name is read but never compared. */
  lemma ClosingNameUnchecked(a: string, b: string)
    ensures Parse([LessThan, Word(a), GreaterThan, CloseTag, Word(b), GreaterThan]) == Ok(Element(a, [], []))
  {
    var toks := [LessThan, Word(a), GreaterThan, CloseTag, Word(b), GreaterThan];
    TagNameRun(toks, 1, 1);
    assert SourceOf(toks[1..2]) == a by { assert toks[1..2] == [Word(a)]; }
    TagNameRun(toks, 4, 1);
    assert ParseAttributes(toks, 2, []) == Ok(([], 2));
    assert ParseChildren(toks, 3, []) == Ok(([], 3));
    assert ElementBody(toks, a, [], 2) == Ok((Element(a, [], []), 6));
    assert SkipWs(toks, 0) == 0;
    assert ParseNode(toks, 0) == Ok((Element(a, [], []), 6));
    assert SkipWs(toks, 6) == 6;
    assert FragmentNodes(toks, 6, [Element(a, [], [])]) == Ok([Element(a, [], [])]);
    assert [] + [Element(a, [], [])] == [Element(a, [], [])];
    assert FragmentNodes(toks, 0, []) == Ok([Element(a, [], [])]);
  }

  /**
   * `<div/>` written without a blank does not parse: `/>` does not end a tag name, so the name
   * swallows it and the attribute loop then meets the end of input.
   */
  lemma SelfClosingWithoutBlank()
    ensures Parse([LessThan, Word("div"), SelfCloseTag]) == Err(EndOfInput)
  {
    var toks := [LessThan, Word("div"), SelfCloseTag];
    assert ScanUntil(toks, 2, TagName) == 3;
    assert ParseTagName(toks, 1) == Ok((SourceOf(toks[1..2]), 3));
    assert ParseNode(toks, 0) == Err(EndOfInput);
  }

  /**
   * `''` is not an empty string: the first token after the opening quote is taken unseen, so the
   * closing quote becomes the string's first character and the string runs on to the next quote
   * of the same kind; with none left it fails at the end of input.
   */
  lemma EmptyQuotedString(w: string)
    ensures ParseString([SingleQuote, SingleQuote], 0) == Err(EndOfInput)
    ensures ParseString([SingleQuote, SingleQuote, Word(w), SingleQuote], 0) == Ok((Str("'" + w), 4))
  {
    var toks := [SingleQuote, SingleQuote, Word(w), SingleQuote];
    assert ScanUntil(toks, 2, StringBody(SingleQuote)) == 3 by {
      ScanUntilAt(toks, 2, 3, StringBody(SingleQuote));
    }
    assert SourceOf(toks[1..3]) == "'" + w by {
      assert toks[1..3] == [SingleQuote, Word(w)];
      assert [SingleQuote, Word(w)][1..] == [Word(w)];
      SourceOfOne(Word(w));
    }
  }

  /** An empty source is an empty fragment; a source of whitespace alone fails. */
  lemma EmptyAndBlankSources(s: string)
    ensures Parse([]) == Ok(Fragment([]))
    ensures Parse([Whitespace(s)]) == Err(EndOfInput)
  {
    assert ParseNode([Whitespace(s)], 0) == Err(EndOfInput);
  }

  /** Two words with whitespace between parse to a fragment of two texts, in order. */
  lemma TwoTopLevelTexts(a: string, b: string, w: string)
    ensures Parse([Word(a), Whitespace(w), Word(b)]) == Ok(Fragment([Text(a), Text(b)]))
  {
    var toks := [Word(a), Whitespace(w), Word(b)];
    assert SkipWs(toks, 0) == 0;
    assert ParseNode(toks, 0) == Ok((Text(a), 1));
    assert SkipWs(toks, 2) == 2;
    assert SkipWs(toks, 1) == 2;
    assert ParseNode(toks, 2) == Ok((Text(b), 3));
    assert SkipWs(toks, 3) == 3;
    assert FragmentNodes(toks, 3, [Text(a), Text(b)]) == Ok([Text(a), Text(b)]);
    assert [Text(a)] + [Text(b)] == [Text(a), Text(b)];
    assert FragmentNodes(toks, 2, [Text(a)]) == Ok([Text(a), Text(b)]);
    assert [] + [Text(a)] == [Text(a)];
    assert FragmentNodes(toks, 0, []) == Ok([Text(a), Text(b)]);
  }

  /** A node cannot start with anything but a word, `{{` or `<`. */
  lemma NodeStartsWithWordSlotOrTag(toks: seq<Token>, i: nat)
    requires i <= |toks|
    requires SkipWs(toks, i) < |toks|
    requires var t := toks[SkipWs(toks, i)]; !(t.Word? || t == SlotOpen || t == LessThan)
    ensures ParseNode(toks, i) == Err(UnknownElement)
  {
  }

  // The tests at the end of mod.rs, over the token streams of their sources, with any words in
  // place of the tests' names.

  /** The source `abc`. */
  lemma ParsesText(w: string)
    ensures Parse([Word(w)]) == Ok(Text(w))
  {
    var toks := [Word(w)];
    assert SkipWs(toks, 0) == 0;
    assert ParseNode(toks, 0) == Ok((Text(w), 1));
    SingleNode(toks, Text(w));
  }

  /** The source `<div />`. */
  lemma ParsesSelfClosingElement(tag: string, ws: string)
    ensures Parse([LessThan, Word(tag), Whitespace(ws), SelfCloseTag]) == Ok(Element(tag, [], []))
  {
    var toks := [LessThan, Word(tag), Whitespace(ws), SelfCloseTag];
    SelfClosingTag(toks, 0, tag);
    SingleNode(toks, Element(tag, [], []));
  }

  /** The source `<div a />`. */
  lemma ParsesAttributeName(tag: string, a: string)
    ensures Parse([LessThan, Word(tag), Whitespace(" "), Word(a), Whitespace(" "), SelfCloseTag])
            == Ok(Element(tag, [Attribute(a, None)], []))
  {
    var toks := [LessThan, Word(tag), Whitespace(" "), Word(a), Whitespace(" "), SelfCloseTag];
    var x := Attribute(a, None);
    BareAttribute(toks, 3, a);
    AttributesEnd(toks, 4, [x]);
    AttributesStep(toks, 2, [], x, 4);
    assert [] + [x] == [x];
    LoneSelfClosing(toks, tag, [x]);
  }

  /** The source `<div a='b' />`. */
  lemma ParsesAttributeValue(tag: string, a: string, b: string)
    ensures Parse([LessThan, Word(tag), Whitespace(" "), Word(a), Equals, SingleQuote, Word(b), SingleQuote,
                   Whitespace(" "), SelfCloseTag])
            == Ok(Element(tag, [Attribute(a, Some(Str(b)))], []))
  {
    var toks := [LessThan, Word(tag), Whitespace(" "), Word(a), Equals, SingleQuote, Word(b), SingleQuote,
                 Whitespace(" "), SelfCloseTag];
    OneQuotedAttribute(toks, a, b);
    LoneSelfClosing(toks, tag, [Attribute(a, Some(Str(b)))]);
  }

  lemma OneQuotedAttribute(toks: seq<Token>, a: string, b: string)
    requires |toks| == 10 && toks[2].Whitespace? && toks[3] == Word(a) && toks[4] == Equals
    requires toks[5] == SingleQuote && toks[6] == Word(b) && toks[7] == SingleQuote && toks[8].Whitespace?
    requires toks[9] == SelfCloseTag
    ensures ParseAttributes(toks, 2, []) == Ok(([Attribute(a, Some(Str(b)))], 9))
  {
    var x := Attribute(a, Some(Str(b)));
    QuotedAttribute(toks, 3, a, b);
    AttributesEnd(toks, 8, [x]);
    AttributesStep(toks, 2, [], x, 8);
    assert [] + [x] == [x];
  }

  /** The source `<div a='b' c d />`. */
  lemma ParsesMultipleValues(tag: string, a: string, b: string, c: string, d: string)
    ensures Parse([LessThan, Word(tag), Whitespace(" "), Word(a), Equals, SingleQuote, Word(b), SingleQuote,
                   Whitespace(" "), Word(c), Whitespace(" "), Word(d), Whitespace(" "), SelfCloseTag])
            == Ok(Element(tag, [Attribute(a, Some(Str(b))), Attribute(c, None), Attribute(d, None)], []))
  {
    var toks := [LessThan, Word(tag), Whitespace(" "), Word(a), Equals, SingleQuote, Word(b), SingleQuote,
                 Whitespace(" "), Word(c), Whitespace(" "), Word(d), Whitespace(" "), SelfCloseTag];
    MultipleValuesAttributes(toks, a, b, c, d);
    LoneSelfClosing(toks, tag, [Attribute(a, Some(Str(b))), Attribute(c, None), Attribute(d, None)]);
  }

  lemma MultipleValuesAttributes(toks: seq<Token>, a: string, b: string, c: string, d: string)
    requires |toks| == 14 && toks[2].Whitespace? && toks[3] == Word(a) && toks[4] == Equals
    requires toks[5] == SingleQuote && toks[6] == Word(b) && toks[7] == SingleQuote && toks[8].Whitespace?
    requires toks[9] == Word(c) && toks[10].Whitespace? && toks[11] == Word(d) && toks[12].Whitespace?
    requires toks[13] == SelfCloseTag
    ensures ParseAttributes(toks, 2, []) == Ok(([Attribute(a, Some(Str(b))), Attribute(c, None), Attribute(d, None)], 13))
  {
    var x := Attribute(a, Some(Str(b)));
    QuotedAttribute(toks, 3, a, b);
    AttributesStep(toks, 2, [], x, 8);
    assert [] + [x] == [x];
    TwoBareAttributes(toks, 8, [x], c, d);
    assert [x] + [Attribute(c, None), Attribute(d, None)] == [x, Attribute(c, None), Attribute(d, None)];
  }

  /** ` c d />`: two attributes without values, then the end of the tag. */
  lemma TwoBareAttributes(toks: seq<Token>, i: nat, acc: seq<Expr>, c: string, d: string)
    requires i + 5 < |toks| && toks[i].Whitespace? && toks[i + 1] == Word(c) && toks[i + 2].Whitespace?
    requires toks[i + 3] == Word(d) && toks[i + 4].Whitespace? && toks[i + 5] == SelfCloseTag
    ensures ParseAttributes(toks, i, acc) == Ok((acc + [Attribute(c, None), Attribute(d, None)], i + 5))
  {
    var y, z := Attribute(c, None), Attribute(d, None);
    BareAttribute(toks, i + 1, c);
    BareAttribute(toks, i + 3, d);
    AttributesEnd(toks, i + 4, acc + [y, z]);
    AttributesStep(toks, i + 2, acc + [y], z, i + 4);
    AttributesStep(toks, i, acc, y, i + 2);
    assert acc + [y] + [z] == acc + [y, z];
  }

  /** The source `<div> <span /></div>`. */
  lemma ParsesChildren(tag: string, child: string)
    ensures Parse([LessThan, Word(tag), GreaterThan, Whitespace(" "), LessThan, Word(child), Whitespace(" "),
                   SelfCloseTag, CloseTag, Word(tag), GreaterThan])
            == Ok(Element(tag, [], [Element(child, [], [])]))
  {
    var toks := [LessThan, Word(tag), GreaterThan, Whitespace(" "), LessThan, Word(child), Whitespace(" "),
                 SelfCloseTag, CloseTag, Word(tag), GreaterThan];
    var e := Element(tag, [], [Element(child, [], [])]);
    OneChild(toks, tag, child);
    assert SkipWs(toks, 0) == 0;
    assert ParseNode(toks, 0) == Ok((e, 11));
    SingleNode(toks, e);
  }

  lemma OneChild(toks: seq<Token>, tag: string, child: string)
    requires |toks| == 11 && toks[1] == Word(tag) && toks[2] == GreaterThan && toks[3].Whitespace?
    requires toks[4] == LessThan && toks[5] == Word(child) && toks[6].Whitespace? && toks[7] == SelfCloseTag
    requires toks[8] == CloseTag && toks[9] == Word(tag) && toks[10] == GreaterThan
    ensures ParseElement(toks, 1) == Ok((Element(tag, [], [Element(child, [], [])]), 11))
  {
    var span := Element(child, [], []);
    TagWord(toks, 1, tag);
    assert ParseAttributes(toks, 2, []) == Ok(([], 2));
    SelfClosingTag(toks, 4, child);
    assert SkipWs(toks, 8) == 8;
    assert ParseChildren(toks, 8, [span]) == Ok(([span], 8));
    assert [] + [span] == [span];
    assert ParseChildren(toks, 4, []) == Ok(([span], 8));
    assert SkipWs(toks, 3) == 4;
    TagWord(toks, 9, tag);
    assert CloseElement(toks, tag, [], [span], 8) == Ok((Element(tag, [], [span]), 11));
    assert ElementBody(toks, tag, [], 2) == Ok((Element(tag, [], [span]), 11));
  }
}
