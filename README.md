# Tandem source-editing core and the Paperclip template pipeline, in Dafny

This project models the part of Tandem that turns visual edits back into source text, together with
the small Paperclip template language that sits next to it. It proves what each piece promises.

- **TSX patching** (`ts_editor.dfy`, `ts_replacements.dfy`). The TypeScript sandbox editor turns
  each edit into `{start, end, value}` replacements:
  - moving, removing or inserting a JSX child;
  - setting, renaming or deleting an attribute.

  `getFormattedContent` sorts the replacements by descending start and splices them into the text.
  The editor is a class whose `replacements` field the handlers append to. The splice is a loop
  proved against a specification function. For spans that do not overlap, even ones that start at
  the same place, that function is shown to change the length by the sum of
  `|value| - (end - start)`. When the starts are also distinct, it is shown to keep every character
  outside the spans.
- **CSS rule editing** (`css_editor.dfy`, `strings.dfy`). The postcss sandbox editor:
  - rewrites a rule's selector relative to its ancestors' selector prefix, keeping a leading `&`;
  - updates, renames, removes or appends a declaration;
  - locates the edited node through the first anchor in walk order, refining a rule anchor by its
    "effective selector".
- **Style-rule diffs** (`style_rule.dfy`). `SyntheticCSSStyleRuleEdit.addDiff` turns a key-level
  edit script into `setDeclaration` changes. It does not record removals of falsy values or updates
  that leave a value unchanged. `SyntheticCSSStyleRule` applies a change to its style.
- **Paperclip** (`pc_parser.dfy`, `pc_ast.dfy`, `pc_evaluator.dfy`):
  - the recursive-descent parser, over a token array with a cursor;
  - the AST printer and the AST-to-virtual-DOM `execute`;
  - the runtime evaluator, which selects a part, skips comments, styles, imports and scripts, adds
    the scope attribute, flattens single-child fragments, evaluates conditional blocks and builds
    component props.
- **Backgrounds pane** (`backgrounds.dfy`). It splits a `background` value into its `rgba(...)`
  layers, replaces one layer, and appends the default colour from the plus button.
- **`ProxyBus`** (`proxy_bus.dfy`). A pause/queue/drain state machine, modelled twice:
  - as a state-transition function, with an invariant that every reachable state keeps;
  - as a class whose methods are proved to refine those transitions.

The model follows the code as written where it differs from its comments or from what a caller
might expect:

- Attribute removal deletes exactly the attribute's span, so the blank before it stays
  (`TsEditor.RemoveClassExample`).
- Inserting a child at `index` splices after `children[index]`, not before it.
- The element locator keeps the last matching identifier in visiting order, because later siblings
  overwrite the captured result.
- `setSelector` records its change with the `setDeclaration` tag.
- The CSS selector rewrite removes only the first occurrence of the prefix, as
  `String.prototype.replace` with a string pattern does.
- `SET_DECLARATION` walks declarations at every depth, but splices the index found in the inner
  rule out of the outer rule's nodes (`CssEditor.NestedRemovalExample`).
- The parser:
  - never compares the closing tag name with the opening one;
  - needs a blank before `/>` that follows a tag name (`<div/>` runs to the end of input);
  - rejects an input made only of blanks;
  - does not read `''` as an empty string. The token after the opening quote is taken unseen, so
    the closing quote becomes the first character and the string runs to the next quote of the
    same kind. It fails only when no such quote follows (`PcParser.EmptyQuotedString`).
- The TSX attribute edit throws on a spread attribute, and on a bare attribute that is given a
  value (`TsEditor.ScanStep`).

Each module is a file:

- `Wrappers` holds `Option` and `Result`.
- `Strings` holds the string helpers.
- The rest are named after the source files.

## Model

| member | source | states |
|---|---|---|
| Strings.IndexOf | src/@tandem/synthetic-browser/sandbox/css-editor.ts:29 | -1 or an index where the pattern occurs, with no occurrence before it (none at all for -1) |
| Strings.ReplaceFirst | src/@tandem/synthetic-browser/sandbox/css-editor.ts:29 | replaces only the first occurrence of the pattern; text without one comes back unchanged |
| Strings.ReplaceLeading | src/@tandem/synthetic-browser/sandbox/css-editor.ts:29 | a text that starts with the pattern loses exactly that leading copy |
| Strings.StripAmp | src/@tandem/synthetic-browser/sandbox/css-editor.ts:88 | drops one leading `&` and nothing else |
| Strings.Join | packages/front-end/src/components/root/workspace/right-gutter/styles/pretty/panes/backgrounds-controller.tsx:69 | no parts join to `""`, a single part to itself |
| Strings.JoinEmptyOnlyIfNoParts | packages/front-end/src/components/root/workspace/right-gutter/styles/pretty/panes/backgrounds-controller.tsx:69 | with no empty part, the join is empty iff there are no parts |
| Backgrounds.Matches | packages/front-end/src/components/root/workspace/right-gutter/styles/pretty/panes/backgrounds-controller.tsx:63 | the global match as a scan over suffixes; its matches are whole layers of the value (`Backgrounds.MatchesAreBackgrounds`) and a leading layer is matched first (`Backgrounds.MatchLeading`) |
| Backgrounds.SplitBackgrounds | packages/front-end/src/components/root/workspace/right-gutter/styles/pretty/panes/backgrounds-controller.tsx:63 | `splitBackgrounds`: no value splits into no layers; joined layers split back into themselves (`Backgrounds.SplitJoin`) |
| Backgrounds.ReplaceBackground | packages/front-end/src/components/root/workspace/right-gutter/styles/pretty/panes/backgrounds-controller.tsx:66-69 | `replaceBackground`: replacing a layer round-trips (`Backgrounds.ReplaceRoundTrip`), and clearing one drops it, giving undefined when none is left (`Backgrounds.ClearRemoves`) |
| Backgrounds.PlusValue | packages/front-end/src/components/root/workspace/right-gutter/styles/pretty/panes/backgrounds-controller.tsx:29 | the value the plus button writes; it splits into the old layers followed by the default colour (`Backgrounds.PlusAppendsDefault`) |
| Backgrounds.CloseFromStops | packages/front-end/src/components/root/workspace/right-gutter/styles/pretty/panes/backgrounds-controller.tsx:63 | the scan for the end of a layer stops at the first `)` or line terminator, and at nothing before it |
| Backgrounds.MatchIsBackground | packages/front-end/src/components/root/workspace/right-gutter/styles/pretty/panes/backgrounds-controller.tsx:63 | a match found at the head of the value is a whole `rgba(...)` layer |
| Backgrounds.MatchesAreBackgrounds | packages/front-end/src/components/root/workspace/right-gutter/styles/pretty/panes/backgrounds-controller.tsx:63 | every match of the global regex is a whole `rgba(...)` layer, and it occurs in the value |
| Backgrounds.OccursInSuffix | packages/front-end/src/components/root/workspace/right-gutter/styles/pretty/panes/backgrounds-controller.tsx:63 | a piece of the rest of the value after a match is a piece of the whole value |
| Backgrounds.MatchLeading | packages/front-end/src/components/root/workspace/right-gutter/styles/pretty/panes/backgrounds-controller.tsx:63 | a value that starts with a layer matches that layer first |
| Backgrounds.SplitCons | packages/front-end/src/components/root/workspace/right-gutter/styles/pretty/panes/backgrounds-controller.tsx:63 | splitting a layer, a comma and a rest yields the layer, then the rest's layers |
| Backgrounds.SplitJoin | packages/front-end/src/components/root/workspace/right-gutter/styles/pretty/panes/backgrounds-controller.tsx:63 | splitting the comma-join of layers gives back the layers |
| Strings.SpliceStart | packages/front-end/src/components/root/workspace/right-gutter/styles/pretty/panes/backgrounds-controller.tsx:67 | the clamped splice start never exceeds the array length, and an index within the array is its own start |
| Backgrounds.ArraySplice | packages/front-end/src/components/root/workspace/right-gutter/styles/pretty/panes/backgrounds-controller.tsx:67 | for an index inside the array, that one entry is replaced and the others are kept |
| Backgrounds.ReplaceRoundTrip | packages/front-end/src/components/root/workspace/right-gutter/styles/pretty/panes/backgrounds-controller.tsx:66-69 | replacing layer i of a joined value by a layer gives the joined list with that layer put at i |
| Backgrounds.ClearRemoves | packages/front-end/src/components/root/workspace/right-gutter/styles/pretty/panes/backgrounds-controller.tsx:66-69 | replacing a layer by `""` removes it: a lone layer gives undefined, otherwise the other layers joined in order |
| Backgrounds.ClearedDropped | packages/front-end/src/components/root/workspace/right-gutter/styles/pretty/panes/backgrounds-controller.tsx:67-68 | a blank put at index i is filtered out again |
| Backgrounds.DropBlank | packages/front-end/src/components/root/workspace/right-gutter/styles/pretty/panes/backgrounds-controller.tsx:68 | an empty entry between non-blank ones is dropped and the rest is kept in order |
| Backgrounds.NonBlankAll | packages/front-end/src/components/root/workspace/right-gutter/styles/pretty/panes/backgrounds-controller.tsx:68 | a list of non-blank entries passes the filter unchanged |
| Backgrounds.NonBlankAppend | packages/front-end/src/components/root/workspace/right-gutter/styles/pretty/panes/backgrounds-controller.tsx:68 | the filter distributes over concatenation |
| Backgrounds.NonBlankKept | packages/front-end/src/components/root/workspace/right-gutter/styles/pretty/panes/backgrounds-controller.tsx:68 | every entry the filter keeps is non-blank and comes from the input |
| Backgrounds.NotBlank | packages/front-end/src/components/root/workspace/right-gutter/styles/pretty/panes/backgrounds-controller.tsx:68 | an `rgba(...)` layer is never blank after trim |
| Backgrounds.NoValueOnlyWhenAllBlank | packages/front-end/src/components/root/workspace/right-gutter/styles/pretty/panes/backgrounds-controller.tsx:66-69 | the result is undefined (never `""`) exactly when no entry survives the filter |
| Backgrounds.DefaultIsBackground | packages/front-end/src/components/root/workspace/right-gutter/styles/pretty/panes/backgrounds-controller.tsx:7 | the default colour is itself one background layer |
| Backgrounds.Wrapped | packages/front-end/src/components/root/workspace/right-gutter/styles/pretty/panes/backgrounds-controller.tsx:63 | a value of the form `rgba(` body `)` with no `)` or line terminator in the body splits into that one layer |
| Backgrounds.PlusAppendsDefault | packages/front-end/src/components/root/workspace/right-gutter/styles/pretty/panes/backgrounds-controller.tsx:25-32 | after the plus button, the value splits into the old layers followed by the default colour; no value gives the default colour |
| Backgrounds.AppendToValue | packages/front-end/src/components/root/workspace/right-gutter/styles/pretty/panes/backgrounds-controller.tsx:29 | appending any layer to a joined value splits into the old layers followed by that layer |
| CssEditor.FindMatchingRuleNode | src/@tandem/synthetic-browser/sandbox/css-editor.ts:86-97 | `findMatchingRuleNode`: the first rule of the subtree, in document order, whose effective selector is the target (`CssEditor.MatchingIsFirstCandidate`, `CssEditor.FindMatchingRuleNodeIsFirstMatch`) |
| CssEditor.SelectorPrefix | src/@tandem/synthetic-browser/sandbox/css-editor.ts:107-115 | `getRuleSelectorPrefix`: the enclosing rules' selectors, outermost first, without `&` (`CssEditor.TopLevelPrefix`, `CssEditor.PrefixOfNestedRule`) |
| CssEditor.RewriteSelector | src/@tandem/synthetic-browser/sandbox/css-editor.ts:29 | the new selector: `&` kept iff the old one had it, the prefix cut from the new value once (`CssEditor.RewriteSelectorRoundTrip`) |
| CssEditor.SetDeclarationNodes | src/@tandem/synthetic-browser/sandbox/css-editor.ts:32-50 | the nodes after `SET_DECLARATION`: append when nothing matches, else update or splice out (`CssEditor.SetDeclarationOnFlatRule`, `CssEditor.NestedRemovalExample`) |
| CssEditor.RuleNode.constructor | src/@tandem/synthetic-browser/sandbox/css-editor.ts:24 | the edited rule holds the selector, nodes and enclosing nodes it is given |
| CssEditor.FindTargetAstNode | src/@tandem/synthetic-browser/sandbox/css-editor.ts:52-66 | no anchor in walk order gives nothing; otherwise the first anchor, refined by the nested search when it is a rule |
| CssEditor.FirstAnchor | src/@tandem/synthetic-browser/sandbox/css-editor.ts:54-64 | -1 iff no node is an anchor; otherwise the index of an anchor with none before it |
| CssEditor.MatchingIsFirstCandidate | src/@tandem/synthetic-browser/sandbox/css-editor.ts:86-97 | the recursive search equals the first of the rule's candidates (itself, then its descendant rules in document order, each with its effective selector) whose selector is the target |
| CssEditor.InChildRulesIsFirstCandidate | src/@tandem/synthetic-browser/sandbox/css-editor.ts:90-94 | the search among child rules equals the first matching candidate of their subtrees, in document order |
| CssEditor.FindMatchingRuleNodeIsFirstMatch | src/@tandem/synthetic-browser/sandbox/css-editor.ts:86-97 | a found rule matches the selector, and no earlier candidate does; none found means no candidate matches |
| CssEditor.CandidatesAreRules | src/@tandem/synthetic-browser/sandbox/css-editor.ts:86-97 | only rules are candidates |
| CssEditor.RuleRun | src/@tandem/synthetic-browser/sandbox/css-editor.ts:110-111 | the enclosing ancestors before the returned count are all rules, and the next one, if any, is not |
| CssEditor.TopLevelPrefix | src/@tandem/synthetic-browser/sandbox/css-editor.ts:107-115 | a rule whose parent is not a rule has prefix `""` |
| CssEditor.PrefixOfNestedRule | src/@tandem/synthetic-browser/sandbox/css-editor.ts:112 | a nested rule's prefix is its parent's prefix followed by the parent's selector without `&` |
| CssEditor.RewriteSelectorRoundTrip | src/@tandem/synthetic-browser/sandbox/css-editor.ts:24-30 | when the new value is prefix + own part, the result is the own part, with `&` in front iff the old selector had one; its effective selector is again prefix + own part |
| CssEditor.HoverPrefixExample | src/@tandem/synthetic-browser/sandbox/css-editor.ts:107-115 | a rule inside `.a` inside the root has prefix `.a` |
| CssEditor.RewriteHoverExample | src/@tandem/synthetic-browser/sandbox/css-editor.ts:24-30 | rewriting `&:hover` under `.a` to `.a:focus` gives `&:focus` |
| CssEditor.FindDecl | src/@tandem/synthetic-browser/sandbox/css-editor.ts:35-45 | a path found leads to a declaration named `name` |
| CssEditor.SpliceOut | src/@tandem/synthetic-browser/sandbox/css-editor.ts:41 | the entry at the splice start is removed and the entries before and after it keep their order (a negative index counts from the end); a start at the end leaves the list unchanged |
| CssEditor.FindDeclFlat | src/@tandem/synthetic-browser/sandbox/css-editor.ts:35-45 | in a rule without nested rules, the first declaration named `name` is found, or none when there is none |
| CssEditor.SetDeclarationOnFlatRule | src/@tandem/synthetic-browser/sandbox/css-editor.ts:32-50 | in a rule without nested rules: no match appends `{prop: name, value}` after all nodes; a truthy value renames the first match to `newName \|\| name` and sets its value; a falsy one removes that declaration |
| CssEditor.NestedRemovalExample | src/@tandem/synthetic-browser/sandbox/css-editor.ts:35-42 | removing `color` from a rule holding `.y{color:red}` and `margin:0` splices the outer list at the inner index, dropping the whole `.y` rule |
| CssEditor.RuleNode.GetRuleSelectorPrefix | src/@tandem/synthetic-browser/sandbox/css-editor.ts:107-115 | the loop computes the outermost-first prefix of enclosing rule selectors, each without a leading `&` |
| CssEditor.RuleNode.SetRuleSelector | src/@tandem/synthetic-browser/sandbox/css-editor.ts:24-30 | the selector becomes the rewrite of the old one against the prefix; the nodes are unchanged |
| CssEditor.RuleNode.SetDeclaration | src/@tandem/synthetic-browser/sandbox/css-editor.ts:32-50 | the nodes become the set-declaration result; the selector is unchanged |
| StyleRule.Filter | src/@tandem/synthetic-browser/dom/css/style-rule.ts:46-47 | every kept key is a valid key of the list, and every valid key of the list is kept |
| StyleRule.FilterAppend | src/@tandem/synthetic-browser/dom/css/style-rule.ts:46-47 | filtering a concatenation filters each part in turn, so the kept keys keep their order |
| StyleRule.DiffChanges | src/@tandem/synthetic-browser/dom/css/style-rule.ts:39-70 | the changes `addDiff` records: the selector change when the selectors differ, then one visitor pass over the diff of the filtered keys (`StyleRule.AddDiffSelectorChange`, `StyleRule.IdenticalRuleRecordsNothing`) |
| StyleRule.CssText | src/@tandem/synthetic-browser/dom/css/style-rule.ts:91-93 | `cssText`: selector, ` {`, newline, style text, `}`, newline (`StyleRule.CssTextLayout`) |
| StyleRule.StyleRuleEdit.constructor | src/@tandem/synthetic-browser/dom/css/style-rule.ts:26 | the edit targets the given rule and has recorded nothing |
| StyleRule.ScriptChangesAreKeyValue | src/@tandem/synthetic-browser/dom/css/style-rule.ts:49-67 | every declaration change is a key-value change tagged `setDeclaration`, at most one per script entry |
| StyleRule.AddDiffSelectorChange | src/@tandem/synthetic-browser/dom/css/style-rule.ts:39-45 | a selector change is recorded iff the selectors differ, first, with the new selector; every change is tagged `setDeclaration` |
| StyleRule.UpdatesOfEqualStylesRecordNothing | src/@tandem/synthetic-browser/dom/css/style-rule.ts:62-66 | an edit script of updates only, between equal styles, records nothing |
| StyleRule.IdenticalRuleRecordsNothing | src/@tandem/synthetic-browser/dom/css/style-rule.ts:39-70 | a rule diffed against itself records no change, given that the key diff of equal lists holds only updates |
| StyleRule.ScriptChangesSuppressed | src/@tandem/synthetic-browser/dom/css/style-rule.ts:55-66 | without insertions, a recorded removal names a key whose old value is truthy, and a recorded update carries the new value, which differs from the old |
| StyleRule.RemovalOfFalsyRecordsNothing | src/@tandem/synthetic-browser/dom/css/style-rule.ts:55-61 | removing a key whose value is falsy or missing records nothing |
| StyleRule.InsertionsRecordOneEach | src/@tandem/synthetic-browser/dom/css/style-rule.ts:52-54 | each insertion records `setDeclaration(key, newStyle[key], undefined, index)` |
| StyleRule.CssTextLayout | src/@tandem/synthetic-browser/dom/css/style-rule.ts:91-93 | `cssText` is the selector, ` {` and a newline, the style text, `}` and a newline |
| StyleRule.SyntheticStyleRule.constructor | src/@tandem/synthetic-browser/dom/css/style-rule.ts:76-81 | the rule holds the given selector and style |
| StyleRule.SyntheticStyleRule.CountShallowDiffs | src/@tandem/synthetic-browser/dom/css/style-rule.ts:114-116 | 0 iff the selectors are equal, otherwise -1 |
| StyleRule.SyntheticStyleRule.CloneShallow | src/@tandem/synthetic-browser/dom/css/style-rule.ts:106-108 | a new rule with the same selector and no style |
| StyleRule.SyntheticStyleRule.ApplyEditChange | src/@tandem/synthetic-browser/dom/css/style-rule.ts:95-104 | the source-edit tag is handed on; `setDeclaration` sets the property (and throws without a style); any other tag only logs |
| StyleRule.StyleRuleEdit.SetSelector | src/@tandem/synthetic-browser/dom/css/style-rule.ts:31-33 | appends one selector change, tagged `setDeclaration` |
| StyleRule.StyleRuleEdit.SetDeclaration | src/@tandem/synthetic-browser/dom/css/style-rule.ts:35-37 | appends one key-value change tagged `setDeclaration` |
| StyleRule.StyleRuleEdit.Visit | src/@tandem/synthetic-browser/dom/css/style-rule.ts:51-67 | one visitor callback appends that entry's changes |
| StyleRule.StyleRuleEdit.VisitAll | src/@tandem/synthetic-browser/dom/css/style-rule.ts:49-67 | running the visitor over the script appends the script's changes in order |
| StyleRule.StyleRuleEdit.AddDiff | src/@tandem/synthetic-browser/dom/css/style-rule.ts:39-70 | throws iff either rule has no style, after recording the selector change and nothing more; otherwise appends the selector change and the declaration changes of the diff |
| PcParser.Parse | packages/paperclip/src/parser/mod.rs:5-24 | `parse`: the top-level nodes, a lone node standing for itself (`PcParser.SingleNode`, `PcParser.EmptyAndBlankSources`, `PcParser.TwoTopLevelTexts`) |
| PcParser.ParseNode | packages/paperclip/src/parser/mod.rs:26-43 | `parse_node`: after blanks a text, a slot or an element, the cursor moving forward; anything else is an error (`PcParser.NodeStartsWithWordSlotOrTag`) |
| PcParser.ParseElement | packages/paperclip/src/parser/mod.rs:45-80 | `parse_element`: name, attributes, then `/>` or children and a closing tag, the cursor moving forward (`PcParser.SelfClosingTag`, `PcParser.ClosingNameUnchecked`) |
| PcParser.GetBuffer | packages/paperclip/src/parser/mod.rs:83-97 | `get_buffer`: the first token taken unseen, then the run up to a stop token, the cursor moving forward (`PcParser.ScanUntil`, `PcParser.EmptyQuotedString`) |
| PcParser.ParseString | packages/paperclip/src/parser/mod.rs:145-152 | `parse_string`: the text between a quote and the next same quote, the cursor moving past it (`PcParser.QuotedString`) |
| PcParser.SliceIsText | packages/paperclip/src/parser/mod.rs:96 | the source slice between two cursor positions is the text of the tokens between them |
| PcParser.ScanUntil | packages/paperclip/src/parser/mod.rs:88-94 | the scan stops at the first stop token or at the end, and everything before it continues the run |
| PcParser.ParseAttributes | packages/paperclip/src/parser/mod.rs:103-118 | on success the cursor stands on `/>` or `>` |
| PcParser.ParseChildren | packages/paperclip/src/parser/mod.rs:56-60 | on success the cursor stands on a close-tag token |
| PcParser.EatWhitespace | packages/paperclip/src/parser/mod.rs:27 | the cursor passes every blank and stops at the first other token |
| PcParser.GetBufferLoop | packages/paperclip/src/parser/mod.rs:83-97 | the loop computes the buffer and the cursor of the specification |
| PcParser.ParseAttributesLoop | packages/paperclip/src/parser/mod.rs:103-118 | the loop yields the attributes of the specification, in order |
| PcParser.ParseAttributeSteps | packages/paperclip/src/parser/mod.rs:121-143 | agrees with the specification of one attribute |
| PcParser.ParseStringSteps | packages/paperclip/src/parser/mod.rs:145-152 | agrees with the specification of a quoted string |
| PcParser.ParseNodeSteps | packages/paperclip/src/parser/mod.rs:26-43 | agrees with the specification of a node |
| PcParser.ParseElementSteps | packages/paperclip/src/parser/mod.rs:45-47 | agrees with the specification of an element |
| PcParser.ElementBodySteps | packages/paperclip/src/parser/mod.rs:50-61 | agrees with the specification after the attributes |
| PcParser.CloseElementSteps | packages/paperclip/src/parser/mod.rs:62-64 | agrees with the specification of a closing tag |
| PcParser.ParseChildrenLoop | packages/paperclip/src/parser/mod.rs:56-60 | the loop yields the children of the specification, in order |
| PcParser.ParseFragmentLoop | packages/paperclip/src/parser/mod.rs:9-24 | the loop yields the parse of the specification |
| PcParser.ScanUntilAt | packages/paperclip/src/parser/mod.rs:88-94 | the scan returns the first position that does not continue the run |
| PcParser.QuotedString | packages/paperclip/src/parser/mod.rs:138-152 | a quote, at least one token without that quote, and the same quote parse to the source text between the quotes, as an attribute value too |
| PcParser.TagNameRun | packages/paperclip/src/parser/mod.rs:99-101 | a tag name is the source of the tokens up to the first blank, `>` or `=` |
| PcParser.TagWord | packages/paperclip/src/parser/mod.rs:99-101 | a word followed by a blank, `>` or `=` is that tag name |
| PcParser.SelfClosingTag | packages/paperclip/src/parser/mod.rs:45-54 | `<`, a name, a blank and `/>` parse to an element without attributes or children |
| PcParser.SingleNode | packages/paperclip/src/parser/mod.rs:17-18 | a source that is one node is that node, not a fragment |
| PcParser.AttributesStep | packages/paperclip/src/parser/mod.rs:107-115 | after a blank, an attribute is parsed and the list goes on after it |
| PcParser.AttributesEnd | packages/paperclip/src/parser/mod.rs:107-110 | a blank and `/>` end the attribute list |
| PcParser.LoneSelfClosing | packages/paperclip/src/parser/mod.rs:45-54 | a source holding one self-closing element parses to that element with its attributes |
| PcParser.BareAttribute | packages/paperclip/src/parser/mod.rs:121-136 | a name followed by a blank or `>` is an attribute without a value |
| PcParser.QuotedAttribute | packages/paperclip/src/parser/mod.rs:121-143 | a name, `=` and a single-quoted word is an attribute with that string |
| PcParser.ClosingNameUnchecked | packages/paperclip/src/parser/mod.rs:62-64 | `<a></b>` parses to an element named `a` |
| PcParser.SelfClosingWithoutBlank | packages/paperclip/src/parser/mod.rs:99-101 | `<div/>` runs to the end of the input |
| PcParser.EmptyQuotedString | packages/paperclip/src/parser/mod.rs:83-97 | `''` takes its closing quote as its first character: alone it fails at the end of input, and before a word and a quote it is that quote and the word |
| PcParser.EmptyAndBlankSources | packages/paperclip/src/parser/mod.rs:9-28 | an empty source is an empty fragment; a blank-only one is an end-of-input error |
| PcParser.TwoTopLevelTexts | packages/paperclip/src/parser/mod.rs:9-24 | two words separated by a blank parse to a fragment of two texts, in order |
| PcParser.NodeStartsWithWordSlotOrTag | packages/paperclip/src/parser/mod.rs:26-35 | after blanks, a token other than a word, a slot opener or `<` is the unknown-element error |
| PcParser.ParsesText | packages/paperclip/src/parser/mod.rs:158-166 | a lone word is a text node with that word |
| PcParser.ParsesSelfClosingElement | packages/paperclip/src/parser/mod.rs:168-180 | `<div />` is a div without attributes or children |
| PcParser.ParsesAttributeName | packages/paperclip/src/parser/mod.rs:182-201 | `<div a />` has one bare attribute `a` |
| PcParser.ParsesAttributeValue | packages/paperclip/src/parser/mod.rs:202-223 | `<div a='b' />` has attribute `a` with value `b` |
| PcParser.ParsesMultipleValues | packages/paperclip/src/parser/mod.rs:225-258 | `<div a='b' c d />` has attributes a=`b`, c and d, in order |
| PcParser.ParsesChildren | packages/paperclip/src/parser/mod.rs:261-281 | `<div> <span /></div>` has exactly one child, a span |
| PcAst.NodeString | packages/paperclip/src/parser/ast.rs:65-75 | the `Display` of a node: texts raw, slots in braces, elements as tag pairs (`PcAst.EmptyElementPrintsPair`, `PcAst.TextsPrint`) |
| PcAst.ExecuteAttributeValue | packages/paperclip/src/parser/ast.rs:152-160 | a value executes to its string and never fails |
| PcAst.ExecuteAttributes | packages/paperclip/src/parser/ast.rs:23-37 | never fails; one entry per attribute, in order, with the same name; valueless becomes none, a string its string |
| PcAst.ExecuteNode | packages/paperclip/src/parser/ast.rs:77-86 | never fails; something is rendered iff the node is a text, a slot or an element |
| PcAst.ExecuteChildren | packages/paperclip/src/parser/ast.rs:40-46 | never fails and gives at most one node per child |
| PcAst.ChildrenAreRenderablesExecuted | packages/paperclip/src/parser/ast.rs:40-46 | the executed children are the renderable children, executed, in order; the others are dropped |
| PcAst.ExecuteElement | packages/paperclip/src/parser/ast.rs:17-54 | an element executes to a virtual element with the same tag, its executed attributes and children |
| PcAst.TextAndSlotExecute | packages/paperclip/src/parser/ast.rs:77-86 | text and slot execute to virtual text with the same value; text prints raw, a slot as `{{value}}` |
| PcAst.FragmentChildrenDropped | packages/paperclip/src/parser/ast.rs:40-46 | an element whose children are all fragments or styles executes with no children |
| PcAst.EmptyElementPrintsPair | packages/paperclip/src/parser/ast.rs:106-127 | an element without attributes or children prints as `<tag></tag>`, never self-closing |
| PcAst.TextsPrint | packages/paperclip/src/parser/ast.rs:190-199 | a fragment of texts prints their values with no separator; as element children each is followed by one space |
| PcAst.AttributeRoundTrip | packages/paperclip/src/parser/ast.rs:136-145 | a printed attribute whose name holds no `=` decodes back to the same name and value |
| PcEvaluator.Evaluate | packages/paperclip/native/src/pc/runtime/evaluator.rs:25-59 | `evaluate`: the selected target evaluated as root, with the style prepended to a rendered result (`PcEvaluator.TargetIsFirstPart`, `PcEvaluator.StylePrepended`) |
| PcEvaluator.SelectTarget | packages/paperclip/native/src/pc/runtime/evaluator.rs:28-40 | the first top-level part with the id, else the root (`PcEvaluator.TargetIsFirstPart`) |
| PcEvaluator.EvaluateNode | packages/paperclip/native/src/pc/runtime/evaluator.rs:106-130 | `evaluate_node`: dispatch on the node kind, comments and styles giving nothing (`PcEvaluator.SkippedNodes`) |
| PcEvaluator.EvaluateElement | packages/paperclip/native/src/pc/runtime/evaluator.rs:132-146 | `evaluate_element`: dispatch on the tag name (`PcEvaluator.SkippedNodes`, `PcEvaluator.SelfOutsidePart`) |
| PcEvaluator.EvaluateBasicElement | packages/paperclip/native/src/pc/runtime/evaluator.rs:232-284 | `evaluate_basic_element` (`PcEvaluator.PlainElementShape`) |
| PcEvaluator.EvaluateComponent | packages/paperclip/native/src/pc/runtime/evaluator.rs:178-230 | `evaluate_component` (`PcEvaluator.ComponentData`, `PcEvaluator.ComponentAttributeError`) |
| PcEvaluator.EvaluateSlot | packages/paperclip/native/src/pc/runtime/evaluator.rs:148-170 | a slot that evaluates is always something (`PcEvaluator.SlotShape` gives its shape) |
| PcEvaluator.EvaluatePassFail | packages/paperclip/native/src/pc/runtime/evaluator.rs:365-380 | `evaluate_pass_fail_block` (`PcEvaluator.PassFail`) |
| PcEvaluator.CreateContext | packages/paperclip/native/src/pc/runtime/evaluator.rs:91-100 | a fresh context is outside every part and carries the scope and data |
| PcEvaluator.EvaluateAttributeValue | packages/paperclip/native/src/pc/runtime/evaluator.rs:382-391 | a string is its value; success always gives a value |
| PcEvaluator.AttributeEntry | packages/paperclip/native/src/pc/runtime/evaluator.rs:242-269 | a key-value attribute keeps its name; valueless gives none, a string its string |
| PcEvaluator.EvaluateAttributes | packages/paperclip/native/src/pc/runtime/evaluator.rs:239-270 | succeeds iff every attribute does; then one entry per attribute, in order |
| PcEvaluator.FindPart | packages/paperclip/native/src/pc/runtime/evaluator.rs:28-37 | the first part with that id, none iff there is none |
| PcEvaluator.ChildrenKeepOrder | packages/paperclip/native/src/pc/runtime/evaluator.rs:314-326 | the kept children in order; the first child that fails fails them all |
| PcEvaluator.SingleChildFlattened | packages/paperclip/native/src/pc/runtime/evaluator.rs:332-340 | exactly one surviving child is returned bare, otherwise a fragment |
| PcEvaluator.SkippedNodes | packages/paperclip/native/src/pc/runtime/evaluator.rs:106-146 | comments, styles, imports, scripts and non-root parts evaluate to nothing |
| PcEvaluator.SelfOutsidePart | packages/paperclip/native/src/pc/runtime/evaluator.rs:290-295 | `<self>` outside a part is an error at its open tag |
| PcEvaluator.PlainElementShape | packages/paperclip/native/src/pc/runtime/evaluator.rs:232-284 | tag and attributes kept in order, the scope attribute appended last, the children kept in order |
| PcEvaluator.PassFail | packages/paperclip/native/src/pc/runtime/evaluator.rs:365-380 | a truthy condition with a node evaluates it; otherwise the fail branch if any, else nothing; a failing condition is the error |
| PcEvaluator.PropsOfPlainAttributes | packages/paperclip/native/src/pc/runtime/evaluator.rs:186-216 | one prop per attribute name: `true` when bare, the string otherwise, the last of a name winning |
| PcEvaluator.PropsOfAttributes | packages/paperclip/native/src/pc/runtime/evaluator.rs:186-216 | for any attributes that all evaluate, including slots and shorthands: one prop per entry name, each the value of the last attribute of that name |
| PcEvaluator.PropsFirstError | packages/paperclip/native/src/pc/runtime/evaluator.rs:186-216 | the first attribute that fails to evaluate is the error of the props |
| PcEvaluator.ComponentData | packages/paperclip/native/src/pc/runtime/evaluator.rs:178-230 | with every attribute evaluating, the component gets its props plus `children`, the evaluated children in order, outside every part |
| PcEvaluator.ComponentAttributeError | packages/paperclip/native/src/pc/runtime/evaluator.rs:186-216 | a component whose attribute fails to evaluate is that attribute's error |
| PcEvaluator.SlotShape | packages/paperclip/native/src/pc/runtime/evaluator.rs:148-170 | a slot is its script's error, a text showing a non-array value, or a fragment of one child per array item in order, a node item as itself |
| PcEvaluator.TargetIsFirstPart | packages/paperclip/native/src/pc/runtime/evaluator.rs:28-40 | the target is the first top-level part with the id, else the root |
| PcEvaluator.StylePrepended | packages/paperclip/native/src/pc/runtime/evaluator.rs:42-58 | a rendered root gets the combined style as its first child; nothing or an error passes through |
| PcEvaluator.StyleAndDiv | packages/paperclip/native/src/pc/runtime/evaluator.rs:403-409 | a style and a div evaluate to the div, with its scope attribute and the style as its only child |
| PcEvaluator.EvaluateChildrenLoop | packages/paperclip/native/src/pc/runtime/evaluator.rs:314-326 | the loop agrees with the specification of the children |
| PcEvaluator.EvaluateBasicElementSteps | packages/paperclip/native/src/pc/runtime/evaluator.rs:232-284 | the loops agree with the specification of a plain element |
| PcEvaluator.EvaluateComponentSteps | packages/paperclip/native/src/pc/runtime/evaluator.rs:178-230 | the loops agree with the specification of a component |
| PcEvaluator.EvaluateSlotSteps | packages/paperclip/native/src/pc/runtime/evaluator.rs:148-170 | the loop agrees with the specification of a slot |
| ProxyModel.Execute | src/common/busses/proxy.js:15-28 | the `execute` transition: queue while paused, else forward (`ProxyModel.ExecuteKeeps`) |
| ProxyModel.Pause | src/common/busses/proxy.js:34-36 | the `pause` transition (`ProxyModel.PauseKeeps`) |
| ProxyModel.Resume | src/common/busses/proxy.js:38-41 | the `resume` transition: unpause, then drain (`ProxyModel.ResumeKeeps`) |
| ProxyModel.SetTarget | src/common/busses/proxy.js:47-52 | the `target` setter transition: replace, then drain (`ProxyModel.SetTargetKeeps`) |
| ProxyModel.Drain | src/common/busses/proxy.js:54-60 | the `_drain` transition (`ProxyModel.DrainInOrder`, `ProxyModel.DrainWhilePaused`) |
| ProxyModel.InitOpen | src/common/busses/proxy.js:9-13 | a new proxy keeps the invariant and is paused iff it has no target |
| ProxyModel.DrainInOrder | src/common/busses/proxy.js:54-60 | draining an open proxy delivers every queued action once, in order, and empties the queue |
| ProxyModel.DrainWhilePaused | src/common/busses/proxy.js:55 | draining a paused proxy changes nothing |
| ProxyModel.DrainKeeps | src/common/busses/proxy.js:54-60 | draining restores the invariant |
| ProxyModel.ExecuteKeeps | src/common/busses/proxy.js:15-28 | execute keeps the invariant; paused, it only queues; open, it forwards and leaves the queue alone |
| ProxyModel.PauseKeeps | src/common/busses/proxy.js:34-36 | pause keeps the invariant and leaves the proxy paused |
| ProxyModel.ResumeKeeps | src/common/busses/proxy.js:38-41 | resume keeps the invariant; with a target the proxy is open and nothing waits |
| ProxyModel.SetTargetKeeps | src/common/busses/proxy.js:47-52 | assigning a target keeps the invariant; on an unpaused proxy it flushes the queue |
| ProxyModel.OpenMeansDelivered | src/common/busses/proxy.js:3-6 | while open, every executed action has reached a target, in order |
| ProxyModel.PauseResume | src/common/busses/proxy.js:34-41 | pause then resume on an open proxy changes nothing |
| ProxyModel.PausedActionArrivesOnResume | src/common/busses/proxy.js:15-41 | an action executed during a pause reaches the target on resume |
| ProxyBuses.ProxyBus.constructor | src/common/busses/proxy.js:9-13 | the object starts in the initial state |
| ProxyBuses.ProxyBus.Paused | src/common/busses/proxy.js:30-32 | the getter is the paused predicate |
| ProxyBuses.ProxyBus.Execute | src/common/busses/proxy.js:15-28 | the object takes the execute transition |
| ProxyBuses.ProxyBus.Pause | src/common/busses/proxy.js:34-36 | the object takes the pause transition |
| ProxyBuses.ProxyBus.Resume | src/common/busses/proxy.js:38-41 | the object takes the resume transition |
| ProxyBuses.ProxyBus.SetTarget | src/common/busses/proxy.js:47-52 | the object takes the target-assignment transition |
| ProxyBuses.ProxyBus.Drain | src/common/busses/proxy.js:54-60 | the shifting loop takes the drain transition |
| TsEditor.FindTargetAstNode | src/@tandem/typescript-extension/sandbox/ts-editor.ts:140-167 | `findTargetASTNode` as a fold over the tree (`TsEditor.FindTargetIsAnAnchor`) |
| TsEditor.ModifyEdits | src/@tandem/typescript-extension/sandbox/ts-editor.ts:90-127 | the replacements `modify` pushes and whether it completes (`TsEditor.SetAttributeEdits`, `TsEditor.ScanNullish`, `TsEditor.ScanValue`) |
| TsEditor.FindTargetIsAnAnchor | src/@tandem/typescript-extension/sandbox/ts-editor.ts:140-167 | nothing iff no node is an anchor; the result is an anchor (lifted); a unique anchor is the result |
| TsEditor.Editor.constructor | src/@tandem/typescript-extension/sandbox/ts-editor.ts:27 | the editor starts with no replacements |
| TsEditor.Editor.MoveChild | src/@tandem/typescript-extension/sandbox/ts-editor.ts:29-42 | a missing child fails and records nothing; an index outside the children fails after the deletion; otherwise the child's span is deleted and its text inserted at the start of `children[newIndex]` |
| TsEditor.Editor.RemoveChild | src/@tandem/typescript-extension/sandbox/ts-editor.ts:44-51 | succeeds iff found; one deletion of the child's span |
| TsEditor.Editor.InsertChild | src/@tandem/typescript-extension/sandbox/ts-editor.ts:53-80 | self-closing: `/>` is rewritten; no children: insert after the opening tag; otherwise insert after `children[index]` (the last for Infinity), failing for an index outside the children; other targets fail |
| TsEditor.Editor.SetAttribute | src/@tandem/typescript-extension/sandbox/ts-editor.ts:82-134 | a self-closing element, or an element's opening tag, gets the attribute edits; other targets are left alone |
| TsEditor.Editor.Modify | src/@tandem/typescript-extension/sandbox/ts-editor.ts:90-127 | appends the attribute edits of the specification |
| TsEditor.Editor.ScanLoop | src/@tandem/typescript-extension/sandbox/ts-editor.ts:94-118 | the loop gives the scan of the specification |
| TsEditor.Editor.GetFormattedContent | src/@tandem/typescript-extension/sandbox/ts-editor.ts:169-181 | the list is sorted by descending start and spliced in; no replacements leave the text; spans that do not overlap change the length by their delta; with distinct starts as well they give the reference stitch |
| TsEditor.SingleReplacementText | src/@tandem/typescript-extension/sandbox/ts-editor.ts:176-178 | one replacement gives text before + value + text after |
| TsEditor.RemoveChildText | src/@tandem/typescript-extension/sandbox/ts-editor.ts:44-51 | removing a child cuts exactly its span out of the text |
| TsEditor.SpliceTwo | src/@tandem/typescript-extension/sandbox/ts-editor.ts:176-178 | two replacements are spliced one after the other, in list order |
| TsEditor.SortTwo | src/@tandem/typescript-extension/sandbox/ts-editor.ts:172-174 | two replacements are sorted by descending start |
| TsEditor.MoveChildBackwardText | src/@tandem/typescript-extension/sandbox/ts-editor.ts:29-42 | moving a child before an earlier sibling puts its text in front of that sibling and cuts it from its old place |
| TsEditor.MoveChildForwardText | src/@tandem/typescript-extension/sandbox/ts-editor.ts:29-42 | moving a child before a later sibling cuts it from its place and puts its text in front of that sibling |
| TsEditor.MoveChildInPlaceText | src/@tandem/typescript-extension/sandbox/ts-editor.ts:29-42 | moving a child to its own index leaves the text unchanged |
| TsEditor.SelfClosingInsertText | src/@tandem/typescript-extension/sandbox/ts-editor.ts:55-61 | `/>` becomes `>`, the child, `</tag>` |
| TsEditor.SelfClosingExample | src/@tandem/typescript-extension/sandbox/ts-editor.ts:55-61 | inserting a child into `<tag/>` gives `<tag>child</tag>` |
| TsEditor.InsertionText | src/@tandem/typescript-extension/sandbox/ts-editor.ts:63-79 | a zero-width insertion puts the text at the position and keeps the rest |
| TsEditor.Matching | src/@tandem/typescript-extension/sandbox/ts-editor.ts:98 | every attribute kept is one of the element's attributes whose name is the name or its alias |
| TsEditor.ScanNullish | src/@tandem/typescript-extension/sandbox/ts-editor.ts:94-118 | a null or undefined value deletes exactly the matching attributes' spans, in order |
| TsEditor.ScanValue | src/@tandem/typescript-extension/sandbox/ts-editor.ts:94-118 | a value replaces each matching attribute's initializer by the value in double quotes, in order |
| TsEditor.SetAttributeEdits | src/@tandem/typescript-extension/sandbox/ts-editor.ts:90-127 | no match inserts ` name="value"` after the tag name; otherwise the matches' deletions or value edits |
| TsEditor.RemoveClassExample | src/@tandem/typescript-extension/sandbox/ts-editor.ts:98-109 | removing `class` from `<a className="x"/>` through its alias gives `<a />`, keeping the blank |
| TsReplacements.SortDesc | src/@tandem/typescript-extension/sandbox/ts-editor.ts:172-174 | the sort with comparator `a.start > b.start ? -1 : 1`, as an insertion sort (`TsReplacements.SortDescIsSortedPermutation`, `TsEditor.SortTwo`) |
| TsReplacements.SpliceAll | src/@tandem/typescript-extension/sandbox/ts-editor.ts:176-178 | the splice loop, first replacement first (`TsReplacements.SpliceAllIsStitch`, `TsReplacements.SpliceAllLength`) |
| TsReplacements.Stitch | src/@tandem/typescript-extension/sandbox/ts-editor.ts:169-181 | the reference result: text between spans copied, each value in place of its span (`TsReplacements.StitchLength`) |
| TsReplacements.Head | src/@tandem/typescript-extension/sandbox/ts-editor.ts:177 | within the text, the text before the start |
| TsReplacements.Tail | src/@tandem/typescript-extension/sandbox/ts-editor.ts:177 | within the text, the text from the end on |
| TsReplacements.SortDescIsSortedPermutation | src/@tandem/typescript-extension/sandbox/ts-editor.ts:172-174 | the sort gives a non-increasing permutation of the replacements |
| TsReplacements.SortDescStrict | src/@tandem/typescript-extension/sandbox/ts-editor.ts:172-174 | with distinct starts the sorted list is strictly descending |
| TsReplacements.SortedSeparatedIsChained | src/@tandem/typescript-extension/sandbox/ts-editor.ts:172-178 | separated spans, once sorted, each end at or before the start of the one before |
| TsReplacements.SpliceAllIsStitch | src/@tandem/typescript-extension/sandbox/ts-editor.ts:176-178 | splicing chained replacements equals the reference stitch: the text between spans unchanged, each value in place of its span |
| TsReplacements.FormattedText | src/@tandem/typescript-extension/sandbox/ts-editor.ts:169-181 | separated replacements, sorted and spliced, give the reference stitch, and the length grows by the sum of value length minus span length |
| TsReplacements.InsertDescDisjoint | src/@tandem/typescript-extension/sandbox/ts-editor.ts:172-174 | inserting a span that overlaps none of a non-overlapping list keeps it non-overlapping |
| TsReplacements.SortDescDisjoint | src/@tandem/typescript-extension/sandbox/ts-editor.ts:172-174 | sorting keeps non-overlapping spans non-overlapping |
| TsReplacements.SpliceAllLength | src/@tandem/typescript-extension/sandbox/ts-editor.ts:176-178 | non-overlapping spans in descending order each land inside the text they are applied to, so the length grows by their delta |
| TsReplacements.FormattedLength | src/@tandem/typescript-extension/sandbox/ts-editor.ts:169-181 | for any non-overlapping spans, equal starts included, the sorted and spliced text's length grows by their delta |

## Left out

- The TypeScript compiler AST is the datatype `TsNode` (kind, span, children, tag name, attributes). `parseContent` is not modelled, and the nodes have no identity, so aliasing is not modelled.
- The postcss AST is the datatype `CssNode` plus a `RuleNode` class for the edited rule. A node without a source position, `parseContent` and the postcss printer (`root.toString()`) are not modelled.
- `getSelectorTester` and the `matchesElement`/visitor machinery of the style rule are not modelled.
- `diffArray`, `isValidCSSDeclarationProperty` and `style.setProperty` are parameters.
- StyleRule.StyleRuleEdit.AddDiff: the base class's part of `addDiff` (`super.addDiff`) is not shown, so only this class's own part is modelled.
- StyleRule.SyntheticStyleRule.ApplyEditChange: the source-edit branch calls the change's own `applyTo`, which is not shown; the model records that the change was handed on and leaves the rule alone.
- The style's `$parentRule` link, the serializer and `cssText`'s style printer are not modelled: the style text is an input.
- The Paperclip tokenizer is not modelled. The parser works over a token array with a cursor, and the source tests are restated as token streams.
- The parser's `Expression { item: Grammar }` wrapper is dropped; its AST is `PcParser.Expr`.
- The printer of the CSS sheet inside a style element is not modelled; the sheet is a string.
- `evaluate_js`, `evaluate_css`, `crc32`, the dependency graph and the isolated evaluation of an imported component are parameters (`Env`).
- `evaluate_jumbo_style` is an input `style`.
- The evaluator's `get_children`, `get_attribute_value`, `get_import_ids` and `prepend_child` are not shown; the model defines them as their names say.
- The `unwrap` panics on a missing dependency are not modelled.
- `arraySplice` is modelled with JavaScript `Array.prototype.splice` semantics for one replaced entry.
- The React component around the background helpers, and its dispatch, are not modelled.
- The global regex match of `splitBackgrounds` is a recursion over suffixes, not a regex engine.
- `ProxyBus` responses are a delivery log plus writable ids: the asynchronous `Response.create`/`pipeTo` plumbing and the mesh `Bus` base class are not modelled.
- TsReplacements.SortDesc: the order of two replacements with equal starts is the one an insertion sort gives for the comparator `a.start > b.start ? -1 : 1`: the later of the two comes first (`TsEditor.SortTwo`). Older V8 sorted short arrays that way; current engines keep list order; ECMAScript leaves it to the engine. The sortedness, the permutation and the length result (`TsReplacements.FormattedLength`) do not depend on that order.
- CssEditor.FindDecl: on nested rules it only states that the path found leads to a declaration with the name; the first-match statement is proved for flat rules (`CssEditor.FindDeclFlat`).
