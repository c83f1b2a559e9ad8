/**
 * The synthetic CSS style rule and its edit (src/@tandem/synthetic-browser/dom/css/style-rule.ts):
 * `SyntheticCSSStyleRuleEdit` records edit changes in its change list (`setSelector`,
 * `setDeclaration`, and `addDiff`, which turns a diff of declaration names into changes), and
 * `SyntheticCSSStyleRule` applies such a change to its style.
 *
 * The style declaration object is the value `Style`: the own keys in `Object.keys` order and the
 * string values behind them. The helpers the file imports and does not define are parameters:
 * `diffArray` (`diff`), `isValidCSSDeclarationProperty` (`isValid`), `style.setProperty`
 * (`setProperty`) and the source-edit tag `SyntheticCSSObjectEdit.SET_SYNTHETIC_SOURCE_EDIT`.
 */
module StyleRule {
  import opened Wrappers

  const SET_DECLARATION := "setDeclaration"
  const SET_RULE_SELECTOR := "setRuleSelector"

  datatype Style = Style(keys: seq<string>, values: map<string, string>)

  /**
   * A JavaScript property name: `undefined` used as a key reads the property named "undefined".
   */
  function PropKey(name: Option<string>): string {
    if name.Some? then name.value else "undefined"
  }

  /** `style[name]`: undefined when the style has no such property. */
  function Lookup(style: Style, name: Option<string>): Option<string> {
    var k := PropKey(name);
    if k in style.values then Some(style.values[k]) else None
  }

  /** JavaScript truthiness of an optional string. */
  predicate Truthy(v: Option<string>) {
    v.Some? && v.value != ""
  }

  /**
   * The two edit-change records the edit creates: `SetValueEditActon(type, target, newValue)` and
   * `SetKeyValueEditChange(type, target, name, newValue, oldName, index)`; the target is always
   * the edit's own rule and is left implicit.
   */
  datatype EditChange =
    | SetValueChange(kind: string, value: string)
    | SetKeyValueChange(kind: string, name: Option<string>, newValue: Option<string>,
                        oldName: Option<string>, index: Option<int>)

  /** One record of `diffArray`'s edit script over the two key lists. */
  datatype DiffOp =
    | Insert(value: string, index: int)
    | Remove(index: int)
    | Update(originalOldIndex: int, newValue: string, newIndex: int)

  /** `keys.filter(isValid)`. */
  function Filter(keys: seq<string>, isValid: string -> bool): (r: seq<string>)
    ensures forall i :: 0 <= i < |r| ==> r[i] in keys && isValid(r[i])
    ensures forall k :: k in keys && isValid(k) ==> k in r
  {
    if keys == [] then []
    else (if isValid(keys[0]) then [keys[0]] else []) + Filter(keys[1..], isValid)
  }

  /** Filtering a concatenation filters each part: the kept keys keep their order. */
  lemma {:induction false} FilterAppend(a: seq<string>, b: seq<string>, isValid: string -> bool)
    ensures Filter(a + b, isValid) == Filter(a, isValid) + Filter(b, isValid)
    decreases |a|
  {
    if a == [] {
      assert a + b == b;
    } else {
      assert (a + b)[0] == a[0];
      assert (a + b)[1..] == a[1..] + b;
      FilterAppend(a[1..], b, isValid);
    }
  }

  /** `oldKeys[index]`: undefined outside the array. */
  function KeyAt(keys: seq<string>, index: int): Option<string> {
    if 0 <= index < |keys| then Some(keys[index]) else None
  }

  /** The changes one visitor callback of `addDiff` records. */
  function OpChanges(oldStyle: Style, newStyle: Style, oldKeys: seq<string>, op: DiffOp): seq<EditChange> {
    match op
    case Insert(value, index) =>
      [SetKeyValueChange(SET_DECLARATION, Some(value), Lookup(newStyle, Some(value)), None, Some(index))]
    case Remove(index) =>
      // don't remove a declaration whose value is already falsy
      if Truthy(Lookup(oldStyle, KeyAt(oldKeys, index))) then
        [SetKeyValueChange(SET_DECLARATION, KeyAt(oldKeys, index), None, None, None)]
      else []
    case Update(_, newValue, newIndex) =>
      if Lookup(oldStyle, Some(newValue)) != Lookup(newStyle, Some(newValue)) then
        [SetKeyValueChange(SET_DECLARATION, Some(newValue), Lookup(newStyle, Some(newValue)), None, Some(newIndex))]
      else []
  }

  /** The changes the whole edit script records, in script order. */
  function ScriptChanges(oldStyle: Style, newStyle: Style, oldKeys: seq<string>, script: seq<DiffOp>)
    : seq<EditChange>
    decreases |script|
  {
    if script == [] then []
    else ScriptChanges(oldStyle, newStyle, oldKeys, script[..|script| - 1])
         + OpChanges(oldStyle, newStyle, oldKeys, script[|script| - 1])
  }

  /** Everything `addDiff` records after the base class's part: the selector change, then the declarations. */
  function DiffChanges(oldSelector: string, oldStyle: Style, newSelector: string, newStyle: Style,
                       isValid: string -> bool, diff: (seq<string>, seq<string>) -> seq<DiffOp>)
    : seq<EditChange>
  {
    var oldKeys := Filter(oldStyle.keys, isValid);
    var newKeys := Filter(newStyle.keys, isValid);
    (if oldSelector != newSelector then [SetValueChange(SET_DECLARATION, newSelector)] else [])
    + ScriptChanges(oldStyle, newStyle, oldKeys, diff(oldKeys, newKeys))
  }

  lemma {:induction false} ScriptChangesAreKeyValue(oldStyle: Style, newStyle: Style, oldKeys: seq<string>,
                                                    script: seq<DiffOp>)
    ensures forall i :: 0 <= i < |ScriptChanges(oldStyle, newStyle, oldKeys, script)| ==>
              ScriptChanges(oldStyle, newStyle, oldKeys, script)[i].SetKeyValueChange?
              && ScriptChanges(oldStyle, newStyle, oldKeys, script)[i].kind == SET_DECLARATION
    ensures |ScriptChanges(oldStyle, newStyle, oldKeys, script)| <= |script|
    decreases |script|
  {
    if script != [] {
      ScriptChangesAreKeyValue(oldStyle, newStyle, oldKeys, script[..|script| - 1]);
    }
  }

  /**
   * `addDiff` records a selector change iff the selectors differ; it is then the first change and
   * carries the new selector. Every change it records, the selector change included, is tagged
   * `SET_DECLARATION`.
   */
  lemma AddDiffSelectorChange(oldSelector: string, oldStyle: Style, newSelector: string, newStyle: Style,
                              isValid: string -> bool, diff: (seq<string>, seq<string>) -> seq<DiffOp>)
    ensures var cs := DiffChanges(oldSelector, oldStyle, newSelector, newStyle, isValid, diff);
            && ((exists i :: 0 <= i < |cs| && cs[i].SetValueChange?) <==> oldSelector != newSelector)
            && (oldSelector != newSelector ==> cs[0] == SetValueChange(SET_DECLARATION, newSelector))
            && (forall i :: 0 <= i < |cs| ==> cs[i].kind == SET_DECLARATION)
  {
    var oldKeys := Filter(oldStyle.keys, isValid);
    var newKeys := Filter(newStyle.keys, isValid);
    ScriptChangesAreKeyValue(oldStyle, newStyle, oldKeys, diff(oldKeys, newKeys));
    var cs := DiffChanges(oldSelector, oldStyle, newSelector, newStyle, isValid, diff);
    if oldSelector != newSelector {
      assert cs[0].SetValueChange?;
    }
  }

  /** A script with no insertions or removals, over two identical styles, records nothing. */
  lemma {:induction false} UpdatesOfEqualStylesRecordNothing(style: Style, oldKeys: seq<string>, script: seq<DiffOp>)
    requires forall i :: 0 <= i < |script| ==> script[i].Update?
    ensures ScriptChanges(style, style, oldKeys, script) == []
    decreases |script|
  {
    if script != [] {
      UpdatesOfEqualStylesRecordNothing(style, oldKeys, script[..|script| - 1]);
    }
  }

  /**
   * A rule diffed against an identical rule gets no changes at all, as long as the key diff of
   * two equal key lists reports only kept keys.
   */
  lemma IdenticalRuleRecordsNothing(selector: string, style: Style, isValid: string -> bool,
                                    diff: (seq<string>, seq<string>) -> seq<DiffOp>)
    requires forall i :: 0 <= i < |diff(Filter(style.keys, isValid), Filter(style.keys, isValid))| ==>
               diff(Filter(style.keys, isValid), Filter(style.keys, isValid))[i].Update?
    ensures DiffChanges(selector, style, selector, style, isValid, diff) == []
  {
    var keys := Filter(style.keys, isValid);
    UpdatesOfEqualStylesRecordNothing(style, keys, diff(keys, keys));
  }

  /**
   * The suppression rules: a change without an index is a removal, and it names a key whose old
   * value is truthy; a change with an index sets the new rule's value, and for a kept key that
   * value differs from the old one.
   */
  lemma {:induction false} ScriptChangesSuppressed(oldStyle: Style, newStyle: Style, oldKeys: seq<string>,
                                                   script: seq<DiffOp>)
    requires forall i :: 0 <= i < |script| ==> !script[i].Insert?
    ensures forall i :: 0 <= i < |ScriptChanges(oldStyle, newStyle, oldKeys, script)| ==>
              var c := ScriptChanges(oldStyle, newStyle, oldKeys, script)[i];
              c.SetKeyValueChange?
              && (c.index.None? ==> c.newValue.None? && Truthy(Lookup(oldStyle, c.name)))
              && (c.index.Some? ==> c.newValue == Lookup(newStyle, c.name) && Lookup(oldStyle, c.name) != c.newValue)
    decreases |script|
  {
    if script != [] {
      ScriptChangesSuppressed(oldStyle, newStyle, oldKeys, script[..|script| - 1]);
    }
  }

  /** A removal of a key whose old value is falsy (or missing) records nothing. */
  lemma RemovalOfFalsyRecordsNothing(oldStyle: Style, newStyle: Style, oldKeys: seq<string>, index: int)
    requires 0 <= index < |oldKeys| && !Truthy(Lookup(oldStyle, Some(oldKeys[index])))
    ensures ScriptChanges(oldStyle, newStyle, oldKeys, [Remove(index)]) == []
  {
    assert [Remove(index)][..0] == [];
  }

  /** Each inserted key records exactly one change, carrying the new rule's value and the index. */
  lemma {:induction false} InsertionsRecordOneEach(oldStyle: Style, newStyle: Style, oldKeys: seq<string>,
                                                   script: seq<DiffOp>)
    requires forall i :: 0 <= i < |script| ==> script[i].Insert?
    ensures |ScriptChanges(oldStyle, newStyle, oldKeys, script)| == |script|
    ensures forall i :: 0 <= i < |script| ==>
              ScriptChanges(oldStyle, newStyle, oldKeys, script)[i]
              == SetKeyValueChange(SET_DECLARATION, Some(script[i].value),
                                   Lookup(newStyle, Some(script[i].value)), None, Some(script[i].index))
    decreases |script|
  {
    if script != [] {
      InsertionsRecordOneEach(oldStyle, newStyle, oldKeys, script[..|script| - 1]);
    }
  }

  // ---------------------------------------------------------------------------------------
  // SyntheticCSSStyleRule
  // ---------------------------------------------------------------------------------------

  /** The `cssText` getter: the selector, ` {`, a newline, the declarations' text, `}`, a newline. */
  function CssText(selector: string, styleText: string): string {
    selector + " {\n" + styleText + "}\n"
  }

  /** The selector and the declarations' text can be read back from `cssText`. */
  lemma CssTextLayout(selector: string, styleText: string)
    ensures var t := CssText(selector, styleText);
            && |t| == |selector| + |styleText| + 5
            && t[..|selector|] == selector
            && t[|selector|..|selector| + 3] == " {\n"
            && t[|selector| + 3..|t| - 2] == styleText
            && t[|t| - 2..] == "}\n"
  {
  }

  /** How `applyEditChange` ended. */
  datatype Applied = DelegatedToChange | SetProperty | Threw | LoggedError

  class SyntheticStyleRule {
    var selector: string
    /** Undefined for a shallow clone. */
    var style: Option<Style>

    constructor(selector: string, style: Option<Style>)
      ensures this.selector == selector && this.style == style
    {
      this.selector := selector;
      this.style := style;
    }

    /** `countShallowDiffs`: 0 for the same selector, -1 otherwise. */
    function CountShallowDiffs(other: SyntheticStyleRule): (r: int)
      reads this, other
      ensures r == 0 <==> selector == other.selector
      ensures r != 0 ==> r == -1
    {
      if selector == other.selector then 0 else -1
    }

    /** `cloneShallow`: a new rule with the same selector and no style. */
    method CloneShallow() returns (c: SyntheticStyleRule)
      ensures fresh(c) && c.selector == selector && c.style == None
    {
      c := new SyntheticStyleRule(selector, None);
    }

    /**
     * `applyEditChange`: the source-edit tag hands the change to its own `applyTo` (not part of
     * this model, so the rule is left alone here); `SET_DECLARATION` calls
     * `style.setProperty(name, newValue, undefined, oldName)`, reading `name` and `oldName` off
     * whatever record it got (a selector change has neither); any other tag only logs.
     */
    method ApplyEditChange(change: EditChange, sourceEditTag: string,
                           setProperty: (Style, Option<string>, Option<string>, Option<string>) -> Style)
      returns (outcome: Applied)
      modifies this
      ensures selector == old(selector)
      ensures change.kind == sourceEditTag ==> outcome == DelegatedToChange && style == old(style)
      ensures change.kind != sourceEditTag && change.kind == SET_DECLARATION && old(style).None? ==>
                outcome == Threw && style == old(style)
      ensures change.kind != sourceEditTag && change.kind == SET_DECLARATION && old(style).Some? ==>
                outcome == SetProperty
                && style == Some(setProperty(old(style).value, NameOf(change), NewValueOf(change), OldNameOf(change)))
      ensures change.kind != sourceEditTag && change.kind != SET_DECLARATION ==>
                outcome == LoggedError && style == old(style)
    {
      if change.kind == sourceEditTag {
        outcome := DelegatedToChange;
      } else if change.kind == SET_DECLARATION {
        if style.None? {
          outcome := Threw;
        } else {
          style := Some(setProperty(style.value, NameOf(change), NewValueOf(change), OldNameOf(change)));
          outcome := SetProperty;
        }
      } else {
        outcome := LoggedError;
      }
    }
  }

  /** The fields `applyEditChange` destructures; a `SetValueEditActon` has no `name` or `oldName`. */
  function NameOf(c: EditChange): Option<string> {
    if c.SetKeyValueChange? then c.name else None
  }

  function NewValueOf(c: EditChange): Option<string> {
    if c.SetKeyValueChange? then c.newValue else Some(c.value)
  }

  function OldNameOf(c: EditChange): Option<string> {
    if c.SetKeyValueChange? then c.oldName else None
  }

  // ---------------------------------------------------------------------------------------
  // SyntheticCSSStyleRuleEdit
  // ---------------------------------------------------------------------------------------

  class StyleRuleEdit {
    const target: SyntheticStyleRule
    var changes: seq<EditChange>

    constructor(target: SyntheticStyleRule)
      ensures this.target == target && changes == []
    {
      this.target := target;
      changes := [];
    }

    /** `setSelector`: recorded with the `SET_DECLARATION` tag, as written. */
    method SetSelector(selector: string)
      modifies this
      ensures changes == old(changes) + [SetValueChange(SET_DECLARATION, selector)]
    {
      changes := changes + [SetValueChange(SET_DECLARATION, selector)];
    }

    method SetDeclaration(name: Option<string>, value: Option<string>, oldName: Option<string>, index: Option<int>)
      modifies this
      ensures changes == old(changes) + [SetKeyValueChange(SET_DECLARATION, name, value, oldName, index)]
    {
      changes := changes + [SetKeyValueChange(SET_DECLARATION, name, value, oldName, index)];
    }

    /** One callback of the visitor `addDiff` hands to the edit script. */
    method Visit(oldStyle: Style, newStyle: Style, oldKeys: seq<string>, op: DiffOp)
      modifies this
      ensures changes == old(changes) + OpChanges(oldStyle, newStyle, oldKeys, op)
    {
      match op {
        case Insert(value, index) =>
          SetDeclaration(Some(value), Lookup(newStyle, Some(value)), None, Some(index));
        case Remove(index) =>
          if Truthy(Lookup(oldStyle, KeyAt(oldKeys, index))) {
            SetDeclaration(KeyAt(oldKeys, index), None, None, None);
          }
        case Update(_, newValue, newIndex) =>
          if Lookup(oldStyle, Some(newValue)) != Lookup(newStyle, Some(newValue)) {
            SetDeclaration(Some(newValue), Lookup(newStyle, Some(newValue)), None, Some(newIndex));
          }
      }
    }

    /** The visitor run over a whole edit script, in order. */
    method VisitAll(oldStyle: Style, newStyle: Style, oldKeys: seq<string>, script: seq<DiffOp>)
      modifies this
      ensures changes == old(changes) + ScriptChanges(oldStyle, newStyle, oldKeys, script)
    {
      var i := 0;
      while i < |script|
        invariant 0 <= i <= |script|
        invariant changes == old(changes) + ScriptChanges(oldStyle, newStyle, oldKeys, script[..i])
      {
        assert script[..i + 1][..i] == script[..i];
        Visit(oldStyle, newStyle, oldKeys, script[i]);
        i := i + 1;
      }
      assert script[..|script|] == script;
    }

    /**
     * `addDiff(newRule)` after the base class's part. `Object.keys` of a missing style throws
     * (`threw`), after the selector change has been recorded; with both styles present the
     * declaration changes of the diff follow.
     */
    method AddDiff(newRule: SyntheticStyleRule, isValid: string -> bool,
                   diff: (seq<string>, seq<string>) -> seq<DiffOp>)
      returns (threw: bool)
      modifies this
      ensures threw <==> target.style.None? || newRule.style.None?
      ensures threw ==> changes == old(changes)
                                   + (if target.selector != newRule.selector
                                      then [SetValueChange(SET_DECLARATION, newRule.selector)] else [])
      ensures !threw ==> changes == old(changes) + DiffChanges(target.selector, target.style.value, newRule.selector,
                                                               newRule.style.value, isValid, diff)
    {
      if target.selector != newRule.selector {
        SetSelector(newRule.selector);
      }
      if target.style.None? || newRule.style.None? {
        return true;
      }
      threw := false;
      var oldStyle, newStyle := target.style.value, newRule.style.value;
      var oldKeys := Filter(oldStyle.keys, isValid);
      var newKeys := Filter(newStyle.keys, isValid);
      ghost var before := changes;
      VisitAll(oldStyle, newStyle, oldKeys, diff(oldKeys, newKeys));
      ghost var selectorPart := if target.selector != newRule.selector then [SetValueChange(SET_DECLARATION, newRule.selector)] else [];
      assert before == old(changes) + selectorPart;
      assert changes == old(changes) + (selectorPart + ScriptChanges(oldStyle, newStyle, oldKeys, diff(oldKeys, newKeys)));
    }
  }
}
