/** The `wc-playground` component: it reloads its descriptor values from the
    target element's attributes, takes whole revised lists from its props
    panel and applies them, and derives a multi-line usage snippet in which
    attribute names may be overridden or kebab-cased and object values are
    serialised as relaxed JSON.

    `kebab` stands for lodash's `kebabCase` and `stringify` for
    `JSON5.stringify(value, undefined, 4)`, both foreign: `stringify`
    returns None where the library throws. */
module Wc {
  import opened Wrappers
  import opened Text
  import opened Props
  import opened Dom

  /** The separator the snippet puts before every attribute and before the
      closing `>`. */
  const Glue: string := "\n  "

  /** `prop.attr ? prop.attr : kebabCase(prop.name)`: an absent or empty
      override is falsy. */
  function AttrName(p: Prop, kebab: string -> string): (a: string)
    ensures p.attr.Some? && p.attr.value != "" ==> a == p.attr.value
    ensures p.attr.None? || p.attr.value == "" ==> a == kebab(p.name)
  {
    if p.attr.Some? && p.attr.value != "" then p.attr.value else kebab(p.name)
  }

  predicate Structured(t: PropType)
  {
    t == Object || t == Array
  }

  // ---------------------------------------------------------------------
  // Usage snippet
  // ---------------------------------------------------------------------

  /** The `map` callback of `getUsage`: `false` (None) for a dropped entry. */
  function Output(p: Prop, kebab: string -> string, stringify: Value -> Option<string>): Option<string>
  {
    var attribute := AttrName(p, kebab);
    if p.value == VStr("null") || p.value == VNull then None
    else if p.propType == Boolean && !Truthy(p.value) then None
    else if p.propType == Object || p.propType == Array then
      match stringify(p.value)
      case Some(text) => Some(attribute + "=\"" + text + "\"")
      case None => None
    else Some(attribute + "=\"" + ToStr(p.value) + "\"")
  }

  function OutputsOf(ps: seq<Prop>, kebab: string -> string, stringify: Value -> Option<string>): seq<Option<string>>
  {
    seq(|ps|, i requires 0 <= i < |ps| => Output(ps[i], kebab, stringify))
  }

  /** `propOutputs`: the surviving `attribute="value"` texts, after
      `.filter(Boolean)`. */
  function Outputs(ps: seq<Prop>, kebab: string -> string, stringify: Value -> Option<string>): seq<string>
  {
    Compact(OutputsOf(ps, kebab, stringify))
  }

  /** `getUsage`; `hasTarget` says whether a target element was resolved. */
  function Usage(hasTarget: bool, tag: string, ps: seq<Prop>,
                 kebab: string -> string, stringify: Value -> Option<string>): (r: string)
    ensures !hasTarget ==> r == ""
  {
    if !hasTarget then ""
    else
      var outs := Outputs(ps, kebab, stringify);
      "<" + tag + (if |outs| > 0 then Glue else "") + Join(Glue, outs)
        + (if |outs| > 0 then Glue else "") + "></" + tag + ">"
  }

  /** An entry survives exactly when the exclusion rule spares it and, for
      an object or array, serialisation succeeds; what it contributes is its
      attribute name, `="`, its value text and `"`. */
  lemma OutputRule(p: Prop, kebab: string -> string, stringify: Value -> Option<string>)
    ensures Output(p, kebab, stringify).Some?
      <==> !Excluded(p) && (Structured(p.propType) ==> stringify(p.value).Some?)
    ensures Output(p, kebab, stringify).Some? ==>
      Output(p, kebab, stringify).value
        == AttrName(p, kebab) + "=\""
           + (if Structured(p.propType) then stringify(p.value).value else ToStr(p.value)) + "\""
    ensures Output(p, kebab, stringify) != Some("")
  {
    if Output(p, kebab, stringify).Some? {
      var s := Output(p, kebab, stringify).value;
      assert s[|AttrName(p, kebab)|] == '=';
    }
  }

  lemma OutputsOfAppend(a: seq<Prop>, b: seq<Prop>, kebab: string -> string, stringify: Value -> Option<string>)
    ensures OutputsOf(a + b, kebab, stringify) == OutputsOf(a, kebab, stringify) + OutputsOf(b, kebab, stringify)
  {
  }

  /** Outputs of a concatenation are the concatenation of the outputs: list
      order is kept. */
  lemma OutputsAppend(a: seq<Prop>, b: seq<Prop>, kebab: string -> string, stringify: Value -> Option<string>)
    ensures Outputs(a + b, kebab, stringify) == Outputs(a, kebab, stringify) + Outputs(b, kebab, stringify)
  {
    OutputsOfAppend(a, b, kebab, stringify);
    CompactAppend(OutputsOf(a, kebab, stringify), OutputsOf(b, kebab, stringify));
  }

  /** A single entry contributes its output, or nothing when it is dropped. */
  lemma OutputsSingle(p: Prop, kebab: string -> string, stringify: Value -> Option<string>)
    ensures Outputs([p], kebab, stringify)
      == match Output(p, kebab, stringify) case Some(s) => [s] case None => []
  {
    OutputRule(p, kebab, stringify);
    assert OutputsOf([p], kebab, stringify) == [Output(p, kebab, stringify)];
    assert OutputsOf([p], kebab, stringify)[1..] == [];
  }

  /** An entry the exclusion rule drops (null, `"null"`, a falsy boolean)
      leaves the outputs as if it were not in the list. */
  lemma OutputsOmitExcluded(a: seq<Prop>, p: Prop, b: seq<Prop>,
                            kebab: string -> string, stringify: Value -> Option<string>)
    requires Excluded(p)
    ensures Outputs(a + [p] + b, kebab, stringify) == Outputs(a + b, kebab, stringify)
  {
    OutputRule(p, kebab, stringify);
    OutputsAppend(a + [p], b, kebab, stringify);
    OutputsAppend(a, [p], kebab, stringify);
    OutputsAppend(a, b, kebab, stringify);
    OutputsSingle(p, kebab, stringify);
  }

  /** An object or array whose serialisation throws is dropped and the
      snippet goes on with the other entries. */
  lemma OutputsDropUnserialisable(a: seq<Prop>, p: Prop, b: seq<Prop>,
                                  kebab: string -> string, stringify: Value -> Option<string>)
    requires Structured(p.propType) && stringify(p.value).None?
    ensures Outputs(a + [p] + b, kebab, stringify) == Outputs(a + b, kebab, stringify)
  {
    OutputRule(p, kebab, stringify);
    OutputsAppend(a + [p], b, kebab, stringify);
    OutputsAppend(a, [p], kebab, stringify);
    OutputsAppend(a, b, kebab, stringify);
    OutputsSingle(p, kebab, stringify);
  }

  /** An object or array that serialises is written out as its JSON5 text
      in quotes, under its attribute name, in its place in the list. */
  lemma OutputsSerialiseStructured(a: seq<Prop>, p: Prop, b: seq<Prop>,
                                   kebab: string -> string, stringify: Value -> Option<string>)
    requires Structured(p.propType) && !Nullish(p.value) && stringify(p.value).Some?
    ensures Outputs(a + [p] + b, kebab, stringify)
      == Outputs(a, kebab, stringify) + [AttrName(p, kebab) + "=\"" + stringify(p.value).value + "\""]
         + Outputs(b, kebab, stringify)
  {
    OutputRule(p, kebab, stringify);
    OutputsAppend(a + [p], b, kebab, stringify);
    OutputsAppend(a, [p], kebab, stringify);
    OutputsSingle(p, kebab, stringify);
  }

  /** Every emitted text starts with the attribute name of a descriptor the
      exclusion rule spares (its `attr` when set, its kebab-cased name
      otherwise), followed by `="`. */
  lemma OutputsNamed(ps: seq<Prop>, s: string, kebab: string -> string, stringify: Value -> Option<string>)
    requires s in Outputs(ps, kebab, stringify)
    ensures exists i :: (0 <= i < |ps| && !Excluded(ps[i])
      && |AttrName(ps[i], kebab)| + 2 <= |s| && s[..|AttrName(ps[i], kebab)| + 2] == AttrName(ps[i], kebab) + "=\"")
  {
    assert Some(s) in OutputsOf(ps, kebab, stringify);
    var i :| 0 <= i < |ps| && OutputsOf(ps, kebab, stringify)[i] == Some(s);
    OutputRule(ps[i], kebab, stringify);
    var a := AttrName(ps[i], kebab);
    var v := if Structured(ps[i].propType) then stringify(ps[i].value).value else ToStr(ps[i].value);
    assert s == (a + "=\"") + (v + "\"");
  }

  /** With at least one surviving entry the snippet is `<tag`, every output
      on its own line indented by two spaces, a last such line holding
      `></tag>`; with none it is `<tag></tag>`. */
  lemma UsageLayout(tag: string, ps: seq<Prop>, kebab: string -> string, stringify: Value -> Option<string>)
    ensures var outs := Outputs(ps, kebab, stringify);
      Usage(true, tag, ps, kebab, stringify)
        == "<" + tag + Lines(Glue, outs) + (if outs == [] then "" else Glue) + "></" + tag + ">"
  {
    var outs := Outputs(ps, kebab, stringify);
    if outs != [] {
      JoinAsLines(Glue, outs);
      assert "<" + tag + Glue + Join(Glue, outs) == "<" + tag + (Glue + Join(Glue, outs));
    }
  }

  /** When nothing survives, whether by exclusion or by a failed
      serialisation, the snippet is exactly `<tag></tag>`. */
  lemma UsageNothingSurvives(tag: string, ps: seq<Prop>, kebab: string -> string, stringify: Value -> Option<string>)
    requires forall i :: 0 <= i < |ps| ==>
      Excluded(ps[i]) || (Structured(ps[i].propType) && stringify(ps[i].value).None?)
    ensures Usage(true, tag, ps, kebab, stringify) == "<" + tag + "></" + tag + ">"
  {
    var xs := OutputsOf(ps, kebab, stringify);
    forall i | 0 <= i < |ps|
      ensures xs[i].None?
    {
      OutputRule(ps[i], kebab, stringify);
    }
    CompactNothing(xs);
  }

  // ---------------------------------------------------------------------
  // Reloading values from the target's attributes
  // ---------------------------------------------------------------------

  /** `el.getAttribute(key)`: the attribute's text, or null. */
  function AttributeValue(attrs: map<string, string>, key: string): Value
  {
    if key in attrs then VStr(attrs[key]) else VNull
  }

  /** The map in `initiateDOM`: every descriptor's value replaced by the
      target's attribute under its attribute name. */
  function Reloaded(ps: seq<Prop>, attrs: map<string, string>, kebab: string -> string): (r: seq<Prop>)
    ensures |r| == |ps|
    ensures forall i :: 0 <= i < |ps| ==> r[i].(value := ps[i].value) == ps[i]
    ensures forall i :: 0 <= i < |ps| ==>
      if AttrName(ps[i], kebab) in attrs then r[i].value == VStr(attrs[AttrName(ps[i], kebab)])
      else r[i].value == VNull
  {
    seq(|ps|, i requires 0 <= i < |ps| => ps[i].(value := AttributeValue(attrs, AttrName(ps[i], kebab))))
  }

  /** A reload depends on nothing but names, overrides and attributes, so a
      second one changes nothing. */
  lemma ReloadIdempotent(ps: seq<Prop>, attrs: map<string, string>, kebab: string -> string)
    ensures Reloaded(Reloaded(ps, attrs, kebab), attrs, kebab) == Reloaded(ps, attrs, kebab)
  {
    var once := Reloaded(ps, attrs, kebab);
    var twice := Reloaded(once, attrs, kebab);
    forall i | 0 <= i < |ps|
      ensures twice[i] == once[i]
    {
      assert once[i].(value := ps[i].value) == ps[i];
      assert AttrName(once[i], kebab) == AttrName(ps[i], kebab);
    }
  }

  /** After a reload, a plain (not boolean, not object or array) entry is
      written out exactly when its attribute is present and is not the text
      `null`, and then with the attribute's text verbatim. */
  lemma ReloadedPlainOutput(ps: seq<Prop>, attrs: map<string, string>, i: int,
                            kebab: string -> string, stringify: Value -> Option<string>)
    requires 0 <= i < |ps|
    requires ps[i].propType != Boolean && !Structured(ps[i].propType)
    ensures var key := AttrName(ps[i], kebab);
      Output(Reloaded(ps, attrs, kebab)[i], kebab, stringify)
        == if key in attrs && attrs[key] != "null" then Some(key + "=\"" + attrs[key] + "\"") else None
  {
    var r := Reloaded(ps, attrs, kebab);
    assert r[i].(value := ps[i].value) == ps[i];
    assert AttrName(r[i], kebab) == AttrName(ps[i], kebab);
  }

  /** After a reload, a boolean entry is written out exactly when its
      attribute is present with a text other than `""` and `null`: a bare
      attribute such as `disabled` reads as `""`, which is falsy, and is
      left out, while the text `false` is truthy and is kept. */
  lemma ReloadedBooleanOutput(ps: seq<Prop>, attrs: map<string, string>, i: int,
                              kebab: string -> string, stringify: Value -> Option<string>)
    requires 0 <= i < |ps| && ps[i].propType == Boolean
    ensures var key := AttrName(ps[i], kebab);
      (Output(Reloaded(ps, attrs, kebab)[i], kebab, stringify).Some?
       <==> key in attrs && attrs[key] != "" && attrs[key] != "null")
  {
    var r := Reloaded(ps, attrs, kebab);
    assert r[i].(value := ps[i].value) == ps[i];
    assert AttrName(r[i], kebab) == AttrName(ps[i], kebab);
  }

  /** `applyProps` removes the attribute named by the raw `name`, so when
      that differs from the attribute name the snippet and the reload use,
      a null value leaves that attribute on the element. */
  lemma NullRemovesRawName(s: ElementState, p: Prop, kebab: string -> string)
    requires Nullish(p.value)
    requires AttrName(p, kebab) != p.name && AttrName(p, kebab) in s.attributes
    ensures p.name !in Applied(s, [p]).attributes
    ensures AttrName(p, kebab) in Applied(s, [p]).attributes
  {
    assert [p][..0] == [];
  }

  // ---------------------------------------------------------------------
  // Worked example
  // ---------------------------------------------------------------------

  lemma LabelOutput(kebab: string -> string, stringify: Value -> Option<string>)
    requires kebab("label") == "label"
    ensures Outputs([LabelProp(), DisabledProp(VBool(false))], kebab, stringify) == ["label=\"Go\""]
  {
    var ps := [LabelProp(), DisabledProp(VBool(false))];
    assert ps == [LabelProp()] + [DisabledProp(VBool(false))];
    OutputsAppend([LabelProp()], [DisabledProp(VBool(false))], kebab, stringify);
    OutputsSingle(LabelProp(), kebab, stringify);
    OutputsSingle(DisabledProp(VBool(false)), kebab, stringify);
    assert "Go"[0] != "null"[0];
    assert Output(LabelProp(), kebab, stringify) == Some("label" + "=\"" + "Go" + "\"");
    assert "label" + "=\"" + "Go" + "\"" == "label=\"Go\"";
    assert Output(DisabledProp(VBool(false)), kebab, stringify) == None;
  }

  /** A label and a `false` boolean: the label on its own indented line and
      the closing `>` on the next, also indented. */
  lemma ScenarioMyButton(kebab: string -> string, stringify: Value -> Option<string>)
    requires kebab("label") == "label"
    ensures Usage(true, "my-button", [LabelProp(), DisabledProp(VBool(false))], kebab, stringify)
      == "<my-button" + "\n  label=\"Go\"" + "\n  ></my-button>"
  {
    LabelOutput(kebab, stringify);
    var outs := Outputs([LabelProp(), DisabledProp(VBool(false))], kebab, stringify);
    assert Join(Glue, outs) == "label=\"Go\"";
    assert "<" + "my-button" == "<my-button";
    assert Glue + "></" + "my-button" + ">" == "\n  ></my-button>";
  }

  // ---------------------------------------------------------------------
  // The component
  // ---------------------------------------------------------------------

  class WcPlayground {
    /** The selector of the target element inside the demo content. */
    const tag: string
    const kebab: string -> string
    const stringify: Value -> Option<string>
    var propsArray: seq<Prop>
    var targetEl: Element?
    var showConfigPanel: bool

    /** `componentWillLoad` with the descriptors already structured. */
    constructor (tag: string, props: seq<Prop>, kebab: string -> string, stringify: Value -> Option<string>)
      ensures this.tag == tag && this.kebab == kebab && this.stringify == stringify
      ensures propsArray == props && targetEl == null && showConfigPanel
    {
      this.tag := tag;
      this.kebab := kebab;
      this.stringify := stringify;
      propsArray := props;
      targetEl := null;
      showConfigPanel := true;
    }

    /** The part of `initiateDOM` after the code is rendered: `found` is what
        the selector query returned. With a target, every value is reloaded
        from its attributes; nothing is applied. */
    method InitiateDOM(found: Element?)
      modifies this`targetEl, this`propsArray
      ensures targetEl == found
      ensures found == null ==> propsArray == old(propsArray)
      ensures found != null ==> propsArray == Reloaded(old(propsArray), found.attributes, kebab)
    {
      targetEl := found;
      if targetEl == null {
        return;
      }
      propsArray := Reloaded(propsArray, targetEl.attributes, kebab);
    }

    function GetUsage(): string
      reads this
    {
      Usage(targetEl != null, tag, propsArray, kebab, stringify)
    }

    /** The props panel's change event, carrying the whole revised list. */
    method HandlePropsChange(detail: seq<Prop>)
      modifies this`propsArray, targetEl
      ensures targetEl == null ==> propsArray == old(propsArray)
      ensures targetEl != null ==>
        propsArray == detail && targetEl.State() == Applied(old(targetEl.State()), detail)
    {
      if targetEl == null {
        return;
      }
      propsArray := detail;
      ApplyProps();
    }

    method ApplyProps()
      requires targetEl != null
      modifies targetEl
      ensures targetEl.State() == Applied(old(targetEl.State()), propsArray)
    {
      targetEl.ApplyProps(propsArray);
    }

    method CloseConfigPanel()
      modifies this`showConfigPanel
      ensures !showConfigPanel
    {
      showConfigPanel := false;
    }

    method OpenConfigPanel()
      modifies this`showConfigPanel
      ensures showConfigPanel
    {
      showConfigPanel := true;
    }
  }
}
