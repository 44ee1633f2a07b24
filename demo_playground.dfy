/** The `demo-playground` component: it applies its descriptor list to the
    target element, derives a one-line usage snippet from it, and rewrites
    one descriptor's value on every edit of a form control. */
module Demo {
  import opened Wrappers
  import opened Text
  import opened Props
  import opened Dom

  // ---------------------------------------------------------------------
  // Usage snippet
  // ---------------------------------------------------------------------

  /** `${name}="${value}"`. */
  function Pair(p: Prop): string
  {
    p.name + "=\"" + ToStr(p.value) + "\""
  }

  /** The `map` callback of `getUsage`: `false` (None) for a dropped entry. */
  function Emit(p: Prop): Option<string>
  {
    if p.value == VStr("null") || p.value == VNull then None
    else if p.propType == Boolean && !Truthy(p.value) then None
    else Some(Pair(p))
  }

  function Emitted(ps: seq<Prop>): seq<Option<string>>
  {
    seq(|ps|, i requires 0 <= i < |ps| => Emit(ps[i]))
  }

  /** The surviving `name="value"` pairs, after `.filter(Boolean)`. */
  function Pairs(ps: seq<Prop>): seq<string>
  {
    Compact(Emitted(ps))
  }

  /** `getUsage`: the tag, a space, the pairs joined by single spaces, and
      the closing tag. */
  function Usage(tag: string, ps: seq<Prop>): string
  {
    "<" + tag + " " + Join(" ", Pairs(ps)) + "></" + tag + ">"
  }

  /** The callback's two early returns are exactly the exclusion rule, and a
      pair is never the empty string, so `.filter(Boolean)` drops nothing
      else. */
  lemma EmitIsExclusionRule(p: Prop)
    ensures Emit(p) == if Excluded(p) then None else Some(Pair(p))
    ensures Pair(p) != ""
  {
    assert Pair(p)[|p.name|] == '=';
  }

  lemma EmittedAppend(a: seq<Prop>, b: seq<Prop>)
    ensures Emitted(a + b) == Emitted(a) + Emitted(b)
  {
  }

  /** A single descriptor yields its pair exactly when it is not excluded. */
  lemma PairsSingle(p: Prop)
    ensures Pairs([p]) == if Excluded(p) then [] else [Pair(p)]
  {
    EmitIsExclusionRule(p);
    assert Emitted([p]) == [Emit(p)];
    assert Emitted([p])[1..] == [];
  }

  /** Pairs of a concatenation are the concatenation of the pairs: list
      order is kept. */
  lemma PairsAppend(a: seq<Prop>, b: seq<Prop>)
    ensures Pairs(a + b) == Pairs(a) + Pairs(b)
  {
    EmittedAppend(a, b);
    CompactAppend(Emitted(a), Emitted(b));
  }

  /** Inserting one descriptor between two lists inserts its pair (or
      nothing, when it is excluded) at the same place among the pairs. */
  lemma PairsInsert(a: seq<Prop>, p: Prop, b: seq<Prop>)
    ensures Pairs(a + [p] + b) == Pairs(a) + (if Excluded(p) then [] else [Pair(p)]) + Pairs(b)
  {
    PairsAppend(a + [p], b);
    PairsAppend(a, [p]);
    PairsSingle(p);
  }

  /** A pair appears in the snippet exactly when some descriptor that is not
      excluded produces it. */
  lemma PairsMember(ps: seq<Prop>, s: string)
    ensures s in Pairs(ps) <==> exists i :: 0 <= i < |ps| && !Excluded(ps[i]) && Pair(ps[i]) == s
  {
    if s in Pairs(ps) {
      assert Some(s) in Emitted(ps);
      var i :| 0 <= i < |ps| && Emitted(ps)[i] == Some(s);
      EmitIsExclusionRule(ps[i]);
    }
    if exists i :: 0 <= i < |ps| && !Excluded(ps[i]) && Pair(ps[i]) == s {
      var i :| 0 <= i < |ps| && !Excluded(ps[i]) && Pair(ps[i]) == s;
      EmitIsExclusionRule(ps[i]);
      assert Emitted(ps)[i] == Some(s);
    }
  }

  /** With nothing excluded there is exactly one pair per descriptor, in
      list order. */
  lemma {:induction false} PairsAllKept(ps: seq<Prop>)
    requires forall i :: 0 <= i < |ps| ==> !Excluded(ps[i])
    ensures |Pairs(ps)| == |ps|
    ensures forall i :: 0 <= i < |ps| ==> Pairs(ps)[i] == Pair(ps[i])
  {
    if |ps| > 0 {
      assert ps == [ps[0]] + ps[1..];
      PairsAppend([ps[0]], ps[1..]);
      PairsSingle(ps[0]);
      PairsAllKept(ps[1..]);
    }
  }

  /** An excluded descriptor (null, `"null"`, or a falsy boolean) leaves the
      snippet exactly as if it were not in the list. */
  lemma UsageOmitsExcluded(tag: string, a: seq<Prop>, p: Prop, b: seq<Prop>)
    requires Excluded(p)
    ensures Usage(tag, a + [p] + b) == Usage(tag, a + b)
  {
    PairsInsert(a, p, b);
    PairsAppend(a, b);
    var with, without := Pairs(a + [p] + b), Pairs(a + b);
    assert with == Pairs(a) + [] + Pairs(b);
    assert Pairs(a) + [] == Pairs(a);
    assert with == without;
  }

  /** A falsy value of a type other than `boolean` (`""`, `0`) is still
      written out. */
  lemma UsageKeepsFalsyNonBoolean(tag: string, a: seq<Prop>, p: Prop, b: seq<Prop>)
    requires p.propType != Boolean && !Nullish(p.value) && !Truthy(p.value)
    ensures Pairs(a + [p] + b) == Pairs(a) + [Pair(p)] + Pairs(b)
    ensures Usage(tag, a + [p] + b)
      == "<" + tag + " " + Join(" ", Pairs(a) + [Pair(p)] + Pairs(b)) + "></" + tag + ">"
  {
    PairsInsert(a, p, b);
  }

  /** The snippet always opens with `<tag ` and closes with `></tag>`. */
  lemma UsageFrame(tag: string, ps: seq<Prop>)
    ensures |Usage(tag, ps)| >= 2 * |tag| + 6
    ensures Usage(tag, ps)[..|tag| + 2] == "<" + tag + " "
    ensures Usage(tag, ps)[|Usage(tag, ps)| - |tag| - 4..] == "></" + tag + ">"
  {
    var open, inner, close := "<" + tag + " ", Join(" ", Pairs(ps)), "></" + tag + ">";
    var u := Usage(tag, ps);
    assert u == open + inner + close;
    assert |close| == |tag| + 4;
    assert u[|u| - |close|..] == close;
  }

  /** With every descriptor excluded, or none at all, the snippet is
      `<tag ></tag>`: the space after the tag stays. */
  lemma UsageAllExcluded(tag: string, ps: seq<Prop>)
    requires forall i :: 0 <= i < |ps| ==> Excluded(ps[i])
    ensures Usage(tag, ps) == "<" + tag + " ></" + tag + ">"
  {
    if Pairs(ps) != [] {
      PairsMember(ps, Pairs(ps)[0]);
    }
  }

  // ---------------------------------------------------------------------
  // Form controls and edits
  // ---------------------------------------------------------------------

  /** `getInputFromType`: the `type` attribute of the input element. */
  function InputKind(t: PropType): (k: string)
    ensures k == "number" <==> t == Number
    ensures k == "checkbox" <==> t == Boolean
    ensures k == "text" <==> t != Number && t != Boolean
  {
    match t
    case Number => "number"
    case Boolean => "checkbox"
    case _ => "text"
  }

  /** The input element an edit event comes from: its checked state and its
      `value`, which the code guards against being null. */
  datatype Control = Control(checked: bool, value: Option<string>)

  /** The new value of an edit: the checked state for a `boolean`
      descriptor, the control's raw text for any other type. */
  function NewValue(t: PropType, c: Control): Value
  {
    if t == Boolean then VBool(c.checked)
    else match c.value
      case Some(s) => VStr(s)
      case None => VNull
  }

  /** The `map` callback of `updatePropValue`: an entry with the edited name
      takes the new value, or becomes `null` when the new value is null. */
  function Updated(p: Prop, name: string, v: Value): Option<Prop>
  {
    if p.name == name then
      if v == VNull then None else Some(p.(value := v))
    else Some(p)
  }

  /** `updatePropValue`'s new list, after `.filter(Boolean)`. */
  function UpdatedProps(ps: seq<Prop>, name: string, v: Value): seq<Prop>
  {
    Somes(seq(|ps|, i requires 0 <= i < |ps| => Updated(ps[i], name, v)))
  }

  /** The entries whose name differs from `name`, in order: a reference
      definition of what an edit must leave alone. */
  function Others(ps: seq<Prop>, name: string): seq<Prop>
  {
    if |ps| == 0 then []
    else (if ps[0].name == name then [] else [ps[0]]) + Others(ps[1..], name)
  }

  lemma {:induction false} UpdatedPropsCons(ps: seq<Prop>, name: string, v: Value)
    requires |ps| > 0
    ensures UpdatedProps(ps, name, v)
      == (match Updated(ps[0], name, v) case Some(q) => [q] case None => []) + UpdatedProps(ps[1..], name, v)
  {
    var xs := seq(|ps|, i requires 0 <= i < |ps| => Updated(ps[i], name, v));
    var ys := seq(|ps| - 1, i requires 0 <= i < |ps| - 1 => Updated(ps[1..][i], name, v));
    assert xs == [xs[0]] + ys;
    SomesAppend([xs[0]], ys);
    assert [xs[0]][1..] == [];
  }

  /** A non-null edit keeps the list's length and order, gives every entry
      with the edited name the new value and changes nothing else. */
  lemma UpdatedKeepsShape(ps: seq<Prop>, name: string, v: Value)
    requires v != VNull
    ensures |UpdatedProps(ps, name, v)| == |ps|
    ensures forall i :: 0 <= i < |ps| && ps[i].name != name ==> UpdatedProps(ps, name, v)[i] == ps[i]
    ensures forall i :: 0 <= i < |ps| && ps[i].name == name ==> UpdatedProps(ps, name, v)[i] == ps[i].(value := v)
  {
    var xs := seq(|ps|, i requires 0 <= i < |ps| => Updated(ps[i], name, v));
    SomesAllPresent(xs);
  }

  /** Whatever the new value, the entries with other names keep their values
      and their relative order. */
  lemma {:induction false} UpdatedKeepsOthers(ps: seq<Prop>, name: string, v: Value)
    ensures Others(UpdatedProps(ps, name, v), name) == Others(ps, name)
    decreases |ps|
  {
    if |ps| > 0 {
      UpdatedPropsCons(ps, name, v);
      UpdatedKeepsOthers(ps[1..], name, v);
      var head := match Updated(ps[0], name, v) case Some(q) => [q] case None => [];
      OthersAppend(head, UpdatedProps(ps[1..], name, v), name);
      if ps[0].name == name && v != VNull {
        assert Others(head, name) == [] by {
          assert head == [ps[0].(value := v)];
          assert head[1..] == [];
        }
      } else if ps[0].name != name {
        assert head == [ps[0]] && head[1..] == [];
      }
    }
  }

  lemma {:induction false} OthersAppend(a: seq<Prop>, b: seq<Prop>, name: string)
    ensures Others(a + b, name) == Others(a, name) + Others(b, name)
    decreases |a|
  {
    if |a| == 0 {
      assert a + b == b;
    } else {
      assert (a + b)[1..] == a[1..] + b;
      OthersAppend(a[1..], b, name);
    }
  }

  /** An edit whose new value is null drops every entry with the edited name
      and keeps the rest in order. */
  lemma {:induction false} UpdatedNullDrops(ps: seq<Prop>, name: string)
    ensures UpdatedProps(ps, name, VNull) == Others(ps, name)
    decreases |ps|
  {
    if |ps| > 0 {
      UpdatedPropsCons(ps, name, VNull);
      UpdatedNullDrops(ps[1..], name);
    }
  }

  lemma {:induction false} OthersIdempotent(ps: seq<Prop>, name: string)
    ensures Others(Others(ps, name), name) == Others(ps, name)
    decreases |ps|
  {
    if |ps| > 0 {
      var head := if ps[0].name == name then [] else [ps[0]];
      OthersAppend(head, Others(ps[1..], name), name);
      OthersIdempotent(ps[1..], name);
      if ps[0].name != name {
        assert head[1..] == [];
      }
    }
  }

  /** Repeating the same edit changes nothing more. */
  lemma UpdatedIdempotent(ps: seq<Prop>, name: string, v: Value)
    ensures UpdatedProps(UpdatedProps(ps, name, v), name, v) == UpdatedProps(ps, name, v)
  {
    var once := UpdatedProps(ps, name, v);
    if v == VNull {
      UpdatedNullDrops(ps, name);
      UpdatedNullDrops(once, name);
      OthersIdempotent(ps, name);
    } else {
      UpdatedKeepsShape(ps, name, v);
      UpdatedKeepsShape(once, name, v);
    }
  }

  /** An edit stores the control's checked state in a `boolean` entry and
      the raw text, uncoerced, in an entry of any other type (a `number`
      entry ends up holding a string). */
  lemma EditStoresInput(ps: seq<Prop>, i: int, edited: Prop, c: Control)
    requires 0 <= i < |ps| && ps[i].name == edited.name
    requires edited.propType == Boolean || c.value.Some?
    ensures |UpdatedProps(ps, edited.name, NewValue(edited.propType, c))| == |ps|
    ensures edited.propType == Boolean ==>
      UpdatedProps(ps, edited.name, NewValue(edited.propType, c))[i].value == VBool(c.checked)
    ensures edited.propType != Boolean ==>
      UpdatedProps(ps, edited.name, NewValue(edited.propType, c))[i].value == VStr(c.value.value)
  {
    UpdatedKeepsShape(ps, edited.name, NewValue(edited.propType, c));
  }

  // ---------------------------------------------------------------------
  // Worked examples
  // ---------------------------------------------------------------------

  lemma LabelPair()
    ensures !Excluded(LabelProp())
    ensures Pair(LabelProp()) == "label=\"Go\""
  {
    assert "Go"[0] != "null"[0];
    assert Pair(LabelProp()) == "label" + "=\"" + "Go" + "\"";
  }

  lemma DisabledPair()
    ensures !Excluded(DisabledProp(VBool(true)))
    ensures Pair(DisabledProp(VBool(true))) == "disabled=\"true\""
  {
    assert ToStr(VBool(true)) == "true";
    assert Pair(DisabledProp(VBool(true))) == "disabled" + "=\"" + "true" + "\"";
  }

  /** A `false` boolean is left out of the snippet. */
  lemma ScenarioUncheckedUsage()
    ensures Usage("my-button", [LabelProp(), DisabledProp(VBool(false))])
      == "<my-button " + "label=\"Go\"" + "></my-button>"
  {
    var ps := [LabelProp(), DisabledProp(VBool(false))];
    assert ps == [LabelProp()] + [DisabledProp(VBool(false))];
    PairsAppend([LabelProp()], [DisabledProp(VBool(false))]);
    PairsSingle(LabelProp());
    PairsSingle(DisabledProp(VBool(false)));
    LabelPair();
    assert Pairs(ps) == [Pair(LabelProp())];
    JoinOne(" ", Pair(LabelProp()));
    MyButtonUsage(Join(" ", Pairs(ps)));
  }

  /** Checking the box of the `disabled` entry stores `true` in it and
      leaves the label alone. */
  lemma ScenarioCheckDisabled()
    ensures UpdatedProps([LabelProp(), DisabledProp(VBool(false))], "disabled",
                         NewValue(Boolean, Control(true, Some("on"))))
      == [LabelProp(), DisabledProp(VBool(true))]
  {
    UpdatedKeepsShape([LabelProp(), DisabledProp(VBool(false))], "disabled", VBool(true));
  }

  lemma CheckedPairs()
    ensures Join(" ", Pairs([LabelProp(), DisabledProp(VBool(true))]))
      == "label=\"Go\"" + " " + "disabled=\"true\""
  {
    var after := [LabelProp(), DisabledProp(VBool(true))];
    LabelPair();
    DisabledPair();
    PairsAllKept(after);
    assert Pairs(after) == [Pair(LabelProp()), Pair(DisabledProp(VBool(true)))];
    JoinTwo(" ", Pair(LabelProp()), Pair(DisabledProp(VBool(true))));
  }

  /** Once checked, the boolean is written out as `disabled="true"` after
      the label. */
  lemma ScenarioCheckedUsage()
    ensures Usage("my-button", [LabelProp(), DisabledProp(VBool(true))])
      == "<my-button " + ("label=\"Go\"" + " " + "disabled=\"true\"") + "></my-button>"
  {
    CheckedPairs();
    var j := Join(" ", Pairs([LabelProp(), DisabledProp(VBool(true))]));
    MyButtonUsage(j);
  }

  lemma MyButtonUsage(j: string)
    ensures "<" + "my-button" + " " + j + "></" + "my-button" + ">" == "<my-button " + j + "></my-button>"
  {
    assert "<" + "my-button" + " " == "<my-button ";
    assert "></" + "my-button" + ">" == "></my-button>";
    assert "<" + "my-button" + " " + j + "></" + "my-button" + ">"
      == "<my-button " + j + ("></" + "my-button" + ">");
  }

  // ---------------------------------------------------------------------
  // The component
  // ---------------------------------------------------------------------

  class DemoPlayground {
    /** The selector of the target element inside the playground. */
    const tag: string
    var propsArray: seq<Prop>
    var targetEl: Element?
    var showConfigPanel: bool

    /** `componentWillLoad` with the descriptors already structured. */
    constructor (tag: string, props: seq<Prop>)
      ensures this.tag == tag && propsArray == props
      ensures targetEl == null && showConfigPanel
    {
      this.tag := tag;
      propsArray := props;
      targetEl := null;
      showConfigPanel := true;
    }

    /** `componentDidLoad`: `found` is what the selector query returned. With
        no target nothing is applied, now or later. */
    method ComponentDidLoad(found: Element?)
      modifies this`targetEl, found
      ensures targetEl == found
      ensures found != null ==> found.State() == Applied(old(found.State()), propsArray)
    {
      targetEl := found;
      if targetEl == null {
        return;
      }
      ApplyProps();
    }

    method ApplyProps()
      requires targetEl != null
      modifies targetEl
      ensures targetEl.State() == Applied(old(targetEl.State()), propsArray)
    {
      targetEl.ApplyProps(propsArray);
    }

    /** The watcher on `propsArray`, run after every reassignment of it. */
    method PropsArrayChanged()
      modifies targetEl
      ensures targetEl != null ==> targetEl.State() == Applied(old(targetEl.State()), propsArray)
    {
      if targetEl == null {
        return;
      }
      ApplyProps();
    }

    function GetUsage(): string
      reads this
    {
      Usage(tag, propsArray)
    }

    /** `updatePropValue` followed by the watcher it triggers. */
    method UpdatePropValue(c: Control, edited: Prop)
      modifies this`propsArray, targetEl
      ensures propsArray == UpdatedProps(old(propsArray), edited.name, NewValue(edited.propType, c))
      ensures targetEl != null ==> targetEl.State() == Applied(old(targetEl.State()), propsArray)
    {
      propsArray := UpdatedProps(propsArray, edited.name, NewValue(edited.propType, c));
      PropsArrayChanged();
    }

    method CloseConfigPanel()
      modifies this`showConfigPanel
      ensures !showConfigPanel
    {
      showConfigPanel := false;
    }

    method OpenConfigPanel()
      modifies this`showConfigPanel
      ensures showConfigPanel
    {
      showConfigPanel := true;
    }
  }
}
