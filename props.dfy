/** The property descriptors both playgrounds hold, and the JavaScript value
    semantics their rules depend on: strict comparison with `null` and
    `'null'`, truthiness, and template-literal conversion `${value}`. */
module Props {
  import opened Wrappers
  import Text

  /** The declared type of a descriptor; it selects the form control and the
      serialisation rule. */
  datatype PropType = String | Number | Boolean | Object | Array | Select | Multiselect

  /** A JavaScript value as it can occur in a descriptor's `value`.
      Numbers are integral here. An object or array carries an identity `id`,
      standing for the reference that `===` and a serialiser see, so that two
      distinct objects stay distinct, and the text its own `toString`
      produces, which is what `${value}` prints (`[object Object]` for every
      plain object). */
  datatype Value =
    | VNull
    | VBool(b: bool)
    | VNum(n: int)
    | VStr(s: string)
    | VObj(id: nat, text: string)

  /** One entry of a select control's `options`: a plain string, a
      `{ value, label }` pair whose value may be null, or a null entry. */
  datatype PropOption = NullOption | Plain(s: string) | Labelled(optionValue: Option<string>, optionLabel: string)

  /** One descriptor: `name`, `value`, `type`, `default`, the optional
      attribute-name override `attr` and the optional `options`. */
  datatype Prop = Prop(
    name: string,
    value: Value,
    propType: PropType,
    defaultValue: Value,
    attr: Option<string>,
    options: Option<seq<PropOption>>)

  /** `value === 'null' || value === null`: the value that means "no such
      attribute". */
  predicate Nullish(v: Value)
  {
    v == VNull || v == VStr("null")
  }

  /** JavaScript truthiness: `false`, `0`, `""` and `null` are falsy,
      objects are not. */
  predicate Truthy(v: Value)
  {
    match v
    case VNull => false
    case VBool(b) => b
    case VNum(n) => n != 0
    case VStr(s) => s != ""
    case VObj(_, _) => true
  }

  /** The exclusion rule both usage snippets apply: a null or `"null"`
      value, or a falsy value of a `boolean` descriptor. */
  predicate Excluded(p: Prop)
  {
    Nullish(p.value) || (p.propType == Boolean && !Truthy(p.value))
  }

  /** Template-literal conversion `${value}`. */
  function ToStr(v: Value): string
  {
    match v
    case VNull => "null"
    case VBool(b) => if b then "true" else "false"
    case VNum(n) => Text.IntToString(n)
    case VStr(s) => s
    case VObj(_, t) => t
  }

  /** Example descriptors shared by the worked examples of both playgrounds:
      a text `label` and a `disabled` flag. */
  function LabelProp(): Prop
  {
    Prop("label", VStr("Go"), String, VStr(""), None, None)
  }

  function DisabledProp(v: Value): Prop
  {
    Prop("disabled", v, Boolean, VBool(false), None, None)
  }
}
