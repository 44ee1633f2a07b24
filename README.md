# Component playground: property synchronisation and usage snippets

This project models the core of two near-duplicate web-component
"playground" widgets from a design-system documentation site. Each one holds
an ordered list of property descriptors. A descriptor has a name, a value, a
declared type, a default, an optional `attr` override and optional select
options. The playground does three things with the list:

- **Applies it to the live target element.** A null or `"null"` value
  removes the attribute with the descriptor's name. Any other value is
  assigned to the element property of that name.
- **Derives a usage snippet.** The snippet is markup showing the element's
  tag and the descriptors that are "active".
- **Updates the list.** The `demo-playground` variant rewrites one
  descriptor's value when its form control is edited. The `wc-playground`
  variant replaces the whole list when its props panel reports a change.
  At load it also reloads every value from the target's attributes.

A one-bit state machine, open or closed, drives the configuration panel. A
switch maps each descriptor type to the kind of form input that edits it.

The files:

- `props.dfy` (module `Props`): the descriptor and value datatypes and the
  JavaScript rules the engine relies on:
  - strict comparison with `null` and `'null'` (`Nullish`);
  - truthiness, where `false`, `0` and `""` are falsy (`Truthy`);
  - template conversion `${value}` (`ToStr`);
  - the shared exclusion rule (`Excluded`).
- `dom.dfy` (module `Dom`): the target element. It is a class with two
  fields, `properties: map<string, Value>` and
  `attributes: map<string, string>`. `Element.ApplyProps` is the `forEach`
  loop of `applyProps`, proved against `Applied`, a left fold with one
  `Step` per descriptor. The lemmas say what the fold does to every key, and
  that it is idempotent.
- `demo_playground.dfy` (module `Demo`): the single-line snippet, the edit
  rule of `updatePropValue`, `getInputFromType`, and the `DemoPlayground`
  class with its lifecycle, watcher and panel methods.
- `wc_playground.dfy` (module `Wc`): the multi-line snippet, the attribute
  naming (`attr`, or the kebab-cased name), relaxed-JSON serialisation of
  object and array values, the reload from attributes, and the
  `WcPlayground` class.
- `text.dfy` and `wrappers.dfy`: JavaScript's `join`, and `.filter(Boolean)`
  over lists that mix `false` or `null` with values.

The foreign library functions are parameters of the model:

- lodash's `kebabCase` is `kebab: string -> string`;
- `JSON5.stringify(value, undefined, 4)` is
  `stringify: Value -> Option<string>`, where `None` stands for the library
  throwing.

Each component's `getUsage` is the class function `GetUsage`:
`Demo.DemoPlayground.GetUsage` is `Demo.Usage` of the component's tag and
current list, and `Wc.WcPlayground.GetUsage` is `Wc.Usage` of whether a target
was found, the tag, the list and the two library functions. The properties of
the snippet are stated by the `Demo.Usage*`/`Demo.Pairs*` and
`Wc.Usage*`/`Wc.Output*` rows below.

`WcPlayground` holds both as constants. The target element's selector query
is not modelled: its result is passed as the parameter `found: Element?`. The
descriptor type `IProp` of the `wc-playground` variant is imported from
`prop.type`. That file is not part of this model. Its fields are taken from
how `wc-playground.tsx` uses them: the fields of `demo-playground`'s `IProp`
plus `attr`.

Behaviours of the code worth knowing, each stated by a member below:

- `updatePropValue` stores the control's raw text, with no JSON parsing and
  no number coercion, for every descriptor type other than `boolean`
  (`Demo.EditStoresInput`). In `demo-playground` only the select and input
  controls call it (`demo-playground.tsx` lines 148 and 187). Object and
  array descriptors get a `<textarea>` with no input handler, so no control
  ever sends them an edit.
- `updatePropValue` drops a descriptor only when the control's value is
  null. Any other value overwrites the descriptor's value in place
  (`Demo.UpdatedNullDrops`, `Demo.UpdatedKeepsShape`).
- A non-empty `wc-playground` snippet closes with `"\n  ></tag>"`: the glue
  is put before `>` as well (`Wc.UsageLayout`, `Wc.ScenarioMyButton`).
- The `demo-playground` snippet uses the raw `name` and joins pairs by
  single spaces on one line. It keeps the space after the tag even when no
  pair survives, giving `<tag ></tag>` (`Demo.UsageAllExcluded`).

The lemmas also show these consequences of the code as written:

- `applyProps` removes the attribute under the raw `name`. The snippet and
  the reload use the `attr` or kebab-case name. So a null value leaves a
  renamed attribute on the element (`Wc.NullRemovesRawName`).
- After a reload, a bare boolean attribute such as `disabled` reads as `""`,
  which is falsy, so it is left out of the snippet. The text `"false"` is
  truthy, so it is kept (`Wc.ReloadedBooleanOutput`).

## Model

| member | source | states |
|---|---|---|
| `Wrappers.Somes` | src/components/demo-components/demo-playground/demo-playground.tsx:112-123 | `.filter(Boolean)` over objects and nulls keeps exactly the present entries (membership in both directions), never more than the input |
| `Text.Compact` | src/components/demo-components/demo-playground/demo-playground.tsx:80-91 | `.filter(Boolean)` over `false` and strings keeps exactly the non-empty strings that were present, never more than the input |
| `Text.CompactAppend` | src/components/demo-components/demo-playground/wc-playground.tsx:116-134 | filtering a concatenation is concatenating the filtered parts: order is kept |
| `Text.JoinAsLines` | src/components/demo-components/demo-playground/wc-playground.tsx:137-139 | glue followed by `join(glue)` of a non-empty list puts every element on its own glue-prefixed line (`Lines`, an independent definition) |
| `Dom.Element.SetProperty` | src/components/demo-components/demo-playground/demo-playground.tsx:73 | `el[name] = value` updates that property only; attributes unchanged |
| `Dom.Element.RemoveAttribute` | src/components/demo-components/demo-playground/demo-playground.tsx:70 | `removeAttribute(name)` drops that attribute only; properties unchanged |
| `Dom.Element.ApplyProps` | src/components/demo-components/demo-playground/demo-playground.tsx:67-74 | the `forEach` loop leaves the element in the state of the fold `Applied` over the list, in list order |
| `Dom.AppliedProperties` | src/components/demo-components/demo-playground/demo-playground.tsx:67-74 | after applying, property `k` holds the value of the last non-null entry named `k`; with no such entry it is exactly as before |
| `Dom.AppliedAttributes` | src/components/demo-components/demo-playground/demo-playground.tsx:67-74 | attribute `k` survives iff it was present and no entry named `k` is null or `"null"`; a surviving attribute keeps its text |
| `Dom.ApplyEntry` | src/components/demo-components/demo-playground/demo-playground.tsx:68-73 | every null or `"null"` entry leaves its attribute absent; every other entry not overridden later leaves its value in the property of its name |
| `Dom.ApplyUnlisted` | src/components/demo-components/demo-playground/demo-playground.tsx:67-74 | properties and attributes under names no entry carries are unchanged |
| `Dom.ApplyIdempotent` | src/components/demo-components/demo-playground/demo-playground.tsx:67-74 | applying the same list twice gives the same element state as applying it once |
| `Demo.EmitIsExclusionRule` | src/components/demo-components/demo-playground/demo-playground.tsx:81-89 | the map callback's two early returns are exactly the exclusion rule, and a `name="value"` pair is never empty, so the filter drops nothing else |
| `Demo.PairsSingle` | src/components/demo-components/demo-playground/demo-playground.tsx:80-91 | one descriptor yields its pair iff it is not excluded |
| `Demo.PairsAppend` | src/components/demo-components/demo-playground/demo-playground.tsx:80-91 | pairs of a concatenated list are the concatenated pairs: relative order is kept |
| `Demo.PairsInsert` | src/components/demo-components/demo-playground/demo-playground.tsx:80-91 | an entry between two lists puts its pair (or nothing, when excluded) at that place among the pairs |
| `Demo.PairsMember` | src/components/demo-components/demo-playground/demo-playground.tsx:80-91 | a string is a pair of the snippet iff some non-excluded descriptor produces it |
| `Demo.PairsAllKept` | src/components/demo-components/demo-playground/demo-playground.tsx:80-91 | with nothing excluded there is exactly one pair per descriptor, the i-th being `name="value"` of the i-th descriptor |
| `Demo.UsageOmitsExcluded` | src/components/demo-components/demo-playground/demo-playground.tsx:82-87 | a null, `"null"` or falsy boolean entry leaves the snippet exactly as if it were absent |
| `Demo.UsageKeepsFalsyNonBoolean` | src/components/demo-components/demo-playground/demo-playground.tsx:85-88 | a falsy value (`""`, `0`) of a non-boolean type is still written out, in its place among the pairs and so in the snippet |
| `Demo.UsageFrame` | src/components/demo-components/demo-playground/demo-playground.tsx:80-91 | the snippet always starts with `<tag ` and ends with `></tag>` |
| `Demo.UsageAllExcluded` | src/components/demo-components/demo-playground/demo-playground.tsx:80-91 | an empty or all-excluded list gives exactly `<tag ></tag>` |
| `Demo.InputKind` | src/components/demo-components/demo-playground/demo-playground.tsx:99-108 | input kind is `number` iff type `number`, `checkbox` iff `boolean`, `text` iff anything else |
| `Demo.UpdatedKeepsShape` | src/components/demo-components/demo-playground/demo-playground.tsx:110-124 | a non-null edit keeps length and order, gives matching entries the new value and leaves every other entry as it was |
| `Demo.UpdatedKeepsOthers` | src/components/demo-components/demo-playground/demo-playground.tsx:110-124 | whatever the new value, entries with other names keep their values and relative order (`Others`, an independent filter) |
| `Demo.UpdatedNullDrops` | src/components/demo-components/demo-playground/demo-playground.tsx:115-123 | a null new value removes every entry with the edited name and keeps the rest in order |
| `Demo.UpdatedIdempotent` | src/components/demo-components/demo-playground/demo-playground.tsx:110-124 | repeating the same edit changes nothing further |
| `Demo.EditStoresInput` | src/components/demo-components/demo-playground/demo-playground.tsx:114 | the edited entry stores the checked state for a `boolean` and the raw text, uncoerced, for any other type, `number` included |
| `Demo.ScenarioUncheckedUsage` | src/components/demo-components/demo-playground/demo-playground.tsx:79-92 | a label and a `false` boolean give `<my-button label="Go"></my-button>` |
| `Demo.ScenarioCheckDisabled` | src/components/demo-components/demo-playground/demo-playground.tsx:110-124 | checking the `disabled` box stores `true` in it and leaves the label alone |
| `Demo.ScenarioCheckedUsage` | src/components/demo-components/demo-playground/demo-playground.tsx:79-92 | after that edit the snippet is `<my-button label="Go" disabled="true"></my-button>` |
| `Demo.DemoPlayground.constructor` | src/components/demo-components/demo-playground/demo-playground.tsx:40-42 | the list is the structured `props`; no target yet; the configuration panel starts open (line 194) |
| `Demo.DemoPlayground.ComponentDidLoad` | src/components/demo-components/demo-playground/demo-playground.tsx:45-56 | the query result becomes the target; with a target the list is applied to it, without one nothing happens |
| `Demo.DemoPlayground.ApplyProps` | src/components/demo-components/demo-playground/demo-playground.tsx:67-77 | the target ends in the state `Applied` gives for the current list |
| `Demo.DemoPlayground.PropsArrayChanged` | src/components/demo-components/demo-playground/demo-playground.tsx:58-65 | the watcher applies the list when a target exists and changes nothing otherwise |
| `Demo.DemoPlayground.UpdatePropValue` | src/components/demo-components/demo-playground/demo-playground.tsx:110-124 | the list becomes the edited list, then the watcher applies it to the target |
| `Demo.DemoPlayground.CloseConfigPanel` | src/components/demo-components/demo-playground/demo-playground.tsx:196-198 | close sets the panel flag false |
| `Demo.DemoPlayground.OpenConfigPanel` | src/components/demo-components/demo-playground/demo-playground.tsx:199-201 | open sets the panel flag true |
| `Wc.AttrName` | src/components/demo-components/demo-playground/wc-playground.tsx:118 | the attribute name is `attr` when it is set and non-empty, `kebabCase(name)` otherwise; `Wc.OutputRule` and `Wc.OutputsNamed` prove that this is the name every emitted `name="value"` text starts with |
| `Wc.OutputRule` | src/components/demo-components/demo-playground/wc-playground.tsx:117-133 | an entry is emitted iff the exclusion rule spares it and, for object/array, serialisation succeeds; it is then `attr="text"` with the JSON5 text or `${value}`, and never empty |
| `Wc.OutputsAppend` | src/components/demo-components/demo-playground/wc-playground.tsx:116-134 | outputs of a concatenated list are the concatenated outputs: order is kept |
| `Wc.OutputsSingle` | src/components/demo-components/demo-playground/wc-playground.tsx:116-134 | one entry contributes its output, or nothing when dropped |
| `Wc.OutputsOmitExcluded` | src/components/demo-components/demo-playground/wc-playground.tsx:119-124 | a null, `"null"` or falsy boolean entry leaves the outputs as if absent |
| `Wc.OutputsDropUnserialisable` | src/components/demo-components/demo-playground/wc-playground.tsx:125-131 | an object/array whose serialisation throws is dropped and the other entries are still emitted |
| `Wc.OutputsSerialiseStructured` | src/components/demo-components/demo-playground/wc-playground.tsx:125-131 | an object/array that serialises is emitted as `attr="<JSON5 text>"` in its place |
| `Wc.OutputsNamed` | src/components/demo-components/demo-playground/wc-playground.tsx:117-133 | every emitted text starts with the attribute name of a non-excluded descriptor followed by `="` |
| `Wc.Usage` | src/components/demo-components/demo-playground/wc-playground.tsx:110-113 | without a resolved target the snippet is the empty string |
| `Wc.UsageLayout` | src/components/demo-components/demo-playground/wc-playground.tsx:115-139 | with a target the snippet is `<tag`, each output on its own `"\n  "` line, a final `"\n  "` only when some output exists, then `></tag>` |
| `Wc.UsageNothingSurvives` | src/components/demo-components/demo-playground/wc-playground.tsx:136-139 | when every entry is excluded or fails to serialise the snippet is exactly `<tag></tag>` |
| `Wc.ScenarioMyButton` | src/components/demo-components/demo-playground/wc-playground.tsx:110-140 | a label and a `false` boolean give `<my-button` + `"\n  label=\"Go\""` + `"\n  ></my-button>"` |
| `Wc.Reloaded` | src/components/demo-components/demo-playground/wc-playground.tsx:81-87 | the reload keeps length, order and every field but `value`, which becomes the attribute text under the attribute name, or null when absent |
| `Wc.ReloadIdempotent` | src/components/demo-components/demo-playground/wc-playground.tsx:81-87 | reloading twice from the same attributes gives the same list as reloading once |
| `Wc.ReloadedPlainOutput` | src/components/demo-components/demo-playground/wc-playground.tsx:81-87 | after a reload a plain entry is emitted iff its attribute is present and not `null`, and then with the attribute's text verbatim |
| `Wc.ReloadedBooleanOutput` | src/components/demo-components/demo-playground/wc-playground.tsx:81-87 | after a reload a boolean entry is emitted iff its attribute is present with a text other than `""` and `null` |
| `Wc.NullRemovesRawName` | src/components/demo-components/demo-playground/wc-playground.tsx:167-175 | a null entry removes the attribute under its raw `name`, and an attribute under a different `attr` or kebab-case name stays |
| `Wc.WcPlayground.constructor` | src/components/demo-components/demo-playground/wc-playground.tsx:53-56 | the list is the structured `props`; no target yet; the configuration panel starts open (line 146) |
| `Wc.WcPlayground.InitiateDOM` | src/components/demo-components/demo-playground/wc-playground.tsx:67-88 | the query result becomes the target; with one the list is reloaded from its attributes, without one the list is untouched; nothing is applied |
| `Wc.WcPlayground.HandlePropsChange` | src/components/demo-components/demo-playground/wc-playground.tsx:159-166 | without a target list and element are untouched; with one the list becomes the emitted list and is applied |
| `Wc.WcPlayground.ApplyProps` | src/components/demo-components/demo-playground/wc-playground.tsx:167-175 | the target ends in the state `Applied` gives for the current list |
| `Wc.WcPlayground.CloseConfigPanel` | src/components/demo-components/demo-playground/wc-playground.tsx:148-150 | close sets the panel flag false |
| `Wc.WcPlayground.OpenConfigPanel` | src/components/demo-components/demo-playground/wc-playground.tsx:151-153 | open sets the panel flag true |

## Left out

- Textual `props` and `slots`: parsing them with `JSON5.parse` in `componentWillLoad` is a foreign library. The constructors take the structured list. The fatal error on malformed text is not modelled.
- The `innerHTML` assignment of the `code` prop in `initiateDOM`: it creates the markup that the target query then searches. The model takes the query's result as the parameter `found`, so it does not model how the element comes out of `code`.
- `slots`/`slotsArray` and the regex and `<template>` slot extraction in `initiateDOM`: regex and DOM work over HTML whose result is only logged.
- `render`, `renderPropControl` and the textarea's `JSON5.stringify(value, undefined, 2)`: presentation only.
- `copyUsage` and `wc-output.tsx`, with its `copied` flag reset by a 2000 ms timer: clipboard and timer UI.
- The `loaded` event, Stencil's re-render scheduling, `console` logging and the debug flag. `demo-playground`'s `@Watch` on `propsArray` is an explicit `PropsArrayChanged` call at the end of `UpdatePropValue`.
- `kebabCase` and `JSON5.stringify`: foreign, so they are uninterpreted parameters. A `stringify` that returns `undefined` rather than text or an exception is not modelled.
- Number values are integers. Fractional numbers, `NaN` (falsy in JavaScript) and their `${}` text are not modelled. An object or array value (`VObj`) carries an identity and the text its `toString` gives, because `toString` is foreign; values with the same `id` are meant to carry the same `text`, as one reference has one `toString`, but nothing in the datatype enforces it.
- The HTML DOM lower-cases attribute names in `removeAttribute` and `getAttribute`; this is not modelled. Attribute keys are compared exactly as given.
- A custom element's own property setters, for example reflection to attributes, are foreign: assigning a property changes only the property map.
- Dom.Element.RemoveAttribute: removing an attribute changes only the attribute map. On a real target, a reflected attribute would also reset the property of that name: a native element's `disabled` becomes `false`, and a Stencil prop is reset by `attributeChangedCallback`. So the "exactly as before" case of `Dom.AppliedProperties`, and `Dom.ApplyIdempotent`, hold for this element with decoupled maps, not for one that reflects attributes.
- `updatePropValue` mutates `p.value` in place, so the object is shared with the `props` input. The model builds new descriptor values, so that aliasing is not captured.
- The `options` of a descriptor are carried unchanged: they only feed the select controls' rendering.
