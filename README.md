# Vuetify colour directive and framework bootstrap, in Dafny

This project models two small pieces of Vuetify.

**The `v-color` directive** (`directives/colorable/index.ts`) paints an
element's background, text or border. The colour value is one of two kinds:

- A literal CSS colour is recognised by one of six prefixes: `#`, `var(--`,
  `rgb(`, `rgba(`, `hsl(` or `hsla(`. It is written into the element's inline
  style.
- A palette token such as `"red lighten-2"` is turned into class names. For
  text and border, the token is trimmed and split on single spaces into a
  colour name and an optional modifier. The result is `red--text` /
  `text--lighten-2`, or `red--border` / `border--lighten-2`. For the
  background, the token is added verbatim as one class.

The directive's `update` hook does nothing when the bound value has not
changed.

In the model, the element is a class `Element` with two fields: a style map
(property name to value) and a class set. Both are updated in place by the
methods `SetBackgroundColor`, `SetTextColor`, `SetBorderColor`, `UpdateColor`
and `Update`. Each method is proved against a pure function (`With…Color`,
`WithColor`) on an `ElementState` value. The properties are proved about those
functions.

`String.prototype.trim`, `split(' ')` and `join(' ')` are modelled in module
`JsString`. `trim` covers every code point ECMAScript counts as whitespace or a
line terminator.

**The `Vuetify` root object** (`framework.ts`) is a class with three fields:

- `framework`, the table from name to service;
- `installed`, the set of installed names;
- `preset`, the merged preset.

`mergePreset` merges the default preset with the user's `preset` option first,
and then with the rest of the user's options. `use` instantiates a service
under its `property` name unless that name is already installed. `init`
replaces the preset, calls `use` for every service in order, and then stores
the boolean `rtl` flag in the table without marking it installed.

The library's surroundings are passed in as an `Environment` value:

- the default preset;
- `mergeDeep`, as an arbitrary function value, so every property proved holds
  whatever it does;
- the ordered list of service constructors.

The directive does not resolve palette names to colour values, has no
per-side border flags and raises no error for an unknown name: a token only
becomes class names.

## Model

| member | source | states |
|---|---|---|
| `Colorable.IsCssColor` | packages/vuetify/src/directives/colorable/index.ts:4-6 | true exactly when the value is a string that starts with one of `#`, `var(--`, `rgb(`, `rgba(`, `hsl(`, `hsla(`; false for `undefined`, `false` and `""` |
| `Colorable.PatternIsPrefixes` | packages/vuetify/src/directives/colorable/index.ts:5 | the regular expression's alternatives (`#`, `var(--`, then `rgb` or `hsl` followed by `(` or `a(`) accept exactly the strings with one of the six prefixes |
| `JsString.Trim` | packages/vuetify/src/directives/colorable/index.ts:22 | the result has no whitespace at either end, is no longer than the input, and is empty exactly when the input is all whitespace |
| `JsString.TrimCharacterization` | packages/vuetify/src/directives/colorable/index.ts:22 | trimming any whitespace-padded string gives back its unpadded core |
| `JsString.Split` | packages/vuetify/src/directives/colorable/index.ts:22 | splitting on `' '` gives at least one piece; no piece holds a space; joining the pieces with single spaces gives back the input |
| `JsString.SplitJoin` | packages/vuetify/src/directives/colorable/index.ts:34 | splitting undoes joining for space-free pieces, so the split is the only such decomposition |
| `Colorable.ParseToken` | packages/vuetify/src/directives/colorable/index.ts:22 | the name has no space and is a prefix of the trimmed value; a modifier exists only when the trimmed value holds a space, and it has no space |
| `Colorable.ParseTokenOneWord` | packages/vuetify/src/directives/colorable/index.ts:22 | a value with no inner space, padded with whitespace, gives that word as the name and no modifier |
| `Colorable.ParseTokenFirstTwo` | packages/vuetify/src/directives/colorable/index.ts:34 | the name is the text before the first space; the modifier is the text between the first and second spaces; anything after the second space and the surrounding whitespace are ignored |
| `Colorable.ChannelClasses` | packages/vuetify/src/directives/colorable/index.ts:23-26 | a token always gives `<name>--<channel>`; it gives `<channel>--<modifier>` exactly when the modifier is present and non-empty; it gives nothing else |
| `Colorable.TokenClasses` | packages/vuetify/src/directives/colorable/index.ts:34-38 | a trimmed token `"name modifier ..."` with a non-empty modifier gives exactly the two classes `name--channel` and `channel--modifier` |
| `Colorable.WithBackgroundColor` | packages/vuetify/src/directives/colorable/index.ts:8-15 | a CSS colour sets `backgroundColor` and `borderColor` to exactly that string and changes no other style and no class; any other truthy value is added verbatim as one class and styles stay the same; a falsy value changes nothing |
| `Colorable.WithTextColor` | packages/vuetify/src/directives/colorable/index.ts:17-28 | a CSS colour sets `color` and `caretColor` and nothing else; a token adds exactly its `text` channel classes and leaves the styles alone; a falsy value changes nothing |
| `Colorable.WithBorderColor` | packages/vuetify/src/directives/colorable/index.ts:30-40 | a CSS colour sets only `borderColor`; a token adds exactly its `border` channel classes and leaves the styles alone; a falsy value changes nothing |
| `Colorable.WithColor` | packages/vuetify/src/directives/colorable/index.ts:42-46 | no class and no style property is ever removed; an argument other than `background`, `text` or `border` leaves the element unchanged |
| `Colorable.WithColorIdempotent` | packages/vuetify/src/directives/colorable/index.ts:56-62 | painting twice with the same binding equals painting once, so skipping an unchanged value loses nothing |
| `Colorable.Element.SetStyle` | packages/vuetify/src/directives/colorable/index.ts:10-11 | assigns one style property and leaves the other properties and the classes alone |
| `Colorable.Element.AddClass` | packages/vuetify/src/directives/colorable/index.ts:13 | adds one class name and leaves the styles alone |
| `Colorable.SetBackgroundColor` | packages/vuetify/src/directives/colorable/index.ts:8-15 | the element's new style and classes are `WithBackgroundColor` of the old ones |
| `Colorable.SetTextColor` | packages/vuetify/src/directives/colorable/index.ts:17-28 | the element's new style and classes are `WithTextColor` of the old ones |
| `Colorable.SetBorderColor` | packages/vuetify/src/directives/colorable/index.ts:30-40 | the element's new style and classes are `WithBorderColor` of the old ones |
| `Colorable.UpdateColor` | packages/vuetify/src/directives/colorable/index.ts:42-46 | the element's new style and classes are `WithColor` of the old ones |
| `Colorable.Update` | packages/vuetify/src/directives/colorable/index.ts:56-62 | when the value equals the old value, style and classes are untouched; otherwise the effect is that of `updateColor` |
| `Framework.RestOf` | packages/vuetify/src/framework.ts:72 | the rest of the user's options holds every key except `preset`, each with its value unchanged |
| `Framework.Vuetify.MergePresetEmpty` | packages/vuetify/src/framework.ts:72-74 | when merging with `undefined` or with an empty object leaves a preset alone, `new Vuetify({})` ends up with exactly the default preset |
| `Framework.Vuetify.MergePresetOptions` | packages/vuetify/src/framework.ts:72-74 | without a `preset` option, the default is merged with `undefined` and then with the user's whole object; with one, it is merged with that option's value and then with the user's object minus the `preset` key |
| `Framework.FirstWith` | packages/vuetify/src/framework.ts:56-60 | gives the position of the first listed service with a given `property`: that service has the property, and no earlier one does |
| `Framework.Vuetify.Use` | packages/vuetify/src/framework.ts:77-85 | keeps the invariant (every installed name has an entry, and every one except `rtl` holds a service) and the preset. With an installed name, the table is unchanged. With a new name, the name is added to `installed`, the table gains exactly that key holding a fresh instance built from this service and the current preset, and no other entry changes |
| `Framework.UseTwice` | packages/vuetify/src/framework.ts:80-84 | two calls of `use` with the same service leave the object exactly as one call does |
| `Framework.Vuetify.Init` | packages/vuetify/src/framework.ts:51-70 | requires every already-installed name of a listed service to hold a service object, since the back-reference is written into it; each back-reference target is shown to be a service. Keeps the invariant. The preset becomes the merged preset. Every listed service's property is added to `installed`, and `rtl` is added only if it was already there or some service has it. Already-installed services keep their earlier instance. New names get a fresh instance built from the new preset by the first listed service with that property. `framework.rtl` is `Boolean(preset.rtl)` |
| `Framework.Vuetify.constructor` | packages/vuetify/src/framework.ts:37-46 | starts from an empty table, an empty installed set and an empty preset, then runs `init`. Afterwards exactly the listed services are installed, each under its property with a fresh instance on the merged preset, and the table holds those names plus `rtl` |

## Left out

- `useVuetify`, `VuetifySymbol` and `warn` belong to Vue's dependency injection. `version` is a build-time constant. None is modelled.
- The back-reference `this.framework[service.property].framework = this.framework` is object aliasing into service objects. It is not modelled. `Init` only asserts that the table entry it writes through holds a service object.
- `Framework.Vuetify.Init`: the case where that entry holds the `rtl` boolean throws a `TypeError` in the source. This happens on a second `init` when some service is registered under `rtl`: the first `init` overwrote its entry with the flag. The model excludes that case by a precondition instead of modelling the throw.
- The internals of `mergeDeep` and of the default preset are not part of this model. Both are supplied as an `Environment`. This leaves out the merge's right-biased, recursive behaviour and the fact that it mutates its first argument.
- The service constructors are not part of this model. A service is modelled by its export name and `property`. An instance records the service and the preset it was built from. A constructor that throws, and so aborts `init` without rollback, is not modelled.
- The service list is a given sequence. The order in which `for...in` enumerates the services module is taken as that sequence's order.
- The Vue directive plumbing (`VNode`, the `bind` hook `directive`, the empty `unbind`, the `Colorable` export object) only forwards to `updateColor` or does nothing. It is not modelled.
- The directive's value is modelled as `string | false | undefined`, its declared type. Other JavaScript values a template could bind (numbers, `null`, objects) are not modelled. For objects, `===` would compare identity.
- The DOM is modelled as a plain style map and class set. Two DOM checks are left out. `CSSStyleDeclaration` ignores values it cannot parse. `DOMTokenList.add` throws on an empty token or one containing whitespace, so a background token such as `"red lighten-2"` would raise there.
- Numbers in presets are integers. Floating point, `NaN` and `-0` (all falsy or special under `Boolean`) are not modelled.
- Property keys with special meaning on JavaScript objects (such as `__proto__`) are treated as ordinary keys.
