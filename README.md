# PresetManager — a verified model of the preset registry

`PresetManager` (presets.js) is the in-browser registry of named presets.
A preset is a configuration made of a name, a schema version and a sequence of sets. Each set holds groups of word packs.
The registry keeps three fields and updates them in place:
- a map from preset name to preset;
- an ordered list of protected "default" names;
- an ordered list of change listeners.

`set` and `remove` refuse to touch a default name. `set` and `setDefault` refuse an absent or empty name.
Every successful `set` or `remove` calls each listener once, in the order the listeners were registered.

The project has three modules:

- `Schema` (schema.dfy): the Preset / Set / Group shape of the `SCHEMA` constant as datatypes. `HasName` is the truthiness test `!obj.name`.
- `Registry` (registry.dfy): the registry as a state machine on values.
  - One step function per mutation (`Set`, `SetDefault`, `Remove`, `OnChange`) says whether the call throws, what the new state is and which listener calls it makes.
  - `Broadcast` is the `forEach` over the listeners.
  - The lemmas state the promises: failures change nothing, frame conditions, round trip, no duplicate defaults, listener order.
  - `Run` applies any sequence of operations. Lemmas over `Run` show that default presets stay stored and unaltered forever.
- `Presets` (preset_manager.dfy): the class `PresetManager` with the three fields and a ghost `notifications` log of every listener call.
  - Each log entry records the registry state that listener was handed.
  - Each mutating method is proved to move the object exactly as the matching `Registry` step function does.
  - The reads (`Get`, `GetAll`, `GetDefaultNames`, `IsDefault`) change nothing and state what they return.

A second `setDefault` for the same name throws, because `set` rejects a name already in the defaults (presets.js:18, 24).
Nothing is appended, and `Registry.SetDefaultTwiceFails` proves it.
So the defaults list never holds a duplicate: `Distinct` is part of `Registry.Valid`, which `Registry.SetDefault` keeps and `Registry.RunProtectsDefaults` carries over any sequence of operations.

## Model

| member | source | states |
|---|---|---|
| `Schema.HasName` | presets.js:17 | the `!obj.name` guard: a name passes exactly when it is present and not the empty string |
| `Registry.Lookup` | presets.js:12-14 | the intended `get`: some preset exactly when the name is a key, and then the stored one |
| `Registry.IsDefault` | presets.js:42-44 | `isDefault` is membership in the defaults list; in a valid registry a default name is always stored |
| `Registry.Initial` | presets.js:7-9 | a new registry holds the loaded map, no defaults and no listeners, and satisfies the invariant |
| `Registry.Broadcast` | presets.js:20-31 | the listener calls are exactly one per registered listener, in registration order, each handed the same registry state |
| `Registry.Set` | presets.js:16-21 | succeeds exactly when the name is present, non-empty and not a default. An absent or empty name throws the missing-name error; a default name throws the protected-name error; a failure leaves the state unchanged with no listener call. On success `get(name)` returns the preset, every other name looks up as before, the defaults and listeners are unchanged, and every listener is called with the updated map. The invariant is kept |
| `Registry.SetDefault` | presets.js:23-26 | succeeds exactly when `set` would; a failure throws `set`'s error and changes nothing. On success the preset is stored, the name is appended at the end of the defaults, and `isDefault(name)` holds. The listeners were called with the updated map but with the defaults from before the append. The invariant (defaults stored and distinct) is kept |
| `Registry.Remove` | presets.js:28-32 | succeeds exactly when the name is not a default; otherwise it throws the protected-name error and changes nothing. On success the name is absent, every other entry is unchanged, defaults and listeners are unchanged, and every listener is called |
| `Registry.OnChange` | presets.js:46-48 | the listener is appended after all earlier ones; map and defaults are unchanged |
| `Registry.SetThenGet` | presets.js:12-19 | round trip: after a successful `set(p)`, `get(p.name)` returns `p` |
| `Registry.RemoveAbsent` | presets.js:28-32 | removing a stored-nowhere, non-default name succeeds, leaves the whole state equal to before, and still calls every listener |
| `Registry.SetDefaultTwiceFails` | presets.js:18-25 | after a successful `setDefault`, a second one for the same name throws the protected-name error and leaves the state unchanged |
| `Registry.ListenersSeeUpdatedMap` | presets.js:19-25 | every listener called by `set` or `setDefault` finds the new preset already stored; under `setDefault` it finds the name not yet a default |
| `Registry.OnChangeThenSetCallsLast` | presets.js:46-48 | a newly registered listener is called last by the next successful `set`, after all earlier listeners in their order |
| `Registry.Apply` | presets.js:16-48 | every mutation keeps the invariant, only appends to the defaults and listeners, and leaves the entry of every default name as it was |
| `Registry.RunProtectsDefaults` | presets.js:16-32 | over any sequence of operations the invariant holds, the defaults and listeners only grow at the end, and the preset stored under a default name never changes |
| `Registry.SetDefaultIsPermanent` | presets.js:18-29 | once `setDefault(p)` succeeds, after any later operations `get(p.name)` still returns `p` and the name is still a default |
| `Registry.GetAsWrittenThrowsOnInheritedName` | presets.js:13 | as written, `get("toString")` on an empty registry throws, while the intended lookup returns null |
| `Registry.GetAsWritten` | presets.js:13 | `get` as written: it throws exactly for a non-stored name inherited as a method from Object.prototype, returns an empty object exactly for a non-stored `"__proto__"`, and otherwise returns some preset exactly when the name is stored |
| `Registry.GetAsWrittenReturnsPrototypeCopy` | presets.js:13 | as written, `get("__proto__")` on an empty registry returns an empty object, while the intended lookup returns null |
| `Registry.GetAsWrittenAgrees` | presets.js:13 | for every stored name and every name neither inherited from Object.prototype nor `"__proto__"`, `get` as written returns what the intended lookup returns |
| `Presets.PresetManager.constructor` | presets.js:2-10 | the new object holds the loaded map with no defaults, no listeners and no notifications, and satisfies the invariant |
| `Presets.PresetManager.Get` | presets.js:12-14 | returns the stored preset exactly when the name is a key, and None otherwise; changes nothing |
| `Presets.PresetManager.Set` | presets.js:16-21 | moves the object as `Registry.Set` and appends exactly its listener calls to the log; a failed call leaves every field unchanged |
| `Presets.PresetManager.SetDefault` | presets.js:23-26 | moves the object as `Registry.SetDefault`; a failed call leaves every field unchanged and appends nothing to the defaults |
| `Presets.PresetManager.Remove` | presets.js:28-32 | moves the object as `Registry.Remove`; a failed call leaves every field unchanged |
| `Presets.PresetManager.GetAll` | presets.js:34-36 | returns the whole map, which holds every default name; changes nothing |
| `Presets.PresetManager.GetDefaultNames` | presets.js:38-40 | returns the default names in registration order, without duplicates, each of them stored |
| `Presets.PresetManager.IsDefault` | presets.js:42-44 | true exactly when the name is in the defaults list, and then the name is stored |
| `Presets.PresetManager.OnChange` | presets.js:46-48 | appends the listener at the end; nothing else changes and no listener is called |
| `Presets.PresetManager.Notify` | presets.js:20-31 | the `forEach` loop (run by `set` at line 20 and by `remove` at line 31) appends one call per listener, in registration order, each handed the current registry state |

## Left out

- Persistence: `syncToLocalStorage` is not part of this model. Local storage is I/O. The loaded map is a constructor parameter, and writes are not modelled.
- The singleton (`PresetManager.instance`) and the `window.presets` global: JavaScript global-object plumbing. The model constructs one object.
- Listener bodies: they are arbitrary user code. A listener is an identity, and a call is recorded in the ghost log with the registry state it is handed. Re-entrant calls from a listener into the registry are not modelled. That includes an `onChange` during a broadcast: `forEach` fixes the number of calls when it starts, so a listener added that way is not called in that broadcast.
- JSON deep copies: datatypes are values in Dafny, so callers can never alias stored state. Fields that JSON would drop or convert (functions, `undefined`, `NaN`) are not modelled.
- `SCHEMA` validation: the registry only checks the name. `schema_version`, `players` and `num_words` are JavaScript numbers, modelled as integers (floating point is not modelled).
- Names other than strings: a name is an optional string. An absent name and `""` are the falsy cases. Non-string names (numbers, `null` in `remove`) and their conversion to property keys are not modelled.
- The key `"__proto__"` in `set` and `remove`: assigning to it sets the prototype of a plain object instead of storing an entry. The model treats it as an ordinary key there. Its effect on `get` is covered by `Registry.GetAsWritten`.
- That every key equals its preset's `name` is not an invariant here: the loaded map may break it and the code never checks it. `Registry.Set` proves that a successful `set` stores the preset under its own name.

## Findings

| source | as written | input that shows it | evidently intended | confidence | as-written member | corrected member |
|---|---|---|---|---|---|---|
| presets.js:13 | `name in this.presets` also finds members a plain object inherits from Object.prototype. For those, the value is a function, `JSON.stringify` returns undefined and `JSON.parse(undefined)` throws a SyntaxError. For `"__proto__"` the JSON copy of Object.prototype, an empty object, is returned instead of null | `get("toString")` (throws) or `get("__proto__")` (returns `{}`) on an empty registry | return null for any name that is not a stored preset | medium (depends on the persistence helper returning an ordinary object); not executed | `Registry.GetAsWrittenThrowsOnInheritedName` | `Presets.PresetManager.Get` |
