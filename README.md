# redux-data-dispatch core, modelled in Dafny

This project models `src/core/index.js` of redux-data-dispatch. That file is the
dependency layer between redux reducers:

- `setupTree(store)(action, deps)` takes a map from listener keys to extractors.
  An extractor is a function of the action, or a dot path into it. The call first
  checks every value of the map. It then dispatches one *satisfaction action* per
  key, in key order. Each one is marked with the own property `DATA_TREE_ID`,
  has type `Symbol.for("dataTree." + key)`, and carries the extracted value as
  its payload. After those, it dispatches the original action and returns it.
- `listenFor(key)(reducer)` wraps a reducer. A marked action whose type resolves
  to `dataTree.<key>` is merged into the state's `entities` field. Every other
  action goes to `reducer` unchanged.

Files:

- `js.dfy` (module `Js`): the JavaScript the core relies on. It has values, `typeof`,
  `Symbol.keyFor` and `Symbol.for` modelled as one registry of names, and object
  spread `{...v}`. Spreading an object copies its fields. Spreading an array
  copies its elements under decimal index names. Spreading a string copies its
  characters the same way, where a character is a Unicode scalar value (see
  "Left out"). Spreading anything else copies nothing. Exceptions are `Failure` results.
- `core.dfy` (module `Core`): actions, `listenFor` (as `ListenFor` and
  `Listener.Apply`), the entities merge, and the dependency map. It also has the
  validation and dispatch passes of `setupTree`, both as specification functions
  (`Validate`, `DepActions`, `DispatchTrace`) and as the imperative method
  `SetupTree`. That method runs over a `Store` class whose `dispatch` appends to
  a `log`.
- `properties.dfy` (module `CoreProperties`): lemmas that relate calls to each
  other, such as idempotence, or `setupTree` to `listenFor`. It also holds the
  scenarios of `test/unit/core.spec.js`.

Behaviours of the code worth stating plainly:

- A satisfaction action does not replace `entities`. The code
  (src/core/index.js:21-24) shallow-merges the payload into the existing
  `entities`, and `MergeEntities` models that merge.
- For the state `{ _x: 5 }` with no `entities`, the result is
  `{ _x: 5, entities: payload }` (test/unit/core.spec.js:86-89). The payload's
  own `entities` field is not unwrapped. `MergeIntoStateWithoutEntities`
  proves this.
- The key check (src/core/index.js:11) tests only `typeof key === 'string'`.
  The empty key is accepted, so `ListenFor(Str(""))` succeeds.

Modelling decisions:

- A JS symbol is a `Value`. `RegisteredSymbol(name)` is `Symbol.for(name)`.
  `UniqueSymbol(id)` is a symbol outside the registry.
- The match on src/core/index.js:17 is computed as the source computes it.
  `Symbol.keyFor` gives a name, or `undefined` for an unregistered symbol. It
  throws for a non-symbol. `Symbol.for` turns `undefined` into the name
  `"undefined"`.
- A marked action whose type is not a symbol is modelled as the error result
  `Failure(KeyForTypeError(type))`, not excluded by a precondition.
- An action is `Action(marked, actionType, payload)`. `marked` stands for
  `action.hasOwnProperty(DATA_TREE_ID)`, with `DATA_TREE_ID` the constant
  `Core.DataTreeId`. The property's value does not matter to `hasOwnProperty`.
- `dotCaseToObjectProperty`, user extractor functions and the wrapped reducer
  are parameters of the members that call them (`Resolver`,
  `Action -> Value`, `Reducer`). Nothing is assumed about them.
- The dependency map is a sequence of `(key, value)` pairs in `Object.keys` order.

## Model

| member | source | states |
|---|---|---|
| Core.ListenFor | src/core/index.js:10-12 | the combinator is built exactly when the key is a string, and keeps that key; any other key gives a TypeError with the source's message, before a reducer or action is involved |
| Core.Listener.Apply | src/core/index.js:13-28 | an unmarked action returns exactly `reducer(state, action)`; a marked action addressed to `Symbol.for("dataTree." + key)` gives the entities merge and does not call the reducer; a marked action with any other symbol type (registered under another name, or unregistered) goes to the reducer; a marked action with a non-symbol type throws the `Symbol.keyFor` TypeError |
| Core.MergeEntities | src/core/index.js:19-25 | the new state has the old fields plus `entities`; every field other than `entities` is unchanged; `entities` becomes an object whose fields are those of the old `entities` and of the payload, with the payload winning on shared names |
| Js.TypeOfClassifies | src/core/index.js:40-41 | `typeof` gives "string" exactly for strings, "symbol" exactly for symbols, "object" exactly for `null`, arrays and plain objects, and never "function" for a non-function value |
| Js.Get | src/core/index.js:22 | the property read `state.entities` gives the field's value when present and `undefined` when absent |
| Js.KeyFor | src/core/index.js:17 | `Symbol.keyFor` fails exactly on non-symbols, names exactly the registered symbols, and gives a registered symbol's own name |
| Js.Spread | src/core/index.js:20-24 | object spread copies an object's fields, an array's elements or a string's Unicode scalar values under their index names, and nothing from any other value (not UTF-16 code units: see "Left out") |
| Js.IndexFields | src/core/index.js:20-24 | the index-keyed fields of an array-like value have exactly the names of its indices, and each name holds the element at that index |
| Js.IndexOfKey | src/core/index.js:20-24 | every name in the index-name set of an array-like value is the decimal name of one of its indices |
| Js.NatToStringInjective | src/core/index.js:20-24 | distinct indices have distinct decimal names, so no spread element overwrites another |
| Core.Validate | src/core/index.js:39-43 | validation passes exactly when every value is a function or a string; when it fails, the error is for a key whose value is neither and all of whose predecessors are valid, and it names that key and its `typeof` |
| Core.ValidateFindsFirst | src/core/index.js:39-43 | when the first invalid value is at index i, the error reported is the one for key i |
| Core.DepActions | src/core/index.js:45-54 | one satisfaction action per key, in key order; the i-th is marked, addressed to `dataTree.<key_i>`, and carries extractor i applied to the action (the function's result, or the dot path resolved against the action) |
| Core.DispatchTrace | src/core/index.js:38-58 | the dispatch sequence exists exactly when every value is valid; otherwise the error is validation's; it has \|deps\|+1 actions, the i-th the satisfaction action for key i and the last the original action |
| Core.Store.Dispatch | src/core/index.js:53-56 | dispatch appends the action to the store's log and changes nothing else |
| Core.SetupTree | src/core/index.js:37-60 | on an invalid value, it returns validation's TypeError and the log is unchanged; otherwise it returns the original action, and the log grows by exactly the dispatch trace |
| CoreProperties.ExtractorIsFunctionOrString | src/core/index.js:40 | the model's extractor test agrees with the source's `typeof` test for "function" and "string" |
| CoreProperties.AddressInjective | src/core/index.js:17 | two keys share an address exactly when they are equal, so no listener takes another key's satisfaction action |
| CoreProperties.MergeEntitiesIdempotent | src/core/index.js:19-25 | merging the same payload twice gives the state of merging it once |
| CoreProperties.ApplyIdempotent | src/core/index.js:15-26 | a listener that receives its own satisfaction action a second time keeps the state it had after the first |
| CoreProperties.DispatchedReachesItsListener | src/core/index.js:46-53 | the i-th action `setupTree` dispatches is merged by the listener for key i, with extractor i's value as payload |
| CoreProperties.DispatchedIgnoredByOtherListeners | src/core/index.js:46-53 | a listener for any other key passes the i-th dispatched action to its own reducer |
| CoreProperties.BadValueAfterValidKeys | src/core/index.js:39-45 | an invalid value after any number of valid keys fails the whole call with the error naming that value's key, before any dispatch |
| CoreProperties.SameValueExtractorsInterchangeable | src/core/index.js:49-51 | in any dependency map, replacing one key's extractor by another that selects the same value (a function for a dot path, say) leaves the whole dispatch trace unchanged, the error case included |
| CoreProperties.NonStringKeysRejected | test/unit/core.spec.js:55-66 | `listenFor` with a number, a boolean, an object or an unregistered symbol throws the key TypeError |
| CoreProperties.MergeIntoStateWithoutEntities | test/unit/core.spec.js:79-90 | `{ _x: 5 }` with a satisfaction action for "key" and an object payload becomes `{ _x: 5, entities: payload }` |
| CoreProperties.NumberDependencyRejected | test/unit/core.spec.js:101-113 | `deps: { user: 5 }` fails with "... but got number for user" |
| CoreProperties.StringDependencyTrace | test/unit/core.spec.js:129-148 | `deps: { user: 'payload.entities.users' }` dispatches the selected users for "user", then the original action |
| CoreProperties.OriginalActionLast | test/unit/core.spec.js:192-206 | running `SetupTree` on a fresh store returns the original action and leaves it last in the log, after the "user" satisfaction action |
| CoreProperties.NothingDispatchedOnBadValue | test/unit/core.spec.js:101-113 | running `SetupTree` on a fresh store with a valid key followed by `user: 5` returns the TypeError and leaves the log empty |

## Left out

- Js.Spread: a `string` is a sequence of Unicode scalar values, so spreading a string splits it by scalar value, where JavaScript splits it by UTF-16 code unit. A character outside the Basic Multilingual Plane gives one field here and two in JavaScript, and JavaScript strings with lone surrogates cannot be represented at all.
- `Deps` stands for the result of `Object.keys(deps)` paired with the reads `deps[key]`. Three behaviours of that step are outside the model: the default `deps = {}` for a missing map (src/core/index.js:38), the TypeError `Object.keys` throws for `null` (lines 39 and 45; an explicit `undefined` is replaced by the default first), index enumeration of a string or array `deps`, and a number or boolean `deps`, which has no keys, so nothing is validated or dispatched for it beyond the original action.
- Symbol-keyed own properties of states and payloads are not modelled. `{...state}` and `{...action.payload}` (src/core/index.js:20, 23) copy them too, but `Obj` and `State` have string keys only.
- An action's own fields other than `DATA_TREE_ID`, `type` and `payload` (such as `meta` in the unit tests) are not modelled. The extractors, `dotCaseToObjectProperty`, the wrapped reducer and the store's log see only those three fields. "Returns the original action" compares only them.

- `dotCaseToObjectProperty` (imported from `../utils`, src/core/index.js:1) is not part of this model. It is the `Resolver` parameter, and nothing is assumed about how it treats missing path segments.
- User extractor functions and the wrapped reducer are total functions passed in. A source extractor or reducer that throws, or that dispatches from inside, is not modelled. So `SetupTree` never stops midway through the dispatch pass.
- `store.dispatch` is one statement: it appends to a log. The redux store, its middleware chain and the value `dispatch` returns are not modelled. The same goes for `redux-mock-store` and the default export `dataDispatch` of `src/index`, which reads `action.meta.deps` (its rejection of non-object `deps`, test/unit/core.spec.js:115-127, is not modelled).
- A state that is not an object (such as `undefined`) is not modelled. `State` is a map of fields. In the source, `state.entities` on `undefined` would throw when a matching action arrives.
- Functions as candidate keys of `listenFor`, and functions stored inside payloads, are not values of `Value`. Numbers are unbounded integers, so floating point is left out.
- `Object.keys` ordering rules (integer-like keys first) are not modelled. The dependency map is given as an ordered sequence. Key order in the state objects is not modelled either, since maps have no order.
- The message text of the TypeError that `Symbol.keyFor` throws comes from the engine. The model keeps only its kind and the offending value (`KeyForTypeError`).
- Object identity is not modelled. "Returns the original action" is value equality.
- The validation pass reads each value once and the dispatch pass reads it again. A getter that changes a value between the two passes is not modelled.
