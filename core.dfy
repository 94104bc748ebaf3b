/**
 * The data-tree core: `listenFor`, which wraps a reducer so that it merges
 * the payload of a satisfaction action addressed to its key into the
 * `entities` field of its state, and `setupTree`, which dispatches one
 * satisfaction action per declared dependency and then the original action.
 */
module Core {
  import opened Js

  /**
   * `DATA_TREE_ID`: the registered symbol whose presence as an own property
   * marks a satisfaction action. `Action.marked` stands for
   * `action.hasOwnProperty(DataTreeId)`.
   */
  const DataTreeId: Value := RegisteredSymbol("dataTree.action")

  /** The prefix of every satisfaction address. */
  const Namespace := "dataTree."

  /** The state field a listener merges payloads into. */
  const EntitiesField := "entities"

  const KeyNotStringMessage := "The dependency key must be a string"

  /** A reducer's state: a plain object. */
  type State = map<string, Value>

  /**
   * An action object: whether `DataTreeId` is one of its own properties,
   * its `type`, and its `payload` (`undefined` when it has none).
   */
  datatype Action = Action(marked: bool, actionType: Value, payload: Value)

  type Reducer = (State, Action) -> State

  /** The address of the satisfaction actions for `key`: `Symbol.for("dataTree." + key)`. */
  function Address(key: string): Value {
    RegisteredSymbol(Namespace + key)
  }

  /** A satisfaction action for `key`, marked and addressed to it. */
  function Satisfaction(key: string, payload: Value): Action {
    Action(true, Address(key), payload)
  }

  // ---------------------------------------------------------------------------
  // listenFor

  /** The combinator `listenFor(key)` returns once its key has passed the check. */
  datatype Listener = Listener(key: string) {

    /**
     * `listenFor(key)(reducer)(state, action)`: a marked action whose type
     * resolves to `dataTree.<key>` is merged into `entities`, any other action
     * goes to `reducer`; a marked action whose type is not a symbol makes
     * `Symbol.keyFor` throw.
     */
    function Apply(reducer: Reducer, state: State, action: Action): (r: Result<State>)
      ensures !action.marked ==> r == Success(reducer(state, action))
      ensures action.marked && action.actionType == Address(key) ==>
        r == Success(MergeEntities(state, action.payload))
      ensures action.marked && IsSymbol(action.actionType) && action.actionType != Address(key) ==>
        r == Success(reducer(state, action))
      ensures action.marked && !IsSymbol(action.actionType) ==>
        r == Failure(KeyForTypeError(action.actionType))
    {
      if !action.marked then Success(reducer(state, action))
      else
        match KeyFor(action.actionType)
        case Failure(e) => Failure(e)
        case Success(k) =>
          assert k.None? ==> RegistryName(k)[0] != (Namespace + key)[0];
          if RegistryName(k) == Namespace + key then Success(MergeEntities(state, action.payload))
          else Success(reducer(state, action))
    }
  }

  /** `listenFor(key)`: only a string key is accepted. */
  function ListenFor(key: Value): (r: Result<Listener>)
    ensures r.Success? <==> key.Str?
    ensures r.Success? ==> r.value.key == key.s
    ensures r.Failure? ==> r.error == TypeError(KeyNotStringMessage)
  {
    if key.Str? then Success(Listener(key.s)) else Failure(TypeError(KeyNotStringMessage))
  }

  /**
   * `{...state, entities: {...state.entities, ...payload}}`: the payload's
   * fields override those already in `entities`, and every other field of the
   * state is kept.
   */
  function MergeEntities(state: State, payload: Value): (r: State)
    ensures r.Keys == state.Keys + {EntitiesField}
    ensures forall f :: f in state && f != EntitiesField ==> r[f] == state[f]
    ensures r[EntitiesField].Obj?
    ensures r[EntitiesField].fields.Keys == Spread(Get(state, EntitiesField)).Keys + Spread(payload).Keys
    ensures forall f :: f in Spread(payload) ==> r[EntitiesField].fields[f] == Spread(payload)[f]
    ensures forall f :: f in Spread(Get(state, EntitiesField)) && f !in Spread(payload) ==>
      r[EntitiesField].fields[f] == Spread(Get(state, EntitiesField))[f]
  {
    state[EntitiesField := Obj(Spread(Get(state, EntitiesField)) + Spread(payload))]
  }

  // ---------------------------------------------------------------------------
  // setupTree

  /**
   * A value of the dependency map: a user function, called with the
   * original action, or any other value; a string is a dot path into the action.
   */
  datatype Dep = Fn(f: Action -> Value) | Data(v: Value)

  /** The dependency map, in `Object.keys` order. */
  type Deps = seq<(string, Dep)>

  /** `dotCaseToObjectProperty(action, path)`: reads the value a dot path selects. */
  type Resolver = (Action, string) -> Value

  /** `typeof` of a dependency value. */
  function DepTypeOf(d: Dep): string {
    if d.Fn? then "function" else TypeOf(d.v)
  }

  /** A function or a string: the only dependency values `setupTree` accepts. */
  predicate IsExtractor(d: Dep) {
    d.Fn? || d.v.Str?
  }

  predicate AllExtractors(deps: Deps) {
    forall i :: 0 <= i < |deps| ==> IsExtractor(deps[i].1)
  }

  /** The TypeError `setupTree` throws for the dependency `key` with the non-extractor value `d`. */
  function InvalidDependency(key: string, d: Dep): Error {
    TypeError("Dependent reducer values must be either a function or a string, but got "
              + DepTypeOf(d) + " for " + key)
  }

  /**
   * The validation pass: it fails on the first key, in order, whose value is
   * not an extractor, naming that key and its type, and passes when there is none.
   */
  function Validate(deps: Deps): (o: Outcome)
    ensures o.Pass? <==> AllExtractors(deps)
    ensures o.Fail? ==> exists i :: (0 <= i < |deps| && !IsExtractor(deps[i].1)
      && AllExtractors(deps[..i]) && o.error == InvalidDependency(deps[i].0, deps[i].1))
  {
    if |deps| == 0 then Pass
    else if !IsExtractor(deps[0].1) then
      assert AllExtractors(deps[..0]);
      Fail(InvalidDependency(deps[0].0, deps[0].1))
    else
      var o := Validate(deps[1..]);
      if o.Fail? then
        var i :| 0 <= i < |deps[1..]| && !IsExtractor(deps[1..][i].1)
          && AllExtractors(deps[1..][..i]) && o.error == InvalidDependency(deps[1..][i].0, deps[1..][i].1);
        assert deps[..i + 1] == [deps[0]] + deps[1..][..i];
        o
      else o
  }

  /** The payload of the satisfaction action for one dependency. */
  function Extract(d: Dep, action: Action, resolve: Resolver): Value
    requires IsExtractor(d)
  {
    if d.Fn? then d.f(action) else resolve(action, d.v.s)
  }

  /** The satisfaction actions the dispatch pass sends, in key order. */
  function DepActions(action: Action, deps: Deps, resolve: Resolver): (r: seq<Action>)
    requires AllExtractors(deps)
    ensures |r| == |deps|
    ensures forall i :: 0 <= i < |deps| ==>
      r[i].marked && r[i].actionType == Address(deps[i].0) && r[i].payload == Extract(deps[i].1, action, resolve)
  {
    if deps == [] then []
    else
      var n := |deps| - 1;
      DepActions(action, deps[..n], resolve) + [Satisfaction(deps[n].0, Extract(deps[n].1, action, resolve))]
  }

  /**
   * What `setupTree(store)(action, deps)` sends to `store.dispatch`, in order:
   * one satisfaction action per key and then the original action; or the
   * TypeError it throws, before sending anything.
   */
  function DispatchTrace(action: Action, deps: Deps, resolve: Resolver): (t: Result<seq<Action>>)
    ensures t.Success? <==> AllExtractors(deps)
    ensures t.Failure? ==> Validate(deps) == Fail(t.error)
    ensures t.Success? ==> |t.value| == |deps| + 1 && t.value[|deps|] == action
    ensures t.Success? ==> forall i :: 0 <= i < |deps| ==>
      t.value[i] == Satisfaction(deps[i].0, Extract(deps[i].1, action, resolve))
  {
    match Validate(deps)
    case Fail(e) => Failure(e)
    case Pass => Success(DepActions(action, deps, resolve) + [action])
  }

  /** The first key without an extractor is the one `Validate` reports. */
  lemma {:induction false} ValidateFindsFirst(deps: Deps, i: nat)
    requires i < |deps| && AllExtractors(deps[..i]) && !IsExtractor(deps[i].1)
    ensures Validate(deps) == Fail(InvalidDependency(deps[i].0, deps[i].1))
  {
    if i > 0 {
      assert IsExtractor(deps[..i][0].1);
      assert deps[1..][..i - 1] == deps[..i][1..];
      ValidateFindsFirst(deps[1..], i - 1);
    }
  }

  /** The store: `dispatch` appends the action to the log of dispatched actions. */
  class Store {
    var log: seq<Action>

    constructor ()
      ensures log == []
    {
      log := [];
    }

    method Dispatch(a: Action)
      modifies this
      ensures log == old(log) + [a]
    {
      log := log + [a];
    }
  }

  /**
   * `setupTree(store)(action, deps)`: checks every dependency value, then
   * dispatches the satisfaction actions in key order and the original action,
   * and returns the original action.
   */
  method SetupTree(store: Store, action: Action, deps: Deps, resolve: Resolver) returns (r: Result<Action>)
    modifies store
    ensures DispatchTrace(action, deps, resolve).Failure? ==>
      r == Failure(DispatchTrace(action, deps, resolve).error) && store.log == old(store.log)
    ensures DispatchTrace(action, deps, resolve).Success? ==>
      r == Success(action) && store.log == old(store.log) + DispatchTrace(action, deps, resolve).value
  {
    // Validation pass: throws at the first value that is neither a function nor a string.
    var i := 0;
    while i < |deps|
      invariant 0 <= i <= |deps|
      invariant forall j :: 0 <= j < i ==> IsExtractor(deps[j].1)
    {
      var (key, dep) := deps[i];
      if !IsExtractor(dep) {
        ValidateFindsFirst(deps, i);
        return Failure(InvalidDependency(key, dep));
      }
      i := i + 1;
    }
    ghost var trace := DepActions(action, deps, resolve);
    assert DispatchTrace(action, deps, resolve) == Success(trace + [action]);

    // Dispatch pass: one satisfaction action per key, in order.
    i := 0;
    while i < |deps|
      invariant 0 <= i <= |deps|
      invariant store.log == old(store.log) + trace[..i]
    {
      var (key, dep) := deps[i];
      var payload := if dep.Fn? then dep.f(action) else resolve(action, dep.v.s);
      assert trace[i] == Satisfaction(key, payload);
      store.Dispatch(Satisfaction(key, payload));
      assert trace[..i + 1] == trace[..i] + [trace[i]];
      i := i + 1;
    }
    assert trace[..|deps|] == trace;

    store.Dispatch(action);
    return Success(action);
  }
}
