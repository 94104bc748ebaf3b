/**
 * Properties of the data-tree core that relate several calls, or the two
 * halves of the core to each other, and the scenarios its unit tests describe.
 */
module CoreProperties {
  import opened Js
  import opened Core

  /** The structural test `IsExtractor` is the source's `typeof` test. */
  lemma ExtractorIsFunctionOrString(d: Dep)
    ensures IsExtractor(d) <==> DepTypeOf(d) == "function" || DepTypeOf(d) == "string"
  {
  }

  // ---------------------------------------------------------------------------
  // listenFor

  /** Distinct keys have distinct addresses, so a listener never takes another key's action. */
  lemma AddressInjective(k1: string, k2: string)
    ensures Address(k1) == Address(k2) <==> k1 == k2
  {
    if Address(k1) == Address(k2) {
      assert k1 == (Namespace + k1)[|Namespace|..];
      assert k2 == (Namespace + k2)[|Namespace|..];
    }
  }

  /** Merging the same payload a second time changes nothing. */
  lemma {:induction false} MergeEntitiesIdempotent(state: State, payload: Value)
    ensures MergeEntities(MergeEntities(state, payload), payload) == MergeEntities(state, payload)
  {
    var once := MergeEntities(state, payload);
    var e := Spread(Get(state, EntitiesField));
    var p := Spread(payload);
    assert once[EntitiesField] == Obj(e + p);
    assert Spread(Get(once, EntitiesField)) == e + p;
    assert (e + p) + p == e + p;
    assert once[EntitiesField := Obj(e + p)] == once;
  }

  /** A listener that receives its own satisfaction action twice ends where it did after the first. */
  lemma {:induction false} ApplyIdempotent(l: Listener, reducer: Reducer, state: State, payload: Value)
    ensures l.Apply(reducer, state, Satisfaction(l.key, payload)).Success?
    ensures var once := l.Apply(reducer, state, Satisfaction(l.key, payload)).value;
            l.Apply(reducer, once, Satisfaction(l.key, payload)) == Success(once)
  {
    MergeEntitiesIdempotent(state, payload);
  }

  // ---------------------------------------------------------------------------
  // setupTree and listenFor together

  /** The i-th action setupTree dispatches is merged by the listener on the i-th key. */
  lemma DispatchedReachesItsListener(action: Action, deps: Deps, resolve: Resolver, i: nat,
                                     reducer: Reducer, state: State)
    requires AllExtractors(deps) && i < |deps|
    ensures Listener(deps[i].0).Apply(reducer, state, DispatchTrace(action, deps, resolve).value[i])
         == Success(MergeEntities(state, Extract(deps[i].1, action, resolve)))
  {
  }

  /** Every other listener passes the i-th dispatched action to its own reducer. */
  lemma DispatchedIgnoredByOtherListeners(action: Action, deps: Deps, resolve: Resolver, i: nat,
                                          key: string, reducer: Reducer, state: State)
    requires AllExtractors(deps) && i < |deps| && key != deps[i].0
    ensures var a := DispatchTrace(action, deps, resolve).value[i];
            Listener(key).Apply(reducer, state, a) == Success(reducer(state, a))
  {
    AddressInjective(key, deps[i].0);
  }

  /** A bad value fails the whole call even after valid keys, and the error names it. */
  lemma {:induction false} BadValueAfterValidKeys(action: Action, valid: Deps, key: string, d: Dep,
                                                  rest: Deps, resolve: Resolver)
    requires AllExtractors(valid) && !IsExtractor(d)
    ensures DispatchTrace(action, valid + [(key, d)] + rest, resolve) == Failure(InvalidDependency(key, d))
  {
    var deps := valid + [(key, d)] + rest;
    assert deps[..|valid|] == valid;
    ValidateFindsFirst(deps, |valid|);
  }

  /**
   * Replacing the extractor of any one key by another that selects the same
   * value (a function for a dot path, say) leaves the dispatch trace unchanged.
   */
  lemma {:induction false} SameValueExtractorsInterchangeable(action: Action, deps: Deps, i: nat, d: Dep,
                                                              resolve: Resolver)
    requires i < |deps| && IsExtractor(deps[i].1) && IsExtractor(d)
    requires Extract(d, action, resolve) == Extract(deps[i].1, action, resolve)
    ensures DispatchTrace(action, deps[i := (deps[i].0, d)], resolve) == DispatchTrace(action, deps, resolve)
  {
    var deps' := deps[i := (deps[i].0, d)];
    forall k | 0 <= k < |deps| ensures IsExtractor(deps'[k].1) <==> IsExtractor(deps[k].1) {
    }
    if AllExtractors(deps) {
      var t', t := DispatchTrace(action, deps', resolve).value, DispatchTrace(action, deps, resolve).value;
      assert |t'| == |t|;
      forall j | 0 <= j < |t| ensures t'[j] == t[j] {
        if j < |deps| && j != i {
          assert deps'[j] == deps[j];
        }
      }
      assert t' == t;
    } else {
      var o := Validate(deps);
      assert o.Fail?;
      var j :| 0 <= j < |deps| && !IsExtractor(deps[j].1) && AllExtractors(deps[..j])
        && o.error == InvalidDependency(deps[j].0, deps[j].1);
      assert j != i;
      assert AllExtractors(deps'[..j]) by {
        forall k | 0 <= k < j ensures IsExtractor(deps'[..j][k].1) {
          assert IsExtractor(deps[..j][k].1);
        }
      }
      ValidateFindsFirst(deps', j);
    }
  }

  // ---------------------------------------------------------------------------
  // Scenarios of the unit tests

  /** `listenFor(4)`, `listenFor(true)`, `listenFor({})` and `listenFor(Symbol('foo'))` throw. */
  lemma NonStringKeysRejected()
    ensures ListenFor(Num(4)) == Failure(TypeError(KeyNotStringMessage))
    ensures ListenFor(Bool(true)) == Failure(TypeError(KeyNotStringMessage))
    ensures ListenFor(Obj(map[])) == Failure(TypeError(KeyNotStringMessage))
    ensures ListenFor(UniqueSymbol(0)) == Failure(TypeError(KeyNotStringMessage))
  {
  }

  /** `{ _x: 5 }` with a satisfaction action for "key" carrying an object payload becomes `{ _x: 5, entities: payload }`. */
  lemma {:induction false} MergeIntoStateWithoutEntities(reducer: Reducer, payload: map<string, Value>)
    ensures Listener("key").Apply(reducer, map["_x" := Num(5)], Satisfaction("key", Obj(payload)))
         == Success(map["_x" := Num(5), EntitiesField := Obj(payload)])
  {
    var s: State := map["_x" := Num(5)];
    assert Get(s, EntitiesField) == Undefined;
    assert Spread(Undefined) + payload == payload;
  }

  /** `deps: { user: 5 }` throws before anything is dispatched. */
  lemma NumberDependencyRejected(action: Action, resolve: Resolver)
    ensures DispatchTrace(action, [("user", Data(Num(5)))], resolve)
         == Failure(TypeError("Dependent reducer values must be either a function or a string, but got number for user"))
  {
  }

  /** `deps: { user: 'payload.entities.users' }` dispatches the users, then the original action. */
  lemma {:induction false} StringDependencyTrace(action: Action, resolve: Resolver, users: Value)
    requires resolve(action, "payload.entities.users") == users
    ensures DispatchTrace(action, [("user", Data(Str("payload.entities.users")))], resolve)
         == Success([Satisfaction("user", users), action])
  {
    var t := DispatchTrace(action, [("user", Data(Str("payload.entities.users")))], resolve);
    assert t.value[0] == Satisfaction("user", users);
    assert t.value == [t.value[0], t.value[1]];
  }

  /** On a fresh store, `deps: { user: 'payload.entities.users' }` leaves the original action last in the log. */
  method OriginalActionLast(action: Action, resolve: Resolver, users: Value)
    returns (r: Result<Action>, log: seq<Action>)
    requires resolve(action, "payload.entities.users") == users
    ensures r == Success(action)
    ensures log == [Satisfaction("user", users), action]
  {
    var store := new Store();
    r := SetupTree(store, action, [("user", Data(Str("payload.entities.users")))], resolve);
    StringDependencyTrace(action, resolve, users);
    log := store.log;
  }

  /** On a fresh store, a bad value after a valid key is reported and nothing is dispatched. */
  method NothingDispatchedOnBadValue(action: Action, resolve: Resolver, f: Action -> Value)
    returns (r: Result<Action>, log: seq<Action>)
    ensures r == Failure(TypeError("Dependent reducer values must be either a function or a string, but got number for user"))
    ensures log == []
  {
    var store := new Store();
    var deps: Deps := [("repo", Fn(f)), ("user", Data(Num(5)))];
    BadValueAfterValidKeys(action, [("repo", Fn(f))], "user", Data(Num(5)), [], resolve);
    assert deps == [("repo", Fn(f))] + [("user", Data(Num(5)))] + [];
    r := SetupTree(store, action, deps, resolve);
    log := store.log;
  }
}
