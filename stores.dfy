/**
 * `dyn IStore`: the store a handler is given is either the real `RedisStore`
 * or the stub store of the handler tests. Both are objects updated in place;
 * `StoreState` is their abstract value and `SetSpec` says what `set` does to it.
 */
module Stores {
  import opened Wrappers
  import opened RedisStore

  /**
   * The tests' `Teststore`: its `set` fails with `KeyNotFoundError` exactly when
   * `err` is set and otherwise does nothing. The `calls` log records every `set`
   * it receives, so that what a handler asks of its store can be stated.
   */
  class TestStore {
    const err: bool
    var calls: seq<(string, Value)>

    constructor (err: bool)
      ensures this.err == err && calls == []
    {
      this.err := err;
      calls := [];
    }

    method Set(k: string, v: Value) returns (r: Result<(), StoreError>)
      modifies this
      ensures calls == old(calls) + [(k, v)]
      ensures r == if err then Err(KeyNotFoundError) else Ok(())
    {
      calls := calls + [(k, v)];
      if err {
        return Err(KeyNotFoundError);
      }
      return Ok(());
    }
  }

  datatype Store = Redis(redis: RedisStore) | Test(test: TestStore) {
    function Repr(): set<object> {
      if Redis? then {redis} else {test}
    }
  }

  /** The abstract value of a store: the map of a real store, or the flag and call log of the stub. */
  datatype StoreState =
    | RedisState(entries: map<string, Value>)
    | TestState(err: bool, calls: seq<(string, Value)>)

  function State(s: Store): (st: StoreState)
    reads s.Repr()
  {
    match s
    case Redis(r) => RedisState(r.store)
    case Test(t) => TestState(t.err, t.calls)
  }

  /** What `set(k, v)` answers and what the store is afterwards. */
  function SetSpec(st: StoreState, k: string, v: Value): (out: (Result<(), StoreError>, StoreState))
    ensures out.0.Err? <==> st.TestState? && st.err
    ensures out.0.Err? ==> out.0.error == KeyNotFoundError
    ensures st.RedisState? ==> out.1 == RedisState(st.entries[k := v])
    ensures st.TestState? ==> out.1 == TestState(st.err, st.calls + [(k, v)])
  {
    match st
    case RedisState(m) => (Ok(()), RedisState(m[k := v]))
    case TestState(err, calls) =>
      (if err then Err(KeyNotFoundError) else Ok(()), TestState(err, calls + [(k, v)]))
  }

  /** `store.set(k, v)` through `dyn IStore`. */
  method Set(s: Store, k: string, v: Value) returns (r: Result<(), StoreError>)
    modifies s.Repr()
    ensures (r, State(s)) == SetSpec(old(State(s)), k, v)
  {
    match s
    case Redis(redis) =>
      r := redis.Set(k, v);
    case Test(test) =>
      r := test.Set(k, v);
  }

  /** On a real store, a value just set is found again under its kind. */
  lemma SetSpecRoundTrip(m: map<string, Value>, k: string, v: Value)
    ensures SetSpec(RedisState(m), k, v).0 == Ok(())
    ensures Lookup(SetSpec(RedisState(m), k, v).1.entries, k, v.kind) == Ok(v)
  {
  }
}
