/**
 * The typed key-value store: values tagged with a kind, a map from keys to
 * values, `set` that inserts or overwrites and a `get` that hands back a value
 * only when its kind is the one asked for.
 */
module RedisStore {
  import opened Wrappers
  import opened Utf8

  /** The closed set of kinds a value can have. */
  datatype ValueKind = String | Map | Json | List

  /** The `Display` text of a kind. */
  function KindName(k: ValueKind): (s: string)
    ensures s == "string" <==> k == String
    ensures s == "map" <==> k == Map
    ensures s == "json" <==> k == Json
    ensures s == "list" <==> k == List
  {
    match k
    case Map => "map"
    case Json => "json"
    case List => "list"
    case String => "string"
  }

  datatype Value = Value(kind: ValueKind, data: seq<byte>)

  /** `Value::new(data, kind)`. */
  function NewValue(data: seq<byte>, kind: ValueKind): (v: Value)
    ensures v.kind == kind && v.data == data
  {
    Value(kind, data)
  }

  /** `Value::new_string(data)`: the kind is fixed to String. */
  function NewString(data: seq<byte>): (v: Value)
    ensures v.kind == String && v.data == data
  {
    Value(String, data)
  }

  /** `Value::new_map(data)`: the kind is fixed to Map. */
  function NewMap(data: seq<byte>): (v: Value)
    ensures v.kind == Map && v.data == data
  {
    Value(Map, data)
  }

  /**
   * The store's one error. The store reports it both for a missing key and for
   * a key whose value has another kind.
   */
  datatype StoreError = KeyNotFoundError

  /** The `Display` text of `KeyNotFoundError` in this version of the store. */
  function ErrorText(e: StoreError): (s: string)
    ensures |s| > 0 && s[0] != '-' && s[0] != '+'
  {
    "STORE ERROR: err msg"
  }

  /** What `get(k, vk)` answers on the map `m`. */
  function Lookup(m: map<string, Value>, k: string, vk: ValueKind): (r: Result<Value, StoreError>)
    ensures r.Ok? <==> k in m && m[k].kind == vk
    ensures r.Ok? ==> r.value == m[k]
    ensures r.Err? ==> r.error == KeyNotFoundError
  {
    if k in m && m[k].kind == vk then Ok(m[k]) else Err(KeyNotFoundError)
  }

  /** `RedisStore`: a hash map from keys to values, updated in place by `set`. */
  class RedisStore {
    var store: map<string, Value>

    /** `RedisStore::default()`: an empty store. */
    constructor ()
      ensures store == map[]
    {
      store := map[];
    }

    /** Inserts or overwrites the value at `k`; never fails. */
    method Set(k: string, v: Value) returns (r: Result<(), StoreError>)
      modifies this
      ensures r == Ok(())
      ensures store == old(store)[k := v]
      ensures k in store && store[k] == v
      ensures forall k' :: k' != k ==> (k' in store <==> k' in old(store))
      ensures forall k' :: k' != k && k' in store ==> store[k'] == old(store)[k']
    {
      store := store[k := v];
      r := Ok(());
    }

    /** Answers the stored value when `k` is present with kind `vk`; reads only. */
    method Get(k: string, vk: ValueKind) returns (r: Result<Value, StoreError>)
      ensures r == Lookup(store, k, vk)
    {
      if k in store {
        var value := store[k];
        if value.kind == vk {
          return Ok(value);
        }
        return Err(KeyNotFoundError);
      }
      return Err(KeyNotFoundError);
    }
  }

  /** A value just set is found again under its own kind. */
  lemma SetThenGet(m: map<string, Value>, k: string, v: Value)
    ensures Lookup(m[k := v], k, v.kind) == Ok(v)
  {
  }

  /** A key just set refuses every other kind, with the same error as a missing key. */
  lemma SetThenGetOtherKind(m: map<string, Value>, k: string, v: Value, vk: ValueKind)
    requires vk != v.kind
    ensures Lookup(m[k := v], k, vk) == Err(KeyNotFoundError)
    ensures Lookup(m[k := v], k, vk) == Lookup(map[], k, vk)
  {
  }

  /** Setting one key does not change what `get` answers for any other key. */
  lemma SetLeavesOtherKeys(m: map<string, Value>, k: string, v: Value, k': string, vk: ValueKind)
    requires k' != k
    ensures Lookup(m[k := v], k', vk) == Lookup(m, k', vk)
  {
  }

  /**
   * The scenario of the store's unit test on the class, for any bytes: a String
   * value is set under `key:001`, found again under its kind, refused under
   * another kind, and `key:013` is not found.
   */
  method StoreScenario(data: seq<byte>) returns (setResult: Result<(), StoreError>, got: Result<Value, StoreError>,
                                                 mismatch: Result<Value, StoreError>, missing: Result<Value, StoreError>)
    ensures setResult == Ok(())
    ensures got == Ok(NewString(data))
    ensures mismatch == Err(KeyNotFoundError)
    ensures missing == Err(KeyNotFoundError)
  {
    var s := new RedisStore();
    var value := NewString(data);
    setResult := s.Set("key:001", value);
    got := s.Get("key:001", String);
    mismatch := s.Get("key:001", Map);
    missing := s.Get("key:013", String);
  }

  /** The store's unit test, on the bytes of `hello pedis`. */
  method StoreTestScenario() returns (setResult: Result<(), StoreError>, got: Result<Value, StoreError>,
                                      mismatch: Result<Value, StoreError>, missing: Result<Value, StoreError>)
    ensures setResult == Ok(())
    ensures got == Ok(NewString(Encode("hello pedis")))
    ensures mismatch == Err(KeyNotFoundError)
    ensures missing == Err(KeyNotFoundError)
  {
    setResult, got, mismatch, missing := StoreScenario(Encode("hello pedis"));
  }
}
