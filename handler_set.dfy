/**
 * The SET handler of the core crate: stores a String-kind value holding the
 * bytes of `params[2]` under `params[1]` with one `set` call, and answers
 * `+OK` on success or the store error's `Display` text on failure.
 */
module HandlerSet {
  import opened Wrappers
  import opened Utf8
  import opened RedisStore
  import opened RedisCommand
  import opened Stores

  /** The value SET stores: kind String, data the UTF-8 bytes of `params[2]`. */
  function SetValue(params: seq<string>): (v: Value)
    requires |params| >= 3
    ensures v.kind == String && v.data == Encode(params[2])
  {
    NewString(Encode(params[2]))
  }

  /** The reply for the store's answer: `+OK`, or the error's text verbatim. */
  function Reply(r: Result<(), StoreError>, render: StoreError -> string): (s: string)
    ensures r.Ok? ==> s == "+OK"
    ensures r.Err? ==> s == render(r.error)
  {
    match r
    case Ok(_) => "+OK"
    case Err(e) => render(e)
  }

  /**
   * The reply of `exec` and the store afterwards: the error text exactly on a
   * failing stub, `+OK` otherwise, and one `set` of `params[1]` to the String
   * value of `params[2]`.
   */
  function ExecSpec(st: StoreState, params: seq<string>, render: StoreError -> string): (out: (string, StoreState))
    requires |params| >= 3
    ensures out.0 == if st.TestState? && st.err then render(KeyNotFoundError) else "+OK"
  {
    var answer := SetSpec(st, params[1], SetValue(params));
    (Reply(answer.0, render), answer.1)
  }

  /** `SetHandler::exec`: indexes `params[1]` and `params[2]`, so it needs three params. */
  method Exec(store: Store, cmd: RedisCommand, render: StoreError -> string) returns (reply: string)
    requires cmd.Valid() && |cmd.args| >= 3
    modifies store.Repr()
    ensures (reply, State(store)) == ExecSpec(old(State(store)), cmd.args, render)
  {
    var params := Params(cmd);
    var value := NewString(Encode(params[2]));
    var r := Stores.Set(store, params[1], value);
    match r
    case Ok(_) =>
      reply := "+OK";
    case Err(e) =>
      reply := render(e);
  }

  /**
   * Against a real store the reply is always `+OK`, only `params[1]` changes,
   * and `get(params[1], String)` then answers the value just stored.
   */
  lemma ExecOnRedis(m: map<string, Value>, params: seq<string>, render: StoreError -> string)
    requires |params| >= 3
    ensures ExecSpec(RedisState(m), params, render) == ("+OK", RedisState(m[params[1] := SetValue(params)]))
    ensures Lookup(ExecSpec(RedisState(m), params, render).1.entries, params[1], String)
            == Ok(NewString(Encode(params[2])))
  {
  }

  /**
   * Against the stub store the handler makes exactly one call, a `set` of
   * `params[1]` to the String value of `params[2]`, and answers `+OK` or,
   * when the stub fails, the error text.
   */
  lemma ExecOnStub(err: bool, calls: seq<(string, Value)>, params: seq<string>, render: StoreError -> string)
    requires |params| >= 3
    ensures ExecSpec(TestState(err, calls), params, render).1
            == TestState(err, calls + [(params[1], NewString(Encode(params[2])))])
    ensures ExecSpec(TestState(err, calls), params, render).0
            == if err then render(KeyNotFoundError) else "+OK"
  {
  }

  /** Params after index 2 play no part. */
  lemma ExtraParamsIgnored(st: StoreState, params: seq<string>, render: StoreError -> string)
    requires |params| >= 3
    ensures ExecSpec(st, params, render) == ExecSpec(st, params[..3], render)
  {
  }

  /** The `Display` text of `StoreError::KeyNotFoundError` that the handler tests expect. */
  function TestErrorText(e: StoreError): (s: string)
    ensures s == "-ERR key not found"
  {
    "-ERR key not found"
  }

  /** One case of the unit test: `exec` of `cmd` against a fresh stub whose `err` flag is given. */
  method RunTestCase(err: bool, cmd: RedisCommand) returns (result: string)
    requires cmd.Valid() && |cmd.args| >= 3
    ensures result == if err then "-ERR key not found" else "+OK"
  {
    var s := new TestStore(err);
    result := Exec(Test(s), cmd, TestErrorText);
  }

  /** The handler's unit test: the SET frame gives `+OK`, and `-ERR key not found` on a failing store. */
  method TestSetHandlerExec() returns (results: seq<string>)
    ensures results == ["+OK", "-ERR key not found"]
  {
    var errors := [false, true];
    var expected := ["+OK", "-ERR key not found"];
    var c0 := NewSetFrame();
    var c1 := NewSetFrame();
    var cmds := [c0, c1];
    results := [];
    var i := 0;
    while i < 2
      invariant 0 <= i <= 2
      invariant results == expected[..i]
    {
      var result := RunTestCase(errors[i], cmds[i]);
      assert result == expected[i];
      results := results + [result];
      i := i + 1;
    }
  }
}
