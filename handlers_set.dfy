/**
 * The SET handler of the handlers crate. Its code is that of the core crate's
 * handler, so it runs the same steps; this module adds its unit test.
 */
module HandlersSet {
  import opened RedisStore
  import opened RedisCommand
  import opened Stores
  import HandlerSet

  /** `SetHandler::exec` of the handlers crate. */
  method Exec(store: Store, cmd: RedisCommand, render: StoreError -> string) returns (reply: string)
    requires cmd.Valid() && |cmd.args| >= 3
    modifies store.Repr()
    ensures (reply, State(store)) == HandlerSet.ExecSpec(old(State(store)), cmd.args, render)
  {
    reply := HandlerSet.Exec(store, cmd, render);
  }

  /**
   * The unit test's two cases as a statement: on the SET frame's params (`SetFrameArgs`), a working stub
   * gives `+OK`, a failing one gives its error text, and each stub receives
   * exactly the one `set` of `key` to the String value `Hello World`.
   */
  lemma SetFrameOnStubs(render: StoreError -> string)
    ensures HandlerSet.ExecSpec(TestState(false, []), SetArgs, render).0 == "+OK"
    ensures HandlerSet.ExecSpec(TestState(true, []), SetArgs, HandlerSet.TestErrorText).0 == "-ERR key not found"
    ensures HandlerSet.ExecSpec(TestState(false, []), SetArgs, render).1.calls
            == [("key", NewString(Utf8.Encode("Hello World")))]
    ensures HandlerSet.ExecSpec(TestState(true, []), SetArgs, render).1.calls
            == [("key", NewString(Utf8.Encode("Hello World")))]
  {
  }

  /** One case of the unit test: `exec` of `cmd` against a fresh stub whose `err` flag is given. */
  method RunTestCase(err: bool, cmd: RedisCommand) returns (result: string)
    requires cmd.Valid() && |cmd.args| >= 3
    ensures result == if err then "-ERR key not found" else "+OK"
  {
    var s := new TestStore(err);
    result := Exec(Test(s), cmd, HandlerSet.TestErrorText);
  }

  /** The handler's unit test, run on the two stub stores. */
  method TestSetHandlerExec() returns (results: seq<string>)
    ensures results == ["+OK", "-ERR key not found"]
  {
    var errors := [false, true];
    var expected := ["+OK", "-ERR key not found"];
    var c0 := NewSetFrame();
    var c1 := NewSetFrame();
    var cmds := [c0, c1];
    results := [];
    var i := 0;
    while i < 2
      invariant 0 <= i <= 2
      invariant results == expected[..i]
    {
      var result := RunTestCase(errors[i], cmds[i]);
      assert result == expected[i];
      results := results + [result];
      i := i + 1;
    }
  }
}
