/**
 * The older SET handler, the one the server registers: it stores the value
 * like the newer one but discards the store's answer and always replies `+OK`.
 */
module SetHandler {
  import opened Wrappers
  import opened Utf8
  import opened RedisStore
  import opened RedisCommand
  import opened Stores
  import HandlerSet

  /** The reply of `exec`, always `+OK`, and the store after its one `set`. */
  function ExecSpec(st: StoreState, params: seq<string>): (out: (string, StoreState))
    requires |params| >= 3
    ensures out.0 == "+OK"
  {
    ("+OK", SetSpec(st, params[1], HandlerSet.SetValue(params)).1)
  }

  /** `SetHandler::exec`: the result of `set` is dropped with `let _`. */
  method Exec(store: Store, cmd: RedisCommand) returns (reply: string)
    requires cmd.Valid() && |cmd.args| >= 3
    modifies store.Repr()
    ensures (reply, State(store)) == ExecSpec(old(State(store)), cmd.args)
  {
    var params := Params(cmd);
    var value := NewString(Encode(params[2]));
    var _ := Stores.Set(store, params[1], value);
    reply := "+OK";
  }

  /** The reply is `+OK` even when the store fails, and the store sees the same `set` as with the newer handler. */
  lemma AlwaysOk(st: StoreState, params: seq<string>, render: StoreError -> string)
    requires |params| >= 3
    ensures ExecSpec(st, params).0 == "+OK"
    ensures ExecSpec(st, params).1 == HandlerSet.ExecSpec(st, params, render).1
  {
  }

  /** The two handlers reply alike exactly when the store's `set` succeeds or its error renders as `+OK`. */
  lemma AgreesWithNewerHandler(st: StoreState, params: seq<string>, render: StoreError -> string)
    requires |params| >= 3
    ensures ExecSpec(st, params).0 == HandlerSet.ExecSpec(st, params, render).0
            <==> !(st.TestState? && st.err) || render(KeyNotFoundError) == "+OK"
  {
  }

  /** The handler's unit test: the SET frame against a stub store gives `+OK`. */
  method TestSetExec() returns (result: string)
    ensures result == "+OK"
  {
    var s := new TestStore(false);
    var cmd := NewSetFrame();
    result := Exec(Test(s), cmd);
  }
}
