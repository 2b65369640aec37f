/** The CONFIG handler of the handlers crate, the same constant acknowledgment, with its unit test. */
module HandlersConfig {
  import opened RedisStore
  import opened RedisCommand
  import opened Stores
  import HandlerConfig

  /**
   * `ConfigHandler::exec` of the handlers crate: `_store` and `_cmd` are
   * unused, and the reply is the core crate's handler's.
   */
  function Exec(st: StoreState, cmd: RedisCommand): (reply: string)
    ensures reply == HandlerConfig.Exec(st, cmd)
  {
    "+OK"
  }

  /** Every command is answered `+OK`, whatever the stub store's error flag. */
  lemma AlwaysOk(err: bool, calls: seq<(string, Value)>, cmd: RedisCommand)
    ensures Exec(TestState(err, calls), cmd) == "+OK"
    ensures Exec(TestState(err, calls), cmd) == Exec(TestState(!err, calls), cmd)
  {
  }

  const SetInfoLibName: string := "*\r\n$6\r\nCLIENT\r\n$7\r\nSETINFO\r\n$8\r\nLIB-NAME\r\n$8\r\nredis-rs\r\n"
  const SetInfoLibVer: string := "*\r\n$6\r\nCLIENT\r\n$7\r\nSETINFO\r\n$7\r\nLIB-VER\r\n$6\r\n0.25.3\r\n"

  /** The handler's unit test: both `CLIENT SETINFO` frames are answered `+OK`. */
  method TestExec() returns (results: seq<string>)
    ensures results == ["+OK", "+OK"]
  {
    var frames := [SetInfoLibName, SetInfoLibVer];
    var expected := ["+OK", "+OK"];
    results := [];
    var i := 0;
    while i < 2
      invariant 0 <= i <= 2
      invariant results == expected[..i]
    {
      var s := new TestStore(false);
      var cmd := New(frames[i]);
      var result := Exec(State(Test(s)), cmd);
      assert result == expected[i];
      results := results + [result];
      i := i + 1;
    }
  }
}
