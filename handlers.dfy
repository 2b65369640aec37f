/**
 * `dyn RedisCommandHandler`: one constructor per handler struct. Every handler
 * has the single operation `exec(store, command) -> reply`.
 */
module Handlers {
  import opened RedisStore
  import opened RedisCommand
  import opened Stores
  import HandlerConfig
  import HandlerSet
  import SetHandler
  import HandlersConfig
  import HandlersSet

  datatype Handler =
    | CoreConfig   // pedis_core handler_config::ConfigHandler
    | CoreSet      // pedis_core handler_set::SetHandler
    | LegacySet    // pedis_core set_handler::SetHandler
    | CrateConfig  // pedis_core_handlers handler_config::ConfigHandler
    | CrateSet     // pedis_core_handlers handler_set::SetHandler

  predicate IsSet(h: Handler) {
    h.CoreSet? || h.LegacySet? || h.CrateSet?
  }

  /** How many params `exec` indexes into: the SET handlers read `params[1]` and `params[2]`. */
  function MinParams(h: Handler): (n: nat)
    ensures n == 3 <==> IsSet(h)
    ensures n == 0 <==> !IsSet(h)
  {
    if IsSet(h) then 3 else 0
  }

  /** The reply of `h.exec` and the store afterwards. */
  function ExecSpec(h: Handler, st: StoreState, cmd: RedisCommand, render: StoreError -> string): (out: (string, StoreState))
    requires |cmd.args| >= MinParams(h)
    ensures !IsSet(h) ==> out == ("+OK", st)
    ensures st.RedisState? ==> out.1.RedisState?
    ensures st.TestState? ==> out.1.TestState? && out.1.err == st.err
  {
    match h
    case CoreConfig => (HandlerConfig.Exec(st, cmd), st)
    case CrateConfig => (HandlersConfig.Exec(st, cmd), st)
    case CoreSet => HandlerSet.ExecSpec(st, cmd.args, render)
    case CrateSet => HandlerSet.ExecSpec(st, cmd.args, render)
    case LegacySet => SetHandler.ExecSpec(st, cmd.args)
  }

  /** `handler.exec(store, cmd)` through the trait object. */
  method Exec(h: Handler, store: Store, cmd: RedisCommand, render: StoreError -> string) returns (reply: string)
    requires cmd.Valid() && |cmd.args| >= MinParams(h)
    modifies store.Repr()
    ensures (reply, State(store)) == ExecSpec(h, old(State(store)), cmd, render)
  {
    match h
    case CoreConfig =>
      reply := HandlerConfig.Exec(State(store), cmd);
    case CrateConfig =>
      reply := HandlersConfig.Exec(State(store), cmd);
    case CoreSet =>
      reply := HandlerSet.Exec(store, cmd, render);
    case CrateSet =>
      reply := HandlersSet.Exec(store, cmd, render);
    case LegacySet =>
      reply := SetHandler.Exec(store, cmd);
  }

  /**
   * Every SET handler, given a real store, replies `+OK` and leaves exactly
   * `params[1]` bound to the String value of `params[2]`.
   */
  lemma SetOnRedis(h: Handler, m: map<string, Value>, cmd: RedisCommand, render: StoreError -> string)
    requires IsSet(h) && |cmd.args| >= 3
    ensures ExecSpec(h, RedisState(m), cmd, render)
            == ("+OK", RedisState(m[cmd.args[1] := NewString(Utf8.Encode(cmd.args[2]))]))
  {
    HandlerSet.ExecOnRedis(m, cmd.args, render);
  }
}
