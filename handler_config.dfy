/** The CONFIG handler of the core crate: a fixed acknowledgment, nothing else. */
module HandlerConfig {
  import opened RedisCommand
  import opened Stores

  /**
   * `ConfigHandler::exec`: neither the store nor the command is looked at, so
   * it is total, even for a command without arguments.
   */
  function Exec(st: StoreState, cmd: RedisCommand): (reply: string)
    ensures reply == "+OK"
  {
    "+OK"
  }

  /** Every command on every store is answered `+OK`. */
  lemma AlwaysOk(st: StoreState, cmd: RedisCommand)
    ensures Exec(st, cmd) == "+OK"
  {
  }

  /** The reply depends neither on the store nor on the command. */
  lemma ReplyIndependent(st1: StoreState, c1: RedisCommand, st2: StoreState, c2: RedisCommand)
    ensures Exec(st1, c1) == Exec(st2, c2)
  {
  }
}
