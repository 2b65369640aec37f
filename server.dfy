/**
 * The server's per-chunk processing, with the network left out: split the
 * chunk into command fragments, decode each, look its lower-cased name up in
 * the two-entry registry, and run the handler found against a fresh empty
 * store, one reply per command in order.
 */
module Server {
  import opened Wrappers
  import opened Utf8
  import opened Ascii
  import opened RedisStore
  import opened RedisCommand
  import opened Stores
  import opened Handlers
  import StarSplit

  /** The non-empty pieces, in order. */
  function NonEmpty(ps: seq<string>): (r: seq<string>)
    ensures |r| <= |ps|
    ensures forall i :: 0 <= i < |r| ==> r[i] != ""
    ensures forall x :: x in r <==> x in ps && x != ""
  {
    if ps == [] then []
    else NonEmpty(ps[..|ps| - 1]) + (if ps[|ps| - 1] == "" then [] else [ps[|ps| - 1]])
  }

  /** Filtering keeps the order: the kept pieces of `a + b` are those of `a`, then those of `b`. */
  lemma {:induction false} NonEmptyAppend(a: seq<string>, b: seq<string>)
    ensures NonEmpty(a + b) == NonEmpty(a) + NonEmpty(b)
    decreases |b|
  {
    if b == [] {
      assert a + b == a;
    } else {
      var b' := b[..|b| - 1];
      assert (a + b)[..|a + b| - 1] == a + b';
      NonEmptyAppend(a, b');
    }
  }

  /** One command per fragment, in order, each as `RedisCommand::new` builds it. */
  function Decode(fs: seq<string>): (cmds: seq<RedisCommand>)
    ensures |cmds| == |fs|
    ensures forall i :: 0 <= i < |fs| ==> cmds[i].cmd == fs[i] && cmds[i].Valid()
  {
    seq(|fs|, i requires 0 <= i < |fs| => RedisCommand(fs[i], Args(fs[i])))
  }

  /** What `parse_command(chunk)` returns: one valid command per non-empty fragment of the split. */
  function Parse(chunk: string): (cmds: seq<RedisCommand>)
    ensures |cmds| <= |StarSplit.Split(chunk)|
    ensures forall i :: 0 <= i < |cmds| ==> cmds[i].Valid() && cmds[i].cmd != "" && cmds[i].cmd in StarSplit.Split(chunk)
  {
    Decode(NonEmpty(StarSplit.Split(chunk)))
  }

  /**
   * `parse_command`: split at `\*\d*`, skip empty fragments, build one command
   * per fragment. The source's fallback for an empty split is left out: a
   * split always has a piece (the `|r| >= 1` of `StarSplit.Split`).
   */
  method ParseCommand(chunk: string) returns (cmds: seq<RedisCommand>)
    ensures cmds == Parse(chunk)
  {
    var elems := StarSplit.Split(chunk);
    cmds := [];
    var i := 0;
    while i < |elems|
      invariant 0 <= i <= |elems|
      invariant cmds == Decode(NonEmpty(elems[..i]))
    {
      assert elems[..i + 1][..i] == elems[..i];
      if elems[i] != "" {
        var c := New(elems[i]);
        assert Decode(NonEmpty(elems[..i + 1])) == Decode(NonEmpty(elems[..i])) + [c];
        cmds := cmds + [c];
      }
      i := i + 1;
    }
    assert elems[..i] == elems;
  }

  const NotFoundReply: string := "-ERR command not found \r\n"

  /** The registry `handle_client` builds: `config` and `set`, the latter the older SET handler. */
  function Registry(): (r: map<string, Handler>)
    ensures r.Keys == {"config", "set"}
    ensures r["config"] == CoreConfig && r["set"] == LegacySet
  {
    map["config" := CoreConfig, "set" := LegacySet]
  }

  /**
   * What processing one command gives: a reply, with the contents of the store
   * the handler ran against (none when no store was created), or a panic,
   * from `name()` on a command without arguments or from a SET handler
   * indexing past its params.
   */
  datatype Outcome = Replied(reply: string, effect: Option<map<string, Value>>) | Panicked

  function DispatchSpec(commands: map<string, Handler>, cmd: RedisCommand): (o: Outcome)
    ensures |cmd.args| == 0 ==> o.Panicked?
    ensures |cmd.args| > 0 && cmd.Name() !in commands ==> o == Replied(NotFoundReply, None)
  {
    if |cmd.args| == 0 then Panicked
    else if cmd.Name() !in commands then Replied(NotFoundReply, None)
    else
      var h := commands[cmd.Name()];
      if |cmd.args| < MinParams(h) then Panicked
      else
        var out := Handlers.ExecSpec(h, RedisState(map[]), cmd, ErrorText);
        Replied(out.0, Some(out.1.entries))
  }

  /** The body of `handle_client`'s loop for one command. */
  method Dispatch(commands: map<string, Handler>, cmd: RedisCommand) returns (o: Outcome)
    requires cmd.Valid()
    ensures o == DispatchSpec(commands, cmd)
  {
    if |cmd.args| == 0 {
      return Panicked;
    }
    var name := cmd.Name();
    if name in commands {
      var handler := commands[name];
      if |cmd.args| < MinParams(handler) {
        return Panicked;
      }
      var store := new RedisStore();
      var result := Handlers.Exec(handler, Redis(store), cmd, ErrorText);
      return Replied(result, Some(store.store));
    }
    return Replied(NotFoundReply, None);
  }

  /** The replies written for a sequence of commands, and whether processing ended in a panic. */
  function Serve(commands: map<string, Handler>, cmds: seq<RedisCommand>): (out: (seq<string>, bool))
    ensures |out.0| <= |cmds|
  {
    if cmds == [] then ([], false)
    else match DispatchSpec(commands, cmds[0])
      case Panicked => ([], true)
      case Replied(r, _) =>
        var rest := Serve(commands, cmds[1..]);
        ([r] + rest.0, rest.1)
  }

  /** Serving from position `i` on: the outcome of command `i`, then the rest. */
  lemma ServeStep(commands: map<string, Handler>, cmds: seq<RedisCommand>, i: nat)
    requires i < |cmds|
    ensures DispatchSpec(commands, cmds[i]).Panicked? ==> Serve(commands, cmds[i..]) == ([], true)
    ensures DispatchSpec(commands, cmds[i]).Replied? ==>
              && Serve(commands, cmds[i..]).0 == [DispatchSpec(commands, cmds[i]).reply] + Serve(commands, cmds[i + 1..]).0
              && Serve(commands, cmds[i..]).1 == Serve(commands, cmds[i + 1..]).1
  {
    assert cmds[i..][1..] == cmds[i + 1..];
    assert cmds[i..][0] == cmds[i];
  }

  /** Processing command `i`: its outcome is what `Serve` does first from position `i` on. */
  method DispatchAt(commands: map<string, Handler>, cmds: seq<RedisCommand>, i: nat) returns (o: Outcome)
    requires i < |cmds| && cmds[i].Valid()
    ensures o.Panicked? ==> Serve(commands, cmds[i..]) == ([], true)
    ensures o.Replied? ==>
              && Serve(commands, cmds[i..]).0 == [o.reply] + Serve(commands, cmds[i + 1..]).0
              && Serve(commands, cmds[i..]).1 == Serve(commands, cmds[i + 1..]).1
  {
    o := Dispatch(commands, cmds[i]);
    ServeStep(commands, cmds, i);
  }

  /**
   * The loop of `handle_client` over the parsed commands: one reply per
   * command, in order, stopping at the first panic.
   */
  method ServeCommands(commands: map<string, Handler>, cmds: seq<RedisCommand>)
    returns (replies: seq<string>, panicked: bool)
    requires forall i :: 0 <= i < |cmds| ==> cmds[i].Valid()
    ensures (replies, panicked) == Serve(commands, cmds)
  {
    replies, panicked := [], false;
    ghost var total := Serve(commands, cmds);
    var i := 0;
    assert cmds[0..] == cmds;
    assert [] + total.0 == total.0;
    while i < |cmds|
      invariant 0 <= i <= |cmds|
      invariant total == (replies + Serve(commands, cmds[i..]).0, Serve(commands, cmds[i..]).1)
      invariant !panicked
    {
      var o := DispatchAt(commands, cmds, i);
      ghost var rest := Serve(commands, cmds[i + 1..]);
      match o
      case Panicked =>
        panicked := true;
        assert replies + [] == replies;
        return;
      case Replied(r, _) =>
        assert replies + ([r] + rest.0) == (replies + [r]) + rest.0;
        replies := replies + [r];
      i := i + 1;
    }
    assert cmds[i..] == [];
    assert replies + [] == replies;
  }

  /** `handle_client` on one chunk read from the connection. */
  method HandleClient(chunk: string) returns (replies: seq<string>, panicked: bool)
    ensures (replies, panicked) == Serve(Registry(), Parse(chunk))
  {
    var commands: map<string, Handler> := map[];
    commands := commands["config" := CoreConfig];
    commands := commands["set" := LegacySet];
    assert commands == Registry();
    var elems := ParseCommand(chunk);
    replies, panicked := ServeCommands(commands, elems);
  }
}
