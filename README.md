# pedis in Dafny

A model of the core of *pedis*, a small Redis-like key-value server written in
Rust, with proofs about that model. The model follows a command from the raw
chunk a client sends to the reply the server writes:

- the **command decoder** (`parse_command` in `pedis/src/main.rs`): it splits a
  chunk at every `*` and the digits after it, and turns every non-empty
  fragment into a `RedisCommand`. The type is in
  `pedis_core/src/redis_command.rs`. It splits the fragment at CRLF and keeps
  the pieces at positions 2, 4, 6, … as its arguments. It never checks the
  declared `$n` lengths;
- the **registry and dispatch** of `handle_client` (`pedis/src/main.rs`): it
  looks up the lower-cased name of every command in a two-entry registry. It
  answers `-ERR command not found \r\n` when the name is missing. Otherwise it
  runs the handler against a freshly created empty `RedisStore`;
- the **handlers**:
  - the SET handler of the core crate and that of the handlers crate. They
    store the String value of `params[2]` under `params[1]`, then answer `+OK`
    or the store error's `Display` text;
  - the older SET handler, which is the one the server registers and always
    answers `+OK`;
  - the two CONFIG handlers, which answer `+OK` to everything;
- the **typed store** `RedisStore` (`pedis_core/src/redis_store.rs`):
  - a map from keys to kind-tagged values;
  - `set` inserts or overwrites;
  - `get` answers a value only when its kind is the one asked for.

Modules, one per source unit:

- `RedisStore`: the store as a class with a `map` field.
- `Stores`: the two stores a handler can be given, the real `RedisStore` and
  the test stub `Teststore`. They form one closed datatype standing for
  `dyn IStore`.
- `RedisCommand`: the decoder of one fragment.
- `Crlf`: Rust's `str::split("\r\n")`, with `Join` as its inverse.
- `StarSplit`: the `regex` split at `\*\d*`, with ASCII digits.
- `Ascii`: `to_lowercase` on ASCII letters.
- `Utf8`: `as_bytes`.
- `HandlerSet`, `HandlersSet`, `SetHandler`, `HandlerConfig`,
  `HandlersConfig`: the five handlers.
- `Handlers`: `dyn RedisCommandHandler`, a datatype with one constructor per
  handler.
- `Server`: `parse_command` and `handle_client`.
- `Pipeline`: properties of the whole chunk-to-replies path.

Each method that changes state is proved against a specification function:

- `Stores.SetSpec` for `set`;
- `HandlerSet.ExecSpec`, `SetHandler.ExecSpec` and `Handlers.ExecSpec` for the
  handlers;
- `Server.Parse`, `Server.DispatchSpec` and `Server.Serve` for the server.

The lemmas are stated about those functions.

Two runtime failures of the source are modelled as values rather than left
out. `name()` indexes `args[0]` and panics on a command without arguments. A
SET handler indexes `params[2]` and panics with fewer than three params. Both
are the `Panicked` outcome of `Server.DispatchSpec`, and processing a chunk
stops at the first one (`Server.Serve`).

Each store and handler unit test of the source is restated as a method. It builds the test's
scenario on the model and returns what the test compares, and its `ensures`
states the values the test expects. These are
`RedisStore.StoreTestScenario`, `HandlerSet.TestSetHandlerExec`,
`HandlersSet.TestSetHandlerExec`, `SetHandler.TestSetExec` and
`HandlersConfig.TestExec`. The command tests are the lemmas
`RedisCommand.SetFrameArgs` and `RedisCommand.SetFrameCommand`.

The versions in the repository are mixed. `redis_store.rs` has a
`KeyNotFoundError` struct whose `Display` text is `STORE ERROR: err msg`. The
handler tests use a `StoreError` enum with a `KeyNotFoundError` variant, and
expect the text `-ERR key not found`. The model has one abstract error,
`StoreError.KeyNotFoundError`. The handlers that turn an error into a reply
take its rendering as a parameter `render`:
- `RedisStore.ErrorText` renders it as the store does;
- `HandlerSet.TestErrorText` renders it as the tests expect.

`main.rs` registers `pedis_core::config_handler::ConfigHandler`. The
`pedis_core` shown here has that handler in `handler_config.rs`, and the model
uses it.

## Model

| member | source | states |
|---|---|---|
| RedisStore.KindName | pedis_core/src/redis_store.rs:103-119 | The four kinds render as `string`, `map`, `json` and `list`, and each text belongs to exactly one kind. |
| RedisStore.NewValue | pedis_core/src/redis_store.rs:78-80 | The value has the given kind and keeps the data unchanged. |
| RedisStore.NewString | pedis_core/src/redis_store.rs:81-83 | The kind is fixed to String and the data is kept unchanged. |
| RedisStore.NewMap | pedis_core/src/redis_store.rs:84-86 | The kind is fixed to Map and the data is kept unchanged. |
| RedisStore.ErrorText | pedis_core/src/redis_store.rs:37-41 | The store's error text is non-empty and reads neither as a `+` status nor as a `-` error reply. |
| RedisStore.Lookup | pedis_core/src/redis_store.rs:20-31 | `get` succeeds exactly when the key is present and its value has the requested kind, and then returns the stored value. Otherwise it fails with `KeyNotFoundError`, the same error for an absent key and for a kind mismatch. |
| RedisStore.RedisStore.constructor | pedis_core/src/redis_store.rs:11-14 | A default store is empty. |
| RedisStore.RedisStore.Set | pedis_core/src/redis_store.rs:16-19 | `set` returns `Ok(())`, binds `k` to `v` (overwriting any old value), and leaves every other key present or absent as before, with its old value. |
| RedisStore.RedisStore.Get | pedis_core/src/redis_store.rs:20-31 | `get` answers `Lookup` of the current map. It has no `modifies` clause, so the store is unchanged (`&self`). |
| RedisStore.SetThenGet | pedis_core/src/redis_store.rs:49-57 | Round-trip: a value just set is found again under its own kind. |
| RedisStore.SetThenGetOtherKind | pedis_core/src/redis_store.rs:59-60 | A key just set refuses every other kind with `KeyNotFoundError`, the same answer as for a key never set. |
| RedisStore.SetLeavesOtherKeys | pedis_core/src/redis_store.rs:17 | Setting one key changes nothing that `get` answers for any other key. |
| RedisStore.StoreScenario | pedis_core/src/redis_store.rs:49-63 | For any bytes, the test's steps on a default store give `Ok(())` for the `set`, the String value back under `key:001`, and `KeyNotFoundError` both for kind Map and for `key:013`. |
| RedisStore.StoreTestScenario | pedis_core/src/redis_store.rs:48-64 | The store's unit test, with the bytes of `hello pedis`: all four of its `assert_eq!` hold. |
| Stores.TestStore.constructor | pedis_core/src/handler_set.rs:54-56 | The stub keeps its `err` flag and has received no call yet. |
| Stores.TestStore.Set | pedis_core/src/handler_set.rs:65-75 | The stub fails with `KeyNotFoundError` exactly when `err` is set, succeeds otherwise, and records the call. |
| Stores.SetSpec | pedis_core/src/redis_store.rs:5-8 | `set` through `dyn IStore` fails exactly on a failing stub, and then with `KeyNotFoundError`. A real store then maps `k` to `v`, and a stub records one more call. |
| Stores.Set | pedis_core/src/redis_store.rs:5-8 | Dispatching `set` to either store gives the answer and new state that `SetSpec` describes. |
| Stores.SetSpecRoundTrip | pedis_core/src/redis_store.rs:16-25 | On a real store, `set` succeeds and `get` then returns the value under its kind. |
| Crlf.Split | pedis_core/src/redis_command.rs:10 | A CRLF split always has at least one piece. |
| Crlf.SplitJoin | pedis_core/src/redis_command.rs:10 | Splitting the CRLF-join of CRLF-free pieces gives back exactly those pieces. |
| Crlf.JoinSplit | pedis_core/src/redis_command.rs:10 | Joining the pieces of a split gives back the string, and no piece holds a CRLF. |
| Ascii.LowerChar | pedis_core/src/redis_command.rs:32 | An ASCII upper-case letter is moved to its lower-case form, and every other character is kept. |
| Ascii.ToLower | pedis_core/src/redis_command.rs:32 | Lower-casing keeps the length of the name. |
| Ascii.ToLowerAt | pedis_core/src/redis_command.rs:32 | Lower-casing keeps the length and maps every character on its own. |
| Ascii.ToLowerIsLower | pedis_core/src/redis_command.rs:32 | A lower-cased name has no upper-case letter. |
| Ascii.ToLowerIdempotent | pedis_core/src/redis_command.rs:32 | Lower-casing twice is lower-casing once. |
| Ascii.ToLowerFixpoint | pedis_core/src/redis_command.rs:32 | A string is its own lower-case form exactly when it has no upper-case letter. |
| Ascii.ToLowerCaseInsensitive | pedis_core/src/redis_command.rs:32 | Two names are lower-cased alike exactly when they are equal ignoring ASCII case. |
| Utf8.EncodeChar | pedis_core/src/handler_set.rs:11 | A character takes 1 to 4 bytes, exactly 1 when it is ASCII (that byte being its code), and every byte after the first is a continuation byte. |
| Utf8.Encode | pedis_core/src/handler_set.rs:11 | A string of `n` characters takes between `n` and `4n` bytes. |
| Utf8.EncodeAscii | pedis_core/src/handler_set.rs:11 | An ASCII string gives one byte per character, each byte being the character's code. |
| Utf8.EncodeAppend | pedis_core/src/handler_set.rs:11 | The bytes of a concatenation are the concatenation of the bytes. |
| RedisCommand.RedisCommand.Name | pedis_core/src/redis_command.rs:31-33 | `name()` needs a first argument. The name has no upper-case letter and equals `args[0]` ignoring case. |
| RedisCommand.OddPieces | pedis_core/src/redis_command.rs:11-16 | Keeping the odd indices gives `n/2` elements, with the i-th being `xs[2i+1]`. |
| RedisCommand.Args | pedis_core/src/redis_command.rs:10-16 | With `n` CRLF pieces there are `(n-1)/2` arguments, and argument i is piece `2i+2`. |
| RedisCommand.PayloadArgs | pedis_core/src/redis_command.rs:9-16 | The loop that skips even indices of `elems[1..]` builds exactly `Args(cmd)`. |
| RedisCommand.New | pedis_core/src/redis_command.rs:8-18 | `new` keeps the fragment, and its `args` are `Args(cmd)`. |
| RedisCommand.Params | pedis_core/src/redis_command.rs:19-30 | `params()` recomputes exactly the `args` that `new` computed. |
| RedisCommand.FragmentArgs | pedis_core/src/redis_command.rs:11-16 | For any frame of header, length-prefix and payload lines without CRLF, the arguments are exactly the payload lines. |
| RedisCommand.PrefixesIgnored | pedis_core/src/redis_command.rs:11-14 | The header and the `$n` lines are never read: changing them does not change the arguments. |
| RedisCommand.SetFrameArgs | pedis_core/src/redis_command.rs:41-45 | The test frame `*3`/`$3`/`SET`/`$3`/`key`/`$11`/`Hello World` gives params `SET`, `key`, `Hello World`. |
| RedisCommand.SetBodyArgs | pedis_core/src/redis_command.rs:10-16 | Without its `*3` header (as `parse_command` hands it over) the frame gives the same params. |
| RedisCommand.SetFrameCommand | pedis_core/src/redis_command.rs:47-52 | A command built from the test frame has those params and the name `set`. |
| RedisCommand.NewSetFrame | pedis_core/src/handler_set.rs:38-40 | The command the handler tests build is a valid command on the test frame, with three params. |
| StarSplit.DigitRun | pedis/src/main.rs:59 | The `\d*` of the pattern is the longest run of ASCII digits: every character in it is a digit, and the next one is not. |
| StarSplit.Split | pedis/src/main.rs:59-60 | The split has at least one piece, so the `elems.is_empty()` fallback cannot run, and no piece holds a `*`. |
| StarSplit.SplitCount | pedis/src/main.rs:59-60 | Every `*` is a split point and nothing else is: there is one more piece than there are stars. |
| StarSplit.SplitNoStar | pedis/src/main.rs:59-60 | Text without `*` is a single piece. |
| StarSplit.SplitStarDigits | pedis/src/main.rs:59-60 | A `*` and all the digits after it are consumed as one separator. |
| StarSplit.SplitCons | pedis/src/main.rs:59-60 | A piece without `*` followed by a separator comes out as its own piece, ahead of the split of the rest. |
| Server.NonEmpty | pedis/src/main.rs:67-72 | The kept fragments are exactly the non-empty ones. |
| Server.NonEmptyAppend | pedis/src/main.rs:67-72 | Filtering keeps the fragments' order: the kept pieces of `a + b` are those of `a` followed by those of `b`. |
| Server.Decode | pedis/src/main.rs:71 | There is one command per fragment, in order, each built by `RedisCommand::new` from its fragment. |
| Server.Parse | pedis/src/main.rs:58-74 | `parse_command` returns at most one command per piece of the split, and each is a valid command built from a non-empty piece. Its behaviour on whole chunks is stated in `Pipeline.ParseEmptyChunk`, `Pipeline.FramesDecode` and `Pipeline.HeaderOnlyChunk`. |
| Server.ParseCommand | pedis/src/main.rs:58-74 | The loop over the split builds exactly `Parse(chunk)`: the non-empty fragments, decoded in order. |
| Server.Registry | pedis/src/main.rs:28-30 | The registry has exactly the keys `config` and `set`, bound to the CONFIG handler and to the older SET handler. |
| Server.DispatchSpec | pedis/src/main.rs:45-52 | A command without arguments panics in `name()`, and a name missing from the registry gets `-ERR command not found \r\n` without any store. The handler cases are stated in `Pipeline.ConfigCommand`, `Pipeline.SetCommand` and `Pipeline.SetTooFewParams`. |
| Server.Dispatch | pedis/src/main.rs:42-52 | Processing one command gives `DispatchSpec`: a panic without arguments, the fixed error without any store for an unknown name, a panic for SET with fewer than three params, and otherwise the handler's reply on a fresh empty store. |
| Server.Serve | pedis/src/main.rs:42-53 | There are never more replies than commands. |
| Server.HandleClient | pedis/src/main.rs:27-53 | Building the registry by two inserts, parsing the chunk and serving its commands writes exactly the replies of `Serve(Registry(), Parse(chunk))`, and ends in a panic exactly when `Serve` does. |
| Server.ServeCommands | pedis/src/main.rs:42-53 | The loop over the parsed commands writes exactly the replies of `Serve(commands, cmds)`, and ends in a panic exactly when `Serve` does. |
| Server.DispatchAt | pedis/src/main.rs:45-52 | The outcome of command `i` is what serving from position `i` does first: a panic ends serving, and a reply is followed by the replies for the rest. |
| Handlers.MinParams | pedis_core/src/handler_set.rs:10-13 | The SET handlers need three params, and the CONFIG handlers need none. |
| Handlers.ExecSpec | pedis_core/src/lib.rs:41-46 | A CONFIG handler answers `+OK` and leaves the store alone. Every handler keeps a real store real, and keeps a stub a stub with its flag. |
| Handlers.Exec | pedis_core/src/lib.rs:41-46 | `exec` through the trait object does what the chosen handler's specification says. |
| Handlers.SetOnRedis | pedis_core/src/handler_set.rs:13-14 | Every SET handler, given a real store, answers `+OK` and binds exactly `params[1]` to the String value of `params[2]`. |
| HandlerSet.SetValue | pedis_core/src/handler_set.rs:11 | The stored value has kind String and the UTF-8 bytes of `params[2]` as data. |
| HandlerSet.Reply | pedis_core/src/handler_set.rs:13-16 | A store `Ok` gives `+OK`, and a store `Err(e)` gives `e`'s text verbatim. |
| HandlerSet.ExecSpec | pedis_core/src/handler_set.rs:9-17 | The reply is the rendered `KeyNotFoundError` exactly on a failing stub, and `+OK` on every other store. |
| HandlerSet.Exec | pedis_core/src/handler_set.rs:9-17 | `exec` needs three params, makes the one `set` of `ExecSpec`, and answers its reply. |
| HandlerSet.ExecOnRedis | pedis_core/src/handler_set.rs:13-14 | Against a real store the reply is always `+OK`, only `params[1]` changes, and `get(params[1], String)` then returns the stored value. |
| HandlerSet.ExecOnStub | pedis_core/src/handler_set.rs:10-16 | Against the stub, exactly one call is made: `set` of `params[1]` to the String value of `params[2]`. The reply is `+OK`, or the error text when the stub fails. |
| HandlerSet.ExtraParamsIgnored | pedis_core/src/handler_set.rs:10-13 | Params after index 2 change neither the reply nor the store. |
| HandlerSet.TestErrorText | pedis_core/src/handler_set.rs:48 | The error text the tests expect is `-ERR key not found`. |
| HandlerSet.RunTestCase | pedis_core/src/handler_set.rs:52-58 | One case of the unit test: `exec` of any valid three-param command against a fresh stub gives `-ERR key not found` when the stub fails and `+OK` otherwise. |
| HandlerSet.TestSetHandlerExec | pedis_core/src/handler_set.rs:33-60 | The unit test's loop over its two cases on the test frame gives `+OK`, then `-ERR key not found`, as each case expects. |
| HandlersSet.Exec | pedis_core_handlers/src/handler_set.rs:9-17 | The handlers crate's `exec` has the same specification as the core crate's. |
| HandlersSet.SetFrameOnStubs | pedis_core_handlers/src/handler_set.rs:33-60 | On the test frame's params, a working stub gives `+OK`, a failing one gives `-ERR key not found`, and each of the two stubs receives exactly the one `set` of `key` to `Hello World`. |
| HandlersSet.RunTestCase | pedis_core_handlers/src/handler_set.rs:52-58 | One case of the unit test: `exec` of any valid three-param command against a fresh stub gives `-ERR key not found` when the stub fails and `+OK` otherwise. |
| HandlersSet.TestSetHandlerExec | pedis_core_handlers/src/handler_set.rs:33-60 | The unit test's loop over its two cases on the test frame gives `+OK`, then `-ERR key not found`, as each case expects. |
| SetHandler.Exec | pedis_core/src/set_handler.rs:10-20 | The older `exec` needs three params, makes the same `set`, and discards its result. |
| SetHandler.ExecSpec | pedis_core/src/set_handler.rs:10-20 | The older handler's reply is `+OK` on every store. |
| SetHandler.AlwaysOk | pedis_core/src/set_handler.rs:18-19 | The reply is `+OK` even when the store fails, and the store sees the same `set` as with the newer handler. |
| SetHandler.AgreesWithNewerHandler | pedis_core/src/set_handler.rs:18-19 | The two handlers reply alike exactly when the store's `set` succeeds or its error renders as `+OK`. |
| SetHandler.TestSetExec | pedis_core/src/set_handler.rs:30-39 | The unit test: the test frame against a working stub is answered `+OK`. |
| HandlerConfig.Exec | pedis_core/src/handler_config.rs:9-11 | The CONFIG handler answers `+OK`, looking at neither the store nor the command. |
| HandlerConfig.AlwaysOk | pedis_core/src/handler_config.rs:9-10 | Every command on every store is answered `+OK`, including one without arguments. |
| HandlerConfig.ReplyIndependent | pedis_core/src/handler_config.rs:9 | The reply depends neither on the store nor on the command. |
| HandlersConfig.AlwaysOk | pedis_core_handlers/src/handler_config.rs:7-8 | Every command is answered `+OK`, whatever the stub's error flag. |
| HandlersConfig.Exec | pedis_core_handlers/src/handler_config.rs:7-9 | The handlers crate's CONFIG handler gives the same reply as the core crate's, for every store and command. |
| HandlersConfig.TestExec | pedis_core_handlers/src/handler_config.rs:27-53 | The unit test's loop over the two `CLIENT SETINFO` frames gets `+OK` for each, as each case expects. |
| Pipeline.SplitFrames | pedis/src/main.rs:59-60 | Frames laid end to end split into an empty piece and then exactly one body per frame. |
| Pipeline.FramesDecode | pedis/src/main.rs:58-74 | N well-shaped frames with no `*` in any line decode to exactly N commands, and the k-th has the k-th frame's arguments. |
| Pipeline.ParseEmptyChunk | pedis/src/main.rs:60-64 | An empty chunk gives no command. |
| Pipeline.ServeReplies | pedis/src/main.rs:42-53 | Every command before the first panic gets exactly its own reply, in order. Without a panic all commands are answered, and after one the next command panics. |
| Pipeline.ServePanics | pedis/src/main.rs:42-53 | Processing ends in a panic exactly when some command panics. |
| Pipeline.UnknownCommand | pedis/src/main.rs:45-52 | An unregistered name gets exactly `-ERR command not found \r\n`, and no store is made. |
| Pipeline.EmptyArgsPanic | pedis/src/main.rs:45 | A command without arguments panics in `name()`. |
| Pipeline.ConfigCommand | pedis/src/main.rs:45-49 | `config` in any case is answered `+OK`, and its fresh store stays empty. |
| Pipeline.SetCommand | pedis/src/main.rs:45-49 | `set` in any case with three or more params is answered `+OK`, and its fresh store holds the String value of `params[2]` under `params[1]`. |
| Pipeline.SetTooFewParams | pedis/src/main.rs:45-47 | `set` with fewer than three params panics in the handler. |
| Pipeline.Frobnicate | pedis/src/main.rs:45-52 | A command named `frobnicate` is unknown. |
| Pipeline.SingleSetChunk | pedis/src/main.rs:41-49 | A chunk holding one SET with three params gets the single reply `+OK`, and that SET's store effect. |
| Pipeline.SetFrameChunk | pedis/src/main.rs:58-74 | The test SET frame, sent alone, decodes to one command with params `SET`, `key`, `Hello World`. |
| Pipeline.SetFrameServed | pedis/src/main.rs:41-49 | Such a chunk is answered `+OK`, and its store holds `Hello World` under `key`. |
| Pipeline.SetFrameAnswered | pedis/src/main.rs:41-53 | The SET test frame sent alone gets exactly one reply, `+OK`, with no panic, and the handler's store holds `Hello World` under `key`. |
| Pipeline.HeaderOnlyChunk | pedis/src/main.rs:68-71 | `*3` CRLF alone leaves the fragment CRLF. That fragment is not filtered: it gives a command without arguments, so nothing is answered and `handle_client` panics, on the thread of `main`, which stops the server. |
| Pipeline.SplitAtPayloadStar | pedis/src/main.rs:59-60 | A `*` inside a payload splits the frame there. |
| Pipeline.StarInPayload | pedis/src/main.rs:59-60 | A SET of `a*b` decodes to a SET of `a` and a fragment `b` CRLF without arguments. |
| Pipeline.SetThenPanic | pedis/src/main.rs:42-49 | A SET followed by a command without arguments: the SET is answered, then processing ends in a panic. |

## Left out

- The network and process plumbing are left out: the TCP listener and accept loop, `stream.read`/`write` into the 1024-byte buffer, `from_utf8().unwrap()`, the repeated reads of `handle_client`'s outer `loop`, the spawned `redis` client thread and the `eprintln!` logging. `Server.HandleClient` processes one chunk given as a string and returns the replies it would write.
- Concurrency is left out: `Arc<RwLock<…>>`, `AsyncLockedStore` and `ss.write().unwrap()`. Store access is sequential and lock poisoning is not modelled.
- `Teststore::get` is left out, because its body is `todo!()`. The stub model has no `get`, and the handlers reach their store only through `Stores.Set`, so no handler can call it.
- The `calls` log of `Stores.TestStore` is not in the source. It records the `set` calls the stub receives, so that "exactly one `set`, with these arguments" can be stated.
- Server.ParseCommand: the `elems.is_empty()` fallback branch is not written out. `StarSplit.Split` always yields at least one piece, so that branch cannot run.
- `to_lowercase` and the split pattern's `\d` are modelled on ASCII only. Unicode case mapping and Unicode digits are not covered.
- The `Debug` formatting of `Value` and `RedisCommand`, and `Rc` sharing, are left out: they have no behaviour to prove.
- The handler trait of `pedis_core/src/lib.rs` is not a Dafny trait. Traits are not used here, so the two store kinds and the five handlers are closed datatypes (`Stores.Store`, `Handlers.Handler`).
- The code has no separate kind-mismatch error, no long-lived shared store and no length-checking decoder. The model follows the code: one error, a fresh store per command, and no length checks.
- Panics are values rather than aborts: the `Panicked` outcome, after which a chunk's processing stops. `handle_client` runs on the thread of `main` (pedis/src/main.rs:21-23), so in the source a panic ends the whole server and not just one connection. The model does not follow what happens after the panic.
