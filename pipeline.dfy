/**
 * Properties of the whole per-chunk pipeline of the server: what the split
 * decoder makes of concatenated frames, and what replies the dispatch loop
 * writes.
 */
module Pipeline {
  import opened Wrappers
  import opened Utf8
  import opened Ascii
  import opened Crlf
  import opened RedisStore
  import opened RedisCommand
  import opened Stores
  import opened Handlers
  import opened Server
  import StarSplit

  // ---- The decoder on well-shaped frames ----

  /**
   * A frame: `*` and a count, then one length-prefix line and one payload line
   * per argument. Neither the count nor the prefixes need to be right: the
   * decoder never reads them.
   */
  datatype Frame = Frame(count: string, prefixes: seq<string>, args: seq<string>)

  predicate AllNoStar(ps: seq<string>) {
    forall i :: 0 <= i < |ps| ==> StarSplit.NoStar(ps[i])
  }

  /** The count is digits, and no line holds a CRLF or a `*`. */
  predicate WellShaped(f: Frame) {
    && StarSplit.AllDigits(f.count)
    && |f.prefixes| == |f.args|
    && AllNoCrlf(f.prefixes) && AllNoCrlf(f.args)
    && AllNoStar(f.prefixes) && AllNoStar(f.args)
  }

  /** What follows `*<count>`: CRLF, then each line followed by CRLF. */
  function Body(f: Frame): (s: string)
    requires |f.prefixes| == |f.args|
  {
    Fragment("", f.prefixes, f.args)
  }

  function EncodeFrame(f: Frame): (s: string)
    requires |f.prefixes| == |f.args|
  {
    "*" + f.count + Body(f)
  }

  predicate AllWellShaped(fs: seq<Frame>) {
    forall k :: 0 <= k < |fs| ==> WellShaped(fs[k])
  }

  /** Frames one after the other, as several pipelined commands arrive in one read. */
  function EncodeFrames(fs: seq<Frame>): (s: string)
    requires AllWellShaped(fs)
  {
    if fs == [] then "" else EncodeFrame(fs[0]) + EncodeFrames(fs[1..])
  }

  lemma {:induction false} JoinNoStar(ps: seq<string>)
    requires |ps| >= 1 && AllNoStar(ps)
    ensures StarSplit.NoStar(Join(ps))
  {
    if |ps| > 1 {
      JoinNoStar(ps[1..]);
      assert AllNoStar(ps[1..]) by {
        assert forall i :: 0 <= i < |ps[1..]| ==> ps[1..][i] == ps[i + 1];
      }
      var s := ps[0] + CRLF + Join(ps[1..]);
      forall i | 0 <= i < |s| ensures s[i] != '*' {
        if i >= |ps[0]| + 2 {
          assert s[i] == Join(ps[1..])[i - |ps[0]| - 2];
        }
      }
    }
  }

  /** The lines of a well-shaped frame's body hold no `*`. */
  lemma BodyLinesNoStar(f: Frame)
    requires WellShaped(f)
    ensures AllNoStar([""] + Interleave(f.prefixes, f.args) + [""])
  {
    var lines := [""] + Interleave(f.prefixes, f.args) + [""];
    forall i | 0 <= i < |lines| ensures StarSplit.NoStar(lines[i]) {
      if 1 <= i <= 2 * |f.args| {
        var j := (i - 1) / 2;
        if i % 2 == 1 { assert lines[i] == f.prefixes[j]; } else { assert lines[i] == f.args[j]; }
      }
    }
  }

  /** A body starts with CRLF and holds no `*`. */
  lemma BodyShape(f: Frame)
    requires WellShaped(f)
    ensures |Body(f)| >= 2 && Body(f)[0] == '\r'
    ensures StarSplit.NoStar(Body(f))
  {
    var lines := [""] + Interleave(f.prefixes, f.args) + [""];
    JoinFront("", Interleave(f.prefixes, f.args) + [""]);
    assert lines == [""] + (Interleave(f.prefixes, f.args) + [""]);
    BodyLinesNoStar(f);
    JoinNoStar(lines);
  }

  /** The first frame of a sequence, then the rest. */
  lemma EncodeFramesFront(fs: seq<Frame>)
    requires AllWellShaped(fs) && fs != []
    ensures AllWellShaped(fs[1..])
    ensures EncodeFrames(fs) == "*" + fs[0].count + (Body(fs[0]) + EncodeFrames(fs[1..]))
  {
    assert forall k :: 0 <= k < |fs[1..]| ==> fs[1..][k] == fs[k + 1];
  }

  /** The bodies of the frames, in order. */
  function Bodies(fs: seq<Frame>): (bs: seq<string>)
    requires AllWellShaped(fs)
    ensures |bs| == |fs|
  {
    seq(|fs|, k requires 0 <= k < |fs| => Body(fs[k]))
  }

  /** The split yields an empty piece before the first frame, then exactly one body per frame. */
  lemma {:induction false} SplitFrames(fs: seq<Frame>)
    requires AllWellShaped(fs)
    ensures StarSplit.Split(EncodeFrames(fs)) == [""] + Bodies(fs)
  {
    if fs != [] {
      var f := fs[0];
      var b := Body(f);
      EncodeFramesFront(fs);
      var e := EncodeFrames(fs[1..]);
      SplitFrames(fs[1..]);
      BodyShape(f);
      StarSplit.SplitStarDigits(f.count, b + e);
      StarSplit.SplitPrefix(b, e);
      assert b + "" == b;
      assert Bodies(fs) == [b] + Bodies(fs[1..]);
    }
  }

  lemma {:induction false} NonEmptyFront(x: string, ps: seq<string>)
    ensures NonEmpty([x] + ps) == (if x == "" then [] else [x]) + NonEmpty(ps)
    decreases |ps|
  {
    if ps != [] {
      var q := [x] + ps;
      assert q[..|q| - 1] == [x] + ps[..|ps| - 1];
      NonEmptyFront(x, ps[..|ps| - 1]);
    } else {
      assert [x][..0] == [];
    }
  }

  lemma {:induction false} NonEmptyAll(ps: seq<string>)
    requires forall i :: 0 <= i < |ps| ==> ps[i] != ""
    ensures NonEmpty(ps) == ps
  {
    if ps != [] {
      NonEmptyAll(ps[..|ps| - 1]);
    }
  }

  /**
   * N well-shaped frames in one chunk decode to exactly N commands, in order,
   * and the k-th command's arguments are the k-th frame's payload lines.
   */
  lemma FramesDecode(fs: seq<Frame>)
    requires AllWellShaped(fs)
    ensures |Parse(EncodeFrames(fs))| == |fs|
    ensures forall k :: 0 <= k < |fs| ==> Parse(EncodeFrames(fs))[k].args == fs[k].args
  {
    SplitFrames(fs);
    NonEmptyFront("", Bodies(fs));
    forall k | 0 <= k < |fs| ensures Bodies(fs)[k] != "" {
      BodyShape(fs[k]);
    }
    NonEmptyAll(Bodies(fs));
    assert [] + Bodies(fs) == Bodies(fs);
    forall k | 0 <= k < |fs| ensures Args(Bodies(fs)[k]) == fs[k].args {
      assert NoCrlf("");
      FragmentArgs("", fs[k].prefixes, fs[k].args);
    }
  }

  /** An empty chunk gives no command. */
  lemma ParseEmptyChunk()
    ensures Parse("") == []
  {
    assert StarSplit.Split("") == [""];
    assert [""][..0] == [];
  }

  // ---- The dispatch loop ----

  predicate Panics(commands: map<string, Handler>, c: RedisCommand) {
    DispatchSpec(commands, c).Panicked?
  }

  /**
   * Every command before the first panicking one gets exactly its own reply,
   * in order; without a panic every command is answered, and after a panic
   * the command at the position after the last reply is one that panics.
   */
  lemma {:induction false} ServeReplies(commands: map<string, Handler>, cmds: seq<RedisCommand>)
    ensures forall i :: 0 <= i < |Serve(commands, cmds).0| ==>
              !Panics(commands, cmds[i]) && Serve(commands, cmds).0[i] == DispatchSpec(commands, cmds[i]).reply
    ensures !Serve(commands, cmds).1 ==> |Serve(commands, cmds).0| == |cmds|
    ensures Serve(commands, cmds).1 ==>
              |Serve(commands, cmds).0| < |cmds| && Panics(commands, cmds[|Serve(commands, cmds).0|])
  {
    if cmds != [] {
      ServeReplies(commands, cmds[1..]);
      if !Panics(commands, cmds[0]) {
        var rest := Serve(commands, cmds[1..]);
        assert Serve(commands, cmds).0 == [DispatchSpec(commands, cmds[0]).reply] + rest.0;
        assert forall i :: 1 <= i < |cmds| ==> cmds[i] == cmds[1..][i - 1];
      }
    }
  }

  /** Processing ends in a panic exactly when some command of the chunk panics. */
  lemma {:induction false} ServePanics(commands: map<string, Handler>, cmds: seq<RedisCommand>)
    ensures Serve(commands, cmds).1 <==> exists i :: 0 <= i < |cmds| && Panics(commands, cmds[i])
  {
    if cmds != [] {
      ServePanics(commands, cmds[1..]);
      if !Panics(commands, cmds[0]) {
        assert Serve(commands, cmds).1 == Serve(commands, cmds[1..]).1;
        if Serve(commands, cmds[1..]).1 {
          var j :| 0 <= j < |cmds[1..]| && Panics(commands, cmds[1..][j]);
          assert Panics(commands, cmds[j + 1]);
        }
        if exists i :: 0 <= i < |cmds| && Panics(commands, cmds[i]) {
          var i :| 0 <= i < |cmds| && Panics(commands, cmds[i]);
          assert i > 0 && Panics(commands, cmds[1..][i - 1]);
        }
      }
    }
  }

  /** A name that is not registered is answered with the fixed error; no store is made. */
  lemma UnknownCommand(cmd: RedisCommand)
    requires |cmd.args| > 0 && cmd.Name() != "config" && cmd.Name() != "set"
    ensures DispatchSpec(Registry(), cmd) == Replied(NotFoundReply, None)
  {
  }

  /** A command without arguments panics in `name()`. */
  lemma EmptyArgsPanic(commands: map<string, Handler>, cmd: RedisCommand)
    requires |cmd.args| == 0
    ensures DispatchSpec(commands, cmd) == Panicked
  {
  }

  /** `config`, in any case, is answered `+OK` and its fresh store stays empty. */
  lemma ConfigCommand(cmd: RedisCommand)
    requires |cmd.args| > 0 && EqualIgnoringCase(cmd.args[0], "config")
    ensures DispatchSpec(Registry(), cmd) == Replied("+OK", Some(map[]))
  {
    ToLowerCaseInsensitive(cmd.args[0], "config");
    ToLowerFixpoint("config");
  }

  /**
   * `set`, in any case, with at least three params is answered `+OK`, and the
   * fresh store then holds the String value of `params[2]` under `params[1]`.
   */
  lemma SetCommand(cmd: RedisCommand)
    requires |cmd.args| >= 3 && EqualIgnoringCase(cmd.args[0], "set")
    ensures DispatchSpec(Registry(), cmd)
            == Replied("+OK", Some(map[cmd.args[1] := NewString(Encode(cmd.args[2]))]))
    ensures Lookup(DispatchSpec(Registry(), cmd).effect.value, cmd.args[1], String)
            == Ok(NewString(Encode(cmd.args[2])))
  {
    ToLowerCaseInsensitive(cmd.args[0], "set");
    ToLowerFixpoint("set");
    Handlers.SetOnRedis(LegacySet, map[], cmd, ErrorText);
  }

  /** `set` with fewer than three params panics in the handler. */
  lemma SetTooFewParams(cmd: RedisCommand)
    requires 0 < |cmd.args| < 3 && EqualIgnoringCase(cmd.args[0], "set")
    ensures DispatchSpec(Registry(), cmd) == Panicked
  {
    ToLowerCaseInsensitive(cmd.args[0], "set");
    ToLowerFixpoint("set");
  }

  /** A command named `frobnicate` is unknown. */
  lemma Frobnicate(cmd: RedisCommand)
    requires |cmd.args| > 0 && cmd.args[0] == "frobnicate"
    ensures DispatchSpec(Registry(), cmd) == Replied(NotFoundReply, None)
  {
    ToLowerFixpoint("frobnicate");
  }

  // ---- Whole chunks ----

  /**
   * A chunk that decodes to one SET command with three or more params is
   * answered `+OK`, and the store the handler ran against holds the String
   * value of `params[2]` under `params[1]`.
   */
  lemma SingleSetChunk(chunk: string)
    requires |Parse(chunk)| == 1
    requires |Parse(chunk)[0].args| >= 3 && EqualIgnoringCase(Parse(chunk)[0].args[0], "set")
    ensures DispatchSpec(Registry(), Parse(chunk)[0])
            == Replied("+OK", Some(map[Parse(chunk)[0].args[1] := NewString(Encode(Parse(chunk)[0].args[2]))]))
    ensures Serve(Registry(), Parse(chunk)) == (["+OK"], false)
  {
    var cmds := Parse(chunk);
    SetCommand(cmds[0]);
    assert cmds[1..] == [];
    assert Serve(Registry(), cmds[1..]) == ([], false);
    assert ["+OK"] + [] == ["+OK"];
    assert Serve(Registry(), cmds) == (["+OK"] + Serve(Registry(), cmds[1..]).0, Serve(Registry(), cmds[1..]).1);
  }

  lemma SetFrameDecoded(chunk: string)
    requires chunk == EncodeFrames([Frame("3", SetPrefixes, SetArgs)])
    requires WellShaped(Frame("3", SetPrefixes, SetArgs))
    ensures |Parse(chunk)| == 1 && Parse(chunk)[0].args == SetArgs
  {
    FramesDecode([Frame("3", SetPrefixes, SetArgs)]);
  }

  /** The SET frame of the tests decodes to one command whose params are `SET`, `key`, `Hello World`. */
  lemma SetFrameChunk(chunk: string)
    requires chunk == SetFrame
    ensures |Parse(chunk)| == 1 && Parse(chunk)[0].args == SetArgs
  {
    SetFrameEncoding();
    SetFrameDecoded(chunk);
  }

  /**
   * A chunk that decodes as the SET frame of the tests does is answered `+OK`,
   * and the store the handler ran against holds `Hello World` under `key`.
   */
  lemma SetFrameServed(chunk: string)
    requires |Parse(chunk)| == 1 && Parse(chunk)[0].args == SetArgs
    ensures Serve(Registry(), Parse(chunk)) == (["+OK"], false)
    ensures DispatchSpec(Registry(), Parse(chunk)[0])
            == Replied("+OK", Some(map["key" := NewString(Encode("Hello World"))]))
  {
    ToLowerFixpoint("set");
    assert EqualIgnoringCase(SetArgs[0], "set");
    SingleSetChunk(chunk);
  }

  /**
   * The end-to-end scenario of the SET test frame sent alone: one reply `+OK`,
   * no panic, and the handler's store holds `Hello World` under `key`.
   */
  lemma SetFrameAnswered(chunk: string)
    requires chunk == SetFrame
    ensures Serve(Registry(), Parse(chunk)) == (["+OK"], false)
    ensures |Parse(chunk)| == 1
    ensures DispatchSpec(Registry(), Parse(chunk)[0])
            == Replied("+OK", Some(map["key" := NewString(Encode("Hello World"))]))
  {
    SetFrameChunk(chunk);
    SetFrameServed(chunk);
  }

  lemma SetFrameShape()
    ensures WellShaped(Frame("3", SetPrefixes, SetArgs))
  {
    SetLinesNoCrlf();
    assert StarSplit.AllDigits("3");
    assert AllNoStar(SetPrefixes) by {
      assert StarSplit.NoStar("$3") && StarSplit.NoStar("$11");
    }
    assert AllNoStar(SetArgs) by {
      assert StarSplit.NoStar("SET") && StarSplit.NoStar("key") && StarSplit.NoStar("Hello World");
    }
  }

  lemma SetFrameEncoding()
    ensures WellShaped(Frame("3", SetPrefixes, SetArgs))
    ensures EncodeFrames([Frame("3", SetPrefixes, SetArgs)]) == SetFrame
  {
    var f := Frame("3", SetPrefixes, SetArgs);
    var rest := ["$3", "SET", "$3", "key", "$11", "Hello World", ""];
    SetFrameShape();
    EncodeOne(f);
    SetFragment();
    JoinFront("*3", rest);
    JoinFront("", rest);
    StarThree(Join(rest));
  }

  lemma EncodeOne(f: Frame)
    requires WellShaped(f)
    ensures EncodeFrames([f]) == "*" + f.count + Body(f)
  {
    assert [f][1..] == [];
  }

  lemma StarThree(j: string)
    ensures "*" + "3" + ("" + CRLF + j) == "*3" + CRLF + j
  {
  }

  /** A header with nothing after it leaves the fragment CRLF, a command without arguments: a panic. */
  lemma HeaderOnlyChunk()
    ensures |Parse("*3" + CRLF)| == 1 && Parse("*3" + CRLF)[0].args == []
    ensures Serve(Registry(), Parse("*3" + CRLF)) == ([], true)
  {
    HeaderOnlySplit();
    CrlfArgs();
    NonEmptyFront("", [CRLF]);
    NonEmptyAll([CRLF]);
    var cmds := Parse("*3" + CRLF);
    EmptyArgsPanic(Registry(), cmds[0]);
  }

  lemma HeaderOnlySplit()
    ensures StarSplit.Split("*3" + CRLF) == ["", CRLF]
  {
    assert StarSplit.AllDigits("3");
    StarSplit.SplitStarDigits("3", CRLF);
    assert "*3" + CRLF == "*" + "3" + CRLF;
    StarSplit.SplitNoStar(CRLF);
  }

  lemma CrlfArgs()
    ensures Args(CRLF) == []
  {
    JoinFront("", [""]);
    assert "" + CRLF + "" == CRLF;
    SplitJoin(["", ""]);
  }

  /**
   * The chunk `*3`, `$3`, `SET`, `$3`, `key`, `$3`, `a*b` (every line ended by
   * CRLF) of a SET whose value holds a star, and the two fragments it is split
   * into.
   */
  const StarValueHead: string := Join(["", "$3", "SET", "$3", "key", "$3", "a"])
  const StarValueTail: string := Join(["b", ""])
  const StarValueChunk: string := "*3" + StarValueHead + "*" + StarValueTail

  lemma StarValueShape()
    ensures StarValueChunk == "*" + "3" + (StarValueHead + "*" + "" + StarValueTail)
    ensures StarSplit.NoStar(StarValueHead) && StarSplit.NoStar(StarValueTail)
    ensures StarValueHead[0] == '\r' && StarValueTail[0] == 'b'
  {
    var rest := ["$3", "SET", "$3", "key", "$3", "a"];
    JoinFront("", rest);
    JoinFront("b", [""]);
    assert AllNoStar([""] + rest) by {
      assert StarSplit.NoStar("$3") && StarSplit.NoStar("SET") && StarSplit.NoStar("key") && StarSplit.NoStar("a");
    }
    JoinNoStar([""] + rest);
    JoinNoStar(["b", ""]);
  }

  /** A frame header, a piece, a lone `*` and a last piece: three pieces. */
  lemma SplitAtPayloadStar(head: string, tail: string)
    requires StarSplit.NoStar(head) && StarSplit.NoStar(tail)
    requires head != [] && !StarSplit.IsDigit(head[0]) && tail != [] && !StarSplit.IsDigit(tail[0])
    ensures StarSplit.Split("*" + "3" + (head + "*" + "" + tail)) == ["", head, tail]
  {
    assert StarSplit.AllDigits("3");
    StarSplit.SplitStarDigits("3", head + "*" + "" + tail);
    StarSplit.SplitCons(head, "", tail);
    StarSplit.SplitNoStar(tail);
  }

  lemma StarValueSplit()
    ensures StarSplit.Split(StarValueChunk) == ["", StarValueHead, StarValueTail]
  {
    StarValueShape();
    SplitAtPayloadStar(StarValueHead, StarValueTail);
  }

  lemma StarValueArgs()
    ensures Args(StarValueHead) == ["SET", "key", "a"]
    ensures Args(StarValueTail) == []
  {
    var l := ["", "$3", "SET", "$3", "key", "$3", "a"];
    NoReturnNoCrlf("");
    NoReturnNoCrlf("$3");
    NoReturnNoCrlf("SET");
    NoReturnNoCrlf("key");
    NoReturnNoCrlf("a");
    NoReturnNoCrlf("b");
    assert AllNoCrlf(l);
    SplitJoin(l);
    SplitJoin(["b", ""]);
  }

  /**
   * A `*` inside a payload is a split point too: the SET of `a*b` becomes a SET
   * of `a` and a fragment `b` CRLF without arguments.
   */
  lemma StarInPayload(chunk: string)
    requires chunk == StarValueChunk
    ensures |Parse(chunk)| == 2
    ensures Parse(chunk)[0].args == ["SET", "key", "a"]
    ensures Parse(chunk)[1].args == []
  {
    StarValueSplit();
    StarValueShape();
    TwoFragments(chunk, StarValueHead, StarValueTail);
    StarValueArgs();
  }

  /** A chunk split into an empty header piece and two non-empty fragments gives two commands. */
  lemma TwoFragments(chunk: string, head: string, tail: string)
    requires StarSplit.Split(chunk) == ["", head, tail] && head != [] && tail != []
    ensures |Parse(chunk)| == 2
    ensures Parse(chunk)[0].args == Args(head) && Parse(chunk)[1].args == Args(tail)
  {
    assert ["", head, tail] == [""] + [head, tail];
    NonEmptyFront("", [head, tail]);
    NonEmptyAll([head, tail]);
    assert NonEmpty(StarSplit.Split(chunk)) == [head, tail];
  }

  /** A SET followed by a command without arguments: the SET is answered, then the client panics. */
  lemma SetThenPanic(cmds: seq<RedisCommand>)
    requires |cmds| == 2 && |cmds[0].args| >= 3 && EqualIgnoringCase(cmds[0].args[0], "set")
    requires cmds[1].args == []
    ensures Serve(Registry(), cmds) == (["+OK"], true)
  {
    SetCommand(cmds[0]);
    EmptyArgsPanic(Registry(), cmds[1]);
    assert cmds[1..][0] == cmds[1];
    assert Serve(Registry(), cmds[1..]) == ([], true);
    assert Serve(Registry(), cmds) == (["+OK"] + [], true);
    assert ["+OK"] + [] == ["+OK"];
  }
}
