/**
 * One decoded command: the raw fragment it came from and its arguments, the
 * CRLF-separated pieces of the fragment at positions 2, 4, 6, ... (every
 * length-prefix line `$n` and the header line are dropped, and the declared
 * lengths are never checked).
 */
module RedisCommand {
  import opened Crlf
  import opened Ascii

  datatype RedisCommand = RedisCommand(cmd: string, args: seq<string>) {

    /** The fields are private in the source and `args` is always computed from `cmd`. */
    predicate Valid() {
      args == Args(cmd)
    }

    /** `name()`: the first argument, lower-cased; it indexes `args[0]`, so `args` must not be empty. */
    function Name(): (n: string)
      requires |args| > 0
      ensures IsLower(n)
      ensures EqualIgnoringCase(n, args[0])
    {
      ToLowerIsLower(args[0]);
      ToLowerAt(args[0]);
      ToLower(args[0])
    }
  }

  /** The pieces at odd positions: `xs[1], xs[3], ...`. */
  function OddPieces(xs: seq<string>): (r: seq<string>)
    ensures |r| == |xs| / 2
    ensures forall i :: 0 <= i < |r| ==> r[i] == xs[2 * i + 1]
  {
    if |xs| < 2 then [] else [xs[1]] + OddPieces(xs[2..])
  }

  /** The arguments of a fragment: the odd positions of its CRLF pieces after the first. */
  function Args(cmd: string): (r: seq<string>)
    ensures |r| == (|Split(cmd)| - 1) / 2
    ensures forall i :: 0 <= i < |r| ==> r[i] == Split(cmd)[2 * i + 2]
  {
    OddPieces(Split(cmd)[1..])
  }

  /** The loop shared by `RedisCommand::new` and `params`. */
  method PayloadArgs(cmd: string) returns (args: seq<string>)
    ensures args == Args(cmd)
  {
    var elems := Split(cmd);
    var tail := elems[1..];
    args := [];
    var idx := 0;
    while idx < |tail|
      invariant 0 <= idx <= |tail|
      invariant |args| == idx / 2
      invariant forall j :: 0 <= j < |args| ==> args[j] == tail[2 * j + 1]
    {
      if idx % 2 != 0 {
        args := args + [tail[idx]];
      }
      idx := idx + 1;
    }
  }

  /** `RedisCommand::new(cmd)`. */
  method New(cmd: string) returns (c: RedisCommand)
    ensures c.cmd == cmd && c.Valid()
  {
    var args := PayloadArgs(cmd);
    c := RedisCommand(cmd, args);
  }

  /** `params()`: recomputes the arguments from the fragment, giving exactly `args`. */
  method Params(c: RedisCommand) returns (p: seq<string>)
    requires c.Valid()
    ensures p == c.args
  {
    p := PayloadArgs(c.cmd);
  }

  /** Length prefixes and payloads, alternating: `[p0, a0, p1, a1, ...]`. */
  function Interleave(ps: seq<string>, xs: seq<string>): (r: seq<string>)
    requires |ps| == |xs|
    ensures |r| == 2 * |xs|
    ensures forall i :: 0 <= i < |xs| ==> r[2 * i] == ps[i] && r[2 * i + 1] == xs[i]
  {
    if ps == [] then [] else [ps[0], xs[0]] + Interleave(ps[1..], xs[1..])
  }

  /**
   * A fragment laid out as a header line, then one prefix line and one payload
   * line per argument, each line ended by CRLF.
   */
  function Fragment(header: string, ps: seq<string>, xs: seq<string>): (s: string)
    requires |ps| == |xs|
  {
    Join([header] + Interleave(ps, xs) + [""])
  }

  predicate FrameLines(header: string, ps: seq<string>, xs: seq<string>) {
    |ps| == |xs| && NoCrlf(header) && AllNoCrlf(ps) && AllNoCrlf(xs)
  }

  /** The lines of a well-shaped fragment hold no CRLF. */
  lemma FrameLinesNoCrlf(header: string, ps: seq<string>, xs: seq<string>)
    requires FrameLines(header, ps, xs)
    ensures AllNoCrlf([header] + Interleave(ps, xs) + [""])
  {
    var lines := [header] + Interleave(ps, xs) + [""];
    assert NoCrlf("");
    forall i | 0 <= i < |lines| ensures NoCrlf(lines[i]) {
      if 1 <= i <= 2 * |xs| {
        var j := (i - 1) / 2;
        if i % 2 == 1 { assert lines[i] == ps[j]; } else { assert lines[i] == xs[j]; }
      }
    }
  }

  /** Whatever header and prefix lines a fragment has, its arguments are its payload lines. */
  lemma FragmentArgs(header: string, ps: seq<string>, xs: seq<string>)
    requires FrameLines(header, ps, xs)
    ensures Args(Fragment(header, ps, xs)) == xs
  {
    var lines := [header] + Interleave(ps, xs) + [""];
    FrameLinesNoCrlf(header, ps, xs);
    SplitJoin(lines);
    assert forall i :: 0 <= i < |xs| ==> lines[2 * i + 2] == xs[i];
  }

  /** The declared lengths are never checked: changing the prefix lines changes nothing. */
  lemma PrefixesIgnored(h1: string, ps1: seq<string>, h2: string, ps2: seq<string>, xs: seq<string>)
    requires FrameLines(h1, ps1, xs) && FrameLines(h2, ps2, xs)
    ensures Args(Fragment(h1, ps1, xs)) == Args(Fragment(h2, ps2, xs))
  {
    FragmentArgs(h1, ps1, xs);
    FragmentArgs(h2, ps2, xs);
  }

  /**
   * The SET frame of the unit tests, line by line (every line ended by CRLF),
   * and what follows its `*3` header.
   */
  const SetFrame: string := Join(["*3", "$3", "SET", "$3", "key", "$11", "Hello World", ""])
  const SetBody: string := Join(["", "$3", "SET", "$3", "key", "$11", "Hello World", ""])

  const SetPrefixes: seq<string> := ["$3", "$3", "$11"]
  const SetArgs: seq<string> := ["SET", "key", "Hello World"]

  /** The SET frame is a fragment with header `*3`, and its body one with an empty header. */
  lemma SetFragment()
    ensures SetFrame == Fragment("*3", SetPrefixes, SetArgs)
    ensures SetBody == Fragment("", SetPrefixes, SetArgs)
  {
    var lines := ["$3", "SET", "$3", "key", "$11", "Hello World"];
    assert Interleave(SetPrefixes, SetArgs) == lines;
    assert ["*3"] + lines + [""] == ["*3", "$3", "SET", "$3", "key", "$11", "Hello World", ""];
    assert [""] + lines + [""] == ["", "$3", "SET", "$3", "key", "$11", "Hello World", ""];
  }

  /** A line is CRLF-free when it has no carriage return at all. */
  lemma NoReturnNoCrlf(s: string)
    requires forall i :: 0 <= i < |s| ==> s[i] != '\r'
    ensures NoCrlf(s)
  {
  }

  lemma SetLinesNoCrlf()
    ensures NoCrlf("*3") && NoCrlf("")
    ensures FrameLines("*3", SetPrefixes, SetArgs) && FrameLines("", SetPrefixes, SetArgs)
  {
    NoReturnNoCrlf("*3");
    NoReturnNoCrlf("");
    NoReturnNoCrlf("$3");
    NoReturnNoCrlf("$11");
    NoReturnNoCrlf("SET");
    NoReturnNoCrlf("key");
    NoReturnNoCrlf("Hello World");
  }

  /** The SET frame decodes to the arguments `SET`, `key`, `Hello World`. */
  lemma SetFrameArgs()
    ensures Args(SetFrame) == SetArgs
  {
    var f := Fragment("*3", SetPrefixes, SetArgs);
    SetLinesNoCrlf();
    FragmentArgs("*3", SetPrefixes, SetArgs);
    SetFragment();
  }

  /** So does the SET frame without its `*3` header. */
  lemma SetBodyArgs()
    ensures Args(SetBody) == SetArgs
  {
    SetFragment();
    SetLinesNoCrlf();
    FragmentArgs("", SetPrefixes, SetArgs);
  }

  /** The command unit tests: params are `SET`, `key`, `Hello World` and the name is `set`. */
  lemma SetFrameCommand(c: RedisCommand)
    requires c.cmd == SetFrame && c.Valid()
    ensures c.args == ["SET", "key", "Hello World"]
    ensures c.Name() == "set"
  {
    SetFrameArgs();
  }

  /**
   * `RedisCommand::new` on the SET frame, as the handler tests build their
   * command: a valid command on that frame, with three params.
   */
  method NewSetFrame() returns (c: RedisCommand)
    ensures c.cmd == SetFrame
    ensures c.Valid() && |c.args| == 3
  {
    c := New(SetFrame);
    SetFrameCommand(c);
  }
}
