/** The loader and the encoder of aof.c as they run: a stream with a position, and loops over the
    arguments. */
module AofFile {
  import opened Bytes
  import opened AofCodec

  /** `catAppendOnlyGenericCommand` (aof.c:451-474). */
  method CatAppendOnlyGenericCommand(dst: seq<Byte>, argv: Command) returns (r: seq<Byte>)
    ensures r == dst + Encode(argv)
  {
    r := dst + Header(STAR, |argv|);
    var j := 0;
    while j < |argv|
      invariant j <= |argv|
      invariant r + EncodeArgs(argv[j..]) == dst + Encode(argv)
    {
      CatArg(dst + Encode(argv), r, argv, j);
      r := r + [DOLLAR] + Dec(|argv[j]|) + CRLF;
      r := r + argv[j];
      r := r + CRLF;
      j := j + 1;
    }
    assert EncodeArgs(argv[|argv|..]) == [];
  }

  lemma CatArg(all: seq<Byte>, r: seq<Byte>, argv: Command, j: nat)
    requires j < |argv| && r + EncodeArgs(argv[j..]) == all
    ensures (r + [DOLLAR] + Dec(|argv[j]|) + CRLF + argv[j] + CRLF) + EncodeArgs(argv[j + 1..]) == all
  {
    hide Dec;
    var t := argv[j..];
    assert t[1..] == argv[j + 1..] && t[0] == argv[j];
    assert EncodeArgs(t) == EncodeArg(argv[j]) + EncodeArgs(argv[j + 1..]);
    assert r + [DOLLAR] + Dec(|argv[j]|) + CRLF + argv[j] + CRLF == r + EncodeArg(argv[j]);
    Assoc(r, EncodeArg(argv[j]), EncodeArgs(argv[j + 1..]));
    hide EncodeArg;
    hide EncodeArgs;
  }

  function Prepend(args: Command, r: ReadArgs): ReadArgs {
    match r
    case Args(more, rest) => Args(args + more, rest)
    case other => other
  }

  /** A `FILE` open for reading: what is left of it, and `ftello`. */
  class Stream {
    var rest: seq<Byte>
    var pos: nat

    constructor (file: seq<Byte>)
      ensures rest == file && pos == 0
    {
      rest, pos := file, 0;
    }

    /** `fgets`: a line of at most `max` bytes, empty at the end of the file. */
    method Fgets(max: nat) returns (line: seq<Byte>)
      requires max > 0
      modifies this
      ensures |line| == LineLength(old(rest), max) && line == old(rest)[..|line|] && rest == old(rest)[|line|..]
      ensures pos == old(pos) + |line|
      ensures line == [] <==> old(rest) == []
    {
      var n := 0;
      while n < |rest| && n < max && (n == 0 || rest[n - 1] != LF)
        invariant n <= |rest| && n <= max
        invariant LineLength(rest, max) ==
                  n + if n > 0 && rest[n - 1] == LF then 0 else LineLength(rest[n..], max - n)
      {
        assert rest[n..][1..] == rest[n + 1..];
        n := n + 1;
      }
      line := rest[..n];
      rest, pos := rest[n..], pos + n;
    }

    /** `fread` of one item of `n` bytes: nothing is returned if the file ends first. */
    method Fread(n: nat) returns (ok: bool, data: seq<Byte>)
      modifies this
      ensures ok == (|old(rest)| >= n)
      ensures ok ==> data == old(rest)[..n] && rest == old(rest)[n..] && pos == old(pos) + n
    {
      if |rest| < n {
        rest, pos := [], pos + |rest|;
        return false, [];
      }
      data := rest[..n];
      rest, pos := rest[n..], pos + n;
      return true, data;
    }

    /** One argument (aof.c:671-690). */
    method ReadArg() returns (r: ReadArgs)
      modifies this
      ensures r == ParseArgs(old(rest), 1)
      ensures r.Args? ==> r.rest == rest && pos == old(pos) + |old(rest)| - |rest|
    {
      ghost var s := rest;
      var line := Fgets(LINE_MAX);
      if line == [] {
        return ShortArgs;
      }
      if line[0] != DOLLAR {
        return BadArgs;
      }
      assert line[1..] == s[1..|line|];
      var len := Strtol(line[1..]);
      if len < 0 {
        return BadArgs;
      }
      ghost var t := rest;
      var arg: Bulk := [];
      if len != 0 {
        var ok, data := Fread(len);
        if !ok {
          return ShortArgs;
        }
        arg := data;
      }
      assert arg == t[..len] && rest == t[len..];
      var crlf, _ := Fread(2);
      if !crlf {
        return ShortArgs;
      }
      assert rest == t[len + 2..];
      assert ParseArgs(t[len + 2..], 0) == Args([], t[len + 2..]);
      assert [arg] + [] == [arg];
      return Args([arg], rest);
    }

    /** The loop over the arguments (aof.c:670-691). */
    method ReadArgv(argc: nat) returns (r: ReadArgs)
      modifies this
      ensures r == ParseArgs(old(rest), argc)
      ensures r.Args? ==> r.rest == rest && pos == old(pos) + |old(rest)| - |rest|
    {
      ghost var s := rest;
      var argv: Command := [];
      assert Prepend([], ParseArgs(s, argc)) == ParseArgs(s, argc);
      for j := 0 to argc
        invariant |rest| <= |s| && pos == old(pos) + |s| - |rest|
        invariant Prepend(argv, ParseArgs(rest, argc - j)) == ParseArgs(s, argc)
      {
        ParseOneMore(argv, rest, argc - j);
        var a := ReadArg();
        match a {
          case Args(one, _) => argv := argv + one;
          case other => return other;
        }
      }
      assert argv + [] == argv;
      return Args(argv, rest);
    }

    /** One command (aof.c:655-691). */
    method ReadCommand() returns (r: ReadCommand)
      modifies this
      ensures r == Parse(old(rest))
      ensures r.Got? ==> r.rest == rest && pos == old(pos) + |old(rest)| - |rest|
    {
      ghost var s := rest;
      hide ParseArgs;
      hide LineLength;
      hide Atoi;
      var buf := Fgets(LINE_MAX);
      if buf == [] {
        return AtEnd;
      }
      if buf[0] != STAR {
        return Bad;
      }
      if |buf| == 1 || buf[1] == 0 {
        var eof := HitEnd(buf, LINE_MAX);
        return if eof then Short else Bad;
      }
      assert buf[1..] == s[1..|buf|];
      var argc := Atoi(buf[1..]);
      if argc < 1 {
        return Bad;
      }
      var args := ReadArgv(argc);
      match args {
        case Args(argv, left) => return Got(argv, left);
        case ShortArgs => return Short;
        case BadArgs => return Bad;
      }
    }
  }

  /** One argument at a time. */
  lemma ParseOneMore(argv: Command, s: seq<Byte>, n: nat)
    requires n > 0
    ensures Prepend(argv, ParseArgs(s, n)) ==
            match ParseArgs(s, 1)
            case Args(one, rest) => Prepend(argv + one, ParseArgs(rest, n - 1))
            case other => other
  {
    ParseFirst(s, n);
    match ParseArgs(s, 1) {
      case Args(one, rest) =>
        hide ParseArgs;
        PrependTwice(argv, one, ParseArgs(rest, n - 1));
      case other =>
    }
  }

  lemma ParseFirst(s: seq<Byte>, n: nat)
    requires n > 0
    ensures ParseArgs(s, n) ==
            match ParseArgs(s, 1)
            case Args(one, rest) => Prepend(one, ParseArgs(rest, n - 1))
            case other => other
  {
    hide LineLength;
    hide Strtol;
  }

  lemma PrependTwice(a: Command, b: Command, r: ReadArgs)
    ensures Prepend(a, Prepend(b, r)) == Prepend(a + b, r)
  {
    match r
    case Args(more, rest) => assert (a + b) + more == a + (b + more);
    case other =>
  }

  datatype Progress = More(executed: seq<Command>) | Finished(r: Loaded)

  /** After one command was read: it is executed, or loading ends. */
  function Turn(c: ReadCommand, executed: seq<Command>, used: nat, ok: bool): Progress {
    match c
    case AtEnd =>
      Finished(if !InMulti(executed) then Ok(executed) else if ok then Truncated(executed, used) else Fatal)
    case Short => Finished(if ok then Truncated(executed, used) else Fatal)
    case Bad => Finished(Fatal)
    case Got(cmd, _) => More(executed + [cmd])
  }

  /** Loading ends, or goes on with what is left, as from `s`. */
  ghost predicate Continues(s: seq<Byte>, executed: seq<Command>, used: nat, ok: bool, p: Progress, left: seq<Byte>,
                            usedNow: nat) {
    match p
    case Finished(r) => r == LoadFrom(s, executed, used, ok)
    case More(more) => |left| < |s| && LoadFrom(left, more, usedNow, ok) == LoadFrom(s, executed, used, ok)
  }

  lemma TurnLoads(s: seq<Byte>, executed: seq<Command>, used: nat, ok: bool)
    ensures var left := if Parse(s).Got? then Parse(s).rest else s;
      Continues(s, executed, used, ok, Turn(Parse(s), executed, used, ok), left, used + |s| - |left|)
  {
    var c := Parse(s);
    hide Parse;
    hide InMulti;
  }

  /** One turn of the loader's loop. */
  method LoadOne(s: Stream, executed: seq<Command>, loadTruncated: bool) returns (p: Progress)
    modifies s
    ensures Continues(old(s.rest), executed, old(s.pos), loadTruncated, p, s.rest, s.pos)
  {
    ghost var start := s.rest;
    var used := s.pos;
    TurnLoads(start, executed, used, loadTruncated);
    hide Continues;
    hide Parse;
    var c := s.ReadCommand();
    p := Turn(c, executed, used, loadTruncated);
    if p.Finished? {
      FinishedAnywhere(start, executed, used, loadTruncated, p, start, used, s.rest, s.pos);
    }
  }

  lemma FinishedAnywhere(s: seq<Byte>, executed: seq<Command>, used: nat, ok: bool, p: Progress, left: seq<Byte>,
                         usedNow: nat, left': seq<Byte>, usedNow': nat)
    requires p.Finished? && Continues(s, executed, used, ok, p, left, usedNow)
    ensures Continues(s, executed, used, ok, p, left', usedNow')
  {
  }

  /** `loadAppendOnlyFile` (aof.c:615-764): the commands executed are those returned. */
  method LoadAppendOnlyFile(file: seq<Byte>, loadTruncated: bool) returns (r: Loaded)
    ensures r == Load(file, loadTruncated)
  {
    if file == [] {
      return Empty;
    }
    hide LoadFrom;
    hide Parse;
    hide InMulti;
    var s := new Stream(file);
    var executed: seq<Command> := [];
    var validUpTo := 0;
    while true
      invariant s.pos == validUpTo
      invariant LoadFrom(s.rest, executed, validUpTo, loadTruncated) == LoadFrom(file, [], 0, loadTruncated)
      decreases |s.rest|
    {
      var p := LoadOne(s, executed, loadTruncated);
      match p {
        case Finished(loaded) => return loaded;
        case More(more) =>
          executed := more;
          validUpTo := s.pos;
      }
    }
  }
}
