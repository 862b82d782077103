/** The append only file of aof.c as text: how commands are written, and how the loader reads them,
    also when the file stops in the middle of a command. */
module AofCodec {
  import opened Bytes

  type Bulk = seq<Byte>
  type Command = seq<Bulk>

  const STAR: Byte := 42
  const DOLLAR: Byte := 36
  const CRLF: seq<Byte> := [CR, LF]
  const LINE_MAX := 127 // sizeof(buf)-1 in the loader

  // ---- Writing ----

  function Header(mark: Byte, n: nat): seq<Byte> { [mark] + Dec(n) + CRLF }

  function EncodeArg(a: Bulk): seq<Byte> { Header(DOLLAR, |a|) + a + CRLF }

  function EncodeArgs(c: Command): seq<Byte> {
    if c == [] then [] else EncodeArg(c[0]) + EncodeArgs(c[1..])
  }

  /** `catAppendOnlyGenericCommand` (aof.c:451-474). */
  function Encode(c: Command): seq<Byte> { Header(STAR, |c|) + EncodeArgs(c) }

  /** The bytes themselves, for SET k v. */
  lemma EncodedText()
    ensures Encode([Ascii("SET"), Ascii("k"), Ascii("v")]) ==
            Ascii("*3\r\n") + Ascii("$3\r\nSET\r\n") + Ascii("$1\r\nk\r\n") + Ascii("$1\r\nv\r\n")
  {
    hide Header;
    hide EncodeArg;
    hide EncodeArgs;
    hide Ascii;
    assert Header(STAR, 3) == Ascii("*3\r\n") by { ThreeText(); }
    assert EncodeArg(Ascii("SET")) == Ascii("$3\r\nSET\r\n") by { SetText(); }
    assert EncodeArg(Ascii("k")) == Ascii("$1\r\nk\r\n") by { KeyText(); }
    assert EncodeArg(Ascii("v")) == Ascii("$1\r\nv\r\n") by { ValueText(); }
    ThreeArgs(Ascii("SET"), Ascii("k"), Ascii("v"));
  }

  lemma ThreeText()
    ensures Header(STAR, 3) == Ascii("*3\r\n")
  {
    assert Dec(3) == [51];
  }

  lemma SetText()
    ensures EncodeArg(Ascii("SET")) == Ascii("$3\r\nSET\r\n")
  {
    EncodedArg(Ascii("SET"), 51);
  }

  lemma KeyText()
    ensures EncodeArg(Ascii("k")) == Ascii("$1\r\nk\r\n")
  {
    EncodedArg(Ascii("k"), 49);
  }

  lemma ValueText()
    ensures EncodeArg(Ascii("v")) == Ascii("$1\r\nv\r\n")
  {
    EncodedArg(Ascii("v"), 49);
  }

  lemma EncodedArg(a: Bulk, digit: Byte)
    requires |a| < 10 && digit == 48 + |a|
    ensures EncodeArg(a) == Ascii("$") + [digit] + Ascii("\r\n") + a + Ascii("\r\n")
  {
    assert Dec(|a|) == [digit];
    assert CRLF == Ascii("\r\n");
  }

  lemma ThreeArgs(a: Bulk, b: Bulk, c: Bulk)
    ensures EncodeArgs([a, b, c]) == EncodeArg(a) + EncodeArg(b) + EncodeArg(c)
  {
    hide EncodeArg;
    assert [a, b, c][1..] == [b, c] && [b, c][1..] == [c];
    assert EncodeArgs([c]) == EncodeArg(c) + EncodeArgs([]);
    assert EncodeArgs([b, c]) == EncodeArg(b) + EncodeArgs([c]);
  }

  function EncodeAll(cs: seq<Command>): seq<Byte> {
    if cs == [] then [] else Encode(cs[0]) + EncodeAll(cs[1..])
  }

  // ---- Reading ----

  /** How many bytes `fgets` takes: up to and including a line feed, at most `max`. */
  function LineLength(s: seq<Byte>, max: nat): (n: nat)
    ensures n <= |s| && n <= max
    ensures s != [] && max > 0 ==> n > 0
  {
    if s == [] || max == 0 then 0 else if s[0] == LF then 1 else 1 + LineLength(s[1..], max - 1)
  }

  datatype ReadArgs = Args(args: Command, rest: seq<Byte>) | ShortArgs | BadArgs

  /** The loop over the arguments (aof.c:670-691): short when the file ends early. */
  function ParseArgs(s: seq<Byte>, n: nat): (r: ReadArgs)
    ensures r.Args? ==> |r.args| == n && |r.rest| <= |s|
    decreases n
  {
    if n == 0 then Args([], s)
    else if s == [] then ShortArgs
    else
      var k := LineLength(s, LINE_MAX);
      if s[0] != DOLLAR then BadArgs
      else
        var len := Strtol(s[1..k]);
        var t := s[k..];
        if len < 0 then BadArgs
        else if |t| < len then ShortArgs
        else if |t| - len < 2 then ShortArgs
        else
          match ParseArgs(t[len + 2..], n - 1)
          case Args(more, rest) => Args([t[..len]] + more, rest)
          case other => other
  }

  datatype ReadCommand = Got(c: Command, rest: seq<Byte>) | AtEnd | Short | Bad

  /** `feof` after `fgets` took the line: it stopped neither at a line feed nor at a full buffer. */
  predicate HitEnd(line: seq<Byte>, max: nat) {
    |line| < max && (line == [] || line[|line| - 1] != LF)
  }

  /** One command of the loader (aof.c:655-691). A line that is empty as a C string after its mark is
      an early end only if the file ended with it, otherwise a read error (aof.c:727-731). */
  function Parse(s: seq<Byte>): (r: ReadCommand)
    ensures r.Got? ==> |r.rest| < |s| && r.c != []
    ensures r.AtEnd? <==> s == []
  {
    if s == [] then AtEnd
    else
      var k := LineLength(s, LINE_MAX);
      if s[0] != STAR then Bad
      else if k == 1 || s[1] == 0 then if HitEnd(s[..k], LINE_MAX) then Short else Bad
      else
        var argc := Atoi(s[1..k]);
        if argc < 1 then Bad
        else
          match ParseArgs(s[k..], argc)
          case Args(args, rest) => Got(args, rest)
          case ShortArgs => Short
          case BadArgs => Bad
  }

  /** What loading does: the commands executed, and the length the file is cut to if it is cut. A
      format error, or an early end without `aof-load-truncated`, stops the server. */
  datatype Loaded = Empty | Ok(cmds: seq<Command>) | Truncated(cmds: seq<Command>, size: nat) | Fatal

  predicate EqualsIgnoringCase(a: Bulk, lower: Bulk) {
    |a| == |lower| &&
    forall i :: 0 <= i < |a| ==> a[i] == lower[i] || (97 <= lower[i] <= 122 && a[i] == lower[i] - 32)
  }

  const MULTI: Bulk := [109, 117, 108, 116, 105]
  const EXEC: Bulk := [101, 120, 101, 99]
  const DISCARD: Bulk := [100, 105, 115, 99, 97, 114, 100]

  predicate IsMulti(c: Command) { c != [] && EqualsIgnoringCase(c[0], MULTI) }

  predicate EndsMulti(c: Command) {
    c != [] && (EqualsIgnoringCase(c[0], EXEC) || EqualsIgnoringCase(c[0], DISCARD))
  }

  /** The client is inside a MULTI after the commands. */
  function InMulti(cs: seq<Command>): bool {
    cs != [] && (IsMulti(cs[|cs| - 1]) || (!EndsMulti(cs[|cs| - 1]) && InMulti(cs[..|cs| - 1])))
  }

  /** The loop of `loadAppendOnlyFile`: `done` commands took `used` bytes so far. */
  function LoadFrom(s: seq<Byte>, done: seq<Command>, used: nat, truncatedOk: bool): Loaded
    decreases |s|
  {
    match Parse(s)
    case AtEnd => if !InMulti(done) then Ok(done) else if truncatedOk then Truncated(done, used) else Fatal
    case Short => if truncatedOk then Truncated(done, used) else Fatal
    case Bad => Fatal
    case Got(c, rest) => LoadFrom(rest, done + [c], used + (|s| - |rest|), truncatedOk)
  }

  /** `loadAppendOnlyFile` (aof.c:615-764). */
  function Load(file: seq<Byte>, truncatedOk: bool): Loaded {
    if file == [] then Empty else LoadFrom(file, [], 0, truncatedOk)
  }

  // ---- Lines ----

  lemma {:induction false} LineOf(a: seq<Byte>, rest: seq<Byte>, max: nat)
    requires forall i :: 0 <= i < |a| ==> a[i] != LF
    requires |a| < max
    ensures LineLength(a + [LF] + rest, max) == |a| + 1
    decreases |a|
  {
    if a == [] {
      assert (a + [LF] + rest)[0] == LF;
    } else {
      assert (a + [LF] + rest)[1..] == a[1..] + [LF] + rest;
      LineOf(a[1..], rest, max - 1);
    }
  }

  lemma {:induction false} LineCut(a: seq<Byte>, max: nat)
    requires forall i :: 0 <= i < |a| ==> a[i] != LF
    requires |a| <= max
    ensures LineLength(a, max) == |a|
  {
    if a != [] {
      LineCut(a[1..], max - 1);
    }
  }

  const WIDTH := 19 // digits of LONG_MAX

  /** A length that `strtol` reads back. */
  predicate Fits(n: nat) { n <= LONG_MAX }

  lemma FewDigits(n: nat)
    requires Fits(n)
    ensures |Dec(n)| <= WIDTH
  {
    assert Pow10(4) == 10_000;
    assert Pow10(8) == 10_000 * Pow10(4) == 1_0000_0000;
    assert Pow10(12) == 10_000 * Pow10(8) == 1_0000_0000_0000;
    assert Pow10(16) == 10_000 * Pow10(12) == 1_0000_0000_0000_0000;
    assert Pow10(19) == 1000 * Pow10(16) == 1000_0000_0000_0000_0000;
    DecLength(n, WIDTH);
  }

  /** The argument count goes through an `int`, each length through a `long`. */
  predicate CommandFits(c: Command) {
    c != [] && |c| <= INT_MAX && forall i :: 0 <= i < |c| ==> Fits(|c[i]|)
  }

  /** A header line reads back as its number. */
  lemma HeaderReads(mark: Byte, n: nat, rest: seq<Byte>)
    requires Fits(n) && mark != LF
    ensures var s := Header(mark, n) + rest;
            var k := LineLength(s, LINE_MAX);
      && k == |Header(mark, n)| && k > 2 && s[0] == mark && s[1] != 0 && Strtol(s[1..k]) == n && s[k..] == rest
  {
    var d := Dec(n);
    var a := [mark] + d + [CR];
    FewDigits(n);
    StrtolDec(n, CRLF);
    hide Dec;
    hide Strtol;
    hide LineLength;
    LineOf(a, rest, LINE_MAX);
    var s := Header(mark, n) + rest;
    assert s == a + [LF] + rest;
    assert s[1..|a| + 1] == d + CRLF;
  }

  /** A header line cut before its end is one line, and the file ends with it. */
  lemma HeaderCut(mark: Byte, n: nat, k: nat)
    requires Fits(n) && mark != LF && 0 < k < |Header(mark, n)|
    ensures var s := Header(mark, n)[..k];
      && LineLength(s, LINE_MAX) == k && s[0] == mark
      && (k > 1 ==> s[1] != 0 && 0 <= Strtol(s[1..k]) <= n && (n > 0 ==> Strtol(s[1..k]) > 0))
  {
    var d := Dec(n);
    FewDigits(n);
    var s := Header(mark, n)[..k];
    hide Dec;
    LineCut(s, LINE_MAX);
    if 1 < k <= |d| + 1 {
      assert s == [mark] + d[..k - 1];
      assert s[1..k] == d[..k - 1];
      CutNumber(n, k - 1);
    } else if k > 1 {
      assert s == [mark] + (d + [CR]);
      assert s[1..k] == d + [CR];
      assert s[1] == d[0];
      StrtolDec(n, [CR]);
    }
  }

  lemma CutNumber(n: nat, k: nat)
    requires 0 < k <= |Dec(n)|
    ensures 0 <= Strtol(Dec(n)[..k]) <= n && (n > 0 ==> Strtol(Dec(n)[..k]) > 0)
  {
    if n > 0 {
      StrtolCut(n, k);
    }
    CutSmaller(n, k);
  }

  lemma PairEncodes(a: Bulk, b: Bulk)
    ensures EncodeArgs([a, b]) == EncodeArg(a) + EncodeArg(b)
  {
    hide EncodeArg;
    assert [a, b][1..] == [b];
    assert EncodeArgs([b]) == EncodeArg(b) + EncodeArgs([]);
    assert EncodeArg(b) + [] == EncodeArg(b);
  }

  // ---- Round trip ----

  /** One argument reads back, and the rest goes on. */
  lemma ArgReads(a: Bulk, t: seq<Byte>, n: nat)
    requires Fits(|a|)
    ensures ParseArgs(EncodeArg(a) + t, n + 1) ==
            match ParseArgs(t, n)
            case Args(more, rest) => Args([a] + more, rest)
            case other => other
  {
    var after := a + CRLF + t;
    var s := EncodeArg(a) + t;
    assert s == Header(DOLLAR, |a|) + after;
    HeaderReads(DOLLAR, |a|, after);
    hide LineLength;
    hide Strtol;
    hide Header;
    hide EncodeArg;
    assert after[..|a|] == a;
    assert after[|a| + 2..] == t;
  }

  lemma {:induction false} ArgsRead(c: Command, rest: seq<Byte>)
    requires forall i :: 0 <= i < |c| ==> Fits(|c[i]|)
    ensures ParseArgs(EncodeArgs(c) + rest, |c|) == Args(c, rest)
    decreases |c|
  {
    if c == [] {
      assert EncodeArgs(c) + rest == rest;
    } else {
      hide EncodeArg;
      hide Fits;
      assert EncodeArgs(c) + rest == EncodeArg(c[0]) + (EncodeArgs(c[1..]) + rest);
      ArgReads(c[0], EncodeArgs(c[1..]) + rest, |c| - 1);
      ArgsRead(c[1..], rest);
      hide ParseArgs;
      assert [c[0]] + c[1..] == c;
    }
  }

  lemma ParseReads(c: Command, rest: seq<Byte>)
    requires CommandFits(c)
    ensures Parse(Encode(c) + rest) == Got(c, rest)
  {
    assert Encode(c) + rest == Header(STAR, |c|) + (EncodeArgs(c) + rest);
    HeaderReads(STAR, |c|, EncodeArgs(c) + rest);
    ArgsRead(c, rest);
    hide LineLength;
    hide Strtol;
    hide Header;
    hide EncodeArgs;
    hide ParseArgs;
  }

  /** An argument cut short, wherever the cut is. */
  lemma ArgCut(a: Bulk, k: nat, n: nat)
    requires Fits(|a|) && k < |EncodeArg(a)| && n > 0
    ensures ParseArgs(EncodeArg(a)[..k], n) == ShortArgs
  {
    var h := Header(DOLLAR, |a|);
    var s := EncodeArg(a)[..k];
    assert EncodeArg(a) == h + (a + CRLF);
    if k == 0 {
    } else if k < |h| {
      assert s == h[..k];
      HeaderCut(DOLLAR, |a|, k);
      StrtolNothing();
      hide Header;
    } else {
      var after := (a + CRLF)[..k - |h|];
      assert s == h + after;
      HeaderReads(DOLLAR, |a|, after);
      hide LineLength;
      hide Strtol;
      hide Header;
    }
  }

  lemma EncodeArgsFirst(c: Command)
    requires c != []
    ensures EncodeArgs(c) == EncodeArg(c[0]) + EncodeArgs(c[1..])
  {
  }

  lemma TakeConcat(a: seq<Byte>, b: seq<Byte>, k: nat)
    requires k <= |a + b|
    ensures (a + b)[..k] == if k <= |a| then a[..k] else a + b[..k - |a|]
  {
  }

  lemma SomeArgs(c: Command)
    requires |EncodeArgs(c)| > 0
    ensures c != []
  {
  }

  /** A cut of the arguments: inside the first, or after it. */
  lemma CutOfArgs(c: Command, k: nat) returns (t: seq<Byte>)
    requires c != [] && k < |EncodeArgs(c)|
    ensures k < |EncodeArg(c[0])| ==> EncodeArgs(c)[..k] == EncodeArg(c[0])[..k]
    ensures k >= |EncodeArg(c[0])| ==>
              && k - |EncodeArg(c[0])| < |EncodeArgs(c[1..])| && t == EncodeArgs(c[1..])[..k - |EncodeArg(c[0])|]
              && EncodeArgs(c)[..k] == EncodeArg(c[0]) + t
  {
    hide *;
    var e := EncodeArg(c[0]);
    EncodeArgsFirst(c);
    TakeConcat(e, EncodeArgs(c[1..]), k);
    t := if k < |e| then [] else EncodeArgs(c[1..])[..k - |e|];
    assert k == |e| ==> e[..k] == e + t;
  }

  lemma {:induction false} ArgsCut(c: Command, k: nat)
    requires forall i :: 0 <= i < |c| ==> Fits(|c[i]|)
    requires k < |EncodeArgs(c)|
    ensures ParseArgs(EncodeArgs(c)[..k], |c|) == ShortArgs
    decreases |c|
  {
    hide *;
    SomeArgs(c);
    var t := CutOfArgs(c, k);
    if k < |EncodeArg(c[0])| {
      ArgCut(c[0], k, |c|);
    } else {
      ArgReads(c[0], t, |c| - 1);
      ArgsCut(c[1..], k - |EncodeArg(c[0])|);
    }
  }

  lemma StrtolNothing()
    ensures Strtol([]) == 0
  {
  }

  lemma ParseCut(c: Command, k: nat)
    requires CommandFits(c) && 0 < k < |Encode(c)|
    ensures Parse(Encode(c)[..k]) == Short
  {
    var h := Header(STAR, |c|);
    var s := Encode(c)[..k];
    if k < |h| {
      assert s == h[..k];
      HeaderCut(STAR, |c|, k);
      assert s[k..] == [];
    } else {
      var after := EncodeArgs(c)[..k - |h|];
      assert s == h + after;
      HeaderReads(STAR, |c|, after);
      ArgsCut(c, k - |h|);
      hide LineLength;
      hide Strtol;
      hide Header;
      hide EncodeArgs;
      hide ParseArgs;
    }
  }

  ghost predicate AllFit(cs: seq<Command>) {
    forall i :: 0 <= i < |cs| ==> CommandFits(cs[i])
  }

  lemma LoadStep(c: Command, t: seq<Byte>, done: seq<Command>, used: nat, ok: bool)
    requires CommandFits(c)
    ensures LoadFrom(Encode(c) + t, done, used, ok) == LoadFrom(t, done + [c], used + |Encode(c)|, ok)
  {
    hide *;
    ParseReads(c, t);
    LoadGot(Encode(c) + t, c, t, done, used, ok);
  }

  lemma LoadGot(s: seq<Byte>, c: Command, rest: seq<Byte>, done: seq<Command>, used: nat, ok: bool)
    requires Parse(s) == Got(c, rest)
    ensures LoadFrom(s, done, used, ok) == LoadFrom(rest, done + [c], used + (|s| - |rest|), ok)
  {
    hide Parse;
    hide InMulti;
  }

  /** The file ended after the commands, `used` bytes long: an open MULTI is an early end. */
  function Ending(cs: seq<Command>, used: nat, truncatedOk: bool): Loaded {
    if !InMulti(cs) then Ok(cs) else if truncatedOk then Truncated(cs, used) else Fatal
  }

  /** Loading the encoding of commands executes exactly those commands. */
  lemma {:induction false} LoadReads(cs: seq<Command>, done: seq<Command>, used: nat, ok: bool)
    requires AllFit(cs)
    ensures LoadFrom(EncodeAll(cs), done, used, ok) == Ending(done + cs, used + |EncodeAll(cs)|, ok)
    decreases |cs|
  {
    hide Parse;
    hide Encode;
    hide CommandFits;
    if cs == [] {
      assert done + cs == done;
      ParseNothing();
    } else {
      LoadStep(cs[0], EncodeAll(cs[1..]), done, used, ok);
      assert done + cs == (done + [cs[0]]) + cs[1..];
      LoadReads(cs[1..], done + [cs[0]], used + |Encode(cs[0])|, ok);
      hide InMulti;
      hide LoadFrom;
    }
  }

  lemma ParseNothing()
    ensures Parse([]) == AtEnd
  {
  }

  /** The loader executes the commands that were written; a file that ends inside a MULTI is refused, or
      taken for a truncated one and cut nowhere. */
  lemma RoundTrip(cs: seq<Command>, truncatedOk: bool)
    requires cs != [] && AllFit(cs)
    ensures Load(EncodeAll(cs), truncatedOk) ==
            if !InMulti(cs) then Ok(cs) else if truncatedOk then Truncated(cs, |EncodeAll(cs)|) else Fatal
  {
    hide Encode;
    hide InMulti;
    hide AllFit;
    hide LoadFrom;
    EncodeNonempty(cs[0]);
    assert [] + cs == cs;
    LoadReads(cs, [], 0, truncatedOk);
  }

  // ---- Recovery ----

  /** How many of the commands lie wholly inside the first `k` bytes. */
  ghost function Whole(cs: seq<Command>, k: nat): (m: nat)
    ensures m <= |cs|
  {
    if cs == [] || k < |Encode(cs[0])| then 0 else 1 + Whole(cs[1..], k - |Encode(cs[0])|)
  }

  /** `Whole` is the greatest such number. */
  lemma {:induction false} WholeIsGreatest(cs: seq<Command>, k: nat, m: nat)
    requires m <= |cs|
    ensures m <= Whole(cs, k) <==> |EncodeAll(cs[..m])| <= k
    decreases |cs|
  {
    if m > 0 {
      assert cs[..m][1..] == cs[1..][..m - 1];
      if k >= |Encode(cs[0])| {
        WholeIsGreatest(cs[1..], k - |Encode(cs[0])|, m - 1);
      }
    }
  }

  ghost predicate NoMulti(cs: seq<Command>) {
    forall i :: 0 <= i < |cs| ==> !IsMulti(cs[i])
  }

  lemma {:induction false} NotInMulti(cs: seq<Command>)
    requires NoMulti(cs)
    ensures !InMulti(cs)
  {
    if cs != [] {
      NotInMulti(cs[..|cs| - 1]);
    }
  }

  lemma EncodeNonempty(c: Command)
    ensures |Encode(c)| > 0
  {
  }

  lemma {:induction false} LoadCut(cs: seq<Command>, k: nat, done: seq<Command>, used: nat, ok: bool)
    requires AllFit(cs) && k <= |EncodeAll(cs)|
    ensures var m := Whole(cs, k);
            var size := |EncodeAll(cs[..m])|;
            LoadFrom(EncodeAll(cs)[..k], done, used, ok) ==
            if size == k && !InMulti(done + cs[..m]) then Ok(done + cs[..m])
            else if ok then Truncated(done + cs[..m], used + size) else Fatal
    decreases |cs|
  {
    hide Parse;
    hide Encode;
    hide CommandFits;
    hide IsMulti;
    hide InMulti;
    assert done + cs[..0] == done;
    if k == 0 {
      if cs != [] {
        EncodeNonempty(cs[0]);
      }
      ParseNothing();
    } else if k < |Encode(cs[0])| {
      assert EncodeAll(cs)[..k] == Encode(cs[0])[..k];
      ParseCut(cs[0], k);
    } else {
      var rest := CutOfAll(cs, k);
      LoadStep(cs[0], rest, done, used, ok);
      LoadCut(cs[1..], k - |Encode(cs[0])|, done + [cs[0]], used + |Encode(cs[0])|, ok);
      var m := Whole(cs[1..], k - |Encode(cs[0])|);
      assert cs[..m + 1][1..] == cs[1..][..m];
      assert (done + [cs[0]]) + cs[1..][..m] == done + cs[..m + 1];
      hide LoadFrom;
    }
  }

  lemma EncodeAllFirst(cs: seq<Command>)
    requires cs != []
    ensures EncodeAll(cs) == Encode(cs[0]) + EncodeAll(cs[1..])
  {
  }

  lemma CutOfAll(cs: seq<Command>, k: nat) returns (rest: seq<Byte>)
    requires cs != [] && |Encode(cs[0])| <= k <= |EncodeAll(cs)|
    ensures k - |Encode(cs[0])| <= |EncodeAll(cs[1..])| && rest == EncodeAll(cs[1..])[..k - |Encode(cs[0])|]
    ensures EncodeAll(cs)[..k] == Encode(cs[0]) + rest
  {
    hide *;
    EncodeAllFirst(cs);
    TakeConcat(Encode(cs[0]), EncodeAll(cs[1..]), k);
    rest := EncodeAll(cs[1..])[..k - |Encode(cs[0])|];
    assert k == |Encode(cs[0])| ==> Encode(cs[0])[..k] == Encode(cs[0]) + rest;
  }

  /** Loading any non-empty byte prefix of a file of commands, with `aof-load-truncated`, reads
      exactly the commands wholly inside the prefix and leaves the file with just those. It counts as
      whole only if the prefix ends with a command and outside a MULTI, and without the option any other
      stops the server. */
  lemma TruncatedRecovery(cs: seq<Command>, k: nat, truncatedOk: bool)
    requires AllFit(cs) && 0 < k <= |EncodeAll(cs)|
    ensures var m := Whole(cs, k);
            var size := |EncodeAll(cs[..m])|;
            Load(EncodeAll(cs)[..k], truncatedOk) ==
            if size == k && !InMulti(cs[..m]) then Ok(cs[..m])
            else if truncatedOk then Truncated(cs[..m], size) else Fatal
  {
    assert [] + cs == cs;
    LoadCut(cs, k, [], 0, truncatedOk);
    assert [] + cs[..Whole(cs, k)] == cs[..Whole(cs, k)];
    hide EncodeAll;
    hide LoadFrom;
    hide InMulti;
  }

  /** What is left is again a file that loads in full, if and only if it does not end inside a MULTI: the
      cut leaves an open MULTI where it is. */
  lemma RecoveredFileLoads(cs: seq<Command>, k: nat, truncatedOk: bool)
    requires AllFit(cs) && 0 < k <= |EncodeAll(cs)|
    ensures var m := Whole(cs, k);
            var size := |EncodeAll(cs[..m])|;
      && size <= k && EncodeAll(cs)[..size] == EncodeAll(cs[..m])
      && (m > 0 ==> (Load(EncodeAll(cs)[..size], truncatedOk) == Ok(cs[..m]) <==> !InMulti(cs[..m])))
  {
    var m := Whole(cs, k);
    WholeIsGreatest(cs, k, m);
    EncodeAllSplits(cs, m);
    hide InMulti;
    hide Load;
    if m > 0 {
      RoundTrip(cs[..m], truncatedOk);
    }
  }

  /** So the loader may refuse a file it has itself cut, once `aof-load-truncated` is off: an instance, cut
      between MULTI and EXEC. */
  lemma RecoveredFileRefused() returns (cs: seq<Command>, k: nat)
    ensures AllFit(cs) && 0 < k <= |EncodeAll(cs)| && !InMulti(cs)
    ensures Load(EncodeAll(cs)[..k], true) == Truncated([[MULTI]], |EncodeAll([[MULTI]])|)
    ensures Load(EncodeAll([[MULTI]]), false) == Fatal
  {
    var multi: Command, exec: Command := [MULTI], [EXEC];
    cs := [multi, exec];
    var e := |Encode(multi)|;
    k := e + 1;
    assert cs[1..] == [exec];
    assert EncodeAll([exec]) == Encode(exec) + EncodeAll([]);
    assert |EncodeAll(cs)| == e + |Encode(exec)|;
    assert |Encode(exec)| > 1;
    assert cs[..1] == [multi] && EncodeAll([multi]) == Encode(multi) + EncodeAll([]);
    assert InMulti([multi]);
    assert Whole(cs, k) == 1 + Whole([exec], 1) == 1;
    TruncatedRecovery(cs, k, true);
    RoundTrip([multi], false);
  }

  // ---- What stops the server ----

  lemma {:induction false} LoadAfter(cs: seq<Command>, t: seq<Byte>, done: seq<Command>, used: nat, ok: bool)
    requires AllFit(cs)
    ensures LoadFrom(EncodeAll(cs) + t, done, used, ok) == LoadFrom(t, done + cs, used + |EncodeAll(cs)|, ok)
    decreases |cs|
  {
    hide Encode;
    hide CommandFits;
    hide LoadFrom;
    if cs == [] {
      assert EncodeAll(cs) + t == t && done + cs == done;
    } else {
      assert EncodeAll(cs) + t == Encode(cs[0]) + (EncodeAll(cs[1..]) + t);
      LoadStep(cs[0], EncodeAll(cs[1..]) + t, done, used, ok);
      LoadAfter(cs[1..], t, done + [cs[0]], used + |Encode(cs[0])|, ok);
      assert (done + [cs[0]]) + cs[1..] == done + cs;
    }
  }

  lemma {:induction false} ArgsThenGarbage(args: seq<Bulk>, t: seq<Byte>, n: nat)
    requires n > 0 && t != [] && t[0] != 36 && forall i :: 0 <= i < |args| ==> Fits(|args[i]|)
    ensures ParseArgs(EncodeArgs(args) + t, |args| + n) == BadArgs
    decreases |args|
  {
    hide *;
    NoMoreArgs(t, n);
    if args != [] {
      EncodeArgsFirst(args);
      var rest := EncodeArgs(args[1..]) + t;
      assert EncodeArgs(args) + t == EncodeArg(args[0]) + rest;
      ArgReads(args[0], rest, |args| - 1 + n);
      ArgsThenGarbage(args[1..], t, n);
    }
  }

  lemma NoMoreArgs(t: seq<Byte>, n: nat)
    requires n > 0 && t != [] && t[0] != 36
    ensures EncodeArgs([]) + t == t && ParseArgs(t, n) == BadArgs
  {
    hide LineLength;
  }

  /** After any commands, a byte that is not '*' where a command must start, a count that is not positive,
      or a byte that is not '$' where an argument must start is a format error, with or without
      `aof-load-truncated`. */
  lemma GarbageStops(cs: seq<Command>, args: seq<Bulk>, n: nat, t: seq<Byte>, ok: bool)
    requires AllFit(cs) && t != [] && n > 0 && Fits(|args| + n) && |args| + n <= INT_MAX
    requires forall i :: 0 <= i < |args| ==> Fits(|args[i]|)
    ensures t[0] != 42 ==> Load(EncodeAll(cs) + t, ok) == Fatal
    ensures Load(EncodeAll(cs) + Header(42, 0) + t, ok) == Fatal
    ensures t[0] != 36 ==> Load(EncodeAll(cs) + (Header(42, |args| + n) + EncodeArgs(args) + t), ok) == Fatal
  {
    hide *;
    CountZero(t);
    BadStops(cs, Header(42, 0) + t, ok);
    assert EncodeAll(cs) + Header(42, 0) + t == EncodeAll(cs) + (Header(42, 0) + t);
    if t[0] != 36 {
      GarbageParses(args, t, n);
      BadStops(cs, Header(42, |args| + n) + EncodeArgs(args) + t, ok);
    }
    if t[0] != 42 {
      StarParses(t);
      BadStops(cs, t, ok);
    }
  }

  lemma BadStops(cs: seq<Command>, t: seq<Byte>, ok: bool)
    requires AllFit(cs) && Parse(t) == Bad
    ensures Load(EncodeAll(cs) + t, ok) == Fatal
  {
    hide AllFit;
    hide EncodeAll;
    hide InMulti;
    hide Parse;
    LoadAfter(cs, t, [], 0, ok);
    ParseNothing();
    assert [] + cs == cs;
  }

  lemma StarParses(t: seq<Byte>)
    requires t != [] && t[0] != 42
    ensures Parse(t) == Bad
  {
    hide LineLength;
  }

  lemma CountZero(t: seq<Byte>)
    ensures Parse(Header(42, 0) + t) == Bad
  {
    assert Fits(0);
    HeaderReads(42, 0, t);
    hide Header;
    hide LineLength;
    hide Strtol;
    hide ParseArgs;
  }

  lemma GarbageParses(args: seq<Bulk>, t: seq<Byte>, n: nat)
    requires n > 0 && t != [] && t[0] != 36 && |args| + n <= INT_MAX && Fits(|args| + n)
    requires forall i :: 0 <= i < |args| ==> Fits(|args[i]|)
    ensures Parse(Header(42, |args| + n) + EncodeArgs(args) + t) == Bad
  {
    hide Fits;
    var s := Header(42, |args| + n) + EncodeArgs(args) + t;
    assert s == Header(42, |args| + n) + (EncodeArgs(args) + t);
    HeaderReads(42, |args| + n, EncodeArgs(args) + t);
    ArgsThenGarbage(args, t, n);
    hide Header;
    hide LineLength;
    hide Strtol;
    hide ParseArgs;
    hide EncodeArgs;
  }

  lemma {:induction false} EncodeAllSplits(cs: seq<Command>, m: nat)
    requires m <= |cs|
    ensures EncodeAll(cs) == EncodeAll(cs[..m]) + EncodeAll(cs[m..])
  {
    hide Encode;
    if m == 0 {
      assert EncodeAll(cs[..0]) == [] && cs[0..] == cs;
    } else {
      EncodeAllSplits(cs[1..], m - 1);
      assert cs[1..][..m - 1] == cs[..m][1..];
      assert cs[1..][m - 1..] == cs[m..];
    }
  }
}
