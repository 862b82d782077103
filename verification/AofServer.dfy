/** The append only log as the server keeps it, updated in place; every method is proved against the
    function of AofLog. What `write` and `ftruncate` do is a parameter. */
module AofServer {
  import opened Options
  import opened Bytes
  import opened AofCodec
  import opened AofReplay
  import opened AofLog
  import AofFile

  lemma SelectedThenFed(buf: seq<Byte>, select: seq<Byte>, text: seq<Byte>)
    ensures buf + (select + text) == buf + select + text
  {
  }

  class Server {
    const other: Other
    var data: Data
    var file: seq<Byte>
    var buf: seq<Byte>
    var size: nat
    var selected: int
    var status: Status
    var child: Option<Child>
    var open: bool

    ghost function State(): Log
      reads this
    {
      Log(data, file, buf, size, selected, status, child, open)
    }

    /** A server that loaded `contents` and got `loaded` (`aofUpdateCurrentSize` at the end of loading). */
    constructor (rest: Other, contents: seq<Byte>, loaded: Data, on: bool)
      ensures other == rest
      ensures State() == Log(loaded, contents, [], |contents|, -1, if on then On else Off, None, false)
    {
      other := rest;
      data, file, buf, size, selected := loaded, contents, [], |contents|, -1;
      status, child, open := if on then On else Off, None, false;
    }

    /** `feedAppendOnlyFile` (aof.c:513-561), for commands that need no translation. */
    method FeedAppendOnlyFile(db: nat, c: Command)
      requires c != [] && status != Off
      modifies this
      ensures selected == db && data == old(data) && file == old(file) && size == old(size) && status == old(status)
      ensures open == old(open)
      ensures buf == if status == On then old(buf) + FedText(old(selected), db, c) else old(buf)
      ensures status == On ==>
                buf == old(buf) + (if db == old(selected) then [] else Encode([SELECT, Dec(db)])) + Encode(c)
      ensures child == match old(child)
                       case Some(k) => Some(k.(diff := k.diff + FedText(old(selected), db, c)))
                       case None => None
    {
      SelectTextEncodes(db);
      var text: seq<Byte> := [];
      if db != selected {
        text := text + SelectText(db);
        selected := db;
      }
      assert text == if db != old(selected) then SelectText(db) else [];
      text := AofFile.CatAppendOnlyGenericCommand(text, c);
      hide SelectText;
      hide Encode;
      hide Dec;
      if status == On {
        SelectedThenFed(buf, if db == old(selected) then [] else SelectText(db), Encode(c));
        buf := buf + text;
      }
      if child.Some? {
        child := Some(child.value.(diff := child.value.diff + text));
      }
    }

    /** Execute a write command and propagate it; MULTI and EXEC are propagated around the commands of a
        transaction (multi.c:106-112, 150-172). */
    method Call(db: nat, c: Command)
      requires db < |data| && c != []
      modifies this
      ensures State() == Feed(other, old(State()), db, c)
    {
      hide FedText;
      data := ExecData(other, data, db, c);
      if IsMulti(c) {
        open := true;
      } else if EndsMulti(c) {
        open := false;
      }
      if status != Off {
        FeedAppendOnlyFile(db, c);
      }
    }

    /** `flushAppendOnlyFile` (aof.c:289-449) with a policy other than `always`. */
    method FlushAppendOnlyFile(w: Write, truncates: bool)
      requires CanWrite(State(), w)
      modifies this
      ensures State() == Flush(old(State()), w, truncates)
      ensures Moves(old(State()), State(), w, truncates)
    {
      FlushMoves(State(), w, truncates);
      hide Moves;
      if |buf| == 0 {
        return;
      }
      if w == Postponed {
        return;
      }
      var nwritten: int := if w.Written? then w.n else -1;
      if nwritten > 0 {
        file := file + buf[..nwritten];
      }
      if nwritten != |buf| {
        if nwritten != -1 {
          if truncates {
            file := Truncate(file, size);
            nwritten := -1;
          }
        }
        if nwritten > 0 {
          size := size + nwritten;
          buf := buf[nwritten..];
        }
        assert w.Written? && w.n == 0 ==> old(file) + old(buf)[..0] == old(file) && old(buf)[0..] == old(buf);
        return;
      }
      size := size + nwritten;
      buf := [];
    }

    /** The parent's side of `rewriteAppendOnlyFileBackground` (aof.c:1337-1359). */
    method RewriteAppendOnlyFileBackground(base: seq<Byte>) returns (ok: bool)
      modifies this
      ensures State() == Fork(old(State()), base)
      ensures if old(child).Some? then !ok && State() == old(State())
              else ok && State() == old(State()).(child := Some(Child(base, [])), selected := -1)
    {
      if child.Some? {
        return false;
      }
      child := Some(Child(base, []));
      selected := -1;
      return true;
    }

    /** `backgroundRewriteDoneHandler` (aof.c:1414-1617). */
    method BackgroundRewriteDone(success: bool)
      modifies this
      ensures State() == RewriteDone(old(State()), success)
      ensures child == None && (!success || old(child).None? ==> State() == old(State()).(child := None))
      ensures success && old(child).Some? ==> file == old(child).value.base + old(child).value.diff
      ensures success && old(child).Some? && old(status) != Off ==> status == On && buf == [] && size == |file|
    {
      if child.None? {
        return;
      }
      if success {
        file := child.value.base + child.value.diff;
        if status != Off {
          selected := -1;
          size := |file|;
          buf := [];
          status := On;
        }
      }
      child := None;
    }

    /** `startAppendOnly` (aof.c:250-268). */
    method StartAppendOnly(base: seq<Byte>) returns (ok: bool)
      requires status == Off
      modifies this
      ensures State() == StartLog(old(State()), base)
      ensures ok <==> old(child) == None
      ensures ok ==> status == WaitRewrite && child == Some(Child(base, [])) && selected == -1
      ensures !ok ==> State() == old(State())
    {
      ok := RewriteAppendOnlyFileBackground(base);
      if !ok {
        return;
      }
      status := WaitRewrite;
    }

    /** `stopAppendOnly` (aof.c:217-245). */
    method StopAppendOnly(w: Write, truncates: bool)
      requires status != Off && CanWrite(State(), w)
      modifies this
      ensures State() == StopLog(old(State()), w, truncates)
      ensures status == Off && child == None && selected == -1
      ensures w == Written(|old(buf)|) ==> file == old(file) + old(buf) && buf == []
    {
      FlushAppendOnlyFile(w, truncates);
      selected := -1;
      status := Off;
      if child.Some? {
        child := None;
      }
    }
  }
}
