/** The LAB_8 text server: how it takes a line apart, in the buffer it was read into, and
    which lines it answers with. */
module LineServer {
  import opened LineProtocol

  // ----- Words -----

  function Upper(c: char): char {
    if 'a' <= c <= 'z' then c - (32 as char) else c
  }

  function ToUpper(s: string): (t: string)
    ensures |t| == |s| && forall i :: 0 <= i < |s| ==> t[i] == Upper(s[i])
  {
    seq(|s|, i requires 0 <= i < |s| => Upper(s[i]))
  }

  /** No small letter is left; a small letter becomes the capital 32 places before it, and
      everything else stays. */
  lemma UpperMeans(s: string, i: nat)
    requires i < |s|
    ensures var c := ToUpper(s)[i];
      && !('a' <= c <= 'z')
      && c as int == if 'a' <= s[i] <= 'z' then s[i] as int - 32 else s[i] as int
  {
  }

  /** `word` is `name` up to the case of its letters; `name` is in capitals. */
  predicate Spells(word: string, name: string) {
    && |word| == |name|
    && forall i :: 0 <= i < |name| ==>
         word[i] == name[i] || ('A' <= name[i] <= 'Z' && word[i] as int == name[i] as int + 32)
  }

  predicate Capitals(name: string) {
    forall i :: 0 <= i < |name| ==> 'A' <= name[i] <= 'Z'
  }

  lemma SpellsIff(word: string, name: string)
    requires Capitals(name)
    ensures Spells(word, name) <==> ToUpper(word) == name
  {
    if Spells(word, name) {
      forall i | 0 <= i < |name|
        ensures ToUpper(word)[i] == name[i]
      {
        UpperMeans(word, i);
      }
    } else if ToUpper(word) == name {
      forall i | 0 <= i < |name|
        ensures word[i] == name[i] || word[i] as int == name[i] as int + 32
      {
        UpperMeans(word, i);
      }
    }
  }

  /** Without the leading spaces. */
  function Skip(s: string): (t: string)
    ensures |t| <= |s| && t == s[|s| - |t|..]
    ensures forall i :: 0 <= i < |s| - |t| ==> s[i] == ' '
    ensures t != "" ==> t[0] != ' '
  {
    if s != "" && s[0] == ' ' then Skip(s[1..]) else s
  }

  lemma {:induction false} SkipIs(s: string, n: nat)
    requires n <= |s| && (forall i :: 0 <= i < n ==> s[i] == ' ') && (n < |s| ==> s[n] != ' ')
    ensures Skip(s) == s[n..]
  {
    if n > 0 {
      SkipIs(s[1..], n - 1);
    }
  }

  /** Up to the first space. */
  function Word(s: string): (w: string)
    ensures |w| <= |s| && w == s[..|w|] && ' ' !in w
    ensures |w| < |s| ==> s[|w|] == ' '
  {
    if s == "" || s[0] == ' ' then "" else [s[0]] + Word(s[1..])
  }

  lemma {:induction false} WordIs(s: string, n: nat)
    requires n <= |s| && ' ' !in s[..n] && (n < |s| ==> s[n] == ' ')
    ensures Word(s) == s[..n]
  {
    if n > 0 {
      assert s[1..][..n - 1] == s[..n][1..];
      assert s[..n][0] == s[0];
      WordIs(s[1..], n - 1);
    }
  }

  /** What follows the first word and the spaces after it. */
  function Argument(s: string): string {
    if |Word(s)| == |s| then "" else Skip(s[|Word(s)| + 1..])
  }

  // ----- The server -----

  /** What the server tells about itself: it comes from the clock and the kernel. */
  datatype Info = Info(started: string, uptime: string, pid: string)

  datatype Served = Served(replies: seq<string>, goOn: bool)

  const PORT: string := "54321"

  /** What `snprintf` leaves of a text in a buffer. */
  function Cut(s: string): string {
    if |s| < BUF_SIZE then s else s[..BUF_SIZE - 1]
  }

  function Ok(msg: string): string {
    Cut("+OK " + msg)
  }

  function Err(msg: string): string {
    Cut("-ERR " + msg)
  }

  function EchoReply(arg: string): string {
    if arg == "" then Err("ECHO requires an argument") else Ok(arg)
  }

  function InfoBody(info: Info): seq<string> {
    [Cut("  Server    : Lab8 TCP Server"),
     Cut("  Port      : " + PORT),
     Cut("  Started   : " + info.started),
     Cut("  Uptime    : " + info.uptime + " sec"),
     Cut("  PID       : " + info.pid)]
  }

  const HELP_BODY: seq<string> :=
    ["  ECHO <text>  - " + "echo text back",
     "  INFO         - " + "server information",
     "  HELP         - " + "this help",
     "  QUIT         - " + "close connection"]

  /** How the server answers a command, given in upper case, and its argument. */
  function Answer(name: string, arg: string, info: Info): Served {
    if name == "ECHO" then Served([EchoReply(arg)], true)
    else if name == "INFO" then Served(["+OK Server information:"] + (InfoBody(info) + ["."]), true)
    else if name == "HELP" then Served(["+OK Available commands:"] + (HELP_BODY + ["."]), true)
    else if name == "QUIT" then Served([Ok("Goodbye!")], false)
    else Served([Err(Cut("Unknown command: " + name))], true)
  }

  /** How the server answers one line: not at all if it is blank. */
  function Dispatch(line: string, info: Info): Served {
    var cmd := Skip(line);
    if cmd == "" then Served([], true) else Answer(ToUpper(Word(cmd)), Argument(cmd), info)
  }

  function Spaces(n: nat): (s: string)
    ensures |s| == n && forall i :: 0 <= i < n ==> s[i] == ' '
  {
    seq(n, i => ' ')
  }

  lemma SkipPadded(n: nat, s: string)
    requires s != "" ==> s[0] != ' '
    ensures Skip(Spaces(n) + s) == s
  {
    hide Skip, Spaces;
    SkipIs(Spaces(n) + s, n);
    assert (Spaces(n) + s)[n..] == s;
  }

  lemma WordPadded(word: string, n: nat, s: string)
    requires ' ' !in word && (n > 0 || s == "")
    ensures Word(word + (Spaces(n) + s)) == word
  {
    hide Word, Spaces;
    var cmd := word + (Spaces(n) + s);
    assert cmd[..|word|] == word;
    assert n > 0 ==> cmd[|word|] == Spaces(n)[0];
    WordIs(cmd, |word|);
  }

  lemma ArgumentPadded(word: string, n: nat, s: string)
    requires ' ' !in word && (n > 0 || s == "") && (s != "" ==> s[0] != ' ')
    ensures Argument(word + (Spaces(n) + s)) == s
  {
    hide Word, Skip, Spaces;
    WordPadded(word, n, s);
    if n > 0 {
      assert (word + (Spaces(n) + s))[|word| + 1..] == Spaces(n - 1) + s;
      SkipPadded(n - 1, s);
    }
  }

  /** However a command and its argument are spaced, the same two are taken out again. */
  lemma TakesApart(before: nat, word: string, between: nat, arg: string)
    requires word != "" && ' ' !in word
    requires (between > 0 || arg == "") && (arg != "" ==> arg[0] != ' ')
    ensures var line := Spaces(before) + (word + (Spaces(between) + arg));
      Word(Skip(line)) == word && Argument(Skip(line)) == arg
  {
    hide Word, Skip, Spaces, Argument;
    var cmd := word + (Spaces(between) + arg);
    assert cmd[0] == word[0];
    SkipPadded(before, cmd);
    WordPadded(word, between, arg);
    ArgumentPadded(word, between, arg);
  }

  predicate AllFit(lines: seq<string>) {
    forall i :: 0 <= i < |lines| ==> |lines[i]| <= MAX_MESSAGE
  }

  /** `to_upper` on the C string that starts at index `at`: exactly its bytes change. */
  method ToUpperInPlace(s: array<char>, at: nat, ghost was: seq<char>)
    requires at < s.Length && was == s[..] && NUL in was[at..]
    modifies s
    ensures s[..] == was[..at] + ToUpper(Text(was[at..])) + was[at + |Text(was[at..])|..]
  {
    hide Upper, Text;
    ghost var text := Text(was[at..]);
    assert forall k :: at <= k < at + |text| ==> was[k] == text[k - at] != NUL;
    assert was[at + |text|] == NUL;
    var i := at;
    while s[i] != NUL
      invariant at <= i <= at + |text|
      invariant forall k :: 0 <= k < s.Length ==> s[k] == if at <= k < i then Upper(was[k]) else was[k]
      decreases s.Length - i
    {
      s[i] := Upper(s[i]);
      i := i + 1;
    }
  }

  lemma TextStep(s: string, i: nat)
    requires i < |s| && NUL in s[i..]
    ensures if s[i] == NUL then Text(s[i..]) == ""
      else NUL in s[i + 1..] && Text(s[i..]) == [s[i]] + Text(s[i + 1..])
  {
    assert s[i..][1..] == s[i + 1..] && s[i..][0] == s[i];
  }

  lemma SpaceStep(s: string, i: nat)
    requires i < |s| && NUL in s[i..]
    ensures if s[i] == ' ' then NUL in s[i + 1..] && Skip(Text(s[i..])) == Skip(Text(s[i + 1..]))
      else Skip(Text(s[i..])) == Text(s[i..])
  {
    hide Text;
    TextStep(s, i);
    if s[i] == ' ' {
      assert Text(s[i..])[1..] == Text(s[i + 1..]);
    }
  }

  lemma LetterStep(s: string, i: nat)
    requires i < |s| && NUL in s[i..]
    ensures if s[i] == NUL then |Text(s[i..])| == |Word(Text(s[i..]))| == 0
      else if s[i] == ' ' then |Text(s[i..])| > |Word(Text(s[i..]))| == 0
      else NUL in s[i + 1..] && |Text(s[i..])| == 1 + |Text(s[i + 1..])|
           && |Word(Text(s[i..]))| == 1 + |Word(Text(s[i + 1..]))|
  {
    hide Text;
    TextStep(s, i);
    if s[i] != NUL {
      assert Text(s[i..])[1..] == Text(s[i + 1..]);
    }
  }

  /** `while (*p == ' ') p++`. */
  method SkipSpaces(s: array<char>, at: nat, ghost was: string) returns (i: nat)
    requires at < s.Length && was == s[..] && NUL in was[at..]
    ensures at <= i < s.Length && NUL in was[i..] && was[i] != ' '
    ensures Text(was[i..]) == Skip(Text(was[at..]))
  {
    hide Text, Skip;
    i := at;
    SpaceStep(was, i);
    while s[i] == ' '
      invariant at <= i < s.Length && NUL in was[i..]
      invariant Skip(Text(was[i..])) == Skip(Text(was[at..]))
      invariant was[i] != ' ' ==> Skip(Text(was[i..])) == Text(was[i..])
      decreases s.Length - i
    {
      SpaceStep(was, i);
      i := i + 1;
      SpaceStep(was, i);
    }
  }

  /** `strchr(p, ' ')`, or the end of the string if there is no space. */
  method FindSpace(s: array<char>, at: nat, ghost was: string) returns (i: nat)
    requires at < s.Length && was == s[..] && NUL in was[at..]
    ensures i == at + |Word(Text(was[at..]))| <= at + |Text(was[at..])| < s.Length
    ensures if was[i] == ' ' then i < at + |Text(was[at..])| else was[i] == NUL && i == at + |Text(was[at..])|
  {
    hide Text, Word;
    i := at;
    ghost var w, t := |Word(Text(was[at..]))|, |Text(was[at..])|;
    LetterStep(was, i);
    while s[i] != NUL && s[i] != ' '
      invariant at <= i < s.Length && NUL in was[i..]
      invariant i + |Word(Text(was[i..]))| == at + w && i + |Text(was[i..])| == at + t
      decreases s.Length - i
    {
      LetterStep(was, i);
      i := i + 1;
    }
    LetterStep(was, i);
  }

  /** Writing a NUL over the space after the first word leaves that word, and the text
      after it. */
  lemma SplitAtSpace(was: string, now: string, cmd: nat, sp: nat, rest: string)
    requires cmd + |rest| < |was| && was[cmd..cmd + |rest|] == rest && NUL !in rest && was[cmd + |rest|] == NUL
    requires cmd <= sp < cmd + |rest| && now == was[sp := NUL]
    ensures NUL in now[cmd..] && Text(now[cmd..]) == rest[..sp - cmd]
    ensures NUL in now[sp + 1..] && Text(now[sp + 1..]) == rest[sp - cmd + 1..]
  {
    hide Text;
    var n := cmd + |rest|;
    assert forall k :: cmd <= k < n ==> was[k] == rest[k - cmd];
    assert now[cmd..][sp - cmd] == NUL && now[sp + 1..][n - sp - 1] == NUL;
    TextIs(now[cmd..], sp - cmd);
    TextIs(now[sp + 1..], n - sp - 1);
  }

  lemma TextAt(was: string, cmd: nat)
    requires cmd <= |was| && NUL in was[cmd..]
    ensures var rest := Text(was[cmd..]);
      cmd + |rest| < |was| && was[cmd..cmd + |rest|] == rest && NUL !in rest && was[cmd + |rest|] == NUL
  {
  }

  lemma NoArgument(was: string, cmd: nat, sp: nat)
    requires cmd < |was| && NUL in was[cmd..]
    requires sp == cmd + |Word(Text(was[cmd..]))| == cmd + |Text(was[cmd..])|
    ensures TakenApart(was, cmd, sp, Text(was[cmd..]))
  {
    hide Text, Word;
    assert was[sp] == was[cmd..][sp - cmd] == NUL;
    assert was[sp..][0] == NUL;
    TextIs(was[sp..], 0);
  }

  lemma UpperText(was: string, now: string, cmd: nat, arg: nat)
    requires cmd <= |was| && NUL in was[cmd..]
    requires now == was[..cmd] + ToUpper(Text(was[cmd..])) + was[cmd + |Text(was[cmd..])|..]
    requires cmd + |Text(was[cmd..])| <= arg < |was|
    ensures |now| == |was| && NUL in now[cmd..] && Text(now[cmd..]) == ToUpper(Text(was[cmd..]))
    ensures now[arg..] == was[arg..]
  {
    hide Text, ToUpper;
    var text := Text(was[cmd..]);
    assert forall i :: 0 <= i < |text| ==> ToUpper(text)[i] == Upper(text[i]) && text[i] != NUL;
    assert NUL !in ToUpper(text);
    assert now[cmd + |text|] == was[cmd + |text|] == NUL;
    TextIs(now[cmd..], |text|);
    assert now[cmd..][..|text|] == ToUpper(text);
  }

  /** The line `now` holds the first word of `rest` at `cmd` and what follows it at `arg`. */
  ghost predicate TakenApart(now: string, cmd: nat, arg: nat, rest: string) {
    && cmd <= |now| && NUL in now[cmd..] && Text(now[cmd..]) == Word(rest)
    && cmd + |Word(rest)| <= arg < |now| && NUL in now[arg..] && Text(now[arg..]) == Argument(rest)
  }

  /** Cuts the line after its first word, in place, and finds the argument. */
  method TakeArgument(line: array<char>, cmd: nat, ghost was: string) returns (arg: nat)
    requires cmd < line.Length && was == line[..] && NUL in was[cmd..]
    modifies line
    ensures TakenApart(line[..], cmd, arg, Text(was[cmd..]))
  {
    hide Text, Skip, Word, Argument, TakenApart;
    var sp := FindSpace(line, cmd, was);
    if line[sp] == ' ' {
      arg := CutAtSpace(line, cmd, sp, was, Text(was[cmd..]));
    } else {
      NoArgument(was, cmd, sp);
      arg := sp;
    }
  }

  /** `*sp = '\0'; arg = sp + 1; while (*arg == ' ') arg++;` */
  method CutAtSpace(line: array<char>, cmd: nat, sp: nat, ghost was: string, ghost rest: string) returns (arg: nat)
    requires cmd < line.Length && was == line[..] && NUL in was[cmd..] && rest == Text(was[cmd..])
    requires sp == cmd + |Word(rest)| < cmd + |rest|
    modifies line
    ensures TakenApart(line[..], cmd, arg, rest)
  {
    hide Text, Skip, Word, Argument, TakenApart;
    TextAt(was, cmd);
    ghost var now := was[sp := NUL];
    SplitAtSpace(was, now, cmd, sp, rest);
    line[sp] := NUL;
    assert line[..] == now;
    arg := SkipSpaces(line, sp + 1, now);
    Apart(now, cmd, sp, arg, rest);
  }

  lemma Apart(now: string, cmd: nat, sp: nat, arg: nat, rest: string)
    requires sp == cmd + |Word(rest)| < cmd + |rest| && cmd <= |now| && NUL in now[cmd..]
    requires Text(now[cmd..]) == rest[..sp - cmd]
    requires sp < arg < |now| && NUL in now[arg..] && Text(now[arg..]) == Skip(rest[sp - cmd + 1..])
    ensures TakenApart(now, cmd, arg, rest)
  {
    hide Text, Skip;
  }

  /** Cuts the line into command and argument and capitalises the command. */
  method SplitLine(line: array<char>, cmd: nat, ghost was: string) returns (arg: nat)
    requires cmd < line.Length && was == line[..] && NUL in was[cmd..]
    modifies line
    ensures NUL in line[..][cmd..] && Text(line[..][cmd..]) == ToUpper(Word(Text(was[cmd..])))
    ensures arg < line.Length && NUL in line[..][arg..] && Text(line[..][arg..]) == Argument(Text(was[cmd..]))
  {
    hide Text, Skip, Word, ToUpper, Argument;
    arg := TakeArgument(line, cmd, was);
    ghost var cut := line[..];
    ToUpperInPlace(line, cmd, cut);
    UpperText(cut, line[..], cmd, arg);
  }

  /** The server's dispatcher, working on the line where it was read. */
  method DispatchCommand(conn: Connection, line: array<char>, info: Info, ghost was: string) returns (goOn: bool)
    requires was == line[..] && NUL in was
    requires AllFit(Dispatch(Text(was), info).replies)
    modifies line, conn`outgoing
    ensures var served := Dispatch(Text(was), info);
      conn.outgoing == old(conn.outgoing) + SendAll(served.replies) && goOn == served.goOn
  {
    hide Text, Skip, Word, ToUpper, Argument, Answer, AllFit;
    assert was[0..] == was;
    var cmd := SkipSpaces(line, 0, was);
    TextStep(was, cmd);
    if line[cmd] == NUL {
      return true;
    }
    var arg := SplitLine(line, cmd, was);
    goOn := SendAnswer(conn, Text(line[..][cmd..]), Text(line[..][arg..]), info);
  }

  method SendLines(conn: Connection, lines: seq<string>)
    requires AllFit(lines)
    modifies conn`outgoing
    ensures conn.outgoing == old(conn.outgoing) + SendAll(lines)
  {
    hide SendAll, SendBytes;
    SendAllNone();
    var i := 0;
    while i < |lines|
      invariant i <= |lines|
      invariant conn.outgoing == old(conn.outgoing) + SendAll(lines[..i])
    {
      FitsIff(lines[i]);
      SendAllOneMore(lines, i);
      conn.SendLine(lines[i]);
      i := i + 1;
    }
    assert lines[..i] == lines;
  }

  lemma SendAllNone()
    ensures SendAll([]) == ""
  {
  }

  lemma {:induction false} SendAllOneMore(lines: seq<string>, i: nat)
    requires i < |lines|
    ensures SendAll(lines[..i + 1]) == SendAll(lines[..i]) + WireBytes(lines[i])
    decreases i
  {
    hide SendBytes, WireBytes;
    assert lines[..i + 1][0] == lines[0];
    if i == 0 {
      assert lines[..1][1..] == [];
    } else {
      assert lines[..i + 1][1..] == lines[1..][..i] && lines[..i][1..] == lines[1..][..i - 1];
      SendAllOneMore(lines[1..], i - 1);
    }
  }

  method SendAnswer(conn: Connection, name: string, arg: string, info: Info) returns (goOn: bool)
    requires AllFit(Answer(name, arg, info).replies)
    modifies conn`outgoing
    ensures var served := Answer(name, arg, info);
      conn.outgoing == old(conn.outgoing) + SendAll(served.replies) && goOn == served.goOn
  {
    var served := Answer(name, arg, info);
    SendLines(conn, served.replies);
    goOn := served.goOn;
  }
}
