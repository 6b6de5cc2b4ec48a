/** The LAB_8 client against the server: which lines the client takes as the answer to a
    command, and when these are exactly the lines the server sent for it. */
module Lockstep {
  import opened LineProtocol
  import opened LineServer

  // ----- The client -----

  predicate IsMultiline(input: string) {
    ToUpper(Word(input)) in {"HELP", "INFO"}
  }

  /** What `receive_response` takes from the stream: the lines that are not empty. `starved`
      says that the stream ended, or has not gone on yet, in the middle of it: over a live
      connection the client then waits. `Undefined` is for an exchange in which one side
      reads past its buffer to send. */
  datatype Reception = Lost | Received(lines: seq<string>, rest: string, starved: bool) | Undefined

  function Receive(input: string, multiline: bool): Reception {
    var first := ReadOne(input);
    if first.line == "" then Lost
    else if !multiline then Received([LineText(first.line)], first.rest, first.ending == NoMoreInput)
    else Then([LineText(first.line)], ReceiveMore(first.rest))
  }

  /** The loop after the first line: up to a lone dot, an empty line, or a line that does
      not start with a space. */
  function ReceiveMore(input: string): (r: Reception)
    ensures r.Received?
    decreases |input|
  {
    var next := ReadOne(input);
    if next.line == "" then Received([], next.rest, next.ending == NoMoreInput)
    else if next.line[0] == ' ' then Then([LineText(next.line)], ReceiveMore(next.rest))
    else Received([LineText(next.line)], next.rest, next.ending == NoMoreInput)
  }

  function Then(lines: seq<string>, r: Reception): (t: Reception)
    requires r.Received?
    ensures t.Received?
  {
    r.(lines := lines + r.lines)
  }

  lemma MoreStep(input: string, before: seq<string>)
    ensures var next := ReadOne(input);
      Then(before, ReceiveMore(input)) ==
        if next.line == "" then Received(before, next.rest, next.ending == NoMoreInput)
        else if next.line[0] == ' ' then Then(before + [LineText(next.line)], ReceiveMore(next.rest))
        else Received(before + [LineText(next.line)], next.rest, next.ending == NoMoreInput)
  {
    hide ReadFrom, Text;
    var next := ReadOne(input);
    if next.line == "" {
      assert before + [] == before;
    } else if next.line[0] == ' ' {
      var others := ReceiveMore(next.rest).lines;
      assert before + ([LineText(next.line)] + others) == before + [LineText(next.line)] + others;
    }
  }

  lemma BufferText(buf: string, n: nat)
    requires n < |buf| && buf[n] == NUL
    ensures NUL in buf && Text(buf) == LineText(buf[..n])
  {
    hide Text;
    var t := LineText(buf[..n]);
    assert t == (buf[..n] + [NUL])[..|t|] == buf[..|t|];
    assert (buf[..n] + [NUL])[|t|] == buf[|t|];
    TextIs(buf, |t|);
  }

  lemma DotIsNoSpace(line: string)
    requires LineText(line) == "." && line != ""
    ensures line[0] == '.'
  {
    assert (line + [NUL])[0] == line[0];
  }

  /** The client's read loop over one reused buffer; `ok` is false where it exits. */
  method ReceiveResponse(conn: Connection, line: array<char>, multiline: bool)
    returns (ok: bool, lines: seq<string>)
    requires line.Length == BUF_SIZE
    modifies conn`incoming, line
    ensures match Receive(old(conn.incoming), multiline)
      case Lost => !ok
      case Received(all, rest, _) => ok && lines == all && conn.incoming == rest
      case Undefined => false
  {
    hide ReadFrom, ReceiveMore, Text;
    ghost var goal := Receive(conn.incoming, multiline);
    var n := conn.ReadLine(line, line.Length);
    BufferText(line[..], n);
    lines := [Text(line[..])];
    ok := n > 0;
    if !ok || !multiline {
      return;
    }
    while true
      invariant goal == Then(lines, ReceiveMore(conn.incoming))
      decreases |conn.incoming|
    {
      ghost var next := ReadOne(conn.incoming);
      MoreStep(conn.incoming, lines);
      n := conn.ReadLine(line, line.Length);
      if n == 0 {
        return;
      }
      BufferText(line[..], n);
      lines := lines + [Text(line[..])];
      if Text(line[..]) == "." {
        DotIsNoSpace(line[..n]);
        return;
      }
      if line[0] == ' ' {
        continue;
      }
      return;
    }
  }

  // ----- One command -----

  /** A command as the client can send it: what `fgets` leaves of one line of input. */
  predicate Typed(cmd: string) {
    cmd != "" && Clean(cmd) && |cmd| <= BUF_SIZE - 1
  }

  /** The longest unknown command word whose reply can be sent. */
  const MAX_WORD: nat := 488

  /** What `send_line` cannot carry, in one direction or the other. */
  predicate Oversized(cmd: string) {
    |cmd| > MAX_MESSAGE || |Word(Skip(cmd))| > MAX_WORD
  }

  predicate InfoFits(info: Info) {
    && Clean(info.started) && Clean(info.uptime) && Clean(info.pid)
    && |info.started| <= 64 && |info.uptime| <= 64 && |info.pid| <= 64
  }

  predicate Reply(line: string) {
    Sendable(line) && line != ""
  }

  predicate BodyLine(line: string) {
    Reply(line) && line[0] == ' '
  }

  predicate AllBodyLines(lines: seq<string>) {
    forall i :: 0 <= i < |lines| ==> BodyLine(lines[i])
  }

  /** One line, or a heading, a body of indented lines and a dot. */
  predicate WellFormed(replies: seq<string>, multiline: bool) {
    if multiline then
      && |replies| >= 2 && Reply(replies[0])
      && AllBodyLines(replies[1..|replies| - 1]) && replies[|replies| - 1] == "."
    else
      |replies| == 1 && Reply(replies[0])
  }

  lemma ListingIs(head: string, body: seq<string>)
    requires Reply(head) && AllBodyLines(body)
    ensures WellFormed([head] + (body + ["."]), true)
  {
    hide Reply, AllBodyLines;
    assert ([head] + (body + ["."]))[1..|body| + 1] == body;
  }

  predicate IsListing(name: string) {
    name in {"HELP", "INFO"}
  }

  lemma UpperClean(s: string)
    requires Clean(s)
    ensures Clean(ToUpper(s))
  {
    var t := ToUpper(s);
    assert forall i :: 0 <= i < |s| ==> s[i] in s && t[i] == Upper(s[i]);
  }

  predicate Printable(s: string) {
    forall i :: 0 <= i < |s| ==> ' ' <= s[i] <= '~'
  }

  predicate Indented(s: string) {
    s != "" && s[0] == ' ' && Printable(s) && |s| <= 64
  }

  lemma Labelled(caption: string, value: string)
    requires Indented(caption) && Clean(value) && |value| <= 128
    ensures Cut(caption + value) == caption + value && BodyLine(caption + value)
  {
    assert Clean(caption);
  }

  lemma Plain(line: string)
    requires Printable(line) && 0 < |line| <= 64
    ensures Reply(line) && (line[0] == ' ' ==> BodyLine(line)) && Cut(line) == line
  {
  }

  lemma InfoLabels()
    ensures Indented("  Started   : ") && Indented("  Uptime    : ") && Indented("  PID       : ") && Clean(" sec")
  {
  }

  lemma FixedInfoLines()
    ensures Indented("  Server    : Lab8 TCP Server") && Indented("  Port      : ") && Printable(PORT)
  {
  }

  lemma InfoLines(info: Info)
    requires InfoFits(info)
    ensures AllBodyLines(InfoBody(info))
  {
    FixedInfoLines();
    InfoLabels();
    hide Cut, BodyLine, Indented, Printable, Clean;
    assert Clean(PORT) by { PrintableClean(PORT); }
    PlainIndented("  Server    : Lab8 TCP Server");
    Labelled("  Port      : ", PORT);
    Labelled("  Started   : ", info.started);
    UptimeClean(info.uptime);
    Labelled("  Uptime    : ", info.uptime + " sec");
    assert "  Uptime    : " + info.uptime + " sec" == "  Uptime    : " + (info.uptime + " sec");
    Labelled("  PID       : ", info.pid);
  }

  lemma PrintableClean(s: string)
    requires Printable(s)
    ensures Clean(s)
  {
  }

  lemma PlainIndented(line: string)
    requires Indented(line)
    ensures Cut(line) == line && BodyLine(line)
  {
    Plain(line);
  }

  lemma UptimeClean(uptime: string)
    requires Clean(uptime) && Clean(" sec")
    ensures Clean(uptime + " sec")
  {
  }

  lemma HelpUsages()
    ensures Indented("  ECHO <text>  - ") && Indented("  INFO         - ")
    ensures Indented("  HELP         - ") && Indented("  QUIT         - ")
  {
  }

  lemma HelpTexts()
    ensures Printable("echo text back") && Printable("server information")
    ensures Printable("this help") && Printable("close connection")
  {
  }

  lemma HelpLines()
    ensures AllBodyLines(HELP_BODY)
  {
    HelpUsages();
    HelpTexts();
    hide Cut, BodyLine, Clean, Indented, Printable;
    HelpLine("  ECHO <text>  - ", "echo text back");
    HelpLine("  INFO         - ", "server information");
    HelpLine("  HELP         - ", "this help");
    HelpLine("  QUIT         - ", "close connection");
  }

  lemma HelpLine(usage: string, meaning: string)
    requires Indented(usage) && Printable(meaning) && |meaning| <= 64
    ensures BodyLine(usage + meaning)
  {
    PrintableClean(meaning);
    Labelled(usage, meaning);
  }

  lemma ErrPrefix()
    ensures Clean("Unknown command: ") && |"Unknown command: "| == 17 && Clean("-ERR ") && |"-ERR "| == 5
  {
  }

  lemma ErrFits(name: string)
    requires Clean(name) && |name| <= MAX_WORD
    ensures Reply(Err(Cut("Unknown command: " + name)))
  {
    ErrPrefix();
  }

  /** The bound on words is the longest for which this reply can still be sent. */
  lemma UnknownFitsIff(name: string)
    requires Clean(name)
    ensures Sendable(Err(Cut("Unknown command: " + name))) <==> |name| <= MAX_WORD
  {
    hide Clean;
    if |name| <= MAX_WORD {
      ErrFits(name);
    }
  }

  lemma EchoErrFits()
    ensures Reply(Err("ECHO requires an argument"))
  {
  }

  lemma OkFits(msg: string)
    requires Clean(msg) && |msg| <= MAX_MESSAGE - 4
    ensures Reply(Ok(msg))
  {
    assert Clean("+OK ");
  }

  lemma OkIs(msg: string)
    requires |msg| < BUF_SIZE - 4
    ensures Ok(msg) == "+OK " + msg
  {
  }

  lemma HeadingFits()
    ensures Reply("+OK Server information:") && Reply("+OK Available commands:")
  {
    HeadingPrintable();
    Plain("+OK Server information:");
    Plain("+OK Available commands:");
  }

  lemma HeadingPrintable()
    ensures Printable("+OK Server information:") && Printable("+OK Available commands:")
  {
  }

  lemma SingleFits(name: string, arg: string, info: Info)
    requires Clean(name) && Clean(arg) && |name| <= MAX_WORD && (name == "ECHO" ==> |arg| <= MAX_MESSAGE - 4)
    requires !IsListing(name)
    ensures WellFormed(Answer(name, arg, info).replies, false)
  {
    hide Reply, AllBodyLines, Ok, Err, Cut, InfoBody;
    EchoErrFits();
    OkFits("Goodbye!");
    if name == "ECHO" {
      OkFits(arg);
    } else {
      ErrFits(name);
    }
  }

  /** No reply needs more room than a line has, and only HELP and INFO are listings. */
  lemma AnswerFits(name: string, arg: string, info: Info)
    requires Clean(name) && Clean(arg) && |name| <= MAX_WORD && (name == "ECHO" ==> |arg| <= MAX_MESSAGE - 4)
    requires InfoFits(info)
    ensures WellFormed(Answer(name, arg, info).replies, IsListing(name))
  {
    hide Reply, AllBodyLines, InfoBody, Ok, Err, Cut, Clean, WellFormed;
    if name == "INFO" {
      InfoLines(info);
      HeadingFits();
      ListingIs("+OK Server information:", InfoBody(info));
    } else if name == "HELP" {
      HelpLines();
      HeadingFits();
      ListingIs("+OK Available commands:", HELP_BODY);
    } else {
      SingleFits(name, arg, info);
    }
  }

  lemma PieceClean(s: string, lo: nat, hi: nat)
    requires Clean(s) && lo <= hi <= |s|
    ensures Clean(s[lo..hi])
  {
    assert forall c :: c in s[lo..hi] ==> c in s;
  }

  lemma PartsClean(cmd: string)
    requires Clean(cmd)
    ensures Clean(Word(cmd)) && Clean(Argument(cmd)) && (cmd != "" ==> |Word(cmd)| + |Argument(cmd)| <= |cmd|)
    ensures Argument(cmd) != "" ==> |Word(cmd)| + |Argument(cmd)| < |cmd|
  {
    hide Clean, Word, Skip;
    var n := |Word(cmd)|;
    PieceClean(cmd, 0, n);
    PieceClean(cmd, 0, 0);
    assert cmd[..n] == cmd[0..n];
    if n < |cmd| {
      var tail := cmd[n + 1..];
      var arg := Skip(tail);
      assert arg == cmd[|cmd| - |arg|..|cmd|];
      PieceClean(cmd, |cmd| - |arg|, |cmd|);
    } else {
      assert "" == cmd[0..0];
    }
  }

  lemma CommandClean(line: string)
    requires Clean(line)
    ensures Clean(Skip(line))
  {
    hide Clean, Skip;
    var cmd := Skip(line);
    assert cmd == line[|line| - |cmd|..|line|];
    PieceClean(line, |line| - |cmd|, |line|);
  }

  /** The answer to a line that is not oversized can be sent; it is a listing for HELP and
      INFO, nothing for a blank line, and one line otherwise. */
  lemma DispatchFits(line: string, info: Info)
    requires Clean(line) && !Oversized(line) && InfoFits(info)
    ensures var cmd, replies := Skip(line), Dispatch(line, info).replies;
      if cmd == "" then replies == [] else WellFormed(replies, IsListing(ToUpper(Word(cmd))))
  {
    hide Answer, WellFormed, InfoFits, Clean, Skip, Word, Argument, IsListing;
    var cmd := Skip(line);
    if cmd != "" {
      CommandClean(line);
      PartsClean(cmd);
      UpperClean(Word(cmd));
      AnswerFits(ToUpper(Word(cmd)), Argument(cmd), info);
    }
  }

  lemma FitsWhenFormed(replies: seq<string>, multiline: bool)
    requires WellFormed(replies, multiline)
    ensures AllFit(replies)
  {
    if multiline {
      forall i | 0 <= i < |replies|
        ensures |replies[i]| <= MAX_MESSAGE
      {
        if 0 < i < |replies| - 1 {
          assert BodyLine(replies[1..|replies| - 1][i - 1]);
        }
      }
    }
  }

  /** An unknown word that is too long has a reply that cannot be sent. */
  lemma LongWordOverruns(line: string, info: Info)
    requires |Word(Skip(line))| > MAX_WORD
    ensures !AllFit(Dispatch(line, info).replies)
  {
    hide Word, Skip, ToUpper, Argument;
    var name := ToUpper(Word(Skip(line)));
    assert |Word(Skip(line))| <= |Skip(line)|;
    assert |name| > MAX_WORD;
    assert Dispatch(line, info).replies == [Err(Cut("Unknown command: " + name))];
    assert |Err(Cut("Unknown command: " + name))| > MAX_MESSAGE;
    assert |Dispatch(line, info).replies[0]| > MAX_MESSAGE;
  }

  // ----- One command -----

  /** The line the server reads when `cmd` is sent. */
  function ServerLine(cmd: string): string {
    LineText(ReadOne(WireBytes(cmd)).line)
  }

  /** What the client takes for a command, which the server answers while it is there;
      `pending` is what the client has not read yet. */
  function Exchange(pending: string, serverOn: bool, cmd: string, info: Info): Reception {
    if SendBytes(cmd).Overread? then Undefined
    else if !serverOn then Receive(pending, IsMultiline(cmd))
    else
      var replies := Dispatch(ServerLine(cmd), info).replies;
      if AllFit(replies) then Receive(pending + SendAll(replies), IsMultiline(cmd)) else Undefined
  }

  /** A command that can be sent reaches the server as it is, and leaves nothing behind. */
  lemma ReachesServer(cmd: string)
    requires Typed(cmd) && |cmd| <= MAX_MESSAGE
    ensures SendBytes(cmd).Sent? && ServerLine(cmd) == cmd
    ensures var r := ReadOne(WireBytes(cmd)); r.line != "" && r.rest == ""
  {
    hide ReadFrom, Text;
    FitsIff(cmd);
    Arrives(cmd, "");
    assert WireBytes(cmd) + "" == WireBytes(cmd);
  }

  /** After the heading the client takes indented lines, and one line more: the first that is
      not indented, whatever it says, or an empty one, which it does not show. */
  lemma {:induction false} MoreReads(body: seq<string>, last: string, rest: string)
    requires AllBodyLines(body) && Sendable(last) && (last != "" ==> last[0] != ' ')
    ensures ReceiveMore(SendAll(body + [last]) + rest) ==
            Received(body + (if last == "" then [] else [last]), rest, false)
    decreases |body|
  {
    hide ReadFrom, Text, WireBytes;
    if body == [] {
      assert SendAll([last]) + rest == WireBytes(last) + rest;
      Arrives(last, rest);
    } else {
      var tail := SendAll(body[1..] + [last]) + rest;
      assert BodyLine(body[0]);
      assert (body + [last])[1..] == body[1..] + [last];
      assert SendAll(body + [last]) + rest == WireBytes(body[0]) + tail;
      Arrives(body[0], tail);
      MoreReads(body[1..], last, rest);
      var shown: seq<string> := if last == "" then [] else [last];
      assert [body[0]] + (body[1..] + shown) == body + shown;
    }
  }

  /** A client that gets an empty line, or nothing, instead of an answer exits. */
  lemma EmptyIsLost(rest: string, multiline: bool)
    ensures Receive("", multiline) == Lost
    ensures Receive(WireBytes("") + rest, multiline) == Lost
  {
    hide Text;
    assert ReadOne("").line == "";
    Arrives("", rest);
  }

  /** Of a listing the client takes everything if it expects one, else only the heading. */
  lemma ReceivesListing(replies: seq<string>, multiline: bool, rest: string)
    requires WellFormed(replies, true)
    ensures if multiline then Receive(SendAll(replies) + rest, true) == Received(replies, rest, false)
      else Receive(SendAll(replies) + rest, false) ==
           Received([replies[0]], SendAll(replies[1..]) + rest, false)
  {
    hide ReadFrom, ReceiveMore, AllBodyLines, Text, WireBytes;
    var body := replies[1..|replies| - 1];
    var tail := SendAll(replies[1..]) + rest;
    assert SendAll(replies) + rest == WireBytes(replies[0]) + tail;
    Arrives(replies[0], tail);
    assert replies[1..] == body + ["."];
    MoreReads(body, ".", rest);
    assert [replies[0]] + replies[1..] == replies;
  }

  lemma ReceivesSingle(reply: string, rest: string)
    requires Reply(reply)
    ensures Receive(SendAll([reply]) + rest, false) == Received([reply], rest, false)
  {
    hide ReadFrom, Text, WireBytes;
    assert SendAll([reply]) + rest == WireBytes(reply) + rest;
    Arrives(reply, rest);
  }

  lemma ListingLong(replies: seq<string>)
    requires WellFormed(replies, true)
    ensures replies != [replies[0]]
  {
  }

  lemma OneReply(replies: seq<string>)
    requires WellFormed(replies, false)
    ensures |replies| == 1 && Reply(replies[0]) && replies == [replies[0]]
  {
  }

  lemma NothingReceived(rest: string)
    ensures Receive(SendAll([]) + rest, false) != Received([], rest, false)
  {
  }

  /** The commands after which the client takes a different number of lines than the
      server sends: a leading space hides the word from the client, not from the server. */
  predicate Misread(cmd: string) {
    && cmd != "" && cmd[0] == ' '
    && (Skip(cmd) == "" || IsListing(ToUpper(Word(Skip(cmd)))))
  }

  lemma MultilineIff(cmd: string)
    requires cmd != ""
    ensures IsMultiline(cmd) <==> cmd[0] != ' ' && IsListing(ToUpper(Word(cmd)))
  {
  }

  /** A blank line, and HELP after a space, are such commands. */
  lemma MisreadInputs()
    ensures Typed(" ") && Misread(" ")
    ensures Typed(" HELP") && Misread(" HELP")
  {
    hide Skip, Word, ToUpper;
    SkipIs(" ", 1);
    assert " "[1..] == "";
    SkipIs(" HELP", 1);
    assert " HELP"[1..] == "HELP";
    HelpWord();
  }

  lemma HelpWord()
    ensures ToUpper(Word("HELP")) == "HELP"
  {
    hide Word, ToUpper;
    WordIs("HELP", 4);
    var t := ToUpper("HELP");
    assert t[0] == 'H' && t[1] == 'E' && t[2] == 'L' && t[3] == 'P';
  }

  /** The client takes exactly the lines of the answer, and waits for nothing more, exactly
      unless the command is oversized, a blank line, or HELP or INFO after a space. */
  lemma InStepIff(cmd: string, info: Info)
    requires Typed(cmd) && InfoFits(info)
    ensures Exchange("", true, cmd, info) == Received(Dispatch(cmd, info).replies, "", false)
       <==> !Misread(cmd) && !Oversized(cmd)
  {
    hide Dispatch, Receive, WellFormed, Word, Skip, ToUpper, SendAll, Clean, InfoFits, ReadFrom, Text;
    FitsIff(cmd);
    if |cmd| <= MAX_MESSAGE {
      ReachesServer(cmd);
      if Oversized(cmd) {
        LongWordOverruns(cmd, info);
      } else {
        FittingInStep(cmd, info);
      }
    }
  }

  lemma FittingInStep(cmd: string, info: Info)
    requires Typed(cmd) && InfoFits(info) && !Oversized(cmd)
    ensures var replies := Dispatch(cmd, info).replies;
      && AllFit(replies)
      && (Receive("" + SendAll(replies), IsMultiline(cmd)) == Received(replies, "", false) <==> !Misread(cmd))
  {
    hide Dispatch, Receive, WellFormed, Word, Skip, ToUpper, SendAll, Clean, InfoFits;
    DispatchFits(cmd, info);
    MultilineIff(cmd);
    var replies := Dispatch(cmd, info).replies;
    assert "" + SendAll(replies) == SendAll(replies) + "";
    if Skip(cmd) == "" {
      NothingReceived("");
    } else if IsListing(ToUpper(Word(Skip(cmd)))) {
      FitsWhenFormed(replies, true);
      ReceivesListing(replies, IsMultiline(cmd), "");
      ListingLong(replies);
    } else {
      FitsWhenFormed(replies, false);
      OneReply(replies);
      ReceivesSingle(replies[0], "");
    }
  }

  // ----- Answers that arrive in pieces -----

  lemma {:induction false} MoreInputSameLine(input: string, more: string, room: nat)
    requires ReadFrom(input, room).ending != NoMoreInput
    ensures ReadFrom(input + more, room) ==
            ReadFrom(input, room).(rest := ReadFrom(input, room).rest + more)
    decreases |input|
  {
    if room > 0 {
      assert (input + more)[1..] == input[1..] + more;
      if input[0] == CR {
        MoreInputSameLine(input[1..], more, room);
      } else if input[0] != LF {
        MoreInputSameLine(input[1..], more, room - 1);
      }
    }
  }

  lemma StarvedAtEnd()
    ensures ReceiveMore("").starved
  {
  }

  lemma {:induction false} MoreInputSameLines(input: string, more: string)
    requires !ReceiveMore(input).starved
    ensures ReceiveMore(input + more) ==
            ReceiveMore(input).(rest := ReceiveMore(input).rest + more)
    decreases |input|
  {
    hide ReadFrom;
    StarvedAtEnd();
    var next := ReadOne(input);
    MoreInputSameLine(input, more, BUF_SIZE - 1);
    if next.line != "" && next.line[0] == ' ' {
      MoreInputSameLines(next.rest, more);
    }
  }

  /** An answer the client could take completely does not depend on when the bytes after
      it arrive: reading early and reading late give the same lines. */
  lemma EarlyIsLate(input: string, more: string, multiline: bool)
    requires Receive(input, multiline).Received? && !Receive(input, multiline).starved
    ensures Receive(input + more, multiline) ==
            Receive(input, multiline).(rest := Receive(input, multiline).rest + more)
  {
    hide ReadFrom, ReceiveMore;
    StarvedAtEnd();
    var first := ReadOne(input);
    MoreInputSameLine(input, more, BUF_SIZE - 1);
    if multiline {
      MoreInputSameLines(first.rest, more);
    }
  }

  // ----- Sessions -----

  predicate ClientQuits(cmd: string) {
    ToUpper(cmd) == "QUIT"
  }

  predicate ServerQuits(cmd: string) {
    Skip(cmd) != "" && ToUpper(Word(Skip(cmd))) == "QUIT"
  }

  /** What the client takes for each command it sends, until it quits, exits or waits. */
  function Converse(pending: string, serverOn: bool, cmds: seq<string>, infos: seq<Info>): seq<Reception>
    requires |infos| == |cmds|
    decreases |cmds|
  {
    if cmds == [] then []
    else
      var got := Exchange(pending, serverOn, cmds[0], infos[0]);
      if !got.Received? || got.starved || ClientQuits(cmds[0]) then [got]
      else [got] + Converse(got.rest, serverOn && Dispatch(ServerLine(cmds[0]), infos[0]).goOn, cmds[1..], infos[1..])
  }

  /** A session: the greeting, then the commands. */
  function Session(greeting: string, cmds: seq<string>, infos: seq<Info>): seq<Reception>
    requires |infos| == |cmds|
  {
    var hello := Receive(SendAll([Ok(greeting)]), false);
    if !hello.Received? || hello.starved then [hello] else [hello] + Converse(hello.rest, true, cmds, infos)
  }

  /** Every command got its own answer: all of it and nothing else. */
  predicate Answered(cmds: seq<string>, infos: seq<Info>, got: seq<Reception>)
    requires |infos| == |cmds|
  {
    && |got| == |cmds|
    && forall i :: 0 <= i < |cmds| ==> got[i] == Received(Dispatch(cmds[i], infos[i]).replies, "", false)
  }

  predicate InStep(cmd: string) {
    !Misread(cmd) && !Oversized(cmd)
  }

  predicate Orderly(cmds: seq<string>) {
    forall i :: 0 <= i < |cmds| ==> InStep(cmds[i]) && (i + 1 < |cmds| ==> !ServerQuits(cmds[i]))
  }

  predicate AllTyped(cmds: seq<string>, infos: seq<Info>) {
    && |infos| == |cmds|
    && (forall i :: 0 <= i < |cmds| ==> Typed(cmds[i]))
    && (forall i :: 0 <= i < |infos| ==> InfoFits(infos[i]))
  }

  lemma QuitStops(cmd: string, info: Info)
    ensures Dispatch(cmd, info).goOn <==> !ServerQuits(cmd)
    ensures ClientQuits(cmd) ==> ServerQuits(cmd)
  {
    hide Skip, ToUpper, Word, InfoBody, EchoReply, Err, Ok, Cut;
    if ClientQuits(cmd) {
      QuitIsBare(cmd);
    }
  }

  lemma QuitIsBare(cmd: string)
    requires ToUpper(cmd) == "QUIT"
    ensures Skip(cmd) == cmd == Word(cmd) && cmd != ""
  {
    var t := ToUpper(cmd);
    assert t[0] == 'Q' && t[1] == 'U' && t[2] == 'I' && t[3] == 'T';
    assert forall i :: 0 <= i < 4 ==> cmd[i] != ' ';
    WordIs(cmd, 4);
  }

  /** The client stops at a bare QUIT in any capitalisation: whatever else was to be sent is
      not, and nothing but such a command, or a failure, stops it. */
  lemma {:induction false} QuitEndsSession(pending: string, serverOn: bool, cmds: seq<string>, infos: seq<Info>, i: nat)
    requires |infos| == |cmds| && i < |cmds|
    ensures var got := Converse(pending, serverOn, cmds, infos);
      && (Spells(cmds[i], "QUIT") ==> |got| <= i + 1)
      && (|got| == i + 1 < |cmds| && got[i].Received? && !got[i].starved ==> Spells(cmds[i], "QUIT"))
    decreases |cmds|
  {
    hide Exchange, Dispatch, ServerLine, Spells, ToUpper;
    SpellsIff(cmds[0], "QUIT");
    var first := Exchange(pending, serverOn, cmds[0], infos[0]);
    if i > 0 && first.Received? && !first.starved && !ClientQuits(cmds[0]) {
      var stays := serverOn && Dispatch(ServerLine(cmds[0]), infos[0]).goOn;
      QuitEndsSession(first.rest, stays, cmds[1..], infos[1..], i - 1);
    }
  }

  lemma NothingFromNothing(cmd: string, info: Info)
    ensures !Exchange("", false, cmd, info).Received?
  {
  }

  lemma FirstThenRest(cmds: seq<string>, infos: seq<Info>, got: seq<Reception>)
    requires |infos| == |cmds| > 0 && got != []
    ensures Answered(cmds, infos, got) <==>
      got[0] == Received(Dispatch(cmds[0], infos[0]).replies, "", false) && Answered(cmds[1..], infos[1..], got[1..])
    ensures Orderly(cmds) <==>
      InStep(cmds[0]) && (1 < |cmds| ==> !ServerQuits(cmds[0])) && Orderly(cmds[1..])
  {
    hide Dispatch, InStep, ServerQuits;
    if Answered(cmds[1..], infos[1..], got[1..]) {
      assert forall i :: 0 < i < |cmds| ==>
        cmds[i] == cmds[1..][i - 1] && infos[i] == infos[1..][i - 1] && got[i] == got[1..][i - 1];
    }
    if Orderly(cmds[1..]) {
      assert forall i :: 0 < i < |cmds| ==> cmds[i] == cmds[1..][i - 1];
    }
  }

  /** Once the server has closed, a further command is never answered. */
  lemma LateQuit(cmds: seq<string>, infos: seq<Info>)
    requires |infos| == |cmds| > 1 && !Dispatch(cmds[0], infos[0]).goOn && ServerLine(cmds[0]) == cmds[0]
    ensures !Answered(cmds, infos, Converse("", true, cmds, infos))
  {
    hide Dispatch, Exchange, ClientQuits, ServerLine;
    NothingFromNothing(cmds[1], infos[1]);
    assert Converse("", false, cmds[1..], infos[1..]) == [Exchange("", false, cmds[1], infos[1])];
  }

  lemma {:induction false} ConverseIff(cmds: seq<string>, infos: seq<Info>)
    requires AllTyped(cmds, infos)
    ensures Answered(cmds, infos, Converse("", true, cmds, infos)) <==> Orderly(cmds)
    decreases |cmds|
  {
    hide Dispatch, Exchange, Misread, Oversized, ServerQuits, ClientQuits, InfoFits, ServerLine, Clean;
    if cmds != [] {
      var got := Converse("", true, cmds, infos);
      InStepIff(cmds[0], infos[0]);
      QuitStops(cmds[0], infos[0]);
      if InStep(cmds[0]) {
        SizeOf(cmds[0]);
        ReachesServer(cmds[0]);
        if ServerQuits(cmds[0]) && |cmds| > 1 {
          LateQuit(cmds, infos);
        } else {
          ConverseIff(cmds[1..], infos[1..]);
          FirstThenRest(cmds, infos, got);
        }
      }
    }
  }

  lemma SizeOf(cmd: string)
    requires !Oversized(cmd)
    ensures |cmd| <= MAX_MESSAGE
  {
  }

  /** Over any session of typed commands every reply goes to the command it answers, exactly
      if no command is oversized, blank, or a HELP or INFO after a space, and none but the
      last makes the server quit. */
  lemma SessionIff(greeting: string, cmds: seq<string>, infos: seq<Info>)
    requires Clean(greeting) && |greeting| <= MAX_MESSAGE - 4 && AllTyped(cmds, infos)
    ensures var got := Session(greeting, cmds, infos);
      && got != [] && got[0] == Received(["+OK " + greeting], "", false)
      && (Answered(cmds, infos, got[1..]) <==> Orderly(cmds))
  {
    hide Converse, Receive, Ok, Orderly, Answered, SendAll, Clean;
    OkFits(greeting);
    assert Ok(greeting) == "+OK " + greeting by {
      OkIs(greeting);
    }
    ReceivesSingle(Ok(greeting), "");
    assert SendAll([Ok(greeting)]) + "" == SendAll([Ok(greeting)]);
    ConverseIff(cmds, infos);
    assert Session(greeting, cmds, infos)[1..] == Converse("", true, cmds, infos);
  }
}
