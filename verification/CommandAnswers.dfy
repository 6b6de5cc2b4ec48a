/** Which reply belongs to which command, for every capitalisation and spacing of it. */
module CommandAnswers {
  import opened LineServer

  /** A line with a command word, and an argument if there is one, spaced in any way. */
  ghost predicate IsCommand(line: string, word: string, arg: string) {
    exists before: nat, between: nat ::
      && line == Spaces(before) + (word + (Spaces(between) + arg))
      && (between > 0 || arg == "")
  }

  predicate IsWord(word: string) {
    word != "" && ' ' !in word
  }

  predicate IsArgument(arg: string) {
    arg != "" ==> arg[0] != ' '
  }

  lemma Parts(line: string, word: string, arg: string)
    requires IsCommand(line, word, arg) && IsWord(word) && IsArgument(arg)
    ensures Skip(line) != "" && Word(Skip(line)) == word && Argument(Skip(line)) == arg
  {
    hide Skip, Word, Argument, Spaces;
    var before: nat, between: nat :|
      line == Spaces(before) + (word + (Spaces(between) + arg)) && (between > 0 || arg == "");
    TakesApart(before, word, between, arg);
    assert Word(Skip(line)) == word && |Word(Skip(line))| <= |Skip(line)|;
  }

  lemma NoSpaces(word: string, name: string)
    requires Spells(word, name) && Capitals(name) && name != ""
    ensures IsWord(word)
  {
    assert forall i :: 0 <= i < |word| ==> word[i] != ' ';
  }

  /** A line that spells a name is answered as that name is. */
  lemma AnsweredAs(line: string, word: string, name: string, arg: string, info: Info)
    requires IsCommand(line, word, arg) && IsArgument(arg) && Spells(word, name) && Capitals(name) && name != ""
    ensures Dispatch(line, info) == Answer(name, arg, info)
  {
    hide Skip, Word, ToUpper, Argument, Answer, Spells, IsCommand;
    NoSpaces(word, name);
    Parts(line, word, arg);
    SpellsIff(word, name);
  }

  lemma Short(s: string)
    requires |s| < 512
    ensures Cut(s) == s
  {
  }

  lemma EchoesBack(line: string, word: string, arg: string, info: Info)
    requires IsCommand(line, word, arg) && IsArgument(arg) && Spells(word, "ECHO") && 0 < |arg| <= 506
    ensures Dispatch(line, info) == Served(["+OK " + arg], true)
  {
    hide IsCommand, Spells, Cut;
    AnsweredAs(line, word, "ECHO", arg, info);
    Short("+OK " + arg);
  }

  lemma EchoNeedsArgument(line: string, word: string, info: Info)
    requires IsCommand(line, word, "") && Spells(word, "ECHO")
    ensures Dispatch(line, info) == Served(["-ERR " + "ECHO requires an argument"], true)
  {
    hide IsCommand, Spells, Cut;
    AnsweredAs(line, word, "ECHO", "", info);
    Short("-ERR " + "ECHO requires an argument");
  }

  lemma QuitSaysGoodbye(line: string, word: string, arg: string, info: Info)
    requires IsCommand(line, word, arg) && IsArgument(arg) && Spells(word, "QUIT")
    ensures Dispatch(line, info) == Served(["+OK " + "Goodbye!"], false)
  {
    hide IsCommand, Spells, Cut;
    AnsweredAs(line, word, "QUIT", arg, info);
    Short("+OK " + "Goodbye!");
  }

  lemma InfoBodyIs(info: Info)
    requires |info.started| <= 64 && |info.uptime| <= 64 && |info.pid| <= 64
    ensures InfoBody(info) ==
      ["  Server    : Lab8 TCP Server",
       "  Port      : " + "54321",
       "  Started   : " + info.started,
       "  Uptime    : " + info.uptime + " sec",
       "  PID       : " + info.pid]
  {
    hide Cut;
    Short("  Server    : Lab8 TCP Server");
    Short("  Port      : " + PORT);
    Short("  Started   : " + info.started);
    Short("  Uptime    : " + info.uptime + " sec");
    Short("  PID       : " + info.pid);
  }

  lemma InfoListsServer(line: string, word: string, arg: string, info: Info)
    requires IsCommand(line, word, arg) && IsArgument(arg) && Spells(word, "INFO")
    requires |info.started| <= 64 && |info.uptime| <= 64 && |info.pid| <= 64
    ensures Dispatch(line, info) ==
      Served(["+OK Server information:"] +
             (["  Server    : Lab8 TCP Server",
               "  Port      : " + "54321",
               "  Started   : " + info.started,
               "  Uptime    : " + info.uptime + " sec",
               "  PID       : " + info.pid] + ["."]), true)
  {
    hide IsCommand, Spells, InfoBody, Dispatch, EchoReply, Ok, Err, Cut;
    AnsweredAs(line, word, "INFO", arg, info);
    InfoBodyIs(info);
  }

  lemma HelpListsCommands(line: string, word: string, arg: string, info: Info)
    requires IsCommand(line, word, arg) && IsArgument(arg) && Spells(word, "HELP")
    ensures Dispatch(line, info) ==
      Served(["+OK Available commands:"] +
             (["  ECHO <text>  - " + "echo text back",
               "  INFO         - " + "server information",
               "  HELP         - " + "this help",
               "  QUIT         - " + "close connection"] + ["."]), true)
  {
    hide IsCommand, Spells, Dispatch, InfoBody, EchoReply, Ok, Err, Cut;
    AnsweredAs(line, word, "HELP", arg, info);
  }

  predicate Known(word: string) {
    Spells(word, "ECHO") || Spells(word, "INFO") || Spells(word, "HELP") || Spells(word, "QUIT")
  }

  /** Any other word is named, in capitals, in an error. */
  lemma OthersUnknown(line: string, word: string, arg: string, info: Info)
    requires IsCommand(line, word, arg) && IsWord(word) && IsArgument(arg) && !Known(word) && |word| <= 488
    ensures exists capital ::
      && |capital| == |word|
      && (forall i :: 0 <= i < |word| ==>
            capital[i] as int == if 'a' <= word[i] <= 'z' then word[i] as int - 32 else word[i] as int)
      && Dispatch(line, info) == Served(["-ERR " + ("Unknown command: " + capital)], true)
  {
    hide IsCommand, Spells, Cut, Skip, Word, ToUpper, Argument;
    Parts(line, word, arg);
    SpellsIff(word, "ECHO");
    SpellsIff(word, "INFO");
    SpellsIff(word, "HELP");
    SpellsIff(word, "QUIT");
    var capital := ToUpper(word);
    forall i | 0 <= i < |word|
      ensures capital[i] as int == if 'a' <= word[i] <= 'z' then word[i] as int - 32 else word[i] as int
    {
      UpperMeans(word, i);
    }
    Short("Unknown command: " + capital);
    Short("-ERR " + ("Unknown command: " + capital));
  }

  /** A blank line is not answered, and does not end the session. */
  lemma BlankUnanswered(n: nat, info: Info)
    ensures Dispatch(Spaces(n), info) == Served([], true)
  {
    SkipIs(Spaces(n), n);
  }
}
