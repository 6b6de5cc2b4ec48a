/** Lines on a byte stream: how they are sent, in any number of partial writes, and how
    they are read back one byte at a time. C strings are sequences without NUL. */
module LineProtocol {

  const BUF_SIZE: nat := 512
  const CR := '\r'
  const LF := '\n'
  const NUL := '\0'

  /** A C string that contains nothing the framing treats specially. */
  predicate Clean(s: string) {
    CR !in s && LF !in s && NUL !in s
  }

  /** The C string a buffer holds: everything before its first NUL. */
  function Text(s: string): (t: string)
    requires NUL in s
    ensures |t| < |s| && t == s[..|t|] && s[|t|] == NUL && NUL !in t
  {
    if s[0] == NUL then "" else [s[0]] + Text(s[1..])
  }

  lemma {:induction false} TextIs(s: string, n: nat)
    requires n < |s| && s[n] == NUL && NUL !in s[..n]
    ensures Text(s) == s[..n]
  {
    if n > 0 {
      assert s[1..][..n - 1] == s[..n][1..];
      assert s[..n][0] == s[0];
      TextIs(s[1..], n - 1);
    }
  }

  /** The C string that `read_line` leaves after reading the bytes of `line`. */
  function LineText(line: string): string {
    Text(line + [NUL])
  }

  // ----- Sending -----

  /** What `send_line` puts on the wire. `snprintf` cuts the text to the buffer, but the
      number of bytes to write is that of the uncut text, so a text that does not fit is
      read past the end of the buffer. */
  datatype Wire = Sent(bytes: string) | Overread

  function SendBytes(msg: string): Wire {
    var text := msg + [CR, LF];
    if |text| <= BUF_SIZE - 1 then Sent(text)
    else if |text| == BUF_SIZE then Sent(text[..BUF_SIZE - 1] + [NUL])
    else Overread
  }

  /** The longest message that is sent from inside the buffer, if only just: the line feed
      of a message of that length is lost. */
  const MAX_MESSAGE: nat := 510

  lemma FitsIff(msg: string)
    ensures SendBytes(msg) == Sent(msg + [CR, LF]) <==> |msg| < MAX_MESSAGE
    ensures SendBytes(msg).Sent? <==> |msg| <= MAX_MESSAGE
  {
    if |msg| == MAX_MESSAGE {
      assert (msg + [CR, LF])[..BUF_SIZE - 1] + [NUL] != msg + [CR, LF] by {
        assert ((msg + [CR, LF])[..BUF_SIZE - 1] + [NUL])[BUF_SIZE - 1] == NUL;
        assert (msg + [CR, LF])[BUF_SIZE - 1] == LF;
      }
    }
  }

  class Connection {
    var incoming: string
    var outgoing: string

    constructor ()
      ensures incoming == "" && outgoing == ""
    {
      incoming, outgoing := "", "";
    }

    /** One `write`: the kernel takes some, possibly not all, of the bytes. */
    method WriteSome(bytes: string) returns (n: nat)
      requires bytes != []
      modifies this`outgoing
      ensures 1 <= n <= |bytes|
      ensures outgoing == old(outgoing) + bytes[..n]
    {
      n :| 1 <= n <= |bytes|;
      outgoing := outgoing + bytes[..n];
    }

    /** The write loop: however the kernel splits it, the whole buffer goes out. */
    method SendLine(msg: string)
      requires SendBytes(msg).Sent?
      modifies this`outgoing
      ensures outgoing == old(outgoing) + SendBytes(msg).bytes
    {
      var buf := SendBytes(msg).bytes;
      var sent := 0;
      while sent < |buf|
        invariant 0 <= sent <= |buf|
        invariant outgoing == old(outgoing) + buf[..sent]
      {
        var n := WriteSome(buf[sent..]);
        assert buf[..sent] + buf[sent..][..n] == buf[..sent + n];
        sent := sent + n;
      }
      assert buf[..sent] == buf;
    }

    /** The read loop: at most `maxlen - 1` bytes into `buf`, up to a line feed. */
    method ReadLine(buf: array<char>, maxlen: nat) returns (n: nat)
      requires 1 <= maxlen <= buf.Length
      modifies this`incoming, buf
      ensures var r := ReadFrom(old(incoming), maxlen - 1);
              && n == |r.line| < maxlen && buf[..n] == r.line && buf[n] == NUL
              && incoming == r.rest
    {
      ghost var goal := ReadFrom(incoming, maxlen - 1);
      var i := 0;
      while i < maxlen - 1
        invariant i <= maxlen - 1
        invariant goal == Prefixed(buf[..i], ReadFrom(incoming, maxlen - 1 - i))
        decreases |incoming|
      {
        if incoming == "" {
          break;
        }
        var c := incoming[0];
        ReadFromStep(incoming, maxlen - 1 - i, buf[..i]);
        incoming := incoming[1..];
        if c == LF {
          break;
        }
        if c == CR {
          continue;
        }
        buf[i] := c;
        i := i + 1;
        assert buf[..i] == buf[..i - 1] + [c];
      }
      buf[i] := NUL;
      n := i;
    }
  }

  // ----- Receiving -----

  datatype Ending = AtNewline | BufferFull | NoMoreInput

  datatype ReadResult = ReadResult(line: string, rest: string, ending: Ending)

  /** Bytes up to a line feed, without carriage returns, as long as there is room. */
  function ReadFrom(input: string, room: nat): (r: ReadResult)
    ensures |r.line| <= room
    ensures r.ending == NoMoreInput ==> r.rest == ""
    ensures |r.line| + |r.rest| + (if r.ending == AtNewline then 1 else 0) <= |input|
    decreases |input|
  {
    if room == 0 then ReadResult("", input, BufferFull)
    else if input == "" then ReadResult("", "", NoMoreInput)
    else if input[0] == LF then ReadResult("", input[1..], AtNewline)
    else if input[0] == CR then ReadFrom(input[1..], room)
    else Prefixed([input[0]], ReadFrom(input[1..], room - 1))
  }

  function Prefixed(prefix: string, r: ReadResult): ReadResult {
    r.(line := prefix + r.line)
  }

  lemma ReadFromStep(input: string, room: nat, prefix: string)
    requires room > 0 && input != ""
    ensures Prefixed(prefix, ReadFrom(input, room)) ==
            if input[0] == LF then ReadResult(prefix, input[1..], AtNewline)
            else if input[0] == CR then Prefixed(prefix, ReadFrom(input[1..], room))
            else Prefixed(prefix + [input[0]], ReadFrom(input[1..], room - 1))
  {
    if input[0] != LF && input[0] != CR {
      var r := ReadFrom(input[1..], room - 1);
      assert prefix + ([input[0]] + r.line) == prefix + [input[0]] + r.line;
    } else if input[0] == LF {
      assert prefix + "" == prefix;
    }
  }

  function ReadOne(input: string): ReadResult {
    ReadFrom(input, BUF_SIZE - 1)
  }

  lemma {:induction false} ReadSent(msg: string, rest: string, room: nat)
    requires Clean(msg) && |msg| < room
    ensures ReadFrom(msg + [CR, LF] + rest, room) == ReadResult(msg, rest, AtNewline)
    decreases |msg|
  {
    var input := msg + [CR, LF] + rest;
    if msg == "" {
      assert input == [CR, LF] + rest;
      assert input[1..] == [LF] + rest;
      assert input[1..][1..] == rest;
    } else {
      assert input[1..] == msg[1..] + [CR, LF] + rest;
      ReadSent(msg[1..], rest, room - 1);
      assert [msg[0]] + msg[1..] == msg;
    }
  }

  /** The line feed that did not fit is not missed: the reader's buffer is full there. */
  lemma {:induction false} ReadLongest(msg: string, rest: string)
    requires Clean(msg)
    ensures ReadFrom(msg + [CR, NUL] + rest, |msg| + 1) == ReadResult(msg + [NUL], rest, BufferFull)
    decreases |msg|
  {
    var input := msg + [CR, NUL] + rest;
    if msg == "" {
      assert input == [CR, NUL] + rest;
      assert input[1..] == [NUL] + rest;
      assert input[1..][1..] == rest;
      assert ReadFrom(rest, 0) == ReadResult("", rest, BufferFull);
      assert [NUL] + "" == msg + [NUL];
    } else {
      assert input[1..] == msg[1..] + [CR, NUL] + rest;
      ReadLongest(msg[1..], rest);
      assert [msg[0]] + (msg[1..] + [NUL]) == msg + [NUL];
    }
  }

  /** The text without its carriage returns. */
  function DropCR(s: string): string {
    if s == "" then "" else (if s[0] == CR then "" else [s[0]]) + DropCR(s[1..])
  }

  /** What a read takes, for any input: the bytes up to the first line feed, if there is room
      for all of them but the carriage returns, and the line feed; else as many as there is
      room for, or there are. The carriage returns are dropped, wherever they stand. */
  lemma {:induction false} ReadSplits(input: string, room: nat) returns (k: nat)
    ensures k <= |input|
    ensures var r := ReadFrom(input, room);
      && r.line == DropCR(input[..k]) && LF !in input[..k]
      && match r.ending
         case AtNewline => |r.line| < room && k < |input| && input[k] == LF && r.rest == input[k + 1..]
         case BufferFull => |r.line| == room && r.rest == input[k..] && (k > 0 ==> input[k - 1] != CR)
         case NoMoreInput => |r.line| < room && k == |input| && r.rest == ""
    decreases |input|
  {
    k := 0;
    assert input[..0] == "";
    if room > 0 && input != "" && input[0] != LF {
      var j := ReadSplits(input[1..], if input[0] == CR then room else room - 1);
      k := j + 1;
      assert input[..k] == [input[0]] + input[1..][..j];
      assert input[..k][1..] == input[1..][..j];
    }
  }

  /** What is read never contains a carriage return or a line feed. */
  lemma {:induction false} ReadsClean(input: string, room: nat)
    ensures CR !in ReadFrom(input, room).line && LF !in ReadFrom(input, room).line
    decreases |input|
  {
    if room > 0 && input != "" && input[0] != LF {
      if input[0] == CR {
        ReadsClean(input[1..], room);
      } else {
        ReadsClean(input[1..], room - 1);
      }
    }
  }

  predicate Sendable(msg: string) {
    Clean(msg) && |msg| <= MAX_MESSAGE
  }

  /** The bytes of a message on the wire, when they come from inside the buffer. */
  function WireBytes(msg: string): string {
    match SendBytes(msg)
    case Sent(bytes) => bytes
    case Overread => ""
  }

  lemma Arrives(msg: string, rest: string)
    requires Sendable(msg)
    ensures var r := ReadOne(WireBytes(msg) + rest);
      && LineText(r.line) == msg && r.rest == rest && r.ending != NoMoreInput
      && (r.line == "" <==> msg == "") && (msg != "" ==> r.line[0] == msg[0])
  {
    hide ReadFrom, Text;
    if |msg| < MAX_MESSAGE {
      ReadSent(msg, rest, BUF_SIZE - 1);
      TextIs(msg + [NUL], |msg|);
    } else {
      assert (msg + [CR, LF])[..BUF_SIZE - 1] + [NUL] == msg + [CR, NUL];
      ReadLongest(msg, rest);
      TextIs(msg + [NUL] + [NUL], |msg|);
    }
  }

  /** The message comes back as a C string, and nothing of what follows it is touched. */
  predicate ComesBack(msg: string, rest: string) {
    && SendBytes(msg).Sent?
    && var r := ReadOne(WireBytes(msg) + rest);
       LineText(r.line) == msg && r.rest == rest && r.ending != NoMoreInput
  }

  lemma RoundTripIff(msg: string, rest: string)
    ensures ComesBack(msg, rest) <==> Sendable(msg)
  {
    hide ReadFrom, Text;
    FitsIff(msg);
    if Sendable(msg) {
      Arrives(msg, rest);
    } else if SendBytes(msg).Sent? {
      var line := ReadOne(WireBytes(msg) + rest).line;
      ReadsClean(WireBytes(msg) + rest, BUF_SIZE - 1);
      TextClean(line);
    }
  }

  lemma TextClean(line: string)
    requires CR !in line && LF !in line
    ensures Clean(LineText(line))
  {
    hide Text;
    var t := LineText(line);
    assert forall i :: 0 <= i < |t| ==> t[i] == (line + [NUL])[i] == line[i];
  }

  function SendAll(msgs: seq<string>): string {
    if msgs == [] then "" else WireBytes(msgs[0]) + SendAll(msgs[1..])
  }

  /** Read `n` lines one after the other. */
  function ReadMany(input: string, n: nat): (r: (seq<string>, string))
    decreases n
  {
    if n == 0 then ([], input)
    else
      var first := ReadOne(input);
      var others := ReadMany(first.rest, n - 1);
      ([LineText(first.line)] + others.0, others.1)
  }

  /** Any list of sendable lines comes back as it was, whatever follows on the stream. */
  lemma {:induction false} FramingRoundTrip(msgs: seq<string>, rest: string)
    requires forall i :: 0 <= i < |msgs| ==> Sendable(msgs[i])
    ensures ReadMany(SendAll(msgs) + rest, |msgs|) == (msgs, rest)
    decreases |msgs|
  {
    hide ReadFrom, Text, SendBytes, Clean;
    if msgs == [] {
      assert SendAll(msgs) + rest == rest;
    } else {
      var tail := SendAll(msgs[1..]) + rest;
      assert SendAll(msgs) + rest == WireBytes(msgs[0]) + tail;
      Arrives(msgs[0], tail);
      FramingRoundTrip(msgs[1..], rest);
      assert [msgs[0]] + msgs[1..] == msgs;
    }
  }
}
