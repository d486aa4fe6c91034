/**
 * The two formats and the command line, letter by letter: what some messages are on the wire, and what some lines
 * mean. These pin the constants that everything else is stated with.
 */
module KnownAnswers {
  import opened Basics
  import opened Commands
  import opened Formats
  import opened Scanning
  import opened Tokenizer
  import opened UserInput
  import opened ChatProtocol
  import MessageIds

  /** The bytes of an ASCII text. */
  function Bytes(s: string): seq<byte> {
    seq(|s|, i requires 0 <= i < |s| => s[i] as int % 128)
  }

  /** The texts around the words of AUTH and JOIN. */
  lemma WordTexts()
    ensures AUTH_TEXT == Bytes("AUTH ") && JOIN_TEXT == Bytes("JOIN ")
    ensures AS_TEXT == Bytes(" AS ") && USING_TEXT == Bytes(" USING ")
  {}

  /** The texts of MSG, ERR and BYE. */
  lemma ContentTexts()
    ensures MSG_FROM_TEXT == Bytes("MSG FROM ") && ERR_FROM_TEXT == Bytes("ERR FROM ")
    ensures IS_TEXT == Bytes(" IS ") && BYE_TEXT == Bytes("BYE") && CRLF == Bytes("\r\n")
  {}

  /** The texts of a REPLY. */
  lemma ReplyTexts()
    ensures REPLY_TEXT == Bytes("REPLY ") && OK_IS_TEXT == Bytes("OK IS ") && NOK_IS_TEXT == Bytes("NOK IS ")
  {}

  /** The reasons the client gives in its ERR. */
  lemma Reasons()
    ensures TIMED_OUT == Bytes("Request timed out")
    ensures UNKNOWN_FORMAT == Bytes("Unknown message format")
  {}

  /** The TCP messages of the client, as text, for all words. */
  lemma TcpMessages(user: seq<byte>, name: seq<byte>, secret: seq<byte>, channel: seq<byte>, text: seq<byte>)
    ensures TcpPacket(CmdAuth([], user, secret, name), []) ==
      Bytes("AUTH ") + user + Bytes(" AS ") + name + Bytes(" USING ") + secret + Bytes("\r\n")
    ensures TcpPacket(CmdJoin([], channel), name) ==
      Bytes("JOIN ") + channel + Bytes(" AS ") + name + Bytes("\r\n")
    ensures TcpPacket(CmdMsg(text), name) == Bytes("MSG FROM ") + name + Bytes(" IS ") + text + Bytes("\r\n")
    ensures TcpPacket(CmdErr(text), name) == Bytes("ERR FROM ") + name + Bytes(" IS ") + text + Bytes("\r\n")
    ensures TcpPacket(CmdExit([]), name) == Bytes("BYE") + Bytes("\r\n")
  {
    hide Bytes;
    WordTexts();
    ContentTexts();
  }

  /** The UDP messages of the client after the counter 0x1234 was stamped into them, byte for byte. */
  lemma UdpMessages()
    ensures Stamp(UdpPacket(CmdAuth([], [117], [115], [110]), Id(0, 0), []), 0x1234)
      == [0x02, 0x34, 0x12, 117, 0, 110, 0, 115, 0]
    ensures Stamp(UdpPacket(CmdJoin([], [99]), Id(0, 0), [110]), 0x1234) == [0x03, 0x34, 0x12, 99, 0, 110, 0]
    ensures Stamp(UdpPacket(CmdMsg([116]), Id(0, 0), [110]), 0x1234) == [0x04, 0x34, 0x12, 110, 0, 116, 0]
    ensures Stamp(UdpPacket(CmdErr([116]), Id(0, 0), [110]), 0x1234) == [0xFE, 0x34, 0x12, 110, 0, 116, 0]
    ensures Stamp(UdpPacket(CmdExit([]), Id(0, 0), []), 0x1234) == [0xFF, 0x34, 0x12]
    ensures UdpConfirm(Id(0x34, 0x12)) == [0x00, 0x34, 0x12]
    ensures UdpReply(Id(0x34, 0x12), 1, Id(7, 0), [111, 107]) == [0x01, 0x34, 0x12, 1, 7, 0, 111, 107, 0]
  {}

  /** Ids and their bytes in numbers, with an unsigned and a signed `char`, and the one after an id. */
  lemma IdNumbers()
    ensures MessageIds.Low(0x1234) == 0x34 && MessageIds.High(0x1234) == 0x12
    ensures MessageIds.Decode(false, 0x80, 0x12) == 0x1280 && MessageIds.Decode(true, 0x80, 0x12) == 0x1180
    ensures MessageIds.Following(0) == 1 && MessageIds.Following(0x12FF) == 0x1300 && MessageIds.Following(0xFFFF) == 0
  {}

  /** The names of the commands; spaces and tabs separate their words, a carriage return and a line feed end them. */
  lemma CommandNames()
    ensures AUTH_CMD == Bytes("/auth") && JOIN_CMD == Bytes("/join") && RENAME_CMD == Bytes("/rename")
    ensures HELP_CMD == Bytes("/help") && EXIT_CMD == Bytes("/exit")
    ensures Blanks(Bytes(" \t")) && forall b :: b in Bytes("\r\n\0") ==> IsLineEnd(b)
    ensures forall b :: b in Bytes("/aZ09-!~") ==> !IsWordEnd(b)
  {
    assert Bytes(" \t") == [32, 9] && Bytes("\r\n\0") == [13, 10, 0];
    assert Bytes("/aZ09-!~") == [47, 97, 90, 48, 57, 45, 33, 126];
  }

  predicate Graphic(b: byte) { 33 <= b <= 126 }

  /** The words of a command are within their lengths and of their characters; a message is printable. */
  lemma WordsAccepted(line: seq<byte>)
    requires Tokenizable(line)
    ensures var c := Parse(line);
      && (c.CmdAuth? ==> 1 <= |c.user| <= 20 && 1 <= |c.secret| <= 128 && 1 <= |c.name| <= 20)
      && (c.CmdAuth? ==> forall i :: 0 <= i < |c.name| ==> Graphic(c.name[i]))
      && (c.CmdJoin? ==> 1 <= |c.channel| <= 20 && forall i :: 0 <= i < |c.channel| ==> c.channel[i] != 46)
      && (c.CmdRename? ==> 1 <= |c.name| <= 20 && forall i :: 0 <= i < |c.name| ==> Graphic(c.name[i]))
      && (c.CmdMsg? ==> 1 <= |line| <= 14000 && forall i :: 0 <= i < |line| ==> line[i] == 32 || Graphic(line[i]))
  {
    hide Parse;
    assert ValidCommand(Parse(line));
  }

  /** The longest words, of the extreme characters, are valid. */
  lemma LongestWords()
    ensures forall b :: b in Bytes("azAZ09-") ==>
      ValidWord(seq(20, i => b), 20, Credential) && ValidWord(seq(128, i => b), 128, Credential)
    ensures forall b :: b in Bytes("!~") ==> ValidName(seq(20, i => b)) && ValidText(seq(14000, i => b))
    ensures ValidText(seq(14000, i => 32))
  {
    assert Bytes("azAZ09-") == [97, 122, 65, 90, 48, 57, 45] && Bytes("!~") == [33, 126];
  }
}
