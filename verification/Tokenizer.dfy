/** userInputToCmds: from a line of user input to a command. */
module Tokenizer {
  import opened Basics
  import opened Commands
  import opened Scanning

  const AUTH_CMD: seq<byte> := [47, 97, 117, 116, 104]             // "/auth"
  const JOIN_CMD: seq<byte> := [47, 106, 111, 105, 110]            // "/join"
  const RENAME_CMD: seq<byte> := [47, 114, 101, 110, 97, 109, 101] // "/rename"
  const HELP_CMD: seq<byte> := [47, 104, 101, 108, 112]            // "/help"
  const EXIT_CMD: seq<byte> := [47, 101, 120, 105, 116]            // "/exit"

  /** Where a word starts in the buffer, and its length. */
  datatype Block = Block(start: nat, len: nat)

  /**
   * Lines the tokenizer can read. On a line made of blanks only it steps back from the start of the
   * buffer, which is outside of the program's memory.
   */
  predicate Tokenizable(line: seq<byte>) {
    line == [] || exists k :: 0 <= k < |line| && NotBlank(line[k])
  }

  /** getWord: skips blanks from `from`, at most `size` bytes; None when no word is there. */
  function GetWord(data: seq<byte>, from: nat, size: int): Option<Block>
    requires size > 0 ==> from + SkipBlankChars(data, from, size) >= 0
  {
    if size <= 0 then None
    else
      var start := from + SkipBlankChars(data, from, size);
      var len := FindBlankChar(data, start, size);
      if len <= 0 then None else Some(Block(start, len))
  }

  /** The words after "/auth"; each one is searched with the source's own idea of how much is left. */
  function AuthWords(data: seq<byte>, cmd: nat, used: nat): Option<(Block, Block, Block)>
    requires used - cmd > 0 ==> cmd + SkipBlankChars(data, cmd, used - cmd) >= 0
  {
    match GetWord(data, cmd, used - cmd)
    case None => None
    case Some(first) =>
      match GetWord(data, first.start + first.len, used - (cmd + first.len))
      case None => None
      case Some(second) =>
        match GetWord(data, second.start + second.len, used - (cmd + first.len + second.len))
        case None => None
        case Some(third) => Some((first, second, third))
  }

  function BlockBytes(data: seq<byte>, b: Block): seq<byte>
    requires b.start + b.len <= |data|
  {
    data[b.start..b.start + b.len]
  }

  function ParseAuth(data: seq<byte>, cmd: nat, used: nat): Command
    requires cmd <= |data|
    requires used - cmd > 0 ==> cmd + SkipBlankChars(data, cmd, used - cmd) >= 0
  {
    match AuthWords(data, cmd, used)
    case None => CmdMissing
    case Some((first, second, third)) =>
      var u, s, d := BlockBytes(data, first), BlockBytes(data, second), BlockBytes(data, third);
      if ValidWord(u, 20, Credential) && ValidWord(s, 128, Credential) && ValidName(d)
      then CmdAuth(data[..cmd], u, s, d)
      else CmdNone
  }

  /** The argument of /join and /rename: everything up to the end of the line; None when it is missing. */
  function LineArgument(data: seq<byte>, cmd: nat, used: nat): Option<Block>
    requires 0 < cmd <= used < |data|
  {
    var start := cmd + SkipBlankChars(data, cmd, used - cmd);
    var len := FindNewLine(data, start, used - cmd);
    if len < 0 then None else Some(Block(start, len))
  }

  function ParseArgument(data: seq<byte>, cmd: nat, used: nat): Command
    requires 0 < cmd <= used < |data|
  {
    match LineArgument(data, cmd, used)
    case None => CmdMissing
    case Some(b) =>
      var w := BlockBytes(data, b);
      if data[..cmd] <= JOIN_CMD then
        if ValidWord(w, 20, Credential) then CmdJoin(data[..cmd], w) else CmdNone
      else
        if ValidName(w) then CmdRename(w) else CmdNone
  }

  /**
   * The command of a line. The first word selects it, and any prefix of a command's name stands for
   * it: the comparison stops at the length of the typed word. The empty word counts as "/auth".
   */
  function Parse(line: seq<byte>): (c: Command)
    requires Tokenizable(line)
    ensures ValidCommand(c)
    ensures !c.CmdErr? && !c.CmdConf?
    ensures c.CmdMsg? ==> c.text == line
  {
    if line == [] then CmdNone
    else
      var data := line + [NUL];
      var cmd := FindBlankChar(data, 0, |line|);
      assert IsWordEnd(data[|line|]);
      var word := data[..cmd];
      if word <= AUTH_CMD then
        assert cmd == 0 ==> SkipBlankChars(data, 0, |line|) >= 0 by { FirstWordExists(line); }
        ParseAuth(data, cmd, |line|)
      else if word <= JOIN_CMD || word <= RENAME_CMD then ParseArgument(data, cmd, |line|)
      else if word <= HELP_CMD then CmdHelp
      else if word <= EXIT_CMD then CmdExit(word)
      else if ValidText(line) then CmdMsg(line)
      else CmdNone
  }

  lemma FirstWordExists(line: seq<byte>)
    requires line != [] && Tokenizable(line)
    ensures SkipBlankChars(line + [NUL], 0, |line|) >= 0
  {
    var k :| 0 <= k < |line| && NotBlank(line[k]);
    assert (line + [NUL])[k] == line[k];
  }
}
