/** The commands a user can give, and what a valid word of each kind is. */
module Commands {
  import opened Basics

  /** A recognised command with its words (ProtocolBlocks); `word` is the command word as typed. */
  datatype Command =
    | CmdNone
    | CmdMissing
    | CmdHelp
    | CmdExit(word: seq<byte>)
    | CmdAuth(word: seq<byte>, user: seq<byte>, secret: seq<byte>, name: seq<byte>)
    | CmdJoin(word: seq<byte>, channel: seq<byte>)
    | CmdRename(name: seq<byte>)
    | CmdMsg(text: seq<byte>)
    | CmdErr(text: seq<byte>)
    | CmdConf(low: byte, high: byte)

  datatype WordKind = Credential | DisplayName | MessageContent

  /** The characters accepted by allowedCharsInCredentials, allowedCharsInName, allowedCharsInMessage. */
  predicate Allowed(kind: WordKind, b: byte) {
    match kind
    case Credential => 97 <= b <= 122 || 65 <= b <= 90 || 48 <= b <= 57 || b == 45
    case DisplayName => 0x21 <= b <= 0x7E
    case MessageContent => 0x20 <= b <= 0x7E
  }

  predicate ValidWord(w: seq<byte>, maxLen: nat, kind: WordKind) {
    0 < |w| <= maxLen && forall i :: 0 <= i < |w| ==> Allowed(kind, w[i])
  }

  predicate ValidName(w: seq<byte>) { ValidWord(w, 20, DisplayName) }

  predicate ValidText(w: seq<byte>) { ValidWord(w, 14000, MessageContent) }

  /** Whether the words of a command passed controlWord. */
  predicate ValidCommand(c: Command) {
    match c
    case CmdAuth(_, u, s, d) => ValidWord(u, 20, Credential) && ValidWord(s, 128, Credential) && ValidName(d)
    case CmdJoin(_, ch) => ValidWord(ch, 20, Credential)
    case CmdRename(d) => ValidName(d)
    case CmdMsg(t) => ValidText(t)
    case _ => true
  }

  /** controlWord: the first wrong character stops the loop. */
  method ControlWord(w: seq<byte>, maxLen: nat, kind: WordKind) returns (ok: bool)
    ensures ok <==> ValidWord(w, maxLen, kind)
  {
    if |w| == 0 || |w| > maxLen {
      return false;
    }
    for i := 0 to |w|
      invariant forall k :: 0 <= k < i ==> Allowed(kind, w[k])
    {
      if !Allowed(kind, w[i]) {
        return false;
      }
    }
    ok := true;
  }
}
