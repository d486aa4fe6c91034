/** The byte formats of IPK24CHAT messages: what the assemblers write, and what a receiver reads back. */
module Formats {
  import opened Basics
  import opened Commands
  import opened Scanning
  import MessageIds

  /** A message buffer: every message has at least three bytes. */
  type Packet = s: seq<byte> | |s| >= 3 witness [0, 0, 0]

  /** The two id bytes of a message, at positions 1 and 2. */
  datatype Id = Id(low: byte, high: byte)

  function IdOf(p: Packet): Id { Id(p[1], p[2]) }

  /** queueSetMessageID on one buffer. */
  function Stamp(p: Packet, c: u16): Packet { p[1 := MessageIds.Low(c)][2 := MessageIds.High(c)] }

  function Field(s: seq<byte>): seq<byte> { s + [NUL] }

  // ---------------------------------------------------------------------------
  //  UDP
  // ---------------------------------------------------------------------------

  function UdpHeader(kind: byte, id: Id): Packet { [kind, id.low, id.high] }

  function UdpConfirm(id: Id): Packet { UdpHeader(CONF, id) }

  function UdpBye(id: Id): Packet { UdpHeader(BYE, id) }

  function UdpAuth(id: Id, user: seq<byte>, name: seq<byte>, secret: seq<byte>): Packet {
    UdpHeader(AUTH, id) + Field(user) + Field(name) + Field(secret)
  }

  /** JOIN (channel, display name), MSG and ERR (display name, contents). */
  function UdpPair(kind: byte, id: Id, zeroth: seq<byte>, first: seq<byte>): Packet {
    UdpHeader(kind, id) + Field(zeroth) + Field(first)
  }

  /** What a server sends as REPLY; the result 1 accepts, any other one rejects. */
  function UdpReply(id: Id, result: byte, ref: Id, text: seq<byte>): Packet {
    UdpHeader(REPLY, id) + [result, ref.low, ref.high] + Field(text)
  }

  // ---------------------------------------------------------------------------
  //  TCP
  // ---------------------------------------------------------------------------

  const AUTH_TEXT: seq<byte> := [65, 85, 84, 72, 32]                        // "AUTH "
  const JOIN_TEXT: seq<byte> := [74, 79, 73, 78, 32]                        // "JOIN "
  const MSG_FROM_TEXT: seq<byte> := [77, 83, 71, 32, 70, 82, 79, 77, 32]    // "MSG FROM "
  const ERR_FROM_TEXT: seq<byte> := [69, 82, 82, 32, 70, 82, 79, 77, 32]    // "ERR FROM "
  const REPLY_TEXT: seq<byte> := [82, 69, 80, 76, 89, 32]                   // "REPLY "
  const OK_IS_TEXT: seq<byte> := [79, 75, 32, 73, 83, 32]                   // "OK IS "
  const NOK_IS_TEXT: seq<byte> := [78, 79, 75, 32, 73, 83, 32]              // "NOK IS "
  const BYE_TEXT: seq<byte> := [66, 89, 69]                                 // "BYE"
  const AS_TEXT: seq<byte> := [32, 65, 83, 32]                              // " AS "
  const IS_TEXT: seq<byte> := [32, 73, 83, 32]                              // " IS "
  const USING_TEXT: seq<byte> := [32, 85, 83, 73, 78, 71, 32]               // " USING "
  const CRLF: seq<byte> := [13, 10]

  function TcpAuth(user: seq<byte>, name: seq<byte>, secret: seq<byte>): Packet {
    AUTH_TEXT + user + AS_TEXT + name + USING_TEXT + secret + CRLF
  }

  function TcpJoin(channel: seq<byte>, name: seq<byte>): Packet {
    JOIN_TEXT + channel + AS_TEXT + name + CRLF
  }

  /** MSG and ERR differ only in their first word. */
  function TcpPair(start: seq<byte>, name: seq<byte>, text: seq<byte>): Packet
    requires start == MSG_FROM_TEXT || start == ERR_FROM_TEXT
  {
    start + name + IS_TEXT + text + CRLF
  }

  function TcpBye(): Packet { BYE_TEXT + CRLF }

  function TcpReply(ok: bool, text: seq<byte>): Packet {
    REPLY_TEXT + (if ok then OK_IS_TEXT else NOK_IS_TEXT) + text + CRLF
  }

  // ---------------------------------------------------------------------------
  //  What the assemblers produce
  // ---------------------------------------------------------------------------

  /** JOIN, MSG and ERR need a stored display name. */
  predicate NeedsName(c: Command) { c.CmdJoin? || c.CmdMsg? || c.CmdErr? }

  /** The commands assembleProtocolUDP knows; any other one ends the program. */
  predicate UdpKnown(c: Command) {
    c.CmdAuth? || c.CmdExit? || c.CmdConf? || NeedsName(c)
  }

  predicate TcpKnown(c: Command) { c.CmdAuth? || c.CmdExit? || NeedsName(c) }

  /** The message type stored with an assembled command. */
  function KindOf(c: Command): byte
    requires UdpKnown(c)
  {
    match c
    case CmdAuth(_, _, _, _) => AUTH
    case CmdJoin(_, _) => JOIN
    case CmdMsg(_) => MSG
    case CmdErr(_) => ERR
    case CmdConf(_, _) => CONF
    case CmdExit(_) => BYE
  }

  /** The UDP message of a command; `id` stands for the bytes the assembler leaves untouched. */
  function UdpPacket(c: Command, id: Id, name: seq<byte>): Packet
    requires UdpKnown(c)
  {
    match c
    case CmdAuth(_, u, s, d) => UdpAuth(id, u, d, s)
    case CmdJoin(_, ch) => UdpPair(JOIN, id, ch, name)
    case CmdMsg(t) => UdpPair(MSG, id, name, t)
    case CmdErr(t) => UdpPair(ERR, id, name, t)
    case CmdConf(l, h) => UdpConfirm(Id(l, h))
    case CmdExit(_) => UdpBye(id)
  }

  function TcpPacket(c: Command, name: seq<byte>): Packet
    requires TcpKnown(c)
  {
    match c
    case CmdAuth(_, u, s, d) => TcpAuth(u, d, s)
    case CmdJoin(_, ch) => TcpJoin(ch, name)
    case CmdMsg(t) => TcpPair(MSG_FROM_TEXT, name, t)
    case CmdErr(t) => TcpPair(ERR_FROM_TEXT, name, t)
    case CmdExit(_) => TcpBye()
  }
}
