/** Bytes, 16-bit counters and the enumerations shared by every part of the model. */
module Basics {

  type byte = x: int | 0 <= x < 256
  type u16 = x: int | 0 <= x < 65536

  datatype Option<+T> = None | Some(value: T)

  // Message types as they appear in the first byte of a datagram (enum MessageType).
  const CONF: byte := 0x00
  const REPLY: byte := 0x01
  const AUTH: byte := 0x02
  const JOIN: byte := 0x03
  const MSG: byte := 0x04
  const ERR: byte := 0xFE
  const BYE: byte := 0xFF
  const UNKNOWN: byte := 0xAA
  // The command number that sendError stores as the type of a queued error message.
  const CMD_ERR: byte := 6

  /** uchar2msgType: every byte that is not a message type becomes UNKNOWN. */
  function MsgTypeOf(b: byte): byte {
    if b in {CONF, REPLY, AUTH, JOIN, MSG, ERR, BYE} then b else UNKNOWN
  }

  datatype Protocol = UDP | TCP

  /** States of the program (enum FSM), in the order of the enumeration. */
  datatype Fsm =
    | Start | AuthWaiting | AuthSent | WaitReply | WaitReplyConf | Open | JoinAttempt
    | EmptyQueueBye | Error | ErrorWaitConf | SigintBye | EndWaitConf | End
  {
    function Rank(): nat {
      match this
      case Start => 0 case AuthWaiting => 1 case AuthSent => 2 case WaitReply => 3
      case WaitReplyConf => 4 case Open => 5 case JoinAttempt => 6 case EmptyQueueBye => 7
      case Error => 8 case ErrorWaitConf => 9 case SigintBye => 10 case EndWaitConf => 11
      case End => 12
    }

    /** The states in which the program only shuts down (fsm >= fsm_EMPTY_Q_BYE). */
    predicate Closing() { Rank() >= 7 }
  }

  /** Flags of a queued message (enum MessageFlags). */
  datatype Flag =
    | FlagNone | FlagDoNotResend | FlagNokReply | FlagAuth | FlagRejected | FlagConfirmed
    | FlagErr | FlagConfirm | FlagBye
}
