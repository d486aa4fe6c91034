/**
 * Every step of the client is a chain of a few primitive operations on its queue. An invariant that
 * each primitive keeps is therefore kept by every step; this file proves that once and for all.
 */
module Primitives {
  import opened Basics
  import opened Commands
  import opened Formats
  import opened ChatProtocol
  import Tokenizer

  /** How flags, type and counters of a queued message fit together. */
  predicate MsgOk(m: Msg) {
    && (m.IsAck() ==> m.IsConf() && m.sendCount == 0)
    && (m.IsConf() ==> m.IsAck() || m.flags == FlagConfirmed)
    && (m.flags == FlagAuth || m.flags == FlagRejected ==> m.kind == AUTH)
    && (m.kind == AUTH ==> m.flags == FlagAuth || m.flags == FlagRejected || m.flags == FlagConfirmed)
    && (m.flags == FlagBye ==> m.kind == BYE)
    && (m.flags == FlagErr ==> m.kind == CMD_ERR)
    && m.flags != FlagDoNotResend
  }

  predicate SameHistory(s: State, t: State) {
    t.log.next == s.log.next && t.log.sent == s.log.sent && t.log.causes == s.log.causes
  }

  predicate IsFresh(s: State, m: Msg) {
    m.serial == s.log.next && m.sendCount == 0 && !m.confirmed && MsgOk(m)
  }

  predicate IsQuiet(s: State, t: State) { t.queue == s.queue && SameHistory(s, t) }

  predicate IsPop(s: State, t: State) { s.queue != [] && t.queue == s.queue[1..] && SameHistory(s, t) }

  predicate IsClear(s: State, t: State) { t.queue == [] && SameHistory(s, t) }

  predicate IsAppend(s: State, t: State) {
    && |t.queue| == |s.queue| + 1 && t.queue[..|s.queue|] == s.queue
    && IsFresh(s, t.queue[|s.queue|]) && !t.queue[|s.queue|].IsConf()
    && t.log.next == s.log.next + 1 && t.log.sent == s.log.sent && t.log.causes == s.log.causes
  }

  predicate IsPush(s: State, t: State) {
    && t.queue != [] && t.queue[1..] == s.queue
    && IsFresh(s, t.queue[0]) && t.queue[0].IsAck()
    && t.log.next == s.log.next + 1 && t.log.sent == s.log.sent
    && s.log.next in t.log.causes && t.log.causes == s.log.causes[s.log.next := t.log.causes[s.log.next]]
    && t.queue[0].data == UdpConfirm(t.log.causes[s.log.next].id)
  }

  predicate IsMark(s: State, t: State) {
    && s.queue != [] && SameHistory(s, t)
    && (|| t.queue == s.queue[0 := s.queue[0].(confirmed := true)]
        || t.queue == s.queue[0 := s.queue[0].(flags := FlagConfirmed)]
        || (s.queue[0].flags == FlagAuth && t.queue == s.queue[0 := s.queue[0].(flags := FlagRejected)]))
  }

  predicate IsSend(cfg: Config, s: State, t: State) {
    s.queue != [] && s.queue[0].sendCount <= cfg.maxRetries && t == Transmit(cfg, s)
  }

  predicate Primitive(cfg: Config, s: State, t: State) {
    || IsQuiet(s, t) || IsPop(s, t) || IsClear(s, t) || IsAppend(s, t) || IsPush(s, t)
    || IsMark(s, t) || IsSend(cfg, s, t)
  }

  /** The invariant `inv` survives every primitive. */
  ghost predicate Kept(cfg: Config, inv: State -> bool) {
    forall s: State, t: State :: Primitive(cfg, s, t) && inv(s) ==> inv(t)
  }

  /**
   * The sender never transmits an exhausted message: between the filter and the transmission the front
   * exists and has retries left, and so has the message behind an AUTH that logicFSM may drop.
   */
  predicate SendReady(cfg: Config, s: State) {
    !s.halted ==>
      && (s.pc == Logic || s.pc == Wake ==> FrontReady(cfg, s.queue))
      && (s.pc == Logic && |s.queue| > 1 && s.queue[0].kind == AUTH ==> s.queue[1].sendCount <= cfg.maxRetries)
  }

  predicate FrontReady(cfg: Config, q: seq<Msg>) { q != [] && q[0].sendCount <= cfg.maxRetries }

  // ---------------------------------------------------------------------------
  //  The building blocks are chains of primitives
  // ---------------------------------------------------------------------------

  lemma AppendKeeps(cfg: Config, s: State, data: Packet, kind: byte, flags: Flag, inv: State -> bool)
    requires Kept(cfg, inv) && inv(s)
    requires kind != CONF && MsgOk(NewMsg(s, data, kind, flags))
    ensures inv(Append(s, data, kind, flags))
  {
    assert IsAppend(s, Append(s, data, kind, flags));
  }

  lemma ConfirmKeeps(cfg: Config, s: State, d: Datagram, flags: Flag, inv: State -> bool)
    requires Kept(cfg, inv) && inv(s)
    requires flags == FlagConfirm || flags == FlagNokReply
    ensures inv(SendConfirm(s, d, flags))
  {
    assert IsPush(s, SendConfirm(s, d, flags));
  }

  lemma ByeKeeps(cfg: Config, s: State, inv: State -> bool)
    requires Kept(cfg, inv) && inv(s)
    ensures inv(SendBye(cfg, s))
  {
    AppendKeeps(cfg, s, PacketOf(cfg, CmdExit([]), cfg.mainStale, []), BYE, FlagBye, inv);
  }

  lemma ErrorAndByeKeeps(cfg: Config, s: State, stale: Id, text: seq<byte>, inv: State -> bool)
    requires Kept(cfg, inv) && inv(s)
    ensures inv(SendErrorAndBye(cfg, s, stale, text))
  {
    if s.displayName.None? {
      assert Primitive(cfg, s, Halt(s));
    } else {
      AppendKeeps(cfg, s, PacketOf(cfg, CmdErr(text), stale, s.displayName.value), CMD_ERR, FlagErr, inv);
    }
    var t := SendError(cfg, s, stale, text);
    assert inv(t);
    ByeKeeps(cfg, t, inv);
  }

  lemma EnqueueKeeps(cfg: Config, s: State, c: Command, flags: Flag, inv: State -> bool)
    requires Kept(cfg, inv) && inv(s) && TcpKnown(c)
    requires flags == if c.CmdAuth? then FlagAuth else FlagNone
    ensures inv(Enqueue(cfg, s, c, flags))
  {
    if !(NeedsName(c) && s.displayName.None?) {
      var name := if s.displayName.Some? then s.displayName.value else [];
      var t := Append(s, PacketOf(cfg, c, cfg.mainStale, name), KindOf(c), flags);
      AppendKeeps(cfg, s, PacketOf(cfg, c, cfg.mainStale, name), KindOf(c), flags, inv);
      assert Primitive(cfg, t, t.(fsm := EmptyQueueBye));
    }
  }

  lemma MainKeeps(cfg: Config, s: State, c: Command, inv: State -> bool)
    requires Kept(cfg, inv) && inv(s)
    ensures inv(RunCommand(cfg, s, c))
  {
    match c
    case CmdAuth(_, _, _, name) =>
      var t := s.(displayName := Some(name));
      assert Primitive(cfg, s, t);
      assert Primitive(cfg, s, t.(fsm := AuthWaiting));
      EnqueueKeeps(cfg, t.(fsm := AuthWaiting), c, FlagAuth, inv);
    case CmdRename(name) =>
      assert Primitive(cfg, s, s.(displayName := Some(name)));
    case CmdJoin(_, _) => EnqueueKeeps(cfg, s, c, FlagNone, inv);
    case CmdMsg(_) => EnqueueKeeps(cfg, s, c, FlagNone, inv);
    case CmdExit(_) => EnqueueKeeps(cfg, s, c, FlagNone, inv);
    case _ =>
  }

  lemma HandleConfirmKeeps(cfg: Config, s: State, id: Id, inv: State -> bool)
    requires Kept(cfg, inv) && inv(s)
    ensures inv(HandleConfirm(cfg, s, id))
  {
    var t := HandleConfirm(cfg, s, id);
    assert IsQuiet(s, t) || IsMark(s, t);
  }

  lemma HandleReplyKeeps(cfg: Config, s: State, d: Datagram, inv: State -> bool)
    requires Kept(cfg, inv) && inv(s)
    ensures inv(HandleReply(cfg, s, d))
  {
    if s.fsm != WaitReply && s.fsm != JoinAttempt {
    } else if !d.ok && s.queue == [] {
      assert Primitive(cfg, s, Halt(s));
    } else {
      var u: State;
      if d.ok {
        var t := if s.fsm == WaitReply && s.queue != [] then SetFront(s, s.queue[0].(flags := FlagConfirmed)) else s;
        u := t.(fsm := WaitReplyConf);
      } else {
        var t := if s.queue[0].flags == FlagAuth
                 then SetFront(s, s.queue[0].(flags := FlagRejected)).(fsm := Start) else s;
        u := if t.fsm == JoinAttempt then t.(fsm := Open) else t;
      }
      assert IsQuiet(s, u) || IsMark(s, u);
      assert inv(u);
      var flags := if d.ok then FlagConfirm else FlagNokReply;
      ConfirmKeeps(cfg, u, d, flags, inv);
      assert IsQuiet(SendConfirm(u, d, flags), HandleReply(cfg, s, d));
    }
  }

  lemma ReceiveErrorKeeps(cfg: Config, s: State, d: Datagram, inv: State -> bool)
    requires Kept(cfg, inv) && inv(s)
    ensures inv(ReceiveError(cfg, s, d))
  {
    var t := PopAll(s);
    assert IsClear(s, t);
    ConfirmKeeps(cfg, t, d, FlagConfirm, inv);
    var u := if cfg.proto == UDP then SendConfirm(t, d, FlagConfirm) else t;
    ByeKeeps(cfg, u, inv);
    assert IsQuiet(SendBye(cfg, u), ReceiveError(cfg, s, d));
  }

  lemma ReceiveUnknownKeeps(cfg: Config, s: State, d: Datagram, inv: State -> bool)
    requires Kept(cfg, inv) && inv(s)
    ensures inv(ReceiveUnknown(cfg, s, d))
  {
    var t := PopAll(s.(fsm := Error));
    assert IsClear(s, t);
    ConfirmKeeps(cfg, t, d, FlagConfirm, inv);
    var u := if cfg.proto == UDP then SendConfirm(t, d, FlagConfirm) else t;
    ErrorAndByeKeeps(cfg, u, d.id, UNKNOWN_FORMAT, inv);
  }

  lemma DispatchKeeps(cfg: Config, s: State, d: Datagram, repetitive: bool, inv: State -> bool)
    requires Kept(cfg, inv) && inv(s)
    ensures inv(Dispatch(cfg, s, d, repetitive))
  {
    hide HandleConfirm;
    hide HandleReply;
    hide ReceiveError;
    hide ReceiveUnknown;
    var kind := MsgTypeOf(d.kind);
    var u := Dispatch(cfg, s, d, repetitive);
    var confirmed := if cfg.proto == UDP then SendConfirm(s, d, FlagConfirm) else s;
    ConfirmKeeps(cfg, s, d, FlagConfirm, inv);
    if kind == CONF {
      HandleConfirmKeeps(cfg, s, d.id, inv);
      assert Primitive(cfg, s, Halt(s));
    } else if kind == REPLY {
      HandleReplyKeeps(cfg, s, d, inv);
      assert Primitive(cfg, s, HandleReplyTcp(s, d.ok));
    } else if kind == MSG || kind == BYE {
      assert IsQuiet(confirmed, u);
    } else if kind == ERR {
      ReceiveErrorKeeps(cfg, s, d, inv);
    } else {
      ReceiveUnknownKeeps(cfg, s, d, inv);
    }
  }

  lemma ReceiveKeeps(cfg: Config, s: State, d: Datagram, inv: State -> bool)
    requires Kept(cfg, inv) && inv(s)
    ensures inv(ReceiveStep(cfg, s, d))
  {
    var t := s.(seen := s.seen + {Seen(d.kind, d.id)});
    assert IsQuiet(s, t);
    DispatchKeeps(cfg, s, d, Repetitive(cfg, s.seen, d), inv);
    DispatchKeeps(cfg, s, d, false, inv);
    DispatchKeeps(cfg, t, d, false, inv);
  }

  lemma {:induction false} FilterKeeps(cfg: Config, s: State, inv: State -> bool)
    requires Kept(cfg, inv) && inv(s)
    ensures inv(Filter(cfg, s))
    decreases |s.queue|
  {
    if s.queue != [] {
      var m := s.queue[0];
      if m.sendCount > cfg.maxRetries && s.fsm != ErrorWaitConf && s.fsm != EndWaitConf {
        var t := PopAll(s).(fsm := Error);
        assert IsClear(s, t);
        ErrorAndByeKeeps(cfg, t, cfg.senderStale, TIMED_OUT, inv);
      } else if m.sendCount > cfg.maxRetries || !Stops(m) {
        var t := PopFront(if m.sendCount > cfg.maxRetries && s.fsm == EndWaitConf then s.(fsm := End) else s);
        assert IsPop(s, t);
        FilterKeeps(cfg, t, inv);
      }
    }
  }

  lemma TopKeeps(cfg: Config, s: State, inv: State -> bool)
    requires Kept(cfg, inv) && inv(s)
    ensures inv(SenderTop(cfg, s))
  {
    if s.fsm != End && cfg.proto == UDP {
      FilterKeeps(cfg, s, inv);
      assert IsQuiet(Filter(cfg, s), SenderTop(cfg, s));
    } else {
      assert IsQuiet(s, SenderTop(cfg, s));
    }
  }

  lemma TransmitKeeps(cfg: Config, s: State, t: State, inv: State -> bool)
    requires Kept(cfg, inv) && inv(s)
    requires IsQuiet(s, t) || IsPop(s, t)
    requires t.queue != [] ==> t.queue[0].sendCount <= cfg.maxRetries
    ensures inv(Transmit(cfg, t))
  {
    assert inv(t) by { assert Primitive(cfg, s, t); }
    if t.queue == [] {
      assert IsQuiet(t, Halt(t));
    } else {
      assert IsSend(cfg, t, Transmit(cfg, t));
    }
  }

  lemma LogicKeeps(cfg: Config, s: State, inv: State -> bool)
    requires Kept(cfg, inv) && inv(s) && !s.halted && s.pc == Logic && SendReady(cfg, s)
    ensures inv(SenderLogic(cfg, s))
  {
    var m := s.queue[0];
    match s.fsm {
      case Start => LogicStartKeeps(cfg, s, inv);
      case AuthWaiting => LogicStartKeeps(cfg, s, inv);
      case AuthSent => LogicStartKeeps(cfg, s, inv);
      case WaitReply => LogicStartKeeps(cfg, s, inv);
      case WaitReplyConf => TransmitKeeps(cfg, s, if m.kind == CONF then s.(fsm := Open) else s, inv);
      case Open =>
        TransmitKeeps(cfg, s,
          if m.kind == AUTH then PopFront(s) else if m.kind == JOIN then s.(fsm := JoinAttempt) else s, inv);
      case Error => LogicErrorKeeps(cfg, s, inv);
      case ErrorWaitConf => LogicErrorKeeps(cfg, s, inv);
      case _ => TransmitKeeps(cfg, s, s, inv);
    }
  }

  lemma LogicStartKeeps(cfg: Config, s: State, inv: State -> bool)
    requires Kept(cfg, inv) && inv(s) && !s.halted && s.pc == Logic && SendReady(cfg, s)
    ensures inv(LogicStart(cfg, s))
  {
    var m := s.queue[0];
    var t := if m.flags == FlagAuth && (s.fsm == Start || s.fsm == AuthWaiting) then s.(fsm := AuthSent) else s;
    TransmitKeeps(cfg, s, t, inv);
    assert Primitive(cfg, s, t) && Primitive(cfg, s, t.(pc := Wake));
  }

  lemma LogicErrorKeeps(cfg: Config, s: State, inv: State -> bool)
    requires Kept(cfg, inv) && inv(s) && !s.halted && s.pc == Logic && SendReady(cfg, s)
    ensures inv(LogicError(cfg, s))
  {
    TransmitKeeps(cfg, s, s, inv);
    TransmitKeeps(cfg, s, s.(fsm := EndWaitConf), inv);
    TransmitKeeps(cfg, s, s.(fsm := End), inv);
    TransmitKeeps(cfg, s, s.(fsm := ErrorWaitConf), inv);
    assert Primitive(cfg, s, Halt(s));
  }

  /** What every primitive keeps, every step keeps. */
  lemma StepKeeps(cfg: Config, s: State, e: Event, inv: State -> bool)
    requires Kept(cfg, inv) && inv(s) && SendReady(cfg, s)
    ensures inv(Step(cfg, s, e))
  {
    if !s.halted {
      match e {
        case Line(line) =>
          if !s.fsm.Closing() && Tokenizer.Tokenizable(line) {
            MainKeeps(cfg, s, Tokenizer.Parse(line), inv);
          }
        case Eof =>
          var t := s.(fsm := EmptyQueueBye);
          assert IsQuiet(s, t);
          ByeKeeps(cfg, t, inv);
        case Receive(d) => ReceiveKeeps(cfg, s, d, inv);
        case Garbled => assert Primitive(cfg, s, GarbledStep(cfg, s));
        case SenderTurn => {
          match s.pc {
            case Top => TopKeeps(cfg, s, inv);
            case Logic => LogicKeeps(cfg, s, inv);
            case Wake => TransmitKeeps(cfg, s, s, inv);
            case Gone =>
          }
        }
        case Sigint =>
          var t := PopAll(s.(fsm := SigintBye));
          assert IsClear(s, t);
          ByeKeeps(cfg, t, inv);
      }
    }
  }
}
