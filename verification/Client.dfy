/**
 * The threads' code as it updates the program's shared state (ProgramInterface): each method is one
 * handler of the source, and does to the state exactly what the protocol model says.
 */
module Client {
  import opened Basics
  import opened Commands
  import opened Formats
  import opened ChatProtocol
  import opened LinkedQueue
  import opened MessageIds
  import Tokenizer
  import UserInput
  import Buffers
  import Decoding
  import Disassembling

  class ProgramInterface {
    const cfg: Config
    const sendingQueue: MessageQueue
    const confirmedMsgs: MessageQueue
    var fsmState: Fsm
    var pc: Pc
    var msgCounter: u16
    var displayName: Option<seq<byte>>
    var ended: bool
    ghost var log: Log

    ghost predicate Valid()
      reads this, sendingQueue, sendingQueue.nodes, confirmedMsgs, confirmedMsgs.nodes
    {
      && sendingQueue != confirmedMsgs && sendingQueue.Valid() && confirmedMsgs.Valid()
      && (forall i, j :: 0 <= i < |sendingQueue.nodes| && 0 <= j < |confirmedMsgs.nodes| ==>
            sendingQueue.nodes[i] != confirmedMsgs.nodes[j])
    }

    ghost function View(): State
      reads this, sendingQueue, sendingQueue.nodes, confirmedMsgs, confirmedMsgs.nodes
    {
      State(fsmState, pc, sendingQueue.View(), msgCounter, confirmedMsgs.Remembered(), displayName, ended, log)
    }

    /** The nodes of the sending queue are the old ones or new. */
    twostate predicate Grown()
      reads this, sendingQueue, sendingQueue.nodes
    {
      forall i :: 0 <= i < |sendingQueue.nodes| ==>
        sendingQueue.nodes[i] in old(sendingQueue.nodes) || fresh(sendingQueue.nodes[i])
    }

    constructor (cfg: Config)
      ensures Valid() && fresh(sendingQueue) && fresh(confirmedMsgs) && this.cfg == cfg
      ensures sendingQueue.nodes == [] && confirmedMsgs.nodes == []
      ensures View() == Init()
    {
      this.cfg := cfg;
      sendingQueue := new MessageQueue();
      confirmedMsgs := new MessageQueue();
      fsmState, pc, msgCounter, displayName, ended := Start, Top, 0, None, false;
      log := Log(0, [], [], map[]);
    }

    // -------------------------------------------------------------------------
    //  Access to the shared state
    // -------------------------------------------------------------------------

    /** getProgramState. */
    method GetState() returns (f: Fsm)
      ensures f == View().fsm
    {
      f := fsmState;
    }

    /** setProgramState. */
    method SetState(f: Fsm)
      requires Valid()
      modifies `fsmState
      ensures Valid() && View() == old(View()).(fsm := f)
    {
      fsmState := f;
    }

    method GetPc() returns (p: Pc)
      ensures p == View().pc
    {
      p := pc;
    }

    method HasEnded() returns (over: bool)
      ensures over == View().halted
    {
      over := ended;
    }

    method GetDisplayName() returns (name: Option<seq<byte>>)
      ensures name == View().displayName
    {
      name := displayName;
    }

    method SetDisplayName(name: seq<byte>)
      requires Valid()
      modifies `displayName
      ensures Valid() && View() == old(View()).(displayName := Some(name))
    {
      displayName := Some(name);
    }

    method BumpCounter()
      requires Valid()
      modifies `msgCounter
      ensures Valid() && View() == old(View()).(counter := Following(old(View()).counter))
    {
      msgCounter := Following(msgCounter);
    }

    method SetCounter(c: u16)
      requires Valid()
      modifies `msgCounter
      ensures Valid() && View() == old(View()).(counter := c)
    {
      msgCounter := c;
    }

    method SetPc(p: Pc)
      requires Valid()
      modifies `pc
      ensures Valid() && View() == old(View()).(pc := p)
    {
      pc := p;
    }

    /** The program ends abnormally. */
    method Abort()
      requires Valid()
      modifies `ended
      ensures Valid() && View() == Halt(old(View()))
    {
      ended := true;
    }

    /** printIncomingMessage. */
    ghost method Printed(d: Datagram)
      requires Valid()
      modifies `log
      ensures Valid() && View() == Print(old(View()), d)
    {
      log := log.(printed := log.printed + [Seen(d.kind, d.id)]);
    }

    /** sendto. */
    ghost method Transmitted()
      requires Valid() && View().queue != []
      modifies `log
      ensures Valid()
      ensures var s := old(View()); View() == s.(log := s.log.(sent := s.log.sent + [s.queue[0]]))
    {
      log := log.(sent := log.sent + [sendingQueue.View()[0]]);
    }

    /** The message at the front of the sending queue. */
    method Front() returns (m: Message?)
      requires Valid()
      ensures m == null <==> View().queue == []
      ensures m != null ==> m.View() == View().queue[0]
    {
      m := sendingQueue.GetMessage();
    }

    method QueueIsEmpty() returns (empty: bool)
      requires Valid()
      ensures empty <==> View().queue == []
    {
      empty := sendingQueue.IsEmpty();
    }

    /** queueGetMessageID. */
    method FrontId() returns (id: u16)
      requires Valid() && View().queue != []
      ensures id == MsgId(cfg, IdOf(View().queue[0].data))
    {
      hide Decode;
      id := sendingQueue.GetMessageId(cfg.signedChar);
    }

    method ConfirmFront()
      requires Valid() && View().queue != []
      modifies sendingQueue.nodes
      ensures Valid() && View() == SetFront(old(View()), old(View()).queue[0].(confirmed := true))
    {
      hide MessageQueue.Valid, MessageQueue.View, MessageQueue.Remembered, Following, Decode;
      sendingQueue.Confirm();
    }

    method FlagFront(flags: Flag)
      requires Valid()
      modifies sendingQueue.nodes
      ensures Valid()
      ensures var s := old(View());
        View() == if s.queue == [] then s else SetFront(s, s.queue[0].(flags := flags))
    {
      hide MessageQueue.Valid, MessageQueue.View, MessageQueue.Remembered, Following, Decode;
      sendingQueue.SetMessageFlags(flags);
    }

    method StampFront()
      requires Valid() && View().queue != []
      modifies sendingQueue.nodes
      ensures Valid()
      ensures var s := old(View());
        View() == if s.queue[0].IsAck() then s
                  else SetFront(s, s.queue[0].(data := Stamp(s.queue[0].data, s.counter)))
    {
      hide MessageQueue.Valid, MessageQueue.View, MessageQueue.Remembered, Following, Decode;
      sendingQueue.SetMessageId(msgCounter);
    }

    method CountFront()
      requires Valid() && View().queue != []
      modifies sendingQueue.nodes
      ensures Valid() && View() == SetFront(old(View()), CountSent(old(View()).queue[0]))
    {
      hide MessageQueue.Valid, MessageQueue.View, MessageQueue.Remembered, Following, Decode;
      sendingQueue.MessageSent();
    }

    method DropFront()
      requires Valid() && View().queue != []
      modifies sendingQueue
      ensures Valid() && Grown() && View() == ChatProtocol.PopFront(old(View()))
    {
      hide MessageQueue.Valid, MessageQueue.View, MessageQueue.Remembered, Following, Decode;
      sendingQueue.Pop();
    }

    method DropAll()
      requires Valid()
      modifies sendingQueue
      ensures Valid() && Grown() && View() == ChatProtocol.PopAll(old(View()))
    {
      hide MessageQueue.Valid, MessageQueue.View, MessageQueue.Remembered, Following, Decode;
      sendingQueue.PopAll();
    }

    // -------------------------------------------------------------------------
    //  protocolReceiver.c: messages the client makes itself
    // -------------------------------------------------------------------------

    method SendConfirm(d: Datagram, flags: Flag)
      requires Valid()
      modifies this, sendingQueue
      ensures Valid() && Grown() && View() == ChatProtocol.SendConfirm(old(View()), d, flags)
    {
      hide MessageQueue.Valid, MessageQueue.View, MessageQueue.Remembered, Following, Decode;
      sendingQueue.AddPriority(UdpConfirm(d.id), flags, CONF, log.next);
      log := log.(next := log.next + 1, causes := log.causes[log.next := d]);
    }

    method AddMessage(data: Packet, kind: byte, flags: Flag)
      requires Valid()
      modifies this, sendingQueue, sendingQueue.nodes
      ensures Valid() && Grown() && View() == Append(old(View()), data, kind, flags)
    {
      hide MessageQueue.Valid, MessageQueue.View, MessageQueue.Remembered;
      sendingQueue.Add(data, flags, kind, log.next);
      log := log.(next := log.next + 1);
    }

    method SendBye()
      requires Valid()
      modifies this, sendingQueue, sendingQueue.nodes
      ensures Valid() && Grown() && View() == ChatProtocol.SendBye(cfg, old(View()))
    {
      hide Valid, View;
      AddMessage(PacketOf(cfg, CmdExit([]), cfg.mainStale, []), BYE, FlagBye);
    }

    /** Not `ok`: without a display name the message cannot be assembled, and the program ends. */
    method SendError(stale: Id, text: seq<byte>) returns (ok: bool)
      requires Valid() && !View().halted
      modifies this, sendingQueue, sendingQueue.nodes
      ensures Valid() && Grown() && View() == ChatProtocol.SendError(cfg, old(View()), stale, text)
      ensures ok <==> !View().halted
    {
      hide Valid, View;
      var name := GetDisplayName();
      if name.None? {
        Abort();
        return false;
      }
      AddMessage(PacketOf(cfg, CmdErr(text), stale, name.value), CMD_ERR, FlagErr);
      ok := true;
    }

    // -------------------------------------------------------------------------
    //  protocolReceiver.c: handlers of received messages
    // -------------------------------------------------------------------------

    method HandleConfirmUdp(id: Id)
      requires Valid()
      modifies this, sendingQueue.nodes
      ensures Valid() && Grown() && View() == HandleConfirm(cfg, old(View()), id)
    {
      hide Valid, View, Decode, HandleConfirm;
      ConfirmIgnored(cfg, View(), id);
      var topOfQueue := Front();
      if topOfQueue == null {
        return;
      }
      var msgId := MsgId(cfg, id);
      var queueTopMsgId := FrontId();
      if msgId != queueTopMsgId && topOfQueue.kind != AUTH {
        return;
      }
      TakeConfirm(id, msgId);
    }

    /** The part of handleConfirmUDP for a CONFIRM of the front message. */
    method TakeConfirm(ghost id: Id, msgId: u16)
      requires Valid() && View().queue != [] && Accepts(cfg, View().queue[0], id) && msgId == MsgId(cfg, id)
      modifies this, sendingQueue.nodes
      ensures Valid() && Grown() && View() == HandleConfirm(cfg, old(View()), id)
    {
      hide Valid, View, Following, Decode, IdOf;
      ConfirmFront();
      SetCounter(Following(msgId));
      var state := GetState();
      match state {
        case AuthSent => SetState(WaitReply);
        case EndWaitConf => SetState(End);
        case _ =>
      }
    }

    method HandleReplyUdp(d: Datagram)
      requires Valid()
      modifies this, sendingQueue, sendingQueue.nodes
      ensures Valid() && Grown() && View() == HandleReply(cfg, old(View()), d)
    {
      hide Valid, View, Following, MsgId, HandleReplyOk, HandleReplyNok;
      var state := GetState();
      if state != WaitReply && state != JoinAttempt {
        return;
      }
      if d.ok {
        AcceptReply(d);
      } else {
        var first := Front();
        if first == null {
          // queueGetMessageFlags reads through the null pointer
          Abort();
          return;
        }
        RejectReply(d, first.flags);
      }
      SetCounter(Following(MsgId(cfg, d.id)));
    }

    /** The branch of handleReplyUDP for a positive reply. */
    method AcceptReply(d: Datagram)
      requires Valid()
      modifies this, sendingQueue, sendingQueue.nodes
      ensures Valid() && Grown() && View() == HandleReplyOk(cfg, old(View()), d)
    {
      hide Valid, View, ChatProtocol.SendConfirm;
      var state := GetState();
      if state == WaitReply {
        FlagFront(FlagConfirmed);
      }
      SetState(WaitReplyConf);
      SendConfirm(d, FlagConfirm);
    }

    /** The branch for a negative reply; `flags` are those of the front message. */
    method RejectReply(d: Datagram, flags: Flag)
      requires Valid() && View().queue != [] && flags == View().queue[0].flags
      modifies this, sendingQueue, sendingQueue.nodes
      ensures Valid() && Grown() && View() == HandleReplyNok(cfg, old(View()), d)
    {
      hide Valid, View, ChatProtocol.SendConfirm;
      if flags == FlagAuth {
        FlagFront(FlagRejected);
        SetState(Start);
      }
      var state := GetState();
      if state == JoinAttempt {
        SetState(Open);
      }
      SendConfirm(d, FlagNokReply);
    }

    /** The TCP branch for REPLY in receiverFSM. */
    method HandleReplyTcp(ok: bool)
      requires Valid()
      modifies `fsmState
      ensures Valid() && View() == ChatProtocol.HandleReplyTcp(old(View()), ok)
    {
      hide Valid, View;
      var state := GetState();
      if state == AuthSent || state == JoinAttempt {
        if ok {
          SetState(Open);
        } else if state == JoinAttempt {
          SetState(Open);
        } else {
          SetState(Start);
        }
      }
    }

    /** The branch for ERR. */
    method HandleError(d: Datagram)
      requires Valid()
      modifies this, sendingQueue, sendingQueue.nodes
      ensures Valid() && Grown() && View() == ChatProtocol.ReceiveError(cfg, old(View()), d)
    {
      hide Valid, View;
      hide ChatProtocol.SendConfirm, ChatProtocol.SendBye;
      DropAll();
      if cfg.proto == UDP {
        SendConfirm(d, FlagConfirm);
      }
      SendBye();
      SetState(Error);
      Printed(d);
    }

    /** The branch for unknown messages. */
    method HandleUnknown(d: Datagram)
      requires Valid() && !View().halted
      modifies this, sendingQueue, sendingQueue.nodes
      ensures Valid() && Grown() && View() == ChatProtocol.ReceiveUnknown(cfg, old(View()), d)
    {
      hide Valid, View;
      hide ChatProtocol.SendBye;
      SetState(Error);
      DropAll();
      if cfg.proto == UDP {
        SendConfirm(d, FlagConfirm);
      }
      var ok := SendError(d.id, UNKNOWN_FORMAT);
      if ok {
        SendBye();
      }
    }

    /** The duplicate check at the start of receiverFSM. */
    method FilterRepetitive(d: Datagram) returns (repetitive: bool)
      requires Valid()
      modifies confirmedMsgs
      ensures Valid() && repetitive == Repetitive(cfg, old(View()).seen, d)
      ensures sendingQueue.nodes == old(sendingQueue.nodes)
      ensures View() == old(View()).(seen :=
        if repetitive then old(View()).seen else old(View()).seen + {Seen(d.kind, d.id)})
    {
      hide MessageQueue.Valid, MessageQueue.View, MessageQueue.Remembered, Following, Decode;
      assert IdOf(UdpHeader(d.kind, d.id)) == d.id;
      repetitive := confirmedMsgs.ContainsMessageId(cfg.signedChar, UdpHeader(d.kind, d.id), d.kind);
      if !repetitive {
        confirmedMsgs.AddOnlyId(d.id, d.kind);
      }
    }

    /** The rest of receiverFSM: one branch for each kind of message. */
    method DispatchMessage(d: Datagram, repetitive: bool)
      requires Valid() && !View().halted
      modifies this, sendingQueue, sendingQueue.nodes
      ensures Valid() && Grown() && View() == ChatProtocol.Dispatch(cfg, old(View()), d, repetitive)
    {
      hide Valid, View;
      hide ChatProtocol.SendConfirm, HandleConfirm, HandleReply, ReceiveError, ReceiveUnknown;
      var kind := MsgTypeOf(d.kind);
      if kind == CONF {
        if cfg.proto == UDP {
          HandleConfirmUdp(d.id);
        } else {
          Abort();
        }
      } else if kind == REPLY {
        if cfg.proto == TCP {
          HandleReplyTcp(d.ok);
        } else if repetitive {
          SendConfirm(d, FlagConfirm);
        } else {
          HandleReplyUdp(d);
        }
      } else if kind == MSG {
        if cfg.proto == UDP {
          SendConfirm(d, FlagConfirm);
          if repetitive {
            return;
          }
        }
        Printed(d);
      } else if kind == BYE {
        if cfg.proto == UDP {
          SendConfirm(d, FlagConfirm);
        }
        SetState(End);
      } else if kind == ERR {
        HandleError(d);
      } else {
        HandleUnknown(d);
      }
    }

    /** receiverFSM behind the loop guard of protocolReceiver and its check for the START state. */
    method ReceiveMessage(d: Datagram)
      requires Valid() && !View().halted
      modifies this, sendingQueue, sendingQueue.nodes, confirmedMsgs
      ensures Valid() && Grown() && View() == ReceiveStep(cfg, old(View()), d)
    {
      hide Valid, View;
      hide Repetitive, Dispatch;
      var state := GetState();
      if state == End {
        return;
      }
      if state == Start && d.kind != REPLY && d.kind != CONF {
        return;
      }
      var repetitive := false;
      if cfg.proto == UDP {
        repetitive := FilterRepetitive(d);
      }
      DispatchMessage(d, repetitive);
    }

    /** A datagram that does not survive the disassembler; the loop does not receive in END. */
    method ReceiveGarbled()
      requires Valid() && !View().halted
      modifies `ended
      ensures Valid() && View() == GarbledStep(cfg, old(View()))
    {
      hide Valid, View;
      var state := GetState();
      if cfg.proto == UDP && state != End {
        Abort();
      }
    }

    /** A received datagram, from its bytes on. */
    method ReceiveUdp(data: array<byte>, used: nat)
      requires Valid() && !View().halted && cfg.proto == UDP
      requires used <= data.Length && Decoding.WholeDatagram(data[..used])
      modifies this, sendingQueue, sendingQueue.nodes, confirmedMsgs
      ensures Valid() && Grown()
      ensures View() == Step(cfg, old(View()), DatagramEvent(cfg, old(data[..used])))
    {
      hide Valid, View;
      hide ReceiveStep, Decoding.UdpDecode;
      var m := Disassembling.DisassembleUdp(cfg.signedChar, data, used);
      if m.None? {
        ReceiveGarbled();
      } else {
        ReceiveMessage(Datagram(m.value.kind, Id(data[1], data[2]), m.value.ok));
      }
    }

    /** A received TCP line, from its bytes on. */
    method ReceiveTcp(data: array<byte>, used: nat)
      requires Valid() && !View().halted && cfg.proto == TCP
      requires used <= data.Length && Decoding.EndsInLineEnd(data[..used])
      modifies this, sendingQueue, sendingQueue.nodes, confirmedMsgs
      ensures Valid() && Grown()
      ensures View() == Step(cfg, old(View()), LineEvent(old(data[..used])))
    {
      hide Valid, View;
      hide ReceiveStep, Decoding.TcpDecode;
      var m := Disassembling.DisassembleTcp(data, used);
      ReceiveMessage(Datagram(m.kind, Id(0, 0), m.ok));
    }

    // -------------------------------------------------------------------------
    //  protocolSender.c
    // -------------------------------------------------------------------------

    /** The time-out branch of the filter. */
    method GiveUp()
      requires Valid() && !View().halted
      modifies this, sendingQueue, sendingQueue.nodes
      ensures Valid() && Grown() && View() == TimeOut(cfg, old(View())) && View().fsm == Error
    {
      hide Valid, View;
      hide ChatProtocol.SendBye;
      DropAll();
      SetState(Error);
      TimeOutState(cfg, View());
      var ok := SendError(cfg.senderStale, TIMED_OUT);
      if ok {
        SendBye();
      }
    }

    /** The branch of the filter for a message out of retries; unless it gives up, the message is dropped next. */
    method HandleExhausted() returns (gaveUp: bool)
      requires Valid() && !View().halted
      modifies this, sendingQueue, sendingQueue.nodes
      ensures Valid() && Grown() && gaveUp == (old(View()).fsm != ErrorWaitConf && old(View()).fsm != EndWaitConf)
      ensures var s := old(View());
        if gaveUp then View() == TimeOut(cfg, s) && View().fsm == Error
        else View() == s.(fsm := if s.fsm == EndWaitConf then End else s.fsm)
    {
      hide Valid, View, TimeOut;
      var state := GetState();
      gaveUp := false;
      if state == ErrorWaitConf {
      } else if state == EndWaitConf {
        SetState(End);
      } else {
        GiveUp();
        gaveUp := true;
      }
    }

    /** filterResentMessages. */
    method FilterResentMessages() returns (resetLoop: bool)
      requires Valid() && !View().halted
      modifies this, sendingQueue, sendingQueue.nodes
      ensures Valid() && Grown() && View() == Filter(cfg, old(View()))
      ensures resetLoop <==> old(View()).fsm == EndWaitConf && View().fsm != EndWaitConf
    {
      hide Valid, View;
      hide TimeOut, Filter, PopFront, MessageQueue.Valid, MessageQueue.View, MessageQueue.Remembered;
      ghost var s := View();
      resetLoop := false;
      var msg := Front();
      while msg != null
        invariant Valid() && Grown() && !View().halted
        invariant Filter(cfg, View()) == Filter(cfg, s)
        invariant msg == null <==> View().queue == []
        invariant msg != null ==> msg.View() == View().queue[0]
        invariant if resetLoop then s.fsm == EndWaitConf && View().fsm == End else View().fsm == s.fsm
        decreases |View().queue|
      {
        FilterOnce(cfg, View());
        var state := GetState();
        if msg.sendCount > cfg.maxRetries {
          var gaveUp := HandleExhausted();
          if gaveUp {
            break;
          }
          resetLoop := resetLoop || state == EndWaitConf;
        } else if msg.flags == FlagRejected {
        } else if msg.flags == FlagAuth {
          break;
        } else if !msg.confirmed {
          break;
        }
        PopShorter(View());
        DropFront();
        msg := Front();
      }
      FilterOnce(cfg, View());
    }

    /** The loop body of protocolSender up to where it makes room for the other threads. */
    method SenderTop()
      requires Valid() && !View().halted
      modifies this, sendingQueue, sendingQueue.nodes
      ensures Valid() && Grown() && View() == ChatProtocol.SenderTop(cfg, old(View()))
    {
      hide Valid, View;
      hide Filter;
      var state := GetState();
      if state == End {
        SetPc(Gone);
        return;
      }
      if cfg.proto == UDP {
        var resetLoop := FilterResentMessages();
        var over := HasEnded();
        if resetLoop || over {
          return;
        }
      }
      var empty := QueueIsEmpty();
      if empty {
        state := GetState();
        if state == EmptyQueueBye || state == SigintBye {
          SetState(End);
        }
        return;
      }
      SetPc(Logic);
    }

    /**
     * logicFSM. Without `go` the thread waits, before the transmission (`pc` Wake) or before it looks at
     * the queue again; or the program has ended.
     */
    method LogicFsm() returns (go: bool)
      requires Valid()
      modifies this, sendingQueue
      ensures Valid() && Grown()
      ensures if go then Transmit(cfg, View()) == SenderLogic(cfg, old(View()))
              else View() == SenderLogic(cfg, old(View()))
    {
      hide Valid, View;
      hide Transmit, LogicError, LogicStart;
      var msgToBeSend := Front();
      if msgToBeSend == null {
        Abort();
        return false;
      }
      var kind, flags := msgToBeSend.kind, msgToBeSend.flags;
      var state := GetState();
      go := true;
      match state {
        case WaitReplyConf => {
          if kind == CONF {
            SetState(Open);
          }
        }
        case Open => {
          if kind == AUTH {
            DropFront();
          } else if kind == JOIN {
            SetState(JoinAttempt);
          }
        }
        case JoinAttempt =>
        case EmptyQueueBye =>
        case SigintBye =>
        case EndWaitConf =>
        case End =>
        case Error => go := LogicInError(flags);
        case ErrorWaitConf => go := LogicInError(flags);
        case _ => go := LogicBeforeReply(kind, flags, msgToBeSend.confirmed, msgToBeSend.sendCount);
      }
    }

    /** The branch of logicFSM for the error states. */
    method LogicInError(flags: Flag) returns (go: bool)
      requires Valid() && View().queue != [] && flags == View().queue[0].flags
      modifies `fsmState, `ended
      ensures Valid()
      ensures if go then Transmit(cfg, View()) == LogicError(cfg, old(View()))
              else View() == LogicError(cfg, old(View()))
    {
      hide Valid, View;
      hide Transmit;
      go := true;
      if flags == FlagBye {
        SetState(if cfg.proto == UDP then EndWaitConf else End);
      } else if flags == FlagErr {
        if cfg.proto == UDP {
          SetState(ErrorWaitConf);
        }
      } else if flags != FlagConfirm {
        Abort();
        go := false;
      }
    }

    /** The branch of logicFSM for the states before the REPLY to the AUTH. */
    method LogicBeforeReply(kind: byte, flags: Flag, confirmed: bool, sendCount: byte) returns (go: bool)
      requires Valid() && View().queue != []
      requires var m := View().queue[0];
        kind == m.kind && flags == m.flags && confirmed == m.confirmed && sendCount == m.sendCount
      modifies `fsmState, `pc
      ensures Valid()
      ensures if go then Transmit(cfg, View()) == LogicStart(cfg, old(View()))
              else View() == LogicStart(cfg, old(View()))
    {
      hide Valid, View;
      hide Transmit;
      var state := GetState();
      if flags == FlagAuth && (state == Start || state == AuthWaiting) {
        SetState(AuthSent);
      }
      go := true;
      if kind != AUTH && flags != FlagNokReply {
        SetPc(Wake);
        go := false;
      } else if kind == AUTH && confirmed && sendCount > 0 {
        go := false;
      }
    }

    /** The loop body of protocolSender after logicFSM. */
    method SendFront()
      requires Valid()
      modifies this, sendingQueue, sendingQueue.nodes
      ensures Valid() && Grown() && View() == Transmit(cfg, old(View()))
    {
      hide Valid, View;
      hide Following, Stamp;
      var msgToBeSend := Front();
      if msgToBeSend == null {
        // its buffer is read through the null pointer
        Abort();
        return;
      }
      var sendedMessageFlags := msgToBeSend.flags;
      if cfg.proto == UDP {
        StampFront();
      } else {
        BumpCounter();
      }
      Transmitted();
      if cfg.proto == UDP {
        if sendedMessageFlags in {FlagDoNotResend, FlagConfirm, FlagNokReply} {
          DropFront();
        } else {
          CountFront();
        }
      } else {
        DropFront();
      }
      SetPc(Top);
    }

    /** One turn of the sender thread, from one point where it lets the others work to the next. */
    method SenderTurn()
      requires Valid() && !View().halted
      modifies this, sendingQueue, sendingQueue.nodes
      ensures Valid() && Grown() && View() == SenderStep(cfg, old(View()))
    {
      hide Valid, View;
      hide ChatProtocol.SenderTop, SenderLogic, Transmit;
      var at := GetPc();
      match at {
        case Top => SenderTop();
        case Logic => {
          var go := LogicFsm();
          if go {
            SendFront();
          }
        }
        case Wake => SendFront();
        case Gone =>
      }
    }

    // -------------------------------------------------------------------------
    //  main.c and cleanUpMaster.c
    // -------------------------------------------------------------------------

    /** filterCommandsByFSM: whether the command is a message to send, and its flags. */
    method FilterCommandsByFsm(c: Command) returns (canBeSended: bool, flags: Flag)
      requires Valid()
      modifies `fsmState, `displayName
      ensures Valid() && (canBeSended ==> TcpKnown(c))
      ensures if canBeSended then Enqueue(cfg, View(), c, flags) == RunCommand(cfg, old(View()), c)
              else View() == RunCommand(cfg, old(View()), c)
    {
      hide Valid, View;
      hide Enqueue;
      canBeSended, flags := false, FlagNone;
      var state := GetState();
      match c {
        case CmdAuth(_, _, _, name) => {
          SetDisplayName(name);
          if state == Start {
            flags := FlagAuth;
            SetState(AuthWaiting);
            canBeSended := true;
          }
        }
        case CmdJoin(_, _) => canBeSended := state == Open;
        case CmdRename(name) => {
          if state == Open {
            SetDisplayName(name);
          }
        }
        case CmdMsg(_) => canBeSended := state == Open;
        case CmdExit(_) => canBeSended := true;
        case _ =>
      }
    }

    /** The loop body of userCommandHandling after the filter: assemble, enqueue, and close after /exit. */
    method EnqueueCommand(c: Command, flags: Flag)
      requires Valid() && TcpKnown(c)
      modifies this, sendingQueue, sendingQueue.nodes
      ensures Valid() && Grown() && View() == Enqueue(cfg, old(View()), c, flags)
    {
      hide Valid, View;
      hide PacketOf;
      var name := GetDisplayName();
      if NeedsName(c) && name.None? {
        // it cannot be assembled
        return;
      }
      AddMessage(PacketOf(cfg, c, cfg.mainStale, if name.Some? then name.value else []), KindOf(c), flags);
      if c.CmdExit? {
        SetState(EmptyQueueBye);
      }
    }

    /** One line of input in userCommandHandling; `input` holds it as loadBufferFromStdin leaves it. */
    method UserLine(input: Buffers.Buffer, ghost line: seq<byte>)
      requires Valid() && UserInput.Loaded(input, line) && Tokenizer.Tokenizable(line)
      modifies this, sendingQueue, sendingQueue.nodes
      ensures Valid() && Grown() && View() == MainLine(cfg, old(View()), line)
    {
      hide Valid, View;
      hide RunCommand, Enqueue, Tokenizer.Parse;
      var state := GetState();
      if state.Closing() {
        return;
      }
      var c := UserInput.UserInputToCmds(input, line);
      var canBeSended, flags := FilterCommandsByFsm(c);
      if canBeSended {
        EnqueueCommand(c, flags);
      }
    }

    /** The end of input in userCommandHandling. */
    method EndOfInput()
      requires Valid()
      modifies this, sendingQueue, sendingQueue.nodes
      ensures Valid() && Grown() && View() == MainEof(cfg, old(View()))
    {
      hide Valid, View;
      hide ChatProtocol.SendBye;
      var state := GetState();
      if !state.Closing() {
        SetState(EmptyQueueBye);
        SendBye();
      }
    }

    method SigintHandler()
      requires Valid()
      modifies this, sendingQueue, sendingQueue.nodes
      ensures Valid() && Grown() && View() == SigintStep(cfg, old(View()))
    {
      hide Valid, View;
      hide ChatProtocol.SendBye;
      SetState(SigintBye);
      DropAll();
      SendBye();
    }

    // -------------------------------------------------------------------------
    //  All steps together
    // -------------------------------------------------------------------------

    /** Whichever thread works next: its code takes the state where the protocol model says. */
    method HandleEvent(e: Event)
      requires Valid()
      modifies this, sendingQueue, sendingQueue.nodes, confirmedMsgs
      ensures Valid() && Grown() && View() == Step(cfg, old(View()), e)
    {
      hide Valid, View;
      hide RunCommand, Tokenizer.Parse, MainEof, ReceiveStep, SenderStep, SigintStep;
      var over := HasEnded();
      if over {
        return;
      }
      match e {
        case Line(line) => {
          if Tokenizer.Tokenizable(line) { // the others are not part of the model
            var input := LoadLine(line);
            UserLine(input, line);
          }
        }
        case Eof => EndOfInput();
        case Receive(d) => ReceiveMessage(d);
        case Garbled => ReceiveGarbled();
        case SenderTurn => SenderTurn();
        case Sigint => SigintHandler();
      }
    }
  }

  /** A line as loadBufferFromStdin leaves it in the input buffer. */
  method LoadLine(line: seq<byte>) returns (input: Buffers.Buffer)
    ensures UserInput.Loaded(input, line) && fresh(input) && fresh(input.data)
  {
    input := new Buffers.Buffer();
    input.Resize(|line| + 1);
    var end := input.WriteField(0, line);
    input.used := |line|;
    assert input.data[..end] == line + [0];
  }

  lemma ConfirmIgnored(cfg: Config, s: State, id: Id)
    ensures s.queue == [] || !Accepts(cfg, s.queue[0], id) ==> HandleConfirm(cfg, s, id) == s
  {}

  /** One round of the filter. */
  lemma {:induction false} FilterOnce(cfg: Config, s: State)
    ensures Filter(cfg, s) ==
      if s.queue == [] then s
      else if s.queue[0].sendCount > cfg.maxRetries then
        if s.fsm == ErrorWaitConf then Filter(cfg, PopFront(s))
        else if s.fsm == EndWaitConf then Filter(cfg, PopFront(s.(fsm := End)))
        else TimeOut(cfg, s)
      else if Stops(s.queue[0]) then s
      else Filter(cfg, PopFront(s))
  {}

  lemma PopShorter(s: State)
    requires s.queue != []
    ensures |PopFront(s).queue| < |s.queue| && PopFront(s).fsm == s.fsm && PopFront(s).halted == s.halted
  {}

  lemma TimeOutState(cfg: Config, s: State)
    ensures SendErrorAndBye(cfg, s, cfg.senderStale, TIMED_OUT).fsm == s.fsm
  {}
}
