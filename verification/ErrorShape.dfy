/**
 * The queue while the client shuts down after an error: acknowledgements, then at most one ERR, then
 * the BYE, which has not been sent. It also shows the one way in which the BYE gets lost.
 */
module ErrorShape {
  import opened Basics
  import opened Formats
  import opened ChatProtocol
  import opened Primitives
  import opened Reachability

  predicate IsUnsentAck(m: Msg) { m.flags == FlagConfirm && m.sendCount == 0 }

  predicate ByeTail(q: seq<Msg>) { |q| == 1 && q[0].flags == FlagBye && q[0].sendCount == 0 }

  /** Acknowledgements, then nothing, BYE, or ERR and BYE; `unsent` when the ERR has not been sent. */
  predicate ErrShape(q: seq<Msg>, unsent: bool)
    decreases |q|
  {
    if q == [] then true
    else if IsUnsentAck(q[0]) then ErrShape(q[1..], unsent)
    else ByeTail(q) || (q[0].flags == FlagErr && (unsent ==> q[0].sendCount == 0) && ByeTail(q[1..]))
  }

  /** Acknowledgements, then nothing or BYE. */
  predicate EndShape(q: seq<Msg>)
    decreases |q|
  {
    if q == [] then true
    else if IsUnsentAck(q[0]) then EndShape(q[1..])
    else |q| == 1 && q[0].flags == FlagBye
  }

  predicate Shape(cfg: Config, s: State) {
    !s.halted ==>
      && (s.fsm == Error ==>
            ErrShape(s.queue, true) && (cfg.proto == UDP && s.pc == Wake ==> s.queue != [] && IsUnsentAck(s.queue[0])))
      && (s.fsm == ErrorWaitConf ==> cfg.proto == UDP && ErrShape(s.queue, false) && s.pc != Wake)
      && (s.fsm == EndWaitConf ==> cfg.proto == UDP && EndShape(s.queue) && s.pc != Wake)
  }

  // ---------------------------------------------------------------------------
  //  The shapes under the queue operations
  // ---------------------------------------------------------------------------

  lemma {:induction false} ErrShapePush(m: Msg, q: seq<Msg>, unsent: bool)
    requires IsUnsentAck(m) && ErrShape(q, unsent)
    ensures ErrShape([m] + q, unsent)
  {
    assert ([m] + q)[1..] == q;
  }

  lemma {:induction false} EndShapePush(m: Msg, q: seq<Msg>)
    requires IsUnsentAck(m) && EndShape(q)
    ensures EndShape([m] + q)
  {
    assert ([m] + q)[1..] == q;
  }

  lemma ErrShapeMark(q: seq<Msg>, unsent: bool)
    requires q != [] && ErrShape(q, unsent)
    ensures ErrShape(q[0 := q[0].(confirmed := true)], unsent)
  {
    assert q[0 := q[0].(confirmed := true)][1..] == q[1..];
  }

  lemma {:induction false} ErrShapeWeaken(q: seq<Msg>)
    requires ErrShape(q, true)
    ensures ErrShape(q, false)
    decreases |q|
  {
    if q != [] && IsUnsentAck(q[0]) { ErrShapeWeaken(q[1..]); }
  }

  // ---------------------------------------------------------------------------
  //  Every step keeps the shape
  // ---------------------------------------------------------------------------

  lemma ConfirmShape(cfg: Config, s: State, d: Datagram)
    requires Shape(cfg, s) && !s.halted
    ensures Shape(cfg, SendConfirm(s, d, FlagConfirm))
  {
    var m := NewMsg(s, UdpConfirm(d.id), CONF, FlagConfirm);
    if s.fsm == Error { ErrShapePush(m, s.queue, true); }
    if s.fsm == ErrorWaitConf { ErrShapePush(m, s.queue, false); }
    if s.fsm == EndWaitConf { EndShapePush(m, s.queue); }
  }

  lemma HandleConfirmShape(cfg: Config, s: State, id: Id)
    requires Shape(cfg, s) && !s.halted
    ensures Shape(cfg, HandleConfirm(cfg, s, id))
  {
    if s.queue != [] {
      if s.fsm == Error { ErrShapeMark(s.queue, true); }
      if s.fsm == ErrorWaitConf { ErrShapeMark(s.queue, false); }
    }
  }

  /** A reply to a closing client is ignored. */
  lemma HandleReplyShape(cfg: Config, s: State, d: Datagram)
    requires Shape(cfg, s)
    ensures Shape(cfg, HandleReply(cfg, s, d))
  {
    hide ErrShape;
    hide EndShape;
  }

  lemma ReceiveErrorShape(cfg: Config, s: State, d: Datagram)
    requires !s.halted
    ensures Shape(cfg, ReceiveError(cfg, s, d))
    ensures Shape(cfg, ReceiveUnknown(cfg, s, d))
  {
    ErrorQueue(cfg, s, d);
    UnknownQueue(cfg, s, d);
  }

  lemma ErrorQueue(cfg: Config, s: State, d: Datagram)
    ensures var t := ReceiveError(cfg, s, d);
      ErrShape(t.queue, true) && (cfg.proto == UDP ==> t.queue != [] && IsUnsentAck(t.queue[0]))
  {
    var t := ReceiveError(cfg, s, d);
    assert ByeTail(t.queue[|t.queue| - 1..]);
    assert |t.queue| == if cfg.proto == UDP then 2 else 1;
  }

  lemma UnknownQueue(cfg: Config, s: State, d: Datagram)
    ensures var t := ReceiveUnknown(cfg, s, d);
      !t.halted ==> ErrShape(t.queue, true) && (cfg.proto == UDP ==> t.queue != [] && IsUnsentAck(t.queue[0]))
  {
    var t := ReceiveUnknown(cfg, s, d);
    if !t.halted {
      assert |t.queue| == if cfg.proto == UDP then 3 else 2;
      assert ByeTail(t.queue[|t.queue| - 1..]);
      assert cfg.proto == UDP ==> t.queue[1..][1..] == t.queue[2..];
      assert t.queue[|t.queue| - 2].flags == FlagErr && t.queue[|t.queue| - 2].sendCount == 0;
    }
  }

  lemma DispatchShape(cfg: Config, s: State, d: Datagram, repetitive: bool)
    requires Shape(cfg, s) && !s.halted
    ensures Shape(cfg, Dispatch(cfg, s, d, repetitive))
  {
    hide HandleConfirm;
    hide HandleReply;
    hide ReceiveError;
    hide ReceiveUnknown;
    hide ErrShape;
    hide EndShape;
    HandleReplyShape(cfg, s, d);
    ConfirmShape(cfg, s, d);
    HandleConfirmShape(cfg, s, d.id);
    ReceiveErrorShape(cfg, s, d);
  }

  lemma ReceiveShape(cfg: Config, s: State, d: Datagram)
    requires Shape(cfg, s) && !s.halted
    ensures Shape(cfg, ReceiveStep(cfg, s, d))
  {
    DispatchShape(cfg, s, d, Repetitive(cfg, s.seen, d));
    DispatchShape(cfg, s, d, false);
    DispatchShape(cfg, s.(seen := s.seen + {Seen(d.kind, d.id)}), d, false);
  }

  lemma TimeOutShape(cfg: Config, s: State)
    ensures var t := TimeOut(cfg, s);
      t.halted || (t.fsm == Error && |t.queue| == 2 && t.queue[0].flags == FlagErr && t.queue[0].sendCount == 0
                   && t.queue[1].flags == FlagBye && t.queue[1].sendCount == 0 && !t.queue[1].confirmed
                   && t.pc == s.pc && t.log.sent == s.log.sent && t.displayName == s.displayName
                   && ErrShape(t.queue, true))
    ensures TimeOut(cfg, s).halted <==> s.halted || s.displayName.None?
  {
    var t := TimeOut(cfg, s);
    if !t.halted {
      assert ByeTail(t.queue[1..]);
    }
  }

  lemma {:induction false} FilterShape(cfg: Config, s: State)
    requires Shape(cfg, s) && !s.halted && s.pc == Top && cfg.proto == UDP
    ensures Shape(cfg, Filter(cfg, s))
    decreases |s.queue|
  {
    if s.queue != [] {
      var m := s.queue[0];
      if m.sendCount > cfg.maxRetries && s.fsm != ErrorWaitConf && s.fsm != EndWaitConf {
        TimeOutShape(cfg, s);
      } else if m.sendCount > cfg.maxRetries || !Stops(m) {
        FilterShape(cfg, PopFront(if m.sendCount > cfg.maxRetries && s.fsm == EndWaitConf then s.(fsm := End) else s));
      }
    }
  }

  /** In an error state the message at the front is an acknowledgement, the ERR or the BYE. */
  lemma {:induction false} ErrShapeFront(q: seq<Msg>, unsent: bool)
    requires q != [] && ErrShape(q, unsent)
    ensures q[0].flags in {FlagConfirm, FlagErr, FlagBye}
    ensures ErrShape(q[1..], unsent)
    ensures q[0].flags == FlagBye ==> |q| == 1
    ensures q[0].flags == FlagErr ==> ByeTail(q[1..])
  {}

  lemma LogicErrorShape(cfg: Config, s: State)
    requires s.queue != [] && s.pc == Logic && !s.halted
    requires s.fsm == Error || s.fsm == ErrorWaitConf
    requires Shape(cfg, s)
    ensures Shape(cfg, LogicError(cfg, s)) && !LogicError(cfg, s).halted
  {
    var m, t := s.queue[0], LogicError(cfg, s);
    ErrShapeFront(s.queue, s.fsm == Error);
    if cfg.proto == UDP && m.flags == FlagErr {
      assert t.queue[1..] == s.queue[1..];
    }
  }

  lemma LogicShape(cfg: Config, s: State)
    requires Shape(cfg, s) && s.pc == Logic && !s.halted && SendReady(cfg, s)
    ensures Shape(cfg, SenderLogic(cfg, s))
  {
    if s.fsm == Error || s.fsm == ErrorWaitConf {
      LogicErrorShape(cfg, s);
    } else if s.fsm == EndWaitConf {
      LogicEndShape(cfg, s);
    } else {
      LogicOther(cfg, s);
    }
  }

  lemma LogicEndShape(cfg: Config, s: State)
    requires Shape(cfg, s) && s.pc == Logic && !s.halted && s.queue != [] && s.fsm == EndWaitConf
    ensures Shape(cfg, Transmit(cfg, s))
  {}

  /** Only the error states lead to the states in which the client waits for a confirmation. */
  lemma LogicOther(cfg: Config, s: State)
    requires s.pc == Logic && s.fsm !in {Error, ErrorWaitConf, EndWaitConf}
    ensures SenderLogic(cfg, s).fsm !in {Error, ErrorWaitConf, EndWaitConf}
  {
    hide LogicStart;
    if s.queue != [] {
      if s.fsm in {Start, AuthWaiting, AuthSent, WaitReply} {
        LogicStartOther(cfg, s);
      }
    }
  }

  lemma LogicStartOther(cfg: Config, s: State)
    requires s.queue != [] && s.fsm in {Start, AuthWaiting, AuthSent, WaitReply}
    ensures LogicStart(cfg, s).fsm in {Start, AuthWaiting, AuthSent, WaitReply}
  {}

  lemma WakeShape(cfg: Config, s: State)
    requires Shape(cfg, s) && s.pc == Wake && !s.halted
    ensures Shape(cfg, Transmit(cfg, s))
  {
    if s.fsm == Error && s.queue != [] {
      ErrShapeFront(s.queue, true);
    }
  }

  lemma StepShape(cfg: Config, s: State, e: Event)
    requires Shape(cfg, s) && SendReady(cfg, s)
    ensures Shape(cfg, Step(cfg, s, e))
  {
    hide ReceiveStep;
    hide SenderLogic;
    hide Filter;
    hide ErrShape;
    hide EndShape;
    if !s.halted {
      match e {
        case Line(line) =>
        case Eof =>
        case Receive(d) => ReceiveShape(cfg, s, d);
        case Garbled =>
        case SenderTurn =>
          match s.pc {
            case Top => if cfg.proto == UDP { FilterShape(cfg, s); }
            case Logic => LogicShape(cfg, s);
            case Wake => WakeShape(cfg, s);
            case Gone =>
          }
        case Sigint =>
      }
    }
  }

  lemma {:induction false} RunShape(cfg: Config, es: seq<Event>)
    ensures Shape(cfg, After(cfg, es))
  {
    if es != [] {
      var before := es[..|es| - 1];
      RunShape(cfg, before);
      RunSound(cfg, before);
      StepShape(cfg, After(cfg, before), es[|es| - 1]);
    }
  }
}
