/**
 * While the client closes after an error over UDP, exactly one BYE waits at the end of the queue,
 * unsent and unconfirmed, except after one event: a CONFIRM that matches the BYE before it was sent.
 */
module LostBye {
  import opened Basics
  import opened Formats
  import opened ChatProtocol
  import opened Primitives
  import opened Discipline
  import opened Reachability
  import opened ErrorShape

  predicate ByeWaiting(q: seq<Msg>) {
    q != [] && q[|q| - 1].flags == FlagBye && !q[|q| - 1].confirmed
  }

  predicate InShutdown(f: Fsm) { f == Error || f == ErrorWaitConf || f == EndWaitConf }

  predicate Live(s: State) { !s.halted && InShutdown(s.fsm) ==> ByeWaiting(s.queue) }

  /** A CONFIRM taken for the BYE while it has not been sent: nothing in handleConfirmUDP asks for that. */
  predicate ConfirmsUnsentBye(cfg: Config, s: State, e: Event) {
    && !s.halted && (s.fsm == Error || s.fsm == ErrorWaitConf) && |s.queue| == 1
    && e.Receive? && e.d.kind == CONF && Accepts(cfg, s.queue[0], e.d.id)
  }

  /** The queue of the error states, spelled out: `acks` acknowledgements, perhaps an ERR, one BYE. */
  ghost predicate ErrorQueueExact(q: seq<Msg>) {
    exists acks :: 0 <= acks < |q| && ErrorQueueAt(q, acks)
  }

  predicate ErrorQueueAt(q: seq<Msg>, acks: nat)
    requires acks < |q|
  {
    && (forall i :: 0 <= i < acks ==> IsUnsentAck(q[i]))
    && (|q| == acks + 1 || (|q| == acks + 2 && q[acks].flags == FlagErr))
    && q[|q| - 1].flags == FlagBye && q[|q| - 1].sendCount == 0 && !q[|q| - 1].confirmed
  }

  lemma {:induction false} ExactFromShape(q: seq<Msg>, unsent: bool)
    requires ErrShape(q, unsent) && ByeWaiting(q)
    ensures ErrorQueueExact(q)
    decreases |q|
  {
    if IsUnsentAck(q[0]) {
      assert q[1..][|q| - 2] == q[|q| - 1];
      ExactFromShape(q[1..], unsent);
      var acks :| 0 <= acks < |q[1..]| && ErrorQueueAt(q[1..], acks);
      assert forall i :: 0 < i < acks + 1 ==> q[i] == q[1..][i - 1];
      assert ErrorQueueAt(q, acks + 1);
    } else {
      assert ErrorQueueAt(q, 0);
    }
  }

  // ---------------------------------------------------------------------------
  //  One step
  // ---------------------------------------------------------------------------

  lemma PushLive(s: State, d: Datagram)
    requires Live(s)
    ensures Live(SendConfirm(s, d, FlagConfirm))
  {
    var t := SendConfirm(s, d, FlagConfirm);
    if s.queue != [] {
      assert t.queue[|t.queue| - 1] == s.queue[|s.queue| - 1];
    }
  }

  lemma ReplyLive(cfg: Config, s: State, d: Datagram)
    requires Live(s)
    ensures Live(HandleReply(cfg, s, d))
  {}

  lemma ErrorLive(cfg: Config, s: State, d: Datagram)
    ensures Live(ReceiveError(cfg, s, d)) && Live(ReceiveUnknown(cfg, s, d))
  {
    assert ByeWaiting(ReceiveError(cfg, s, d).queue);
    var t := ReceiveUnknown(cfg, s, d);
    assert t.halted || ByeWaiting(t.queue);
  }

  lemma DispatchLive(cfg: Config, s: State, d: Datagram, repetitive: bool)
    requires cfg.proto == UDP && !s.halted && Live(s) && s.fsm != End && Shape(cfg, s)
    ensures Live(Dispatch(cfg, s, d, repetitive)) <==> !ConfirmsUnsentBye(cfg, s, Receive(d))
  {
    hide HandleConfirm;
    hide HandleReply;
    hide ReceiveError;
    hide ReceiveUnknown;
    hide Shape;
    if d.kind == CONF {
      HandleConfirmLive(cfg, s, d);
    } else {
      PushLive(s, d);
      ReplyLive(cfg, s, d);
      ErrorLive(cfg, s, d);
    }
  }

  lemma HandleConfirmLive(cfg: Config, s: State, d: Datagram)
    requires cfg.proto == UDP && !s.halted && Shape(cfg, s) && Live(s) && d.kind == CONF && s.fsm != End
    ensures Live(HandleConfirm(cfg, s, d.id)) <==> !ConfirmsUnsentBye(cfg, s, Receive(d))
  {
    hide Accepts, MsgId;
    var t := HandleConfirm(cfg, s, d.id);
    if s.queue != [] && Accepts(cfg, s.queue[0], d.id) && |s.queue| > 1 {
      assert t.queue[|s.queue| - 1] == s.queue[|s.queue| - 1];
    }
  }

  lemma {:induction false} FilterLive(cfg: Config, s: State)
    requires cfg.proto == UDP && !s.halted && s.pc == Top && Shape(cfg, s) && Live(s)
    ensures Live(Filter(cfg, s))
    decreases |s.queue|
  {
    if s.queue != [] {
      var m := s.queue[0];
      if m.sendCount > cfg.maxRetries && s.fsm != ErrorWaitConf && s.fsm != EndWaitConf {
        TimeOutShape(cfg, s);
      } else if m.sendCount > cfg.maxRetries || !Stops(m) {
        var u := PopFront(if m.sendCount > cfg.maxRetries && s.fsm == EndWaitConf then s.(fsm := End) else s);
        if InShutdown(u.fsm) {
          assert u.queue != [] ==> u.queue[|u.queue| - 1] == s.queue[|s.queue| - 1];
        }
        FilterLive(cfg, u);
      }
    }
  }

  lemma LogicErrorLive(cfg: Config, s: State)
    requires cfg.proto == UDP && !s.halted && s.pc == Logic && Shape(cfg, s) && Live(s)
    requires s.queue != [] && (s.fsm == Error || s.fsm == ErrorWaitConf)
    ensures Live(LogicError(cfg, s))
  {
    ErrShapeFront(s.queue, s.fsm == Error);
  }

  lemma SenderLive(cfg: Config, s: State)
    requires cfg.proto == UDP && !s.halted && Shape(cfg, s) && SendReady(cfg, s) && Live(s) && KindsOk(s)
    ensures Live(SenderStep(cfg, s))
  {
    match s.pc {
      case Top => TopLive(cfg, s);
      case Logic => LogicLive(cfg, s);
      case Wake =>
        if s.fsm == Error { ErrShapeFront(s.queue, true); }
      case Gone =>
    }
  }

  lemma TopLive(cfg: Config, s: State)
    requires cfg.proto == UDP && !s.halted && s.pc == Top && Shape(cfg, s) && Live(s)
    ensures Live(SenderTop(cfg, s))
  {
    hide Filter;
    hide Shape;
    FilterLive(cfg, s);
  }

  lemma LogicLive(cfg: Config, s: State)
    requires cfg.proto == UDP && !s.halted && s.pc == Logic && s.queue != []
    requires Shape(cfg, s) && Live(s) && KindsOk(s)
    ensures Live(SenderLogic(cfg, s))
  {
    hide LogicError;
    if s.fsm == Error || s.fsm == ErrorWaitConf {
      LogicErrorLive(cfg, s);
    } else if s.fsm == EndWaitConf {
      EndFrontKeeps(cfg, s);
    } else {
      LogicOther(cfg, s);
    }
  }

  lemma EndFrontKeeps(cfg: Config, s: State)
    requires cfg.proto == UDP && !s.halted && s.pc == Logic && s.fsm == EndWaitConf
    requires EndShape(s.queue) && ByeWaiting(s.queue) && KindsOk(s)
    ensures ByeWaiting(Transmit(cfg, s).queue)
  {
    assert MsgOk(s.queue[0]);
    if |s.queue| > 1 {
      assert IsUnsentAck(s.queue[0]);
    }
  }

  /** Exactly: a step in the error states loses the waiting BYE if and only if it confirms it unsent. */
  lemma StepLive(cfg: Config, s: State, e: Event)
    requires cfg.proto == UDP && Shape(cfg, s) && SendReady(cfg, s) && Live(s) && KindsOk(s)
    ensures Live(Step(cfg, s, e)) <==> !ConfirmsUnsentBye(cfg, s, e)
  {
    hide Dispatch;
    hide SenderStep;
    hide ErrShape;
    hide EndShape;
    if !s.halted {
      match e {
        case Line(line) =>
        case Eof =>
        case Receive(d) =>
          if Handles(s, d) {
            var t := if Repetitive(cfg, s.seen, d) then s else s.(seen := s.seen + {Seen(d.kind, d.id)});
            DispatchLive(cfg, t, d, Repetitive(cfg, s.seen, d));
          }
        case Garbled =>
        case SenderTurn => SenderLive(cfg, s);
        case Sigint =>
      }
    }
  }

  // ---------------------------------------------------------------------------
  //  Whole runs
  // ---------------------------------------------------------------------------

  /** No event of the run confirms an unsent BYE. */
  predicate NeverConfirmsUnsentBye(cfg: Config, es: seq<Event>) {
    es == [] || (NeverConfirmsUnsentBye(cfg, es[..|es| - 1])
                 && !ConfirmsUnsentBye(cfg, After(cfg, es[..|es| - 1]), es[|es| - 1]))
  }

  lemma {:induction false} RunLive(cfg: Config, es: seq<Event>)
    requires cfg.proto == UDP && NeverConfirmsUnsentBye(cfg, es)
    ensures Live(After(cfg, es))
  {
    if es != [] {
      var before := es[..|es| - 1];
      RunLive(cfg, before);
      RunSound(cfg, before);
      RunShape(cfg, before);
      StepLive(cfg, After(cfg, before), es[|es| - 1]);
    }
  }

  /** Exactly: the BYE waits after every step of a run if and only if no event confirms it unsent. */
  lemma {:induction false} RunLiveExactly(cfg: Config, es: seq<Event>)
    requires cfg.proto == UDP
    ensures NeverConfirmsUnsentBye(cfg, es) <==> forall k :: 0 <= k <= |es| ==> Live(After(cfg, es[..k]))
  {
    hide Step, Live, ConfirmsUnsentBye;
    if es == [] {
      RunLive(cfg, es);
    } else {
      var before := es[..|es| - 1];
      RunLiveExactly(cfg, before);
      assert forall k :: 0 <= k < |es| ==> es[..k] == before[..k];
      assert es[..|es|] == es;
      RunSound(cfg, before);
      RunShape(cfg, before);
      if Live(After(cfg, before)) { StepLive(cfg, After(cfg, before), es[|es| - 1]); }
      assert before[..|before|] == before;
    }
  }

  /** The error-state queue over every run without that event. */
  lemma {:induction false} ErrorStateQueue(cfg: Config, es: seq<Event>)
    requires cfg.proto == UDP && NeverConfirmsUnsentBye(cfg, es) && !After(cfg, es).halted
    ensures After(cfg, es).fsm in {Error, ErrorWaitConf} ==> ErrorQueueExact(After(cfg, es).queue)
  {
    var s := After(cfg, es);
    RunLive(cfg, es);
    RunShape(cfg, es);
    if s.fsm in {Error, ErrorWaitConf} {
      ExactFromShape(s.queue, s.fsm == Error);
    }
  }

  /** While the client waits for the confirmation of its BYE: acknowledgements, then that BYE. */
  predicate EndQueueExact(q: seq<Msg>) {
    && q != [] && (forall i :: 0 <= i < |q| - 1 ==> IsUnsentAck(q[i]))
    && q[|q| - 1].flags == FlagBye && !q[|q| - 1].confirmed
  }

  lemma {:induction false} ExactFromEndShape(q: seq<Msg>)
    requires EndShape(q) && ByeWaiting(q)
    ensures EndQueueExact(q)
    decreases |q|
  {
    if |q| > 1 {
      assert q[1..][|q| - 2] == q[|q| - 1];
      ExactFromEndShape(q[1..]);
      assert forall i :: 0 < i < |q| - 1 ==> q[i] == q[1..][i - 1];
    }
  }

  lemma {:induction false} EndStateQueue(cfg: Config, es: seq<Event>)
    requires cfg.proto == UDP && NeverConfirmsUnsentBye(cfg, es) && !After(cfg, es).halted
    ensures After(cfg, es).fsm == EndWaitConf ==> EndQueueExact(After(cfg, es).queue)
  {
    var s := After(cfg, es);
    RunLive(cfg, es);
    RunShape(cfg, es);
    if s.fsm == EndWaitConf { ExactFromEndShape(s.queue); }
  }

  /** Over every run whatsoever, sending in an error state never meets a message it does not expect. */
  lemma {:induction false} ErrorStateSends(cfg: Config, es: seq<Event>)
    requires After(cfg, es).fsm in {Error, ErrorWaitConf} && After(cfg, es).pc == Logic
    requires !After(cfg, es).halted
    ensures !Step(cfg, After(cfg, es), SenderTurn).halted
  {
    hide Sound;
    hide Shape;
    hide LogicError;
    RunSound(cfg, es);
    RunShape(cfg, es);
    LogicErrorShape(cfg, After(cfg, es));
  }

  lemma {:induction false} AfterMore(cfg: Config, es: seq<Event>, e: Event)
    ensures After(cfg, es + [e]) == Step(cfg, After(cfg, es), e)
  {
    assert (es + [e])[..|es|] == es;
  }

  // ---------------------------------------------------------------------------
  //  The event happens
  // ---------------------------------------------------------------------------

  /** Closing in the error state with `acks` acknowledgements and the BYE still to send. */
  predicate OnlyBye(cfg: Config, s: State, acks: nat) {
    && !s.halted && s.fsm == Error && s.pc == Top && |s.queue| == acks + 1
    && (forall i :: 0 <= i < acks ==> IsUnsentAck(s.queue[i]) && !s.queue[i].confirmed)
    && s.queue[acks].flags == FlagBye && s.queue[acks].sendCount == 0 && !s.queue[acks].confirmed
    && IdOf(s.queue[acks].data) == cfg.mainStale
  }

  lemma ErrorAfterEof(cfg: Config, d: Datagram)
    requires cfg.proto == UDP && d.kind == ERR
    ensures OnlyBye(cfg, Step(cfg, Step(cfg, Init(), Eof), Receive(d)), 1)
  {
    hide Filter;
    hide SenderLogic;
    var s1 := Step(cfg, Init(), Eof);
    assert s1.fsm == EmptyQueueBye && !s1.halted && s1.pc == Top && s1.seen == {};
    assert Step(cfg, s1, Receive(d)) == ReceiveError(cfg, s1.(seen := {Seen(ERR, d.id)}), d);
  }

  lemma AckGoes(cfg: Config, s: State)
    requires cfg.proto == UDP && OnlyBye(cfg, s, 1)
    ensures OnlyBye(cfg, Step(cfg, Step(cfg, s, SenderTurn), SenderTurn), 0)
  {
    assert Step(cfg, s, SenderTurn) == s.(pc := Logic);
  }

  lemma StrayConfirm(cfg: Config, s: State)
    requires cfg.proto == UDP && OnlyBye(cfg, s, 0)
    ensures var t := Step(cfg, Step(cfg, s, Receive(Datagram(CONF, cfg.mainStale, false))), SenderTurn);
      t.fsm == Error && t.queue == [] && !t.halted && t.pc == Top
  {
    var t := Step(cfg, s, Receive(Datagram(CONF, cfg.mainStale, false)));
    assert t.queue == [s.queue[0].(confirmed := true)] && t.fsm == Error && !t.halted && t.pc == Top;
    assert PopFront(t).queue == [];
    assert Filter(cfg, t) == Filter(cfg, PopFront(t)) == PopFront(t);
  }

  /**
   * A run that loses the BYE: end of input, an ERR from the server, its CONFIRM sent, and a CONFIRM with
   * the id bytes the BYE happens to hold. The filter drops the BYE, and the sender waits for ever.
   */
  lemma ByeLostRun(cfg: Config, id: Id) returns (es: seq<Event>)
    requires cfg.proto == UDP
    ensures var s := After(cfg, es); s.fsm == Error && s.queue == [] && !s.halted && s.pc == Top
  {
    var d, c := Datagram(ERR, id, false), Datagram(CONF, cfg.mainStale, false);
    var e1: seq<Event> := [Eof];
    var e2 := e1 + [Receive(d)];
    var e4 := e2 + [SenderTurn] + [SenderTurn];
    es := e4 + [Receive(c)] + [SenderTurn];
    AfterMore(cfg, [], Eof);
    assert [] + [Eof] == e1;
    AfterMore(cfg, e1, Receive(d));
    ErrorAfterEof(cfg, d);
    AfterMore(cfg, e2, SenderTurn);
    AfterMore(cfg, e2 + [SenderTurn], SenderTurn);
    AckGoes(cfg, After(cfg, e2));
    AfterMore(cfg, e4, Receive(c));
    AfterMore(cfg, e4 + [Receive(c)], SenderTurn);
    StrayConfirm(cfg, After(cfg, e4));
  }
}
