/**
 * Waiting for the REPLY: once the server has confirmed the AUTH, it is not transmitted again while the client
 * waits, whatever else happens; and before authentication the sender transmits an AUTH exactly when it should.
 */
module Waiting {
  import opened Basics
  import opened Formats
  import opened ChatProtocol
  import opened Discipline
  import opened Reachability
  import opened Shutdown
  import opened Safety
  import LostBye
  import Tokenizer

  predicate Authenticating(f: Fsm) { f == Start || f == AuthWaiting || f == AuthSent || f == WaitReply }

  /** The unchecked wait of logicFSM is never for an AUTH. */
  predicate WakeOk(s: State) { s.pc == Wake && !s.halted ==> s.queue != [] && s.queue[0].kind != AUTH }

  // ---------------------------------------------------------------------------
  //  The unchecked wait
  // ---------------------------------------------------------------------------

  lemma ReplyWake(cfg: Config, s: State, d: Datagram)
    requires WakeOk(s)
    ensures WakeOk(HandleReply(cfg, s, d))
  {}

  lemma ErrorWake(cfg: Config, s: State, d: Datagram)
    ensures WakeOk(ReceiveError(cfg, s, d)) && WakeOk(ReceiveUnknown(cfg, s, d))
  {
    hide PacketOf;
  }

  lemma DispatchWake(cfg: Config, s: State, d: Datagram, repetitive: bool)
    requires WakeOk(s)
    ensures WakeOk(Dispatch(cfg, s, d, repetitive))
  {
    hide HandleReply, ReceiveError, ReceiveUnknown;
    ReplyWake(cfg, s, d);
    ErrorWake(cfg, s, d);
  }

  lemma ReceiveWake(cfg: Config, s: State, d: Datagram)
    requires WakeOk(s)
    ensures WakeOk(ReceiveStep(cfg, s, d))
  {
    hide Dispatch, Repetitive;
    DispatchWake(cfg, s, d, Repetitive(cfg, s.seen, d));
    DispatchWake(cfg, s, d, false);
    DispatchWake(cfg, s.(seen := s.seen + {Seen(d.kind, d.id)}), d, false);
  }

  lemma TransmitWake(cfg: Config, s: State)
    ensures WakeOk(Transmit(cfg, s))
  {}

  lemma LogicWake(cfg: Config, s: State)
    requires s.pc == Logic
    ensures WakeOk(SenderLogic(cfg, s))
  {
    hide Transmit;
    if s.queue != [] { TransmitsWake(cfg, s); }
  }

  /** Every transmission of logicFSM is one of these. */
  lemma TransmitsWake(cfg: Config, s: State)
    requires s.queue != []
    ensures forall f: Fsm :: WakeOk(Transmit(cfg, s.(fsm := f)))
    ensures WakeOk(Transmit(cfg, PopFront(s))) && WakeOk(Transmit(cfg, s))
  {
    hide Transmit;
    forall f: Fsm ensures WakeOk(Transmit(cfg, s.(fsm := f))) { TransmitWake(cfg, s.(fsm := f)); }
    TransmitWake(cfg, PopFront(s));
    TransmitWake(cfg, s);
  }

  lemma StepWake(cfg: Config, s: State, e: Event)
    requires WakeOk(s)
    ensures WakeOk(Step(cfg, s, e))
  {
    hide ReceiveStep, SenderLogic, Transmit, Filter, Tokenizer.Parse, PacketOf;
    match e {
      case Receive(d) => ReceiveWake(cfg, s, d);
      case SenderTurn =>
        FilterStays(cfg, s);
        TransmitWake(cfg, s);
        if s.pc == Logic { LogicWake(cfg, s); }
      case _ =>
    }
  }

  lemma {:induction false} RunWake(cfg: Config, es: seq<Event>)
    ensures WakeOk(After(cfg, es))
  {
    hide Step;
    if es != [] {
      var before := es[..|es| - 1];
      RunWake(cfg, before);
      StepWake(cfg, After(cfg, before), es[|es| - 1]);
    }
  }

  // ---------------------------------------------------------------------------
  //  One turn before authentication
  // ---------------------------------------------------------------------------

  /** The sender transmits an AUTH in its step from `s` to `t`. */
  predicate SendsAuth(s: State, t: State) {
    |t.log.sent| == |s.log.sent| + 1 && t.log.sent[|s.log.sent|].kind == AUTH
  }

  /** An AUTH that was transmitted and confirmed, and not rejected. */
  predicate Done(m: Msg) { m.kind == AUTH && m.flags == FlagAuth && m.confirmed && m.sendCount > 0 }

  /**
   * Exactly: before authentication a turn of the sender transmits an AUTH if and only if it is at logicFSM with
   * an AUTH in front that was not both transmitted and confirmed.
   */
  lemma {:induction false} AuthSentExactly(cfg: Config, es: seq<Event>)
    requires !After(cfg, es).halted && Authenticating(After(cfg, es).fsm)
    ensures var s := After(cfg, es);
      SendsAuth(s, Step(cfg, s, SenderTurn)) <==>
        && s.pc == Logic && s.queue != [] && s.queue[0].kind == AUTH
        && !(s.queue[0].confirmed && s.queue[0].sendCount > 0)
  {
    hide Filter;
    RunWake(cfg, es);
    FilterHistory(cfg, After(cfg, es));
  }

  // ---------------------------------------------------------------------------
  //  The sender alone
  // ---------------------------------------------------------------------------

  /** The confirmed AUTH in front of a client that waits for the REPLY, with the sender in its loop. */
  predicate WaitsInFront(cfg: Config, s: State) {
    && !s.halted && s.fsm == WaitReply && (s.pc == Top || s.pc == Logic)
    && s.queue != [] && Done(s.queue[0]) && s.queue[0].sendCount <= cfg.maxRetries
  }

  /** However long the server takes: the sender alone transmits nothing and changes nothing. */
  lemma {:induction false} WaitsAlone(cfg: Config, s: State, n: nat)
    requires WaitsInFront(cfg, s)
    ensures var t := Alone(cfg, s, n);
      WaitsInFront(cfg, t) && t.queue == s.queue && t.log == s.log && t.counter == s.counter
    decreases n
  {
    if n > 0 {
      assert Filter(cfg, s) == s;
      WaitsAlone(cfg, SenderStep(cfg, s), n - 1);
    }
  }

  // ---------------------------------------------------------------------------
  //  Whole runs
  // ---------------------------------------------------------------------------

  predicate Holds(s: State, m: Msg) { Done(m) && exists i :: 0 <= i < |s.queue| && s.queue[i] == m }

  /** What a step must keep: the AUTH is queued as it is, and was transmitted as often as before. */
  predicate Kept(s: State, t: State, m: Msg) {
    Holds(t, m) && Count(t.log.sent, m.serial) == Count(s.log.sent, m.serial)
  }

  lemma HoldsFront(s: State, t: State, m: Msg)
    requires Holds(s, m) && s.queue != [] && s.queue[0] != m && t.log.sent == s.log.sent
    requires t.queue == s.queue[1..] || (t.queue != [] && t.queue == s.queue[0 := t.queue[0]])
    ensures Kept(s, t, m)
  {
    var i :| 0 <= i < |s.queue| && s.queue[i] == m;
    if t.queue == s.queue[1..] { assert t.queue[i - 1] == m; } else { assert t.queue[i] == m; }
  }

  lemma HoldsMore(s: State, t: State, m: Msg, x: Msg)
    requires Holds(s, m) && t.log.sent == s.log.sent && (t.queue == [x] + s.queue || t.queue == s.queue + [x])
    ensures Kept(s, t, m)
  {
    var i :| 0 <= i < |s.queue| && s.queue[i] == m;
    if t.queue == [x] + s.queue { assert t.queue[i + 1] == m; } else { assert t.queue[i] == m; }
  }

  /** In front of a transmitted message there are only CONFIRMs, with other serial numbers. */
  lemma FrontOther(s: State, m: Msg)
    requires Ordered(s) && Holds(s, m)
    ensures s.queue != [] && (s.queue[0] == m || (s.queue[0].IsConf() && s.queue[0].serial != m.serial))
  {
    var i :| 0 <= i < |s.queue| && s.queue[i] == m;
  }

  lemma LineHolds(cfg: Config, s: State, line: seq<byte>, m: Msg)
    requires Holds(s, m) && !s.halted && Step(cfg, s, Line(line)).fsm == s.fsm
    ensures Kept(s, Step(cfg, s, Line(line)), m)
  {
    hide Tokenizer.Parse, PacketOf, Holds;
    var t := Step(cfg, s, Line(line));
    if t.queue != s.queue { HoldsMore(s, t, m, t.queue[|s.queue|]); }
    SameHolds(s, t, m);
  }

  lemma SameHolds(s: State, t: State, m: Msg)
    requires Holds(s, m)
    ensures t.queue == s.queue && t.log.sent == s.log.sent ==> Kept(s, t, m)
  {}

  lemma ConfirmHolds(cfg: Config, s: State, id: Id, m: Msg)
    requires Holds(s, m)
    ensures Kept(s, HandleConfirm(cfg, s, id), m)
  {
    hide Holds, Accepts, MsgId;
    var t := HandleConfirm(cfg, s, id);
    SameHolds(s, t, m);
    if t.queue != s.queue && s.queue[0] != m { HoldsFront(s, t, m); }
    if s.queue != [] && s.queue[0] == m { FrontConfirmed(s, m); }
  }

  lemma FrontConfirmed(s: State, m: Msg)
    requires Holds(s, m) && s.queue != [] && s.queue[0] == m
    ensures s.queue[0 := m.(confirmed := true)] == s.queue
  {}

  lemma ReplyHolds(cfg: Config, s: State, d: Datagram, m: Msg)
    requires Holds(s, m) && s.fsm == WaitReply && HandleReply(cfg, s, d).fsm == WaitReply
    ensures Kept(s, HandleReply(cfg, s, d), m)
  {
    hide Holds, MsgId;
    var t := HandleReply(cfg, s, d);
    NotEmpty(s, m);
    HoldsMore(s, t, m, t.queue[0]);
  }

  lemma NotEmpty(s: State, m: Msg)
    requires Holds(s, m)
    ensures s.queue != []
  {}

  lemma DispatchHolds(cfg: Config, s: State, d: Datagram, repetitive: bool, m: Msg)
    requires cfg.proto == UDP && Holds(s, m) && s.fsm == WaitReply && Dispatch(cfg, s, d, repetitive).fsm == WaitReply
    ensures Kept(s, Dispatch(cfg, s, d, repetitive), m)
  {
    hide Holds, HandleConfirm, HandleReply, ReceiveError, ReceiveUnknown;
    var t := Dispatch(cfg, s, d, repetitive);
    ClosesHere(cfg, s, d);
    ConfirmHolds(cfg, s, d.id, m);
    if d.kind == REPLY && !repetitive {
      ReplyHolds(cfg, s, d, m);
    } else if d.kind != CONF {
      HoldsMore(s, t, m, t.queue[0]);
    }
  }

  lemma ClosesHere(cfg: Config, s: State, d: Datagram)
    ensures ReceiveError(cfg, s, d).fsm == ReceiveUnknown(cfg, s, d).fsm == Error
  {
    hide PacketOf;
  }

  lemma ReceiptHolds(cfg: Config, s: State, d: Datagram, m: Msg)
    requires cfg.proto == UDP && Holds(s, m) && s.fsm == WaitReply && ReceiveStep(cfg, s, d).fsm == WaitReply
    ensures Kept(s, ReceiveStep(cfg, s, d), m)
  {
    hide Holds, Dispatch, Repetitive;
    var repetitive := Repetitive(cfg, s.seen, d);
    var u := if repetitive then s else s.(seen := s.seen + {Seen(d.kind, d.id)});
    SameHolds(s, u, m);
    DispatchHolds(cfg, u, d, repetitive, m);
  }

  lemma {:induction false} FilterHolds(cfg: Config, s: State, m: Msg)
    requires Holds(s, m) && s.fsm == WaitReply && Filter(cfg, s).fsm == WaitReply
    ensures Holds(Filter(cfg, s), m)
    decreases |s.queue|
  {
    if s.queue[0] != m && s.queue[0].sendCount <= cfg.maxRetries && !Stops(s.queue[0]) {
      HoldsFront(s, PopFront(s), m);
      FilterHolds(cfg, PopFront(s), m);
    }
  }

  lemma TransmitHolds(cfg: Config, s: State, m: Msg)
    requires Holds(s, m) && s.queue[0].serial != m.serial && s.queue[0] != m
    ensures Kept(s, Transmit(cfg, s), m)
  {
    hide Stamp;
    var t := Transmit(cfg, s);
    var u := t.(log := s.log);
    NotEmpty(s, m);
    HoldsFront(s, u, m);
    CountOther(s.log.sent, t.log.sent[|s.log.sent|], m.serial);
    QueueHolds(u, t, m);
  }

  lemma QueueHolds(s: State, t: State, m: Msg)
    requires Holds(s, m) && t.queue == s.queue
    ensures Holds(t, m)
  {}

  lemma {:induction false} CountOther(sent: seq<Msg>, out: Msg, k: nat)
    requires out.serial != k
    ensures Count(sent + [out], k) == Count(sent, k)
  {
    assert (sent + [out])[..|sent|] == sent;
  }

  lemma TurnHolds(cfg: Config, s: State, m: Msg)
    requires cfg.proto == UDP && !s.halted && Holds(s, m) && Ordered(s) && WakeOk(s)
    requires s.fsm == WaitReply && SenderStep(cfg, s).fsm == WaitReply
    ensures Kept(s, SenderStep(cfg, s), m)
  {
    hide Holds, Filter, Transmit, Ordered;
    FrontOther(s, m);
    SameHolds(s, SenderStep(cfg, s), m);
    if s.pc == Top {
      FilterStays(cfg, s);
      FilterHistory(cfg, s);
      FilterHolds(cfg, s, m);
      QueueHolds(Filter(cfg, s), SenderStep(cfg, s), m);
    } else if s.queue[0] != m {
      TransmitHolds(cfg, s, m);
    } else {
      DoneFront(s, m);
    }
  }

  lemma DoneFront(s: State, m: Msg)
    requires Holds(s, m)
    ensures Done(m)
  {}

  /** One step of any thread that leaves the client waiting. */
  lemma StepHolds(cfg: Config, s: State, e: Event, m: Msg)
    requires cfg.proto == UDP && Holds(s, m) && Ordered(s) && WakeOk(s)
    requires s.fsm == WaitReply && Step(cfg, s, e).fsm == WaitReply
    ensures Kept(s, Step(cfg, s, e), m)
  {
    hide Holds, ReceiveStep, SenderStep, Ordered, PacketOf, Tokenizer.Parse;
    SameHolds(s, Step(cfg, s, e), m);
    if !s.halted {
      match e {
        case Line(line) => LineHolds(cfg, s, line, m);
        case Receive(d) => ReceiptHolds(cfg, s, d, m);
        case SenderTurn => TurnHolds(cfg, s, m);
        case _ =>
      }
    }
  }

  /**
   * From a moment at which a confirmed AUTH is queued and the client waits for the REPLY, and for as long as it
   * waits, no event transmits this AUTH again or changes it.
   */
  lemma {:induction false} SilentWhileWaiting(cfg: Config, es: seq<Event>, more: seq<Event>, m: Msg)
    requires cfg.proto == UDP && Holds(After(cfg, es), m)
    requires forall k :: 0 <= k <= |more| ==> After(cfg, es + more[..k]).fsm == WaitReply
    ensures Kept(After(cfg, es), After(cfg, es + more), m)
    decreases |more|
  {
    hide Step, Holds;
    if more == [] {
      assert es + more == es;
    } else {
      var before, e := more[..|more| - 1], more[|more| - 1];
      assert forall k :: 0 <= k <= |before| ==> before[..k] == more[..k];
      SilentWhileWaiting(cfg, es, before, m);
      assert es + more == es + before + [e] && more[..|more|] == more && before[..|before|] == before;
      RunSound(cfg, es + before);
      RunWake(cfg, es + before);
      LostBye.AfterMore(cfg, es + before, e);
      StepHolds(cfg, After(cfg, es + before), e, m);
    }
  }
}
