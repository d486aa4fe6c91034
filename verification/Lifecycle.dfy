/**
 * The state machine of the client, read from its states: for each of them, exactly the events that lead into
 * it. The code spreads these transitions over three threads and a signal handler.
 */
module Lifecycle {
  import opened Basics
  import opened Formats
  import opened ChatProtocol
  import opened Reachability
  import opened ErrorShape
  import LostBye
  import Shutdown
  import Tokenizer
  import UserSteps

  // ---------------------------------------------------------------------------
  //  Events
  // ---------------------------------------------------------------------------

  predicate AuthLine(e: Event) { e.Line? && Tokenizer.Tokenizable(e.line) && Tokenizer.Parse(e.line).CmdAuth? }

  predicate ExitLine(e: Event) { e.Line? && Tokenizer.Tokenizable(e.line) && Tokenizer.Parse(e.line).CmdExit? }

  /** The server confirms the front message. */
  predicate Confirmed(cfg: Config, s: State, e: Event) {
    cfg.proto == UDP && e.Receive? && e.d.kind == CONF && s.queue != [] && Accepts(cfg, s.queue[0], e.d.id)
  }

  /** A REPLY over UDP that is no repetition, while the client waits for one. */
  predicate Replied(cfg: Config, s: State, e: Event, ok: bool) {
    && cfg.proto == UDP && e.Receive? && e.d.kind == REPLY && e.d.ok == ok && !Repetitive(cfg, s.seen, e.d)
    && (s.fsm == WaitReply || s.fsm == JoinAttempt)
  }

  predicate RepliedTcp(cfg: Config, e: Event, ok: bool) {
    cfg.proto == TCP && e.Receive? && e.d.kind == REPLY && e.d.ok == ok
  }

  /** The server sends ERR or a message of an unknown kind. */
  predicate ServerFails(s: State, e: Event) {
    e.Receive? && Handles(s, e.d) && MsgTypeOf(e.d.kind) !in {CONF, REPLY, MSG, BYE}
  }

  predicate ServerLeaves(s: State, e: Event) { e.Receive? && Handles(s, e.d) && e.d.kind == BYE }

  /** The sender is about to transmit its front message. */
  predicate AtFront(s: State, e: Event) { e.SenderTurn? && s.pc == Logic && s.queue != [] }

  /** The sender looks at its queue. */
  predicate Filters(s: State, e: Event) { e.SenderTurn? && s.pc == Top && s.fsm != End }

  /** Nothing is left to transmit. */
  predicate Drained(cfg: Config, s: State) {
    if cfg.proto == UDP then AllDroppable(cfg, s.fsm, s.queue) else s.queue == []
  }

  predicate FrontFlag(s: State, flags: Flag) { s.queue != [] && s.queue[0].flags == flags }

  // ---------------------------------------------------------------------------
  //  What leads into each state
  // ---------------------------------------------------------------------------

  predicate Enters(cfg: Config, s: State, e: Event, to: Fsm) {
    match to
    case Start => EntersStart(cfg, s, e)
    case AuthWaiting => s.fsm == Start && AuthLine(e)
    case AuthSent => AtFront(s, e) && FrontFlag(s, FlagAuth) && (s.fsm == Start || s.fsm == AuthWaiting)
    case WaitReply => s.fsm == AuthSent && Confirmed(cfg, s, e)
    case WaitReplyConf => Replied(cfg, s, e, true)
    case Open => EntersOpen(cfg, s, e)
    case JoinAttempt => s.fsm == Open && AtFront(s, e) && s.queue[0].kind == JOIN
    case EmptyQueueBye => UserSteps.Reads(s.fsm) && (e.Eof? || ExitLine(e))
    case Error =>
      ServerFails(s, e) || (cfg.proto == UDP && Filters(s, e) && GivesUp(cfg, s.fsm, s.queue))
    case ErrorWaitConf => cfg.proto == UDP && s.fsm == Error && AtFront(s, e) && FrontFlag(s, FlagErr)
    case SigintBye => e.Sigint?
    case EndWaitConf => cfg.proto == UDP && Failed(s) && AtFront(s, e) && FrontFlag(s, FlagBye)
    case End => EntersEnd(cfg, s, e)
  }

  predicate Failed(s: State) { s.fsm == Error || s.fsm == ErrorWaitConf }

  /** The server rejects the AUTH. */
  predicate EntersStart(cfg: Config, s: State, e: Event) {
    || (Replied(cfg, s, e, false) && FrontFlag(s, FlagAuth))
    || (s.fsm == AuthSent && RepliedTcp(cfg, e, false))
  }

  /** The REPLY to AUTH is acknowledged, or a JOIN is answered. */
  predicate EntersOpen(cfg: Config, s: State, e: Event) {
    || (s.fsm == WaitReplyConf && AtFront(s, e) && s.queue[0].kind == CONF)
    || (s.fsm == AuthSent && RepliedTcp(cfg, e, true))
    || (s.fsm == JoinAttempt && Replied(cfg, s, e, false) && s.queue != [] && !FrontFlag(s, FlagAuth))
    || (s.fsm == JoinAttempt && (RepliedTcp(cfg, e, true) || RepliedTcp(cfg, e, false)))
  }

  /** The BYE is confirmed, out of retries, transmitted over TCP, or not needed; or everything is transmitted. */
  predicate EntersEnd(cfg: Config, s: State, e: Event) {
    || ServerLeaves(s, e)
    || (s.fsm == EndWaitConf && Confirmed(cfg, s, e))
    || (cfg.proto == UDP && s.fsm == EndWaitConf && Filters(s, e) && Exhausts(cfg, s.queue))
    || (cfg.proto == TCP && Failed(s) && AtFront(s, e) && FrontFlag(s, FlagBye))
    || ((s.fsm == EmptyQueueBye || s.fsm == SigintBye) && Filters(s, e) && Drained(cfg, s))
  }

  // ---------------------------------------------------------------------------
  //  The threads
  // ---------------------------------------------------------------------------

  lemma LineEnters(cfg: Config, s: State, e: Event, to: Fsm)
    requires !s.halted && to != s.fsm && (e.Line? || e.Eof? || e.Sigint?)
    ensures Step(cfg, s, e).fsm == to <==> Enters(cfg, s, e, to)
  {
    hide Tokenizer.Parse, PacketOf;
  }

  lemma ReplyEnters(cfg: Config, s: State, d: Datagram, to: Fsm)
    requires !s.halted && to != s.fsm
    ensures HandleReply(cfg, s, d).fsm == to <==>
      && (s.fsm == WaitReply || s.fsm == JoinAttempt)
      && if d.ok then to == WaitReplyConf
         else if FrontFlag(s, FlagAuth) then to == Start
         else s.queue != [] && s.fsm == JoinAttempt && to == Open
  {
    hide MsgId;
  }

  lemma FailureEnters(cfg: Config, s: State, d: Datagram)
    ensures ReceiveError(cfg, s, d).fsm == ReceiveUnknown(cfg, s, d).fsm == Error
  {
    hide PacketOf;
  }

  lemma DispatchEnters(cfg: Config, s: State, d: Datagram, repetitive: bool)
    ensures Dispatch(cfg, s, d, repetitive).fsm ==
      if d.kind == CONF then (if cfg.proto == UDP then HandleConfirm(cfg, s, d.id).fsm else s.fsm)
      else if d.kind == REPLY then
        if cfg.proto == TCP then HandleReplyTcp(s, d.ok).fsm
        else if repetitive then s.fsm
        else HandleReply(cfg, s, d).fsm
      else if d.kind == MSG then s.fsm
      else if d.kind == BYE then End
      else Error
  {
    hide HandleConfirm, HandleReply, HandleReplyTcp, ReceiveError, ReceiveUnknown;
    FailureEnters(cfg, s, d);
  }

  lemma ConfirmEnters(cfg: Config, s: State, id: Id, to: Fsm)
    requires to != s.fsm
    ensures HandleConfirm(cfg, s, id).fsm == to <==>
      && s.queue != [] && Accepts(cfg, s.queue[0], id)
      && ((s.fsm == AuthSent && to == WaitReply) || (s.fsm == EndWaitConf && to == End))
  {
    hide Accepts, MsgId;
  }

  /** The states that a message of the server leads into. */
  predicate Brings(cfg: Config, s: State, e: Event, to: Fsm) {
    || (Confirmed(cfg, s, e) && ((s.fsm == AuthSent && to == WaitReply) || (s.fsm == EndWaitConf && to == End)))
    || (Replied(cfg, s, e, true) && to == WaitReplyConf)
    || (Replied(cfg, s, e, false)
        && if FrontFlag(s, FlagAuth) then to == Start else s.queue != [] && s.fsm == JoinAttempt && to == Open)
    || (RepliedTcp(cfg, e, true) && (s.fsm == AuthSent || s.fsm == JoinAttempt) && to == Open)
    || (RepliedTcp(cfg, e, false)
        && ((s.fsm == AuthSent && to == Start) || (s.fsm == JoinAttempt && to == Open)))
    || (ServerFails(s, e) && to == Error)
    || (ServerLeaves(s, e) && to == End)
  }

  lemma EntersBrings(cfg: Config, s: State, d: Datagram, to: Fsm)
    ensures Enters(cfg, s, Receive(d), to) <==> Brings(cfg, s, Receive(d), to)
  {
    hide Confirmed, ServerFails, ServerLeaves, Exhausts;
  }

  lemma ReceiptEnters(cfg: Config, s: State, d: Datagram, to: Fsm)
    requires !s.halted && to != s.fsm
    ensures ReceiveStep(cfg, s, d).fsm == to <==> Enters(cfg, s, Receive(d), to)
  {
    hide HandleConfirm, HandleReply, Dispatch, Repetitive, MsgId, Accepts, Enters;
    EntersBrings(cfg, s, d, to);
    var repetitive := cfg.proto == UDP && Repetitive(cfg, s.seen, d);
    var u := if cfg.proto == UDP && !repetitive then s.(seen := s.seen + {Seen(d.kind, d.id)}) else s;
    DispatchEnters(cfg, u, d, repetitive);
    ReplyEnters(cfg, u, d, to);
    ConfirmEnters(cfg, u, d.id, to);
  }

  /** The state and the emptiness the filter leaves behind, by its queue. */
  lemma {:induction false} FilterLeaves(cfg: Config, s: State)
    requires !s.halted && s.pc == Top && Shape(cfg, s)
    ensures var t := Filter(cfg, s);
      t.fsm == if GivesUp(cfg, s.fsm, s.queue) then Error
               else if s.fsm == EndWaitConf && Exhausts(cfg, s.queue) then End
               else s.fsm
    ensures !Filter(cfg, s).halted && Filter(cfg, s).queue == [] && FilterCalm(cfg, s) ==>
      AllDroppable(cfg, s.fsm, s.queue)
    ensures AllDroppable(cfg, s.fsm, s.queue) ==> FilterCalm(cfg, s) && Filter(cfg, s).queue == []
    ensures GivesUp(cfg, s.fsm, s.queue) && !Filter(cfg, s).halted ==> Filter(cfg, s).queue != []
    decreases |s.queue|
  {
    hide Shape;
    if s.queue != [] {
      var m := s.queue[0];
      if m.sendCount > cfg.maxRetries && s.fsm == EndWaitConf {
        Shutdown.EndOnLast(cfg, s);
      } else if m.sendCount > cfg.maxRetries && s.fsm != ErrorWaitConf {
        TimeOutState(cfg, s);
      } else if m.sendCount > cfg.maxRetries || !Stops(m) {
        Shutdown.PopShape(cfg, s);
        FilterLeaves(cfg, PopFront(s));
        assert s.queue == [m] + PopFront(s).queue;
      }
    }
  }

  lemma TimeOutState(cfg: Config, s: State)
    ensures TimeOut(cfg, s).fsm == Error && (!TimeOut(cfg, s).halted ==> TimeOut(cfg, s).queue != [])
  {
    hide PacketOf;
  }

  lemma TopEnters(cfg: Config, s: State, to: Fsm)
    requires !s.halted && to != s.fsm && s.pc == Top && Shape(cfg, s)
    ensures SenderTop(cfg, s).fsm == to <==> Enters(cfg, s, SenderTurn, to)
  {
    hide Filter, Exhausts, Shape;
    FilterLeaves(cfg, s);
    FilterCalmExactly(cfg, s);
  }

  lemma LogicEnters(cfg: Config, s: State, to: Fsm)
    requires !s.halted && to != s.fsm && s.pc == Logic
    ensures SenderLogic(cfg, s).fsm == to <==> Enters(cfg, s, SenderTurn, to)
  {
    hide Transmit;
    forall u: State ensures Transmit(cfg, u).fsm == u.fsm { TransmitStays(cfg, u); }
  }

  lemma TransmitStays(cfg: Config, s: State)
    ensures Transmit(cfg, s).fsm == s.fsm
  {}

  // ---------------------------------------------------------------------------
  //  The whole machine
  // ---------------------------------------------------------------------------

  /** Exactly: a step leads into another state if and only if it is one of the events listed for that state. */
  lemma EntersExactly(cfg: Config, s: State, e: Event, to: Fsm)
    requires !s.halted && to != s.fsm && Shape(cfg, s)
    ensures Step(cfg, s, e).fsm == to <==> Enters(cfg, s, e, to)
  {
    hide ReceiveStep, SenderTop, SenderLogic, Transmit, Shape;
    match e {
      case Receive(d) => ReceiptEnters(cfg, s, d, to);
      case Garbled =>
      case SenderTurn =>
        TransmitStays(cfg, s);
        if s.pc == Top { TopEnters(cfg, s, to); }
        if s.pc == Logic { LogicEnters(cfg, s, to); }
      case _ =>
        hide Step;
        LineEnters(cfg, s, e, to);
    }
  }

  /** The same after every run. */
  lemma {:induction false} RunEntersExactly(cfg: Config, es: seq<Event>, e: Event, to: Fsm)
    requires !After(cfg, es).halted && to != After(cfg, es).fsm
    ensures After(cfg, es + [e]).fsm == to <==> Enters(cfg, After(cfg, es), e, to)
  {
    hide Step, Enters;
    RunShape(cfg, es);
    LostBye.AfterMore(cfg, es, e);
    EntersExactly(cfg, After(cfg, es), e, to);
  }
}
