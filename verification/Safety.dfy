/** What the sending discipline means over whole runs, whatever the threads interleave. */
module Safety {
  import opened Basics
  import opened Formats
  import opened ChatProtocol
  import opened Primitives
  import opened Discipline
  import opened Reachability
  import opened LostBye
  import opened Shutdown
  import MessageIds
  import Tokenizer

  // ---------------------------------------------------------------------------
  //  Retries
  // ---------------------------------------------------------------------------

  /** No message is transmitted more than maxRetries + 1 times, and its 8-bit counter never wraps. */
  lemma {:induction false} RetryBound(cfg: Config, es: seq<Event>)
    requires cfg.maxRetries < 255
    ensures var s := After(cfg, es);
      && (forall k: nat :: Count(s.log.sent, k) <= cfg.maxRetries + 1)
      && (forall i :: 0 <= i < |s.queue| ==> s.queue[i].sendCount == Count(s.log.sent, s.queue[i].serial))
  {
    RunSound(cfg, es);
  }

  /** The BYE of a closing client, alone in the queue and unconfirmed. */
  predicate OneBye(s: State) {
    && !s.halted && s.fsm == EmptyQueueBye && s.pc == Top
    && |s.queue| == 1 && s.queue[0].kind == BYE && s.queue[0].flags == FlagBye && !s.queue[0].confirmed
  }

  lemma RetryTurn(cfg: Config, s: State)
    requires cfg.proto == UDP && cfg.maxRetries == 255 && OneBye(s)
    ensures var t := SenderStep(cfg, SenderStep(cfg, s));
      && OneBye(t) && t.queue[0].serial == s.queue[0].serial
      && Count(t.log.sent, s.queue[0].serial) == Count(s.log.sent, s.queue[0].serial) + 1
  {
    assert Filter(cfg, s) == s;
    var u := SenderStep(cfg, s);
    assert u == s.(pc := Logic);
    var out := s.queue[0].(data := Stamp(s.queue[0].data, s.counter));
    CountOne(s.log.sent, out, s.queue[0].serial);
  }

  lemma {:induction false} RetriesGoOn(cfg: Config, s: State, n: nat)
    requires cfg.proto == UDP && cfg.maxRetries == 255 && OneBye(s)
    ensures var t := Alone(cfg, s, 2 * n);
      && OneBye(t)
      && Count(t.log.sent, s.queue[0].serial) == Count(s.log.sent, s.queue[0].serial) + n
    decreases n
  {
    hide SenderStep;
    hide Count;
    if n > 0 {
      RetryTurn(cfg, s);
      var u := SenderStep(cfg, s);
      RetriesGoOn(cfg, SenderStep(cfg, u), n - 1);
      assert Alone(cfg, s, 2 * n) == Alone(cfg, u, 2 * n - 1) == Alone(cfg, SenderStep(cfg, u), 2 * (n - 1));
    }
  }

  /** The bound needs maxRetries < 255: with 255 the 8-bit counter never exceeds it and a BYE is sent for ever. */
  lemma {:induction false} NoBoundAt255(cfg: Config, n: nat)
    requires cfg.proto == UDP && cfg.maxRetries == 255
    ensures var t := Alone(cfg, Step(cfg, Init(), Eof), 2 * n);
      t.fsm == EmptyQueueBye && Count(t.log.sent, 0) == n
  {
    RetriesGoOn(cfg, Step(cfg, Init(), Eof), n);
  }

  // ---------------------------------------------------------------------------
  //  Stop and wait
  // ---------------------------------------------------------------------------

  /**
   * One message is in flight: before a queued message that has been transmitted there are only CONFIRMs;
   * it is the first message that is not a CONFIRM, or a CONFIRM that a positive REPLY reflagged.
   */
  lemma {:induction false} StopAndWait(cfg: Config, es: seq<Event>, j: nat)
    requires j < |After(cfg, es).queue| && After(cfg, es).queue[j].sendCount > 0
    ensures var q := After(cfg, es).queue;
      (forall i :: 0 <= i < j ==> q[i].IsConf()) && (q[j].IsConf() ==> q[j].flags == FlagConfirmed)
  {
    hide Step;
    var s := After(cfg, es);
    RunSound(cfg, es);
    assert MsgOk(s.queue[j]);
    forall i | 0 <= i < j ensures s.queue[i].IsConf() { }
  }

  /** Everything that is not a CONFIRM is first transmitted in the order in which it was enqueued. */
  lemma {:induction false} FirstTransmissionsInOrder(cfg: Config, es: seq<Event>, i: nat, j: nat)
    requires i < j < |After(cfg, es).log.sent|
    requires !After(cfg, es).log.sent[i].IsConf() && !After(cfg, es).log.sent[j].IsConf()
    ensures After(cfg, es).log.sent[i].serial <= After(cfg, es).log.sent[j].serial
  {
    RunSound(cfg, es);
  }

  // ---------------------------------------------------------------------------
  //  Acknowledgements
  // ---------------------------------------------------------------------------

  /** What a step adds to the causes: at most the datagram it receives. */
  predicate CausesGrow(s: State, t: State, e: Event) {
    || t.log.causes == s.log.causes
    || (e.Receive? && t.log.causes == s.log.causes[s.log.next := e.d])
  }

  lemma {:induction false} FilterHistory(cfg: Config, s: State)
    ensures var t := Filter(cfg, s);
      t.log.causes == s.log.causes && t.log.printed == s.log.printed && t.log.sent == s.log.sent && t.seen == s.seen
      && t.counter == s.counter
    decreases |s.queue|
  {
    if s.queue != [] {
      FilterHistory(cfg, PopFront(s));
      FilterHistory(cfg, PopFront(s.(fsm := End)));
    }
  }

  lemma ConfirmCauses(s: State, d: Datagram, flags: Flag)
    ensures SendConfirm(s, d, flags).log.causes == s.log.causes[s.log.next := d]
  {}

  lemma ReplyCauses(cfg: Config, s: State, d: Datagram)
    ensures var t := HandleReply(cfg, s, d);
      t.log.causes == s.log.causes || t.log.causes == s.log.causes[s.log.next := d]
  {}

  lemma ErrorCauses(cfg: Config, s: State, d: Datagram)
    ensures var t := ReceiveError(cfg, s, d);
      t.log.causes == s.log.causes || t.log.causes == s.log.causes[s.log.next := d]
    ensures var t := ReceiveUnknown(cfg, s, d);
      t.log.causes == s.log.causes || t.log.causes == s.log.causes[s.log.next := d]
  {}

  lemma HandleConfirmLog(cfg: Config, s: State, id: Id)
    ensures HandleConfirm(cfg, s, id).log == s.log
  {}

  lemma DispatchCauses(cfg: Config, s: State, d: Datagram, repetitive: bool)
    ensures var t := Dispatch(cfg, s, d, repetitive);
      t.log.causes == s.log.causes || t.log.causes == s.log.causes[s.log.next := d]
  {
    hide HandleConfirm;
    hide HandleReply;
    hide ReceiveError;
    hide ReceiveUnknown;
    hide SendConfirm;
    ConfirmCauses(s, d, FlagConfirm);
    ReplyCauses(cfg, s, d);
    ErrorCauses(cfg, s, d);
    HandleConfirmLog(cfg, s, d.id);
  }

  lemma ReceiveCauses(cfg: Config, s: State, d: Datagram)
    ensures var t := ReceiveStep(cfg, s, d);
      t.log.causes == s.log.causes || t.log.causes == s.log.causes[s.log.next := d]
  {
    hide Dispatch;
    hide Repetitive;
    DispatchCauses(cfg, s, d, Repetitive(cfg, s.seen, d));
    DispatchCauses(cfg, s, d, false);
    DispatchCauses(cfg, s.(seen := s.seen + {Seen(d.kind, d.id)}), d, false);
  }

  /** The outcomes of logicFSM and the transmission after it: stop, wait, or transmit a front message. */
  lemma LogicForm(cfg: Config, s: State) returns (f: Fsm, p: Pc)
    ensures var t := SenderLogic(cfg, s);
      || t == Halt(s) || t == s.(fsm := f, pc := p) || t == Transmit(cfg, s.(fsm := f))
      || (s.queue != [] && s.queue[0].kind == AUTH && t == Transmit(cfg, PopFront(s)))
  {
    hide Transmit;
    f, p := s.fsm, s.pc;
    if s.queue != [] {
      var m := s.queue[0];
      match s.fsm {
        case WaitReplyConf => f := if m.kind == CONF then Open else f;
        case Open => f := if m.kind == JOIN then JoinAttempt else f;
        case Error => f := ErrorForm(cfg, m, s.fsm);
        case ErrorWaitConf => f := ErrorForm(cfg, m, s.fsm);
        case EmptyQueueBye =>
        case JoinAttempt =>
        case SigintBye =>
        case EndWaitConf =>
        case End =>
        case _ =>
          f := if m.flags == FlagAuth && (s.fsm == Start || s.fsm == AuthWaiting) then AuthSent else f;
          p := if m.kind != AUTH && m.flags != FlagNokReply then Wake else p;
      }
    }
    assert s.(fsm := s.fsm) == s;
  }

  function ErrorForm(cfg: Config, m: Msg, f: Fsm): Fsm {
    if m.flags == FlagBye then (if cfg.proto == UDP then EndWaitConf else End)
    else if m.flags == FlagErr && cfg.proto == UDP then ErrorWaitConf
    else f
  }

  /** Nothing but a received datagram is remembered, printed or acknowledged. */
  predicate SameMemory(s: State, t: State) {
    t.seen == s.seen && t.log.printed == s.log.printed && t.log.causes == s.log.causes
  }

  /** Only the receiver remembers, prints or acknowledges. */
  lemma OtherSteps(cfg: Config, s: State, e: Event)
    requires !e.Receive?
    ensures SameMemory(s, Step(cfg, s, e))
  {
    hide SenderStep;
    hide PacketOf;
    hide Tokenizer.Parse;
    if e.SenderTurn? { SenderHistory(cfg, s); }
  }

  lemma SenderHistory(cfg: Config, s: State)
    ensures SameMemory(s, SenderStep(cfg, s))
  {
    hide SenderLogic;
    hide Filter;
    FilterHistory(cfg, s);
    LogicHistory(cfg, s);
  }

  lemma LogicHistory(cfg: Config, s: State)
    ensures SameMemory(s, SenderLogic(cfg, s))
  {
    hide SenderLogic;
    var f, p := LogicForm(cfg, s);
  }

  lemma StepCauses(cfg: Config, s: State, e: Event)
    ensures CausesGrow(s, Step(cfg, s, e), e)
  {
    hide ReceiveStep;
    match e {
      case Receive(d) => ReceiveCauses(cfg, s, d);
      case _ =>
        hide Step;
        OtherSteps(cfg, s, e);
    }
  }

  lemma {:induction false} CausesReceived(cfg: Config, es: seq<Event>, k: nat)
    requires k in After(cfg, es).log.causes
    ensures Receive(After(cfg, es).log.causes[k]) in es
  {
    hide Step;
    var before, e := es[..|es| - 1], es[|es| - 1];
    StepCauses(cfg, After(cfg, before), e);
    if k in After(cfg, before).log.causes && After(cfg, es).log.causes[k] == After(cfg, before).log.causes[k] {
      CausesReceived(cfg, before, k);
      assert before <= es;
    }
  }

  /** Every transmitted acknowledgement is the CONFIRM, byte for byte, of a datagram the run received. */
  lemma AcknowledgementIds(cfg: Config, es: seq<Event>, i: nat) returns (d: Datagram)
    requires i < |After(cfg, es).log.sent| && After(cfg, es).log.sent[i].IsAck()
    ensures Receive(d) in es && After(cfg, es).log.sent[i].data == UdpConfirm(d.id)
  {
    var s := After(cfg, es);
    RunSound(cfg, es);
    assert AckOk(s.log.sent[i], s.log.causes);
    d := s.log.causes[s.log.sent[i].serial];
    CausesReceived(cfg, es, s.log.sent[i].serial);
  }

  // ---------------------------------------------------------------------------
  //  Confirmations
  // ---------------------------------------------------------------------------

  /** The state after a CONFIRM was taken for the front message: it is marked, nothing else is. */
  predicate Marked(s: State, t: State) {
    && |t.queue| == |s.queue| > 0 && t.queue[0] == s.queue[0].(confirmed := true)
    && t.queue[1..] == s.queue[1..] && t.log == s.log
  }

  /**
   * A CONFIRM marks the front message if and only if that is an AUTH or holds the same two id bytes;
   * otherwise, and on an empty queue, it changes nothing at all.
   */
  lemma ConfirmMarks(cfg: Config, s: State, id: Id)
    ensures var t := HandleConfirm(cfg, s, id);
      if s.queue != [] && (s.queue[0].kind == AUTH || IdOf(s.queue[0].data) == id) then Marked(s, t)
      else t == s
  {
    hide MessageIds.Decode;
    if s.queue != [] {
      var front := IdOf(s.queue[0].data);
      if MsgId(cfg, id) == MsgId(cfg, front) {
        MessageIds.DecodeInjective(cfg.signedChar, id.low, id.high, front.low, front.high);
      }
    }
  }

  // ---------------------------------------------------------------------------
  //  Closing
  // ---------------------------------------------------------------------------

  lemma {:induction false} FilterCloses(cfg: Config, s: State)
    requires s.fsm.Closing()
    ensures Filter(cfg, s).fsm.Closing()
  {
    FilterStays(cfg, s);
  }

  /** A program that closes never goes back to work. */
  lemma ClosingForEver(cfg: Config, s: State, e: Event)
    requires s.fsm.Closing()
    ensures Step(cfg, s, e).fsm.Closing()
  {
    hide Filter;
    hide Dispatch;
    hide SenderLogic;
    hide Repetitive;
    match e {
      case Receive(d) =>
        DispatchCloses(cfg, s, d, Repetitive(cfg, s.seen, d));
        DispatchCloses(cfg, s, d, false);
        DispatchCloses(cfg, s.(seen := s.seen + {Seen(d.kind, d.id)}), d, false);
      case SenderTurn =>
        FilterCloses(cfg, s);
        LogicCloses(cfg, s);
      case _ =>
    }
  }

  lemma LogicCloses(cfg: Config, s: State)
    requires s.fsm.Closing()
    ensures SenderLogic(cfg, s).fsm.Closing()
  {}

  lemma ReplyCloses(cfg: Config, s: State, d: Datagram)
    requires s.fsm.Closing()
    ensures HandleReply(cfg, s, d) == s
  {}

  lemma ConfirmCloses(cfg: Config, s: State, id: Id)
    requires s.fsm.Closing()
    ensures HandleConfirm(cfg, s, id).fsm.Closing()
  {}

  lemma DispatchCloses(cfg: Config, s: State, d: Datagram, repetitive: bool)
    requires s.fsm.Closing()
    ensures Dispatch(cfg, s, d, repetitive).fsm.Closing()
  {
    hide HandleReply;
    hide HandleConfirm;
    ReplyCloses(cfg, s, d);
    ConfirmCloses(cfg, s, d.id);
  }

  /** The sender thread leaves its loop in END, and only SIGINT can wake the program up again. */
  predicate LeftAtEnd(s: State) { s.pc == Gone ==> s.fsm == End }

  lemma StepLeavesAtEnd(cfg: Config, s: State, e: Event)
    requires LeftAtEnd(s) && e != Sigint
    ensures LeftAtEnd(Step(cfg, s, e))
  {
    hide ReceiveStep, Filter, SenderLogic, Tokenizer.Parse, PacketOf;
    match e {
      case Line(line) =>
      case Receive(d) =>
        ReceiveFront(cfg, s, d);
        ReceiverEnds(cfg, s, d);
      case SenderTurn =>
        FilterStays(cfg, s);
        if s.pc == Logic { LogicPc(cfg, s); }
      case _ =>
    }
  }

  lemma ReceiverEnds(cfg: Config, s: State, d: Datagram)
    ensures s.fsm == End ==> ReceiveStep(cfg, s, d) == s
  {
    hide Dispatch;
  }

  lemma LogicPc(cfg: Config, s: State)
    requires s.pc != Gone
    ensures SenderLogic(cfg, s).pc != Gone
  {
    hide LogicStart, LogicError;
    if s.queue != [] { LogicPartsPc(cfg, s); }
  }

  lemma LogicPartsPc(cfg: Config, s: State)
    requires s.pc != Gone && s.queue != []
    ensures LogicStart(cfg, s).pc != Gone && LogicError(cfg, s).pc != Gone
  {}

  lemma {:induction false} GoneOnlyAfterSigint(cfg: Config, es: seq<Event>)
    ensures After(cfg, es).pc == Gone ==> After(cfg, es).fsm == End || Sigint in es
  {
    hide Step;
    if es != [] && Sigint !in es {
      var before := es[..|es| - 1];
      GoneOnlyAfterSigint(cfg, before);
      StepLeavesAtEnd(cfg, After(cfg, before), es[|es| - 1]);
    }
  }

  /**
   * A run without SIGINT, or whose sender thread is still in its loop, that never confirms an unsent BYE
   * ends, whatever closing state it is in, within the bound of the sender alone.
   */
  lemma {:induction false} CleanShutdown(cfg: Config, es: seq<Event>)
    requires cfg.proto == UDP && cfg.maxRetries < 255 && NeverConfirmsUnsentBye(cfg, es)
    requires var s := After(cfg, es); !s.halted && s.fsm.Closing() && s.displayName.Some?
    requires Sigint in es ==> After(cfg, es).pc != Gone
    ensures exists n: nat :: EndsWithin(cfg, After(cfg, es), n)
  {
    RunLive(cfg, es);
    GoneOnlyAfterSigint(cfg, es);
    BoundedShutdown(cfg, es);
  }
}
