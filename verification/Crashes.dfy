/**
 * When the program ends abnormally. A reachable state halts in a step exactly where one of the listed
 * conditions holds; one of them is met in an ordinary session.
 */
module Crashes {
  import opened Basics
  import opened Commands
  import opened Formats
  import opened ChatProtocol
  import opened Primitives
  import opened Reachability
  import opened ErrorShape
  import opened LostBye
  import opened Shutdown
  import opened Runs
  import Decoding
  import Scanning
  import Recognition
  import Tokenizer

  /** A datagram that ends the program. */
  predicate FatalDatagram(cfg: Config, s: State, d: Datagram) {
    Handles(s, d) &&
    var kind := MsgTypeOf(d.kind);
    // a CONFIRM over TCP
    || (kind == CONF && cfg.proto == TCP)
    // a negative REPLY while nothing is queued, whose flags would be read
    || (kind == REPLY && cfg.proto == UDP && !Repetitive(cfg, s.seen, d) && !d.ok && s.queue == []
        && (s.fsm == WaitReply || s.fsm == JoinAttempt))
    // an unknown message, answered with an ERR, before there is a display name to put into it
    || (kind !in {CONF, REPLY, MSG, BYE, ERR} && s.displayName.None?)
  }

  /** A turn of the sender that ends the program. */
  predicate FatalTurn(cfg: Config, s: State) {
    // a time-out before there is a display name for the ERR
    || (s.pc == Top && s.fsm != End && cfg.proto == UDP && s.displayName.None? && GivesUp(cfg, s.fsm, s.queue))
    // an AUTH alone in the queue of an open client: it is dropped, and nothing is left to send
    || (s.pc == Logic && s.fsm == Open && |s.queue| == 1 && s.queue[0].kind == AUTH)
  }

  predicate Fatal(cfg: Config, s: State, e: Event) {
    match e
    case Receive(d) => FatalDatagram(cfg, s, d)
    // a datagram with an empty field, unless the receiver has stopped
    case Garbled => cfg.proto == UDP && s.fsm != End
    case SenderTurn => FatalTurn(cfg, s)
    case _ => false
  }

  lemma {:induction false} FilterHalts(cfg: Config, s: State)
    requires !s.halted && s.pc == Top && Shape(cfg, s)
    ensures Filter(cfg, s).halted <==> s.displayName.None? && GivesUp(cfg, s.fsm, s.queue)
    decreases |s.queue|
  {
    if s.queue != [] {
      if s.queue[0].sendCount > cfg.maxRetries && s.fsm == EndWaitConf {
        EndOnLast(cfg, s);
      } else {
        hide Shape;
        PopShape(cfg, s);
        FilterHalts(cfg, PopFront(s));
      }
    }
  }

  lemma LogicHalts(cfg: Config, s: State)
    requires !s.halted && s.pc == Logic && SendReady(cfg, s) && Shape(cfg, s)
    ensures SenderLogic(cfg, s).halted <==> s.fsm == Open && |s.queue| == 1 && s.queue[0].kind == AUTH
  {
    hide LogicError;
    hide Shape;
    if s.fsm == Error || s.fsm == ErrorWaitConf { LogicErrorShape(cfg, s); }
  }

  lemma ReceiveHalts(cfg: Config, s: State, d: Datagram)
    requires !s.halted
    ensures ReceiveStep(cfg, s, d).halted <==> FatalDatagram(cfg, s, d)
  {
    hide Repetitive;
    if Handles(s, d) {
      var repetitive := cfg.proto == UDP && Repetitive(cfg, s.seen, d);
      var t := if cfg.proto == TCP || repetitive then s else s.(seen := s.seen + {Seen(d.kind, d.id)});
      DispatchHalts(cfg, t, d, repetitive);
    }
  }

  lemma DispatchHalts(cfg: Config, s: State, d: Datagram, repetitive: bool)
    requires !s.halted && (cfg.proto == TCP ==> !repetitive)
    ensures var kind := MsgTypeOf(d.kind);
      Dispatch(cfg, s, d, repetitive).halted <==>
        || (kind == CONF && cfg.proto == TCP)
        || (kind == REPLY && cfg.proto == UDP && !repetitive && !d.ok && s.queue == []
            && (s.fsm == WaitReply || s.fsm == JoinAttempt))
        || (kind !in {CONF, REPLY, MSG, BYE, ERR} && s.displayName.None?)
  {
    hide HandleReply;
    hide ReceiveUnknown;
    hide ReceiveError;
    ReplyHalts(cfg, s, d);
    ErrorHalts(cfg, s, d);
  }

  lemma ReplyHalts(cfg: Config, s: State, d: Datagram)
    requires !s.halted
    ensures HandleReply(cfg, s, d).halted <==>
      !d.ok && s.queue == [] && (s.fsm == WaitReply || s.fsm == JoinAttempt)
  {}

  lemma ErrorHalts(cfg: Config, s: State, d: Datagram)
    requires !s.halted
    ensures !ReceiveError(cfg, s, d).halted
    ensures ReceiveUnknown(cfg, s, d).halted <==> s.displayName.None?
  {}

  lemma StepHalts(cfg: Config, s: State, e: Event)
    requires !s.halted && SendReady(cfg, s) && Shape(cfg, s)
    ensures Step(cfg, s, e).halted <==> Fatal(cfg, s, e)
  {
    hide ReceiveStep;
    hide SenderLogic;
    hide Filter;
    hide Shape;
    match e {
      case Receive(d) => ReceiveHalts(cfg, s, d);
      case SenderTurn =>
        if s.pc == Top { FilterHalts(cfg, s); }
        if s.pc == Logic { LogicHalts(cfg, s); }
      case _ =>
    }
  }

  /** Over every run: the next step ends the program abnormally if and only if it is fatal. */
  lemma {:induction false} HaltsExactly(cfg: Config, es: seq<Event>, e: Event)
    requires !After(cfg, es).halted
    ensures After(cfg, es + [e]).halted <==> Fatal(cfg, After(cfg, es), e)
  {
    hide Step;
    hide Fatal;
    RunSound(cfg, es);
    RunShape(cfg, es);
    AfterMore(cfg, es, e);
    StepHalts(cfg, After(cfg, es), e);
  }

  /** The bytes of a UDP datagram that ends the program, unless the receiver has stopped. */
  predicate FatalBytes(cfg: Config, s: State, data: seq<byte>)
    requires Decoding.WholeDatagram(data)
  {
    s.fsm != End &&
    var e := DatagramEvent(cfg, data);
    Decoding.EmptyField(data) || (e.Receive? && FatalDatagram(cfg, s, e.d))
  }

  /** The same for a received UDP datagram, from its bytes on. */
  lemma {:induction false} HaltsOnBytes(cfg: Config, es: seq<Event>, data: seq<byte>)
    requires cfg.proto == UDP && !After(cfg, es).halted && Decoding.WholeDatagram(data)
    ensures After(cfg, es + [DatagramEvent(cfg, data)]).halted <==> FatalBytes(cfg, After(cfg, es), data)
  {
    hide Step, FatalDatagram, Decoding.EmptyField, Decoding.UdpDecode;
    var s, e := After(cfg, es), DatagramEvent(cfg, data);
    Decoding.DecodeFails(cfg.signedChar, data);
    HaltsExactly(cfg, es, e);
    if e.Receive? { EndIsSafe(cfg, s, e.d); }
  }

  lemma EndIsSafe(cfg: Config, s: State, d: Datagram)
    ensures s.fsm == End ==> !FatalDatagram(cfg, s, d)
  {}

  // ---------------------------------------------------------------------------
  //  An ordinary run that crashes
  // ---------------------------------------------------------------------------

  /** An authenticated client with nothing to send. */
  predicate Idle(s: State) {
    !s.halted && s.fsm == Open && s.pc == Top && s.queue == [] && s.displayName.Some?
  }

  function JoinLine(channel: seq<byte>): seq<byte> { Tokenizer.JOIN_CMD + [Scanning.SPACE] + channel }

  /** The user's /join is queued. */
  lemma JoinQueued(cfg: Config, s: State, channel: seq<byte>)
    requires Idle(s) && ValidWord(channel, 20, Credential)
    ensures var t := Step(cfg, s, Line(JoinLine(channel)));
      && !t.halted && t.fsm == Open && t.pc == Top && t.seen == s.seen
      && |t.queue| == 1 && t.queue[0].kind == JOIN && t.queue[0].sendCount == 0
      && t.queue[0].flags == FlagNone && !t.queue[0].confirmed
  {
    hide Tokenizer.Parse;
    hide ValidWord;
    Recognition.ArgumentRecognised([Scanning.SPACE], channel);
  }

  /** ... and sent. */
  lemma JoinSent(cfg: Config, s: State, channel: seq<byte>)
    requires cfg.proto == UDP && Idle(s) && ValidWord(channel, 20, Credential)
    ensures var t := Step(cfg, Step(cfg, Step(cfg, s, Line(JoinLine(channel))), SenderTurn), SenderTurn);
      && !t.halted && t.fsm == JoinAttempt && t.pc == Top && t.seen == s.seen
      && |t.queue| == 1 && t.queue[0].kind == JOIN && t.queue[0].sendCount == 1
      && t.queue[0].flags == FlagNone && !t.queue[0].confirmed
  {
    hide MainLine;
    hide ValidWord;
    JoinQueued(cfg, s, channel);
    var t := Step(cfg, s, Line(JoinLine(channel)));
    assert Filter(cfg, t) == t;
    assert Step(cfg, t, SenderTurn) == t.(pc := Logic);
  }

  /** Its CONFIRM arrives and the filter drops it, which leaves the queue empty. */
  lemma JoinConfirmed(cfg: Config, s: State)
    requires cfg.proto == UDP && cfg.maxRetries > 0 && !s.halted && s.fsm == JoinAttempt && s.pc == Top
    requires |s.queue| == 1 && s.queue[0].flags == FlagNone && s.queue[0].sendCount == 1
    ensures var t := Step(cfg, Step(cfg, s, Receive(Datagram(CONF, IdOf(s.queue[0].data), false))), SenderTurn);
      && !t.halted && t.fsm == JoinAttempt && t.queue == []
      && forall x :: x in t.seen && x.kind == REPLY ==> x in s.seen
  {
    hide Repetitive;
    var t := Step(cfg, s, Receive(Datagram(CONF, IdOf(s.queue[0].data), false)));
    assert t.queue == [s.queue[0].(confirmed := true)];
    assert Filter(cfg, t) == Filter(cfg, PopFront(t)) == PopFront(t);
  }

  /**
   * A rejected JOIN crashes the client: once its CONFIRM has been taken and the filter has run, the
   * negative REPLY finds an empty queue. It happens from every idle state, for every channel.
   */
  lemma RejectedJoinCrashes(cfg: Config, s: State, channel: seq<byte>, d: Datagram) returns (es: seq<Event>)
    requires cfg.proto == UDP && cfg.maxRetries > 0 && Idle(s) && ValidWord(channel, 20, Credential)
    requires d.kind == REPLY && !d.ok && !Repetitive(cfg, s.seen, d)
    ensures |es| == 6 && es[..3] == [Line(JoinLine(channel)), SenderTurn, SenderTurn] && es[5] == Receive(d)
    ensures Steps(cfg, s, es).halted && !Steps(cfg, s, es[..5]).halted
  {
    hide Step;
    hide Repetitive;
    var s3 := Step(cfg, Step(cfg, Step(cfg, s, Line(JoinLine(channel))), SenderTurn), SenderTurn);
    JoinSent(cfg, s, channel);
    JoinConfirmed(cfg, s3);
    var s4 := Step(cfg, s3, Receive(Datagram(CONF, IdOf(s3.queue[0].data), false)));
    var s5 := Step(cfg, s4, SenderTurn);
    NotRepetitive(cfg, s5.seen, s.seen, d);
    ReplyCrashes(cfg, s5, d);
    var five := [Line(JoinLine(channel)), SenderTurn, SenderTurn,
                 Receive(Datagram(CONF, IdOf(s3.queue[0].data), false)), SenderTurn];
    es := five + [Receive(d)];
    Three(cfg, s, five[0], five[1], five[2]);
    Two(cfg, s3, five[3], five[4]);
    StepsJoin(cfg, s, five[..3], five[3..]);
    assert five[..3] + five[3..] == five && five[..3] == [five[0], five[1], five[2]];
    OneMore(cfg, s, five, Receive(d));
    assert es[..5] == five;
  }

  lemma ReplyCrashes(cfg: Config, s: State, d: Datagram)
    requires cfg.proto == UDP && !s.halted && s.fsm == JoinAttempt && s.queue == []
    requires d.kind == REPLY && !d.ok && !Repetitive(cfg, s.seen, d)
    ensures Step(cfg, s, Receive(d)).halted
  {
    hide Repetitive;
    hide Dispatch;
    ReceiveHalts(cfg, s, d);
  }

  lemma NotRepetitive(cfg: Config, seen: set<Seen>, before: set<Seen>, d: Datagram)
    requires d.kind == REPLY && !Repetitive(cfg, before, d)
    requires forall x :: x in seen && x.kind == REPLY ==> x in before
    ensures !Repetitive(cfg, seen, d)
  {}
}
