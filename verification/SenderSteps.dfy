/** What each turn of the sender does, exactly: when it transmits, which message, with which bytes. */
module SenderSteps {
  import opened Basics
  import opened Formats
  import opened ChatProtocol
  import opened IdsInUse
  import opened Lifecycle
  import opened Reachability
  import opened Safety
  import opened Waiting
  import MessageIds

  /** logicFSM lets the front message pass, in the states in which it looks at it. */
  predicate Passes(f: Fsm, m: Msg) {
    if Authenticating(f) then
      // an AUTH that still waits for its confirmation, or the CONFIRM of a rejection
      if m.kind == AUTH then !(m.confirmed && m.sendCount > 0) else m.flags == FlagNokReply
    else if f == Error || f == ErrorWaitConf then m.flags in {FlagBye, FlagErr, FlagConfirm}
    else true
  }

  /** The message that a turn transmits: the front, or the one behind an AUTH that an open client drops. */
  function Chosen(s: State): seq<Msg> {
    if s.pc == Wake then s.queue
    else if s.pc != Logic || s.queue == [] || !Passes(s.fsm, s.queue[0]) then []
    else if s.fsm == Open && s.queue[0].kind == AUTH then s.queue[1..]
    else s.queue
  }

  /** It goes out as it is queued, but over UDP a message that is no acknowledgement gets the counter as its id. */
  predicate GoesOut(cfg: Config, s: State, m: Msg, out: Msg) {
    if cfg.proto == TCP || m.flags in {FlagConfirm, FlagNokReply} then out == m
    else
      && out == m.(data := out.data) && IdOf(out.data) == IdFor(s.counter)
      && |out.data| == |m.data| && out.data[0] == m.data[0] && out.data[3..] == m.data[3..]
  }

  /** Over TCP and for acknowledgements it leaves the queue; any other message is kept to be sent again. */
  predicate Remains(cfg: Config, rest: seq<Msg>, out: Msg, t: State)
    requires rest != []
  {
    if cfg.proto == TCP || out.flags in {FlagConfirm, FlagNokReply, FlagDoNotResend} then t.queue == rest[1..]
    else t.queue == [out.(sendCount := (out.sendCount + 1) % 256)] + rest[1..]
  }

  lemma TransmitExactly(cfg: Config, s: State)
    requires s.queue != []
    ensures var t := Transmit(cfg, s);
      && |t.log.sent| == |s.log.sent| + 1 && t.log.sent[..|s.log.sent|] == s.log.sent
      && GoesOut(cfg, s, s.queue[0], t.log.sent[|s.log.sent|])
      && Remains(cfg, s.queue, t.log.sent[|s.log.sent|], t)
      && t.counter == (if cfg.proto == TCP then MessageIds.Following(s.counter) else s.counter)
      && t.pc == Top && t.halted == s.halted
  {
    hide Stamp;
    StampExactly(s.queue[0].data, s.counter);
  }

  /** Only the two id bytes are replaced. */
  lemma StampExactly(p: Packet, c: u16)
    ensures var out := Stamp(p, c);
      IdOf(out) == IdFor(c) && |out| == |p| && out[0] == p[0] && out[3..] == p[3..]
  {}

  lemma ChosenExactly(cfg: Config, s: State)
    requires !s.halted && s.pc == Logic
    ensures var t := SenderLogic(cfg, s);
      if Chosen(s) == [] then t.log == s.log
      else exists f: Fsm :: t == Transmit(cfg, s.(fsm := f, queue := Chosen(s)))
  {
    hide Transmit;
    assert s.(queue := s.queue) == s;
    if s.queue != [] {
      var f, p := LogicForm(cfg, s);
      assert s.(fsm := f) == s.(fsm := f, queue := s.queue);
      assert PopFront(s) == s.(fsm := s.fsm, queue := s.queue[1..]);
      EmptyTransmit(cfg, PopFront(s));
    }
  }

  lemma EmptyTransmit(cfg: Config, s: State)
    ensures s.queue == [] ==> Transmit(cfg, s) == Halt(s)
  {}

  /** Exactly when a turn transmits, what goes out, and what remains. */
  lemma TurnExactly(cfg: Config, s: State)
    requires !s.halted
    ensures var t := Step(cfg, s, SenderTurn);
      if Chosen(s) == [] then t.log.sent == s.log.sent
      else
        && |t.log.sent| == |s.log.sent| + 1 && t.log.sent[..|s.log.sent|] == s.log.sent
        && GoesOut(cfg, s, Chosen(s)[0], t.log.sent[|s.log.sent|])
        && Remains(cfg, Chosen(s), t.log.sent[|s.log.sent|], t)
        && t.counter == (if cfg.proto == TCP then MessageIds.Following(s.counter) else s.counter)
        && t.pc == Top && !t.halted
  {
    hide SenderLogic, Transmit, Filter, GoesOut, Remains;
    match s.pc {
      case Top => FilterHistory(cfg, s);
      case Wake =>
        EmptyTransmit(cfg, s);
        if s.queue != [] { TransmitExactly(cfg, s); }
      case Logic =>
        ChosenExactly(cfg, s);
        if Chosen(s) != [] {
          var f: Fsm :| SenderLogic(cfg, s) == Transmit(cfg, s.(fsm := f, queue := Chosen(s)));
          TransmitExactly(cfg, s.(fsm := f, queue := Chosen(s)));
          var out := Step(cfg, s, SenderTurn).log.sent[|s.log.sent|];
          GoesOutSame(cfg, s, s.(fsm := f, queue := Chosen(s)), Chosen(s)[0], out);
        }
      case Gone =>
    }
  }

  /** A client that holds something to send, and is not at its end, comes to logicFSM. */
  predicate Ready(s: State, t: State) {
    t.queue != [] && !t.halted && s.fsm != End && (s.fsm == EndWaitConf ==> t.fsm == EndWaitConf)
  }

  /**
   * Exactly where a turn leaves the sender thread: out of the loop in END; at logicFSM with something to send;
   * there still while a confirmed AUTH waits, in the unchecked wait before any other message that may not pass;
   * and at the top of the loop otherwise.
   */
  lemma PlaceExactly(cfg: Config, s: State)
    requires !s.halted && !Step(cfg, s, SenderTurn).halted
    ensures var t := Step(cfg, s, SenderTurn);
      t.pc == match s.pc
        case Top => if s.fsm == End then Gone else if Ready(s, t) then Logic else Top
        case Logic =>
          if s.queue != [] && Authenticating(s.fsm) && !Passes(s.fsm, s.queue[0])
          then (if s.queue[0].kind == AUTH then Logic else Wake) else Top
        case Wake => Top
        case Gone => Gone
  {
    hide Filter;
    FilterStays(cfg, s);
  }

  lemma GoesOutSame(cfg: Config, s: State, u: State, m: Msg, out: Msg)
    requires u.counter == s.counter && GoesOut(cfg, u, m, out)
    ensures GoesOut(cfg, s, m, out)
  {}
}
