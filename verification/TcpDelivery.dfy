/**
 * Delivery over TCP: every message that was ever enqueued is transmitted exactly once, in the order of
 * enqueueing, or still queued, unless one of a few events discards what is queued.
 */
module TcpDelivery {
  import opened Basics
  import opened ChatProtocol
  import opened Lifecycle
  import Tokenizer

  function Serials(q: seq<Msg>): seq<nat> { seq(|q|, i requires 0 <= i < |q| => q[i].serial) }

  function Upto(n: nat): seq<nat> { seq(n, i => i) }

  /** Transmitted messages and queued ones are all that were enqueued, in that order, each once. */
  predicate Complete(s: State) { Serials(s.log.sent) + Serials(s.queue) == Upto(s.log.next) }

  /** The events that take a message away without transmitting it. */
  predicate Discards(s: State, e: Event) {
    && !s.halted && s.queue != []
    && (|| e.Sigint?
        || ServerFails(s, e)
        || (s.fsm == Open && AtFront(s, e) && s.queue[0].kind == AUTH))
  }

  // ---------------------------------------------------------------------------
  //  One step
  // ---------------------------------------------------------------------------

  /** One more message at the end. */
  lemma AppendComplete(s: State, t: State, m: Msg)
    requires Complete(s) && t.queue == s.queue + [m] && m.serial == s.log.next
    requires t.log.sent == s.log.sent && t.log.next == s.log.next + 1
    ensures Complete(t)
  {
    assert Serials(t.queue) == Serials(s.queue) + [s.log.next];
    assert Upto(t.log.next) == Upto(s.log.next) + [s.log.next];
  }

  /** The front message goes out. */
  lemma SendComplete(s: State, t: State, out: Msg)
    requires Complete(s) && s.queue != [] && t.queue == s.queue[1..] && out.serial == s.queue[0].serial
    requires t.log.sent == s.log.sent + [out] && t.log.next == s.log.next
    ensures Complete(t)
  {
    assert Serials(t.log.sent) == Serials(s.log.sent) + [out.serial];
    assert Serials(s.queue) == [s.queue[0].serial] + Serials(t.queue);
  }

  /** A message is gone: the lengths do not fit any more, whatever is enqueued afterwards. */
  lemma TooFew(t: State)
    requires |t.log.sent| + |t.queue| < t.log.next
    ensures !Complete(t)
  {
    assert |Serials(t.log.sent) + Serials(t.queue)| == |t.log.sent| + |t.queue|;
  }

  lemma Lengths(s: State)
    requires Complete(s)
    ensures |s.log.sent| + |s.queue| == s.log.next
  {
    assert |Serials(s.log.sent) + Serials(s.queue)| == |s.log.sent| + |s.queue|;
  }

  lemma SameComplete(s: State, t: State)
    requires t.queue == s.queue && t.log.sent == s.log.sent && t.log.next == s.log.next
    ensures Complete(t) <==> Complete(s)
  {}

  lemma LineComplete(cfg: Config, s: State, line: seq<byte>)
    requires Complete(s) && !s.halted
    ensures Complete(Step(cfg, s, Line(line)))
  {
    hide Complete, Tokenizer.Parse, PacketOf;
    var t := Step(cfg, s, Line(line));
    if t.log.next == s.log.next { SameComplete(s, t); } else { AppendComplete(s, t, t.queue[|s.queue|]); }
  }

  lemma ByeComplete(cfg: Config, s: State)
    requires Complete(s)
    ensures Complete(SendBye(cfg, s))
  {
    hide Complete, PacketOf;
    var t := SendBye(cfg, s);
    AppendComplete(s, t, t.queue[|s.queue|]);
  }

  lemma FailureComplete(cfg: Config, s: State, d: Datagram)
    requires cfg.proto == TCP && Complete(s)
    ensures Complete(ReceiveError(cfg, s, d)) <==> s.queue == []
    ensures Complete(ReceiveUnknown(cfg, s, d)) <==> s.queue == []
  {
    hide Complete, PacketOf;
    Lengths(s);
    var t, u := ReceiveError(cfg, s, d), ReceiveUnknown(cfg, s, d);
    if s.queue == [] {
      ByeComplete(cfg, PopAll(s));
      SameComplete(PopAll(s), s);
      SameComplete(SendBye(cfg, PopAll(s)), t);
      var v := PopAll(s.(fsm := Error));
      SameComplete(s, v);
      if s.displayName.None? {
        SameComplete(v, u);
      } else {
        var w := SendError(cfg, v, d.id, UNKNOWN_FORMAT);
        AppendComplete(v, w, w.queue[0]);
        ByeComplete(cfg, w);
      }
    } else {
      TooFew(t);
      TooFew(u);
    }
  }

  lemma ReceiptComplete(cfg: Config, s: State, d: Datagram)
    requires cfg.proto == TCP && Complete(s) && !s.halted
    ensures Complete(ReceiveStep(cfg, s, d)) <==> !Discards(s, Receive(d))
  {
    hide Complete, ReceiveError, ReceiveUnknown;
    FailureComplete(cfg, s, d);
    var t := ReceiveStep(cfg, s, d);
    if !ServerFails(s, Receive(d)) { SameComplete(s, t); }
  }

  lemma TransmitComplete(cfg: Config, s: State)
    requires cfg.proto == TCP && Complete(s)
    ensures Complete(Transmit(cfg, s))
  {
    hide Complete;
    var t := Transmit(cfg, s);
    if s.queue == [] { SameComplete(s, t); } else { SendComplete(s, t, s.queue[0]); }
  }

  /** An AUTH in front of an open client is dropped. */
  lemma AuthDropped(cfg: Config, s: State)
    requires cfg.proto == TCP && Complete(s) && s.queue != []
    ensures !Complete(Transmit(cfg, PopFront(s)))
  {
    hide Complete;
    Lengths(s);
    TooFew(Transmit(cfg, PopFront(s)));
  }

  lemma LogicComplete(cfg: Config, s: State)
    requires cfg.proto == TCP && Complete(s) && !s.halted && s.pc == Logic
    ensures Complete(SenderLogic(cfg, s)) <==> !Discards(s, SenderTurn)
  {
    hide Complete, Transmit;
    if s.queue != [] {
      forall f: Fsm ensures Complete(Transmit(cfg, s.(fsm := f))) {
        SameComplete(s, s.(fsm := f));
        TransmitComplete(cfg, s.(fsm := f));
      }
      AuthDropped(cfg, s);
      assert s.(fsm := s.fsm) == s;
    }
    forall t: State ensures t.queue == s.queue && t.log == s.log ==> Complete(t) {
      if t.queue == s.queue && t.log == s.log { SameComplete(s, t); }
    }
  }

  lemma TurnComplete(cfg: Config, s: State)
    requires cfg.proto == TCP && Complete(s) && !s.halted
    ensures Complete(SenderStep(cfg, s)) <==> !Discards(s, SenderTurn)
  {
    hide Complete, SenderLogic, Transmit;
    match s.pc {
      case Logic => LogicComplete(cfg, s);
      case Wake => TransmitComplete(cfg, s);
      case _ => SameComplete(s, SenderStep(cfg, s));
    }
  }

  lemma SigintComplete(cfg: Config, s: State)
    requires Complete(s)
    ensures Complete(SigintStep(cfg, s)) <==> s.queue == []
  {
    hide Complete, PacketOf;
    Lengths(s);
    var t := SigintStep(cfg, s);
    if s.queue == [] { AppendComplete(s, t, t.queue[0]); } else { TooFew(t); }
  }

  /** Exactly: a step keeps the queue complete if and only if it discards nothing. */
  lemma StepComplete(cfg: Config, s: State, e: Event)
    requires cfg.proto == TCP && Complete(s)
    ensures Complete(Step(cfg, s, e)) <==> !Discards(s, e)
  {
    hide Complete, ReceiveStep, SenderStep, SigintStep, PacketOf, Tokenizer.Parse;
    if !s.halted {
      match e {
        case Line(line) => LineComplete(cfg, s, line);
        case Eof =>
          SameComplete(s, s.(fsm := EmptyQueueBye));
          ByeComplete(cfg, s.(fsm := EmptyQueueBye));
        case Receive(d) => ReceiptComplete(cfg, s, d);
        case Garbled =>
        case SenderTurn => TurnComplete(cfg, s);
        case Sigint => SigintComplete(cfg, s);
      }
    }
  }

  // ---------------------------------------------------------------------------
  //  Whole runs
  // ---------------------------------------------------------------------------

  predicate NeverDiscards(cfg: Config, es: seq<Event>) {
    es == [] ||
    (var before := es[..|es| - 1];
     NeverDiscards(cfg, before) && !Discards(After(cfg, before), es[|es| - 1]))
  }

  /**
   * Exactly: after every event of a run, transmitted and queued messages are all those ever enqueued, each once
   * and in order, if and only if no event of the run discards one.
   */
  lemma {:induction false} CompleteExactly(cfg: Config, es: seq<Event>)
    requires cfg.proto == TCP
    ensures NeverDiscards(cfg, es) <==> forall k :: 0 <= k <= |es| ==> Complete(After(cfg, es[..k]))
  {
    hide Step, Complete, Discards;
    assert es[..|es|] == es;
    if es == [] {
      InitComplete();
    } else {
      var before, e := es[..|es| - 1], es[|es| - 1];
      CompleteExactly(cfg, before);
      assert forall k :: 0 <= k < |es| ==> es[..k] == before[..k];
      assert before[..|before|] == before;
      if Complete(After(cfg, before)) { StepComplete(cfg, After(cfg, before), e); }
    }
  }

  lemma InitComplete()
    ensures Complete(Init())
  {
    assert Serials([]) + Serials([]) == Upto(0);
  }
}
