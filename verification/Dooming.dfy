/**
 * Which events keep a closing client from ending. From a closing state that can still end, exactly three
 * kinds of events lead to one that cannot.
 */
module Dooming {
  import opened Basics
  import opened ChatProtocol
  import opened Primitives
  import opened Discipline
  import opened Reachability
  import opened ErrorShape
  import opened LostBye
  import opened Shutdown
  import opened Crashes
  import opened Safety
  import opened EndToEnd

  /** The BYE is alone, confirmed, and just about to be transmitted for the last time. */
  predicate LastChance(cfg: Config, s: State) {
    && |s.queue| == 1 && s.pc != Top && s.queue[0].flags == FlagBye && s.queue[0].confirmed
    && s.queue[0].sendCount == cfg.maxRetries
  }

  /** An acknowledgement goes to the front, and nothing else happens. */
  predicate Pushes(cfg: Config, s: State, d: Datagram) {
    d.kind == MSG || (d.kind == REPLY && Repetitive(cfg, s.seen, d))
  }

  /** The events after which the client cannot end by itself any more. */
  predicate Dooms(cfg: Config, s: State, e: Event) {
    !s.halted &&
    match e
    // the sender thread has left its loop, and nobody sends the new BYE
    case Sigint => s.pc == Gone
    case Receive(d) =>
      // the BYE is confirmed before it was sent, unless it is about to be sent for the only time
      || (ConfirmsUnsentBye(cfg, s, e) && !(s.pc != Top && cfg.maxRetries == 0))
      // an acknowledgement gets in front of a confirmed BYE about to be sent, which the filter then drops
      || (Handles(s, d) && Pushes(cfg, s, d) && InShutdown(s.fsm) && LastChance(cfg, s))
    case _ => false
  }

  /** After an ERR or an unknown message the client closes with a fresh BYE. */
  lemma FreshBye(cfg: Config, s: State, d: Datagram)
    requires !s.halted && s.pc != Gone && s.displayName.Some?
    ensures !Doomed(cfg, ReceiveError(cfg, s, d)) && !Doomed(cfg, ReceiveUnknown(cfg, s, d))
  {
    hide ReceiveError, ReceiveUnknown;
    ErrorLive(cfg, s, d);
    ErrorHalts(cfg, s, d);
    ErrorFront(cfg, s, d);
    FreshState(cfg, s, d);
  }

  lemma FreshState(cfg: Config, s: State, d: Datagram)
    ensures ReceiveError(cfg, s, d).fsm == ReceiveUnknown(cfg, s, d).fsm == Error
  {
    hide PacketOf;
  }

  lemma PushDooms(cfg: Config, s: State, d: Datagram)
    requires !Doomed(cfg, s) && s.fsm != End
    ensures Doomed(cfg, SendConfirm(s, d, FlagConfirm)) <==> InShutdown(s.fsm) && LastChance(cfg, s)
  {
    var t := SendConfirm(s, d, FlagConfirm);
    if s.queue != [] { assert t.queue[|t.queue| - 1] == s.queue[|s.queue| - 1]; }
  }

  lemma ConfirmDooms(cfg: Config, s: State, d: Datagram)
    requires !s.halted && !Doomed(cfg, s) && s.fsm != End && s.fsm.Closing() && Shape(cfg, s) && d.kind == CONF
    requires Handles(s, d)
    ensures Doomed(cfg, HandleConfirm(cfg, s, d.id))
      <==> ConfirmsUnsentBye(cfg, s, Receive(d)) && !(s.pc != Top && cfg.maxRetries == 0)
  {
    hide MsgId;
    var t := HandleConfirm(cfg, s, d.id);
    if s.queue != [] && Accepts(cfg, s.queue[0], d.id) && |s.queue| > 1 {
      assert t.queue[|s.queue| - 1] == s.queue[|s.queue| - 1];
    }
    if s.fsm == Error || s.fsm == ErrorWaitConf { ErrShapeFront(s.queue, s.fsm == Error); }
  }

  lemma SeenSame(cfg: Config, s: State, seen: set<Seen>)
    ensures var t := s.(seen := seen);
      (Doomed(cfg, t) <==> Doomed(cfg, s)) && (LastChance(cfg, t) <==> LastChance(cfg, s))
  {}

  lemma DispatchDooms(cfg: Config, s: State, d: Datagram, repetitive: bool)
    requires cfg.proto == UDP && !s.halted && !Doomed(cfg, s) && s.fsm != End && s.fsm.Closing() && Shape(cfg, s)
    requires s.displayName.Some? && Handles(s, d)
    ensures var confirms := ConfirmsUnsentBye(cfg, s, Receive(d)) && !(s.pc != Top && cfg.maxRetries == 0);
      var pushes := (d.kind == MSG || (d.kind == REPLY && repetitive)) && InShutdown(s.fsm) && LastChance(cfg, s);
      Doomed(cfg, Dispatch(cfg, s, d, repetitive)) <==> confirms || pushes
  {
    hide SendConfirm, HandleConfirm, HandleReply, ReceiveError, ReceiveUnknown, Shape, ByeAlive, LastChance;
    if d.kind == CONF {
      ConfirmDooms(cfg, s, d);
    } else {
      PushDooms(cfg, s, d);
      ReplyCloses(cfg, s, d);
      FreshBye(cfg, s, d);
      PrintedSame(cfg, SendConfirm(s, d, FlagConfirm), d);
      ConfirmGone(s, d);
    }
  }

  lemma PrintedSame(cfg: Config, s: State, d: Datagram)
    ensures Doomed(cfg, Print(s, d)) <==> Doomed(cfg, s)
  {}

  lemma ConfirmGone(s: State, d: Datagram)
    ensures SendConfirm(s, d, FlagConfirm).pc == s.pc && SendConfirm(s, d, FlagConfirm).fsm == s.fsm
  {}

  lemma ReceiptDooms(cfg: Config, s: State, d: Datagram)
    requires Closes(cfg, s) && !Doomed(cfg, s)
    ensures Doomed(cfg, ReceiveStep(cfg, s, d)) <==> Dooms(cfg, s, Receive(d))
  {
    hide Dispatch, Repetitive, Doomed, LastChance, Sound, Shape, SendReady;
    if Handles(s, d) {
      var repetitive := Repetitive(cfg, s.seen, d);
      var t := if repetitive then s else s.(seen := s.seen + {Seen(d.kind, d.id)});
      SeenSame(cfg, s, t.seen);
      SeenShape(cfg, s, t.seen);
      DispatchDooms(cfg, t, d, repetitive);
    }
  }

  lemma SeenShape(cfg: Config, s: State, seen: set<Seen>)
    requires Shape(cfg, s)
    ensures Shape(cfg, s.(seen := seen))
  {}

  lemma SenderDooms(cfg: Config, s: State)
    requires Closes(cfg, s) && !Doomed(cfg, s)
    ensures !Doomed(cfg, SenderStep(cfg, s))
  {
    if s.fsm == End {
      EndStays(cfg, s);
    } else {
      hide SenderStep, Closes;
      TurnCloses(cfg, s);
    }
  }

  lemma EndStays(cfg: Config, s: State)
    requires s.fsm == End
    ensures SenderStep(cfg, s).fsm == End
  {}

  lemma SigintDooms(cfg: Config, s: State)
    ensures Doomed(cfg, SigintStep(cfg, s)) <==> s.pc == Gone
  {
    hide PacketOf;
  }

  /** Exactly: a step takes a closing client that can end to one that cannot if and only if it is one of them. */
  lemma DoomedExactly(cfg: Config, s: State, e: Event)
    requires Closes(cfg, s) && !Doomed(cfg, s)
    ensures Doomed(cfg, Step(cfg, s, e)) <==> Dooms(cfg, s, e)
  {
    hide ReceiveStep, SenderStep, SigintStep, Sound, Shape, SendReady;
    match e {
      case Receive(d) => ReceiptDooms(cfg, s, d);
      case SenderTurn => SenderDooms(cfg, s);
      case Sigint => SigintDooms(cfg, s);
      case Garbled => hide ByeAlive;
      case _ =>
    }
  }

  // ---------------------------------------------------------------------------
  //  Whole runs
  // ---------------------------------------------------------------------------

  /** A closing client with a display name goes on closing, unless a garbled datagram ends the program. */
  lemma StepCloses(cfg: Config, s: State, e: Event)
    requires Closes(cfg, s)
    ensures Closes(cfg, Step(cfg, s, e)) || Step(cfg, s, e).halted
  {
    hide Step, Sound, Shape, SendReady;
    ClosingForEver(cfg, s, e);
    StepName(cfg, s, e);
    StepSound(cfg, s, e);
    StepShape(cfg, s, e);
  }

  /** From the state after `es`, no event of `more` dooms the client. */
  predicate NeverDooms(cfg: Config, es: seq<Event>, more: seq<Event>) {
    more == [] ||
    (var before := more[..|more| - 1];
     NeverDooms(cfg, es, before) && !Dooms(cfg, After(cfg, es + before), more[|more| - 1]))
  }

  lemma {:induction false} RunCloses(cfg: Config, es: seq<Event>, more: seq<Event>)
    requires Closes(cfg, After(cfg, es))
    ensures Closes(cfg, After(cfg, es + more)) || After(cfg, es + more).halted
    decreases |more|
  {
    hide Step, Closes;
    if more == [] {
      assert es + more == es;
    } else {
      var before, e := more[..|more| - 1], more[|more| - 1];
      RunCloses(cfg, es, before);
      assert es + more == es + before + [e];
      AfterMore(cfg, es + before, e);
      if After(cfg, es + before).halted {
        Ended(cfg, After(cfg, es + before), e);
      } else {
        StepCloses(cfg, After(cfg, es + before), e);
      }
    }
  }

  lemma Ended(cfg: Config, s: State, e: Event)
    requires s.halted
    ensures Step(cfg, s, e) == s && !Dooms(cfg, s, e)
  {}

  /**
   * Exactly, over the rest of a run that closes: the client can end after each of its events if and only if
   * none of them dooms it.
   */
  lemma {:induction false} CanEndExactly(cfg: Config, es: seq<Event>, more: seq<Event>)
    requires Closes(cfg, After(cfg, es)) && !Doomed(cfg, After(cfg, es))
    ensures NeverDooms(cfg, es, more)
      <==> forall k :: 0 <= k <= |more| ==> !Doomed(cfg, After(cfg, es + more[..k]))
    decreases |more|
  {
    hide Step, Closes, Dooms, Doomed;
    assert more[..|more|] == more;
    if more == [] {
      assert es + more == es;
    } else {
      var before, e := more[..|more| - 1], more[|more| - 1];
      CanEndExactly(cfg, es, before);
      assert forall k :: 0 <= k < |more| ==> more[..k] == before[..k];
      assert before[..|before|] == before && es + more == es + before + [e];
      AfterMore(cfg, es + before, e);
      RunCloses(cfg, es, before);
      if After(cfg, es + before).halted {
        Ended(cfg, After(cfg, es + before), e);
      } else if !Doomed(cfg, After(cfg, es + before)) {
        DoomedExactly(cfg, After(cfg, es + before), e);
      }
    }
  }
}
