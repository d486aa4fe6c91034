/** The discipline holds in every reachable state; the main safety theorems about whole runs. */
module Reachability {
  import opened Basics
  import opened Commands
  import opened Formats
  import opened ChatProtocol
  import opened Primitives
  import opened Discipline
  import Tokenizer

  // ---------------------------------------------------------------------------
  //  The front stays ready between the filter and the transmission
  // ---------------------------------------------------------------------------

  /** Other threads may put messages before or behind the front, replace the queue, or mark the front. */
  predicate FrontKept(cfg: Config, s: State, t: State) {
    t.pc == s.pc && (t.halted || (FrontReady(cfg, s.queue) ==> FrontReady(cfg, t.queue)))
  }

  lemma MainFront(cfg: Config, s: State, c: Command)
    ensures FrontKept(cfg, s, RunCommand(cfg, s, c))
  {}

  lemma ReplyFront(cfg: Config, s: State, d: Datagram)
    ensures FrontKept(cfg, s, HandleReply(cfg, s, d))
  {}

  lemma ConfirmFront(cfg: Config, s: State, id: Id)
    ensures FrontKept(cfg, s, HandleConfirm(cfg, s, id))
  {}

  lemma ErrorFront(cfg: Config, s: State, d: Datagram)
    ensures FrontKept(cfg, s, ReceiveError(cfg, s, d))
    ensures FrontKept(cfg, s, ReceiveUnknown(cfg, s, d))
  {}

  lemma DispatchFront(cfg: Config, s: State, d: Datagram, repetitive: bool)
    ensures FrontKept(cfg, s, Dispatch(cfg, s, d, repetitive))
  {
    hide HandleConfirm;
    hide HandleReply;
    hide ReceiveError;
    hide ReceiveUnknown;
    ReplyFront(cfg, s, d);
    ConfirmFront(cfg, s, d.id);
    ErrorFront(cfg, s, d);
  }

  lemma ReceiveFront(cfg: Config, s: State, d: Datagram)
    ensures FrontKept(cfg, s, ReceiveStep(cfg, s, d))
  {
    DispatchFront(cfg, s, d, Repetitive(cfg, s.seen, d));
    DispatchFront(cfg, s, d, false);
    DispatchFront(cfg, s.(seen := s.seen + {Seen(d.kind, d.id)}), d, false);
  }

  /** A message the filter may drop: rejected, confirmed and not an AUTH, or out of retries after an ERR. */
  predicate Droppable(cfg: Config, fsm: Fsm, m: Msg) {
    if m.sendCount > cfg.maxRetries then fsm == ErrorWaitConf
    else m.flags == FlagRejected || (m.confirmed && m.flags != FlagAuth)
  }

  predicate AllDroppable(cfg: Config, fsm: Fsm, q: seq<Msg>) {
    forall i :: 0 <= i < |q| ==> Droppable(cfg, fsm, q[i])
  }

  /** The filter comes to an exhausted message, behind messages it drops. */
  predicate Exhausts(cfg: Config, q: seq<Msg>)
    decreases |q|
  {
    q != [] && (q[0].sendCount > cfg.maxRetries || (!Stops(q[0]) && Exhausts(cfg, q[1..])))
  }

  /** It then answers with ERR and BYE, except where it waits for a confirmation of one of them. */
  predicate GivesUp(cfg: Config, fsm: Fsm, q: seq<Msg>) {
    fsm != ErrorWaitConf && fsm != EndWaitConf && Exhausts(cfg, q)
  }

  /** The filter will neither time out nor end the program. */
  predicate FilterCalm(cfg: Config, s: State) { s.fsm == ErrorWaitConf || !Exhausts(cfg, s.queue) }

  /** Exactly: that is when it leaves state, crash and serial numbers as they are. */
  lemma {:induction false} FilterCalmExactly(cfg: Config, s: State)
    requires !s.halted
    ensures var t := Filter(cfg, s);
      FilterCalm(cfg, s) <==> t.fsm == s.fsm && t.halted == s.halted && t.log.next == s.log.next
    decreases |s.queue|
  {
    if s.queue != [] {
      TimeOutLoud(cfg, s);
      FilterStays(cfg, PopFront(s.(fsm := End)));
      FilterCalmExactly(cfg, PopFront(s));
    }
  }

  /** The filter never returns to the state in which it waits for the confirmation of BYE. */
  lemma {:induction false} FilterStays(cfg: Config, s: State)
    ensures Filter(cfg, s).fsm in {s.fsm, End, Error} && Filter(cfg, s).pc == s.pc
    ensures Filter(cfg, s).log.next >= s.log.next
    decreases |s.queue|
  {
    if s.queue != [] {
      FilterStays(cfg, PopFront(s));
      FilterStays(cfg, PopFront(s.(fsm := End)));
    }
  }

  /** The message the filter leaves at the front has retries left and is an AUTH or unconfirmed. */
  lemma {:induction false} FilterStops(cfg: Config, s: State)
    ensures var t := Filter(cfg, s);
      t.queue != [] && !t.halted ==> t.queue[0].sendCount <= cfg.maxRetries && Stops(t.queue[0])
    decreases |s.queue|
  {
    if s.queue != [] {
      FilterStops(cfg, PopFront(s));
      FilterStops(cfg, PopFront(s.(fsm := End)));
    }
  }

  /**
   * Specification of the filter: unless it times out or ends the program, all it does is to drop a prefix
   * of droppable messages.
   */
  lemma {:induction false} FilterDrops(cfg: Config, s: State) returns (k: nat)
    requires !s.halted && FilterCalm(cfg, s)
    ensures k <= |s.queue| && Filter(cfg, s) == s.(queue := s.queue[k..])
    ensures AllDroppable(cfg, s.fsm, s.queue[..k])
    decreases |s.queue|
  {
    k := 0;
    if s.queue != [] {
      var m := s.queue[0];
      if m.sendCount > cfg.maxRetries || !Stops(m) {
        var r := FilterDrops(cfg, PopFront(s));
        k := r + 1;
        assert s.queue[1..][r..] == s.queue[k..];
        assert s.queue[..k] == [m] + s.queue[1..][..r];
      }
    }
  }

  /** A time-out is visible: it ends the program or enqueues ERR and BYE. */
  lemma TimeOutLoud(cfg: Config, s: State)
    ensures TimeOut(cfg, s).halted || TimeOut(cfg, s).log.next == s.log.next + 2
    ensures s.displayName.None? ==> TimeOut(cfg, s).halted
  {}

  lemma LogicFront(cfg: Config, s: State)
    requires !s.halted && s.pc == Logic && SendReady(cfg, s)
    ensures var t := SenderLogic(cfg, s); t.halted || t.pc == Top || FrontReady(cfg, t.queue)
  {}

  lemma StepReady(cfg: Config, s: State, e: Event)
    requires Sound(cfg, s) && SendReady(cfg, s) && Ordered(Step(cfg, s, e))
    ensures SendReady(cfg, Step(cfg, s, e))
  {
    var t := Step(cfg, s, e);
    if !s.halted {
      match e {
        case Line(line) =>
          if Tokenizer.Tokenizable(line) { MainFront(cfg, s, Tokenizer.Parse(line)); }
        case Eof =>
        case Receive(d) => ReceiveFront(cfg, s, d);
        case Garbled =>
        case SenderTurn =>
          if s.pc == Top { FilterStops(cfg, s); FilterStays(cfg, s); }
          if s.pc == Logic { LogicFront(cfg, s); }
        case Sigint =>
      }
      if !t.halted && t.pc == Logic && |t.queue| > 1 && t.queue[0].kind == AUTH {
        assert !t.queue[0].IsConf();
      }
    }
  }

  // ---------------------------------------------------------------------------
  //  Runs
  // ---------------------------------------------------------------------------

  lemma {:induction false} RunSound(cfg: Config, es: seq<Event>)
    ensures Sound(cfg, After(cfg, es)) && SendReady(cfg, After(cfg, es))
  {
    if es != [] {
      var before, e := es[..|es| - 1], es[|es| - 1];
      RunSound(cfg, before);
      StepSound(cfg, After(cfg, before), e);
    }
  }

  lemma StepSound(cfg: Config, s: State, e: Event)
    requires Sound(cfg, s) && SendReady(cfg, s)
    ensures Sound(cfg, Step(cfg, s, e)) && SendReady(cfg, Step(cfg, s, e))
  {
    var inv := (x: State) => Sound(cfg, x);
    forall x: State, y: State | Primitive(cfg, x, y) && inv(x) ensures inv(y) {
      SoundKept(cfg, x, y);
    }
    StepKeeps(cfg, s, e, inv);
    StepReady(cfg, s, e);
  }
}
