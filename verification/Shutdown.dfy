/**
 * Bounded shutdown over UDP. With a silent network and no more input the sender works alone; from a
 * closing state it reaches the end of the program within a computable number of turns and datagrams,
 * unless the BYE it should finish with has been lost, and then it never does.
 */
module Shutdown {
  import opened Basics
  import opened Formats
  import opened ChatProtocol
  import opened Primitives
  import opened Discipline
  import opened Reachability
  import opened ErrorShape
  import opened LostBye

  /** `n` turns of the sender with nothing else happening. */
  function Alone(cfg: Config, s: State, n: nat): State
    decreases n
  {
    if n == 0 then s else Alone(cfg, SenderStep(cfg, s), n - 1)
  }

  /** The transmissions a message still has: one for an acknowledgement, the retries left for others. */
  function Cost(cfg: Config, m: Msg): nat {
    if m.IsAck() then 1
    else if m.sendCount <= cfg.maxRetries then cfg.maxRetries + 1 - m.sendCount
    else 0
  }

  function Budget(cfg: Config, q: seq<Msg>): nat
    decreases |q|
  {
    if q == [] then 0 else Cost(cfg, q[0]) + Budget(cfg, q[1..])
  }

  /** The datagrams the sender may still transmit; emptying the queue may end in a time-out, with ERR and BYE. */
  function Left(cfg: Config, s: State): nat {
    if s.fsm == EmptyQueueBye || s.fsm == SigintBye then Budget(cfg, s.queue) + 2 * (cfg.maxRetries + 1)
    else if InShutdown(s.fsm) then Budget(cfg, s.queue)
    else 0
  }

  /** The turns the sender may still take: one to filter and one to send, for each datagram. */
  function Turns(cfg: Config, s: State): nat {
    2 * Left(cfg, s) + if s.pc == Top then 1 else 0
  }

  /** The BYE that ends the program waits at the end of the queue, or its last transmission exhausts it. */
  predicate ByeAlive(cfg: Config, s: State) {
    s.queue != [] &&
    var bye := s.queue[|s.queue| - 1];
    bye.flags == FlagBye
    && (|| !bye.confirmed
        || bye.sendCount > cfg.maxRetries
        || (|s.queue| == 1 && s.pc != Top && bye.sendCount + 1 > cfg.maxRetries))
  }

  /** The closing states the sender alone never leaves: the thread is gone, or the BYE is lost. */
  predicate Doomed(cfg: Config, s: State) {
    s.fsm != End && (s.pc == Gone || (InShutdown(s.fsm) && !ByeAlive(cfg, s)))
  }

  /** A reachable closing state over UDP, with a display name for the ERR message. */
  ghost predicate Closes(cfg: Config, s: State) {
    && cfg.proto == UDP && cfg.maxRetries < 255 && !s.halted && s.fsm.Closing() && s.displayName.Some?
    && Sound(cfg, s) && SendReady(cfg, s) && Shape(cfg, s)
  }

  // ---------------------------------------------------------------------------
  //  Budgets
  // ---------------------------------------------------------------------------

  lemma {:induction false} BudgetOne(cfg: Config, m: Msg)
    ensures Budget(cfg, [m]) == Cost(cfg, m)
  {
    assert [m][1..] == [];
  }

  lemma BudgetFront(cfg: Config, q: seq<Msg>, m: Msg)
    requires q != []
    ensures Budget(cfg, q[0 := m]) == Budget(cfg, q) - Cost(cfg, q[0]) + Cost(cfg, m)
  {
    assert q[0 := m][1..] == q[1..];
  }

  lemma {:induction false} BudgetTimeOut(cfg: Config, s: State)
    requires s.displayName.Some? && !s.halted
    ensures Budget(cfg, TimeOut(cfg, s).queue) == 2 * (cfg.maxRetries + 1)
    ensures ByeWaiting(TimeOut(cfg, s).queue)
  {
    var q := TimeOut(cfg, s).queue;
    TimeOutShape(cfg, s);
    assert q == [q[0], q[1]];
    assert q[1..] == [q[1]];
    BudgetOne(cfg, q[1]);
  }

  // ---------------------------------------------------------------------------
  //  The filter while closing
  // ---------------------------------------------------------------------------

  /** What the filter may leave behind: no more to send than before, and the BYE as alive as before. */
  predicate Filtered(cfg: Config, s: State, t: State) {
    && !t.halted && t.pc == s.pc && t.displayName == s.displayName && t.log.sent == s.log.sent
    && t.fsm.Closing() && Left(cfg, t) <= Left(cfg, s)
    && (t.fsm == s.fsm || t.fsm == End || t.fsm == Error)
    && (t.fsm == End ==> s.fsm == End || s.fsm == EndWaitConf)
    && (t.fsm == Error ==> s.fsm == Error || !InShutdown(s.fsm))
    && (InShutdown(t.fsm) && ByeAlive(cfg, s) ==> ByeAlive(cfg, t) && t.queue != [])
    && (InShutdown(t.fsm) && !InShutdown(s.fsm) ==> ByeAlive(cfg, t) && t.queue != [])
    && (InShutdown(s.fsm) && !ByeAlive(cfg, s) ==> t.fsm == s.fsm && !ByeAlive(cfg, t))
  }

  lemma DropFront(cfg: Config, s: State)
    requires s.pc == Top && !s.halted && s.queue != [] && s.fsm.Closing() && s.fsm != End
    requires cfg.proto == UDP && Shape(cfg, s)
    requires s.queue[0].sendCount > cfg.maxRetries ==> s.fsm == ErrorWaitConf
    requires s.queue[0].sendCount > cfg.maxRetries || !Stops(s.queue[0])
    ensures Filtered(cfg, s, PopFront(s))
  {
    var t := PopFront(s);
    if InShutdown(s.fsm) && |s.queue| > 1 {
      assert t.queue[|t.queue| - 1] == s.queue[|s.queue| - 1];
    }
  }

  lemma {:induction false} FilterClosing(cfg: Config, s: State)
    requires s.pc == Top && !s.halted && s.fsm.Closing() && s.fsm != End && s.displayName.Some?
    requires cfg.proto == UDP && Shape(cfg, s) && KindsOk(s)
    ensures Filtered(cfg, s, Filter(cfg, s))
    decreases |s.queue|
  {
    hide Shape;
    hide Budget;
    if s.queue != [] {
      var m := s.queue[0];
      if m.sendCount > cfg.maxRetries && s.fsm == EndWaitConf {
        EndOnLast(cfg, s);
      } else if m.sendCount > cfg.maxRetries && s.fsm != ErrorWaitConf {
        TimesOut(cfg, s);
      } else if m.sendCount > cfg.maxRetries || !Stops(m) {
        DropFront(cfg, s);
        PopShape(cfg, s);
        FilterClosing(cfg, PopFront(s));
      }
    }
  }

  /** A time-out in a closing state without a BYE to come gives the client a fresh ERR and BYE. */
  lemma TimesOut(cfg: Config, s: State)
    requires s.pc == Top && !s.halted && s.fsm.Closing() && s.fsm !in {End, EndWaitConf, ErrorWaitConf}
    requires s.displayName.Some? && cfg.proto == UDP && Shape(cfg, s)
    requires s.queue != [] && s.queue[0].sendCount > cfg.maxRetries
    ensures Filtered(cfg, s, TimeOut(cfg, s))
  {
    hide Budget;
    TimeOutShape(cfg, s);
    BudgetTimeOut(cfg, s);
    NoTimeOutInError(cfg, s);
  }

  /** An exhausted message in END_W84_CONF is the BYE itself, and the last one. */
  lemma {:induction false} EndOnLast(cfg: Config, s: State)
    requires s.pc == Top && !s.halted && s.fsm == EndWaitConf && s.queue != []
    requires Shape(cfg, s) && s.queue[0].sendCount > cfg.maxRetries
    ensures Filter(cfg, s) == s.(fsm := End, queue := []) && ByeAlive(cfg, s)
  {
    assert !IsUnsentAck(s.queue[0]);
    assert s.queue[1..] == [];
    assert Filter(cfg, s) == Filter(cfg, s.(fsm := End, queue := []));
  }

  lemma NoTimeOutInError(cfg: Config, s: State)
    requires !s.halted && s.queue != [] && Shape(cfg, s) && s.queue[0].sendCount > cfg.maxRetries
    ensures s.fsm != Error
  {}

  lemma PopShape(cfg: Config, s: State)
    requires !s.halted && s.queue != [] && s.pc == Top && Shape(cfg, s)
    ensures Shape(cfg, PopFront(s))
  {
    if s.fsm == Error || s.fsm == ErrorWaitConf { ErrShapeFront(s.queue, s.fsm == Error); }
  }

  // ---------------------------------------------------------------------------
  //  One turn
  // ---------------------------------------------------------------------------

  /** A transmission uses up exactly one datagram of the budget. */
  lemma {:induction false} TransmitCost(cfg: Config, s: State)
    requires cfg.proto == UDP && cfg.maxRetries < 255 && FrontReady(cfg, s.queue) && MsgOk(s.queue[0])
    ensures var t := Transmit(cfg, s);
      && Budget(cfg, t.queue) == Budget(cfg, s.queue) - 1
      && |t.log.sent| == |s.log.sent| + 1 && t.pc == Top && !t.halted == !s.halted
      && t.fsm == s.fsm && t.displayName == s.displayName
  {
    var m := s.queue[0];
    if !m.IsAck() {
      var out := CountSent(m.(data := Stamp(m.data, s.counter)));
      BudgetFront(cfg, s.queue, out);
    }
  }

  /** The states logicFSM moves to before it sends in a closing state. */
  predicate SendsIn(f: Fsm, g: Fsm) {
    g == f || ((f == Error || f == ErrorWaitConf) && (g == ErrorWaitConf || g == EndWaitConf))
  }

  /** In a closing state the sender's second half always transmits the front message. */
  lemma Sends(cfg: Config, s: State) returns (f: Fsm)
    requires Closes(cfg, s) && s.fsm != End && (s.pc == Logic || s.pc == Wake)
    ensures SenderStep(cfg, s) == Transmit(cfg, s.(fsm := f)) && SendsIn(s.fsm, f)
  {
    f := s.fsm;
    assert s == s.(fsm := s.fsm);
    if s.pc == Logic && (s.fsm == Error || s.fsm == ErrorWaitConf) {
      LogicErrorShape(cfg, s);
      var m := s.queue[0];
      f := if m.flags == FlagBye then EndWaitConf else if m.flags == FlagErr then ErrorWaitConf else s.fsm;
    }
  }

  /** The queue after a transmission. */
  lemma TransmitQueue(cfg: Config, s: State)
    requires cfg.proto == UDP && cfg.maxRetries < 255 && FrontReady(cfg, s.queue) && MsgOk(s.queue[0])
    ensures var m, q := s.queue[0], Transmit(cfg, s).queue;
      if m.IsAck() then q == s.queue[1..]
      else q != [] && q[1..] == s.queue[1..] && q[0].flags == m.flags && q[0].confirmed == m.confirmed
           && q[0].sendCount == m.sendCount + 1
  {}

  lemma TransmitBye(cfg: Config, s: State, f: Fsm)
    requires cfg.proto == UDP && cfg.maxRetries < 255 && FrontReady(cfg, s.queue) && MsgOk(s.queue[0])
    requires s.pc != Top
    ensures ByeAlive(cfg, s) <==> ByeAlive(cfg, Transmit(cfg, s.(fsm := f)))
  {
    TransmitQueue(cfg, s.(fsm := f));
    var t := Transmit(cfg, s.(fsm := f));
    var last := s.queue[|s.queue| - 1];
    assert t.pc == Top;
    if |s.queue| > 1 {
      assert last == s.queue[1..][|s.queue| - 2];
      assert t.queue[|t.queue| - 1] == last;
    }
  }

  lemma SendTurn(cfg: Config, s: State)
    requires Closes(cfg, s) && s.fsm != End && (s.pc == Logic || s.pc == Wake)
    ensures Turned(cfg, s, SenderStep(cfg, s))
  {
    hide Transmit;
    hide SenderStep;
    hide Budget;
    hide Shape;
    var f := Sends(cfg, s);
    TransmitCost(cfg, s.(fsm := f));
    TransmitBye(cfg, s, f);
    var t := SenderStep(cfg, s);
    assert Left(cfg, t) == Left(cfg, s) - 1;
  }

  /** What a turn of the sender achieves in a closing state. */
  predicate Turned(cfg: Config, s: State, t: State) {
    && !t.halted && t.fsm.Closing() && t.displayName.Some?
    && |t.log.sent| + Left(cfg, t) <= |s.log.sent| + Left(cfg, s)
    && (t.fsm == End || Doomed(cfg, t) || Turns(cfg, t) < Turns(cfg, s))
    && (Doomed(cfg, s) <==> Doomed(cfg, t))
  }

  /** What the loop body does after the filter left the state `u`. */
  lemma {:induction false} TopCases(cfg: Config, s: State)
    requires cfg.proto == UDP && s.fsm != End && !Filter(cfg, s).halted
    ensures var u, t := Filter(cfg, s), SenderTop(cfg, s);
      || (s.fsm == EndWaitConf && u.fsm != EndWaitConf && t == u)
      || (u.queue != [] && t == u.(pc := Logic))
      || (u.queue == [] && (u.fsm == EmptyQueueBye || u.fsm == SigintBye) && t == u.(fsm := End))
      || (u.queue == [] && u.fsm != EmptyQueueBye && u.fsm != SigintBye && t == u)
  {}

  lemma TopTurn(cfg: Config, s: State)
    requires Closes(cfg, s) && s.fsm != End && s.pc == Top
    ensures Turned(cfg, s, SenderStep(cfg, s))
  {
    hide Filter;
    hide Shape;
    hide Budget;
    hide SenderTop;
    FilterClosing(cfg, s);
    TopCases(cfg, s);
    var u, t := Filter(cfg, s), SenderStep(cfg, s);
    assert Left(cfg, t) <= Left(cfg, u) && t.log == u.log;
    if InShutdown(u.fsm) && u.queue != [] && t.pc == Logic {
      FilterStops(cfg, s);
      LogicAlive(cfg, u);
    }
  }

  /** Stopping at a confirmed BYE is not possible, so going on to send does not change its fate. */
  lemma LogicAlive(cfg: Config, u: State)
    requires u.queue != [] && u.pc == Top && Stops(u.queue[0])
    ensures ByeAlive(cfg, u) <==> ByeAlive(cfg, u.(pc := Logic))
  {}

  lemma TurnCloses(cfg: Config, s: State)
    requires Closes(cfg, s) && s.fsm != End && s.pc != Gone
    ensures Closes(cfg, SenderStep(cfg, s)) && Turned(cfg, s, SenderStep(cfg, s))
  {
    assert SenderStep(cfg, s) == Step(cfg, s, SenderTurn);
    StepSound(cfg, s, SenderTurn);
    StepShape(cfg, s, SenderTurn);
    if s.pc == Top {
      TopTurn(cfg, s);
    } else {
      SendTurn(cfg, s);
    }
  }

  // ---------------------------------------------------------------------------
  //  The sender alone
  // ---------------------------------------------------------------------------

  /** From a closing state whose BYE is not lost, the end comes within the computed turns and datagrams. */
  lemma {:induction false} ReachesEnd(cfg: Config, s: State) returns (n: nat)
    requires Closes(cfg, s) && !Doomed(cfg, s)
    ensures n <= Turns(cfg, s) + 1 && Alone(cfg, s, n).fsm == End
    ensures |Alone(cfg, s, n).log.sent| <= |s.log.sent| + Left(cfg, s)
    decreases Turns(cfg, s)
  {
    if s.fsm == End {
      n := 0;
    } else {
      TurnCloses(cfg, s);
      var t := SenderStep(cfg, s);
      if t.fsm == End {
        n := 1;
        assert Alone(cfg, t, 0) == t;
      } else {
        var k := ReachesEnd(cfg, t);
        n := k + 1;
      }
    }
  }

  /** From one whose BYE is lost, or whose sender has left, the end never comes. */
  lemma {:induction false} NeverEnds(cfg: Config, s: State, n: nat)
    requires Closes(cfg, s) && Doomed(cfg, s)
    ensures Alone(cfg, s, n).fsm != End
    decreases n
  {
    if n > 0 {
      if s.pc == Gone {
        assert SenderStep(cfg, s) == s;
      } else {
        TurnCloses(cfg, s);
      }
      NeverEnds(cfg, SenderStep(cfg, s), n - 1);
    }
  }

  /** After `n` turns the program has ended, within the computed turns and datagrams. */
  predicate EndsWithin(cfg: Config, s: State, n: nat) {
    n <= Turns(cfg, s) + 1 && Alone(cfg, s, n).fsm == End
    && |Alone(cfg, s, n).log.sent| <= |s.log.sent| + Left(cfg, s)
  }

  /**
   * Bounded shutdown, exactly: over every run that has reached a closing state with a display name, the
   * sender alone reaches END if and only if the BYE is alive; and then within the bound.
   */
  lemma {:induction false} BoundedShutdown(cfg: Config, es: seq<Event>)
    requires cfg.proto == UDP && cfg.maxRetries < 255
    requires var s := After(cfg, es); !s.halted && s.fsm.Closing() && s.displayName.Some?
    ensures var s := After(cfg, es);
      && ((exists n: nat :: Alone(cfg, s, n).fsm == End) <==> !Doomed(cfg, s))
      && (!Doomed(cfg, s) ==> exists n: nat :: EndsWithin(cfg, s, n))
  {
    var s := After(cfg, es);
    RunSound(cfg, es);
    RunShape(cfg, es);
    if Doomed(cfg, s) {
      forall n: nat ensures Alone(cfg, s, n).fsm != End { NeverEnds(cfg, s, n); }
    } else {
      var n := ReachesEnd(cfg, s);
      assert EndsWithin(cfg, s, n);
    }
  }

  // ---------------------------------------------------------------------------
  //  The bound from the error state
  // ---------------------------------------------------------------------------

  function Acks(q: seq<Msg>): nat
    decreases |q|
  {
    if q == [] then 0 else (if q[0].IsAck() then 1 else 0) + Acks(q[1..])
  }

  lemma {:induction false} ErrorBudget(cfg: Config, q: seq<Msg>, unsent: bool)
    requires ErrShape(q, unsent)
    ensures Budget(cfg, q) <= Acks(q) + 2 * (cfg.maxRetries + 1)
    decreases |q|
  {
    if q == [] {
    } else if IsUnsentAck(q[0]) {
      ErrorBudget(cfg, q[1..], unsent);
    } else if ByeTail(q) {
      assert q == [q[0]];
      BudgetOne(cfg, q[0]);
    } else {
      assert q[1..] == [q[1]];
      BudgetOne(cfg, q[1]);
    }
  }

  /** From ERR: one datagram per acknowledgement, and ERR and BYE at most maxRetries + 1 times each. */
  lemma ErrorShutdown(cfg: Config, es: seq<Event>) returns (n: nat)
    requires cfg.proto == UDP && cfg.maxRetries < 255
    requires var s := After(cfg, es);
      !s.halted && s.fsm == Error && s.displayName.Some? && s.pc != Gone && ByeAlive(cfg, s)
    ensures var s := After(cfg, es); var t := Alone(cfg, s, n);
      t.fsm == End && |t.log.sent| <= |s.log.sent| + Acks(s.queue) + 2 * (cfg.maxRetries + 1)
  {
    var s := After(cfg, es);
    RunSound(cfg, es);
    RunShape(cfg, es);
    ErrorBudget(cfg, s.queue, true);
    n := ReachesEnd(cfg, s);
  }
}
