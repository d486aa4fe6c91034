/**
 * The ids a run uses over UDP. A CONFIRM for the message in flight moves the counter one step along the
 * cycle of ids; a REPLY, the CONFIRM of an AUTH, and a CONFIRM taken for something that was not sent set
 * it to whatever the server says. Between such resets no id comes back too early.
 */
module IdsInUse {
  import opened Basics
  import opened Commands
  import opened Formats
  import opened ChatProtocol
  import opened Primitives
  import opened Discipline
  import opened Reachability
  import opened LostBye
  import opened Safety
  import opened MessageIds
  import Tokenizer

  /** The id bytes a message is stamped with. */
  function IdFor(c: u16): Id { Id(Low(c), High(c)) }

  /** A CONFIRM of this step is taken for the front message. */
  predicate TakesConfirm(cfg: Config, s: State, e: Event) {
    && !s.halted && e.Receive? && Handles(s, e.d) && e.d.kind == CONF
    && s.queue != [] && Accepts(cfg, s.queue[0], e.d.id)
  }

  /** A REPLY of this step is handled; a negative one that finds the queue empty ends the program instead. */
  predicate TakesReply(cfg: Config, s: State, e: Event) {
    && !s.halted && e.Receive? && Handles(s, e.d) && e.d.kind == REPLY && !Repetitive(cfg, s.seen, e.d)
    && (s.fsm == WaitReply || s.fsm == JoinAttempt) && (e.d.ok || s.queue != [])
  }

  /** A message the user sees as sent: neither an AUTH nor a CONFIRM, and transmitted. */
  predicate InFlight(m: Msg) { m.kind != AUTH && m.kind != CONF && m.sendCount > 0 }

  /** The step sets the counter to another number, of the server's choice. */
  predicate Resets(cfg: Config, s: State, e: Event) {
    && (TakesReply(cfg, s, e) || (TakesConfirm(cfg, s, e) && !InFlight(s.queue[0])))
    && Following(MsgId(cfg, e.d.id)) != s.counter
  }

  /** The step takes the confirmation of the message in flight, under the id of the current counter. */
  predicate Advances(cfg: Config, s: State, e: Event) {
    TakesConfirm(cfg, s, e) && InFlight(s.queue[0]) && IdOf(s.queue[0].data) == IdFor(s.counter)
  }

  /** A message in flight carries the id of the counter, or was confirmed under the id before it. */
  predicate OnCounter(cfg: Config, c: u16, m: Msg) {
    InFlight(m) ==>
      IdOf(m.data) == IdFor(c) || (m.confirmed && Following(MsgId(cfg, IdOf(m.data))) == c)
  }

  predicate AllOnCounter(cfg: Config, c: u16, q: seq<Msg>) {
    forall i :: 0 <= i < |q| ==> OnCounter(cfg, c, q[i])
  }

  predicate Tracked(cfg: Config, s: State) { AllOnCounter(cfg, s.counter, s.queue) }

  // ---------------------------------------------------------------------------
  //  Steps that leave the counter alone
  // ---------------------------------------------------------------------------

  /** The counter stays, and the queue stays on it. */
  predicate Steady(cfg: Config, s: State, t: State) {
    t.counter == s.counter && AllOnCounter(cfg, s.counter, t.queue)
  }

  lemma MainSteady(cfg: Config, s: State, c: Command)
    requires Tracked(cfg, s)
    ensures Steady(cfg, s, RunCommand(cfg, s, c))
  {
    hide MsgId;
    hide IdOf;
  }

  lemma ByeSteady(cfg: Config, s: State)
    requires Tracked(cfg, s)
    ensures Steady(cfg, s, SendBye(cfg, s))
  {
    hide MsgId;
  }

  lemma ConfirmSteady(cfg: Config, s: State, d: Datagram, flags: Flag)
    requires Tracked(cfg, s)
    ensures Steady(cfg, s, SendConfirm(s, d, flags))
  {
    hide MsgId;
  }

  lemma ErrorAndByeSteady(cfg: Config, s: State, stale: Id, text: seq<byte>)
    requires Tracked(cfg, s)
    ensures Steady(cfg, s, SendErrorAndBye(cfg, s, stale, text))
  {
    hide MsgId;
    var t := SendError(cfg, s, stale, text);
    assert Steady(cfg, s, t);
    ByeSteady(cfg, t);
  }

  lemma ErrorSteady(cfg: Config, s: State, d: Datagram)
    ensures Steady(cfg, s, ReceiveError(cfg, s, d)) && Steady(cfg, s, ReceiveUnknown(cfg, s, d))
  {
    hide MsgId;
    hide SendBye;
    hide SendErrorAndBye;
    hide SendConfirm;
    var t, u := PopAll(s), PopAll(s.(fsm := Error));
    ConfirmSteady(cfg, t, d, FlagConfirm);
    ConfirmSteady(cfg, u, d, FlagConfirm);
    ByeSteady(cfg, if cfg.proto == UDP then SendConfirm(t, d, FlagConfirm) else t);
    ErrorAndByeSteady(cfg, if cfg.proto == UDP then SendConfirm(u, d, FlagConfirm) else u, d.id, UNKNOWN_FORMAT);
  }

  lemma DispatchSteady(cfg: Config, s: State, d: Datagram, repetitive: bool)
    requires cfg.proto == UDP && Tracked(cfg, s) && d.kind != CONF
    requires d.kind == REPLY && !repetitive ==> HandleReply(cfg, s, d).counter == s.counter
    ensures Steady(cfg, s, Dispatch(cfg, s, d, repetitive))
  {
    hide MsgId;
    hide SendConfirm;
    hide ReceiveError;
    hide ReceiveUnknown;
    hide HandleConfirm;
    hide HandleReply;
    ConfirmSteady(cfg, s, d, FlagConfirm);
    ErrorSteady(cfg, s, d);
    ReplyOnCounter(cfg, s, d);
  }

  /** Whatever a REPLY does to the counter, it leaves ids and confirmations in the queue alone. */
  lemma ReplyOnCounter(cfg: Config, s: State, d: Datagram)
    requires Tracked(cfg, s)
    ensures AllOnCounter(cfg, s.counter, HandleReply(cfg, s, d).queue)
  {
    hide MsgId, SendConfirm;
    if s.fsm == WaitReply || s.fsm == JoinAttempt {
      if d.ok {
        var t := if s.fsm == WaitReply && s.queue != [] then SetFront(s, s.queue[0].(flags := FlagConfirmed)) else s;
        ConfirmSteady(cfg, t.(fsm := WaitReplyConf), d, FlagConfirm);
      } else if s.queue != [] {
        var t := if s.queue[0].flags == FlagAuth
                 then SetFront(s, s.queue[0].(flags := FlagRejected)).(fsm := Start) else s;
        ConfirmSteady(cfg, if t.fsm == JoinAttempt then t.(fsm := Open) else t, d, FlagNokReply);
      }
    }
  }

  lemma TransmitSteady(cfg: Config, s: State)
    requires cfg.proto == UDP && Tracked(cfg, s)
    ensures Steady(cfg, s, Transmit(cfg, s))
  {
    hide MsgId;
    if s.queue != [] {
      var out := s.queue[0].(data := Stamp(s.queue[0].data, s.counter));
      assert IdOf(out.data) == IdFor(s.counter);
    }
  }

  lemma {:induction false} FilterSteady(cfg: Config, s: State)
    requires Tracked(cfg, s)
    ensures Steady(cfg, s, Filter(cfg, s))
    decreases |s.queue|
  {
    hide MsgId;
    hide SendErrorAndBye;
    if s.queue != [] {
      ErrorAndByeSteady(cfg, PopAll(s).(fsm := Error), cfg.senderStale, TIMED_OUT);
      FilterSteady(cfg, PopFront(s));
      FilterSteady(cfg, PopFront(s.(fsm := End)));
    }
  }

  lemma SenderSteady(cfg: Config, s: State)
    requires cfg.proto == UDP && Tracked(cfg, s)
    ensures Steady(cfg, s, SenderStep(cfg, s))
  {
    hide MsgId;
    hide Filter;
    hide SenderLogic;
    hide Transmit;
    FilterSteady(cfg, s);
    TransmitSteady(cfg, s);
    var f, p := LogicForm(cfg, s);
    TransmitSteady(cfg, s.(fsm := f));
    if s.queue != [] { TransmitSteady(cfg, PopFront(s)); }
  }

  // ---------------------------------------------------------------------------
  //  The counter, exactly
  // ---------------------------------------------------------------------------

  lemma ReplyCounter(cfg: Config, s: State, d: Datagram)
    ensures HandleReply(cfg, s, d).counter ==
      if (s.fsm == WaitReply || s.fsm == JoinAttempt) && (d.ok || s.queue != []) then Following(MsgId(cfg, d.id))
      else s.counter
  {
    hide MsgId, Following;
  }

  lemma DispatchCounter(cfg: Config, s: State, d: Datagram, repetitive: bool)
    requires cfg.proto == UDP
    ensures Dispatch(cfg, s, d, repetitive).counter ==
      if (d.kind == CONF && s.queue != [] && Accepts(cfg, s.queue[0], d.id))
         || (d.kind == REPLY && !repetitive && (s.fsm == WaitReply || s.fsm == JoinAttempt)
             && (d.ok || s.queue != []))
      then Following(MsgId(cfg, d.id))
      else s.counter
  {
    hide MsgId, Following, HandleReply, PacketOf;
    ReplyCounter(cfg, s, d);
  }

  lemma ReceiptCounter(cfg: Config, s: State, d: Datagram)
    requires cfg.proto == UDP && !s.halted
    ensures ReceiveStep(cfg, s, d).counter ==
      if TakesConfirm(cfg, s, Receive(d)) || TakesReply(cfg, s, Receive(d)) then Following(MsgId(cfg, d.id))
      else s.counter
  {
    hide MsgId, Following, Dispatch, Repetitive;
    var repetitive := Repetitive(cfg, s.seen, d);
    DispatchCounter(cfg, if repetitive then s else s.(seen := s.seen + {Seen(d.kind, d.id)}), d, repetitive);
  }

  lemma SenderCounter(cfg: Config, s: State)
    requires cfg.proto == UDP
    ensures SenderStep(cfg, s).counter == s.counter
  {
    hide Filter, SenderLogic, Stamp;
    FilterHistory(cfg, s);
    var f, p := LogicForm(cfg, s);
  }

  /**
   * Exactly, for every state: a step over UDP sets the counter, to the number after the received id, if and
   * only if it takes a CONFIRM for the front message or handles a REPLY.
   */
  lemma StepCounter(cfg: Config, s: State, e: Event)
    requires cfg.proto == UDP
    ensures Step(cfg, s, e).counter ==
      if TakesConfirm(cfg, s, e) || TakesReply(cfg, s, e) then Following(MsgId(cfg, e.d.id)) else s.counter
  {
    hide MsgId, Following, ReceiveStep, SenderStep, PacketOf, Tokenizer.Parse;
    if !s.halted {
      match e {
        case Receive(d) => ReceiptCounter(cfg, s, d);
        case Garbled =>
        case SenderTurn => SenderCounter(cfg, s);
        case _ =>
      }
    }
  }

  // ---------------------------------------------------------------------------
  //  Confirmations
  // ---------------------------------------------------------------------------

  /**
   * A CONFIRM for the message in flight advances the counter, or repeats what has been taken already; one
   * for another message, that is no reset, leaves the counter where it is.
   */
  lemma ConfirmAdvances(cfg: Config, s: State, e: Event)
    requires cfg.proto == UDP && Sound(cfg, s) && Tracked(cfg, s)
    requires TakesConfirm(cfg, s, e) && !Resets(cfg, s, e)
    ensures var t := HandleConfirm(cfg, s, e.d.id);
      && Tracked(cfg, t)
      && t.counter == if Advances(cfg, s, e) then Next(cfg.signedChar, s.counter) else s.counter
  {
    hide Decode, Following;
    var t := HandleConfirm(cfg, s, e.d.id);
    assert t.counter == Following(MsgId(cfg, e.d.id));
    if InFlight(s.queue[0]) {
      AcceptedId(cfg, s.queue[0], e.d.id);
      DecodesBack(cfg, s.counter);
    }
    forall i | 0 <= i < |t.queue| ensures OnCounter(cfg, t.counter, t.queue[i]) {
      if i > 0 {
        assert t.queue[i] == s.queue[i] && OnCounter(cfg, s.counter, s.queue[i]);
        assert InFlight(s.queue[0]) ==> s.queue[i].sendCount == 0;
      }
    }
  }

  lemma AcceptedId(cfg: Config, m: Msg, id: Id)
    requires Accepts(cfg, m, id) && m.kind != AUTH
    ensures id == IdOf(m.data)
  {
    hide Decode;
    DecodeInjective(cfg.signedChar, id.low, id.high, IdOf(m.data).low, IdOf(m.data).high);
  }

  lemma DecodesBack(cfg: Config, c: u16)
    ensures Following(MsgId(cfg, IdFor(c))) == Next(cfg.signedChar, c)
  {}

  /** Without a reset, a step leaves the counter alone or moves it one step along the cycle. */
  lemma StepAdvances(cfg: Config, s: State, e: Event)
    requires cfg.proto == UDP && Sound(cfg, s) && Tracked(cfg, s) && !Resets(cfg, s, e)
    ensures var t := Step(cfg, s, e);
      && Tracked(cfg, t)
      && t.counter == if Advances(cfg, s, e) then Next(cfg.signedChar, s.counter) else s.counter
  {
    hide MsgId;
    hide Dispatch;
    hide SenderStep;
    hide RunCommand;
    hide SendBye;
    hide Sound;
    hide Repetitive;
    if !s.halted {
      match e {
        case Line(line) =>
          if Tokenizer.Tokenizable(line) { MainSteady(cfg, s, Tokenizer.Parse(line)); }
        case Eof => ByeSteady(cfg, s.(fsm := EmptyQueueBye));
        case Receive(d) => if Handles(s, d) { ReceiptAdvances(cfg, s, d); }
        case Garbled =>
        case SenderTurn => SenderSteady(cfg, s);
        case Sigint => ByeSteady(cfg, PopAll(s.(fsm := SigintBye)));
      }
    }
  }

  /** Exactly: the counter stays on the cycle if and only if the step resets nothing. */
  lemma OnCycleExactly(cfg: Config, s: State, e: Event)
    requires cfg.proto == UDP && Sound(cfg, s) && Tracked(cfg, s)
    ensures Step(cfg, s, e).counter == (if Advances(cfg, s, e) then Next(cfg.signedChar, s.counter) else s.counter)
      <==> !Resets(cfg, s, e)
  {
    hide Step, Sound, Tracked, MsgId, Following, Next, Repetitive;
    if Resets(cfg, s, e) {
      StepCounter(cfg, s, e);
    } else {
      StepAdvances(cfg, s, e);
    }
  }

  lemma ReceiptAdvances(cfg: Config, s: State, d: Datagram)
    requires cfg.proto == UDP && Sound(cfg, s) && Tracked(cfg, s)
    requires !s.halted && Handles(s, d) && !Resets(cfg, s, Receive(d))
    ensures var t := ReceiveStep(cfg, s, d);
      && Tracked(cfg, t)
      && t.counter == if Advances(cfg, s, Receive(d)) then Next(cfg.signedChar, s.counter) else s.counter
  {
    hide MsgId;
    hide Repetitive;
    hide HandleConfirm;
    hide Sound;
    var repetitive := Repetitive(cfg, s.seen, d);
    var u := if repetitive then s else s.(seen := s.seen + {Seen(d.kind, d.id)});
    if d.kind != CONF {
      hide Dispatch;
      ReplyCounter(cfg, u, d);
      DispatchSteady(cfg, u, d, repetitive);
    } else {
      HandleConfirmSeen(cfg, s, d.id, u.seen);
      if TakesConfirm(cfg, s, Receive(d)) {
        ConfirmAdvances(cfg, s, Receive(d));
      } else {
        ConfirmRefused(cfg, s, d.id);
      }
    }
  }

  lemma HandleConfirmSeen(cfg: Config, s: State, id: Id, seen: set<Seen>)
    ensures HandleConfirm(cfg, s.(seen := seen), id) == HandleConfirm(cfg, s, id).(seen := seen)
  {}

  lemma ConfirmRefused(cfg: Config, s: State, id: Id)
    requires s.queue == [] || !Accepts(cfg, s.queue[0], id)
    ensures HandleConfirm(cfg, s, id) == s
  {}

  // ---------------------------------------------------------------------------
  //  Runs
  // ---------------------------------------------------------------------------

  /** From the state after `es`, the events of `more` reset nothing. */
  predicate NoReset(cfg: Config, es: seq<Event>, more: seq<Event>) {
    more == [] ||
    (var before := more[..|more| - 1];
     NoReset(cfg, es, before) && !Resets(cfg, After(cfg, es + before), more[|more| - 1]))
  }

  /** The ids confirmed while the events of `more` happen, in order. */
  function ConfirmedIds(cfg: Config, es: seq<Event>, more: seq<Event>): seq<Id> {
    if more == [] then []
    else
      var before, e := more[..|more| - 1], more[|more| - 1];
      var ids := ConfirmedIds(cfg, es, before);
      if Advances(cfg, After(cfg, es + before), e) then ids + [e.d.id] else ids
  }

  /** Each confirmed id is the next one on the cycle, and so is the counter. */
  lemma IdsGrow(signed: bool, ids: seq<Id>, n: nat, c: u16, last: u16)
    requires |ids| == n + 1 && last == Iter(signed, n, c) && ids[n] == IdFor(last)
    requires forall i :: 0 <= i < n ==> ids[i] == IdFor(Iter(signed, i, c))
    ensures Iter(signed, n + 1, c) == Next(signed, last)
    ensures forall i :: 0 <= i < |ids| ==> ids[i] == IdFor(Iter(signed, i, c))
  {
    IterSplit(signed, n, 1, c);
    assert Iter(signed, 1, last) == Iter(signed, 0, Next(signed, last));
  }

  lemma {:induction false} IdsFollowCycle(cfg: Config, es: seq<Event>, more: seq<Event>)
    requires cfg.proto == UDP && NoReset(cfg, es, more) && Tracked(cfg, After(cfg, es))
    ensures var ids, s, c := ConfirmedIds(cfg, es, more), After(cfg, es + more), After(cfg, es).counter;
      && Tracked(cfg, s) && s.counter == Iter(cfg.signedChar, |ids|, c)
      && forall i :: 0 <= i < |ids| ==> ids[i] == IdFor(Iter(cfg.signedChar, i, c))
  {
    hide Step;
    hide Advances;
    hide Resets;
    hide Next;
    hide Tracked;
    hide Sound;
    hide SendReady;
    if more == [] {
      assert es + more == es;
    } else {
      hide Iter;
      var before, e := more[..|more| - 1], more[|more| - 1];
      IdsFollowCycle(cfg, es, before);
      assert es + more == es + before + [e];
      AfterMore(cfg, es + before, e);
      RunSound(cfg, es + before);
      StepAdvances(cfg, After(cfg, es + before), e);
      if Advances(cfg, After(cfg, es + before), e) {
        AdvanceId(cfg, After(cfg, es + before), e);
        IdsGrow(cfg.signedChar, ConfirmedIds(cfg, es, more), |ConfirmedIds(cfg, es, before)|, After(cfg, es).counter,
                After(cfg, es + before).counter);
      }
    }
  }

  /** The counter after the events of `more` is where the confirmations put it. */
  predicate OnCycle(cfg: Config, es: seq<Event>, more: seq<Event>) {
    After(cfg, es + more).counter == Iter(cfg.signedChar, |ConfirmedIds(cfg, es, more)|, After(cfg, es).counter)
  }

  /** Exactly: the counter is on the cycle after every event of a part of a run if and only if none resets it. */
  lemma {:induction false} CycleExactly(cfg: Config, es: seq<Event>, more: seq<Event>)
    requires cfg.proto == UDP && Tracked(cfg, After(cfg, es))
    ensures NoReset(cfg, es, more) <==> forall k :: 0 <= k <= |more| ==> OnCycle(cfg, es, more[..k])
  {
    hide Step, OnCycle, Tracked, Resets, Sound;
    assert more[..|more|] == more;
    if more == [] {
      EmptyOnCycle(cfg, es);
    } else {
      var before, e := more[..|more| - 1], more[|more| - 1];
      CycleExactly(cfg, es, before);
      assert forall k :: 0 <= k < |more| ==> more[..k] == before[..k];
      assert before[..|before|] == before;
      if OnCycle(cfg, es, before) && NoReset(cfg, es, before) { OneMoreOnCycle(cfg, es, before, e, more); }
    }
  }

  lemma {:induction false} EmptyOnCycle(cfg: Config, es: seq<Event>)
    ensures OnCycle(cfg, es, [])
  {
    assert es + [] == es;
  }

  lemma {:induction false} OneMoreOnCycle(cfg: Config, es: seq<Event>, before: seq<Event>, e: Event, more: seq<Event>)
    requires cfg.proto == UDP && Tracked(cfg, After(cfg, es)) && more == before + [e]
    requires OnCycle(cfg, es, before) && NoReset(cfg, es, before)
    ensures OnCycle(cfg, es, more) <==> !Resets(cfg, After(cfg, es + before), e)
  {
    hide Step, Tracked, Resets, Sound, Advances, Next;
    var s, c, n := After(cfg, es + before), After(cfg, es).counter, |ConfirmedIds(cfg, es, before)|;
    IdsFollowCycle(cfg, es, before);
    assert es + more == es + before + [e] && more[..|more| - 1] == before;
    AfterMore(cfg, es + before, e);
    RunSound(cfg, es + before);
    OnCycleExactly(cfg, s, e);
    IterSplit(cfg.signedChar, n, 1, c);
    assert Iter(cfg.signedChar, 1, s.counter) == Iter(cfg.signedChar, 0, Next(cfg.signedChar, s.counter));
  }

  lemma AdvanceId(cfg: Config, s: State, e: Event)
    ensures Advances(cfg, s, e) ==> e.d.id == IdFor(s.counter)
  {
    if Advances(cfg, s, e) { AcceptedId(cfg, s.queue[0], e.d.id); }
  }

  /**
   * No id recurs within 65536 successive confirmed messages, and the next one is the first again, for a
   * signed and for an unsigned `char`.
   */
  lemma {:induction false} NoIdRecurs(cfg: Config, es: seq<Event>, more: seq<Event>, i: nat, j: nat)
    requires cfg.proto == UDP && NoReset(cfg, es, more) && Tracked(cfg, After(cfg, es))
    requires i < j < |ConfirmedIds(cfg, es, more)| && j <= i + 65536
    ensures var ids := ConfirmedIds(cfg, es, more); ids[i] == ids[j] <==> j == i + 65536
  {
    hide ConfirmedIds;
    hide NoReset;
    hide Tracked;
    hide Iter;
    var c := After(cfg, es).counter;
    IdsFollowCycle(cfg, es, more);
    IterSplit(cfg.signedChar, i, j - i, c);
    IdCycle(cfg.signedChar, j - i, Iter(cfg.signedChar, i, c));
    var a, b := Iter(cfg.signedChar, i, c), Iter(cfg.signedChar, j, c);
    if IdFor(a) == IdFor(b) { SameBytes(a, b); }
  }

  /** Whenever nothing is in flight, the ids are on the counter. */
  lemma NothingInFlight(cfg: Config, s: State)
    requires forall i :: 0 <= i < |s.queue| ==> !InFlight(s.queue[i])
    ensures Tracked(cfg, s)
  {}

  /** From the start of the program, or from any moment of a run at which nothing is in flight. */
  lemma {:induction false} NoIdRecursFromQuiet(cfg: Config, es: seq<Event>, more: seq<Event>, i: nat, j: nat)
    requires cfg.proto == UDP && NoReset(cfg, es, more)
    requires forall k :: 0 <= k < |After(cfg, es).queue| ==> !InFlight(After(cfg, es).queue[k])
    requires i < j < |ConfirmedIds(cfg, es, more)| && j <= i + 65536
    ensures var ids := ConfirmedIds(cfg, es, more); ids[i] == ids[j] <==> j == i + 65536
  {
    hide ConfirmedIds, NoReset, After;
    NothingInFlight(cfg, After(cfg, es));
    NoIdRecurs(cfg, es, more, i, j);
  }
}
