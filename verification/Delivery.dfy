/**
 * Delivery over UDP: which received messages are printed and acknowledged, however often the server
 * repeats them. The duplicate check compares a `char` with an unsigned byte, so where `char` is signed it
 * never recognises an id with a byte of 0x80 or more.
 */
module Delivery {
  import opened Basics
  import opened Formats
  import opened ChatProtocol
  import opened Discipline
  import opened Reachability
  import opened Safety

  /** The ids the duplicate check can recognise. */
  predicate Detectable(cfg: Config, id: Id) {
    !cfg.signedChar || (id.low < 128 && id.high < 128)
  }

  /** The duplicate check, exactly. */
  lemma RepetitiveExact(cfg: Config, seen: set<Seen>, d: Datagram)
    ensures Repetitive(cfg, seen, d) <==> Seen(d.kind, d.id) in seen && Detectable(cfg, d.id)
  {
    var x := Seen(d.kind, d.id);
    if x in seen && Detectable(cfg, d.id) {
      assert Matches(cfg.signedChar, x, x);
    }
  }

  /** The step handles a datagram of this kind and id. */
  predicate HandledNow(s: State, e: Event, x: Seen) {
    !s.halted && e.Receive? && Seen(e.d.kind, e.d.id) == x && Handles(s, e.d)
  }

  /** How often a run handled a datagram of this kind and id. */
  function Receipts(cfg: Config, es: seq<Event>, x: Seen): nat {
    if es == [] then 0
    else
      var before := es[..|es| - 1];
      Receipts(cfg, before, x) + if HandledNow(After(cfg, before), es[|es| - 1], x) then 1 else 0
  }

  function Prints(printed: seq<Seen>, x: Seen): nat {
    if printed == [] then 0
    else Prints(printed[..|printed| - 1], x) + if printed[|printed| - 1] == x then 1 else 0
  }

  /** The CONFIRMs made for datagrams of this kind and id, by their serial numbers. */
  function Acknowledging(causes: map<nat, Datagram>, x: Seen): set<nat> {
    set k | k in causes && Seen(causes[k].kind, causes[k].id) == x
  }

  // ---------------------------------------------------------------------------
  //  One receipt
  // ---------------------------------------------------------------------------

  /** The state after one more CONFIRM for `d` was put at the front, and nothing else changed. */
  function WithConfirm(s: State, d: Datagram): State {
    s.(queue := [Msg(s.log.next, [CONF, d.id.low, d.id.high], CONF, FlagConfirm, 0, false)] + s.queue,
       log := Log(s.log.next + 1, s.log.sent, s.log.printed, s.log.causes[s.log.next := d]))
  }

  /**
   * A handled MSG puts one CONFIRM at the front, is remembered, and is printed unless the same kind and
   * id were seen before and the id is detectable. Nothing else changes.
   */
  lemma MessageReceipt(cfg: Config, s: State, d: Datagram)
    requires cfg.proto == UDP && !s.halted && Handles(s, d) && d.kind == MSG
    ensures var x, t := Seen(d.kind, d.id), Step(cfg, s, Receive(d));
      if x in s.seen && Detectable(cfg, d.id) then t == WithConfirm(s, d)
      else
        var u := WithConfirm(s.(seen := s.seen + {x}), d);
        t == u.(log := u.log.(printed := s.log.printed + [x]))
  {
    RepetitiveExact(cfg, s.seen, d);
  }

  /** A replayed REPLY changes nothing except one more CONFIRM at the front. */
  lemma {:induction false} ReplayedReply(cfg: Config, es: seq<Event>, d: Datagram)
    requires cfg.proto == UDP && d.kind == REPLY && Receipts(cfg, es, Seen(d.kind, d.id)) > 0 && Detectable(cfg, d.id)
    requires !After(cfg, es).halted && Handles(After(cfg, es), d)
    ensures Step(cfg, After(cfg, es), Receive(d)) == WithConfirm(After(cfg, es), d)
  {
    SeenExactly(cfg, es, Seen(d.kind, d.id));
    RepetitiveExact(cfg, After(cfg, es).seen, d);
  }

  // ---------------------------------------------------------------------------
  //  One step of any kind
  // ---------------------------------------------------------------------------

  /** Handlers of other datagrams: they print no MSG, and whatever they acknowledge is not a MSG. */
  lemma OtherReceipt(cfg: Config, s: State, d: Datagram)
    requires cfg.proto == UDP && !s.halted && d.kind != MSG
    ensures var t := Step(cfg, s, Receive(d));
      && t.seen == (if Handles(s, d) then s.seen + {Seen(d.kind, d.id)} else s.seen)
      && (t.log.printed == s.log.printed || t.log.printed == s.log.printed + [Seen(d.kind, d.id)])
      && (t.log.causes == s.log.causes || t.log.causes == s.log.causes[s.log.next := d])
  {
    hide Dispatch;
    RepetitiveExact(cfg, s.seen, d);
    if Handles(s, d) {
      if Repetitive(cfg, s.seen, d) {
        assert s.seen + {Seen(d.kind, d.id)} == s.seen;
        DispatchPrints(cfg, s, d, true);
        DispatchCauses(cfg, s, d, true);
      } else {
        DispatchPrints(cfg, s.(seen := s.seen + {Seen(d.kind, d.id)}), d, false);
        DispatchCauses(cfg, s.(seen := s.seen + {Seen(d.kind, d.id)}), d, false);
      }
    }
  }

  /** A program that has ended, and a datagram the receiver drops. */
  lemma Ignored(cfg: Config, s: State, e: Event)
    requires s.halted || (e.Receive? && !Handles(s, e.d))
    ensures Step(cfg, s, e) == s
  {}

  lemma DispatchPrints(cfg: Config, s: State, d: Datagram, repetitive: bool)
    ensures var t := Dispatch(cfg, s, d, repetitive);
      t.seen == s.seen && (t.log.printed == s.log.printed || t.log.printed == s.log.printed + [Seen(d.kind, d.id)])
  {
    hide HandleReply;
    hide ReceiveUnknown;
    ReplyPrints(cfg, s, d);
    UnknownPrints(cfg, s, d);
  }

  lemma ReplyPrints(cfg: Config, s: State, d: Datagram)
    ensures HandleReply(cfg, s, d).seen == s.seen && HandleReply(cfg, s, d).log.printed == s.log.printed
  {}

  lemma UnknownPrints(cfg: Config, s: State, d: Datagram)
    ensures ReceiveUnknown(cfg, s, d).seen == s.seen && ReceiveUnknown(cfg, s, d).log.printed == s.log.printed
  {}

  lemma {:induction false} PrintsOne(printed: seq<Seen>, y: Seen, x: Seen)
    ensures Prints(printed + [y], x) == Prints(printed, x) + if y == x then 1 else 0
  {
    assert (printed + [y])[..|printed|] == printed;
  }

  /** What a step does to the memory, the prints and the acknowledgements of one MSG id. */
  lemma {:induction false} StepDelivers(cfg: Config, s: State, e: Event, x: Seen)
    requires cfg.proto == UDP && x.kind == MSG && Acknowledged(s)
    ensures var t := Step(cfg, s, e);
      && (x in t.seen <==> x in s.seen || HandledNow(s, e, x))
      && Prints(t.log.printed, x) == Prints(s.log.printed, x)
           + (if HandledNow(s, e, x) && !(x in s.seen && Detectable(cfg, x.id)) then 1 else 0)
      && Acknowledging(t.log.causes, x) == Acknowledging(s.log.causes, x)
           + (if HandledNow(s, e, x) then {s.log.next} else {})
  {
    hide Step;
    hide Prints;
    if s.halted {
      Ignored(cfg, s, e);
    } else if !e.Receive? {
      OtherSteps(cfg, s, e);
    } else if !Handles(s, e.d) {
      Ignored(cfg, s, e);
    } else if e.d.kind == MSG {
      MessageReceipt(cfg, s, e.d);
      PrintsOne(s.log.printed, Seen(e.d.kind, e.d.id), x);
    } else {
      OtherReceipt(cfg, s, e.d);
      PrintsOne(s.log.printed, Seen(e.d.kind, e.d.id), x);
    }
  }

  // ---------------------------------------------------------------------------
  //  Whole runs
  // ---------------------------------------------------------------------------

  /** The memory of the duplicate check is exactly what the run handled. */
  lemma {:induction false} SeenExactly(cfg: Config, es: seq<Event>, x: Seen)
    requires cfg.proto == UDP
    ensures x in After(cfg, es).seen <==> Receipts(cfg, es, x) > 0
  {
    hide Step;
    if es != [] {
      var before, e := es[..|es| - 1], es[|es| - 1];
      SeenExactly(cfg, before, x);
      StepRemembers(cfg, After(cfg, before), e, x);
    }
  }

  lemma StepRemembers(cfg: Config, s: State, e: Event, x: Seen)
    requires cfg.proto == UDP
    ensures x in Step(cfg, s, e).seen <==> x in s.seen || HandledNow(s, e, x)
  {
    hide Dispatch;
    if !s.halted {
      if !e.Receive? {
        OtherSteps(cfg, s, e);
      } else if e.d.kind != MSG {
        OtherReceipt(cfg, s, e.d);
      } else if Handles(s, e.d) {
        MessageReceipt(cfg, s, e.d);
      }
    }
  }

  /**
   * Delivery, exactly: over every run, a MSG with a detectable id is printed once however often it was
   * received, one with an undetectable id every time; and each handled receipt made one CONFIRM.
   */
  lemma {:induction false} DeliveredExactly(cfg: Config, es: seq<Event>, x: Seen)
    requires cfg.proto == UDP && x.kind == MSG
    ensures var s, n := After(cfg, es), Receipts(cfg, es, x);
      && Prints(s.log.printed, x) == (if n > 0 && Detectable(cfg, x.id) then 1 else n)
      && |Acknowledging(s.log.causes, x)| == n
  {
    hide Step;
    if es != [] {
      var before, e := es[..|es| - 1], es[|es| - 1];
      var s := After(cfg, before);
      DeliveredExactly(cfg, before, x);
      SeenExactly(cfg, before, x);
      RunSound(cfg, before);
      StepDelivers(cfg, s, e, x);
      assert s.log.next !in Acknowledging(s.log.causes, x);
    }
  }

  // ---------------------------------------------------------------------------
  //  Everything the user sees, over both protocols
  // ---------------------------------------------------------------------------

  /** Event `e` after the run `before` is shown: an ERR, or a MSG that is not recognised as a repetition. */
  predicate Shows(cfg: Config, before: seq<Event>, e: Event) {
    && !After(cfg, before).halted && e.Receive? && Handles(After(cfg, before), e.d)
    && (e.d.kind == ERR
        || (e.d.kind == MSG
            && !(cfg.proto == UDP && Detectable(cfg, e.d.id) && Receipts(cfg, before, Seen(MSG, e.d.id)) > 0)))
  }

  /** The messages of a run that are shown, in the order of their arrival. */
  function Shown(cfg: Config, es: seq<Event>): seq<Seen> {
    if es == [] then []
    else
      var before, e := es[..|es| - 1], es[|es| - 1];
      Shown(cfg, before) + if Shows(cfg, before, e) then [Seen(e.d.kind, e.d.id)] else []
  }

  /** What one receipt prints, given the outcome of the duplicate check. */
  lemma DispatchShows(cfg: Config, s: State, d: Datagram, repetitive: bool)
    ensures Dispatch(cfg, s, d, repetitive).log.printed ==
      if d.kind == ERR || (d.kind == MSG && !(cfg.proto == UDP && repetitive))
      then s.log.printed + [Seen(d.kind, d.id)] else s.log.printed
  {
    hide HandleReply, ReceiveUnknown;
    ReplyPrints(cfg, s, d);
    UnknownPrints(cfg, s, d);
  }

  lemma ReceiptShows(cfg: Config, s: State, d: Datagram)
    ensures ReceiveStep(cfg, s, d).log.printed ==
      if Handles(s, d) && (d.kind == ERR || (d.kind == MSG && !(cfg.proto == UDP && Repetitive(cfg, s.seen, d))))
      then s.log.printed + [Seen(d.kind, d.id)] else s.log.printed
  {
    hide Dispatch, Repetitive;
    DispatchShows(cfg, s, d, Repetitive(cfg, s.seen, d));
    DispatchShows(cfg, s, d, false);
    DispatchShows(cfg, s.(seen := s.seen + {Seen(d.kind, d.id)}), d, false);
  }

  /** Exactly what the user sees, and in which order, over every run of either protocol. */
  lemma {:induction false} ShownExactly(cfg: Config, es: seq<Event>)
    ensures After(cfg, es).log.printed == Shown(cfg, es)
  {
    hide Repetitive, ReceiveStep;
    if es != [] {
      var before, e := es[..|es| - 1], es[|es| - 1];
      var s := After(cfg, before);
      ShownExactly(cfg, before);
      if s.halted {
        Ignored(cfg, s, e);
      } else if e.Receive? {
        ReceiptShows(cfg, s, e.d);
        if cfg.proto == UDP {
          SeenExactly(cfg, before, Seen(e.d.kind, e.d.id));
          RepetitiveExact(cfg, s.seen, e.d);
        }
      } else {
        hide Step;
        OtherSteps(cfg, s, e);
      }
    }
  }

  /** Every handled ERR is shown, and over TCP every handled MSG, as often as it arrived. */
  lemma {:induction false} ShownEachTime(cfg: Config, es: seq<Event>, x: Seen)
    requires x.kind == ERR || (x.kind == MSG && cfg.proto == TCP)
    ensures Prints(After(cfg, es).log.printed, x) == Receipts(cfg, es, x)
  {
    hide Step, Prints;
    ShownExactly(cfg, es);
    assert Prints([], x) == 0 by { EmptyPrints(x); }
    if es != [] {
      var before, e := es[..|es| - 1], es[|es| - 1];
      ShownEachTime(cfg, before, x);
      ShownExactly(cfg, before);
      if Shows(cfg, before, e) { PrintsOne(Shown(cfg, before), Seen(e.d.kind, e.d.id), x); }
      assert Shown(cfg, before) + [] == Shown(cfg, before);
    }
  }

  lemma {:induction false} EmptyPrints(x: Seen)
    ensures Prints([], x) == 0
  {}
}
