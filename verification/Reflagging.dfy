/**
 * Strict stop-and-wait, exactly. A positive REPLY to AUTH reflags whatever message is at the front; when
 * that is a CONFIRM, it stops being an acknowledgement and is resent like a message of the client. This is
 * the only event that lets anything but the first message that is not a CONFIRM be in flight.
 */
module Reflagging {
  import opened Basics
  import opened Commands
  import opened Formats
  import opened ChatProtocol
  import opened Primitives
  import opened Discipline
  import opened Reachability
  import opened Safety
  import Tokenizer

  /** Every queued CONFIRM is an acknowledgement. */
  predicate AcksStay(q: seq<Msg>) { forall i :: 0 <= i < |q| && q[i].IsConf() ==> q[i].IsAck() }

  /** A positive REPLY is handled as the answer to AUTH while a CONFIRM is at the front. */
  predicate Reflags(cfg: Config, s: State, e: Event) {
    && cfg.proto == UDP && !s.halted && e.Receive? && Handles(s, e.d) && e.d.kind == REPLY && e.d.ok
    && !Repetitive(cfg, s.seen, e.d) && s.fsm == WaitReply && s.queue != [] && s.queue[0].IsConf()
  }

  // ---------------------------------------------------------------------------
  //  One step
  // ---------------------------------------------------------------------------

  lemma ConfirmAcks(s: State, d: Datagram, flags: Flag)
    requires flags == FlagConfirm || flags == FlagNokReply
    ensures AcksStay(SendConfirm(s, d, flags).queue) <==> AcksStay(s.queue)
  {
    var q := SendConfirm(s, d, flags).queue;
    assert q[1..] == s.queue;
    assert forall i :: 0 <= i < |s.queue| ==> s.queue[i] == q[i + 1];
  }

  lemma ByeAcks(cfg: Config, s: State)
    requires AcksStay(s.queue)
    ensures AcksStay(SendBye(cfg, s).queue)
  {
    hide PacketOf;
  }

  lemma ErrorAndByeAcks(cfg: Config, s: State, stale: Id, text: seq<byte>)
    requires AcksStay(s.queue)
    ensures AcksStay(SendErrorAndBye(cfg, s, stale, text).queue)
  {
    hide PacketOf, SendBye;
    ByeAcks(cfg, SendError(cfg, s, stale, text));
  }

  lemma MainAcks(cfg: Config, s: State, c: Command)
    requires AcksStay(s.queue)
    ensures AcksStay(RunCommand(cfg, s, c).queue)
  {
    hide PacketOf;
  }

  lemma ErrorAcks(cfg: Config, s: State, d: Datagram)
    ensures AcksStay(ReceiveError(cfg, s, d).queue) && AcksStay(ReceiveUnknown(cfg, s, d).queue)
  {
    hide SendConfirm, SendBye, SendErrorAndBye;
    var t, u := PopAll(s), PopAll(s.(fsm := Error));
    ConfirmAcks(t, d, FlagConfirm);
    ConfirmAcks(u, d, FlagConfirm);
    ByeAcks(cfg, if cfg.proto == UDP then SendConfirm(t, d, FlagConfirm) else t);
    ErrorAndByeAcks(cfg, if cfg.proto == UDP then SendConfirm(u, d, FlagConfirm) else u, d.id, UNKNOWN_FORMAT);
  }

  lemma HandleConfirmAcks(cfg: Config, s: State, id: Id)
    requires AcksStay(s.queue)
    ensures AcksStay(HandleConfirm(cfg, s, id).queue)
  {
    hide MsgId;
  }

  /** The one case that matters: the CONFIRM at the front stops being an acknowledgement. */
  lemma ReplyAcks(cfg: Config, s: State, d: Datagram)
    requires AcksStay(s.queue) && KindsOk(s)
    ensures AcksStay(HandleReply(cfg, s, d).queue)
      <==> !(d.ok && s.fsm == WaitReply && s.queue != [] && s.queue[0].IsConf())
  {
    hide SendConfirm, MsgId;
    if s.fsm == WaitReply || s.fsm == JoinAttempt {
      if d.ok {
        var t := if s.fsm == WaitReply && s.queue != [] then SetFront(s, s.queue[0].(flags := FlagConfirmed)) else s;
        ConfirmAcks(t.(fsm := WaitReplyConf), d, FlagConfirm);
        if s.fsm == WaitReply && s.queue != [] { assert t.queue[0].flags == FlagConfirmed; }
      } else if s.queue != [] {
        var t := if s.queue[0].flags == FlagAuth
                 then SetFront(s, s.queue[0].(flags := FlagRejected)).(fsm := Start) else s;
        assert MsgOk(s.queue[0]);
        ConfirmAcks(if t.fsm == JoinAttempt then t.(fsm := Open) else t, d, FlagNokReply);
      }
    }
  }

  lemma DispatchAcks(cfg: Config, s: State, d: Datagram, repetitive: bool)
    requires AcksStay(s.queue) && KindsOk(s) && (cfg.proto == TCP ==> !repetitive)
    ensures AcksStay(Dispatch(cfg, s, d, repetitive).queue)
      <==> !(cfg.proto == UDP && d.kind == REPLY && !repetitive && d.ok && s.fsm == WaitReply
             && s.queue != [] && s.queue[0].IsConf())
  {
    hide SendConfirm, HandleConfirm, HandleReply, ReceiveError, ReceiveUnknown, KindsOk;
    ConfirmAcks(s, d, FlagConfirm);
    HandleConfirmAcks(cfg, s, d.id);
    ReplyAcks(cfg, s, d);
    ErrorAcks(cfg, s, d);
  }

  lemma TransmitAcks(cfg: Config, s: State)
    requires AcksStay(s.queue)
    ensures AcksStay(Transmit(cfg, s).queue)
  {
    hide Stamp;
  }

  lemma {:induction false} FilterAcks(cfg: Config, s: State)
    requires AcksStay(s.queue)
    ensures AcksStay(Filter(cfg, s).queue)
    decreases |s.queue|
  {
    hide SendErrorAndBye;
    if s.queue != [] {
      ErrorAndByeAcks(cfg, PopAll(s).(fsm := Error), cfg.senderStale, TIMED_OUT);
      FilterAcks(cfg, PopFront(s));
      FilterAcks(cfg, PopFront(s.(fsm := End)));
    }
  }

  lemma SenderAcks(cfg: Config, s: State)
    requires AcksStay(s.queue)
    ensures AcksStay(SenderStep(cfg, s).queue)
  {
    hide Filter, SenderLogic, Transmit;
    FilterAcks(cfg, s);
    TransmitAcks(cfg, s);
    var f, p := LogicForm(cfg, s);
    TransmitAcks(cfg, s.(fsm := f));
    if s.queue != [] { TransmitAcks(cfg, PopFront(s)); }
  }

  /** Exactly: from a state whose queued CONFIRMs are all acknowledgements, only `Reflags` changes that. */
  lemma StepAcks(cfg: Config, s: State, e: Event)
    requires Sound(cfg, s) && AcksStay(s.queue)
    ensures AcksStay(Step(cfg, s, e).queue) <==> !Reflags(cfg, s, e)
  {
    hide Dispatch, SenderStep, RunCommand, SendBye, Repetitive, Tokenizer.Parse, KindsOk;
    if !s.halted {
      match e {
        case Line(line) =>
          if Tokenizer.Tokenizable(line) { MainAcks(cfg, s, Tokenizer.Parse(line)); }
        case Eof => ByeAcks(cfg, s.(fsm := EmptyQueueBye));
        case Receive(d) => if Handles(s, d) { ReceiptAcks(cfg, s, d); }
        case Garbled =>
        case SenderTurn => SenderAcks(cfg, s);
        case Sigint => ByeAcks(cfg, PopAll(s.(fsm := SigintBye)));
      }
    }
  }

  lemma ReceiptAcks(cfg: Config, s: State, d: Datagram)
    requires KindsOk(s) && AcksStay(s.queue) && Handles(s, d) && !s.halted
    ensures AcksStay(ReceiveStep(cfg, s, d).queue) <==> !Reflags(cfg, s, Receive(d))
  {
    hide Dispatch, Repetitive;
    var repetitive := cfg.proto == UDP && Repetitive(cfg, s.seen, d);
    var t := if cfg.proto == TCP || repetitive then s else s.(seen := s.seen + {Seen(d.kind, d.id)});
    DispatchAcks(cfg, t, d, repetitive);
  }

  // ---------------------------------------------------------------------------
  //  Whole runs
  // ---------------------------------------------------------------------------

  predicate NeverReflags(cfg: Config, es: seq<Event>) {
    es == [] || (NeverReflags(cfg, es[..|es| - 1]) && !Reflags(cfg, After(cfg, es[..|es| - 1]), es[|es| - 1]))
  }

  /** The queued CONFIRMs are acknowledgements after every step of a run if and only if no event reflags one. */
  lemma {:induction false} AcksStayExactly(cfg: Config, es: seq<Event>)
    ensures NeverReflags(cfg, es) <==> forall k :: 0 <= k <= |es| ==> AcksStay(After(cfg, es[..k]).queue)
  {
    hide Step, AcksStay, Reflags, Sound;
    assert es[..|es|] == es;
    if es == [] {
      NothingQueued(cfg);
    } else {
      var before := es[..|es| - 1];
      AcksStayExactly(cfg, before);
      assert forall k :: 0 <= k < |es| ==> es[..k] == before[..k];
      assert before[..|before|] == before;
      RunSound(cfg, before);
      if AcksStay(After(cfg, before).queue) { StepAcks(cfg, After(cfg, before), es[|es| - 1]); }
    }
  }

  lemma {:induction false} NothingQueued(cfg: Config)
    ensures AcksStay(After(cfg, []).queue)
  {}

  /** Without such an event, only the first message that is not a CONFIRM has been transmitted. */
  lemma {:induction false} StrictStopAndWait(cfg: Config, es: seq<Event>, j: nat)
    requires NeverReflags(cfg, es)
    requires j < |After(cfg, es).queue| && After(cfg, es).queue[j].sendCount > 0
    ensures var q := After(cfg, es).queue; !q[j].IsConf() && forall i :: 0 <= i < j ==> q[i].IsConf()
  {
    hide Step, NeverReflags;
    var s := After(cfg, es);
    AcksStayExactly(cfg, es);
    assert es[..|es|] == es;
    assert AcksStay(s.queue);
    RunSound(cfg, es);
    StopAndWait(cfg, es, j);
    assert MsgOk(s.queue[j]);
  }
}
