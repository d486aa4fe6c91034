/**
 * Authentication before use, over UDP and TCP: the client is open, and a MSG or JOIN is queued or
 * transmitted, only after an AUTH was enqueued and, later, a positive REPLY was handled.
 */
module Authentication {
  import opened Basics
  import opened Commands
  import opened Formats
  import opened ChatProtocol
  import Tokenizer

  /** The user's /auth is taken and an AUTH message is enqueued. */
  predicate EnqueuesAuth(s: State, e: Event) {
    && !s.halted && s.fsm == Start && e.Line? && Tokenizer.Tokenizable(e.line)
    && Tokenizer.Parse(e.line).CmdAuth?
  }

  /** A positive REPLY to the AUTH is handled. */
  predicate HandlesPositiveReply(cfg: Config, s: State, e: Event) {
    && !s.halted && e.Receive? && Handles(s, e.d) && e.d.kind == REPLY && e.d.ok
    && (if cfg.proto == UDP then s.fsm == WaitReply && !Repetitive(cfg, s.seen, e.d) else s.fsm == AuthSent)
  }

  /** Somewhere in the run an AUTH was enqueued. */
  predicate Asked(cfg: Config, es: seq<Event>) {
    es != [] && (Asked(cfg, es[..|es| - 1]) || EnqueuesAuth(After(cfg, es[..|es| - 1]), es[|es| - 1]))
  }

  /** Somewhere in the run, after an AUTH was enqueued, a positive REPLY was handled. */
  predicate Authenticated(cfg: Config, es: seq<Event>) {
    es != [] &&
    var before := es[..|es| - 1];
    Authenticated(cfg, before)
    || (Asked(cfg, before) && HandlesPositiveReply(cfg, After(cfg, before), es[|es| - 1]))
  }

  predicate IsUse(m: Msg) { m.kind == MSG || m.kind == JOIN }

  predicate Asking(f: Fsm) { f == AuthWaiting || f == AuthSent || f == WaitReply }

  predicate InUse(f: Fsm) { f == WaitReplyConf || f == Open || f == JoinAttempt }

  /** What the state shows when no AUTH was enqueued (`asked`), or none was accepted (`authed`). */
  predicate Tracked(s: State, asked: bool, authed: bool) {
    && (authed ==> asked)
    && (!asked ==> !Asking(s.fsm) && (forall i :: 0 <= i < |s.queue| ==> s.queue[i].flags != FlagAuth))
    && (!authed ==> !InUse(s.fsm) && (forall i :: 0 <= i < |s.queue| ==> !IsUse(s.queue[i]))
                    && (forall i :: 0 <= i < |s.log.sent| ==> !IsUse(s.log.sent[i])))
  }

  lemma ConfirmTracked(s: State, d: Datagram, flags: Flag, asked: bool, authed: bool)
    requires Tracked(s, asked, authed) && flags != FlagAuth
    ensures Tracked(SendConfirm(s, d, flags), asked, authed)
  {}

  lemma EnqueueTracked(cfg: Config, s: State, c: Command, flags: Flag, asked: bool, authed: bool)
    requires TcpKnown(c) && Tracked(s, asked, authed)
    requires flags == FlagAuth ==> asked
    requires c.CmdMsg? || c.CmdJoin? ==> authed
    ensures Tracked(Enqueue(cfg, s, c, flags), asked, authed)
  {
    hide PacketOf;
  }

  lemma ByeTracked(cfg: Config, s: State, asked: bool, authed: bool)
    requires Tracked(s, asked, authed)
    ensures Tracked(SendBye(cfg, s), asked, authed)
  {}

  lemma ErrorAndByeTracked(cfg: Config, s: State, id: Id, text: seq<byte>, asked: bool, authed: bool)
    requires Tracked(s, asked, authed)
    ensures Tracked(SendErrorAndBye(cfg, s, id, text), asked, authed)
  {
    var t := SendError(cfg, s, id, text);
    ByeTracked(cfg, t, asked, authed);
  }

  lemma LineTracked(cfg: Config, s: State, c: Command, asked: bool, authed: bool)
    requires Tracked(s, asked, authed)
    ensures Tracked(RunCommand(cfg, s, c), asked || (s.fsm == Start && c.CmdAuth?), authed)
  {
    match c
    case CmdAuth(_, _, _, name) =>
      var t := s.(displayName := Some(name));
      if s.fsm == Start {
        EnqueueTracked(cfg, t.(fsm := AuthWaiting), c, FlagAuth, true, authed);
      }
    case CmdJoin(_, _) => if s.fsm == Open { EnqueueTracked(cfg, s, c, FlagNone, asked, authed); }
    case CmdMsg(_) => if s.fsm == Open { EnqueueTracked(cfg, s, c, FlagNone, asked, authed); }
    case CmdExit(_) => EnqueueTracked(cfg, s, c, FlagNone, asked, authed);
    case _ =>
  }

  lemma ReplyTracked(cfg: Config, s: State, d: Datagram, asked: bool, authed: bool)
    requires Tracked(s, asked, authed)
    ensures Tracked(HandleReply(cfg, s, d), asked, authed || (asked && s.fsm == WaitReply && d.ok))
  {
    if s.fsm == WaitReply || s.fsm == JoinAttempt {
      var now := authed || (asked && s.fsm == WaitReply && d.ok);
      if d.ok {
        var t := if s.fsm == WaitReply && s.queue != [] then SetFront(s, s.queue[0].(flags := FlagConfirmed)) else s;
        assert Tracked(t.(fsm := WaitReplyConf), asked, now);
        ConfirmTracked(t.(fsm := WaitReplyConf), d, FlagConfirm, asked, now);
      } else if s.queue != [] {
        var t := if s.queue[0].flags == FlagAuth
                 then SetFront(s, s.queue[0].(flags := FlagRejected)).(fsm := Start) else s;
        var u := if t.fsm == JoinAttempt then t.(fsm := Open) else t;
        assert Tracked(u, asked, now);
        ConfirmTracked(u, d, FlagNokReply, asked, now);
      }
    }
  }

  lemma ErrorTracked(cfg: Config, s: State, d: Datagram, asked: bool, authed: bool)
    requires Tracked(s, asked, authed)
    ensures Tracked(ReceiveError(cfg, s, d), asked, authed)
    ensures Tracked(ReceiveUnknown(cfg, s, d), asked, authed)
  {
    var t := PopAll(s);
    var u := if cfg.proto == UDP then SendConfirm(t, d, FlagConfirm) else t;
    assert Tracked(u, asked, authed);
    ByeTracked(cfg, u, asked, authed);
    var v := PopAll(s.(fsm := Error));
    var w := if cfg.proto == UDP then SendConfirm(v, d, FlagConfirm) else v;
    assert Tracked(w, asked, authed);
    ErrorAndByeTracked(cfg, w, d.id, UNKNOWN_FORMAT, asked, authed);
  }

  lemma ReplyTcpTracked(s: State, ok: bool, asked: bool, authed: bool)
    requires Tracked(s, asked, authed)
    ensures Tracked(HandleReplyTcp(s, ok), asked, authed || (asked && s.fsm == AuthSent && ok))
  {}

  /** A REPLY answers the AUTH: see HandlesPositiveReply, after the duplicate check. */
  predicate Answers(cfg: Config, s: State, d: Datagram, repetitive: bool) {
    d.kind == REPLY && d.ok && (if cfg.proto == UDP then s.fsm == WaitReply && !repetitive else s.fsm == AuthSent)
  }

  lemma DispatchTracked(cfg: Config, s: State, d: Datagram, repetitive: bool, asked: bool, authed: bool)
    requires Tracked(s, asked, authed)
    ensures Tracked(Dispatch(cfg, s, d, repetitive), asked, authed || (asked && Answers(cfg, s, d, repetitive)))
  {
    if MsgTypeOf(d.kind) == REPLY {
      DispatchReplyTracked(cfg, s, d, repetitive, asked, authed);
    } else {
      DispatchOtherTracked(cfg, s, d, repetitive, asked, authed);
    }
  }

  lemma DispatchReplyTracked(cfg: Config, s: State, d: Datagram, repetitive: bool, asked: bool, authed: bool)
    requires Tracked(s, asked, authed) && MsgTypeOf(d.kind) == REPLY
    ensures Tracked(Dispatch(cfg, s, d, repetitive), asked, authed || (asked && Answers(cfg, s, d, repetitive)))
  {
    if cfg.proto == TCP {
      ReplyTcpTracked(s, d.ok, asked, authed);
    } else if repetitive {
      ConfirmTracked(s, d, FlagConfirm, asked, authed);
    } else {
      ReplyTracked(cfg, s, d, asked, authed);
    }
  }

  lemma DispatchOtherTracked(cfg: Config, s: State, d: Datagram, repetitive: bool, asked: bool, authed: bool)
    requires Tracked(s, asked, authed) && MsgTypeOf(d.kind) != REPLY
    ensures Tracked(Dispatch(cfg, s, d, repetitive), asked, authed)
  {
    hide HandleConfirm;
    hide ReceiveError;
    hide ReceiveUnknown;
    hide HandleReply;
    ConfirmTracked(s, d, FlagConfirm, asked, authed);
    ErrorTracked(cfg, s, d, asked, authed);
    HandleConfirmTracked(cfg, s, d.id, asked, authed);
  }

  lemma HandleConfirmTracked(cfg: Config, s: State, id: Id, asked: bool, authed: bool)
    requires Tracked(s, asked, authed)
    ensures Tracked(HandleConfirm(cfg, s, id), asked, authed)
  {}

  lemma TransmitTracked(cfg: Config, s: State, asked: bool, authed: bool)
    requires Tracked(s, asked, authed)
    ensures Tracked(Transmit(cfg, s), asked, authed)
  {}

  lemma {:induction false} FilterTracked(cfg: Config, s: State, asked: bool, authed: bool)
    requires Tracked(s, asked, authed)
    ensures Tracked(Filter(cfg, s), asked, authed)
    decreases |s.queue|
  {
    if s.queue != [] {
      var m := s.queue[0];
      if m.sendCount > cfg.maxRetries && s.fsm != ErrorWaitConf && s.fsm != EndWaitConf {
        ErrorAndByeTracked(cfg, PopAll(s).(fsm := Error), cfg.senderStale, TIMED_OUT, asked, authed);
      } else if m.sendCount > cfg.maxRetries || !Stops(m) {
        FilterTracked(cfg,
          PopFront(if m.sendCount > cfg.maxRetries && s.fsm == EndWaitConf then s.(fsm := End) else s), asked, authed);
      }
    }
  }

  lemma LogicStartTracked(cfg: Config, s: State, asked: bool, authed: bool)
    requires s.queue != [] && Tracked(s, asked, authed)
    ensures Tracked(LogicStart(cfg, s), asked, authed)
  {
    var t := if s.queue[0].flags == FlagAuth && (s.fsm == Start || s.fsm == AuthWaiting)
             then s.(fsm := AuthSent) else s;
    assert Tracked(t, asked, authed);
    TransmitTracked(cfg, t, asked, authed);
  }

  lemma LogicErrorTracked(cfg: Config, s: State, asked: bool, authed: bool)
    requires s.queue != [] && Tracked(s, asked, authed)
    ensures Tracked(LogicError(cfg, s), asked, authed)
  {
    var t := if s.queue[0].flags == FlagBye then s.(fsm := if cfg.proto == UDP then EndWaitConf else End)
             else if s.queue[0].flags == FlagErr && cfg.proto == UDP then s.(fsm := ErrorWaitConf)
             else s;
    assert Tracked(t, asked, authed);
    TransmitTracked(cfg, t, asked, authed);
  }

  lemma LogicTracked(cfg: Config, s: State, asked: bool, authed: bool)
    requires Tracked(s, asked, authed)
    ensures Tracked(SenderLogic(cfg, s), asked, authed)
  {
    hide LogicError;
    hide LogicStart;
    hide Transmit;
    if s.queue != [] {
      if s.fsm == WaitReplyConf {
        TransmitTracked(cfg, if s.queue[0].kind == CONF then s.(fsm := Open) else s, asked, authed);
      } else if s.fsm == Open {
        TransmitTracked(cfg, PopFront(s), asked, authed);
        TransmitTracked(cfg, if s.queue[0].kind == JOIN then s.(fsm := JoinAttempt) else s, asked, authed);
      } else if s.fsm == Error || s.fsm == ErrorWaitConf {
        LogicErrorTracked(cfg, s, asked, authed);
      } else if s.fsm.Closing() {
        TransmitTracked(cfg, s, asked, authed);
      } else if s.fsm != JoinAttempt {
        LogicStartTracked(cfg, s, asked, authed);
      } else {
        TransmitTracked(cfg, s, asked, authed);
      }
    }
  }

  lemma SenderTracked(cfg: Config, s: State, asked: bool, authed: bool)
    requires Tracked(s, asked, authed)
    ensures Tracked(SenderStep(cfg, s), asked, authed)
  {
    match s.pc
    case Top => FilterTracked(cfg, s, asked, authed);
    case Logic => LogicTracked(cfg, s, asked, authed);
    case Wake => TransmitTracked(cfg, s, asked, authed);
    case Gone =>
  }

  lemma StepTracked(cfg: Config, s: State, e: Event, asked: bool, authed: bool)
    requires Tracked(s, asked, authed)
    ensures Tracked(Step(cfg, s, e), asked || EnqueuesAuth(s, e), authed || (asked && HandlesPositiveReply(cfg, s, e)))
  {
    if !s.halted {
      match e {
        case Line(line) =>
          if Tokenizer.Tokenizable(line) { LineTracked(cfg, s, Tokenizer.Parse(line), asked, authed); }
        case Eof => ByeTracked(cfg, s.(fsm := EmptyQueueBye), asked, authed);
        case Receive(d) =>
          if Handles(s, d) {
            var repetitive := cfg.proto == UDP && Repetitive(cfg, s.seen, d);
            var t := if cfg.proto == TCP || repetitive then s else s.(seen := s.seen + {Seen(d.kind, d.id)});
            DispatchTracked(cfg, t, d, repetitive, asked, authed);
          }
        case Garbled =>
        case SenderTurn => SenderTracked(cfg, s, asked, authed);
        case Sigint => ByeTracked(cfg, PopAll(s.(fsm := SigintBye)), asked, authed);
      }
    }
  }

  lemma {:induction false} RunTracked(cfg: Config, es: seq<Event>)
    ensures Tracked(After(cfg, es), Asked(cfg, es), Authenticated(cfg, es))
  {
    if es != [] {
      var before := es[..|es| - 1];
      RunTracked(cfg, before);
      StepTracked(cfg, After(cfg, before), es[|es| - 1], Asked(cfg, before), Authenticated(cfg, before));
    }
  }

  /** The two history predicates spelled out: the AUTH comes first, the REPLY later. */
  ghost predicate AskedThenAnswered(cfg: Config, es: seq<Event>) {
    exists j, k :: 0 <= j < k < |es|
      && EnqueuesAuth(After(cfg, es[..j]), es[j]) && HandlesPositiveReply(cfg, After(cfg, es[..k]), es[k])
  }

  lemma {:induction false} AskedAt(cfg: Config, es: seq<Event>) returns (j: nat)
    requires Asked(cfg, es)
    ensures j < |es| && EnqueuesAuth(After(cfg, es[..j]), es[j])
  {
    hide EnqueuesAuth;
    hide Step;
    var before := es[..|es| - 1];
    if Asked(cfg, before) {
      j := AskedAt(cfg, before);
      assert before[..j] == es[..j];
    } else {
      j := |es| - 1;
    }
  }

  lemma {:induction false} AuthenticatedAt(cfg: Config, es: seq<Event>)
    requires Authenticated(cfg, es)
    ensures AskedThenAnswered(cfg, es)
  {
    hide EnqueuesAuth;
    hide HandlesPositiveReply;
    hide Step;
    var before := es[..|es| - 1];
    if Authenticated(cfg, before) {
      AuthenticatedAt(cfg, before);
      var j, k :| 0 <= j < k < |before| && EnqueuesAuth(After(cfg, before[..j]), before[j])
        && HandlesPositiveReply(cfg, After(cfg, before[..k]), before[k]);
      assert before[..j] == es[..j] && before[..k] == es[..k];
      assert EnqueuesAuth(After(cfg, es[..j]), es[j]) && HandlesPositiveReply(cfg, After(cfg, es[..k]), es[k]);
    } else {
      var j := AskedAt(cfg, before);
      assert before[..j] == es[..j] && before[j] == es[j];
    }
  }

  /** Authentication before use, over every run. */
  lemma {:induction false} AuthenticationBeforeUse(cfg: Config, es: seq<Event>)
    requires var s := After(cfg, es);
      || InUse(s.fsm)
      || (exists i :: 0 <= i < |s.queue| && IsUse(s.queue[i]))
      || (exists i :: 0 <= i < |s.log.sent| && IsUse(s.log.sent[i]))
    ensures AskedThenAnswered(cfg, es)
  {
    RunTracked(cfg, es);
    AuthenticatedAt(cfg, es);
  }
}
