/**
 * What becomes of an acknowledgement over UDP: it waits in the queue, it was transmitted exactly once with
 * its own bytes, one of a few events removed it untransmitted, or a REPLY reflagged it.
 */
module AckFates {
  import opened Basics
  import opened Commands
  import opened Formats
  import opened ChatProtocol
  import opened Primitives
  import opened Discipline
  import opened Reachability
  import opened ErrorShape
  import opened Shutdown
  import opened LostBye
  import opened Safety
  import opened Reflagging
  import Tokenizer

  /** `m` is the unsent CONFIRM of the datagram with id `id`. */
  predicate Unsent(m: Msg, k: nat, id: Id) { m.serial == k && m.IsAck() && m.data == UdpConfirm(id) }

  predicate Queued(q: seq<Msg>, k: nat, id: Id) { exists i :: 0 <= i < |q| && Unsent(q[i], k, id) }

  predicate NoneIn(q: seq<Msg>, k: nat) { forall i :: 0 <= i < |q| ==> q[i].serial != k }

  /** Acknowledgement `k` waits to be transmitted. */
  ghost predicate Pending(s: State, k: nat) {
    k in s.log.causes && k < s.log.next && Count(s.log.sent, k) == 0 && Queued(s.queue, k, s.log.causes[k].id)
  }

  /** Acknowledgement `k` was transmitted once, with its own bytes, and has left the queue. */
  ghost predicate Delivered(s: State, k: nat) {
    && k in s.log.causes && k < s.log.next && Count(s.log.sent, k) == 1 && NoneIn(s.queue, k)
    && exists j :: 0 <= j < |s.log.sent| && SentAs(s.log.sent[j], k, s.log.causes[k].id)
  }

  predicate SentAs(m: Msg, k: nat, id: Id) { m.serial == k && m.data == UdpConfirm(id) }

  ghost predicate Alive(s: State, k: nat) { Pending(s, k) || Delivered(s, k) }

  /** Acknowledgement `k` left the queue without having been transmitted. */
  ghost predicate Lost(s: State, k: nat) {
    k in s.log.causes && k < s.log.next && Count(s.log.sent, k) == 0 && NoneIn(s.queue, k)
  }

  /** An unknown message or an ERR: the queue is emptied. */
  predicate Clears(d: Datagram) { MsgTypeOf(d.kind) !in {CONF, REPLY, MSG, BYE} }

  /** The filter comes to message `k`, behind messages it drops, and drops it. */
  predicate Takes(cfg: Config, fsm: Fsm, q: seq<Msg>, k: nat)
    decreases |q|
  {
    q != [] && (if q[0].sendCount > cfg.maxRetries then fsm == ErrorWaitConf else !Stops(q[0]))
    && (q[0].serial == k || Takes(cfg, fsm, q[1..], k))
  }

  /** The events that remove a waiting acknowledgement from the queue without transmitting it. */
  predicate Drops(cfg: Config, s: State, e: Event, k: nat) {
    !s.halted &&
    match e
    case Sigint => true
    case Receive(d) => Handles(s, d) && Clears(d)
    case SenderTurn =>
      s.pc == Top && s.fsm != End && (GivesUp(cfg, s.fsm, s.queue) || Takes(cfg, s.fsm, s.queue, k))
    case _ => false
  }

  /** The event that turns it into a message of the client: a REPLY reflags it at the front. */
  predicate Disguises(cfg: Config, s: State, e: Event, k: nat) {
    Reflags(cfg, s, e) && s.queue[0].serial == k
  }

  // ---------------------------------------------------------------------------
  //  What has been decided is for ever
  // ---------------------------------------------------------------------------

  lemma DeliveredSend(cfg: Config, s: State, t: State, k: nat)
    requires IsSend(cfg, s, t) && Delivered(s, k)
    ensures Delivered(t, k)
  {
    var out := SendForm(cfg, s, t);
    CountOne(s.log.sent, out, k);
    var j :| 0 <= j < |s.log.sent| && SentAs(s.log.sent[j], k, s.log.causes[k].id);
    assert t.log.sent[j] == s.log.sent[j];
  }

  lemma DeliveredPrimitive(cfg: Config, s: State, t: State, k: nat)
    requires Primitive(cfg, s, t) && Delivered(s, k)
    ensures Delivered(t, k)
  {
    hide Transmit, MsgOk;
    if IsPush(s, t) {
      PushForm(s, t);
    } else if IsAppend(s, t) {
      AppendForm(s, t);
    } else if IsSend(cfg, s, t) {
      DeliveredSend(cfg, s, t, k);
    } else {
      SubForm(cfg, s, t);
    }
  }

  lemma DeliveredKept(cfg: Config, s: State, e: Event, k: nat)
    requires Delivered(s, k) && SendReady(cfg, s)
    ensures Delivered(Step(cfg, s, e), k)
  {
    hide Delivered, Primitive;
    var inv := (x: State) => Delivered(x, k);
    forall x: State, y: State | Primitive(cfg, x, y) && inv(x) ensures inv(y) { DeliveredPrimitive(cfg, x, y, k); }
    StepKeeps(cfg, s, e, inv);
  }

  lemma LostSend(cfg: Config, s: State, t: State, k: nat)
    requires IsSend(cfg, s, t) && Lost(s, k)
    ensures Lost(t, k)
  {
    var out := SendForm(cfg, s, t);
    CountOne(s.log.sent, out, k);
  }

  lemma LostPrimitive(cfg: Config, s: State, t: State, k: nat)
    requires Primitive(cfg, s, t) && Lost(s, k)
    ensures Lost(t, k)
  {
    hide Transmit, MsgOk;
    if IsPush(s, t) {
      PushForm(s, t);
    } else if IsAppend(s, t) {
      AppendForm(s, t);
    } else if IsSend(cfg, s, t) {
      LostSend(cfg, s, t, k);
    } else {
      SubForm(cfg, s, t);
    }
  }

  lemma LostKept(cfg: Config, s: State, e: Event, k: nat)
    requires Lost(s, k) && SendReady(cfg, s)
    ensures Lost(Step(cfg, s, e), k)
  {
    hide Lost, Primitive;
    var inv := (x: State) => Lost(x, k);
    forall x: State, y: State | Primitive(cfg, x, y) && inv(x) ensures inv(y) { LostPrimitive(cfg, x, y, k); }
    StepKeeps(cfg, s, e, inv);
  }

  // ---------------------------------------------------------------------------
  //  Queue operations
  // ---------------------------------------------------------------------------

  lemma QueuedPush(m: Msg, q: seq<Msg>, k: nat, id: Id)
    requires Queued(q, k, id)
    ensures Queued([m] + q, k, id)
  {
    var i :| 0 <= i < |q| && Unsent(q[i], k, id);
    assert ([m] + q)[i + 1] == q[i];
  }

  lemma QueuedAppend(q: seq<Msg>, m: Msg, k: nat, id: Id)
    requires Queued(q, k, id)
    ensures Queued(q + [m], k, id)
  {
    var i :| 0 <= i < |q| && Unsent(q[i], k, id);
    assert (q + [m])[i] == q[i];
  }

  /** Another message at the front changes nothing for those behind it. */
  lemma QueuedFront(q: seq<Msg>, m: Msg, k: nat, id: Id)
    requires q != [] && q[0].serial != k && Queued(q, k, id)
    ensures Queued(q[0 := m], k, id) && Queued(q[1..], k, id)
  {
    var i :| 0 <= i < |q| && Unsent(q[i], k, id);
    assert q[0 := m][i] == q[i] && q[1..][i - 1] == q[i];
  }

  lemma PendingPush(s: State, d: Datagram, flags: Flag, k: nat)
    requires Pending(s, k) && (flags == FlagConfirm || flags == FlagNokReply)
    ensures Pending(SendConfirm(s, d, flags), k)
  {
    hide Queued;
    QueuedPush(NewMsg(s, UdpConfirm(d.id), CONF, flags), s.queue, k, s.log.causes[k].id);
  }

  /** A new acknowledgement waits. */
  lemma NewPending(s: State, d: Datagram, flags: Flag)
    requires (flags == FlagConfirm || flags == FlagNokReply) && Count(s.log.sent, s.log.next) == 0
    ensures Pending(SendConfirm(s, d, flags), s.log.next)
  {
    assert Unsent(SendConfirm(s, d, flags).queue[0], s.log.next, d.id);
  }

  lemma PendingAppend(s: State, data: Packet, kind: byte, flags: Flag, k: nat)
    requires Pending(s, k)
    ensures Pending(Append(s, data, kind, flags), k)
  {
    hide Queued;
    QueuedAppend(s.queue, NewMsg(s, data, kind, flags), k, s.log.causes[k].id);
  }

  lemma PendingBye(cfg: Config, s: State, k: nat)
    requires Pending(s, k)
    ensures Pending(SendBye(cfg, s), k)
  {
    PendingAppend(s, PacketOf(cfg, CmdExit([]), cfg.mainStale, []), BYE, FlagBye, k);
  }

  lemma PendingErrorAndBye(cfg: Config, s: State, stale: Id, text: seq<byte>, k: nat)
    requires Pending(s, k)
    ensures Pending(SendErrorAndBye(cfg, s, stale, text), k)
  {
    hide Append, PacketOf, Pending;
    if s.displayName.Some? {
      PendingAppend(s, PacketOf(cfg, CmdErr(text), stale, s.displayName.value), CMD_ERR, FlagErr, k);
    } else {
      HaltPending(s, k);
    }
    PendingBye(cfg, SendError(cfg, s, stale, text), k);
  }

  lemma HaltPending(s: State, k: nat)
    requires Pending(s, k)
    ensures Pending(Halt(s), k)
  {}

  lemma PendingCommand(cfg: Config, s: State, c: Command, k: nat)
    requires Pending(s, k)
    ensures Pending(RunCommand(cfg, s, c), k)
  {
    hide PacketOf;
    if TcpKnown(c) {
      var name := if s.displayName.Some? then s.displayName.value else [];
      PendingAppend(s, PacketOf(cfg, c, cfg.mainStale, name), KindOf(c),
                    if c.CmdAuth? then FlagAuth else FlagNone, k);
      if c.CmdAuth? {
        PendingAppend(s, PacketOf(cfg, c, cfg.mainStale, c.name), AUTH, FlagAuth, k);
      }
    }
  }

  // ---------------------------------------------------------------------------
  //  The receiver
  // ---------------------------------------------------------------------------

  lemma {:induction false} ErrorLoses(cfg: Config, s: State, d: Datagram, k: nat)
    requires Count(s.log.sent, k) == 0 && k < s.log.next && k in s.log.causes
    ensures Lost(ReceiveError(cfg, s, d), k) && Lost(ReceiveUnknown(cfg, s, d), k)
  {
    hide ReceiveError, ReceiveUnknown, NoneIn;
    ErrorEmpties(cfg, s, d, k);
    UnknownEmpties(cfg, s, d, k);
    ErrorCauses(cfg, s, d);
  }

  lemma ErrorEmpties(cfg: Config, s: State, d: Datagram, k: nat)
    requires k < s.log.next
    ensures var t := ReceiveError(cfg, s, d);
      NoneIn(t.queue, k) && t.log.sent == s.log.sent && t.log.next > k
  {
    hide PacketOf;
  }

  lemma UnknownEmpties(cfg: Config, s: State, d: Datagram, k: nat)
    requires k < s.log.next
    ensures var t := ReceiveUnknown(cfg, s, d);
      NoneIn(t.queue, k) && t.log.sent == s.log.sent && t.log.next > k
  {
    hide PacketOf;
  }

  /** The front message changes its mark or its flag: what that means for acknowledgement `k`. */
  lemma FrontChanged(s: State, t: State, k: nat)
    requires Pending(s, k) && Unique(s.queue) && s.queue != [] && t.queue != []
    requires t.queue == s.queue[0 := t.queue[0]] && t.queue[0].serial == s.queue[0].serial
    requires SameHistory(s, t)
    ensures s.queue[0].serial != k ==> Alive(t, k)
    ensures s.queue[0].serial == k ==>
      (Alive(t, k) <==> Unsent(t.queue[0], k, s.log.causes[k].id)) && !Lost(t, k)
  {
    var id := s.log.causes[k].id;
    if s.queue[0].serial != k {
      QueuedFront(s.queue, t.queue[0], k, id);
    } else {
      assert forall i :: 0 < i < |t.queue| ==> t.queue[i] == s.queue[i] && t.queue[i].serial != k;
      assert !NoneIn(t.queue, k);
    }
  }

  ghost predicate Unique(q: seq<Msg>) {
    forall i, j :: 0 <= i < j < |q| ==> q[i].serial != q[j].serial
  }

  /** A CONFIRM taken for an acknowledgement only marks it. */
  lemma ConfirmFate(cfg: Config, s: State, id: Id, k: nat)
    requires Pending(s, k) && Unique(s.queue)
    ensures Alive(HandleConfirm(cfg, s, id), k)
  {
    hide Accepts, MsgId, Unique, Delivered, Queued;
    if s.queue != [] && Accepts(cfg, s.queue[0], id) {
      FrontChanged(s, HandleConfirm(cfg, s, id), k);
      if s.queue[0].serial == k { OnlyOne(s, k); }
    }
  }

  /** The one message with serial `k` is the acknowledgement. */
  lemma OnlyOne(s: State, k: nat)
    requires Pending(s, k) && Unique(s.queue) && s.queue != [] && s.queue[0].serial == k
    ensures Unsent(s.queue[0], k, s.log.causes[k].id)
  {}

  lemma ReplyFate(cfg: Config, s: State, d: Datagram, k: nat)
    requires Pending(s, k) && Unique(s.queue) && KindsOk(s)
    ensures var t := HandleReply(cfg, s, d);
      var disguised := d.ok && s.fsm == WaitReply && s.queue != [] && s.queue[0].serial == k;
      (Alive(t, k) <==> !disguised) && !Lost(t, k)
  {
    hide SendConfirm, MsgId, MsgOk, Unique;
    NotLost(s, k);
    if s.fsm == WaitReply || s.fsm == JoinAttempt {
      if d.ok {
        var t := if s.fsm == WaitReply && s.queue != [] then SetFront(s, s.queue[0].(flags := FlagConfirmed)) else s;
        if s.fsm == WaitReply && s.queue != [] { FrontChanged(s, t, k); }
        NotLost(t, k);
        PushFate(t.(fsm := WaitReplyConf), d, FlagConfirm, k);
      } else if s.queue != [] {
        var t := if s.queue[0].flags == FlagAuth
                 then SetFront(s, s.queue[0].(flags := FlagRejected)).(fsm := Start) else s;
        if s.queue[0].flags == FlagAuth { NotAck(s, k); FrontChanged(s, t, k); }
        NotLost(t, k);
        PushFate(if t.fsm == JoinAttempt then t.(fsm := Open) else t, d, FlagNokReply, k);
      }
    }
  }

  lemma NotLost(s: State, k: nat)
    ensures Alive(s, k) ==> !Lost(s, k)
  {}

  /** The only message with serial `k` is an acknowledgement. */
  lemma NotAck(s: State, k: nat)
    requires Pending(s, k) && Unique(s.queue) && s.queue != [] && s.queue[0].flags == FlagAuth
    ensures s.queue[0].serial != k
  {}

  /** One more acknowledgement in front does not change the fate of the others. */
  lemma {:induction false} PushFate(s: State, d: Datagram, flags: Flag, k: nat)
    requires (flags == FlagConfirm || flags == FlagNokReply) && k in s.log.causes && k < s.log.next
    requires Count(s.log.sent, k) == 0
    ensures Alive(SendConfirm(s, d, flags), k) <==> Alive(s, k)
    ensures Lost(SendConfirm(s, d, flags), k) <==> Lost(s, k)
  {
    var t := SendConfirm(s, d, flags);
    assert t.queue[0].serial != k && forall i :: 0 < i < |t.queue| ==> t.queue[i] == s.queue[i - 1];
    assert forall i :: 0 <= i < |s.queue| ==> s.queue[i] == t.queue[i + 1];
    if Pending(s, k) { PendingPush(s, d, flags, k); }
    if Pending(t, k) {
      var i :| 0 <= i < |t.queue| && Unsent(t.queue[i], k, t.log.causes[k].id);
      assert i > 0 && t.queue[i] == s.queue[i - 1];
      assert Pending(s, k);
    }
  }

  lemma DispatchFate(cfg: Config, s: State, d: Datagram, repetitive: bool, k: nat)
    requires cfg.proto == UDP && Pending(s, k) && Unique(s.queue) && KindsOk(s)
    ensures var t := Dispatch(cfg, s, d, repetitive);
      var disguised := d.kind == REPLY && !repetitive && d.ok && s.fsm == WaitReply
                       && s.queue != [] && s.queue[0].serial == k;
      (Lost(t, k) <==> Clears(d)) && (Alive(t, k) <==> !Clears(d) && !disguised)
  {
    hide SendConfirm, HandleConfirm, HandleReply, ReceiveError, ReceiveUnknown, KindsOk, Unique;
    var t := Dispatch(cfg, s, d, repetitive);
    PendingFacts(s, k);
    PendingPush(s, d, FlagConfirm, k);
    ConfirmFate(cfg, s, d.id, k);
    ReplyFate(cfg, s, d, k);
    ErrorLoses(cfg, s, d, k);
    if MsgTypeOf(d.kind) in {MSG, BYE} { SameFate(SendConfirm(s, d, FlagConfirm), t, k); }
    NotLost(t, k);
  }

  lemma ReceiptFate(cfg: Config, s: State, d: Datagram, k: nat)
    requires cfg.proto == UDP && Pending(s, k) && Unique(s.queue) && KindsOk(s) && !s.halted && Handles(s, d)
    ensures var t, e := ReceiveStep(cfg, s, d), Receive(d);
      (Lost(t, k) <==> Drops(cfg, s, e, k)) && (Alive(t, k) <==> !Drops(cfg, s, e, k) && !Disguises(cfg, s, e, k))
  {
    hide Dispatch, Repetitive, Unique, Alive, Lost, MsgOk;
    var repetitive := Repetitive(cfg, s.seen, d);
    var t := if repetitive then s else s.(seen := s.seen + {Seen(d.kind, d.id)});
    DispatchFate(cfg, t, d, repetitive, k);
    FrontIsConf(s, k);
  }

  lemma FrontIsConf(s: State, k: nat)
    requires Pending(s, k) && Unique(s.queue) && KindsOk(s)
    ensures s.queue != [] && (s.queue[0].serial == k ==> s.queue[0].IsConf())
  {
    var i :| 0 <= i < |s.queue| && Unsent(s.queue[i], k, s.log.causes[k].id);
    assert MsgOk(s.queue[i]);
  }

  // ---------------------------------------------------------------------------
  //  The sender
  // ---------------------------------------------------------------------------

  lemma TransmitFate(cfg: Config, s: State, k: nat)
    requires cfg.proto == UDP && Pending(s, k) && Unique(s.queue)
    ensures Alive(Transmit(cfg, s), k)
  {
    var m, t := s.queue[0], Transmit(cfg, s);
    var out := if m.IsAck() then m else m.(data := Stamp(m.data, s.counter));
    CountOne(s.log.sent, out, k);
    if m.serial == k {
      assert Unsent(m, k, s.log.causes[k].id);
      assert t.log.sent[|s.log.sent|] == m && SentAs(m, k, s.log.causes[k].id);
      assert Delivered(t, k);
    } else {
      QueuedFront(s.queue, CountSent(out), k, s.log.causes[k].id);
    }
  }

  /** Once it is out of the queue, the filter does not bring an acknowledgement back. */
  lemma {:induction false} FilterLost(cfg: Config, s: State, k: nat)
    requires Lost(s, k)
    ensures Lost(Filter(cfg, s), k)
    decreases |s.queue|
  {
    hide SendErrorAndBye;
    if s.queue != [] {
      TimeOutLoses(cfg, s, k);
      FilterLost(cfg, PopFront(s), k);
      FilterLost(cfg, PopFront(s.(fsm := End)), k);
    }
  }

  /** The filter keeps a waiting acknowledgement, unless it comes to a time-out or drops it. */
  lemma {:induction false} FilterFate(cfg: Config, s: State, k: nat)
    requires Pending(s, k) && Unique(s.queue) && Shape(cfg, s) && !s.halted && s.pc == Top
    requires KindsOk(s)
    ensures if GivesUp(cfg, s.fsm, s.queue) || Takes(cfg, s.fsm, s.queue, k) then Lost(Filter(cfg, s), k)
            else Alive(Filter(cfg, s), k)
    decreases |s.queue|
  {
    hide Shape, Alive, Lost, MsgOk;
    var m := s.queue[0];
    if m.sendCount > cfg.maxRetries && s.fsm == EndWaitConf {
      LastIsBye(cfg, s, k);
    } else if m.sendCount > cfg.maxRetries && s.fsm != ErrorWaitConf {
      PendingFacts(s, k);
      TimeOutLoses(cfg, s, k);
    } else if m.sendCount > cfg.maxRetries || !Stops(m) {
      DroppedFate(cfg, s, k);
      PopShape(cfg, s);
      if m.serial == k {
        FilterLost(cfg, PopFront(s), k);
      } else {
        FilterFate(cfg, PopFront(s), k);
      }
    } else {
      PendingAlive(s, k);
    }
  }

  lemma PendingAlive(s: State, k: nat)
    requires Pending(s, k)
    ensures Alive(s, k)
  {}

  /** What dropping the front message means. */
  lemma DroppedFate(cfg: Config, s: State, k: nat)
    requires Pending(s, k) && Unique(s.queue) && KindsOk(s)
    ensures Unique(PopFront(s).queue) && KindsOk(PopFront(s))
    ensures if s.queue[0].serial == k then Lost(PopFront(s), k) else Pending(PopFront(s), k)
  {
    if s.queue[0].serial != k { QueuedFront(s.queue, s.queue[0], k, s.log.causes[k].id); }
  }

  lemma {:induction false} TimeOutLoses(cfg: Config, s: State, k: nat)
    requires Count(s.log.sent, k) == 0 && k < s.log.next && k in s.log.causes
    ensures Lost(TimeOut(cfg, s), k)
  {
    hide PacketOf;
  }

  /** In END_W84_CONF only the BYE can be out of retries, and it is the last message. */
  lemma LastIsBye(cfg: Config, s: State, k: nat)
    requires !s.halted && s.fsm == EndWaitConf && s.queue != [] && KindsOk(s)
    requires Shape(cfg, s) && s.queue[0].sendCount > cfg.maxRetries
    ensures !Pending(s, k)
  {
    assert MsgOk(s.queue[0]);
    assert |s.queue| == 1;
  }

  lemma SenderFate(cfg: Config, s: State, k: nat)
    requires cfg.proto == UDP && Pending(s, k) && Unique(s.queue) && KindsOk(s)
    requires !s.halted && SendReady(cfg, s) && Shape(cfg, s)
    ensures if Drops(cfg, s, SenderTurn, k) then Lost(SenderStep(cfg, s), k) else Alive(SenderStep(cfg, s), k)
  {
    hide Filter, SenderLogic, Transmit, Unique, GivesUp, Takes, KindsOk, Shape, SendReady, Pending, Delivered, Lost;
    match s.pc {
      case Top =>
        if s.fsm != End {
          FilterFate(cfg, s, k);
          SameFate(Filter(cfg, s), SenderTop(cfg, s), k);
        } else {
          SameFate(s, SenderTop(cfg, s), k);
        }
      case Logic => LogicFate(cfg, s, k);
      case Wake => TransmitFate(cfg, s, k);
      case Gone =>
    }
  }

  /** Only the queue and the history matter. */
  lemma SameFate(s: State, t: State, k: nat)
    requires t.queue == s.queue && SameHistory(s, t)
    ensures Pending(s, k) <==> Pending(t, k)
    ensures Alive(s, k) <==> Alive(t, k)
    ensures Lost(s, k) <==> Lost(t, k)
  {}

  lemma BehindAuth(s: State, k: nat)
    requires Pending(s, k) && Unique(s.queue) && KindsOk(s) && s.queue != [] && s.queue[0].kind == AUTH
    ensures Pending(PopFront(s), k) && Unique(PopFront(s).queue)
  {
    assert MsgOk(s.queue[0]);
    QueuedFront(s.queue, s.queue[0], k, s.log.causes[k].id);
  }

  lemma LogicFate(cfg: Config, s: State, k: nat)
    requires cfg.proto == UDP && Pending(s, k) && Unique(s.queue) && KindsOk(s)
    ensures Alive(SenderLogic(cfg, s), k)
  {
    hide SenderLogic, Transmit, Pending, Delivered;
    var f, p := LogicForm(cfg, s);
    SameFate(s, s.(fsm := f), k);
    SameFate(s, s.(fsm := f, pc := p), k);
    SameFate(s, Halt(s), k);
    TransmitFate(cfg, s.(fsm := f), k);
    if s.queue != [] && s.queue[0].kind == AUTH {
      BehindAuth(s, k);
      TransmitFate(cfg, PopFront(s), k);
    }
  }

  // ---------------------------------------------------------------------------
  //  One step
  // ---------------------------------------------------------------------------

  /**
   * Exactly: a step removes a waiting acknowledgement untransmitted if and only if it is one of the events
   * `Drops`; it leaves it waiting, or transmits it with its own bytes, if and only if it is neither one of
   * them nor the REPLY that reflags it.
   */
  lemma StepFate(cfg: Config, s: State, e: Event, k: nat)
    requires cfg.proto == UDP && Sound(cfg, s) && SendReady(cfg, s) && Shape(cfg, s) && Pending(s, k)
    ensures var t := Step(cfg, s, e);
      && (Lost(t, k) <==> Drops(cfg, s, e, k))
      && (Alive(t, k) <==> !Drops(cfg, s, e, k) && !Disguises(cfg, s, e, k))
  {
    hide Dispatch, SenderStep, RunCommand, Tokenizer.Parse, PacketOf, GivesUp, Takes, Accepts, Repetitive;
    hide Pending, Delivered, KindsOk, Shape, SendReady, Lost;
    assert Unique(s.queue);
    PendingFacts(s, k);
    NotLost(Step(cfg, s, e), k);
    if !s.halted {
      match e {
        case Line(line) =>
          if Tokenizer.Tokenizable(line) { PendingCommand(cfg, s, Tokenizer.Parse(line), k); }
        case Eof =>
          SameFate(s, s.(fsm := EmptyQueueBye), k);
          PendingBye(cfg, s.(fsm := EmptyQueueBye), k);
        case Receive(d) =>
          if Handles(s, d) { ReceiptFate(cfg, s, d, k); }
        case Garbled => SameFate(s, GarbledStep(cfg, s), k);
        case SenderTurn => SenderFate(cfg, s, k);
        case Sigint => SigintLoses(cfg, s, k);
      }
    }
  }

  lemma {:induction false} PendingFacts(s: State, k: nat)
    requires Pending(s, k)
    ensures Count(s.log.sent, k) == 0 && k < s.log.next && k in s.log.causes
  {}

  lemma {:induction false} SigintLoses(cfg: Config, s: State, k: nat)
    requires Count(s.log.sent, k) == 0 && k < s.log.next && k in s.log.causes
    ensures Lost(SigintStep(cfg, s), k)
  {
    hide PacketOf;
  }

  // ---------------------------------------------------------------------------
  //  Acknowledgements that a step makes
  // ---------------------------------------------------------------------------

  /** The state after `s` has an acknowledgement more, if any, and it waits. */
  ghost predicate AtMostOneMore(s: State, t: State) {
    t.log.causes == s.log.causes
    || (Pending(t, s.log.next) && t.log.causes.Keys == s.log.causes.Keys + {s.log.next})
  }

  lemma ConfirmMore(s: State, d: Datagram, flags: Flag)
    requires (flags == FlagConfirm || flags == FlagNokReply) && Count(s.log.sent, s.log.next) == 0
    ensures AtMostOneMore(s, SendConfirm(s, d, flags))
  {
    NewPending(s, d, flags);
  }

  lemma ReplyMore(cfg: Config, s: State, d: Datagram)
    requires Count(s.log.sent, s.log.next) == 0
    ensures AtMostOneMore(s, HandleReply(cfg, s, d))
  {
    hide MsgId, Pending, SendConfirm;
    if s.fsm == WaitReply || s.fsm == JoinAttempt {
      if d.ok {
        var t := if s.fsm == WaitReply && s.queue != [] then SetFront(s, s.queue[0].(flags := FlagConfirmed)) else s;
        ConfirmMore(t.(fsm := WaitReplyConf), d, FlagConfirm);
        SameFate(SendConfirm(t.(fsm := WaitReplyConf), d, FlagConfirm), HandleReply(cfg, s, d), s.log.next);
      } else if s.queue != [] {
        var t := if s.queue[0].flags == FlagAuth
                 then SetFront(s, s.queue[0].(flags := FlagRejected)).(fsm := Start) else s;
        var u := if t.fsm == JoinAttempt then t.(fsm := Open) else t;
        ConfirmMore(u, d, FlagNokReply);
        SameFate(SendConfirm(u, d, FlagNokReply), HandleReply(cfg, s, d), s.log.next);
      }
    }
  }

  lemma ErrorMore(cfg: Config, s: State, d: Datagram)
    requires Count(s.log.sent, s.log.next) == 0
    ensures AtMostOneMore(s, ReceiveError(cfg, s, d))
  {
    hide Pending, SendConfirm, PacketOf;
    var t, k := PopAll(s), s.log.next;
    if cfg.proto == UDP {
      var u := SendConfirm(t, d, FlagConfirm);
      NewPending(t, d, FlagConfirm);
      ConfirmCauses(t, d, FlagConfirm);
      PendingBye(cfg, u, k);
      SameFate(SendBye(cfg, u), ReceiveError(cfg, s, d), k);
    }
  }

  lemma UnknownMore(cfg: Config, s: State, d: Datagram)
    requires Count(s.log.sent, s.log.next) == 0
    ensures AtMostOneMore(s, ReceiveUnknown(cfg, s, d))
  {
    hide Pending, SendConfirm, PacketOf;
    var t := PopAll(s.(fsm := Error));
    if cfg.proto == UDP {
      NewPending(t, d, FlagConfirm);
      ConfirmCauses(t, d, FlagConfirm);
      PendingErrorAndBye(cfg, SendConfirm(t, d, FlagConfirm), d.id, UNKNOWN_FORMAT, s.log.next);
    }
  }

  lemma DispatchMore(cfg: Config, s: State, d: Datagram, repetitive: bool)
    requires Count(s.log.sent, s.log.next) == 0
    ensures AtMostOneMore(s, Dispatch(cfg, s, d, repetitive))
  {
    hide Pending, SendConfirm, HandleConfirm, HandleReply, ReceiveError, ReceiveUnknown;
    var t, u, k := SendConfirm(s, d, FlagConfirm), Dispatch(cfg, s, d, repetitive), s.log.next;
    ConfirmMore(s, d, FlagConfirm);
    ReplyMore(cfg, s, d);
    ErrorMore(cfg, s, d);
    UnknownMore(cfg, s, d);
    HandleConfirmLog(cfg, s, d.id);
    if MsgTypeOf(d.kind) in {MSG, BYE} && cfg.proto == UDP { SameFate(t, u, k); }
  }

  lemma StepMore(cfg: Config, s: State, e: Event)
    requires Count(s.log.sent, s.log.next) == 0
    ensures AtMostOneMore(s, Step(cfg, s, e))
  {
    if e.Receive? && !s.halted {
      ReceiptMore(cfg, s, e.d);
    } else if !e.Receive? {
      hide Step;
      OtherSteps(cfg, s, e);
    }
  }

  lemma ReceiptMore(cfg: Config, s: State, d: Datagram)
    requires Count(s.log.sent, s.log.next) == 0
    ensures AtMostOneMore(s, ReceiveStep(cfg, s, d))
  {
    hide Dispatch, Repetitive, Pending;
    DispatchMore(cfg, s, d, Repetitive(cfg, s.seen, d));
    DispatchMore(cfg, s, d, false);
    DispatchMore(cfg, s.(seen := s.seen + {Seen(d.kind, d.id)}), d, false);
  }

  // ---------------------------------------------------------------------------
  //  Whole runs
  // ---------------------------------------------------------------------------

  /** Event `n` of the run reflagged acknowledgement `k` while it waited. */
  ghost predicate DisguisedAt(cfg: Config, es: seq<Event>, n: nat, k: nat)
    requires n < |es|
  {
    Pending(After(cfg, es[..n]), k) && Disguises(cfg, After(cfg, es[..n]), es[n], k)
  }

  lemma {:induction false} CountNone(sent: seq<Msg>, k: nat)
    requires forall i :: 0 <= i < |sent| ==> sent[i].serial != k
    ensures Count(sent, k) == 0
  {
    if sent != [] { CountNone(sent[..|sent| - 1], k); }
  }

  /**
   * The fate of every acknowledgement of every run: it waits in the queue, it was transmitted exactly once
   * with its own bytes, it is gone untransmitted, or a REPLY reflagged it.
   */
  lemma {:induction false} Fate(cfg: Config, es: seq<Event>, k: nat)
    requires cfg.proto == UDP && k in After(cfg, es).log.causes
    ensures || Alive(After(cfg, es), k) || Lost(After(cfg, es), k)
            || exists n :: 0 <= n < |es| && DisguisedAt(cfg, es, n, k)
  {
    hide Step, Pending, Delivered, Lost, Drops, Disguises, Sound, SendReady, Shape;
    var before, e := es[..|es| - 1], es[|es| - 1];
    var s := After(cfg, before);
    RunSound(cfg, before);
    RunShape(cfg, before);
    if k in s.log.causes {
      Fate(cfg, before, k);
      if Pending(s, k) {
        StepFate(cfg, s, e, k);
        if Disguises(cfg, s, e, k) { assert DisguisedAt(cfg, es, |es| - 1, k); }
      } else if Delivered(s, k) {
        DeliveredKept(cfg, s, e, k);
      } else if Lost(s, k) {
        LostKept(cfg, s, e, k);
      } else {
        var n :| 0 <= n < |before| && DisguisedAt(cfg, before, n, k);
        assert before[..n] == es[..n];
        assert DisguisedAt(cfg, es, n, k);
      }
    } else {
      assert Count(s.log.sent, s.log.next) == 0 by { SoundNoneSent(cfg, s); }
      StepMore(cfg, s, e);
    }
  }

  /** What is gone is transmitted in no continuation of the run. */
  lemma {:induction false} LostForEver(cfg: Config, es: seq<Event>, more: seq<Event>, k: nat)
    requires Lost(After(cfg, es), k)
    ensures Lost(After(cfg, es + more), k) && Count(After(cfg, es + more).log.sent, k) == 0
    decreases |more|
  {
    hide Step, Sound, SendReady;
    if more == [] {
      assert es + more == es;
    } else {
      var before, e := more[..|more| - 1], more[|more| - 1];
      LostForEver(cfg, es, before, k);
      assert es + more == es + before + [e];
      AfterMore(cfg, es + before, e);
      RunSound(cfg, es + before);
      LostKept(cfg, After(cfg, es + before), e, k);
    }
  }

  /** Nothing is transmitted under a serial number that was not given out yet. */
  lemma SoundNoneSent(cfg: Config, s: State)
    requires Sound(cfg, s)
    ensures Count(s.log.sent, s.log.next) == 0
  {
    CountNone(s.log.sent, s.log.next);
  }
}
