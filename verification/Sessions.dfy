/**
 * Sessions from the start of the program: the steps by which the unexpected behaviour proved elsewhere is
 * reached, for every valid user, every server id and every retry limit above 0.
 */
module Sessions {
  import opened Basics
  import opened Commands
  import opened Formats
  import opened ChatProtocol
  import opened Discipline
  import opened Crashes
  import opened Reflagging
  import opened IdsInUse
  import opened MessageIds
  import opened Runs
  import AckFates
  import Decoding
  import Delivery
  import EndToEnd
  import LostBye
  import Reachability
  import Scanning
  import ServerSteps
  import Tokenizer
  import Recognition

  /** Words that /auth accepts. */
  predicate Login(user: seq<byte>, secret: seq<byte>, name: seq<byte>) {
    ValidWord(user, 20, Credential) && ValidWord(secret, 128, Credential) && ValidName(name)
  }

  function LoginLine(user: seq<byte>, secret: seq<byte>, name: seq<byte>): seq<byte> {
    Recognition.AuthLine([Scanning.SPACE], user, [Scanning.SPACE], secret, [Scanning.SPACE], name, [])
  }

  /** Two turns of the sender, from a state in which the filter finds nothing to do. */
  lemma Round(cfg: Config, s: State)
    requires cfg.proto == UDP && !s.halted && s.pc == Top && s.fsm != End
    requires s.queue != [] && s.queue[0].sendCount <= cfg.maxRetries && Stops(s.queue[0])
    ensures Step(cfg, Step(cfg, s, SenderTurn), SenderTurn) == SenderLogic(cfg, s.(pc := Logic))
  {
    hide SenderLogic;
    assert Filter(cfg, s) == s;
    assert Step(cfg, s, SenderTurn) == s.(pc := Logic);
  }

  /** A turn of the sender drops the only queued message of an open client, when it is confirmed or rejected. */
  lemma LastDropped(cfg: Config, s: State)
    requires cfg.proto == UDP && !s.halted && s.pc == Top && s.fsm == Open
    requires |s.queue| == 1 && s.queue[0].sendCount <= cfg.maxRetries && !Stops(s.queue[0])
    ensures Step(cfg, s, SenderTurn) == s.(queue := [])
  {
    assert PopFront(s).queue == [];
    assert Filter(cfg, s) == Filter(cfg, PopFront(s)) == PopFront(s);
  }

  // ---------------------------------------------------------------------------
  //  Up to the REPLY
  // ---------------------------------------------------------------------------

  /** The AUTH is alone in the queue, transmitted `count` times. */
  predicate OnlyAuth(s: State, name: seq<byte>, fsm: Fsm, count: nat, confirmed: bool) {
    && !s.halted && s.fsm == fsm && s.pc == Top && s.displayName == Some(name)
    && |s.queue| == 1 && s.queue[0].kind == AUTH && s.queue[0].flags == FlagAuth && s.queue[0].serial == 0
    && s.queue[0].sendCount == count && s.queue[0].confirmed == confirmed
    && s.log.next == 1 && |s.log.sent| == count
    && (forall i :: 0 <= i < |s.log.sent| ==> s.log.sent[i].serial == 0)
    && (forall x :: x in s.seen ==> x.kind == CONF)
  }

  lemma LoginQueued(cfg: Config, user: seq<byte>, secret: seq<byte>, name: seq<byte>)
    requires Login(user, secret, name)
    ensures OnlyAuth(Step(cfg, Init(), Line(LoginLine(user, secret, name))), name, AuthWaiting, 0, false)
  {
    hide Tokenizer.Parse, ValidWord, PacketOf;
    Recognition.AuthRecognised([Scanning.SPACE], user, [Scanning.SPACE], secret, [Scanning.SPACE], name, []);
  }

  lemma LoginSent(cfg: Config, s: State, name: seq<byte>)
    requires cfg.proto == UDP && OnlyAuth(s, name, AuthWaiting, 0, false)
    ensures OnlyAuth(Step(cfg, Step(cfg, s, SenderTurn), SenderTurn), name, AuthSent, 1, false)
  {
    hide Step, Stamp;
    Round(cfg, s);
  }

  lemma LoginConfirmed(cfg: Config, s: State, name: seq<byte>, id: Id)
    requires cfg.proto == UDP && OnlyAuth(s, name, AuthSent, 1, false)
    ensures OnlyAuth(Step(cfg, s, Receive(Datagram(CONF, id, false))), name, WaitReply, 1, true)
  {
    hide Repetitive, MsgId, Following;
  }

  /** The first event is this line of input, and there is no other. */
  predicate StartsWith(es: seq<Event>, line: seq<byte>) {
    es != [] && es[0] == Line(line) && forall k :: 0 < k < |es| ==> !es[k].Line?
  }

  /** /auth, its transmission and its CONFIRM, whose id is free: the client waits for the REPLY. */
  lemma WaitingRun(cfg: Config, user: seq<byte>, secret: seq<byte>, name: seq<byte>, id: Id) returns (es: seq<Event>)
    requires cfg.proto == UDP && Login(user, secret, name)
    ensures OnlyAuth(After(cfg, es), name, WaitReply, 1, true) && StartsWith(es, LoginLine(user, secret, name))
  {
    hide Step, OnlyAuth;
    var line := Line(LoginLine(user, secret, name));
    LoginQueued(cfg, user, secret, name);
    LoginSent(cfg, Step(cfg, Init(), line), name);
    es := [line, SenderTurn, SenderTurn];
    Three(cfg, Init(), line, SenderTurn, SenderTurn);
    LoginConfirmed(cfg, Steps(cfg, Init(), es), name, id);
    OneMore(cfg, Init(), es, Receive(Datagram(CONF, id, false)));
    es := es + [Receive(Datagram(CONF, id, false))];
    AfterSteps(cfg, es);
  }

  // ---------------------------------------------------------------------------
  //  An idle open client
  // ---------------------------------------------------------------------------

  /** The REPLY of the server to the AUTH. */
  function Accepted(id: Id): Datagram { Datagram(REPLY, id, true) }

  lemma NoReplySeen(cfg: Config, seen: set<Seen>, d: Datagram)
    requires d.kind == REPLY && forall x :: x in seen ==> x.kind != REPLY
    ensures !Repetitive(cfg, seen, d)
  {}

  /** The acknowledgement of the REPLY in front of the AUTH, which is confirmed and reflagged. */
  predicate Answered(cfg: Config, s: State, name: seq<byte>, id: Id) {
    && !s.halted && s.fsm == WaitReplyConf && s.pc == Top && s.displayName == Some(name)
    && |s.queue| == 2 && s.queue[0].kind == CONF && s.queue[0].flags == FlagConfirm
    && s.queue[0].sendCount == 0 && !s.queue[0].confirmed
    && s.queue[1].flags == FlagConfirmed && s.queue[1].confirmed && s.queue[1].sendCount == 1
    && s.counter == Following(MsgId(cfg, id)) && s.log.next == 2
    && (forall x :: x in s.seen ==> x.kind == CONF || x == Seen(REPLY, id))
  }

  lemma LoginAnswered(cfg: Config, s: State, name: seq<byte>, id: Id)
    requires cfg.proto == UDP && OnlyAuth(s, name, WaitReply, 1, true)
    ensures Answered(cfg, Step(cfg, s, Receive(Accepted(id))), name, id)
  {
    hide Repetitive, MsgId, Following;
    NoReplySeen(cfg, s.seen, Accepted(id));
  }

  predicate IdleAs(cfg: Config, s: State, name: seq<byte>, counter: u16) {
    Idle(s) && s.displayName == Some(name) && s.counter == counter
  }

  lemma AnswerAcknowledged(cfg: Config, s: State, name: seq<byte>, id: Id)
    requires cfg.proto == UDP && cfg.maxRetries > 0 && Answered(cfg, s, name, id)
    ensures var t := Step(cfg, Step(cfg, Step(cfg, s, SenderTurn), SenderTurn), SenderTurn);
      IdleAs(cfg, t, name, Following(MsgId(cfg, id)))
      && forall x :: x in t.seen ==> x.kind == CONF || x == Seen(REPLY, id)
  {
    hide MsgId, Following;
    var u := Step(cfg, Step(cfg, s, SenderTurn), SenderTurn);
    assert u == SenderLogic(cfg, s.(pc := Logic)) by {
      hide Step;
      Round(cfg, s);
    }
    assert u.queue == [s.queue[1]] && u.fsm == Open && u.pc == Top && u.seen == s.seen;
    LastDropped(cfg, u);
  }

  /** From the start of the program to an open client with nothing to send, for every valid /auth line. */
  lemma IdleRun(cfg: Config, user: seq<byte>, secret: seq<byte>, name: seq<byte>, id: Id) returns (es: seq<Event>)
    requires cfg.proto == UDP && cfg.maxRetries > 0 && Login(user, secret, name)
    ensures IdleAs(cfg, After(cfg, es), name, Following(MsgId(cfg, id)))
    ensures StartsWith(es, LoginLine(user, secret, name))
    ensures forall x :: x in After(cfg, es).seen ==> x.kind == CONF || x == Seen(REPLY, id)
  {
    hide Step, OnlyAuth, Answered, IdleAs, MsgId;
    es := WaitingRun(cfg, user, secret, name, id);
    var s, more := After(cfg, es), [Receive(Accepted(id))] + [SenderTurn, SenderTurn, SenderTurn];
    LoginAnswered(cfg, s, name, id);
    OneMore(cfg, s, [], Receive(Accepted(id)));
    assert [] + [Receive(Accepted(id))] == [Receive(Accepted(id))];
    var t := Step(cfg, s, Receive(Accepted(id)));
    AnswerAcknowledged(cfg, t, name, id);
    Three(cfg, t, SenderTurn, SenderTurn, SenderTurn);
    StepsJoin(cfg, s, [Receive(Accepted(id))], [SenderTurn, SenderTurn, SenderTurn]);
    AfterJoin(cfg, es, more);
    es := es + more;
  }

  /**
   * A whole session that crashes: login, /join, its transmission and its CONFIRM, then a negative REPLY. It
   * exists for every user, channel and id of the REPLY but the one of the first REPLY.
   */
  lemma RejectedJoinRun(cfg: Config, user: seq<byte>, secret: seq<byte>, name: seq<byte>, id: Id,
                        channel: seq<byte>, d: Datagram) returns (es: seq<Event>)
    requires cfg.proto == UDP && cfg.maxRetries > 0 && Login(user, secret, name)
    requires ValidWord(channel, 20, Credential) && d.kind == REPLY && !d.ok && d.id != id
    ensures es != [] && es[|es| - 1] == Receive(d)
    ensures After(cfg, es).halted && !After(cfg, es[..|es| - 1]).halted
  {
    hide Step, Login, MsgId;
    var login := IdleRun(cfg, user, secret, name, id);
    var s := After(cfg, login);
    Unseen(cfg, s.seen, id, d);
    var more := RejectedJoinCrashes(cfg, s, channel, d);
    es := login + more;
    AfterJoin(cfg, login, more);
    AfterJoin(cfg, login, more[..5]);
    assert es[..|es| - 1] == login + more[..5];
  }

  /** A JOIN that was transmitted once and is not confirmed, alone in the queue. */
  predicate OnlyJoin(s: State, name: seq<byte>) {
    && !s.halted && s.fsm == JoinAttempt && s.pc == Top && s.displayName == Some(name)
    && |s.queue| == 1 && s.queue[0].kind == JOIN && s.queue[0].flags == FlagNone && s.queue[0].sendCount == 1
    && !s.queue[0].confirmed
  }

  /** A positive REPLY to the JOIN that is confirmed and still queued: its CONFIRM goes out, the JOIN is dropped. */
  lemma ReplyOpens(cfg: Config, s: State, name: seq<byte>, r: Id)
    requires cfg.proto == UDP && cfg.maxRetries > 0 && !Repetitive(cfg, s.seen, Accepted(r))
    requires |s.queue| == 1 && s.queue[0].confirmed
    requires OnlyJoin(s.(queue := [s.queue[0].(confirmed := false)]), name)
    ensures var t := Step(cfg, s, Receive(Accepted(r)));
      var u := Step(cfg, Step(cfg, Step(cfg, t, SenderTurn), SenderTurn), SenderTurn);
      IdleAs(cfg, u, name, Following(MsgId(cfg, r))) && |u.log.sent| == |s.log.sent| + 1
      && u.log.sent[..|s.log.sent|] == s.log.sent
  {
    hide MsgId, Following, Repetitive;
    var t := Step(cfg, s, Receive(Accepted(r)));
    assert t.queue == [NewMsg(s, UdpConfirm(r), CONF, FlagConfirm), s.queue[0]] && t.fsm == WaitReplyConf;
    var u := Step(cfg, Step(cfg, t, SenderTurn), SenderTurn);
    assert u == SenderLogic(cfg, t.(pc := Logic)) by {
      hide Step;
      Round(cfg, t);
    }
    assert u.queue == [s.queue[0]] && u.fsm == Open && u.pc == Top;
    LastDropped(cfg, u);
  }

  /** The CONFIRM and a positive REPLY open the client again. */
  lemma JoinAccepted(cfg: Config, s: State, name: seq<byte>, r: Id)
    requires cfg.proto == UDP && cfg.maxRetries > 0 && OnlyJoin(s, name) && !Repetitive(cfg, s.seen, Accepted(r))
    ensures var c := Receive(Datagram(CONF, IdOf(s.queue[0].data), false));
      var t := Step(cfg, Step(cfg, s, c), Receive(Accepted(r)));
      var u := Step(cfg, Step(cfg, Step(cfg, t, SenderTurn), SenderTurn), SenderTurn);
      IdleAs(cfg, u, name, Following(MsgId(cfg, r))) && |u.log.sent| == |s.log.sent| + 1
      && u.log.sent[..|s.log.sent|] == s.log.sent
  {
    hide Step, MsgId, Following, Repetitive;
    JoinConfirmation(cfg, s, r);
    ReplyOpens(cfg, Step(cfg, s, Receive(Datagram(CONF, IdOf(s.queue[0].data), false))), name, r);
  }

  lemma JoinConfirmation(cfg: Config, s: State, r: Id)
    requires cfg.proto == UDP && !s.halted && s.fsm == JoinAttempt && |s.queue| == 1 && s.queue[0].kind == JOIN
    requires !Repetitive(cfg, s.seen, Accepted(r))
    ensures var t := Step(cfg, s, Receive(Datagram(CONF, IdOf(s.queue[0].data), false)));
      && t == s.(queue := [s.queue[0].(confirmed := true)], seen := t.seen, counter := t.counter)
      && !Repetitive(cfg, t.seen, Accepted(r))
  {}

  lemma JoinTyped(cfg: Config, s: State, name: seq<byte>, channel: seq<byte>)
    requires cfg.proto == UDP && Idle(s) && s.displayName == Some(name) && ValidName(name)
    requires ValidWord(channel, 20, Credential)
    ensures var t := Step(cfg, Step(cfg, Step(cfg, s, Line(JoinLine(channel))), SenderTurn), SenderTurn);
      && OnlyJoin(t, name) && t.seen == s.seen && |t.log.sent| == |s.log.sent| + 1
      && t.log.sent[|s.log.sent|].kind == JOIN
      && forall signed: bool ::
           EndToEnd.ReadBack(cfg, signed, t.log.sent[|s.log.sent|].data, CmdJoin(Tokenizer.JOIN_CMD, channel), name)
  {
    hide Tokenizer.Parse, ValidWord, EndToEnd.ReadBack, PacketOf, Stamp;
    Recognition.ArgumentRecognised([Scanning.SPACE], channel);
    var c := CmdJoin(Tokenizer.JOIN_CMD, channel);
    var t := Step(cfg, s, Line(JoinLine(channel)));
    assert |t.queue| == 1 && t.queue[0] == NewMsg(s, PacketOf(cfg, c, cfg.mainStale, name), JOIN, FlagNone);
    EndToEnd.StampedPacket(cfg, c, cfg.mainStale, name, s.counter);
    forall signed: bool
      ensures EndToEnd.ReadBack(cfg, signed, PacketOf(cfg, c, IdFor(s.counter), name), c, name)
    {
      EndToEnd.CommandReadBack(cfg, signed, c, IdFor(s.counter), name);
    }
    assert Step(cfg, Step(cfg, t, SenderTurn), SenderTurn) == SenderLogic(cfg, t.(pc := Logic)) by {
      hide Step;
      Round(cfg, t);
    }
  }

  /**
   * A session in which the user joins a channel and the server accepts, from the bytes of its REPLY on: the JOIN
   * goes out once, as typed, and the client is open and idle again.
   */
  lemma AcceptedJoinRun(cfg: Config, user: seq<byte>, secret: seq<byte>, name: seq<byte>, id: Id,
                        channel: seq<byte>, r: Id, ref: Id, text: seq<byte>) returns (es: seq<Event>, n: nat)
    requires cfg.proto == UDP && cfg.maxRetries > 0 && Login(user, secret, name)
    requires ValidWord(channel, 20, Credential) && r != id && text != [] && Decoding.NulFree(text)
    ensures Decoding.WholeDatagram(UdpReply(r, 1, ref, text))
    ensures DatagramEvent(cfg, UdpReply(r, 1, ref, text)) in es && Line(JoinLine(channel)) in es
    ensures var s := After(cfg, es);
      && IdleAs(cfg, s, name, Following(MsgId(cfg, r))) && |s.log.sent| == n + 2
      && s.log.sent[n].kind == JOIN
      && forall signed: bool ::
           EndToEnd.ReadBack(cfg, signed, s.log.sent[n].data, CmdJoin(Tokenizer.JOIN_CMD, channel), name)
  {
    hide Step, IdleAs, MsgId, Following, ValidWord, EndToEnd.ReadBack, Decoding.WholeDatagram, UdpReply;
    hide DatagramEvent;
    var login := IdleRun(cfg, user, secret, name, id);
    var s := After(cfg, login);
    LoginIdle(cfg, s, user, secret, name, Following(MsgId(cfg, id)));
    Unseen(cfg, s.seen, id, Accepted(r));
    JoinTyped(cfg, s, name, channel);
    Go3(cfg, login, Line(JoinLine(channel)), SenderTurn, SenderTurn);
    var join := login + [Line(JoinLine(channel)), SenderTurn, SenderTurn];
    var t := After(cfg, join);
    ServerSteps.UdpReplyEvent(cfg, r, 1, ref, text);
    var e := DatagramEvent(cfg, UdpReply(r, 1, ref, text));
    JoinAccepted(cfg, t, name, r);
    var c := Receive(Datagram(CONF, IdOf(t.queue[0].data), false));
    Go2(cfg, join, c, e);
    Go3(cfg, join + [c, e], SenderTurn, SenderTurn, SenderTurn);
    es, n := join + [c, e] + [SenderTurn, SenderTurn, SenderTurn], |s.log.sent|;
    assert es[|login|] == Line(JoinLine(channel)) && es[|join| + 1] == e;
    assert After(cfg, es).log.sent[n] == t.log.sent[n];
  }

  lemma LoginIdle(cfg: Config, s: State, user: seq<byte>, secret: seq<byte>, name: seq<byte>, counter: u16)
    requires Login(user, secret, name) && IdleAs(cfg, s, name, counter)
    ensures Idle(s) && s.displayName == Some(name) && ValidName(name)
  {}

  lemma Unseen(cfg: Config, seen: set<Seen>, id: Id, d: Datagram)
    requires d.kind == REPLY && d.id != id && forall x :: x in seen ==> x.kind == CONF || x == Seen(REPLY, id)
    ensures !Repetitive(cfg, seen, d)
  {
    Delivery.RepetitiveExact(cfg, seen, d);
  }

  // ---------------------------------------------------------------------------
  //  A CONFIRM that is resent
  // ---------------------------------------------------------------------------

  /** Message `serial` is the CONFIRM made for a MSG with id `m`. */
  predicate Answering(s: State, serial: nat, m: Id) {
    serial in s.log.causes && s.log.causes[serial].kind == MSG && s.log.causes[serial].id == m
  }

  /** The acknowledgement of a MSG, reflagged and transmitted `count` times, in front of the AUTH it hid. */
  predicate AckInFlight(cfg: Config, s: State, m: Id, id: Id, count: nat) {
    && Answering(s, 1, m) && !s.halted && s.fsm == Open && s.pc == Top && s.counter == Following(MsgId(cfg, id))
    && |s.queue| == 2 && s.queue[0].kind == CONF && s.queue[0].flags == FlagConfirmed && s.queue[0].serial == 1
    && s.queue[0].sendCount == count && !s.queue[0].confirmed
    && (count > 0 ==> IdOf(s.queue[0].data) == IdFor(s.counter))
    && s.queue[1].kind == AUTH && s.queue[1].flags == FlagAuth && s.queue[1].sendCount == 1
    && s.log.next == 3
  }

  lemma MessageWhileWaiting(cfg: Config, s: State, name: seq<byte>, d: Datagram)
    requires cfg.proto == UDP && OnlyAuth(s, name, WaitReply, 1, true) && d.kind == MSG
    ensures var t := Step(cfg, s, Receive(d));
      && !t.halted && t.fsm == WaitReply && t.pc == Top && t.log.next == 2 && t.log.sent == s.log.sent
      && |t.queue| == 2 && t.queue[0] == Msg(1, UdpConfirm(d.id), CONF, FlagConfirm, 0, false)
      && t.queue[1] == s.queue[0] && Answering(t, 1, d.id)
      && forall x :: x in t.seen ==> x.kind != REPLY
  {
    hide Repetitive;
  }

  /** The REPLY reflags the acknowledgement instead of the AUTH behind it. */
  lemma ReplyHitsAck(cfg: Config, s: State, m: Id, id: Id)
    requires cfg.proto == UDP && !s.halted && s.fsm == WaitReply && s.pc == Top && s.log.next == 2
    requires |s.queue| == 2 && s.queue[0] == Msg(1, UdpConfirm(m), CONF, FlagConfirm, 0, false)
    requires s.queue[1].kind == AUTH && s.queue[1].flags == FlagAuth && s.queue[1].sendCount == 1
    requires Answering(s, 1, m) && forall x :: x in s.seen ==> x.kind != REPLY
    ensures Reflags(cfg, s, Receive(Accepted(id)))
    ensures var t := Step(cfg, s, Receive(Accepted(id)));
      && t.fsm == WaitReplyConf && t.pc == Top && !t.halted && t.counter == Following(MsgId(cfg, id))
      && t.queue == [Msg(2, UdpConfirm(id), CONF, FlagConfirm, 0, false)]
           + [s.queue[0].(flags := FlagConfirmed), s.queue[1]]
      && t.log.next == 3 && t.log.sent == s.log.sent && Answering(t, 1, m)
  {
    hide Repetitive, MsgId, Following;
    NoReplySeen(cfg, s.seen, Accepted(id));
  }

  lemma ReplyAcknowledged(cfg: Config, s: State, m: Id, id: Id, auth: Msg)
    requires cfg.proto == UDP && !s.halted && s.fsm == WaitReplyConf && s.pc == Top && s.log.next == 3
    requires s.counter == Following(MsgId(cfg, id)) && Answering(s, 1, m)
    requires auth.kind == AUTH && auth.flags == FlagAuth && auth.sendCount == 1
    requires s.queue == [Msg(2, UdpConfirm(id), CONF, FlagConfirm, 0, false),
                         Msg(1, UdpConfirm(m), CONF, FlagConfirmed, 0, false), auth]
    ensures var t := Step(cfg, Step(cfg, s, SenderTurn), SenderTurn);
      AckInFlight(cfg, t, m, id, 0) && |t.log.sent| == |s.log.sent| + 1
  {
    hide Step, MsgId, Following;
    Round(cfg, s);
  }

  /** Transmitted like a message of the client: with the counter as its id, and it stays in the queue. */
  lemma AckResent(cfg: Config, s: State, m: Id, id: Id, count: nat)
    requires cfg.proto == UDP && count <= cfg.maxRetries < 255 && AckInFlight(cfg, s, m, id, count)
    ensures var t := Step(cfg, Step(cfg, s, SenderTurn), SenderTurn);
      && AckInFlight(cfg, t, m, id, count + 1) && |t.log.sent| == |s.log.sent| + 1
      && t.log.sent[..|s.log.sent|] == s.log.sent
      && t.log.sent[|s.log.sent|].serial == 1 && t.log.sent[|s.log.sent|].IsConf()
      && IdOf(t.log.sent[|s.log.sent|].data) == IdFor(s.counter)
  {
    hide Step, MsgId, Following;
    Round(cfg, s);
  }

  /** From the start of the program to the reflagged acknowledgement of a MSG; event `last` reflags it. */
  lemma ReflagRun(cfg: Config, user: seq<byte>, secret: seq<byte>, name: seq<byte>, m: Id, id: Id)
    returns (es: seq<Event>, last: nat)
    requires cfg.proto == UDP && Login(user, secret, name)
    ensures AckInFlight(cfg, After(cfg, es), m, id, 0)
    ensures last < |es| && Reflags(cfg, After(cfg, es[..last]), es[last])
    ensures exists k :: 0 <= k < last && es[k] == Receive(Datagram(MSG, m, false))
  {
    hide Step, OnlyAuth, AckInFlight, MsgId, Reflags;
    var d, r := Datagram(MSG, m, false), Accepted(id);
    var wait := WaitingRun(cfg, user, secret, name, id);
    var s := After(cfg, wait);
    var t, u := Step(cfg, s, Receive(d)), Step(cfg, Step(cfg, s, Receive(d)), Receive(r));
    MessageWhileWaiting(cfg, s, name, d);
    ReflagSteps(cfg, s, t, name, m, id);
    Two(cfg, s, Receive(d), Receive(r));
    Two(cfg, u, SenderTurn, SenderTurn);
    StepsJoin(cfg, s, [Receive(d), Receive(r)], [SenderTurn, SenderTurn]);
    var more := [Receive(d), Receive(r)] + [SenderTurn, SenderTurn];
    es := wait + more;
    last := |wait| + 1;
    AfterJoin(cfg, wait, more);
    OneMore(cfg, s, [], Receive(d));
    assert [] + [Receive(d)] == [Receive(d)] == more[..1];
    AfterJoin(cfg, wait, more[..1]);
    assert es[..last] == wait + more[..1] && es[last] == Receive(r) && es[last - 1] == Receive(d);
  }

  lemma ReflagSteps(cfg: Config, s: State, t: State, name: seq<byte>, m: Id, id: Id)
    requires cfg.proto == UDP && OnlyAuth(s, name, WaitReply, 1, true)
    requires t == Step(cfg, s, Receive(Datagram(MSG, m, false)))
    ensures Reflags(cfg, t, Receive(Accepted(id)))
    ensures var u := Step(cfg, t, Receive(Accepted(id)));
      AckInFlight(cfg, Step(cfg, Step(cfg, u, SenderTurn), SenderTurn), m, id, 0)
  {
    hide Step, AckInFlight, MsgId, Reflags;
    MessageWhileWaiting(cfg, s, name, Datagram(MSG, m, false));
    ReplyHitsAck(cfg, t, m, id);
    ReplyAcknowledged(cfg, Step(cfg, t, Receive(Accepted(id))), m, id, t.queue[1]);
  }

  /**
   * The acknowledgement of a MSG goes out twice and stays queued, with the client's own counter in the place
   * of the id it should confirm: the strict form of stop-and-wait fails, after exactly one reflagging event.
   */
  lemma AckResentRun(cfg: Config, user: seq<byte>, secret: seq<byte>, name: seq<byte>, m: Id, id: Id)
    returns (es: seq<Event>, n: nat)
    requires cfg.proto == UDP && 0 < cfg.maxRetries < 255 && Login(user, secret, name)
    ensures var s := After(cfg, es);
      && s.queue != [] && s.queue[0].IsConf() && s.queue[0].serial == 1 && s.queue[0].sendCount == 2
      && Answering(s, 1, m) && |s.log.sent| == n + 2
      && forall k :: n <= k < n + 2 ==>
           s.log.sent[k].serial == 1 && s.log.sent[k].IsConf()
           && IdOf(s.log.sent[k].data) == IdFor(Following(MsgId(cfg, id)))
  {
    hide Step, MsgId;
    var before, last := ReflagRun(cfg, user, secret, name, m, id);
    var s := After(cfg, before);
    AckResent(cfg, s, m, id, 0);
    Two(cfg, s, SenderTurn, SenderTurn);
    AfterJoin(cfg, before, [SenderTurn, SenderTurn]);
    var once := before + [SenderTurn, SenderTurn];
    var t := After(cfg, once);
    AckResent(cfg, t, m, id, 1);
    Two(cfg, t, SenderTurn, SenderTurn);
    AfterJoin(cfg, once, [SenderTurn, SenderTurn]);
    es := once + [SenderTurn, SenderTurn];
    n := |s.log.sent|;
    var u := After(cfg, es);
    assert u.log.sent[..n + 1] == t.log.sent;
    assert u.log.sent[n] == t.log.sent[n];
  }

  /** A CONFIRM of that id makes the filter drop it, and the AUTH is alone in an open client. */
  lemma AckDropped(cfg: Config, s: State, m: Id, id: Id)
    requires cfg.proto == UDP && cfg.maxRetries > 0 && AckInFlight(cfg, s, m, id, 1)
    ensures var t := Step(cfg, Step(cfg, s, Receive(Datagram(CONF, IdFor(s.counter), false))), SenderTurn);
      !t.halted && t.pc == Logic && t.fsm == Open && |t.queue| == 1 && t.queue[0].kind == AUTH
  {
    hide Repetitive, MsgId, Following;
    var u := Step(cfg, s, Receive(Datagram(CONF, IdFor(s.counter), false)));
    assert u.queue == [s.queue[0].(confirmed := true), s.queue[1]] && u.fsm == Open && u.pc == Top && !u.halted;
    assert PopFront(u).queue == [s.queue[1]];
    assert Filter(cfg, u) == Filter(cfg, PopFront(u)) == PopFront(u);
  }

  lemma AuthAloneCrashes(cfg: Config, s: State)
    requires !s.halted && s.pc == Logic && s.fsm == Open && |s.queue| == 1 && s.queue[0].kind == AUTH
    ensures Step(cfg, s, SenderTurn).halted && FatalTurn(cfg, s)
  {}

  /** A session in which an open client drops the only message it has, an AUTH, and reads a null pointer. */
  lemma AuthAloneRun(cfg: Config, user: seq<byte>, secret: seq<byte>, name: seq<byte>, m: Id, id: Id)
    returns (es: seq<Event>)
    requires cfg.proto == UDP && 0 < cfg.maxRetries < 255 && Login(user, secret, name)
    ensures After(cfg, es + [SenderTurn]).halted && !After(cfg, es).halted
    ensures var s := After(cfg, es); s.pc == Logic && s.fsm == Open && |s.queue| == 1 && s.queue[0].kind == AUTH
  {
    hide Step, MsgId, AckInFlight;
    var before, last := ReflagRun(cfg, user, secret, name, m, id);
    var s := After(cfg, before);
    AckResent(cfg, s, m, id, 0);
    Two(cfg, s, SenderTurn, SenderTurn);
    AfterJoin(cfg, before, [SenderTurn, SenderTurn]);
    var once := before + [SenderTurn, SenderTurn];
    var t := After(cfg, once);
    var c := Receive(Datagram(CONF, IdFor(t.counter), false));
    AckDropped(cfg, t, m, id);
    Two(cfg, t, c, SenderTurn);
    AfterJoin(cfg, once, [c, SenderTurn]);
    es := once + [c, SenderTurn];
    AuthAloneCrashes(cfg, After(cfg, es));
    LostBye.AfterMore(cfg, es, SenderTurn);
  }

  // ---------------------------------------------------------------------------
  //  A CONFIRM taken for an acknowledgement
  // ---------------------------------------------------------------------------

  /** The user's message is sent under the id of the counter. */
  predicate SentFrom(s: State, t: State) {
    && !t.halted && t.fsm == Open && t.pc == Top && t.displayName == s.displayName && t.counter == s.counter
    && |t.queue| == 1 && t.queue[0].kind == MSG && t.queue[0].flags == FlagNone && t.queue[0].sendCount == 1
    && !t.queue[0].confirmed && IdOf(t.queue[0].data) == IdFor(s.counter)
    && t.log.next == s.log.next + 1 && |t.log.sent| == |s.log.sent| + 1 && t.log.sent[..|s.log.sent|] == s.log.sent
    && t.log.sent[|s.log.sent|].serial == s.log.next && t.log.sent[|s.log.sent|].kind == MSG
    && IdOf(t.log.sent[|s.log.sent|].data) == IdFor(s.counter)
  }

  predicate IsMessage(line: seq<byte>) { Tokenizer.Tokenizable(line) && Tokenizer.Parse(line) == CmdMsg(line) }

  lemma MessageSent(cfg: Config, s: State, line: seq<byte>)
    requires cfg.proto == UDP && Idle(s) && IsMessage(line)
    ensures SentFrom(s, Step(cfg, Step(cfg, Step(cfg, s, Line(line)), SenderTurn), SenderTurn))
  {
    hide Tokenizer.Parse, PacketOf;
    var t := Step(cfg, s, Line(line));
    assert t.fsm == Open && t.pc == Top && !t.halted && t.log.sent == s.log.sent && t.counter == s.counter
      && |t.queue| == 1 && t.queue[0].kind == MSG && t.queue[0].flags == FlagNone && t.queue[0].sendCount == 0
      && !t.queue[0].confirmed && t.queue[0].serial == s.log.next && t.log.next == s.log.next + 1;
    assert SentFrom(s, Step(cfg, Step(cfg, t, SenderTurn), SenderTurn)) by {
      hide Step;
      Round(cfg, t);
    }
  }

  /** The CONFIRM of the server for it: the counter moves on, and the queue is empty again. */
  lemma MessageConfirmed(cfg: Config, r: State, s: State)
    requires cfg.proto == UDP && cfg.maxRetries > 0 && SentFrom(r, s) && Idle(r)
    ensures var t := Step(cfg, Step(cfg, s, Receive(Datagram(CONF, IdFor(s.counter), false))), SenderTurn);
      Idle(t) && t.log.sent == s.log.sent && t.log.next == s.log.next
      && t.counter == Next(cfg.signedChar, s.counter)
  {
    hide Repetitive, Decode, Following;
    var u := Step(cfg, s, Receive(Datagram(CONF, IdFor(s.counter), false)));
    assert u.queue == [s.queue[0].(confirmed := true)] && !u.halted && u.fsm == Open && u.pc == Top;
    LastDropped(cfg, u);
  }

  /** The acknowledgement of a MSG, alone in an open client. */
  predicate OnlyAck(s: State, id: Id, serial: nat) {
    && !s.halted && s.fsm == Open && s.pc == Top && s.displayName.Some?
    && s.queue == [Msg(serial, UdpConfirm(id), CONF, FlagConfirm, 0, false)] && Answering(s, serial, id)
  }

  lemma MessageReceived(cfg: Config, s: State, id: Id)
    requires cfg.proto == UDP && Idle(s)
    ensures var t := Step(cfg, s, Receive(Datagram(MSG, id, false)));
      OnlyAck(t, id, s.log.next) && t.counter == s.counter && t.log.sent == s.log.sent && t.log.next == s.log.next + 1
  {
    hide Repetitive;
  }

  /** A CONFIRM of the server with the same id is taken for that acknowledgement, and the filter drops it. */
  lemma AckTaken(cfg: Config, s: State, id: Id, serial: nat)
    requires cfg.proto == UDP && OnlyAck(s, id, serial)
    ensures var c := Receive(Datagram(CONF, id, false)); var t := Step(cfg, Step(cfg, s, c), SenderTurn);
      && TakesConfirm(cfg, s, c) && Idle(t) && t.counter == Following(MsgId(cfg, id))
      && Answering(t, serial, id) && t.log.sent == s.log.sent && t.log.next == s.log.next
  {
    hide Repetitive, MsgId, Following;
    var u := Step(cfg, s, Receive(Datagram(CONF, id, false)));
    assert u.queue == [s.queue[0].(confirmed := true)] && !u.halted && u.fsm == Open && u.pc == Top;
    LastDropped(cfg, u);
  }

  lemma {:induction false} Go2(cfg: Config, es: seq<Event>, a: Event, b: Event)
    ensures After(cfg, es + [a, b]) == Step(cfg, Step(cfg, After(cfg, es), a), b)
  {
    hide Step;
    AfterJoin(cfg, es, [a, b]);
    Two(cfg, After(cfg, es), a, b);
  }

  lemma {:induction false} Go3(cfg: Config, es: seq<Event>, a: Event, b: Event, c: Event)
    ensures After(cfg, es + [a, b, c]) == Step(cfg, Step(cfg, Step(cfg, After(cfg, es), a), b), c)
  {
    hide Step;
    AfterJoin(cfg, es, [a, b, c]);
    Three(cfg, After(cfg, es), a, b, c);
  }

  /** A message of the user, and its CONFIRM. */
  lemma FirstMessage(cfg: Config, es: seq<Event>, line: seq<byte>) returns (more: seq<Event>)
    requires cfg.proto == UDP && cfg.maxRetries > 0 && Idle(After(cfg, es)) && IsMessage(line)
    ensures var s, t := After(cfg, es), After(cfg, es + more);
      Idle(t) && SentMore(s, t) && t.counter == Next(cfg.signedChar, s.counter)
  {
    hide Step, IsMessage, Decode, Idle;
    var s := After(cfg, es);
    var m := Receive(Datagram(CONF, IdFor(s.counter), false));
    Go3(cfg, es, Line(line), SenderTurn, SenderTurn);
    MessageSent(cfg, s, line);
    var sent := es + [Line(line), SenderTurn, SenderTurn];
    Go2(cfg, sent, m, SenderTurn);
    MessageConfirmed(cfg, s, After(cfg, sent));
    more := [Line(line), SenderTurn, SenderTurn] + [m, SenderTurn];
    assert es + more == sent + [m, SenderTurn];
  }

  /** One MSG more was transmitted, under the id of the counter in `s`. */
  predicate SentMore(s: State, t: State) {
    && t.log.next == s.log.next + 1 && |t.log.sent| == |s.log.sent| + 1 && t.log.sent[..|s.log.sent|] == s.log.sent
    && t.log.sent[|s.log.sent|].serial == s.log.next && t.log.sent[|s.log.sent|].kind == MSG
    && IdOf(t.log.sent[|s.log.sent|].data) == IdFor(s.counter)
  }

  lemma NextDiffers(signed: bool, c: u16)
    ensures Next(signed, c) != c
  {
    hide Next;
    IdCycle(signed, 1, c);
    assert Iter(signed, 1, c) == Iter(signed, 0, Next(signed, c));
  }

  /**
   * The counter leaves the cycle without a REPLY and without an AUTH: a CONFIRM taken for a queued
   * acknowledgement resets it, and the id of a confirmed message is used again for the next one.
   */
  lemma IdRecursRun(cfg: Config, user: seq<byte>, secret: seq<byte>, name: seq<byte>, id: Id, line: seq<byte>)
    returns (es: seq<Event>, n: nat, k: nat)
    requires cfg.proto == UDP && cfg.maxRetries > 0 && Login(user, secret, name) && IsMessage(line)
    ensures var s := After(cfg, es);
      && |s.log.sent| == n + 2 && s.log.sent[n].kind == s.log.sent[n + 1].kind == MSG
      && s.log.sent[n].serial != s.log.sent[n + 1].serial
      && IdOf(s.log.sent[n].data) == IdOf(s.log.sent[n + 1].data)
    ensures k < |es| &&
      var s := After(cfg, es[..k]);
      s.queue != [] && s.queue[0].IsAck() && TakesConfirm(cfg, s, es[k]) && Resets(cfg, s, es[k])
  {
    hide Step, IsMessage, Login, MsgId, Idle, Next, Following, TakesConfirm;
    var login := IdleRun(cfg, user, secret, name, id);
    var s := After(cfg, login);
    var first := FirstMessage(cfg, login, line);
    var b := After(cfg, login + first);
    NextDiffers(cfg.signedChar, s.counter);
    var d, c := Receive(Datagram(MSG, id, false)), Receive(Datagram(CONF, id, false));
    MessageReceived(cfg, b, id);
    AckTaken(cfg, Step(cfg, b, d), id, b.log.next);
    LostBye.AfterMore(cfg, login + first, d);
    Go3(cfg, login + first, d, c, SenderTurn);
    var back := login + first + [d, c, SenderTurn];
    var w := After(cfg, back);
    Go3(cfg, back, Line(line), SenderTurn, SenderTurn);
    MessageSent(cfg, w, line);
    es, n, k := back + [Line(line), SenderTurn, SenderTurn], |s.log.sent|, |login + first| + 1;
    assert es[..k] == login + first + [d] && es[k] == c;
    SentTwice(s, b, w, After(cfg, es));
  }

  /** An acknowledgement that is never transmitted: taken as confirmed, it is dropped by the filter. */
  lemma AckLostRun(cfg: Config, user: seq<byte>, secret: seq<byte>, name: seq<byte>, id: Id)
    returns (es: seq<Event>, serial: nat)
    requires cfg.proto == UDP && 0 < cfg.maxRetries < 255 && Login(user, secret, name)
    ensures var s := After(cfg, es);
      Answering(s, serial, id) && Count(s.log.sent, serial) == 0 && s.queue == [] && s.fsm == Open && s.pc == Top
    ensures forall more: seq<Event> :: Count(After(cfg, es + more).log.sent, serial) == 0
  {
    hide Step, Login, MsgId, TakesConfirm;
    var login := IdleRun(cfg, user, secret, name, id);
    var s := After(cfg, login);
    var d, c := Receive(Datagram(MSG, id, false)), Receive(Datagram(CONF, id, false));
    MessageReceived(cfg, s, id);
    AckTaken(cfg, Step(cfg, s, d), id, s.log.next);
    Go3(cfg, login, d, c, SenderTurn);
    es, serial := login + [d, c, SenderTurn], s.log.next;
    Reachability.RunSound(cfg, login);
    AckFates.SoundNoneSent(cfg, s);
    forall more: seq<Event> ensures Count(After(cfg, es + more).log.sent, serial) == 0 {
      AckFates.LostForEver(cfg, es, more, serial);
    }
  }

  /**
   * The server repeats a MSG: the client prints it once if it can recognise its id, and twice if it cannot,
   * as with the id bytes 0x80 and 0 where `char` is signed.
   */
  lemma RepeatedMessageRun(cfg: Config, user: seq<byte>, secret: seq<byte>, name: seq<byte>, id: Id, m: Id)
    returns (es: seq<Event>)
    requires cfg.proto == UDP && cfg.maxRetries > 0 && Login(user, secret, name)
    ensures |es| > 2 && es[|es| - 2] == es[|es| - 1] == Receive(Datagram(MSG, m, false))
    ensures Delivery.Prints(After(cfg, es).log.printed, Seen(MSG, m)) == if Delivery.Detectable(cfg, m) then 1 else 2
    ensures cfg.signedChar && m == Id(0x80, 0) ==> Delivery.Prints(After(cfg, es).log.printed, Seen(MSG, m)) == 2
    ensures |Delivery.Acknowledging(After(cfg, es).log.causes, Seen(MSG, m))| == 2
  {
    hide Step, Login, MsgId, Delivery.Prints;
    var login := IdleRun(cfg, user, secret, name, id);
    var d, x := Receive(Datagram(MSG, m, false)), Seen(MSG, m);
    MessageReceived(cfg, After(cfg, login), m);
    Delivery.SeenExactly(cfg, login, x);
    LostBye.AfterMore(cfg, login, d);
    assert (login + [d])[..|login|] == login;
    assert Delivery.Receipts(cfg, login + [d], x) == 1;
    es := login + [d] + [d];
    assert es[..|es| - 1] == login + [d];
    assert Delivery.Receipts(cfg, es, x) == 2;
    Delivery.DeliveredExactly(cfg, es, x);
  }

  lemma SentTwice(s: State, b: State, w: State, z: State)
    requires SentMore(s, b) && w.log.sent == b.log.sent && w.log.next == b.log.next + 1 && w.counter == s.counter
    requires SentFrom(w, z)
    ensures var n := |s.log.sent|;
      && |z.log.sent| == n + 2 && z.log.sent[n].kind == z.log.sent[n + 1].kind == MSG
      && z.log.sent[n].serial != z.log.sent[n + 1].serial
      && IdOf(z.log.sent[n].data) == IdOf(z.log.sent[n + 1].data)
  {
    var n := |s.log.sent|;
    assert z.log.sent[..n + 1] == w.log.sent;
    assert z.log.sent[n] == w.log.sent[n];
  }
}
