/** What each message of the server does to the client, exactly, from its bytes on. */
module ServerSteps {
  import opened Basics
  import opened Commands
  import opened Formats
  import opened ChatProtocol
  import opened Decoding
  import opened EndToEnd
  import opened UserSteps
  import opened MessageIds
  import Delivery
  import TcpLines

  // ---------------------------------------------------------------------------
  //  From bytes to events
  // ---------------------------------------------------------------------------

  lemma UdpEvents(cfg: Config, id: Id, first: seq<byte>, second: seq<byte>)
    requires first != [] && NulFree(first) && second != [] && NulFree(second)
    ensures WholeDatagram(UdpConfirm(id)) && DatagramEvent(cfg, UdpConfirm(id)) == Receive(Datagram(CONF, id, false))
    ensures WholeDatagram(UdpBye(id)) && DatagramEvent(cfg, UdpBye(id)) == Receive(Datagram(BYE, id, false))
    ensures forall kind :: kind in {MSG, ERR} ==>
      var p := UdpPair(kind, id, first, second);
      WholeDatagram(p) && DatagramEvent(cfg, p) == Receive(Datagram(kind, id, false))
  {
    hide WholeDatagram, UdpDecode;
    UdpHeaderRoundTrip(cfg.signedChar, id);
    UdpPairRoundTrip(cfg.signedChar, MSG, id, first, second);
    UdpPairRoundTrip(cfg.signedChar, ERR, id, first, second);
  }

  /** A REPLY is positive if and only if its result byte is 1. */
  lemma UdpReplyEvent(cfg: Config, id: Id, result: byte, ref: Id, text: seq<byte>)
    requires text != [] && NulFree(text)
    ensures var p := UdpReply(id, result, ref, text);
      WholeDatagram(p) && DatagramEvent(cfg, p) == Receive(Datagram(REPLY, id, result == 1))
  {
    hide WholeDatagram, UdpDecode;
    UdpReplyRoundTrip(cfg.signedChar, id, result, ref, text);
  }

  lemma TcpEvents(name: seq<byte>, text: seq<byte>, ok: bool)
    requires WordEndFree(name) && LineEndFree(text)
    ensures EndsInLineEnd(TcpBye()) && LineEvent(TcpBye()) == Receive(Datagram(BYE, Id(0, 0), false))
    ensures var p := TcpPair(MSG_FROM_TEXT, name, text);
      EndsInLineEnd(p) && LineEvent(p) == Receive(Datagram(MSG, Id(0, 0), false))
    ensures var p := TcpPair(ERR_FROM_TEXT, name, text);
      EndsInLineEnd(p) && LineEvent(p) == Receive(Datagram(ERR, Id(0, 0), false))
    ensures var p := TcpReply(ok, text);
      EndsInLineEnd(p) && LineEvent(p) == Receive(Datagram(REPLY, Id(0, 0), ok))
  {
    hide TcpDecode;
    TcpByeRoundTrip();
    TcpPairRoundTrip(MSG, name, text);
    TcpPairRoundTrip(ERR, name, text);
    TcpLines.TcpReplyRoundTrip(ok, text);
  }

  // ---------------------------------------------------------------------------
  //  What is ignored
  // ---------------------------------------------------------------------------

  /** At its end the client receives nothing, and before /auth only REPLY and CONFIRM; all else is taken in. */
  lemma IgnoredExactly(cfg: Config, s: State, d: Datagram)
    requires !s.halted
    ensures var t := Step(cfg, s, Receive(d));
      if s.fsm == End || (s.fsm == Start && d.kind != REPLY && d.kind != CONF) then t == s
      else if cfg.proto == UDP then t.seen == s.seen + {Seen(d.kind, d.id)}
      else
        && (d.kind == CONF ==> t.halted)
        && (d.kind == MSG ==> t == s.(log := t.log) && t.log.printed == s.log.printed + [Seen(MSG, d.id)])
        && (d.kind == BYE ==> t == s.(fsm := End))
        && (MsgTypeOf(d.kind) !in {CONF, REPLY, MSG, BYE} ==> t.fsm == Error)
  {
    hide Dispatch, Repetitive;
    Delivery.RepetitiveExact(cfg, s.seen, d);
    var u := s.(seen := s.seen + {Seen(d.kind, d.id)});
    Delivery.DispatchPrints(cfg, s, d, true);
    Delivery.DispatchPrints(cfg, u, d, false);
    if cfg.proto == TCP { TakenTcp(cfg, s, d); }
    assert Seen(d.kind, d.id) in s.seen ==> u.seen == s.seen;
  }

  lemma TakenTcp(cfg: Config, s: State, d: Datagram)
    requires cfg.proto == TCP
    ensures var t := Dispatch(cfg, s, d, false);
      && (d.kind == CONF ==> t.halted)
      && (d.kind == MSG ==> t == s.(log := t.log) && t.log.printed == s.log.printed + [Seen(MSG, d.id)])
      && (d.kind == BYE ==> t == s.(fsm := End))
      && (MsgTypeOf(d.kind) !in {CONF, REPLY, MSG, BYE} ==> t.fsm == Error)
  {
    hide PacketOf;
  }

  // ---------------------------------------------------------------------------
  //  REPLY
  // ---------------------------------------------------------------------------

  /** The CONFIRM of datagram `d` stands in front of the messages `q`. */
  predicate Confirms(s: State, t: State, d: Datagram, flags: Flag, q: seq<Msg>) {
    && t.queue == [Msg(s.log.next, [0, d.id.low, d.id.high], CONF, flags, 0, false)] + q
    && t.log.next == s.log.next + 1 && t.log.sent == s.log.sent && t.log.causes == s.log.causes[s.log.next := d]
  }

  /** What a message of the server never changes. */
  predicate ServerKeeps(s: State, t: State) { t.pc == s.pc && t.displayName == s.displayName }

  function Reflagged(q: seq<Msg>, flags: Flag): seq<Msg>
    requires q != []
  {
    [q[0].(flags := flags)] + q[1..]
  }

  /** The first REPLY while the client waits for one: what an acceptance and what a rejection do. */
  predicate ReplyTaken(s: State, t: State, d: Datagram) {
    if d.ok then
      && t.fsm == WaitReplyConf && !t.halted
      && Confirms(s, t, d, FlagConfirm, if s.fsm == WaitReply && s.queue != [] then Reflagged(s.queue, FlagConfirmed)
                                        else s.queue)
    else if s.queue == [] then t.halted
    else if s.queue[0].flags == FlagAuth then
      t.fsm == Start && !t.halted && Confirms(s, t, d, FlagNokReply, Reflagged(s.queue, FlagRejected))
    else
      && t.fsm == (if s.fsm == JoinAttempt then Open else s.fsm) && !t.halted
      && Confirms(s, t, d, FlagNokReply, s.queue)
  }

  lemma ReplyHandled(cfg: Config, s: State, d: Datagram)
    requires !s.halted
    ensures var t := HandleReply(cfg, s, d);
      && ServerKeeps(s, t) && t.log.printed == s.log.printed && t.seen == s.seen
      && if s.fsm == WaitReply || s.fsm == JoinAttempt then
           ReplyTaken(s, t, d) && (!t.halted ==> t.counter == Following(MsgId(cfg, d.id)))
         else t == s
  {
    hide MsgId;
  }

  /** A REPLY over UDP from its bytes on, in every state that receives. */
  lemma UdpReplyArrives(cfg: Config, s: State, id: Id, result: byte, ref: Id, text: seq<byte>)
    requires cfg.proto == UDP && !s.halted && s.fsm != End && text != [] && NulFree(text)
    ensures WholeDatagram(UdpReply(id, result, ref, text))
    ensures var d := Datagram(REPLY, id, result == 1);
      var t := Step(cfg, s, DatagramEvent(cfg, UdpReply(id, result, ref, text)));
      && ServerKeeps(s, t) && t.log.printed == s.log.printed
      && if Repetitive(cfg, s.seen, d) then
           t.fsm == s.fsm && Confirms(s, t, d, FlagConfirm, s.queue) && t.seen == s.seen && t.counter == s.counter
         else
           && t.seen == s.seen + {Seen(REPLY, id)}
           && if s.fsm == WaitReply || s.fsm == JoinAttempt then
                ReplyTaken(s, t, d) && (!t.halted ==> t.counter == Following(MsgId(cfg, id)))
              else t == s.(seen := t.seen)
  {
    hide Repetitive, MsgId, WholeDatagram, UdpDecode, HandleReply, ReplyTaken;
    UdpReplyEvent(cfg, id, result, ref, text);
    var d := Datagram(REPLY, id, result == 1);
    var u := s.(seen := s.seen + {Seen(REPLY, id)});
    ReplyHandled(cfg, u, d);
    ReplySeen(s, u, HandleReply(cfg, u, d), d);
  }

  /** What is remembered does not matter here. */
  lemma ReplySeen(s: State, u: State, t: State, d: Datagram)
    requires u == s.(seen := u.seen)
    ensures ReplyTaken(u, t, d) <==> ReplyTaken(s, t, d)
  {}

  /** A REPLY over TCP answers the AUTH or the JOIN, and changes nothing else. */
  lemma TcpReplyArrives(cfg: Config, s: State, ok: bool, text: seq<byte>)
    requires cfg.proto == TCP && !s.halted && s.fsm != End && LineEndFree(text)
    ensures EndsInLineEnd(TcpReply(ok, text))
    ensures Step(cfg, s, LineEvent(TcpReply(ok, text))) ==
      s.(fsm := if s.fsm == AuthSent then (if ok then Open else Start)
                else if s.fsm == JoinAttempt then Open
                else s.fsm)
  {
    hide EndsInLineEnd, TcpDecode;
    TcpEvents([], text, ok);
  }

  // ---------------------------------------------------------------------------
  //  Messages that close the client
  // ---------------------------------------------------------------------------

  /** In UDP its CONFIRM goes first; in TCP nothing does. */
  predicate Acknowledges(cfg: Config, s: State, t: State, d: Datagram, q: seq<Msg>) {
    if cfg.proto == UDP then
      t.queue == [Msg(s.log.next, [0, d.id.low, d.id.high], CONF, FlagConfirm, 0, false)] + q
    else t.queue == q
  }

  /** Message `m` is a fresh one that any server reads as command `c`. */
  ghost predicate ReadsAs(cfg: Config, m: Msg, c: Command, flags: Flag, name: seq<byte>) {
    m.flags == flags && m.sendCount == 0 && !m.confirmed
    && forall signedChar: bool :: ReadBack(cfg, signedChar, m.data, c, name)
  }

  lemma ByeReads(cfg: Config)
    ensures forall signedChar: bool ::
      ReadBack(cfg, signedChar, PacketOf(cfg, CmdExit([]), cfg.mainStale, []), CmdExit([]), [])
  {
    hide ReadBack, PacketOf;
    forall signedChar: bool
      ensures ReadBack(cfg, signedChar, PacketOf(cfg, CmdExit([]), cfg.mainStale, []), CmdExit([]), [])
    {
      CommandReadBack(cfg, signedChar, CmdExit([]), cfg.mainStale, []);
    }
  }

  lemma ErrorReads(cfg: Config, text: seq<byte>, stale: Id, name: seq<byte>)
    requires (text == TIMED_OUT || text == UNKNOWN_FORMAT) && ValidName(name)
    ensures forall signedChar: bool ::
      ReadBack(cfg, signedChar, PacketOf(cfg, CmdErr(text), stale, name), CmdErr(text), name)
  {
    hide ReadBack, PacketOf;
    forall signedChar: bool
      ensures ReadBack(cfg, signedChar, PacketOf(cfg, CmdErr(text), stale, name), CmdErr(text), name)
    {
      CommandReadBack(cfg, signedChar, CmdErr(text), stale, name);
    }
  }

  /** ERR of the server: everything queued is dropped, and its CONFIRM and one BYE are left. */
  lemma ErrorHandled(cfg: Config, s: State, d: Datagram)
    requires !s.halted && d.kind == ERR
    ensures var t := ReceiveError(cfg, s, d);
      && ServerKeeps(s, t) && !t.halted && t.fsm == Error && t.queue != []
      && t.log.printed == s.log.printed + [Seen(ERR, d.id)] && t.log.sent == s.log.sent
      && Acknowledges(cfg, s, t, d, [t.queue[|t.queue| - 1]])
      && ReadsAs(cfg, t.queue[|t.queue| - 1], CmdExit([]), FlagBye, [])
  {
    hide ReadBack, PacketOf;
    ByeReads(cfg);
  }

  lemma ErrorArrives(cfg: Config, s: State, d: Datagram)
    requires !s.halted && Handles(s, d) && d.kind == ERR
    ensures var t := Step(cfg, s, Receive(d));
      && ServerKeeps(s, t) && !t.halted && t.fsm == Error && t.queue != []
      && t.log.printed == s.log.printed + [Seen(ERR, d.id)] && t.log.sent == s.log.sent
      && Acknowledges(cfg, s, t, d, [t.queue[|t.queue| - 1]])
      && ReadsAs(cfg, t.queue[|t.queue| - 1], CmdExit([]), FlagBye, [])
  {
    hide ReadsAs, Repetitive, ReceiveError;
    ErrorHandled(cfg, s, d);
    ErrorHandled(cfg, s.(seen := s.seen + {Seen(d.kind, d.id)}), d);
  }

  /** The two last messages are an ERR with this text and a BYE. */
  ghost predicate EndsInErrorAndBye(cfg: Config, q: seq<Msg>, text: seq<byte>, name: seq<byte>) {
    |q| >= 2 && ReadsAs(cfg, q[|q| - 2], CmdErr(text), FlagErr, name)
    && ReadsAs(cfg, q[|q| - 1], CmdExit([]), FlagBye, [])
  }

  /** An unknown message: everything queued is dropped, and its CONFIRM, one ERR and one BYE are left. */
  ghost predicate UnknownAnswered(cfg: Config, s: State, t: State, d: Datagram) {
    && ServerKeeps(s, t) && t.fsm == Error && t.log.printed == s.log.printed && t.log.sent == s.log.sent
    && t.halted == s.displayName.None?
    && (s.displayName.Some? ==>
          && EndsInErrorAndBye(cfg, t.queue, UNKNOWN_FORMAT, s.displayName.value)
          && Acknowledges(cfg, s, t, d, t.queue[|t.queue| - 2..])
          && (cfg.proto == UDP ==> IdOf(t.queue[|t.queue| - 2].data) == d.id))
  }

  lemma UnknownHandled(cfg: Config, s: State, d: Datagram)
    requires !s.halted && NameOk(s)
    ensures UnknownAnswered(cfg, s, ReceiveUnknown(cfg, s, d), d)
  {
    hide ReadBack, PacketOf, ValidWord;
    ByeReads(cfg);
    if s.displayName.Some? {
      ErrorReads(cfg, UNKNOWN_FORMAT, d.id, s.displayName.value);
      StaleKept(cfg, UNKNOWN_FORMAT, d.id, s.displayName.value);
    }
  }

  lemma UnknownArrives(cfg: Config, s: State, d: Datagram)
    requires !s.halted && Handles(s, d) && MsgTypeOf(d.kind) in {AUTH, JOIN, UNKNOWN} && NameOk(s)
    ensures UnknownAnswered(cfg, s, Step(cfg, s, Receive(d)), d)
  {
    hide ReadsAs, Repetitive, ReceiveUnknown, EndsInErrorAndBye;
    UnknownHandled(cfg, s, d);
    UnknownHandled(cfg, s.(seen := s.seen + {Seen(d.kind, d.id)}), d);
  }

  lemma StaleKept(cfg: Config, text: seq<byte>, stale: Id, name: seq<byte>)
    ensures cfg.proto == UDP ==> IdOf(PacketOf(cfg, CmdErr(text), stale, name)) == stale
  {}

  /** BYE of the server: the client is at its end, whatever is queued. */
  lemma ByeArrives(cfg: Config, s: State, d: Datagram)
    requires !s.halted && Handles(s, d) && d.kind == BYE
    ensures var t := Step(cfg, s, Receive(d));
      && ServerKeeps(s, t) && !t.halted && t.fsm == End && Acknowledges(cfg, s, t, d, s.queue)
      && t.log.printed == s.log.printed && t.log.sent == s.log.sent
  {
    hide Repetitive;
  }

  /** The time-out of the filter: only an ERR with the reason and a BYE are left. */
  lemma TimeOutExactly(cfg: Config, s: State)
    requires !s.halted && NameOk(s)
    ensures var t := TimeOut(cfg, s);
      && ServerKeeps(s, t) && t.fsm == Error && t.log.sent == s.log.sent && t.halted == s.displayName.None?
      && (s.displayName.Some? ==> |t.queue| == 2 && EndsInErrorAndBye(cfg, t.queue, TIMED_OUT, s.displayName.value))
  {
    hide ReadBack, PacketOf, ValidWord;
    ByeReads(cfg);
    if s.displayName.Some? { ErrorReads(cfg, TIMED_OUT, cfg.senderStale, s.displayName.value); }
  }
}
