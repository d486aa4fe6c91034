/**
 * The client as a transition system: one function per atomic step of its three threads and of SIGINT.
 * A waiting thread is a step that leaves the state alone. Every path into errHandling, and every
 * access through the null front of an empty queue, ends the program: `halted`.
 */
module ChatProtocol {
  import opened Basics
  import opened Commands
  import opened Formats
  import opened MessageIds
  import Decoding
  import Tokenizer

  /** What does not change during a run. The stale ids are the bytes the send buffers start with. */
  datatype Config = Config(proto: Protocol, maxRetries: byte, signedChar: bool, mainStale: Id, senderStale: Id)

  /** A queued message. `serial` stands for the identity of the allocated Message. */
  datatype Msg = Msg(serial: nat, data: Packet, kind: byte, flags: Flag, sendCount: byte, confirmed: bool)
  {
    predicate IsConf() { kind == CONF }
    predicate IsAck() { flags == FlagConfirm || flags == FlagNokReply }
  }

  /** A disassembled message from the server. */
  datatype Datagram = Datagram(kind: byte, id: Id, ok: bool)

  /** What the duplicate check remembers of a datagram. */
  datatype Seen = Seen(kind: byte, id: Id)

  /** Where the sender thread is: loop top, before logicFSM, in its unchecked wait, or out of the loop. */
  datatype Pc = Top | Logic | Wake | Gone

  /** History: the next serial, the transmitted messages, the printed ones, and what each CONFIRM answers. */
  datatype Log = Log(next: nat, sent: seq<Msg>, printed: seq<Seen>, causes: map<nat, Datagram>)

  datatype State = State(
    fsm: Fsm, pc: Pc, queue: seq<Msg>, counter: u16, seen: set<Seen>,
    displayName: Option<seq<byte>>, halted: bool, log: Log)

  /** The steps. `Garbled` is a UDP datagram with an empty field, which the disassembler does not survive. */
  datatype Event = Line(line: seq<byte>) | Eof | Receive(d: Datagram) | Garbled | SenderTurn | Sigint

  function Init(): State {
    State(Start, Top, [], 0, {}, None, false, Log(0, [], [], map[]))
  }

  // ---------------------------------------------------------------------------
  //  Queue operations
  // ---------------------------------------------------------------------------

  function NewMsg(s: State, data: Packet, kind: byte, flags: Flag): Msg {
    Msg(s.log.next, data, kind, flags, 0, false)
  }

  function Append(s: State, data: Packet, kind: byte, flags: Flag): State {
    s.(queue := s.queue + [NewMsg(s, data, kind, flags)], log := s.log.(next := s.log.next + 1))
  }

  function Prepend(s: State, data: Packet, kind: byte, flags: Flag): State {
    s.(queue := [NewMsg(s, data, kind, flags)] + s.queue, log := s.log.(next := s.log.next + 1))
  }

  function PopFront(s: State): State
    requires s.queue != []
  {
    s.(queue := s.queue[1..])
  }

  function SetFront(s: State, m: Msg): State
    requires s.queue != []
  {
    s.(queue := s.queue[0 := m])
  }

  function PopAll(s: State): State { s.(queue := []) }

  function Halt(s: State): State { s.(halted := true) }

  // ---------------------------------------------------------------------------
  //  Messages the client makes itself (protocolReceiver.c)
  // ---------------------------------------------------------------------------

  const TIMED_OUT: seq<byte> :=
    [82, 101, 113, 117, 101, 115, 116, 32, 116, 105, 109, 101, 100, 32, 111, 117, 116] // "Request timed out"
  const UNKNOWN_FORMAT: seq<byte> :=
    [85, 110, 107, 110, 111, 119, 110, 32, 109, 101, 115, 115, 97, 103, 101, 32, 102, 111, 114, 109, 97, 116]

  /** The buffer an assembler fills, in the format of the protocol; `stale` are the untouched id bytes. */
  function PacketOf(cfg: Config, c: Command, stale: Id, name: seq<byte>): Packet
    requires TcpKnown(c)
  {
    if cfg.proto == UDP then UdpPacket(c, stale, name) else TcpPacket(c, name)
  }

  /** sendConfirm: a CONFIRM with the id bytes of the received message goes to the front. */
  function SendConfirm(s: State, d: Datagram, flags: Flag): State {
    var t := Prepend(s, UdpConfirm(d.id), CONF, flags);
    t.(log := t.log.(causes := t.log.causes[s.log.next := d]))
  }

  function SendBye(cfg: Config, s: State): State {
    Append(s, PacketOf(cfg, CmdExit([]), cfg.mainStale, []), BYE, FlagBye)
  }

  /** sendError: without a display name it cannot be assembled, which ends the program. */
  function SendError(cfg: Config, s: State, stale: Id, text: seq<byte>): State {
    match s.displayName
    case None => Halt(s)
    case Some(name) => Append(s, PacketOf(cfg, CmdErr(text), stale, name), CMD_ERR, FlagErr)
  }

  function SendErrorAndBye(cfg: Config, s: State, stale: Id, text: seq<byte>): State {
    var t := SendError(cfg, s, stale, text);
    if t.halted then t else SendBye(cfg, t)
  }

  // ---------------------------------------------------------------------------
  //  Main thread (main.c)
  // ---------------------------------------------------------------------------

  /** The part of userCommandHandling after the command passed filterCommandsByFSM. */
  function Enqueue(cfg: Config, s: State, c: Command, flags: Flag): State
    requires TcpKnown(c)
  {
    if NeedsName(c) && s.displayName.None? then s
    else
      var name := if s.displayName.Some? then s.displayName.value else [];
      var t := Append(s, PacketOf(cfg, c, cfg.mainStale, name), KindOf(c), flags);
      if c.CmdExit? then t.(fsm := EmptyQueueBye) else t
  }

  /** filterCommandsByFSM followed by the rest of the loop body, for one command. */
  function RunCommand(cfg: Config, s: State, c: Command): State {
    match c
    case CmdAuth(_, _, _, name) =>
      var t := s.(displayName := Some(name));
      if s.fsm == Start then Enqueue(cfg, t.(fsm := AuthWaiting), c, FlagAuth) else t
    case CmdRename(name) => if s.fsm == Open then s.(displayName := Some(name)) else s
    case CmdJoin(_, _) => if s.fsm == Open then Enqueue(cfg, s, c, FlagNone) else s
    case CmdMsg(_) => if s.fsm == Open then Enqueue(cfg, s, c, FlagNone) else s
    case CmdExit(_) => Enqueue(cfg, s, c, FlagNone)
    case _ => s
  }

  function MainLine(cfg: Config, s: State, line: seq<byte>): State {
    if s.fsm.Closing() || !Tokenizer.Tokenizable(line) then s
    else RunCommand(cfg, s, Tokenizer.Parse(line))
  }

  function MainEof(cfg: Config, s: State): State {
    if s.fsm.Closing() then s else SendBye(cfg, s.(fsm := EmptyQueueBye))
  }

  // ---------------------------------------------------------------------------
  //  Receiver thread (protocolReceiver.c)
  // ---------------------------------------------------------------------------

  /** The comparison of queueContainsMessageId: a char against the unsigned byte that was stored. */
  predicate Matches(signedChar: bool, incoming: Seen, stored: Seen) {
    CharValue(signedChar, incoming.id.high) == stored.id.high
    && CharValue(signedChar, incoming.id.low) == stored.id.low
    && incoming.kind == stored.kind
  }

  predicate Repetitive(cfg: Config, seen: set<Seen>, d: Datagram) {
    exists x :: x in seen && Matches(cfg.signedChar, Seen(d.kind, d.id), x)
  }

  function MsgId(cfg: Config, id: Id): u16 { Decode(cfg.signedChar, id.low, id.high) }

  /** Whether a CONFIRM with this id is taken as the confirmation of the front message. */
  predicate Accepts(cfg: Config, m: Msg, id: Id) {
    MsgId(cfg, id) == MsgId(cfg, IdOf(m.data)) || m.kind == AUTH
  }

  function HandleConfirm(cfg: Config, s: State, id: Id): State {
    if s.queue == [] || !Accepts(cfg, s.queue[0], id) then s
    else
      var t := SetFront(s, s.queue[0].(confirmed := true)).(counter := Following(MsgId(cfg, id)));
      match s.fsm
      case AuthSent => t.(fsm := WaitReply)
      case EndWaitConf => t.(fsm := End)
      case _ => t
  }

  /** A positive reply to AUTH reflags whatever message is at the front. */
  function HandleReplyOk(cfg: Config, s: State, d: Datagram): State {
    var t := if s.fsm == WaitReply && s.queue != [] then SetFront(s, s.queue[0].(flags := FlagConfirmed)) else s;
    SendConfirm(t.(fsm := WaitReplyConf), d, FlagConfirm)
  }

  function HandleReplyNok(cfg: Config, s: State, d: Datagram): State
    requires s.queue != []
  {
    var t := if s.queue[0].flags == FlagAuth
             then SetFront(s, s.queue[0].(flags := FlagRejected)).(fsm := Start) else s;
    var u := if t.fsm == JoinAttempt then t.(fsm := Open) else t;
    SendConfirm(u, d, FlagNokReply)
  }

  /** A negative reply reads the flags of the front message, which an empty queue does not have. */
  function HandleReply(cfg: Config, s: State, d: Datagram): State {
    if s.fsm != WaitReply && s.fsm != JoinAttempt then s
    else if !d.ok && s.queue == [] then Halt(s)
    else
      var t := if d.ok then HandleReplyOk(cfg, s, d) else HandleReplyNok(cfg, s, d);
      t.(counter := Following(MsgId(cfg, d.id)))
  }

  function HandleReplyTcp(s: State, ok: bool): State {
    match s.fsm
    case AuthSent => s.(fsm := if ok then Open else Start)
    case JoinAttempt => s.(fsm := Open)
    case _ => s
  }

  function Print(s: State, d: Datagram): State {
    s.(log := s.log.(printed := s.log.printed + [Seen(d.kind, d.id)]))
  }

  function ReceiveError(cfg: Config, s: State, d: Datagram): State {
    var t := PopAll(s);
    var u := if cfg.proto == UDP then SendConfirm(t, d, FlagConfirm) else t;
    Print(SendBye(cfg, u).(fsm := Error), d)
  }

  /** Any other message is answered with ERR and BYE; the ERR keeps the id bytes of the CONFIRM before it. */
  function ReceiveUnknown(cfg: Config, s: State, d: Datagram): State {
    var t := PopAll(s.(fsm := Error));
    var u := if cfg.proto == UDP then SendConfirm(t, d, FlagConfirm) else t;
    SendErrorAndBye(cfg, u, d.id, UNKNOWN_FORMAT)
  }

  /** receiverFSM, given the outcome of the duplicate check. */
  function Dispatch(cfg: Config, s: State, d: Datagram, repetitive: bool): State {
    var kind := MsgTypeOf(d.kind);
    var confirmed := if cfg.proto == UDP then SendConfirm(s, d, FlagConfirm) else s;
    if kind == CONF then (if cfg.proto == UDP then HandleConfirm(cfg, s, d.id) else Halt(s))
    else if kind == REPLY then
      if cfg.proto == TCP then HandleReplyTcp(s, d.ok)
      else if repetitive then confirmed
      else HandleReply(cfg, s, d)
    else if kind == MSG then
      if cfg.proto == UDP && repetitive then confirmed else Print(confirmed, d)
    else if kind == BYE then confirmed.(fsm := End)
    else if kind == ERR then ReceiveError(cfg, s, d)
    else ReceiveUnknown(cfg, s, d)
  }

  /** The loop guard of protocolReceiver, and the messages it drops before authentication starts. */
  predicate Handles(s: State, d: Datagram) {
    s.fsm != End && !(s.fsm == Start && d.kind != REPLY && d.kind != CONF)
  }

  function ReceiveStep(cfg: Config, s: State, d: Datagram): State {
    if !Handles(s, d) then s
    else if cfg.proto == UDP then
      var repetitive := Repetitive(cfg, s.seen, d);
      var t := if repetitive then s else s.(seen := s.seen + {Seen(d.kind, d.id)});
      Dispatch(cfg, t, d, repetitive)
    else Dispatch(cfg, s, d, false)
  }

  /** The loop of protocolReceiver disassembles before it looks at the state, except that it stops in END. */
  function GarbledStep(cfg: Config, s: State): State {
    if cfg.proto == UDP && s.fsm != End then Halt(s) else s
  }

  /** The event that a received UDP datagram is, from its bytes. */
  function DatagramEvent(cfg: Config, data: seq<byte>): Event
    requires Decoding.WholeDatagram(data)
  {
    match Decoding.UdpDecode(cfg.signedChar, data)
    case None => Garbled
    case Some(m) => Receive(Datagram(m.kind, Id(data[1], data[2]), m.ok))
  }

  /** The event that a received TCP line is; TCP messages carry no id. */
  function LineEvent(data: seq<byte>): Event
    requires Decoding.EndsInLineEnd(data)
  {
    var m := Decoding.TcpDecode(data);
    Receive(Datagram(m.kind, Id(0, 0), m.ok))
  }

  // ---------------------------------------------------------------------------
  //  Sender thread (protocolSender.c)
  // ---------------------------------------------------------------------------

  function TimeOut(cfg: Config, s: State): State {
    SendErrorAndBye(cfg, PopAll(s).(fsm := Error), cfg.senderStale, TIMED_OUT)
  }

  /** Whether the filter stops at this message and leaves it to be sent. */
  predicate Stops(m: Msg) { m.flags != FlagRejected && (m.flags == FlagAuth || !m.confirmed) }

  /** filterResentMessages: the loop over the front of the queue. */
  function Filter(cfg: Config, s: State): State
    decreases |s.queue|
  {
    if s.queue == [] then s
    else
      var m := s.queue[0];
      if m.sendCount > cfg.maxRetries then
        if s.fsm == ErrorWaitConf then Filter(cfg, PopFront(s))
        else if s.fsm == EndWaitConf then Filter(cfg, PopFront(s.(fsm := End)))
        else TimeOut(cfg, s)
      else if Stops(m) then s
      else Filter(cfg, PopFront(s))
  }

  /** The loop body of protocolSender up to the point where it makes room for the other threads. */
  function SenderTop(cfg: Config, s: State): State {
    if s.fsm == End then s.(pc := Gone)
    else
      var t := if cfg.proto == UDP then Filter(cfg, s) else s;
      if t.halted || (s.fsm == EndWaitConf && t.fsm != EndWaitConf) then t
      else if t.queue != [] then t.(pc := Logic)
      else if t.fsm == EmptyQueueBye || t.fsm == SigintBye then t.(fsm := End)
      else t
  }

  /** queueMessageSended on the 8-bit counter. */
  function CountSent(m: Msg): Msg { m.(sendCount := (m.sendCount + 1) % 256) }

  /** Everything after logicFSM: stamp the id, send the front message, count or pop it. */
  function Transmit(cfg: Config, s: State): State {
    if s.queue == [] then Halt(s)
    else
      var m := s.queue[0];
      var out := if cfg.proto == UDP && !m.IsAck() then m.(data := Stamp(m.data, s.counter)) else m;
      var logged := s.(pc := Top, log := s.log.(sent := s.log.sent + [out]));
      if cfg.proto == TCP then PopFront(logged).(counter := Following(s.counter))
      else if m.flags == FlagDoNotResend || m.IsAck() then PopFront(logged)
      else SetFront(logged, CountSent(out))
  }

  /** logicFSM before authentication: the state is updated, then the message may have to wait. */
  function LogicStart(cfg: Config, s: State): State
    requires s.queue != []
  {
    var m := s.queue[0];
    var t := if m.flags == FlagAuth && (s.fsm == Start || s.fsm == AuthWaiting) then s.(fsm := AuthSent) else s;
    if m.kind != AUTH && m.flags != FlagNokReply then t.(pc := Wake)
    else if m.kind == AUTH && m.confirmed && m.sendCount > 0 then t
    else Transmit(cfg, t)
  }

  function LogicError(cfg: Config, s: State): State
    requires s.queue != []
  {
    var m := s.queue[0];
    if m.flags == FlagBye then Transmit(cfg, s.(fsm := if cfg.proto == UDP then EndWaitConf else End))
    else if m.flags == FlagErr then Transmit(cfg, if cfg.proto == UDP then s.(fsm := ErrorWaitConf) else s)
    else if m.flags == FlagConfirm then Transmit(cfg, s)
    else Halt(s)
  }

  /** logicFSM and the transmission that follows it. */
  function SenderLogic(cfg: Config, s: State): State {
    if s.queue == [] then Halt(s)
    else
      var m := s.queue[0];
      match s.fsm
      case Start => LogicStart(cfg, s)
      case AuthWaiting => LogicStart(cfg, s)
      case AuthSent => LogicStart(cfg, s)
      case WaitReply => LogicStart(cfg, s)
      case WaitReplyConf => Transmit(cfg, if m.kind == CONF then s.(fsm := Open) else s)
      case Open =>
        if m.kind == AUTH then Transmit(cfg, PopFront(s))
        else Transmit(cfg, if m.kind == JOIN then s.(fsm := JoinAttempt) else s)
      case Error => LogicError(cfg, s)
      case ErrorWaitConf => LogicError(cfg, s)
      case _ => Transmit(cfg, s)
  }

  function SenderStep(cfg: Config, s: State): State {
    if s.halted then s
    else
      match s.pc
      case Top => SenderTop(cfg, s)
      case Logic => SenderLogic(cfg, s)
      case Wake => Transmit(cfg, s)
      case Gone => s
  }

  // ---------------------------------------------------------------------------
  //  SIGINT (cleanUpMaster.c), and all steps together
  // ---------------------------------------------------------------------------

  function SigintStep(cfg: Config, s: State): State {
    SendBye(cfg, PopAll(s.(fsm := SigintBye)))
  }

  function Step(cfg: Config, s: State, e: Event): State {
    if s.halted then s
    else
      match e
      case Line(line) => MainLine(cfg, s, line)
      case Eof => MainEof(cfg, s)
      case Receive(d) => ReceiveStep(cfg, s, d)
      case Garbled => GarbledStep(cfg, s)
      case SenderTurn => SenderStep(cfg, s)
      case Sigint => SigintStep(cfg, s)
  }

  /** The state after a run: any interleaving of the steps, from the start of the program. */
  function After(cfg: Config, es: seq<Event>): State {
    if es == [] then Init() else Step(cfg, After(cfg, es[..|es| - 1]), es[|es| - 1])
  }
}
