/**
 * End to end: the display name is valid in every run, and whatever AUTH, JOIN or MSG the client ever
 * queues or transmits is a line the user typed, in the format of the protocol; a receiver that
 * disassembles it gets back exactly the words of that line and the display name of that moment.
 */
module EndToEnd {
  import opened Basics
  import opened Commands
  import opened Formats
  import opened ChatProtocol
  import opened Safety
  import opened Decoding
  import opened TcpLines
  import opened IdsInUse
  import Tokenizer

  // ---------------------------------------------------------------------------
  //  The display name
  // ---------------------------------------------------------------------------

  lemma {:induction false} FilterName(cfg: Config, s: State)
    ensures Filter(cfg, s).displayName == s.displayName
    decreases |s.queue|
  {
    if s.queue != [] {
      FilterName(cfg, PopFront(s));
      FilterName(cfg, PopFront(s.(fsm := End)));
    }
  }

  lemma ReceiveName(cfg: Config, s: State, d: Datagram)
    ensures ReceiveStep(cfg, s, d).displayName == s.displayName
  {
    hide Repetitive;
    hide Dispatch;
    DispatchName(cfg, s, d, Repetitive(cfg, s.seen, d));
    DispatchName(cfg, s, d, false);
    DispatchName(cfg, s.(seen := s.seen + {Seen(d.kind, d.id)}), d, false);
  }

  lemma DispatchName(cfg: Config, s: State, d: Datagram, repetitive: bool)
    ensures Dispatch(cfg, s, d, repetitive).displayName == s.displayName
  {
    hide HandleReply;
    hide PacketOf;
    ReplyName(cfg, s, d);
  }

  lemma ReplyName(cfg: Config, s: State, d: Datagram)
    ensures HandleReply(cfg, s, d).displayName == s.displayName
  {}

  lemma SenderName(cfg: Config, s: State)
    ensures SenderStep(cfg, s).displayName == s.displayName
  {
    hide Filter;
    hide SenderLogic;
    FilterName(cfg, s);
    var f, p := LogicForm(cfg, s);
  }

  /** Only a user's line changes the display name, and only to a valid one. */
  lemma StepName(cfg: Config, s: State, e: Event)
    ensures var t := Step(cfg, s, e);
      t.displayName == s.displayName || (e.Line? && t.displayName.Some? && ValidName(t.displayName.value))
  {
    hide ReceiveStep;
    hide SenderStep;
    hide PacketOf;
    hide ValidWord;
    hide Tokenizer.Parse;
    match e {
      case Receive(d) => ReceiveName(cfg, s, d);
      case Garbled =>
      case SenderTurn => SenderName(cfg, s);
      case _ =>
    }
  }

  /** Over every run the display name is unset or valid. */
  lemma {:induction false} DisplayNameValid(cfg: Config, es: seq<Event>)
    ensures var s := After(cfg, es); s.displayName.Some? ==> ValidName(s.displayName.value)
  {
    hide Step;
    if es != [] {
      var before := es[..|es| - 1];
      DisplayNameValid(cfg, before);
      StepName(cfg, After(cfg, before), es[|es| - 1]);
    }
  }

  // ---------------------------------------------------------------------------
  //  Which bytes are queued and transmitted
  // ---------------------------------------------------------------------------

  predicate FromUser(kind: byte) { kind == AUTH || kind == JOIN || kind == MSG }

  /** The display name before event `k`, as the assemblers use it. */
  function NameAt(cfg: Config, es: seq<Event>, k: nat): seq<byte>
    requires k < |es|
  {
    var d := After(cfg, es[..k]).displayName;
    if d.Some? then d.value else []
  }

  /** Event `k` is a line that the user's part takes for a message of this kind. */
  predicate Asks(cfg: Config, es: seq<Event>, k: nat, kind: byte)
    requires k < |es|
  {
    es[k].Line? && Tokenizer.Tokenizable(es[k].line) &&
    var c := Tokenizer.Parse(es[k].line);
    TcpKnown(c) && KindOf(c) == kind && (NeedsName(c) ==> After(cfg, es[..k]).displayName.Some?)
  }

  /** These bytes are the message asked for by event `k`, with some id. */
  ghost predicate Is(cfg: Config, es: seq<Event>, k: nat, kind: byte, data: Packet)
    requires k < |es|
  {
    Asks(cfg, es, k, kind)
    && exists id :: data == PacketOf(cfg, Tokenizer.Parse(es[k].line), id, NameAt(cfg, es, k))
  }

  ghost predicate Authored(cfg: Config, es: seq<Event>, kind: byte, data: Packet) {
    FromUser(kind) ==> exists k :: 0 <= k < |es| && Is(cfg, es, k, kind, data)
  }

  ghost predicate AllAuthored(cfg: Config, es: seq<Event>, s: State) {
    && (forall i :: 0 <= i < |s.queue| ==> Authored(cfg, es, s.queue[i].kind, s.queue[i].data))
    && (forall i :: 0 <= i < |s.log.sent| ==> Authored(cfg, es, s.log.sent[i].kind, s.log.sent[i].data))
  }

  lemma IsMore(cfg: Config, es: seq<Event>, e: Event, k: nat, kind: byte, data: Packet)
    requires k < |es| && Is(cfg, es, k, kind, data)
    ensures Is(cfg, es + [e], k, kind, data)
  {
    hide After;
    hide PacketOf;
    hide Tokenizer.Parse;
    var id :| data == PacketOf(cfg, Tokenizer.Parse(es[k].line), id, NameAt(cfg, es, k));
    var more := es + [e];
    assert more[..k] == es[..k] && more[k] == es[k];
    assert data == PacketOf(cfg, Tokenizer.Parse(more[k].line), id, NameAt(cfg, more, k));
  }

  /** More events do not change what was asked for. */
  lemma AuthoredMore(cfg: Config, es: seq<Event>, e: Event, kind: byte, data: Packet)
    requires Authored(cfg, es, kind, data)
    ensures Authored(cfg, es + [e], kind, data)
  {
    hide Is;
    if FromUser(kind) {
      var k :| 0 <= k < |es| && Is(cfg, es, k, kind, data);
      IsMore(cfg, es, e, k, kind, data);
    }
  }

  lemma AllAuthoredMore(cfg: Config, es: seq<Event>, e: Event, s: State)
    requires AllAuthored(cfg, es, s)
    ensures AllAuthored(cfg, es + [e], s)
  {
    hide Authored;
    forall i | 0 <= i < |s.queue| ensures Authored(cfg, es + [e], s.queue[i].kind, s.queue[i].data) {
      AuthoredMore(cfg, es, e, s.queue[i].kind, s.queue[i].data);
    }
    forall i | 0 <= i < |s.log.sent| ensures Authored(cfg, es + [e], s.log.sent[i].kind, s.log.sent[i].data) {
      AuthoredMore(cfg, es, e, s.log.sent[i].kind, s.log.sent[i].data);
    }
  }

  /** An id stamped into an assembled message only replaces its id bytes. */
  lemma StampedPacket(cfg: Config, c: Command, id: Id, name: seq<byte>, counter: u16)
    requires cfg.proto == UDP && TcpKnown(c)
    ensures Stamp(PacketOf(cfg, c, id, name), counter) == PacketOf(cfg, c, IdFor(counter), name)
  {
    match c
    case CmdAuth(_, u, s, d) => StampedAuth(id, u, d, s, counter);
    case CmdJoin(_, ch) => StampedPair(JOIN, id, ch, name, counter);
    case CmdMsg(t) => StampedPair(MSG, id, name, t, counter);
    case CmdErr(t) => StampedPair(ERR, id, name, t, counter);
    case CmdExit(_) =>
  }

  lemma AuthoredStamped(cfg: Config, es: seq<Event>, kind: byte, data: Packet, counter: u16)
    requires cfg.proto == UDP && Authored(cfg, es, kind, data)
    ensures Authored(cfg, es, kind, Stamp(data, counter))
  {
    hide After;
    hide PacketOf;
    hide Tokenizer.Parse;
    hide Stamp;
    if FromUser(kind) {
      var k :| 0 <= k < |es| && Is(cfg, es, k, kind, data);
      var c, name := Tokenizer.Parse(es[k].line), NameAt(cfg, es, k);
      var id :| data == PacketOf(cfg, c, id, name);
      StampedPacket(cfg, c, id, name, counter);
      assert Is(cfg, es, k, kind, Stamp(data, counter));
    }
  }

  // ---------------------------------------------------------------------------
  //  Every step keeps it
  // ---------------------------------------------------------------------------

  lemma AppendAuthored(cfg: Config, es: seq<Event>, s: State, data: Packet, kind: byte, flags: Flag)
    requires AllAuthored(cfg, es, s) && Authored(cfg, es, kind, data)
    ensures AllAuthored(cfg, es, Append(s, data, kind, flags))
    ensures AllAuthored(cfg, es, Prepend(s, data, kind, flags))
  {
    hide Authored;
  }

  lemma ByeAuthored(cfg: Config, es: seq<Event>, s: State)
    requires AllAuthored(cfg, es, s)
    ensures AllAuthored(cfg, es, SendBye(cfg, s))
  {
    AppendAuthored(cfg, es, s, PacketOf(cfg, CmdExit([]), cfg.mainStale, []), BYE, FlagBye);
  }

  lemma ConfirmAuthored(cfg: Config, es: seq<Event>, s: State, d: Datagram, flags: Flag)
    requires AllAuthored(cfg, es, s)
    ensures AllAuthored(cfg, es, SendConfirm(s, d, flags))
  {
    AppendAuthored(cfg, es, s, UdpConfirm(d.id), CONF, flags);
  }

  lemma ErrorAndByeAuthored(cfg: Config, es: seq<Event>, s: State, stale: Id, text: seq<byte>)
    requires AllAuthored(cfg, es, s)
    ensures AllAuthored(cfg, es, SendErrorAndBye(cfg, s, stale, text))
  {
    hide PacketOf;
    if s.displayName.Some? {
      AppendAuthored(cfg, es, s, PacketOf(cfg, CmdErr(text), stale, s.displayName.value), CMD_ERR, FlagErr);
    }
    ByeAuthored(cfg, es, SendError(cfg, s, stale, text));
  }

  lemma ErrorAuthored(cfg: Config, es: seq<Event>, s: State, d: Datagram)
    requires AllAuthored(cfg, es, s)
    ensures AllAuthored(cfg, es, ReceiveError(cfg, s, d)) && AllAuthored(cfg, es, ReceiveUnknown(cfg, s, d))
  {
    hide Authored;
    hide SendBye;
    hide SendErrorAndBye;
    hide SendConfirm;
    var t, u := PopAll(s), PopAll(s.(fsm := Error));
    ConfirmAuthored(cfg, es, t, d, FlagConfirm);
    ConfirmAuthored(cfg, es, u, d, FlagConfirm);
    ByeAuthored(cfg, es, if cfg.proto == UDP then SendConfirm(t, d, FlagConfirm) else t);
    ErrorAndByeAuthored(cfg, es, if cfg.proto == UDP then SendConfirm(u, d, FlagConfirm) else u, d.id, UNKNOWN_FORMAT);
  }

  lemma ReplyAuthored(cfg: Config, es: seq<Event>, s: State, d: Datagram)
    requires AllAuthored(cfg, es, s)
    ensures AllAuthored(cfg, es, HandleReply(cfg, s, d))
  {
    hide Authored;
    hide SendConfirm;
    if s.fsm == WaitReply || s.fsm == JoinAttempt {
      if d.ok {
        var t := if s.fsm == WaitReply && s.queue != [] then SetFront(s, s.queue[0].(flags := FlagConfirmed)) else s;
        ConfirmAuthored(cfg, es, t.(fsm := WaitReplyConf), d, FlagConfirm);
      } else if s.queue != [] {
        var t := if s.queue[0].flags == FlagAuth
                 then SetFront(s, s.queue[0].(flags := FlagRejected)).(fsm := Start) else s;
        ConfirmAuthored(cfg, es, if t.fsm == JoinAttempt then t.(fsm := Open) else t, d, FlagNokReply);
      }
    }
  }

  lemma DispatchAuthored(cfg: Config, es: seq<Event>, s: State, d: Datagram, repetitive: bool)
    requires AllAuthored(cfg, es, s)
    ensures AllAuthored(cfg, es, Dispatch(cfg, s, d, repetitive))
  {
    hide Authored;
    hide SendConfirm;
    hide ReceiveError;
    hide ReceiveUnknown;
    hide HandleReply;
    ConfirmAuthored(cfg, es, s, d, FlagConfirm);
    ErrorAuthored(cfg, es, s, d);
    ReplyAuthored(cfg, es, s, d);
  }

  lemma ReceiveAuthored(cfg: Config, es: seq<Event>, s: State, d: Datagram)
    requires AllAuthored(cfg, es, s)
    ensures AllAuthored(cfg, es, ReceiveStep(cfg, s, d))
  {
    hide Authored;
    hide Dispatch;
    hide Repetitive;
    DispatchAuthored(cfg, es, s, d, Repetitive(cfg, s.seen, d));
    DispatchAuthored(cfg, es, s, d, false);
    DispatchAuthored(cfg, es, s.(seen := s.seen + {Seen(d.kind, d.id)}), d, false);
  }

  lemma TransmitAuthored(cfg: Config, es: seq<Event>, s: State)
    requires AllAuthored(cfg, es, s)
    ensures AllAuthored(cfg, es, Transmit(cfg, s))
  {
    hide Authored;
    hide Stamp;
    if s.queue != [] {
      if cfg.proto == UDP { AuthoredStamped(cfg, es, s.queue[0].kind, s.queue[0].data, s.counter); }
    }
  }

  lemma {:induction false} FilterAuthored(cfg: Config, es: seq<Event>, s: State)
    requires AllAuthored(cfg, es, s)
    ensures AllAuthored(cfg, es, Filter(cfg, s))
    decreases |s.queue|
  {
    hide Authored;
    hide SendErrorAndBye;
    if s.queue != [] {
      ErrorAndByeAuthored(cfg, es, PopAll(s).(fsm := Error), cfg.senderStale, TIMED_OUT);
      FilterAuthored(cfg, es, PopFront(s));
      FilterAuthored(cfg, es, PopFront(s.(fsm := End)));
    }
  }

  lemma SenderAuthored(cfg: Config, es: seq<Event>, s: State)
    requires AllAuthored(cfg, es, s)
    ensures AllAuthored(cfg, es, SenderStep(cfg, s))
  {
    hide Authored;
    hide Filter;
    hide SenderLogic;
    hide Transmit;
    FilterAuthored(cfg, es, s);
    TransmitAuthored(cfg, es, s);
    var f, p := LogicForm(cfg, s);
    TransmitAuthored(cfg, es, s.(fsm := f));
    if s.queue != [] { TransmitAuthored(cfg, es, PopFront(s)); }
  }

  /** A line's command, if it is queued at all, is queued as its own message. */
  lemma {:induction false} LineAuthored(cfg: Config, es: seq<Event>, line: seq<byte>)
    requires AllAuthored(cfg, es, After(cfg, es))
    ensures AllAuthored(cfg, es + [Line(line)], MainLine(cfg, After(cfg, es), line))
  {
    hide Step;
    hide PacketOf;
    hide Authored;
    hide Tokenizer.Parse;
    var s, more := After(cfg, es), es + [Line(line)];
    AllAuthoredMore(cfg, es, Line(line), s);
    if !s.fsm.Closing() && Tokenizer.Tokenizable(line) {
      var c := Tokenizer.Parse(line);
      if TcpKnown(c) && !(NeedsName(c) && s.displayName.None?) {
        var name := if s.displayName.Some? then s.displayName.value else [];
        CommandAuthored(cfg, es, line, name);
        if c.CmdAuth? {
          AppendAuthored(cfg, more, s.(fsm := AuthWaiting, displayName := Some(c.name)),
                         PacketOf(cfg, c, cfg.mainStale, c.name), AUTH, FlagAuth);
        } else {
          AppendAuthored(cfg, more, s, PacketOf(cfg, c, cfg.mainStale, name), KindOf(c), FlagNone);
        }
      }
    }
  }

  lemma {:induction false} CommandAuthored(cfg: Config, es: seq<Event>, line: seq<byte>, name: seq<byte>)
    requires Tokenizer.Tokenizable(line)
    requires var c, d := Tokenizer.Parse(line), After(cfg, es).displayName;
      TcpKnown(c) && !(NeedsName(c) && d.None?) && name == if d.Some? then d.value else []
    ensures var c := Tokenizer.Parse(line);
      && Authored(cfg, es + [Line(line)], KindOf(c), PacketOf(cfg, c, cfg.mainStale, name))
      && (c.CmdAuth? ==> Authored(cfg, es + [Line(line)], AUTH, PacketOf(cfg, c, cfg.mainStale, c.name)))
  {
    hide Tokenizer.Parse;
    hide After;
    var c, more, k := Tokenizer.Parse(line), es + [Line(line)], |es|;
    assert more[..k] == es && more[k] == Line(line);
    assert NameAt(cfg, more, k) == name;
    assert Is(cfg, more, k, KindOf(c), PacketOf(cfg, c, cfg.mainStale, name));
    assert c.CmdAuth? ==> PacketOf(cfg, c, cfg.mainStale, name) == PacketOf(cfg, c, cfg.mainStale, c.name);
  }

  /** Over every run, all that is queued or was transmitted for the user is what the user asked for. */
  lemma {:induction false} RunAuthored(cfg: Config, es: seq<Event>)
    ensures AllAuthored(cfg, es, After(cfg, es))
  {
    hide Authored;
    hide MainLine;
    hide ReceiveStep;
    hide SenderStep;
    hide SendBye;
    if es != [] {
      var before, e := es[..|es| - 1], es[|es| - 1];
      assert es == before + [e];
      var s := After(cfg, before);
      RunAuthored(cfg, before);
      AllAuthoredMore(cfg, before, e, s);
      match e {
        case Line(line) => LineAuthored(cfg, before, line);
        case Eof => ByeAuthored(cfg, es, s.(fsm := EmptyQueueBye));
        case Receive(d) => ReceiveAuthored(cfg, es, s, d);
        case Garbled =>
        case SenderTurn => SenderAuthored(cfg, es, s);
        case Sigint => ByeAuthored(cfg, es, PopAll(s.(fsm := SigintBye)));
      }
    }
  }

  // ---------------------------------------------------------------------------
  //  What the other side reads
  // ---------------------------------------------------------------------------

  /** A disassembled message with the words of command `c` and display name `name`. */
  predicate Carries(d: Decoded, c: Command, name: seq<byte>) {
    match c
    case CmdAuth(_, u, s, n) => d.kind == AUTH && d.zeroth == u && d.first == n && d.second == s
    case CmdJoin(_, ch) => d.kind == JOIN && d.zeroth == ch && d.first == name
    case CmdMsg(t) => d.kind == MSG && d.zeroth == name && d.first == t
    case CmdErr(t) => d.kind == ERR && d.zeroth == name && d.first == t
    case CmdExit(_) => d.kind == BYE
    case _ => false
  }

  /** What disassembling `data` in the format of the protocol yields. */
  ghost predicate ReadBack(cfg: Config, signedChar: bool, data: seq<byte>, c: Command, name: seq<byte>) {
    if cfg.proto == UDP then
      WholeDatagram(data) && UdpDecode(signedChar, data).Some? && Carries(UdpDecode(signedChar, data).value, c, name)
    else
      EndsInLineEnd(data) && Carries(TcpRead(data), c, name)
  }

  lemma WordsDelimit(w: seq<byte>, maxLen: nat, kind: WordKind)
    requires ValidWord(w, maxLen, kind)
    ensures w != [] && NulFree(w) && LineEndFree(w) && (kind != MessageContent ==> WordEndFree(w))
  {}

  lemma MessageReadAsDecoded(start: seq<byte>, name: seq<byte>, text: seq<byte>)
    requires start == MSG_FROM_TEXT || start == ERR_FROM_TEXT
    ensures EndsInLineEnd(TcpPair(start, name, text))
    ensures var p := TcpPair(start, name, text); TcpRead(p) == TcpDecode(p)
  {
    hide TcpDecode;
    ReadAsDecoded(TcpPair(start, name, text));
  }

  lemma CommandReadBack(cfg: Config, signedChar: bool, c: Command, id: Id, name: seq<byte>)
    requires TcpKnown(c) && ValidCommand(c) && (NeedsName(c) ==> ValidName(name))
    requires c.CmdErr? ==> c.text == TIMED_OUT || c.text == UNKNOWN_FORMAT
    ensures ReadBack(cfg, signedChar, PacketOf(cfg, c, id, name), c, name)
  {
    hide UdpDecode, TcpDecode, TcpRead, UdpPair, UdpAuth, TcpPair, TcpAuth, TcpJoin, WholeDatagram, ValidWord;
    hide NulFree, LineEndFree, WordEndFree;
    match c
    case CmdAuth(_, u, s, d) =>
      WordsDelimit(u, 20, Credential);
      WordsDelimit(s, 128, Credential);
      WordsDelimit(d, 20, DisplayName);
      UdpAuthRoundTrip(signedChar, id, u, d, s);
      TcpAuthRoundTrip(u, d, s);
    case CmdJoin(_, ch) =>
      WordsDelimit(ch, 20, Credential);
      WordsDelimit(name, 20, DisplayName);
      UdpPairRoundTrip(signedChar, JOIN, id, ch, name);
      TcpJoinRoundTrip(ch, name);
    case CmdMsg(t) =>
      WordsDelimit(t, 14000, MessageContent);
      TextReadBack(cfg, signedChar, c, id, name);
    case CmdErr(t) =>
      ErrorTextClean(t);
      TextReadBack(cfg, signedChar, c, id, name);
    case CmdExit(_) =>
      UdpHeaderRoundTrip(signedChar, id);
      TcpByeRoundTrip();
      ReadAsDecoded(TcpBye());
  }

  lemma ErrorTextClean(t: seq<byte>)
    requires t == TIMED_OUT || t == UNKNOWN_FORMAT
    ensures t != [] && NulFree(t) && LineEndFree(t)
  {}

  /** MSG and ERR: the display name and a text without zero bytes and line ends. */
  lemma TextReadBack(cfg: Config, signedChar: bool, c: Command, id: Id, name: seq<byte>)
    requires (c.CmdMsg? || c.CmdErr?) && ValidName(name)
    requires c.text != [] && NulFree(c.text) && LineEndFree(c.text)
    ensures ReadBack(cfg, signedChar, PacketOf(cfg, c, id, name), c, name)
  {
    hide UdpDecode, TcpDecode, TcpRead, UdpPair, TcpPair, WholeDatagram, ValidWord, NulFree, LineEndFree;
    var kind, start := KindOf(c), if c.CmdMsg? then MSG_FROM_TEXT else ERR_FROM_TEXT;
    WordsDelimit(name, 20, DisplayName);
    UdpPairRoundTrip(signedChar, kind, id, name, c.text);
    TcpPairRoundTrip(kind, name, c.text);
    MessageReadAsDecoded(start, name, c.text);
  }

  /**
   * Every AUTH, JOIN and MSG transmitted in any run comes from a line of that run, and reading it back
   * yields the words of the line and the display name that was set when the user entered it.
   */
  lemma TransmittedAsTyped(cfg: Config, signedChar: bool, es: seq<Event>, i: nat) returns (k: nat)
    requires i < |After(cfg, es).log.sent| && FromUser(After(cfg, es).log.sent[i].kind)
    ensures var out := After(cfg, es).log.sent[i];
      k < |es| && Asks(cfg, es, k, out.kind)
      && ReadBack(cfg, signedChar, out.data, Tokenizer.Parse(es[k].line), NameAt(cfg, es, k))
  {
    hide After;
    hide PacketOf;
    hide ReadBack;
    hide Tokenizer.Parse;
    var out := After(cfg, es).log.sent[i];
    RunAuthored(cfg, es);
    assert Authored(cfg, es, out.kind, out.data);
    var j :| 0 <= j < |es| && Is(cfg, es, j, out.kind, out.data);
    k := j;
    DisplayNameValid(cfg, es[..k]);
    var id :| out.data == PacketOf(cfg, Tokenizer.Parse(es[k].line), id, NameAt(cfg, es, k));
    CommandReadBack(cfg, signedChar, Tokenizer.Parse(es[k].line), id, NameAt(cfg, es, k));
  }
}
