/** What each line of input does to the client, exactly, and what the server will read. */
module UserSteps {
  import opened Basics
  import opened Commands
  import opened Formats
  import opened ChatProtocol
  import opened EndToEnd
  import opened Recognition
  import Tokenizer

  /** One message more at the end of the queue, not sent yet; any server reads it as command `c`. */
  ghost predicate Queues(cfg: Config, s: State, t: State, c: Command, flags: Flag, name: seq<byte>)
    requires UdpKnown(c)
  {
    && |t.queue| == |s.queue| + 1 && t.queue[..|s.queue|] == s.queue && t.log == s.log.(next := s.log.next + 1)
    && var m := t.queue[|s.queue|];
    && m.serial == s.log.next && m.kind == KindOf(c) && m.flags == flags && m.sendCount == 0 && !m.confirmed
    && forall signedChar: bool :: ReadBack(cfg, signedChar, m.data, c, name)
  }

  /** The states in which the client reads its input. */
  predicate Reads(f: Fsm) { f in {Start, AuthWaiting, AuthSent, WaitReply, WaitReplyConf, Open, JoinAttempt} }

  /** What filterCommandsByFSM and the assemblers let through. */
  predicate Accepted(s: State, c: Command) {
    Reads(s.fsm) &&
    match c
    case CmdAuth(_, _, _, _) => s.fsm == Start
    case CmdJoin(_, _) => s.fsm == Open && s.displayName.Some?
    case CmdMsg(_) => s.fsm == Open && s.displayName.Some?
    case CmdExit(_) => true
    case _ => false
  }

  /** /auth sets the display name in every state before closing, /rename only in an open client. */
  function NameAfter(s: State, c: Command): Option<seq<byte>> {
    if c.CmdAuth? && Reads(s.fsm) then Some(c.name)
    else if c.CmdRename? && s.fsm == Open then Some(c.name)
    else s.displayName
  }

  predicate NameOk(s: State) { s.displayName.Some? ==> ValidName(s.displayName.value) }

  /** The parts of the state that the user's thread does not touch. */
  predicate UserKeeps(s: State, t: State) {
    t.pc == s.pc && t.counter == s.counter && t.seen == s.seen && !t.halted
  }

  /** The whole effect of a line, in every state. */
  lemma LineExactly(cfg: Config, s: State, line: seq<byte>)
    requires !s.halted && Tokenizer.Tokenizable(line) && NameOk(s)
    ensures var c, t := Tokenizer.Parse(line), Step(cfg, s, Line(line));
      && UserKeeps(s, t) && t.displayName == NameAfter(s, c)
      && if Accepted(s, c)
         then
           && Queues(cfg, s, t, c, if c.CmdAuth? then FlagAuth else FlagNone,
                     if NeedsName(c) then s.displayName.value else [])
           && t.fsm == (if c.CmdAuth? then AuthWaiting else if c.CmdExit? then EmptyQueueBye else s.fsm)
         else t.queue == s.queue && t.log == s.log && t.fsm == s.fsm
  {
    hide Tokenizer.Parse, PacketOf, ReadBack, ValidWord;
    var c := Tokenizer.Parse(line);
    if Accepted(s, c) {
      var name := if s.displayName.Some? then s.displayName.value else [];
      NewMessage(cfg, s, c, if c.CmdAuth? then FlagAuth else FlagNone, name);
      if c.CmdAuth? { NewMessage(cfg, s, c, FlagAuth, c.name); }
    }
  }

  /** The name is not part of the messages that have words of their own. */
  lemma SameWords(cfg: Config, c: Command, name: seq<byte>)
    requires TcpKnown(c) && !NeedsName(c)
    ensures PacketOf(cfg, c, cfg.mainStale, name) == PacketOf(cfg, c, cfg.mainStale, [])
  {}

  lemma NewMessage(cfg: Config, s: State, c: Command, flags: Flag, name: seq<byte>)
    requires TcpKnown(c) && ValidCommand(c) && !c.CmdErr? && (NeedsName(c) ==> ValidName(name))
    ensures var t := Append(s, PacketOf(cfg, c, cfg.mainStale, name), KindOf(c), flags);
      Queues(cfg, s, t, c, flags, if NeedsName(c) then name else [])
  {
    hide ReadBack, PacketOf;
    var read := if NeedsName(c) then name else [];
    if !NeedsName(c) { SameWords(cfg, c, name); }
    forall signedChar: bool ensures ReadBack(cfg, signedChar, PacketOf(cfg, c, cfg.mainStale, read), c, read) {
      CommandReadBack(cfg, signedChar, c, cfg.mainStale, read);
    }
  }

  /** /exit, or a beginning of it: one BYE, and the client ends when its queue is empty. */
  lemma ExitTyped(cfg: Config, s: State, word: seq<byte>)
    requires !s.halted && Reads(s.fsm) && NameOk(s) && Abbreviates(word, Tokenizer.EXIT_CMD)
    ensures var t := Step(cfg, s, Line(word));
      && UserKeeps(s, t) && t.displayName == s.displayName && t.fsm == EmptyQueueBye
      && Queues(cfg, s, t, CmdExit(word), FlagNone, [])
  {
    hide Step, Queues;
    WordRecognised(word);
    LineExactly(cfg, s, word);
  }

  /** /help, or a beginning of it, changes nothing. */
  lemma HelpTyped(cfg: Config, s: State, word: seq<byte>)
    requires Abbreviates(word, Tokenizer.HELP_CMD)
    ensures Step(cfg, s, Line(word)) == s
  {
    hide Tokenizer.Parse;
    WordRecognised(word);
    FirstBytes(word);
  }

  /** The end of input: one BYE that the sender may wait for, unless the client closes already. */
  lemma EofExactly(cfg: Config, s: State)
    requires !s.halted
    ensures var t := Step(cfg, s, Eof);
      if !Reads(s.fsm) then t == s
      else
        && UserKeeps(s, t) && t.displayName == s.displayName && t.fsm == EmptyQueueBye
        && Queues(cfg, s, t, CmdExit([]), FlagBye, [])
  {
    hide ReadBack, PacketOf;
    NewMessage(cfg, s, CmdExit([]), FlagBye, []);
  }

  /** SIGINT: the BYE is the only message left. */
  lemma SigintExactly(cfg: Config, s: State)
    requires !s.halted
    ensures var t := Step(cfg, s, Sigint);
      && UserKeeps(s, t) && t.displayName == s.displayName && t.fsm == SigintBye
      && Queues(cfg, PopAll(s), t, CmdExit([]), FlagBye, [])
  {
    hide ReadBack, PacketOf;
    NewMessage(cfg, PopAll(s), CmdExit([]), FlagBye, []);
  }
}
