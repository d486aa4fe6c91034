/** A whole session over TCP: login, an answer, a message each way, and /exit. */
module TcpSessions {
  import opened Basics
  import opened Commands
  import opened Formats
  import opened ChatProtocol
  import opened Decoding
  import opened EndToEnd
  import opened UserSteps
  import opened ServerSteps
  import opened Runs
  import MessageIds
  import Recognition
  import Sessions
  import Tokenizer

  /** Two turns of the sender transmit the only queued message as it is, and the queue is empty again. */
  lemma SendsOnly(cfg: Config, s: State)
    requires cfg.proto == TCP && !s.halted && s.pc == Top && s.fsm != End && |s.queue| == 1
    requires s.fsm in {AuthWaiting, Open, EmptyQueueBye} && s.queue[0].kind != JOIN && !s.queue[0].confirmed
    requires (s.fsm == AuthWaiting) == (s.queue[0].kind == AUTH) == (s.queue[0].flags == FlagAuth)
    ensures Step(cfg, Step(cfg, s, SenderTurn), SenderTurn) ==
      s.(fsm := if s.fsm == AuthWaiting then AuthSent else s.fsm, queue := [],
         counter := MessageIds.Following(s.counter), log := s.log.(sent := s.log.sent + s.queue))
  {
    assert Step(cfg, s, SenderTurn) == s.(pc := Logic);
    assert s.queue[1..] == [] && s.queue == [s.queue[0]];
  }

  /** Message `m` was transmitted, and any server reads it as command `c`. */
  ghost predicate Read(cfg: Config, m: Msg, c: Command, name: seq<byte>) {
    forall signedChar: bool :: ReadBack(cfg, signedChar, m.data, c, name)
  }

  /** Connected with nothing to send; `k` messages were transmitted. */
  predicate Connected(s: State, name: seq<byte>, k: nat) {
    !s.halted && s.pc == Top && s.queue == [] && s.displayName == Some(name) && |s.log.sent| == k
  }

  lemma LogsIn(cfg: Config, user: seq<byte>, secret: seq<byte>, name: seq<byte>)
    requires cfg.proto == TCP && Sessions.Login(user, secret, name)
    ensures var s := Step(cfg, Init(), Line(Sessions.LoginLine(user, secret, name)));
      var t := Step(cfg, Step(cfg, s, SenderTurn), SenderTurn);
      && Connected(t, name, 1) && t.fsm == AuthSent && t.log.printed == []
      && Read(cfg, t.log.sent[0], CmdAuth(Tokenizer.AUTH_CMD, user, secret, name), [])
  {
    hide Step, ReadBack, ValidWord, Tokenizer.Parse;
    var line := Sessions.LoginLine(user, secret, name);
    Recognition.AuthRecognised([32], user, [32], secret, [32], name, []);
    LineExactly(cfg, Init(), line);
    var s := Step(cfg, Init(), Line(line));
    SendsOnly(cfg, s);
  }

  /** A line that is accepted in an open client goes out as it was typed. */
  lemma Says(cfg: Config, s: State, name: seq<byte>, k: nat, line: seq<byte>, c: Command)
    requires cfg.proto == TCP && Connected(s, name, k) && s.fsm == Open && ValidName(name)
    requires Tokenizer.Tokenizable(line) && Tokenizer.Parse(line) == c && (c.CmdMsg? || c.CmdExit?)
    ensures var t := Step(cfg, Step(cfg, Step(cfg, s, Line(line)), SenderTurn), SenderTurn);
      && Connected(t, name, k + 1) && t.fsm == (if c.CmdExit? then EmptyQueueBye else Open)
      && t.log.sent[..k] == s.log.sent && t.log.printed == s.log.printed
      && Read(cfg, t.log.sent[k], c, if c.CmdMsg? then name else [])
  {
    hide Step, ReadBack, ValidWord, Tokenizer.Parse;
    LineExactly(cfg, s, line);
    SendsOnly(cfg, Step(cfg, s, Line(line)));
  }

  lemma Hears(cfg: Config, s: State, name: seq<byte>, k: nat, from: seq<byte>, text: seq<byte>)
    requires cfg.proto == TCP && Connected(s, name, k) && s.fsm == Open
    requires WordEndFree(from) && LineEndFree(text)
    ensures EndsInLineEnd(TcpPair(MSG_FROM_TEXT, from, text))
    ensures Step(cfg, s, LineEvent(TcpPair(MSG_FROM_TEXT, from, text))) ==
      s.(log := s.log.(printed := s.log.printed + [Seen(MSG, Id(0, 0))]))
  {
    hide TcpDecode, EndsInLineEnd;
    TcpEvents(from, text, true);
  }

  lemma Leaves(cfg: Config, s: State, name: seq<byte>, k: nat)
    requires cfg.proto == TCP && Connected(s, name, k) && s.fsm == EmptyQueueBye
    ensures Step(cfg, Step(cfg, s, SenderTurn), SenderTurn) == s.(fsm := End, pc := Gone)
  {}

  /**
   * From the start of the program to its end: the three messages go out as typed, the message of the server is
   * shown, and the sender thread leaves its loop in END.
   */
  lemma ChatRun(cfg: Config, user: seq<byte>, secret: seq<byte>, name: seq<byte>, ok: seq<byte>,
                line: seq<byte>, from: seq<byte>, text: seq<byte>) returns (es: seq<Event>)
    requires cfg.proto == TCP && Sessions.Login(user, secret, name) && Sessions.IsMessage(line)
    requires LineEndFree(ok) && WordEndFree(from) && LineEndFree(text)
    ensures EndsInLineEnd(TcpReply(true, ok)) && EndsInLineEnd(TcpPair(MSG_FROM_TEXT, from, text))
    ensures es == [Line(Sessions.LoginLine(user, secret, name)), SenderTurn, SenderTurn, LineEvent(TcpReply(true, ok))]
      + [Line(line), SenderTurn, SenderTurn, LineEvent(TcpPair(MSG_FROM_TEXT, from, text))]
      + [Line(Tokenizer.EXIT_CMD), SenderTurn, SenderTurn] + [SenderTurn, SenderTurn]
    ensures var s := After(cfg, es);
      && s.fsm == End && s.pc == Gone && Connected(s.(pc := Top), name, 3) && s.log.printed == [Seen(MSG, Id(0, 0))]
      && Read(cfg, s.log.sent[0], CmdAuth(Tokenizer.AUTH_CMD, user, secret, name), [])
      && Read(cfg, s.log.sent[1], CmdMsg(line), name)
      && Read(cfg, s.log.sent[2], CmdExit(Tokenizer.EXIT_CMD), [])
  {
    hide Step, Read, Tokenizer.Parse, LineEvent, ValidWord, EndsInLineEnd, TcpReply, TcpPair, Sessions.LoginLine;
    LogsIn(cfg, user, secret, name);
    var a := [Line(Sessions.LoginLine(user, secret, name)), SenderTurn, SenderTurn];
    Three(cfg, Init(), a[0], a[1], a[2]);
    var s1 := Steps(cfg, Init(), a);
    TcpReplyArrives(cfg, s1, true, ok);
    OneMore(cfg, Init(), a, LineEvent(TcpReply(true, ok)));
    var s2 := Step(cfg, s1, LineEvent(TcpReply(true, ok)));
    assert ValidName(name);
    Says(cfg, s2, name, 1, line, CmdMsg(line));
    var b := [Line(line), SenderTurn, SenderTurn];
    Three(cfg, s2, b[0], b[1], b[2]);
    var s3 := Steps(cfg, s2, b);
    Hears(cfg, s3, name, 2, from, text);
    OneMore(cfg, s2, b, LineEvent(TcpPair(MSG_FROM_TEXT, from, text)));
    var s4 := Step(cfg, s3, LineEvent(TcpPair(MSG_FROM_TEXT, from, text)));
    Recognition.WordRecognised(Tokenizer.EXIT_CMD);
    Says(cfg, s4, name, 2, Tokenizer.EXIT_CMD, CmdExit(Tokenizer.EXIT_CMD));
    var c := [Line(Tokenizer.EXIT_CMD), SenderTurn, SenderTurn];
    Three(cfg, s4, c[0], c[1], c[2]);
    var s5 := Steps(cfg, s4, c);
    Leaves(cfg, s5, name, 3);
    Two(cfg, s5, SenderTurn, SenderTurn);
    var a4, b4 := a + [LineEvent(TcpReply(true, ok))], b + [LineEvent(TcpPair(MSG_FROM_TEXT, from, text))];
    StepsJoin(cfg, Init(), a4, b4);
    StepsJoin(cfg, Init(), a4 + b4, c);
    StepsJoin(cfg, Init(), a4 + b4 + c, [SenderTurn, SenderTurn]);
    es := a4 + b4 + c + [SenderTurn, SenderTurn];
    AfterSteps(cfg, es);
    assert s5.log.sent[0] == s1.log.sent[0] && s5.log.sent[1] == s3.log.sent[1];
  }
}
