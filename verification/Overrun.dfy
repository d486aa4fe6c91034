/** A session in which an assembled JOIN does not fit the bytes that were allocated for it. */
module Overrun {
  import opened Basics
  import opened Commands
  import opened Formats
  import opened ChatProtocol
  import opened Assembling
  import opened Crashes
  import opened LostBye
  import opened Sessions
  import Scanning
  import Tokenizer
  import Recognition

  function Reserved(cfg: Config, c: Command, name: nat): nat {
    if cfg.proto == UDP then UdpReserved(c, name, StoredChannel(c)) else TcpReserved(c, name, StoredChannel(c))
  }

  /** What an event may reserve in main's buffer: the command of a line, or a BYE for any other event. */
  function EventBytes(cfg: Config, s: State, e: Event): nat {
    if !e.Line? then Reserved(cfg, CmdExit([]), 0)
    else if !Tokenizer.Tokenizable(e.line) then 0
    else Reserved(cfg, Tokenizer.Parse(e.line), |NameOr(s.displayName)|)
  }

  /** The bytes main's buffer can have at most after a run; it starts with none and never shrinks. */
  function MainBytes(cfg: Config, es: seq<Event>): nat {
    if es == [] then 0
    else
      var before := es[..|es| - 1];
      Grown(MainBytes(cfg, before), EventBytes(cfg, After(cfg, before), es[|es| - 1]))
  }

  lemma {:induction false} MainBytesMore(cfg: Config, es: seq<Event>, e: Event)
    ensures MainBytes(cfg, es + [e]) == Grown(MainBytes(cfg, es), EventBytes(cfg, After(cfg, es), e))
  {
    hide EventBytes, After;
    assert (es + [e])[..|es|] == es;
  }

  /** A run with one line of input reserves for that line, and for a BYE. */
  lemma {:induction false} OneLineBytes(cfg: Config, es: seq<Event>, line: seq<byte>)
    requires StartsWith(es, line)
    ensures MainBytes(cfg, es)
      == if |es| == 1 then EventBytes(cfg, Init(), Line(line))
         else Grown(EventBytes(cfg, Init(), Line(line)), Reserved(cfg, CmdExit([]), 0))
  {
    hide Step, Reserved, Tokenizer.Parse;
    var before := es[..|es| - 1];
    if |es| == 1 {
      assert before == [];
    } else {
      OneLineBytes(cfg, before, line);
    }
  }

  lemma LoginBytes(cfg: Config, user: seq<byte>, secret: seq<byte>, name: seq<byte>)
    requires cfg.proto == UDP && Login(user, secret, name)
    ensures EventBytes(cfg, Init(), Line(LoginLine(user, secret, name))) == 15 + |user| + |secret| + |name|
  {
    hide Tokenizer.Parse, ValidWord;
    Recognition.AuthRecognised([Scanning.SPACE], user, [Scanning.SPACE], secret, [Scanning.SPACE], name, []);
  }

  function RenameLine(name: seq<byte>): seq<byte> { Tokenizer.RENAME_CMD + [Scanning.SPACE] + name }

  lemma Renamed(cfg: Config, s: State, name: seq<byte>)
    requires cfg.proto == UDP && Idle(s) && ValidName(name)
    ensures Step(cfg, s, Line(RenameLine(name))) == s.(displayName := Some(name))
    ensures EventBytes(cfg, s, Line(RenameLine(name))) == 10
  {
    hide Tokenizer.Parse, ValidWord;
    Recognition.ArgumentRecognised([Scanning.SPACE], name);
  }

  lemma Joined(cfg: Config, s: State, name: seq<byte>, channel: seq<byte>)
    requires cfg.proto == UDP && Idle(s) && s.displayName == Some(name) && ValidWord(channel, 20, Credential)
    ensures var t := Step(cfg, s, Line(JoinLine(channel)));
      |t.queue| == 1 && t.queue[0].kind == JOIN && t.queue[0].data == UdpPair(JOIN, cfg.mainStale, channel, name)
    ensures EventBytes(cfg, s, Line(JoinLine(channel))) == 15 + 2 * |channel|
  {
    hide Tokenizer.Parse, ValidWord;
    Recognition.ArgumentRecognised([Scanning.SPACE], channel);
  }

  /**
   * /auth, /rename and /join over UDP, from the start of the program: the JOIN is longer than all the bytes
   * main's buffer has by then if and only if the new display name is long enough, for example 20 characters
   * with all other words of one character.
   */
  lemma JoinOverrunRun(cfg: Config, user: seq<byte>, secret: seq<byte>, first: seq<byte>, id: Id,
                       name: seq<byte>, channel: seq<byte>) returns (es: seq<Event>)
    requires cfg.proto == UDP && cfg.maxRetries > 0 && Login(user, secret, first)
    requires ValidName(name) && ValidWord(channel, 20, Credential)
    ensures |es| > 2 && es[0] == Line(LoginLine(user, secret, first))
    ensures es[|es| - 2..] == [Line(RenameLine(name)), Line(JoinLine(channel))]
    ensures forall k :: 0 < k < |es| - 2 ==> !es[k].Line?
    ensures var s := After(cfg, es);
      && s.queue != [] && s.queue[0].kind == JOIN
      && (|s.queue[0].data| > MainBytes(cfg, es)
          <==> |name| > |channel| + 10 && |name| + |channel| > |user| + |secret| + |first| + 10)
  {
    hide Step, Login, MsgId, ValidWord, EventBytes;
    var login := IdleRun(cfg, user, secret, first, id);
    var s := After(cfg, login);
    var rename, join := Line(RenameLine(name)), Line(JoinLine(channel));
    Renamed(cfg, s, name);
    AfterMore(cfg, login, rename);
    var t := After(cfg, login + [rename]);
    Joined(cfg, t, name, channel);
    AfterMore(cfg, login + [rename], join);
    es := login + [rename] + [join];
    OneLineBytes(cfg, login, LoginLine(user, secret, first));
    LoginBytes(cfg, user, secret, first);
    MainBytesMore(cfg, login, rename);
    MainBytesMore(cfg, login + [rename], join);
  }
}
