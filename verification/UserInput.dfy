/** userInputToCmds on the input buffer, and the commands it recovers from what a user types. */
module UserInput {
  import opened Basics
  import opened Commands
  import opened Scanning
  import opened Buffers
  import opened Tokenizer
  import Disassembling
  import Decoding

  /** The input buffer after a line was loaded: the line, then a zero byte. */
  predicate Loaded(buffer: Buffer, line: seq<byte>)
    reads buffer, buffer.data
  {
    buffer.used == |line| < buffer.data.Length && buffer.data[..buffer.used] == line
    && buffer.data[buffer.used] == NUL
  }

  method SkipBlanks(s: array<byte>, used: nat, from: nat, len: nat) returns (r: int)
    requires from <= used < s.Length && s[used] == NUL
    ensures r == SkipBlankChars(s[..used + 1], from, len) && -1 <= r && from + r <= used
  {
    assert s[..][..used + 1] == s[..used + 1] && NotBlank(s[..used + 1][used]) && NotBlank(s[..][used]);
    r := SkipBlankCharsInString(s, from, len);
    Disassembling.ScanPrefix(NotBlank, s[..], used + 1, from, len);
  }

  method FindBlank(s: array<byte>, used: nat, from: nat, len: nat) returns (r: int)
    requires from <= used < s.Length && s[used] == NUL
    ensures r == FindBlankChar(s[..used + 1], from, len) && -1 <= r && from + r <= used
  {
    assert s[..][..used + 1] == s[..used + 1] && IsWordEnd(s[..used + 1][used]) && IsWordEnd(s[..][used]);
    r := FindBlankCharInString(s, from, len);
    Disassembling.ScanPrefix(IsWordEnd, s[..], used + 1, from, len + 1);
  }

  method FindLine(s: array<byte>, used: nat, from: nat, len: nat) returns (r: int)
    requires from <= used < s.Length && s[used] == NUL
    ensures r == FindNewLine(s[..used + 1], from, len) && -1 <= r && from + r <= used
  {
    assert s[..][..used + 1] == s[..used + 1] && IsLineEnd(s[..used + 1][used]) && IsLineEnd(s[..][used]);
    r := FindNewLineInString(s, from, len);
    Disassembling.ScanPrefix(IsLineEnd, s[..], used + 1, from, len + 1);
  }

  /** getWord. */
  method NextWord(s: array<byte>, used: nat, from: nat, size: int) returns (r: Option<Block>)
    requires from <= used < s.Length && s[used] == NUL
    requires size > 0 ==> from + SkipBlankChars(s[..used + 1], from, size) >= 0
    ensures r == GetWord(s[..used + 1], from, size)
    ensures r.Some? ==> r.value.start + r.value.len <= used && r.value.len > 0
  {
    hide SkipBlankChars;
    hide FindBlankChar;
    if size <= 0 {
      return None;
    }
    var index := SkipBlanks(s, used, from, size);
    var start := from + index;
    var len := FindBlank(s, used, start, size);
    r := if len > 0 then Some(Block(start, len)) else None;
  }

  /** The three words after "/auth". */
  method ThreeWords(s: array<byte>, used: nat, cmd: nat) returns (r: Option<(Block, Block, Block)>)
    requires cmd <= used < s.Length && s[used] == NUL
    requires used - cmd > 0 ==> cmd + SkipBlankChars(s[..used + 1], cmd, used - cmd) >= 0
    ensures r == AuthWords(s[..used + 1], cmd, used)
    ensures r.Some? ==> Inside(r.value.0, used) && Inside(r.value.1, used) && Inside(r.value.2, used)
  {
    hide SkipBlankChars;
    hide GetWord;
    var first := NextWord(s, used, cmd, used - cmd);
    if first.None? {
      return None;
    }
    var a := first.value;
    SkipsBackOne(s[..used + 1], a.start + a.len, used - (cmd + a.len));
    var second := NextWord(s, used, a.start + a.len, used - (cmd + a.len));
    if second.None? {
      return None;
    }
    var b := second.value;
    SkipsBackOne(s[..used + 1], b.start + b.len, used - (cmd + a.len + b.len));
    var third := NextWord(s, used, b.start + b.len, used - (cmd + a.len + b.len));
    r := if third.Some? then Some((a, b, third.value)) else None;
  }

  predicate Inside(b: Block, used: nat) { b.start + b.len <= used }

  method AuthCommand(s: array<byte>, used: nat, cmd: nat) returns (c: Command)
    requires cmd <= used < s.Length && s[used] == NUL
    requires used - cmd > 0 ==> cmd + SkipBlankChars(s[..used + 1], cmd, used - cmd) >= 0
    ensures c == ParseAuth(s[..used + 1], cmd, used)
  {
    hide SkipBlankChars;
    hide AuthWords;
    hide ValidWord;
    var words := ThreeWords(s, used, cmd);
    if words.None? {
      return CmdMissing;
    }
    var (a, b, d) := words.value;
    var user := TakeBlock(s, used, a);
    var secret := TakeBlock(s, used, b);
    var name := TakeBlock(s, used, d);
    var word := TakeBlock(s, used, Block(0, cmd));
    c := CheckAuth(word, user, secret, name);
  }

  method TakeBlock(s: array<byte>, used: nat, b: Block) returns (part: seq<byte>)
    requires used < s.Length && Inside(b, used)
    ensures part == BlockBytes(s[..used + 1], b)
  {
    Disassembling.SamePart(s, used + 1, b.start, b.len);
    part := s[b.start..b.start + b.len];
  }

  lemma SkipsBackOne(s: seq<byte>, from: nat, size: int)
    requires from > 0
    ensures size > 0 ==> from + SkipBlankChars(s, from, size) >= 0
  {}

  /** The checks on the three words, in the order of the source. */
  method CheckAuth(word: seq<byte>, user: seq<byte>, secret: seq<byte>, name: seq<byte>) returns (c: Command)
    ensures c == if ValidWord(user, 20, Credential) && ValidWord(secret, 128, Credential) && ValidName(name)
                 then CmdAuth(word, user, secret, name) else CmdNone
  {
    var ok := ControlWord(user, 20, Credential);
    if !ok {
      return CmdNone;
    }
    ok := ControlWord(secret, 128, Credential);
    if !ok {
      return CmdNone;
    }
    ok := ControlWord(name, 20, DisplayName);
    c := if ok then CmdAuth(word, user, secret, name) else CmdNone;
  }

  method ArgumentCommand(s: array<byte>, used: nat, cmd: nat) returns (c: Command)
    requires 0 < cmd <= used < s.Length && s[used] == NUL
    ensures c == ParseArgument(s[..used + 1], cmd, used)
  {
    hide SkipBlankChars;
    hide FindNewLine;
    hide ValidWord;
    var index := SkipBlanks(s, used, cmd, used - cmd);
    var start := cmd + index;
    var error := FindLine(s, used, start, used - cmd);
    if error == -1 {
      return CmdMissing;
    }
    var word := TakeBlock(s, used, Block(0, cmd));
    var argument := TakeBlock(s, used, Block(start, error));
    if word <= JOIN_CMD {
      var ok := ControlWord(argument, 20, Credential);
      c := if ok then CmdJoin(word, argument) else CmdNone;
    } else {
      var ok := ControlWord(argument, 20, DisplayName);
      c := if ok then CmdRename(argument) else CmdNone;
    }
  }

  /** userInputToCmds. The comparison with a command's name stops at the length of the typed word. */
  method UserInputToCmds(buffer: Buffer, ghost line: seq<byte>) returns (c: Command)
    requires Loaded(buffer, line) && Tokenizable(line)
    ensures c == Parse(line)
  {
    hide ParseAuth;
    hide ParseArgument;
    var s, used := buffer.data, buffer.used;
    assert s[..used + 1] == line + [NUL];
    if used == 0 {
      return CmdNone;
    }
    var cmd := FindBlank(s, used, 0, used);
    assert IsWordEnd((line + [NUL])[used]);
    var word := s[..cmd];
    assert word == (line + [NUL])[..cmd];
    if word <= AUTH_CMD {
      FirstWordExists(line);
      c := AuthCommand(s, used, cmd);
    } else if word <= JOIN_CMD || word <= RENAME_CMD {
      c := ArgumentCommand(s, used, cmd);
    } else if word <= HELP_CMD {
      c := CmdHelp;
    } else if word <= EXIT_CMD {
      c := CmdExit(word);
    } else {
      var ok := ControlWord(s[..used], 14000, MessageContent);
      c := if ok then CmdMsg(s[..used]) else CmdNone;
    }
  }

  // ---------------------------------------------------------------------------
  //  The tokenizer undoes what a user types
  // ---------------------------------------------------------------------------

  predicate Blanks(b: seq<byte>) { b != [] && forall i :: 0 <= i < |b| ==> IsBlank(b[i]) }

  predicate PlacedAt(data: seq<byte>, at: nat, part: seq<byte>) {
    at + |part| <= |data| && data[at..at + |part|] == part
  }

  /** A word between blanks is found by getWord, whatever bound it is given beyond them. */
  lemma WordFound(data: seq<byte>, at: nat, blanks: seq<byte>, word: seq<byte>, size: int)
    requires PlacedAt(data, at, blanks) && Blanks(blanks)
    requires PlacedAt(data, at + |blanks|, word) && word != [] && Decoding.WordEndFree(word)
    requires at + |blanks| + |word| < |data| && IsWordEnd(data[at + |blanks| + |word|])
    requires size > |blanks| && size >= |word|
    ensures SkipBlankChars(data, at, size) == |blanks|
    ensures GetWord(data, at, size) == Some(Block(at + |blanks|, |word|))
  {
    var start := at + |blanks|;
    assert forall k :: at <= k < start ==> data[k] == data[at..start][k - at];
    assert forall k :: start <= k < start + |word| ==> data[k] == data[start..start + |word|][k - start];
    assert NotBlank(data[start]) by { assert !IsWordEnd(word[0]); }
    ScanHit(NotBlank, data, at, size, |blanks|);
    ScanHit(IsWordEnd, data, start, size + 1, |word|);
  }

  lemma ValidWordClean(w: seq<byte>, maxLen: nat, kind: WordKind)
    requires ValidWord(w, maxLen, kind) && kind != MessageContent
    ensures w != [] && Decoding.WordEndFree(w)
  {}

  lemma AuthParsedAt(data: seq<byte>, used: nat, cmd: nat, b1: seq<byte>, u: seq<byte>, b2: seq<byte>, s: seq<byte>,
                     b3: seq<byte>, d: seq<byte>, rest: seq<byte>)
    requires Blanks(b1) && Blanks(b2) && Blanks(b3) && rest != [] && IsWordEnd(rest[0])
    requires u != [] && Decoding.WordEndFree(u) && s != [] && Decoding.WordEndFree(s)
    requires d != [] && Decoding.WordEndFree(d)
    requires ValidWord(u, 20, Credential) && ValidWord(s, 128, Credential) && ValidName(d)
    requires var p1 := cmd + |b1|; var q1 := p1 + |u|; var p2 := q1 + |b2|; var q2 := p2 + |s|; var p3 := q2 + |b3|;
      && used >= p3 + |d| && cmd <= |data|
      && PlacedAt(data, cmd, b1) && PlacedAt(data, p1, u) && PlacedAt(data, q1, b2)
      && PlacedAt(data, p2, s) && PlacedAt(data, q2, b3) && PlacedAt(data, p3, d) && PlacedAt(data, p3 + |d|, rest)
    ensures cmd + SkipBlankChars(data, cmd, used - cmd) >= 0
    ensures ParseAuth(data, cmd, used) == CmdAuth(data[..cmd], u, s, d)
  {
    hide GetWord;
    hide SkipBlankChars;
    hide ParseAuth;
    hide ValidWord;
    hide PlacedAt;
    hide Decoding.WordEndFree;
    var p1 := cmd + |b1|;
    var p2 := p1 + |u| + |b2|;
    var p3 := p2 + |s| + |b3|;
    EndsWord(data, p1 + |u|, b2);
    EndsWord(data, p2 + |s|, b3);
    EndsWord(data, p3 + |d|, rest);
    WordFound(data, cmd, b1, u, used - cmd);
    WordFound(data, p1 + |u|, b2, s, used - (cmd + |u|));
    WordFound(data, p2 + |s|, b3, d, used - (cmd + |u| + |s|));
    AuthWordsAre(data, used, cmd, b1, u, b2, s, b3, d);
  }

  lemma EndsWord(data: seq<byte>, at: nat, part: seq<byte>)
    requires PlacedAt(data, at, part) && part != [] && IsWordEnd(part[0])
    ensures at < |data| && IsWordEnd(data[at])
  {
    assert data[at] == data[at..at + |part|][0];
  }

  lemma AuthWordsAre(data: seq<byte>, used: nat, cmd: nat, b1: seq<byte>, u: seq<byte>, b2: seq<byte>, s: seq<byte>,
                     b3: seq<byte>, d: seq<byte>)
    requires cmd <= |data| && used > cmd
    requires cmd + SkipBlankChars(data, cmd, used - cmd) >= 0
    requires ValidWord(u, 20, Credential) && ValidWord(s, 128, Credential) && ValidName(d)
    requires var p1 := cmd + |b1|; var p2 := p1 + |u| + |b2|; var p3 := p2 + |s| + |b3|;
      && GetWord(data, cmd, used - cmd) == Some(Block(p1, |u|)) && PlacedAt(data, p1, u)
      && GetWord(data, p1 + |u|, used - (cmd + |u|)) == Some(Block(p2, |s|)) && PlacedAt(data, p2, s)
      && GetWord(data, p2 + |s|, used - (cmd + |u| + |s|)) == Some(Block(p3, |d|)) && PlacedAt(data, p3, d)
    ensures ParseAuth(data, cmd, used) == CmdAuth(data[..cmd], u, s, d)
  {
    hide GetWord;
    hide SkipBlankChars;
  }

  lemma ArgumentFound(data: seq<byte>, cmd: nat, used: nat, b: seq<byte>, w: seq<byte>)
    requires 0 < cmd && cmd + |b| + |w| <= used && |data| == used + 1 && IsLineEnd(data[cmd + |b| + |w|])
    requires Blanks(b) && w != [] && Decoding.WordEndFree(w)
    requires PlacedAt(data, cmd, b) && PlacedAt(data, cmd + |b|, w)
    ensures LineArgument(data, cmd, used) == Some(Block(cmd + |b|, |w|))
  {
    var start := cmd + |b|;
    assert forall k :: cmd <= k < start ==> data[k] == data[cmd..start][k - cmd];
    assert forall k :: start <= k < start + |w| ==> data[k] == data[start..start + |w|][k - start];
    assert NotBlank(data[start]) by { assert !IsWordEnd(w[0]); }
    ScanHit(NotBlank, data, cmd, used - cmd, |b|);
    ScanHit(IsLineEnd, data, start, used - cmd + 1, |w|);
  }

  predicate StartsCommand(word: seq<byte>) {
    word <= AUTH_CMD || word <= JOIN_CMD || word <= RENAME_CMD || word <= HELP_CMD || word <= EXIT_CMD
  }

  /** A message line is recognised as itself exactly when it is valid and its first word starts no command. */
  lemma MessageRecognised(line: seq<byte>)
    requires line != [] && Tokenizable(line)
    ensures var cmd := FindBlankChar(line + [NUL], 0, |line|);
      0 <= cmd <= |line| && (Parse(line) == CmdMsg(line) <==> ValidText(line) && !StartsCommand(line[..cmd]))
  {
    hide ParseAuth;
    hide ParseArgument;
    var data := line + [NUL];
    assert IsWordEnd(data[|line|]);
    var cmd := FindBlankChar(data, 0, |line|);
    var word := data[..cmd];
    assert word == line[..cmd];
    if word <= AUTH_CMD {
      FirstWordExists(line);
      NotMessage(data, cmd, |line|);
    } else if word <= JOIN_CMD || word <= RENAME_CMD {
      NotMessageArgument(data, cmd, |line|);
    }
  }

  lemma NotMessage(data: seq<byte>, cmd: nat, used: nat)
    requires cmd <= |data| && (used - cmd > 0 ==> cmd + SkipBlankChars(data, cmd, used - cmd) >= 0)
    ensures !ParseAuth(data, cmd, used).CmdMsg?
  {
    hide AuthWords;
  }

  lemma NotMessageArgument(data: seq<byte>, cmd: nat, used: nat)
    requires 0 < cmd <= used < |data|
    ensures !ParseArgument(data, cmd, used).CmdMsg?
  {
    hide LineArgument;
  }
}
