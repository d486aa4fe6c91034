/** Exactly which lines the tokenizer takes for which command. */
module Recognition {
  import opened Basics
  import opened Commands
  import opened Scanning
  import opened Tokenizer
  import opened UserInput
  import Decoding

  /** The first word of a line, up to a blank or the end of the line. */
  function FirstWord(line: seq<byte>): (w: seq<byte>)
    ensures w <= line && FindBlankChar(line + [NUL], 0, |line|) == |w|
  {
    assert IsWordEnd((line + [NUL])[|line|]);
    line[..FindBlankChar(line + [NUL], 0, |line|)]
  }

  /** A typed word stands for a command if it is a beginning of its name, and not only the slash. */
  predicate Abbreviates(word: seq<byte>, name: seq<byte>) { |word| >= 2 && word <= name }

  /** Exactly: the first word decides on /exit and /help, and what the other commands may come from. */
  lemma FirstWordSelects(line: seq<byte>)
    requires Tokenizable(line)
    ensures Parse(line).CmdExit? <==> Abbreviates(FirstWord(line), EXIT_CMD)
    ensures Parse(line).CmdHelp? <==> Abbreviates(FirstWord(line), HELP_CMD)
    ensures Parse(line).CmdAuth? ==> FirstWord(line) <= AUTH_CMD
    ensures Parse(line).CmdJoin? ==> Abbreviates(FirstWord(line), JOIN_CMD)
    ensures Parse(line).CmdRename? ==> Abbreviates(FirstWord(line), RENAME_CMD)
  {
    hide AuthWords, LineArgument, ValidWord;
    var data, w := line + [NUL], FirstWord(line);
    assert IsWordEnd(data[|line|]);
    assert w == data[..FindBlankChar(data, 0, |line|)];
    FirstBytes(w);
  }

  /** The second letter tells the commands apart. */
  lemma FirstBytes(w: seq<byte>)
    ensures |w| >= 2 && w <= AUTH_CMD ==> w[1] == 97
    ensures |w| >= 2 && w <= JOIN_CMD ==> w[1] == 106
    ensures |w| >= 2 && w <= RENAME_CMD ==> w[1] == 114
    ensures |w| >= 2 && w <= HELP_CMD ==> w[1] == 104
    ensures |w| >= 2 && w <= EXIT_CMD ==> w[1] == 101
    ensures |w| < 2 && (w <= JOIN_CMD || w <= RENAME_CMD || w <= HELP_CMD || w <= EXIT_CMD) ==> w <= AUTH_CMD
  {}

  // ---------------------------------------------------------------------------
  //  /join and /rename
  // ---------------------------------------------------------------------------

  /** A command word, blanks, the argument, and the end of the line. */
  ghost predicate ArgumentForm(line: seq<byte>, name: seq<byte>, w: seq<byte>) {
    exists word: seq<byte>, b: seq<byte>, rest: seq<byte> :: ArgumentParts(line, name, word, b, w, rest)
  }

  predicate ArgumentParts(line: seq<byte>, name: seq<byte>, word: seq<byte>, b: seq<byte>, w: seq<byte>,
                          rest: seq<byte>) {
    && line == word + b + w + rest && Abbreviates(word, name) && Blanks(b)
    && (rest == [] || IsLineEnd(rest[0]))
  }

  /** The first word of a line that consists of a command word and something that ends it. */
  lemma FirstWordFound(line: seq<byte>, word: seq<byte>, rest: seq<byte>)
    requires line == word + rest && Decoding.WordEndFree(word) && (rest == [] || IsWordEnd(rest[0]))
    ensures FindBlankChar(line + [NUL], 0, |line|) == |word| && FirstWord(line) == word
  {
    var data := line + [NUL];
    assert forall k :: 0 <= k < |word| ==> data[k] == word[k];
    assert rest != [] ==> data[|word|] == rest[0];
    ScanHit(IsWordEnd, data, 0, |line| + 1, |word|);
  }

  lemma NameClean(word: seq<byte>, name: seq<byte>)
    requires name in {AUTH_CMD, JOIN_CMD, RENAME_CMD} && word <= name
    ensures Decoding.WordEndFree(word)
  {
    assert forall i :: 0 <= i < |word| ==> word[i] == name[i];
  }

  lemma ArgumentBuilt(line: seq<byte>, name: seq<byte>, word: seq<byte>, b: seq<byte>, w: seq<byte>, rest: seq<byte>)
    requires name == JOIN_CMD || name == RENAME_CMD
    requires ArgumentParts(line, name, word, b, w, rest) && w != [] && Decoding.WordEndFree(w)
    ensures Tokenizable(line) && FindBlankChar(line + [NUL], 0, |line|) == |word| && FirstWord(line) == word
    ensures LineArgument(line + [NUL], |word|, |line|) == Some(Block(|word| + |b|, |w|))
    ensures BlockBytes(line + [NUL], Block(|word| + |b|, |w|)) == w
  {
    hide LineArgument, FindBlankChar;
    var data, start := line + [NUL], |word| + |b|;
    NameClean(word, name);
    assert line == word + (b + w + rest);
    FirstWordFound(line, word, b + w + rest);
    assert line[start] == w[0] && !IsWordEnd(w[0]);
    assert PlacedAt(data, |word|, b) && PlacedAt(data, start, w);
    assert data[start + |w|] == (rest + [NUL])[0];
    ArgumentFound(data, |word|, |line|, b, w);
  }

  /** Where an argument is found at all and is not empty, there are blanks, and something behind them. */
  lemma ArgumentSkips(line: seq<byte>, cmd: nat)
    requires 0 < cmd <= |line| && cmd == FindBlankChar(line + [NUL], 0, |line|)
    requires var r := LineArgument(line + [NUL], cmd, |line|); r.Some? && r.value.len > 0
    ensures var r := LineArgument(line + [NUL], cmd, |line|).value;
      var skip := SkipBlankChars(line + [NUL], cmd, |line| - cmd);
      skip > 0 && r.start == cmd + skip && r.start + r.len <= |line|
    ensures var r := LineArgument(line + [NUL], cmd, |line|).value; IsLineEnd((line + [NUL])[r.start + r.len])
    ensures Blanks(line[cmd..LineArgument(line + [NUL], cmd, |line|).value.start])
  {
    var data, used := line + [NUL], |line|;
    assert !IsLineEnd(data[cmd - 1]) && IsWordEnd(data[cmd]);
    if SkipBlankChars(data, cmd, used - cmd) < 0 { assert false; }
    assert forall k :: cmd <= k < LineArgument(data, cmd, used).value.start ==> line[k] == data[k];
  }

  /** Behind a command word the argument is found only in that form: blanks alone are not enough. */
  lemma ArgumentTaken(line: seq<byte>, name: seq<byte>, cmd: nat, maxLen: nat, kind: WordKind)
    requires name == JOIN_CMD || name == RENAME_CMD
    requires 0 < cmd <= |line| && cmd == FindBlankChar(line + [NUL], 0, |line|)
    requires Abbreviates(line[..cmd], name) && kind != MessageContent
    requires var r := LineArgument(line + [NUL], cmd, |line|);
      r.Some? && ValidWord(BlockBytes(line + [NUL], r.value), maxLen, kind)
    ensures ArgumentForm(line, name, BlockBytes(line + [NUL], LineArgument(line + [NUL], cmd, |line|).value))
  {
    hide FindBlankChar, ValidWord;
    var data, used := line + [NUL], |line|;
    var block := LineArgument(data, cmd, used).value;
    assert block.len > 0 by { ValidWordClean(BlockBytes(data, block), maxLen, kind); }
    ArgumentSkips(line, cmd);
    var start, w := block.start, BlockBytes(data, block);
    var word, b, rest := line[..cmd], line[cmd..start], line[start + |w|..];
    assert w == line[start..start + |w|];
    assert line == word + b + w + rest;
    assert rest != [] ==> rest[0] == data[start + |w|];
    assert ArgumentParts(line, name, word, b, w, rest);
  }

  /** Exactly the lines that are a /join of channel `ch`, and a /rename to `w`. */
  lemma ArgumentExactly(line: seq<byte>, w: seq<byte>)
    requires Tokenizable(line)
    ensures Parse(line) == CmdJoin(FirstWord(line), w) <==>
      ValidWord(w, 20, Credential) && ArgumentForm(line, JOIN_CMD, w)
    ensures Parse(line) == CmdRename(w) <==> ValidName(w) && ArgumentForm(line, RENAME_CMD, w)
  {
    hide Parse, ValidWord;
    if Parse(line) == CmdJoin(FirstWord(line), w) { JoinTaken(line, w); }
    if Parse(line) == CmdRename(w) { RenameTaken(line, w); }
    if ValidWord(w, 20, Credential) && ArgumentForm(line, JOIN_CMD, w) { ArgumentGiven(line, JOIN_CMD, w); }
    if ValidName(w) && ArgumentForm(line, RENAME_CMD, w) { ArgumentGiven(line, RENAME_CMD, w); }
  }

  lemma JoinTaken(line: seq<byte>, w: seq<byte>)
    requires Tokenizable(line) && Parse(line).CmdJoin? && Parse(line).channel == w
    ensures ValidWord(w, 20, Credential) && ArgumentForm(line, JOIN_CMD, w)
  {
    hide LineArgument, ArgumentForm, ValidWord, AuthWords;
    var data := line + [NUL];
    assert IsWordEnd(data[|line|]);
    var cmd := FindBlankChar(data, 0, |line|);
    assert line[..cmd] == data[..cmd] == FirstWord(line);
    FirstBytes(line[..cmd]);
    ArgumentTaken(line, JOIN_CMD, cmd, 20, Credential);
  }

  lemma RenameTaken(line: seq<byte>, w: seq<byte>)
    requires Tokenizable(line) && Parse(line) == CmdRename(w)
    ensures ValidName(w) && ArgumentForm(line, RENAME_CMD, w)
  {
    hide LineArgument, ArgumentForm, ValidWord, AuthWords;
    var data := line + [NUL];
    assert IsWordEnd(data[|line|]);
    var cmd := FindBlankChar(data, 0, |line|);
    assert line[..cmd] == data[..cmd] == FirstWord(line);
    FirstBytes(line[..cmd]);
    ArgumentTaken(line, RENAME_CMD, cmd, 20, DisplayName);
  }

  lemma ArgumentGiven(line: seq<byte>, name: seq<byte>, w: seq<byte>)
    requires Tokenizable(line) && ArgumentForm(line, name, w)
    requires (name == JOIN_CMD && ValidWord(w, 20, Credential)) || (name == RENAME_CMD && ValidName(w))
    ensures Parse(line) == if name == JOIN_CMD then CmdJoin(FirstWord(line), w) else CmdRename(w)
  {
    hide LineArgument, ValidWord, FindBlankChar;
    var word, b, rest :| ArgumentParts(line, name, word, b, w, rest);
    ValidWordClean(w, 20, if name == JOIN_CMD then Credential else DisplayName);
    ArgumentBuilt(line, name, word, b, w, rest);
    FirstBytes(word);
    assert (line + [NUL])[..|word|] == word;
  }

  // ---------------------------------------------------------------------------
  //  /auth
  // ---------------------------------------------------------------------------

  /** Three words behind a command word, which may be cut short, even to nothing. */
  ghost predicate AuthForm(line: seq<byte>, u: seq<byte>, s: seq<byte>, d: seq<byte>) {
    exists word: seq<byte>, b1: seq<byte>, b2: seq<byte>, b3: seq<byte>, rest: seq<byte> ::
      AuthParts(line, word, b1, u, b2, s, b3, d, rest)
  }

  predicate AuthParts(line: seq<byte>, word: seq<byte>, b1: seq<byte>, u: seq<byte>, b2: seq<byte>, s: seq<byte>,
                      b3: seq<byte>, d: seq<byte>, rest: seq<byte>) {
    && line == word + b1 + u + b2 + s + b3 + d + rest && word <= AUTH_CMD
    && Blanks(b1) && Blanks(b2) && Blanks(b3) && (rest == [] || IsWordEnd(rest[0]))
  }

  /** Nothing but at least three blanks behind the command word: its last letter is read three times. */
  ghost predicate BlankForm(line: seq<byte>, w: seq<byte>) {
    exists word: seq<byte>, b: seq<byte> :: BlankParts(line, word, b, w)
  }

  predicate BlankParts(line: seq<byte>, word: seq<byte>, b: seq<byte>, w: seq<byte>) {
    line == word + b && word <= AUTH_CMD && word != [] && w == [word[|word| - 1]] && Blanks(b) && |b| >= 3
  }

  /** A word that getWord finds where there is something behind the blanks. */
  lemma WordGot(line: seq<byte>, from: nat, size: int) returns (b: seq<byte>, w: seq<byte>)
    requires from <= |line| && IsWordEnd((line + [NUL])[from]) && size > 0
    requires SkipBlankChars(line + [NUL], from, size) >= 0 && GetWord(line + [NUL], from, size).Some?
    ensures Blanks(b) && w != [] && Decoding.WordEndFree(w)
    ensures GetWord(line + [NUL], from, size) == Some(Block(from + |b|, |w|))
    ensures from + |b| + |w| <= |line| && PlacedAt(line, from, b) && PlacedAt(line, from + |b|, w)
    ensures IsWordEnd((line + [NUL])[from + |b| + |w|])
    ensures BlockBytes(line + [NUL], Block(from + |b|, |w|)) == w
  {
    var data, r := line + [NUL], GetWord(line + [NUL], from, size).value;
    assert r.start + r.len <= |line|;
    b, w := line[from..r.start], line[r.start..r.start + r.len];
    assert forall k :: 0 <= k < |b| ==> b[k] == data[from + k];
    assert forall k :: 0 <= k < |w| ==> w[k] == data[r.start + k];
  }

  /** The bound given for the second and third word reaches beyond the line: the zero byte is found. */
  lemma SkipReaches(line: seq<byte>, from: nat, size: nat)
    requires from <= |line| < from + size
    ensures SkipBlankChars(line + [NUL], from, size) >= 0
  {
    assert NotBlank((line + [NUL])[|line|]);
  }

  lemma AuthTaken(line: seq<byte>)
    requires Tokenizable(line) && Parse(line).CmdAuth?
    ensures var c := Parse(line);
      AuthForm(line, c.user, c.secret, c.name) || (c.user == c.secret == c.name && BlankForm(line, c.user))
  {
    hide SkipBlankChars, FindBlankChar, ValidWord, AuthForm, BlankForm, LineArgument;
    var data, used := line + [NUL], |line|;
    var cmd := |FirstWord(line)|;
    assert FirstWord(line) == data[..cmd];
    if cmd == 0 { FirstWordExists(line); } else { SkipsBackOne(data, cmd, used - cmd); }
    var (first, second, third) := AuthWords(data, cmd, used).value;
    if SkipBlankChars(data, cmd, used - cmd) < 0 {
      BlanksTaken(line, cmd);
    } else {
      WordsTaken(line, cmd);
    }
  }

  lemma LineSplit(line: seq<byte>, cmd: nat, b1: seq<byte>, u: seq<byte>, b2: seq<byte>, s: seq<byte>,
                  b3: seq<byte>, d: seq<byte>)
    requires cmd <= |line| && PlacedAt(line, cmd, b1) && PlacedAt(line, cmd + |b1|, u)
    requires var p := cmd + |b1| + |u|; PlacedAt(line, p, b2) && PlacedAt(line, p + |b2|, s)
    requires var q := cmd + |b1| + |u| + |b2| + |s|; PlacedAt(line, q, b3) && PlacedAt(line, q + |b3|, d)
    ensures line == line[..cmd] + b1 + u + b2 + s + b3 + d + line[cmd + |b1| + |u| + |b2| + |s| + |b3| + |d|..]
  {}

  /** The three words are three words of the line. */
  lemma WordsTaken(line: seq<byte>, cmd: nat)
    requires cmd < |line| && cmd == FindBlankChar(line + [NUL], 0, |line|) && line[..cmd] <= AUTH_CMD
    requires SkipBlankChars(line + [NUL], cmd, |line| - cmd) >= 0 && AuthWords(line + [NUL], cmd, |line|).Some?
    ensures var data, (x, y, z) := line + [NUL], AuthWords(line + [NUL], cmd, |line|).value;
      && x.start + x.len <= |line| && y.start + y.len <= |line| && z.start + z.len <= |line|
      && AuthForm(line, BlockBytes(data, x), BlockBytes(data, y), BlockBytes(data, z))
  {
    hide GetWord, SkipBlankChars, Blanks, Decoding.WordEndFree, PlacedAt;
    var data, used := line + [NUL], |line|;
    var b1, u := WordGot(line, cmd, used - cmd);
    var p := cmd + |b1| + |u|;
    SkipReaches(line, p, used - (cmd + |u|));
    var b2, s := WordGot(line, p, used - (cmd + |u|));
    var q := p + |b2| + |s|;
    SkipReaches(line, q, used - (cmd + |u| + |s|));
    var b3, d := WordGot(line, q, used - (cmd + |u| + |s|));
    var end := q + |b3| + |d|;
    var rest := line[end..];
    assert rest != [] ==> rest[0] == data[end];
    LineSplit(line, cmd, b1, u, b2, s, b3, d);
    assert AuthParts(line, line[..cmd], b1, u, b2, s, b3, d, rest);
  }

  /** Behind the command word there is nothing but blanks, and the bound ends with them. */
  lemma BlankWord(line: seq<byte>, cmd: nat, size: int)
    requires 0 < cmd < |line| && size <= |line| - cmd && !IsWordEnd(line[cmd - 1]) && Blanks(line[cmd..])
    ensures size > 0 ==> cmd + SkipBlankChars(line + [NUL], cmd, size) >= 0
    ensures GetWord(line + [NUL], cmd, size) == if size <= 0 then None else Some(Block(cmd - 1, 1))
  {
    var data := line + [NUL];
    assert forall k :: cmd <= k < |line| ==> data[k] == line[cmd..][k - cmd];
    if size > 0 {
      ScanMiss(NotBlank, data, cmd, size);
      ScanHit(IsWordEnd, data, cmd - 1, size + 1, 1);
    }
  }

  /** With only blanks behind the command word the scanner steps back to its last letter, three times. */
  lemma BlanksTaken(line: seq<byte>, cmd: nat)
    requires 0 < cmd <= |line| && cmd == FindBlankChar(line + [NUL], 0, |line|) && line[..cmd] <= AUTH_CMD
    requires SkipBlankChars(line + [NUL], cmd, |line| - cmd) < 0 && AuthWords(line + [NUL], cmd, |line|).Some?
    ensures AuthWords(line + [NUL], cmd, |line|) == Some((Block(cmd - 1, 1), Block(cmd - 1, 1), Block(cmd - 1, 1)))
    ensures BlankForm(line, [line[cmd - 1]]) && BlockBytes(line + [NUL], Block(cmd - 1, 1)) == [line[cmd - 1]]
  {
    hide GetWord, SkipBlankChars, FindBlankChar;
    OnlyBlanks(line, cmd);
    var n := |line| - cmd;
    BlankWord(line, cmd, n);
    BlankWord(line, cmd, n - 1);
    BlankWord(line, cmd, n - 2);
    assert BlankParts(line, line[..cmd], line[cmd..], [line[cmd - 1]]);
  }

  lemma OnlyBlanks(line: seq<byte>, cmd: nat)
    requires 0 < cmd <= |line| && cmd == FindBlankChar(line + [NUL], 0, |line|)
    requires SkipBlankChars(line + [NUL], cmd, |line| - cmd) < 0 && AuthWords(line + [NUL], cmd, |line|).Some?
    ensures cmd < |line| && !IsWordEnd(line[cmd - 1]) && Blanks(line[cmd..])
  {
    var data := line + [NUL];
    assert data[cmd - 1] == line[cmd - 1];
    assert forall k :: 0 <= k < |line| - cmd ==> line[cmd..][k] == data[cmd + k];
  }

  lemma AuthGiven(line: seq<byte>, u: seq<byte>, s: seq<byte>, d: seq<byte>)
    requires Tokenizable(line) && AuthForm(line, u, s, d)
    requires ValidWord(u, 20, Credential) && ValidWord(s, 128, Credential) && ValidName(d)
    ensures Parse(line) == CmdAuth(FirstWord(line), u, s, d)
  {
    hide Parse, ParseAuth, ValidWord, FindBlankChar, SkipBlankChars, PlacedAt;
    var word, b1, b2, b3, rest :| AuthParts(line, word, b1, u, b2, s, b3, d, rest);
    var data := line + [NUL];
    ValidWordClean(u, 20, Credential);
    ValidWordClean(s, 128, Credential);
    ValidWordClean(d, 20, DisplayName);
    NameClean(word, AUTH_CMD);
    AuthPlaced(line, word, b1, u, b2, s, b3, d, rest);
    FirstWordFound(line, word, b1 + u + b2 + s + b3 + d + rest);
    AuthParsedAt(data, |line|, |word|, b1, u, b2, s, b3, d, rest + [NUL]);
    AuthSelected(line);
    assert data[..|word|] == word;
  }

  lemma AuthSelected(line: seq<byte>)
    requires line != [] && Tokenizable(line) && FirstWord(line) <= AUTH_CMD
    ensures var cmd := |FirstWord(line)|;
      && (|line| - cmd > 0 ==> cmd + SkipBlankChars(line + [NUL], cmd, |line| - cmd) >= 0)
      && Parse(line) == ParseAuth(line + [NUL], cmd, |line|)
  {
    hide ParseAuth, SkipBlankChars, FindBlankChar;
    var cmd := |FirstWord(line)|;
    assert FirstWord(line) == (line + [NUL])[..cmd];
    if cmd == 0 { FirstWordExists(line); } else { SkipsBackOne(line + [NUL], cmd, |line| - cmd); }
  }

  lemma AuthPlaced(line: seq<byte>, word: seq<byte>, b1: seq<byte>, u: seq<byte>, b2: seq<byte>, s: seq<byte>,
                   b3: seq<byte>, d: seq<byte>, rest: seq<byte>)
    requires line == word + b1 + u + b2 + s + b3 + d + rest
    ensures line == word + (b1 + u + b2 + s + b3 + d + rest)
    ensures b1 != [] ==> (b1 + u + b2 + s + b3 + d + rest)[0] == b1[0]
    ensures var data, p1 := line + [NUL], |word| + |b1|;
      var q1 := p1 + |u|; var p2 := q1 + |b2|; var q2 := p2 + |s|; var p3 := q2 + |b3|;
      && |line| >= p3 + |d|
      && PlacedAt(data, |word|, b1) && PlacedAt(data, p1, u) && PlacedAt(data, q1, b2)
      && PlacedAt(data, p2, s) && PlacedAt(data, q2, b3) && PlacedAt(data, p3, d)
      && PlacedAt(data, p3 + |d|, rest + [NUL])
  {}

  /**
   * Exactly the lines that log in as `u` with secret `s` and display name `d`: three words behind a beginning
   * of "/auth", or, if all three are the same letter, that beginning up to this letter and nothing but blanks.
   */
  lemma AuthExactly(line: seq<byte>, u: seq<byte>, s: seq<byte>, d: seq<byte>)
    requires Tokenizable(line)
    ensures Parse(line) == CmdAuth(FirstWord(line), u, s, d) <==>
      && ValidWord(u, 20, Credential) && ValidWord(s, 128, Credential) && ValidName(d)
      && (AuthForm(line, u, s, d) || (u == s == d && BlankForm(line, u)))
  {
    hide Parse, ValidWord, AuthForm, BlankForm;
    if Parse(line).CmdAuth? { AuthTaken(line); }
    if ValidWord(u, 20, Credential) && ValidWord(s, 128, Credential) && ValidName(d) {
      if AuthForm(line, u, s, d) { AuthGiven(line, u, s, d); }
      if u == s == d && BlankForm(line, u) { BlanksGiven(line, u); }
    }
    if Parse(line) == CmdAuth(FirstWord(line), u, s, d) { assert ValidCommand(Parse(line)); }
  }

  lemma BlanksGiven(line: seq<byte>, w: seq<byte>)
    requires Tokenizable(line) && BlankForm(line, w)
    requires ValidWord(w, 20, Credential) && ValidWord(w, 128, Credential) && ValidName(w)
    ensures Parse(line) == CmdAuth(FirstWord(line), w, w, w)
  {
    hide Parse, GetWord, SkipBlankChars, ValidWord, FindBlankChar;
    var word, b :| BlankParts(line, word, b, w);
    var data, cmd, n := line + [NUL], |word|, |b|;
    NameClean(word, AUTH_CMD);
    FirstWordFound(line, word, b);
    assert line[cmd..] == b && line[cmd - 1] == word[cmd - 1];
    BlankWord(line, cmd, n);
    BlankWord(line, cmd, n - 1);
    BlankWord(line, cmd, n - 2);
    AuthSelected(line);
    assert BlockBytes(data, Block(cmd - 1, 1)) == w && data[..cmd] == word;
  }

  // ---------------------------------------------------------------------------
  //  Lines in the ordinary form
  // ---------------------------------------------------------------------------

  /** An /auth line: words and blanks in turn. */
  function AuthLine(b1: seq<byte>, u: seq<byte>, b2: seq<byte>, s: seq<byte>,
                    b3: seq<byte>, d: seq<byte>, b4: seq<byte>): seq<byte> {
    AUTH_CMD + b1 + u + b2 + s + b3 + d + b4
  }

  /** /auth with three valid words between any runs of blanks. */
  lemma AuthRecognised(b1: seq<byte>, u: seq<byte>, b2: seq<byte>, s: seq<byte>,
                       b3: seq<byte>, d: seq<byte>, b4: seq<byte>)
    requires Blanks(b1) && Blanks(b2) && Blanks(b3) && (b4 == [] || Blanks(b4))
    requires ValidWord(u, 20, Credential) && ValidWord(s, 128, Credential) && ValidName(d)
    ensures var line := AuthLine(b1, u, b2, s, b3, d, b4);
      Tokenizable(line) && Parse(line) == CmdAuth(AUTH_CMD, u, s, d)
  {
    hide Parse, ValidWord;
    var line := AuthLine(b1, u, b2, s, b3, d, b4);
    assert NotBlank(line[0]);
    assert AuthParts(line, AUTH_CMD, b1, u, b2, s, b3, d, b4);
    AuthGiven(line, u, s, d);
    NameClean(AUTH_CMD, AUTH_CMD);
    AuthPlaced(line, AUTH_CMD, b1, u, b2, s, b3, d, b4);
    FirstWordFound(line, AUTH_CMD, b1 + u + b2 + s + b3 + d + b4);
  }

  /** /join and /rename with blanks and one valid word. */
  lemma ArgumentRecognised(b: seq<byte>, w: seq<byte>)
    requires Blanks(b)
    ensures ValidWord(w, 20, Credential) ==>
      Tokenizable(JOIN_CMD + b + w) && Parse(JOIN_CMD + b + w) == CmdJoin(JOIN_CMD, w)
    ensures ValidName(w) ==> Tokenizable(RENAME_CMD + b + w) && Parse(RENAME_CMD + b + w) == CmdRename(w)
  {
    hide Parse, ValidWord;
    if ValidWord(w, 20, Credential) { OneWord(JOIN_CMD, b, w); }
    if ValidName(w) { OneWord(RENAME_CMD, b, w); }
  }

  lemma OneWord(name: seq<byte>, b: seq<byte>, w: seq<byte>)
    requires Blanks(b)
    requires (name == JOIN_CMD && ValidWord(w, 20, Credential)) || (name == RENAME_CMD && ValidName(w))
    ensures Tokenizable(name + b + w) && FirstWord(name + b + w) == name
    ensures Parse(name + b + w) == if name == JOIN_CMD then CmdJoin(name, w) else CmdRename(w)
  {
    hide Parse, ValidWord;
    ValidWordClean(w, 20, if name == JOIN_CMD then Credential else DisplayName);
    assert name + b + w + [] == name + b + w;
    assert ArgumentParts(name + b + w, name, name, b, w, []);
    ArgumentBuilt(name + b + w, name, name, b, w, []);
    ArgumentGiven(name + b + w, name, w);
  }

  /** /exit and /help, cut short to at least two bytes. */
  lemma WordRecognised(word: seq<byte>)
    requires Abbreviates(word, EXIT_CMD) || Abbreviates(word, HELP_CMD)
    ensures Tokenizable(word) && FirstWord(word) == word
    ensures Parse(word) == if word <= EXIT_CMD then CmdExit(word) else CmdHelp
  {
    hide AuthWords, LineArgument, ValidWord;
    FirstBytes(word);
    var name := if word <= EXIT_CMD then EXIT_CMD else HELP_CMD;
    assert forall i :: 0 <= i < |word| ==> word[i] == name[i];
    assert NotBlank(word[0]);
    FirstWordFound(word, word, []) by { assert word + [] == word; }
    assert (word + [NUL])[..|word|] == word;
  }
}
