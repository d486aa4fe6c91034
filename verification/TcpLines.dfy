/**
 * TCP lines: what a client takes from a REPLY, which lines it knows, and what a server reads from the AUTH
 * and JOIN it sends.
 */
module TcpLines {
  import opened Basics
  import opened Scanning
  import opened Formats
  import opened Decoding

  lemma FirstByte(s: seq<byte>, from: nat, text: seq<byte>)
    requires text != []
    ensures StartsAt(s, from, text) ==> s[from] == text[0]
  {
    if StartsAt(s, from, text) { assert s[from] == s[from..from + |text|][0]; }
  }

  /** The result of a REPLY line, whatever its contents. */
  lemma TcpReplyRoundTrip(ok: bool, text: seq<byte>)
    ensures EndsInLineEnd(TcpReply(ok, text)) && TcpDecode(TcpReply(ok, text)) == Decoded(REPLY, 0, ok, [], [], [])
  {
    var p, result := TcpReply(ok, text), if ok then OK_IS_TEXT else NOK_IS_TEXT;
    assert p[0..6] == REPLY_TEXT && p[6..6 + |result|] == result;
    assert p[0] == 82 && p[6] == result[0];
    FirstByte(p, 0, MSG_FROM_TEXT);
    FirstByte(p, 6, OK_IS_TEXT);
  }

  /** A display name without blanks and line ends, then " IS ", behind the first two words of MSG or ERR. */
  ghost predicate PairForm(s: seq<byte>, start: seq<byte>) {
    exists name: seq<byte>, rest: seq<byte> :: WordEndFree(name) && s == start + name + IS_TEXT + rest
  }

  /** The lines of a server the client knows. */
  ghost predicate TcpKnownLine(s: seq<byte>) {
    || PairForm(s, MSG_FROM_TEXT) || PairForm(s, ERR_FROM_TEXT) || BYE_TEXT <= s
    || REPLY_TEXT + OK_IS_TEXT <= s || REPLY_TEXT + NOK_IS_TEXT <= s
  }

  /** The scanner finds the name of a line of that form. */
  lemma PairFormFound(s: seq<byte>, start: seq<byte>)
    requires |start| == 9 && PairForm(s, start)
    ensures var n := FindBlankChar(s, 9, |s| - 9); n >= 0 && StartsAt(s, 9 + n, IS_TEXT)
  {
    hide FindBlankChar;
    var name, rest :| WordEndFree(name) && s == start + name + IS_TEXT + rest;
    assert s == start + name + (IS_TEXT + rest);
    TcpNameFound(start, name, IS_TEXT + rest, s);
    assert s[9 + |name|..13 + |name|] == IS_TEXT;
  }

  /** Where the scanner and the comparison behind it succeed, the line has that form. */
  lemma PairFormBuilt(s: seq<byte>, start: seq<byte>, n: nat)
    requires |start| == 9 && StartsAt(s, 0, start) && |s| > 9
    requires FindBlankChar(s, 9, |s| - 9) == n && StartsAt(s, 9 + n, IS_TEXT)
    ensures PairForm(s, start)
  {
    var name := s[9..9 + n];
    assert WordEndFree(name);
    assert s == start + name + IS_TEXT + s[13 + n..];
  }

  /** Exactly: what the client takes a line for, by its form; any line of another form is an unknown message. */
  lemma TcpKindExactly(s: seq<byte>)
    requires EndsInLineEnd(s)
    ensures TcpDecode(s).kind == MSG <==> PairForm(s, MSG_FROM_TEXT)
    ensures TcpDecode(s).kind == ERR <==> PairForm(s, ERR_FROM_TEXT)
    ensures TcpDecode(s).kind == BYE <==> BYE_TEXT <= s
    ensures TcpDecode(s).kind == REPLY && TcpDecode(s).ok <==> REPLY_TEXT + OK_IS_TEXT <= s
    ensures TcpDecode(s).kind == REPLY && !TcpDecode(s).ok <==> REPLY_TEXT + NOK_IS_TEXT <= s
    ensures MsgTypeOf(TcpDecode(s).kind) == UNKNOWN <==> !TcpKnownLine(s)
  {
    hide FindBlankChar, FindNewLine, PairForm;
    LongerThanStart(s);
    Beginnings(s);
    forall start | start in {MSG_FROM_TEXT, ERR_FROM_TEXT} && StartsAt(s, 0, start)
      ensures var n := FindBlankChar(s, 9, |s| - 9);
        && (PairForm(s, start) <==> n >= 0 && StartsAt(s, 9 + n, IS_TEXT))
        && (PairForm(s, start) ==> FindNewLine(s, 9 + n + 4, |s| - 9 - n) >= 0)
    {
      var n := FindBlankChar(s, 9, |s| - 9);
      if PairForm(s, start) { PairFormFound(s, start); }
      if n >= 0 && StartsAt(s, 9 + n, IS_TEXT) {
        PairFormBuilt(s, start, n);
        LineEndFound(s, n);
      }
    }
  }

  /** The comparisons of the disassembler, as prefixes. */
  lemma Beginnings(s: seq<byte>)
    ensures BYE_TEXT <= s <==> StartsAt(s, 0, BYE_TEXT)
    ensures REPLY_TEXT + OK_IS_TEXT <= s <==> StartsAt(s, 0, REPLY_TEXT) && StartsAt(s, 6, OK_IS_TEXT)
    ensures REPLY_TEXT + NOK_IS_TEXT <= s <==> StartsAt(s, 0, REPLY_TEXT) && StartsAt(s, 6, NOK_IS_TEXT)
    ensures !(StartsAt(s, 6, OK_IS_TEXT) && StartsAt(s, 6, NOK_IS_TEXT))
    ensures PairForm(s, MSG_FROM_TEXT) ==> StartsAt(s, 0, MSG_FROM_TEXT)
    ensures PairForm(s, ERR_FROM_TEXT) ==> StartsAt(s, 0, ERR_FROM_TEXT)
    ensures StartsAt(s, 0, MSG_FROM_TEXT) ==> s[0] == 77
    ensures StartsAt(s, 0, ERR_FROM_TEXT) ==> s[0] == 69
    ensures StartsAt(s, 0, REPLY_TEXT) ==> s[0] == 82
    ensures StartsAt(s, 0, BYE_TEXT) ==> s[0] == 66
  {
    FirstByte(s, 0, MSG_FROM_TEXT);
    FirstByte(s, 0, ERR_FROM_TEXT);
    FirstByte(s, 0, REPLY_TEXT);
    FirstByte(s, 0, BYE_TEXT);
    FirstByte(s, 6, OK_IS_TEXT);
    FirstByte(s, 6, NOK_IS_TEXT);
    if StartsAt(s, 0, REPLY_TEXT) && StartsAt(s, 6, OK_IS_TEXT) { assert s[..12] == REPLY_TEXT + OK_IS_TEXT; }
    if StartsAt(s, 0, REPLY_TEXT) && StartsAt(s, 6, NOK_IS_TEXT) { assert s[..13] == REPLY_TEXT + NOK_IS_TEXT; }
    if REPLY_TEXT + OK_IS_TEXT <= s { assert s[..12][0..6] == s[0..6] && s[..12][6..12] == s[6..12]; }
    if REPLY_TEXT + NOK_IS_TEXT <= s { assert s[..13][0..6] == s[0..6] && s[..13][6..13] == s[6..13]; }
  }

  // ---------------------------------------------------------------------------
  //  AUTH and JOIN, read by a server
  // ---------------------------------------------------------------------------

  /** A word and where it ends; the keyword `text` follows it. None if there is no such word. */
  function WordBefore(s: seq<byte>, from: nat, text: seq<byte>): (r: Option<nat>)
    requires from <= |s|
    ensures r.Some? ==> from <= r.value && r.value + |text| <= |s|
  {
    var n := FindBlankChar(s, from, |s| - from);
    if n < 0 || !StartsAt(s, from + n, text) then None else Some(from + n)
  }

  /** AUTH: the user name before " AS ", the display name before " USING ", the secret before the line end. */
  function TcpReadAuth(s: seq<byte>): Decoded
    requires |s| >= 5
  {
    match WordBefore(s, 5, AS_TEXT)
    case None => Decoded(CORRUPTED, 0, false, [], [], [])
    case Some(u) =>
      match WordBefore(s, u + 4, USING_TEXT)
      case None => Decoded(CORRUPTED, 0, false, [], [], [])
      case Some(n) =>
        match WordBefore(s, n + 7, CRLF)
        case None => Decoded(CORRUPTED, 0, false, [], [], [])
        case Some(x) => Decoded(AUTH, 0, false, s[5..u], s[u + 4..n], s[n + 7..x])
  }

  /** JOIN: the channel before " AS ", the display name before the line end. */
  function TcpReadJoin(s: seq<byte>): Decoded
    requires |s| >= 5
  {
    match WordBefore(s, 5, AS_TEXT)
    case None => Decoded(CORRUPTED, 0, false, [], [], [])
    case Some(c) =>
      match WordBefore(s, c + 4, CRLF)
      case None => Decoded(CORRUPTED, 0, false, [], [], [])
      case Some(n) => Decoded(JOIN, 0, false, s[5..c], s[c + 4..n], [])
  }

  /** A server's reader: AUTH and JOIN by their keywords, everything else as the client reads it. */
  function TcpRead(s: seq<byte>): Decoded
    requires EndsInLineEnd(s)
  {
    if StartsAt(s, 0, AUTH_TEXT) then TcpReadAuth(s)
    else if StartsAt(s, 0, JOIN_TEXT) then TcpReadJoin(s)
    else TcpDecode(s)
  }

  /** A word without blanks and line ends in front of a keyword is found. */
  lemma WordBeforeFound(before: seq<byte>, word: seq<byte>, text: seq<byte>, rest: seq<byte>, p: seq<byte>)
    requires p == before + word + text + rest && WordEndFree(word) && text != [] && IsWordEnd(text[0])
    ensures WordBefore(p, |before|, text) == Some(|before| + |word|)
    ensures p[|before|..|before| + |word|] == word
  {
    var from, to := |before|, |before| + |word|;
    assert forall k :: from <= k < to ==> p[k] == word[k - from];
    assert p[to] == text[0] && p[to..to + |text|] == text;
    ScanHit(IsWordEnd, p, from, |p| - from + 1, |word|);
  }

  /** The message, split before each of its words. */
  lemma AuthPieces(user: seq<byte>, name: seq<byte>, secret: seq<byte>)
    ensures var p, u := TcpAuth(user, name, secret), AUTH_TEXT + user + AS_TEXT;
      var n := u + name + USING_TEXT;
      && p == AUTH_TEXT + user + AS_TEXT + (name + USING_TEXT + secret + CRLF)
      && p == u + name + USING_TEXT + (secret + CRLF) && p == n + secret + CRLF + []
      && p[0..5] == AUTH_TEXT && EndsInLineEnd(p)
  {}

  lemma TcpAuthRoundTrip(user: seq<byte>, name: seq<byte>, secret: seq<byte>)
    requires WordEndFree(user) && WordEndFree(name) && WordEndFree(secret)
    ensures var p := TcpAuth(user, name, secret);
      EndsInLineEnd(p) && TcpRead(p) == Decoded(AUTH, 0, false, user, name, secret)
  {
    hide WordBefore, WordEndFree, TcpAuth;
    var p, u := TcpAuth(user, name, secret), AUTH_TEXT + user + AS_TEXT;
    var n := u + name + USING_TEXT;
    AuthPieces(user, name, secret);
    WordBeforeFound(AUTH_TEXT, user, AS_TEXT, name + USING_TEXT + secret + CRLF, p);
    WordBeforeFound(u, name, USING_TEXT, secret + CRLF, p);
    WordBeforeFound(n, secret, CRLF, [], p);
  }

  lemma TcpJoinRoundTrip(channel: seq<byte>, name: seq<byte>)
    requires WordEndFree(channel) && WordEndFree(name)
    ensures var p := TcpJoin(channel, name);
      EndsInLineEnd(p) && TcpRead(p) == Decoded(JOIN, 0, false, channel, name, [])
  {
    hide WordBefore;
    var p, c := TcpJoin(channel, name), JOIN_TEXT + channel + AS_TEXT;
    assert p == JOIN_TEXT + channel + AS_TEXT + (name + CRLF) && p == c + name + CRLF + [];
    assert p[0..5] == JOIN_TEXT;
    FirstByte(p, 0, AUTH_TEXT);
    WordBeforeFound(JOIN_TEXT, channel, AS_TEXT, name + CRLF, p);
    WordBeforeFound(c, name, CRLF, [], p);
  }

  /** MSG, ERR and BYE are no AUTH or JOIN. */
  lemma ReadAsDecoded(s: seq<byte>)
    requires EndsInLineEnd(s) && s[0] != 65 && s[0] != 74
    ensures TcpRead(s) == TcpDecode(s)
  {
    FirstByte(s, 0, AUTH_TEXT);
    FirstByte(s, 0, JOIN_TEXT);
  }
}
