/**
 * Reading messages back: disassebleProtocolUDP and disassebleProtocolTCP on byte sequences, and the
 * round trips with what the assemblers write.
 */
module Decoding {
  import opened Basics
  import opened Commands
  import opened Scanning
  import opened Formats
  import MessageIds

  /** A disassembled message: its type, the decoded id (UDP), and its parts in order. */
  datatype Decoded = Decoded(kind: byte, msgId: u16, ok: bool, zeroth: seq<byte>, first: seq<byte>, second: seq<byte>)

  const CORRUPTED: byte := 0xAB

  /** There are `n` more zero bytes from `from` on, so that `n` fields can be scanned. */
  predicate Delimited(s: seq<byte>, from: nat, n: nat)
    decreases n
  {
    n == 0 ||
    (from <= |s| && (var r := Scan(IsNul, s, from, |s| - from); r >= 0 && Delimited(s, from + r + 1, n - 1)))
  }

  /** The datagrams the disassembler can read without leaving the received bytes. */
  predicate WholeDatagram(s: seq<byte>) {
    |s| >= 3 &&
    var kind := MsgTypeOf(s[0]);
    (kind == REPLY ==> |s| >= 6)
    && (kind == AUTH ==> Delimited(s, 3, 3))
    && (kind in {MSG, JOIN, ERR} ==> Delimited(s, 3, 2))
  }

  // ---------------------------------------------------------------------------
  //  UDP
  // ---------------------------------------------------------------------------

  /** disassebleProtocolUDP; None where an empty field makes findZeroInString end the program. */
  function UdpDecode(signedChar: bool, s: seq<byte>): Option<Decoded>
    requires WholeDatagram(s)
  {
    var kind := MsgTypeOf(s[0]);
    var id := MessageIds.Decode(signedChar, s[1], s[2]);
    if kind == REPLY then UdpDecodeReply(s, id)
    else if kind == AUTH then UdpDecodeAuth(s, id)
    else if kind in {MSG, JOIN, ERR} then UdpDecodePair(s, kind, id)
    else Some(Decoded(kind, id, false, [], [], []))
  }

  function UdpDecodeReply(s: seq<byte>, id: u16): Option<Decoded>
    requires |s| >= 6
  {
    match FindZero(s, 6, |s| - 6)
    case None => None
    case Some(n) => Some(Decoded(REPLY, id, s[3] == 1, [s[3]], s[4..6], s[6..6 + n]))
  }

  function UdpDecodePair(s: seq<byte>, kind: byte, id: u16): Option<Decoded>
    requires |s| >= 3 && Delimited(s, 3, 2)
  {
    match FindZero(s, 3, |s| - 3)
    case None => None
    case Some(n) =>
      match FindZero(s, 3 + n + 1, |s| - (3 + n))
      case None => None
      case Some(m) =>
        DelimitedSecond(s, n, m);
        Some(Decoded(kind, id, false, s[3..3 + n], s[4 + n..4 + n + m], []))
  }

  /** After a field found by the scanner, the rest is still delimited. */
  lemma DelimitedNext(s: seq<byte>, from: nat, n: nat, len: nat, z: nat)
    requires n > 0 && Delimited(s, from, n) && len >= |s| - from && FindZero(s, from, len) == Some(z)
    ensures from + z + 1 <= |s| && Delimited(s, from + z + 1, n - 1)
  {
    var r := Scan(IsNul, s, from, |s| - from);
    ScanHit(IsNul, s, from, len, r);
  }

  lemma {:induction false} DelimitedSecond(s: seq<byte>, n: nat, m: nat)
    requires |s| >= 3 && Delimited(s, 3, 2)
    requires FindZero(s, 3, |s| - 3) == Some(n) && FindZero(s, 3 + n + 1, |s| - (3 + n)) == Some(m)
    ensures 4 + n + m < |s|
  {
    hide FindZero, Delimited;
    DelimitedNext(s, 3, 2, |s| - 3, n);
    DelimitedNext(s, 4 + n, 1, |s| - (3 + n), m);
  }

  function UdpDecodeAuth(s: seq<byte>, id: u16): Option<Decoded>
    requires |s| >= 3 && Delimited(s, 3, 3)
  {
    match FindZero(s, 3, |s| - 3)
    case None => None
    case Some(n) =>
      match FindZero(s, 3 + n + 1, |s| - (3 + n))
      case None => None
      case Some(m) =>
        match FindZero(s, 3 + n + 1 + m + 1, |s| - (3 + n + m))
        case None => None
        case Some(k) =>
          DelimitedThird(s, n, m, k);
          Some(Decoded(AUTH, id, false, s[3..3 + n], s[4 + n..4 + n + m], s[5 + n + m..5 + n + m + k]))
  }

  lemma {:induction false} DelimitedThird(s: seq<byte>, n: nat, m: nat, k: nat)
    requires |s| >= 3 && Delimited(s, 3, 3)
    requires FindZero(s, 3, |s| - 3) == Some(n) && FindZero(s, 3 + n + 1, |s| - (3 + n)) == Some(m)
    requires FindZero(s, 5 + n + m, |s| - (3 + n + m)) == Some(k)
    ensures 5 + n + m + k < |s|
  {
    hide FindZero, Delimited;
    DelimitedNext(s, 3, 3, |s| - 3, n);
    DelimitedNext(s, 4 + n, 2, |s| - (3 + n), m);
    DelimitedNext(s, 5 + n + m, 1, |s| - (3 + n + m), k);
  }

  /** One of the next `n` fields is empty. */
  predicate EmptyAmong(s: seq<byte>, from: nat, n: nat)
    requires Delimited(s, from, n)
    decreases n
  {
    n > 0 && (s[from] == NUL || EmptyAmong(s, from + Scan(IsNul, s, from, |s| - from) + 1, n - 1))
  }

  /** A message with an empty field; the contents of a REPLY may end with the datagram. */
  predicate EmptyField(s: seq<byte>)
    requires WholeDatagram(s)
  {
    var kind := MsgTypeOf(s[0]);
    if kind == REPLY then |s| == 6 || s[6] == NUL
    else if kind == AUTH then EmptyAmong(s, 3, 3)
    else kind in {MSG, JOIN, ERR} && EmptyAmong(s, 3, 2)
  }

  /** What the scanner says about the next field. */
  lemma {:induction false} NextField(s: seq<byte>, from: nat, n: nat, len: nat)
    requires n > 0 && Delimited(s, from, n) && len >= |s| - from
    ensures from < |s| && FindZero(s, from, len)
      == (if s[from] == NUL then None else Some(Scan(IsNul, s, from, |s| - from)))
  {
    ScanHit(IsNul, s, from, len, Scan(IsNul, s, from, |s| - from));
  }

  /** Exactly: disassembling ends the program if and only if a field of the message is empty. */
  lemma {:induction false} DecodeFails(signedChar: bool, s: seq<byte>)
    requires WholeDatagram(s)
    ensures UdpDecode(signedChar, s).None? <==> EmptyField(s)
  {
    var kind := MsgTypeOf(s[0]);
    if kind == AUTH {
      AuthFails(s, MessageIds.Decode(signedChar, s[1], s[2]));
    } else if kind in {MSG, JOIN, ERR} {
      PairFails(s, kind, MessageIds.Decode(signedChar, s[1], s[2]));
    }
  }

  /** Two fields: the second one is scanned for from the byte behind the first. */
  lemma {:induction false} PairEmpty(s: seq<byte>, from: nat, len: nat)
    requires Delimited(s, from, 2) && len >= |s| - from
    ensures match FindZero(s, from, len)
      case None => EmptyAmong(s, from, 2)
      case Some(n) => n <= len && (FindZero(s, from + n + 1, len - n).None? <==> EmptyAmong(s, from, 2))
  {
    hide FindZero, Scan;
    NextField(s, from, 2, len);
    if s[from] != NUL {
      var n := Scan(IsNul, s, from, |s| - from);
      NextField(s, from + n + 1, 1, len - n);
      assert EmptyAmong(s, from + n + 1, 1) <==> s[from + n + 1] == NUL;
    }
  }

  lemma {:induction false} PairFails(s: seq<byte>, kind: byte, id: u16)
    requires |s| >= 3 && Delimited(s, 3, 2)
    ensures UdpDecodePair(s, kind, id).None? <==> EmptyAmong(s, 3, 2)
  {
    hide FindZero, EmptyAmong;
    PairEmpty(s, 3, |s| - 3);
  }

  lemma {:induction false} AuthFails(s: seq<byte>, id: u16)
    requires |s| >= 3 && Delimited(s, 3, 3)
    ensures UdpDecodeAuth(s, id).None? <==> EmptyAmong(s, 3, 3)
  {
    hide FindZero, Scan;
    NextField(s, 3, 3, |s| - 3);
    if s[3] != NUL { AuthTailFails(s, id, Scan(IsNul, s, 3, |s| - 3)); }
  }

  /** The same behind a first field of length `n`. */
  lemma {:induction false} AuthTailFails(s: seq<byte>, id: u16, n: nat)
    requires |s| >= 3 && Delimited(s, 3, 3) && FindZero(s, 3, |s| - 3) == Some(n) && Delimited(s, 4 + n, 2)
    requires 3 + n <= |s|
    ensures UdpDecodeAuth(s, id).None? <==> EmptyAmong(s, 4 + n, 2)
  {
    hide FindZero, EmptyAmong, Delimited;
    PairEmpty(s, 4 + n, |s| - (3 + n));
  }

  predicate NulFree(s: seq<byte>) { forall i :: 0 <= i < |s| ==> s[i] != NUL }

  /** `field` and its zero byte stand at position `at`. */
  predicate FieldAt(s: seq<byte>, at: nat, field: seq<byte>) {
    at + |field| < |s| && s[at..at + |field|] == field && s[at + |field|] == NUL
  }

  /** A field followed by its zero byte, anywhere in a message, is found by the scanner. */
  lemma FieldFound(s: seq<byte>, at: nat, field: seq<byte>, limit: nat)
    requires FieldAt(s, at, field) && field != [] && NulFree(field) && limit > |field|
    ensures FindZero(s, at, limit) == Some(|field|)
  {
    assert forall k :: at <= k < at + |field| ==> s[k] == s[at..at + |field|][k - at];
    ScanHit(IsNul, s, at, limit, |field|);
  }

  lemma FieldDelimits(s: seq<byte>, at: nat, field: seq<byte>, n: nat)
    requires FieldAt(s, at, field) && NulFree(field)
    requires Delimited(s, at + |field| + 1, n)
    ensures Delimited(s, at, n + 1)
  {
    assert forall k :: at <= k < at + |field| ==> s[k] == s[at..at + |field|][k - at];
    ScanHit(IsNul, s, at, |s| - at, |field|);
  }

  lemma FieldPlaced(before: seq<byte>, field: seq<byte>, after: seq<byte>, s: seq<byte>)
    requires s == before + Field(field) + after
    ensures FieldAt(s, |before|, field)
  {}

  /** UDP round trip for JOIN, MSG and ERR, with any id bytes. */
  lemma UdpPairRoundTrip(signedChar: bool, kind: byte, id: Id, zeroth: seq<byte>, first: seq<byte>)
    requires kind in {MSG, JOIN, ERR}
    requires zeroth != [] && NulFree(zeroth) && first != [] && NulFree(first)
    ensures var p := UdpPair(kind, id, zeroth, first);
      WholeDatagram(p)
      && UdpDecode(signedChar, p)
         == Some(Decoded(kind, MessageIds.Decode(signedChar, id.low, id.high), false, zeroth, first, []))
  {
    hide FindZero;
    hide Delimited;
    hide UdpDecodePair;
    var p := UdpPair(kind, id, zeroth, first);
    var head := UdpHeader(kind, id);
    FieldPlaced(head, zeroth, Field(first), p);
    FieldPlaced(head + Field(zeroth), first, [], p);
    FieldDelimits(p, 4 + |zeroth|, first, 0);
    FieldDelimits(p, 3, zeroth, 1);
    FieldFound(p, 3, zeroth, |p| - 3);
    FieldFound(p, 4 + |zeroth|, first, |p| - (3 + |zeroth|));
    PairDecoded(p, kind, MessageIds.Decode(signedChar, id.low, id.high), zeroth, first);
  }

  lemma {:induction false} PairDecoded(p: seq<byte>, kind: byte, id: u16, zeroth: seq<byte>, first: seq<byte>)
    requires |p| >= 3 && Delimited(p, 3, 2)
    requires FieldAt(p, 3, zeroth) && FieldAt(p, 4 + |zeroth|, first)
    requires FindZero(p, 3, |p| - 3) == Some(|zeroth|)
    requires FindZero(p, 4 + |zeroth|, |p| - (3 + |zeroth|)) == Some(|first|)
    ensures UdpDecodePair(p, kind, id) == Some(Decoded(kind, id, false, zeroth, first, []))
  {
    hide FindZero;
    hide Delimited;
  }

  /** UDP round trip for AUTH: user name, display name, secret. */
  lemma UdpAuthRoundTrip(signedChar: bool, id: Id, user: seq<byte>, name: seq<byte>, secret: seq<byte>)
    requires user != [] && NulFree(user) && name != [] && NulFree(name) && secret != [] && NulFree(secret)
    ensures var p := UdpAuth(id, user, name, secret);
      WholeDatagram(p)
      && UdpDecode(signedChar, p)
         == Some(Decoded(AUTH, MessageIds.Decode(signedChar, id.low, id.high), false, user, name, secret))
  {
    hide FindZero;
    hide Delimited;
    hide UdpDecodeAuth;
    var p := UdpAuth(id, user, name, secret);
    var head := UdpHeader(AUTH, id);
    var u, n := |user|, |name|;
    FieldPlaced(head, user, Field(name) + Field(secret), p);
    FieldPlaced(head + Field(user), name, Field(secret), p);
    FieldPlaced(head + Field(user) + Field(name), secret, [], p);
    AuthDelimited(p, user, name, secret);
    FieldFound(p, 3, user, |p| - 3);
    FieldFound(p, 4 + u, name, |p| - (3 + u));
    FieldFound(p, 5 + u + n, secret, |p| - (3 + u + n));
    AuthDecoded(p, MessageIds.Decode(signedChar, id.low, id.high), user, name, secret);
  }

  lemma {:induction false} AuthDelimited(p: seq<byte>, user: seq<byte>, name: seq<byte>, secret: seq<byte>)
    requires NulFree(user) && NulFree(name) && NulFree(secret)
    requires FieldAt(p, 3, user) && FieldAt(p, 4 + |user|, name) && FieldAt(p, 5 + |user| + |name|, secret)
    ensures Delimited(p, 3, 3)
  {
    FieldDelimits(p, 5 + |user| + |name|, secret, 0);
    FieldDelimits(p, 4 + |user|, name, 1);
    FieldDelimits(p, 3, user, 2);
  }

  lemma {:induction false} AuthDecoded(p: seq<byte>, id: u16, user: seq<byte>, name: seq<byte>, secret: seq<byte>)
    requires |p| >= 3 && Delimited(p, 3, 3)
    requires FieldAt(p, 3, user) && FieldAt(p, 4 + |user|, name) && FieldAt(p, 5 + |user| + |name|, secret)
    requires FindZero(p, 3, |p| - 3) == Some(|user|)
    requires FindZero(p, 4 + |user|, |p| - (3 + |user|)) == Some(|name|)
    requires FindZero(p, 5 + |user| + |name|, |p| - (3 + |user| + |name|)) == Some(|secret|)
    ensures UdpDecodeAuth(p, id) == Some(Decoded(AUTH, id, false, user, name, secret))
  {
    hide FindZero;
    hide Delimited;
  }

  /** A REPLY of a server: result, the id it refers to, contents. It is positive exactly for the result 1. */
  lemma UdpReplyRoundTrip(signedChar: bool, id: Id, result: byte, ref: Id, text: seq<byte>)
    requires text != [] && NulFree(text)
    ensures var p := UdpReply(id, result, ref, text);
      WholeDatagram(p)
      && UdpDecode(signedChar, p)
         == Some(Decoded(REPLY, MessageIds.Decode(signedChar, id.low, id.high), result == 1,
                         [result], [ref.low, ref.high], text))
  {
    hide FindZero;
    var p, head := UdpReply(id, result, ref, text), UdpHeader(REPLY, id) + [result, ref.low, ref.high];
    FieldPlaced(head, text, [], p);
    FieldFound(p, 6, text, |p| - 6);
    assert p[..6] == head && p[3..4] == [result] && p[4..6] == [ref.low, ref.high];
  }

  /** CONFIRM and BYE are their headers. */
  lemma UdpHeaderRoundTrip(signedChar: bool, id: Id)
    ensures WholeDatagram(UdpConfirm(id)) && WholeDatagram(UdpBye(id))
    ensures var n := MessageIds.Decode(signedChar, id.low, id.high);
      && UdpDecode(signedChar, UdpConfirm(id)) == Some(Decoded(CONF, n, false, [], [], []))
      && UdpDecode(signedChar, UdpBye(id)) == Some(Decoded(BYE, n, false, [], [], []))
  {}

  /** Stamping an id changes nothing but the decoded id. */
  lemma StampedPair(kind: byte, id: Id, zeroth: seq<byte>, first: seq<byte>, c: u16)
    ensures Stamp(UdpPair(kind, id, zeroth, first), c)
         == UdpPair(kind, Id(MessageIds.Low(c), MessageIds.High(c)), zeroth, first)
  {}

  lemma StampedAuth(id: Id, user: seq<byte>, name: seq<byte>, secret: seq<byte>, c: u16)
    ensures Stamp(UdpAuth(id, user, name, secret), c)
         == UdpAuth(Id(MessageIds.Low(c), MessageIds.High(c)), user, name, secret)
  {}

  /** What a receiver reads after the id of counter `c` was stamped into a message. */
  predicate ReadsCounter(signedChar: bool, d: Option<Decoded>, c: u16, kind: byte,
                         zeroth: seq<byte>, first: seq<byte>, second: seq<byte>) {
    && d.Some? && d.value.kind == kind
    && d.value.zeroth == zeroth && d.value.first == first && d.value.second == second
    && (d.value.msgId == c <==> !signedChar || MessageIds.Low(c) < 128)
  }

  /**
   * UDP round trip of a stamped JOIN, MSG or ERR, whatever id bytes it held before: kind and fields come
   * back, and so does the counter, unless `char` is signed and its low byte is 0x80 or more.
   */
  lemma StampedPairRoundTrip(signedChar: bool, kind: byte, id: Id, zeroth: seq<byte>, first: seq<byte>, c: u16)
    requires kind in {MSG, JOIN, ERR}
    requires zeroth != [] && NulFree(zeroth) && first != [] && NulFree(first)
    ensures var p := Stamp(UdpPair(kind, id, zeroth, first), c);
      WholeDatagram(p) && ReadsCounter(signedChar, UdpDecode(signedChar, p), c, kind, zeroth, first, [])
  {
    hide UdpDecode, WholeDatagram, MessageIds.Decode, UdpPair;
    var stamped := Id(MessageIds.Low(c), MessageIds.High(c));
    StampedPair(kind, id, zeroth, first, c);
    UdpPairRoundTrip(signedChar, kind, stamped, zeroth, first);
    MessageIds.DecodedCounter(signedChar, c);
  }

  lemma StampedAuthRoundTrip(signedChar: bool, id: Id, user: seq<byte>, name: seq<byte>, secret: seq<byte>, c: u16)
    requires user != [] && NulFree(user) && name != [] && NulFree(name) && secret != [] && NulFree(secret)
    ensures var p := Stamp(UdpAuth(id, user, name, secret), c);
      WholeDatagram(p) && ReadsCounter(signedChar, UdpDecode(signedChar, p), c, AUTH, user, name, secret)
  {
    hide UdpDecode, WholeDatagram, MessageIds.Decode, UdpAuth;
    var stamped := Id(MessageIds.Low(c), MessageIds.High(c));
    StampedAuth(id, user, name, secret, c);
    UdpAuthRoundTrip(signedChar, stamped, user, name, secret);
    MessageIds.DecodedCounter(signedChar, c);
  }

  // ---------------------------------------------------------------------------
  //  TCP
  // ---------------------------------------------------------------------------

  /** strncmp(s + from, text, |text|) == 0, for texts without zero bytes. */
  predicate StartsAt(s: seq<byte>, from: nat, text: seq<byte>) {
    from + |text| <= |s| && s[from..from + |text|] == text
  }

  /** The bytes the TCP scanners may read are all there: a received line ends in a line end. */
  predicate EndsInLineEnd(s: seq<byte>) { |s| > 0 && IsLineEnd(s[|s| - 1]) }

  /** Display name up to a blank, " IS ", contents up to the end of the line. */
  function TcpDecodePair(s: seq<byte>, kind: byte): Decoded
    requires |s| > 9 && EndsInLineEnd(s)
  {
    var n := FindBlankChar(s, 9, |s| - 9);
    if n < 0 || !StartsAt(s, 9 + n, IS_TEXT) then Decoded(CORRUPTED, 0, false, [], [], [])
    else
      var start := 9 + n + 4;
      var m := FindNewLine(s, start, |s| - 9 - n);
      if m < 0 then Decoded(CORRUPTED, 0, false, [], [], [])
      else Decoded(kind, 0, false, s[9..9 + n], s[start..start + m], [])
  }

  lemma LongerThanStart(s: seq<byte>)
    requires EndsInLineEnd(s)
    ensures StartsAt(s, 0, MSG_FROM_TEXT) || StartsAt(s, 0, ERR_FROM_TEXT) ==> |s| > 9
  {
    if |s| == 9 { assert s[0..9][8] == s[8]; }
  }

  /** disassebleProtocolTCP, without the contents of a REPLY. */
  function TcpDecode(s: seq<byte>): Decoded
    requires EndsInLineEnd(s)
  {
    LongerThanStart(s);
    if StartsAt(s, 0, MSG_FROM_TEXT) then TcpDecodePair(s, MSG)
    else if StartsAt(s, 0, REPLY_TEXT) then
      if StartsAt(s, 6, OK_IS_TEXT) then Decoded(REPLY, 0, true, [], [], [])
      else if StartsAt(s, 6, NOK_IS_TEXT) then Decoded(REPLY, 0, false, [], [], [])
      else Decoded(CORRUPTED, 0, false, [], [], [])
    else if StartsAt(s, 0, BYE_TEXT) then Decoded(BYE, 0, false, [], [], [])
    else if StartsAt(s, 0, ERR_FROM_TEXT) then TcpDecodePair(s, ERR)
    else Decoded(UNKNOWN, 0, false, [], [], [])
  }

  /** The line scanner never runs out: the branch for -1 in TcpDecodePair is not taken after " IS ". */
  lemma LineEndFound(s: seq<byte>, n: nat)
    requires EndsInLineEnd(s) && |s| >= 9 && FindBlankChar(s, 9, |s| - 9) == n && StartsAt(s, 9 + n, IS_TEXT)
    ensures FindNewLine(s, 9 + n + 4, |s| - 9 - n) >= 0
  {
    assert IS_TEXT[3] == s[9 + n..9 + n + 4][3];
    assert 9 + n + 4 < |s|;
    assert IsLineEnd(s[|s| - 1]);
  }

  predicate WordEndFree(s: seq<byte>) { forall i :: 0 <= i < |s| ==> !IsWordEnd(s[i]) }

  predicate LineEndFree(s: seq<byte>) { forall i :: 0 <= i < |s| ==> !IsLineEnd(s[i]) }

  /** TCP round trip for MSG and ERR; the contents may contain blanks, even " IS ". */
  lemma TcpPairRoundTrip(kind: byte, name: seq<byte>, text: seq<byte>)
    requires kind == MSG || kind == ERR
    requires WordEndFree(name) && LineEndFree(text)
    ensures var p := TcpPair(if kind == MSG then MSG_FROM_TEXT else ERR_FROM_TEXT, name, text);
      EndsInLineEnd(p) && TcpDecode(p) == Decoded(kind, 0, false, name, text, [])
  {
    hide TcpDecodePair;
    hide FindBlankChar;
    hide FindNewLine;
    var start := if kind == MSG then MSG_FROM_TEXT else ERR_FROM_TEXT;
    var p := TcpPair(start, name, text);
    TcpPlaced(start, name, text, p);
    TcpStart(kind, p);
    TcpNameFound(start, name, IS_TEXT + text + CRLF, p);
    TcpTextFound(start + name + IS_TEXT, text, p, |p| - 9 - |name|);
    TcpPairDecoded(p, kind, name, text);
  }

  /** Where the parts of a TCP message are. */
  predicate TcpPartsAt(p: seq<byte>, name: seq<byte>, text: seq<byte>) {
    && 13 + |name| + |text| < |p|
    && p[9..9 + |name|] == name && p[9 + |name|..13 + |name|] == IS_TEXT
    && p[13 + |name|..13 + |name| + |text|] == text
  }

  lemma TcpPlaced(start: seq<byte>, name: seq<byte>, text: seq<byte>, p: seq<byte>)
    requires |start| == 9 && p == start + name + IS_TEXT + text + CRLF
    ensures p[0..9] == start && TcpPartsAt(p, name, text) && EndsInLineEnd(p)
    ensures p == start + name + (IS_TEXT + text + CRLF)
  {}

  lemma TcpPairDecoded(p: seq<byte>, kind: byte, name: seq<byte>, text: seq<byte>)
    requires EndsInLineEnd(p) && TcpPartsAt(p, name, text)
    requires FindBlankChar(p, 9, |p| - 9) == |name|
    requires FindNewLine(p, 13 + |name|, |p| - 9 - |name|) == |text|
    ensures TcpDecodePair(p, kind) == Decoded(kind, 0, false, name, text, [])
  {
    hide FindBlankChar;
    hide FindNewLine;
  }

  lemma TcpNameFound(start: seq<byte>, name: seq<byte>, rest: seq<byte>, p: seq<byte>)
    requires p == start + name + rest && |start| == 9 && rest != [] && rest[0] == SPACE && WordEndFree(name)
    ensures FindBlankChar(p, 9, |p| - 9) == |name|
  {
    assert forall k :: 9 <= k < 9 + |name| ==> p[k] == name[k - 9];
    ScanHit(IsWordEnd, p, 9, |p| - 9 + 1, |name|);
  }

  lemma TcpTextFound(before: seq<byte>, text: seq<byte>, p: seq<byte>, len: nat)
    requires p == before + text + CRLF && LineEndFree(text) && len >= |text|
    ensures FindNewLine(p, |before|, len) == |text|
  {
    assert forall k :: |before| <= k < |before| + |text| ==> p[k] == text[k - |before|];
    ScanHit(IsLineEnd, p, |before|, len + 1, |text|);
  }

  /** The first words of the TCP formats exclude each other. */
  lemma TcpStart(kind: byte, p: seq<byte>)
    requires kind == MSG || kind == ERR
    requires StartsAt(p, 0, if kind == MSG then MSG_FROM_TEXT else ERR_FROM_TEXT) && EndsInLineEnd(p)
    ensures |p| > 9 && TcpDecode(p) == TcpDecodePair(p, kind)
  {
    LongerThanStart(p);
    if kind == ERR {
      assert p[0] == p[0..9][0] == 69;
      assert !StartsAt(p, 0, MSG_FROM_TEXT) by { if |p| >= 9 { assert p[0..9][0] == 69 != MSG_FROM_TEXT[0]; } }
      assert !StartsAt(p, 0, REPLY_TEXT) by { if |p| >= 6 { assert p[0..6][0] == 69 != REPLY_TEXT[0]; } }
      assert !StartsAt(p, 0, BYE_TEXT) by { if |p| >= 3 { assert p[0..3][0] == 69 != BYE_TEXT[0]; } }
    }
  }

  lemma TcpByeRoundTrip()
    ensures EndsInLineEnd(TcpBye()) && TcpDecode(TcpBye()) == Decoded(BYE, 0, false, [], [], [])
  {
    var p := TcpBye();
    assert p == [66, 89, 69, 13, 10];
    assert p[0..3] == BYE_TEXT;
  }

  // ---------------------------------------------------------------------------
  //  Both formats
  // ---------------------------------------------------------------------------

  /** The characters of valid words keep them apart from every delimiter of the two formats. */
  lemma ValidWordsDelimit(name: seq<byte>, text: seq<byte>)
    requires ValidName(name) && ValidText(text)
    ensures NulFree(name) && WordEndFree(name) && NulFree(text) && LineEndFree(text)
  {}

  /** A valid display name and message come back unchanged from UDP and from TCP: the formats agree. */
  lemma FormatsAgree(signedChar: bool, id: Id, name: seq<byte>, text: seq<byte>)
    requires ValidName(name) && ValidText(text)
    ensures var u, t := UdpPair(MSG, id, name, text), TcpPair(MSG_FROM_TEXT, name, text);
      && WholeDatagram(u) && EndsInLineEnd(t)
      && UdpDecode(signedChar, u).Some?
      && UdpDecode(signedChar, u).value.kind == TcpDecode(t).kind == MSG
      && UdpDecode(signedChar, u).value.zeroth == TcpDecode(t).zeroth == name
      && UdpDecode(signedChar, u).value.first == TcpDecode(t).first == text
  {
    ValidWordsDelimit(name, text);
    UdpPairRoundTrip(signedChar, MSG, id, name, text);
    TcpPairRoundTrip(MSG, name, text);
  }
}
