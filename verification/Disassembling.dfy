/** disassebleProtocolUDP and disassebleProtocolTCP on the receive buffer. */
module Disassembling {
  import opened Basics
  import opened Scanning
  import opened Formats
  import opened Decoding
  import MessageIds

  /** A scan that stops within the first `n` bytes does not depend on the bytes after them. */
  lemma {:induction false} ScanPrefix(stop: byte -> bool, s: seq<byte>, n: nat, from: nat, limit: nat)
    requires n <= |s| && exists k :: from <= k < n && stop(s[k])
    ensures Scan(stop, s, from, limit) == Scan(stop, s[..n], from, limit)
    decreases limit
  {
    if limit > 0 && from < n && !stop(s[from]) {
      var k :| from <= k < n && stop(s[k]);
      assert from + 1 <= k;
      ScanPrefix(stop, s, n, from + 1, limit - 1);
    }
  }

  lemma {:induction false} DelimitedStops(s: seq<byte>, from: nat, n: nat)
    requires n > 0 && Delimited(s, from, n)
    ensures from < |s| && exists k :: from <= k < |s| && IsNul(s[k])
  {
    var r := Scan(IsNul, s, from, |s| - from);
    assert IsNul(s[from + r]);
  }

  /** findZeroInString inside a received message of `used` bytes. */
  method FindZeroWithin(s: array<byte>, used: nat, from: nat, len: nat, ghost n: nat) returns (r: Option<nat>)
    requires used <= s.Length && n > 0 && Delimited(s[..used], from, n)
    ensures r == FindZero(s[..used], from, len)
  {
    ghost var received := s[..used];
    DelimitedStops(received, from, n);
    ghost var k :| from <= k < used && IsNul(received[k]);
    assert IsNul(s[..][k]);
    assert s[..][..used] == received;
    r := FindZeroInString(s, from, len);
    ScanPrefix(IsNul, s[..], used, from, len);
  }

  /** findBlankCharInString inside a received line of `used` bytes. */
  method FindBlankWithin(s: array<byte>, used: nat, from: nat, len: nat) returns (r: int)
    requires from < used <= s.Length && EndsInLineEnd(s[..used])
    ensures r == FindBlankChar(s[..used], from, len) && from + r < used
  {
    assert s[..][..used] == s[..used] && IsWordEnd(s[..used][used - 1]) && IsWordEnd(s[..][used - 1]);
    r := FindBlankCharInString(s, from, len);
    ScanPrefix(IsWordEnd, s[..], used, from, len + 1);
  }

  method FindNewLineWithin(s: array<byte>, used: nat, from: nat, len: nat) returns (r: int)
    requires from < used <= s.Length && EndsInLineEnd(s[..used])
    ensures r == FindNewLine(s[..used], from, len) && from + r < used
  {
    assert s[..][..used] == s[..used] && IsLineEnd(s[..used][used - 1]) && IsLineEnd(s[..][used - 1]);
    r := FindNewLineInString(s, from, len);
    ScanPrefix(IsLineEnd, s[..], used, from, len + 1);
  }

  /** Returns None where an empty field ends the program. */
  method DisassembleUdp(signedChar: bool, s: array<byte>, used: nat) returns (r: Option<Decoded>)
    requires used <= s.Length && WholeDatagram(s[..used])
    ensures r == UdpDecode(signedChar, s[..used])
  {
    hide FindZero;
    ghost var p := s[..used];
    var kind := MsgTypeOf(s[0]);
    var id := MessageIds.Decode(signedChar, s[1], s[2]);
    if kind == REPLY {
      r := DisassembleReply(s, used, id);
    } else if kind == AUTH {
      r := DisassembleAuth(s, used, id);
    } else if kind in {MSG, JOIN, ERR} {
      r := DisassemblePair(s, used, kind, id);
    } else {
      r := Some(Decoded(kind, id, false, [], [], []));
    }
  }

  /** The contents of a REPLY run to the first zero, or to the end of the message. */
  method DisassembleReply(s: array<byte>, used: nat, id: u16) returns (r: Option<Decoded>)
    requires 6 <= used <= s.Length
    ensures r == UdpDecodeReply(s[..used], id)
  {
    hide FindZero;
    ghost var p := s[..used];
    var n := FindZeroInString(s, 6, used - 6);
    FindZeroSame(s[..], used, 6, used - 6);
    assert s[..][..used] == p;
    if n.None? {
      return None;
    }
    SamePart(s, used, 4, 2);
    SamePart(s, used, 6, n.value);
    r := Some(Decoded(REPLY, id, s[3] == 1, [s[3]], s[4..6], s[6..6 + n.value]));
  }

  lemma FindZeroSame(s: seq<byte>, n: nat, from: nat, len: nat)
    requires from + len <= n <= |s|
    ensures FindZero(s, from, len) == FindZero(s[..n], from, len)
    ensures FindZero(s, from, len).Some? ==> FindZero(s, from, len).value <= len
  {
    ScanWithin(IsNul, s, n, from, len);
  }

  /** A scan limited to the first `n` bytes does not depend on the bytes after them. */
  lemma {:induction false} ScanWithin(stop: byte -> bool, s: seq<byte>, n: nat, from: nat, limit: nat)
    requires from + limit <= n <= |s|
    ensures Scan(stop, s, from, limit) == Scan(stop, s[..n], from, limit)
    decreases limit
  {
    if limit > 0 { ScanWithin(stop, s, n, from + 1, limit - 1); }
  }

  method DisassemblePair(s: array<byte>, used: nat, kind: byte, id: u16) returns (r: Option<Decoded>)
    requires 3 <= used <= s.Length && Delimited(s[..used], 3, 2)
    ensures r == UdpDecodePair(s[..used], kind, id)
  {
    hide FindZero;
    hide Delimited;
    ghost var p := s[..used];
    var zeroth := FindZeroWithin(s, used, 3, used - 3, 2);
    if zeroth.None? {
      return None;
    }
    var n := zeroth.value;
    DelimitedNext(p, 3, 2, used - 3, n);
    var first := FindZeroWithin(s, used, 4 + n, used - (3 + n), 1);
    if first.None? {
      return None;
    }
    var m := first.value;
    DelimitedSecond(p, n, m);
    SamePart(s, used, 3, n);
    SamePart(s, used, 4 + n, m);
    r := Some(Decoded(kind, id, false, s[3..3 + n], s[4 + n..4 + n + m], []));
  }

  lemma SamePart(s: array<byte>, used: nat, from: nat, len: nat)
    requires from + len <= used <= s.Length
    ensures s[from..from + len] == s[..used][from..from + len]
  {}

  method DisassembleAuth(s: array<byte>, used: nat, id: u16) returns (r: Option<Decoded>)
    requires 3 <= used <= s.Length && Delimited(s[..used], 3, 3)
    ensures r == UdpDecodeAuth(s[..used], id)
  {
    hide FindZero;
    hide Delimited;
    ghost var p := s[..used];
    var user := FindZeroWithin(s, used, 3, used - 3, 3);
    if user.None? {
      return None;
    }
    var n := user.value;
    DelimitedNext(p, 3, 3, used - 3, n);
    var name := FindZeroWithin(s, used, 4 + n, used - (3 + n), 2);
    if name.None? {
      return None;
    }
    var m := name.value;
    DelimitedNext(p, 4 + n, 2, used - (3 + n), m);
    var secret := FindZeroWithin(s, used, 5 + n + m, used - (3 + n + m), 1);
    if secret.None? {
      return None;
    }
    var k := secret.value;
    DelimitedThird(p, n, m, k);
    SamePart(s, used, 3, n);
    SamePart(s, used, 4 + n, m);
    SamePart(s, used, 5 + n + m, k);
    r := Some(Decoded(AUTH, id, false, s[3..3 + n], s[4 + n..4 + n + m], s[5 + n + m..5 + n + m + k]));
  }

  // ---------------------------------------------------------------------------
  //  TCP
  // ---------------------------------------------------------------------------

  method DisassembleTcpPair(s: array<byte>, used: nat, kind: byte) returns (r: Decoded)
    requires 9 < used <= s.Length && EndsInLineEnd(s[..used])
    ensures r == TcpDecodePair(s[..used], kind)
  {
    hide FindBlankChar;
    hide FindNewLine;
    ghost var p := s[..used];
    var n := FindBlankWithin(s, used, 9, used - 9);
    if n < 0 || !StartsAt(s[..used], 9 + n, IS_TEXT) {
      return Decoded(CORRUPTED, 0, false, [], [], []);
    }
    LineEndFound(p, n);
    TextInside(p, n);
    var m := FindNewLineWithin(s, used, 13 + n, used - 9 - n);
    SamePart(s, used, 9, n);
    SamePart(s, used, 13 + n, m);
    r := Decoded(kind, 0, false, s[9..9 + n], s[13 + n..13 + n + m], []);
  }

  /** A line does not end in " IS ". */
  lemma TextInside(p: seq<byte>, n: nat)
    requires EndsInLineEnd(p) && StartsAt(p, 9 + n, IS_TEXT)
    ensures 13 + n < |p|
  {
    assert p[13 + n - 1] == p[9 + n..13 + n][3];
  }

  method DisassembleTcp(s: array<byte>, used: nat) returns (r: Decoded)
    requires used <= s.Length && EndsInLineEnd(s[..used])
    ensures r == TcpDecode(s[..used])
  {
    hide TcpDecodePair;
    LongerThanStart(s[..used]);
    if StartsAt(s[..used], 0, MSG_FROM_TEXT) {
      r := DisassembleTcpPair(s, used, MSG);
    } else if StartsAt(s[..used], 0, REPLY_TEXT) {
      if StartsAt(s[..used], 6, OK_IS_TEXT) {
        r := Decoded(REPLY, 0, true, [], [], []);
      } else if StartsAt(s[..used], 6, NOK_IS_TEXT) {
        r := Decoded(REPLY, 0, false, [], [], []);
      } else {
        r := Decoded(CORRUPTED, 0, false, [], [], []);
      }
    } else if StartsAt(s[..used], 0, BYE_TEXT) {
      r := Decoded(BYE, 0, false, [], [], []);
    } else if StartsAt(s[..used], 0, ERR_FROM_TEXT) {
      r := DisassembleTcpPair(s, used, ERR);
    } else {
      r := Decoded(UNKNOWN, 0, false, [], [], []);
    }
  }
}
