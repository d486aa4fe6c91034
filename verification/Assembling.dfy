/** assembleProtocolUDP and assembleProtocolTCP: they write exactly the formats, inside their reservation. */
module Assembling {
  import opened Basics
  import opened Commands
  import opened Formats
  import opened Buffers

  /** The sum of the lengths of the four command blocks. */
  function BlockBytes(c: Command): nat {
    match c
    case CmdAuth(w, u, s, d) => |w| + |u| + |s| + |d|
    case CmdJoin(w, ch) => |w| + |ch|
    case CmdMsg(t) => |t|
    case CmdErr(t) => |t|
    case CmdConf(_, _) => 2
    case CmdExit(w) => |w|
    case _ => 0
  }

  /** What assembleProtocolUDP reserves: for JOIN it adds the stored channel, not the display name. */
  function UdpReserved(c: Command, name: nat, channel: nat): nat {
    BlockBytes(c) + 10 + if c.CmdJoin? then channel else if c.CmdMsg? || c.CmdErr? then name else 0
  }

  function TcpReserved(c: Command, name: nat, channel: nat): nat {
    BlockBytes(c) + 1 + 2 +
    match c
    case CmdAuth(_, _, _, _) => 16
    case CmdJoin(_, _) => 9 + channel
    case CmdMsg(_) => 13 + name
    case CmdErr(_) => 13 + name
    case _ => 3
  }

  /** The reservation always suffices, except for JOIN, where it does exactly under these conditions. */
  lemma Reservations(c: Command, id: Id, name: seq<byte>)
    requires UdpKnown(c)
    ensures !c.CmdJoin? ==> |UdpPacket(c, id, name)| <= UdpReserved(c, |name|, 0)
    ensures c.CmdJoin? ==> (|UdpPacket(c, id, name)| <= UdpReserved(c, |name|, |c.channel|)
                            <==> |name| <= |c.word| + |c.channel| + 5)
    ensures TcpKnown(c) && !c.CmdJoin? ==> |TcpPacket(c, name)| <= TcpReserved(c, |name|, 0)
    ensures c.CmdJoin? ==> (|TcpPacket(c, name)| <= TcpReserved(c, |name|, |c.channel|)
                            <==> |name| <= |c.word| + |c.channel| + 1)
  {
    match c
    case CmdAuth(_, u, s, d) => assert |TcpAuth(u, d, s)| == 18 + |u| + |d| + |s|;
    case CmdJoin(_, ch) => assert |TcpJoin(ch, name)| == 11 + |ch| + |name|;
    case CmdMsg(t) => assert |TcpPair(MSG_FROM_TEXT, name, t)| == 15 + |name| + |t|;
    case CmdErr(t) => assert |TcpPair(ERR_FROM_TEXT, name, t)| == 15 + |name| + |t|;
    case CmdExit(_) =>
    case CmdConf(_, _) =>
  }

  /** The fields of an AUTH message. */
  method WriteAuthFields(buffer: Buffer, user: seq<byte>, name: seq<byte>, secret: seq<byte>) returns (end: nat)
    requires |user| + |name| + |secret| + 6 <= buffer.data.Length
    modifies buffer.data
    ensures end == |user| + |name| + |secret| + 6
    ensures buffer.data[..end] == old(buffer.data[..3]) + Field(user) + Field(name) + Field(secret)
  {
    end := buffer.WriteField(3, user);
    end := buffer.WriteField(end, name);
    end := buffer.WriteField(end, secret);
  }

  /** The two fields of a JOIN, MSG or ERR message; a JOIN writes the first before it misses the second. */
  method WritePairFields(buffer: Buffer, zeroth: seq<byte>, first: seq<byte>) returns (end: nat)
    requires |zeroth| + |first| + 5 <= buffer.data.Length
    modifies buffer.data
    ensures end == |zeroth| + |first| + 5
    ensures buffer.data[..end] == old(buffer.data[..3]) + Field(zeroth) + Field(first)
  {
    end := buffer.WriteField(3, zeroth);
    end := buffer.WriteField(end, first);
  }

  /** How assembling ends; `Overrun` where the source writes beyond the bytes it allocated. */
  datatype Outcome = Assembled | NoDisplayName | Overrun

  function NameOr(displayName: Option<seq<byte>>): seq<byte> {
    if displayName.Some? then displayName.value else []
  }

  /** The allocated bytes of a buffer after a resize: it never shrinks. */
  function Grown(had: nat, reserved: nat): nat { if reserved <= had then had else reserved }

  /** The length of the channel that a JOIN stores before it is assembled. */
  function StoredChannel(c: Command): nat { if c.CmdJoin? then |c.channel| else 0 }

  /** The outcome, for a buffer that had `had` bytes and a message of `size` bytes. */
  function Ending(c: Command, displayName: Option<seq<byte>>, size: nat, had: nat, reserved: nat): Outcome {
    if NeedsName(c) && displayName.None? then NoDisplayName
    else if c.CmdJoin? && size > Grown(had, reserved) then Overrun
    else Assembled
  }

  /**
   * assembleProtocolUDP. Unless it overruns, every write is inside the allocated bytes; the two id bytes
   * keep whatever the buffer held, except in a CONFIRM.
   */
  method AssembleUdp(c: Command, buffer: Buffer, displayName: Option<seq<byte>>) returns (r: Outcome)
    requires buffer.Valid() && UdpKnown(c)
    modifies buffer, buffer.data
    ensures buffer.Valid() && (buffer.data == old(buffer.data) || fresh(buffer.data))
    ensures var name := NameOr(displayName); var reserved := UdpReserved(c, |name|, StoredChannel(c));
      && buffer.data.Length == Grown(old(buffer.data.Length), reserved)
      && r == Ending(c, displayName, |UdpPacket(c, Id(0, 0), name)|, old(buffer.data.Length), reserved)
    ensures r == Assembled ==> buffer.used >= 3
    ensures r == Assembled ==>
      buffer.Contents() == UdpPacket(c, Id(buffer.data[1], buffer.data[2]), NameOr(displayName))
    ensures r == Assembled && !c.CmdConf? && old(buffer.data.Length) >= 3 ==>
      buffer.data[1..3] == old(buffer.data[1..3])
    ensures r != Assembled ==> buffer.used == old(buffer.used)
  {
    hide UdpPacket;
    buffer.Resize(BlockBytes(c) + 10);
    ghost var before := buffer.data[..];
    buffer.data[0] := KindOf(c);
    assert buffer.data[1..3] == before[1..3];
    if c.CmdConf? || c.CmdExit? {
      AssembleUdpHeader(c, buffer, NameOr(displayName));
      return Assembled;
    }
    r := AssembleUdpFields(c, buffer, displayName);
  }

  /** The part of assembleProtocolUDP for messages that are a header only. */
  method AssembleUdpHeader(c: Command, buffer: Buffer, ghost name: seq<byte>)
    requires buffer.Valid() && (c.CmdConf? || c.CmdExit?)
    requires buffer.data.Length >= 3 && buffer.data[0] == KindOf(c)
    modifies buffer`used, buffer.data
    ensures buffer.Valid() && buffer.used == 3
    ensures buffer.Contents() == UdpPacket(c, Id(buffer.data[1], buffer.data[2]), name)
    ensures !c.CmdConf? ==> buffer.data[1..3] == old(buffer.data[1..3])
  {
    if c.CmdConf? {
      buffer.data[1] := c.low;
      buffer.data[2] := c.high;
    }
    buffer.used := 3;
  }

  /** The part of assembleProtocolUDP for messages with fields. */
  method AssembleUdpFields(c: Command, buffer: Buffer, displayName: Option<seq<byte>>) returns (r: Outcome)
    requires buffer.Valid() && (c.CmdAuth? || NeedsName(c))
    requires buffer.data.Length >= BlockBytes(c) + 10 && buffer.data[0] == KindOf(c)
    modifies buffer, buffer.data
    ensures buffer.Valid() && (buffer.data == old(buffer.data) || fresh(buffer.data))
    ensures var name := NameOr(displayName); var reserved := UdpReserved(c, |name|, StoredChannel(c));
      && buffer.data.Length == Grown(old(buffer.data.Length), reserved)
      && r == Ending(c, displayName, |UdpPacket(c, Id(0, 0), name)|, old(buffer.data.Length), reserved)
    ensures r == Assembled ==> buffer.used >= 3
    ensures r == Assembled ==>
      buffer.Contents() == UdpPacket(c, Id(buffer.data[1], buffer.data[2]), NameOr(displayName))
    ensures r == Assembled ==> buffer.data[1..3] == old(buffer.data[1..3])
    ensures r != Assembled ==> buffer.used == old(buffer.used)
  {
    hide UdpPacket;
    hide UdpBody;
    buffer.Resize(UdpReserved(c, |NameOr(displayName)|, StoredChannel(c)));
    ghost var id := Id(buffer.data[1], buffer.data[2]);
    assert buffer.data[1..3] == old(buffer.data[..])[1..3];
    assert buffer.data[..3] == UdpHeader(KindOf(c), id);
    BodyFits(c, displayName);
    BodyFollows(c, id, NameOr(displayName));
    BodyFollows(c, Id(0, 0), NameOr(displayName));
    if c.CmdJoin? && displayName.Some? && |c.channel| + |displayName.value| + 5 > buffer.data.Length {
      return Overrun;
    }
    var end := WriteUdpBody(c, buffer, displayName);
    if NeedsName(c) && displayName.None? {
      return NoDisplayName;
    }
    buffer.used := end;
    assert buffer.data[..3] == buffer.Contents()[..3] == UdpHeader(KindOf(c), id);
    r := Assembled;
  }

  lemma BodyFits(c: Command, displayName: Option<seq<byte>>)
    requires c.CmdAuth? || NeedsName(c)
    ensures var name := NameOr(displayName);
      if c.CmdJoin? then |UdpBody(c, name)| == |c.channel| + |name| + 2
      else 3 + |UdpBody(c, name)| <= UdpReserved(c, |name|, 0)
  {}

  /** The fields that follow the three header bytes. */
  function UdpBody(c: Command, name: seq<byte>): seq<byte>
    requires c.CmdAuth? || NeedsName(c)
  {
    match c
    case CmdAuth(_, u, s, d) => Field(u) + Field(d) + Field(s)
    case CmdJoin(_, ch) => Field(ch) + Field(name)
    case CmdMsg(t) => Field(name) + Field(t)
    case CmdErr(t) => Field(name) + Field(t)
  }

  lemma BodyFollows(c: Command, id: Id, name: seq<byte>)
    requires c.CmdAuth? || NeedsName(c)
    ensures UdpPacket(c, id, name) == UdpHeader(KindOf(c), id) + UdpBody(c, name)
  {}

  /** The second half of assembleProtocolUDP: the fields, after the header. */
  method WriteUdpBody(c: Command, buffer: Buffer, displayName: Option<seq<byte>>) returns (end: nat)
    requires c.CmdAuth? || NeedsName(c)
    requires c.CmdJoin? ==> |c.channel| + 4 <= buffer.data.Length
    requires !(NeedsName(c) && displayName.None?) ==> 3 + |UdpBody(c, NameOr(displayName))| <= buffer.data.Length
    modifies buffer.data
    ensures !(NeedsName(c) && displayName.None?) ==>
      end <= buffer.data.Length && buffer.data[..end] == old(buffer.data[..3]) + UdpBody(c, NameOr(displayName))
  {
    end := 3;
    if NeedsName(c) && displayName.None? {
      if c.CmdJoin? {
        end := buffer.WriteField(3, c.channel);
      }
    } else if c.CmdAuth? {
      end := WriteAuthFields(buffer, c.user, c.name, c.secret);
    } else if c.CmdJoin? {
      end := WritePairFields(buffer, c.channel, displayName.value);
    } else {
      end := WritePairFields(buffer, displayName.value, c.text);
    }
  }

  method WriteTcpAuth(buffer: Buffer, user: seq<byte>, name: seq<byte>, secret: seq<byte>) returns (end: nat)
    requires |user| + |name| + |secret| + 18 <= buffer.data.Length
    modifies buffer.data
    ensures end <= buffer.data.Length && buffer.data[..end] == TcpAuth(user, name, secret)
  {
    end := buffer.Write(0, AUTH_TEXT);
    assert buffer.data[..end] == AUTH_TEXT;
    end := buffer.Write(end, user);
    end := buffer.Write(end, AS_TEXT);
    end := buffer.Write(end, name);
    end := buffer.Write(end, USING_TEXT);
    end := buffer.Write(end, secret);
    end := buffer.Write(end, CRLF);
  }

  method WriteTcpJoin(buffer: Buffer, channel: seq<byte>, name: seq<byte>) returns (end: nat)
    requires |channel| + |name| + 11 <= buffer.data.Length
    modifies buffer.data
    ensures end <= buffer.data.Length && buffer.data[..end] == TcpJoin(channel, name)
  {
    end := buffer.Write(0, JOIN_TEXT);
    assert buffer.data[..end] == JOIN_TEXT;
    end := buffer.Write(end, channel);
    end := buffer.Write(end, AS_TEXT);
    end := buffer.Write(end, name);
    end := buffer.Write(end, CRLF);
  }

  method WriteTcpPair(buffer: Buffer, start: seq<byte>, name: seq<byte>, text: seq<byte>) returns (end: nat)
    requires start == MSG_FROM_TEXT || start == ERR_FROM_TEXT
    requires |name| + |text| + 15 <= buffer.data.Length
    modifies buffer.data
    ensures end <= buffer.data.Length && buffer.data[..end] == TcpPair(start, name, text)
  {
    end := buffer.Write(0, start);
    assert buffer.data[..end] == start;
    end := buffer.Write(end, name);
    end := buffer.Write(end, IS_TEXT);
    end := buffer.Write(end, text);
    end := buffer.Write(end, CRLF);
  }

  /** assembleProtocolTCP. */
  method AssembleTcp(c: Command, buffer: Buffer, displayName: Option<seq<byte>>) returns (r: Outcome)
    requires buffer.Valid() && TcpKnown(c)
    modifies buffer, buffer.data
    ensures buffer.Valid() && (buffer.data == old(buffer.data) || fresh(buffer.data))
    ensures var name := NameOr(displayName); var reserved := TcpReserved(c, |name|, StoredChannel(c));
      && buffer.data.Length == Grown(old(buffer.data.Length), reserved)
      && r == Ending(c, displayName, |TcpPacket(c, name)|, old(buffer.data.Length), reserved)
    ensures r == Assembled ==> buffer.Contents() == TcpPacket(c, NameOr(displayName))
    ensures r != Assembled ==> buffer.used == old(buffer.used)
  {
    buffer.Resize(TcpReserved(c, |NameOr(displayName)|, StoredChannel(c)));
    if NeedsName(c) && displayName.None? {
      return NoDisplayName;
    }
    if c.CmdJoin? && |c.channel| + |displayName.value| + 11 > buffer.data.Length {
      return Overrun;
    }
    var end;
    match c {
      case CmdAuth(_, user, secret, name) => end := WriteTcpAuth(buffer, user, name, secret);
      case CmdJoin(_, channel) => end := WriteTcpJoin(buffer, channel, displayName.value);
      case CmdMsg(text) => end := WriteTcpPair(buffer, MSG_FROM_TEXT, displayName.value, text);
      case CmdErr(text) => end := WriteTcpPair(buffer, ERR_FROM_TEXT, displayName.value, text);
      case CmdExit(_) => {
        end := buffer.Write(0, BYE_TEXT);
        end := buffer.Write(end, CRLF);
        assert buffer.data[..end] == TcpBye();
      }
    }
    buffer.used := end;
    r := Assembled;
  }
}
