/**
 * The linked queue of msgQueue.c. Its abstract value is the sequence of messages from the front on, and
 * each operation is the sequence operation the protocol model uses.
 */
module LinkedQueue {
  import opened Basics
  import opened Formats
  import opened ChatProtocol
  import opened MessageIds

  /**
   * A queued message. The bytes are the private copy createMessage makes of a buffer. In the queue of
   * received ids only `kind` and the two id bytes are used, which share their memory with the counters.
   */
  class Message {
    var data: Packet
    var kind: byte
    var flags: Flag
    var sendCount: byte
    var confirmed: bool
    var lowMsgId: byte
    var highMsgId: byte
    var behindMe: Message?
    ghost var serial: nat

    ghost function View(): Msg
      reads this
    {
      Msg(serial, data, kind, flags, sendCount, confirmed)
    }

    /** What a message of the queue of received ids stands for. */
    ghost function Remembered(): Seen
      reads this
    {
      Seen(kind, Id(lowMsgId, highMsgId))
    }

    /** createMessage. */
    constructor (data: Packet, kind: byte, flags: Flag, ghost serial: nat)
      ensures View() == Msg(serial, data, kind, flags, 0, false) && behindMe == null
    {
      this.data, this.kind, this.flags, this.sendCount, this.confirmed := data, kind, flags, 0, false;
      this.lowMsgId, this.highMsgId, this.behindMe := 0, 0, null;
      this.serial := serial;
    }

    /** The part of queueAddMessageOnlyID that makes the message. */
    constructor OnlyId(id: Id, kind: byte)
      ensures Remembered() == Seen(kind, id) && behindMe == null
    {
      this.data, this.kind, this.flags, this.sendCount, this.confirmed := [0, 0, 0], kind, FlagErr, 0, false;
      this.lowMsgId, this.highMsgId, this.behindMe := id.low, id.high, null;
      this.serial := 0;
    }
  }

  class MessageQueue {
    var first: Message?
    var last: Message?
    var len: nat
    ghost var nodes: seq<Message>

    /** The list is acyclic, runs from `first` to `last`, and `last` ends it. */
    ghost predicate Valid()
      reads this, nodes
    {
      && len == |nodes|
      && (if nodes == [] then first == null && last == null
          else first == nodes[0] && last == nodes[|nodes| - 1] && nodes[|nodes| - 1].behindMe == null)
      && (forall i :: 0 <= i < |nodes| - 1 ==> nodes[i].behindMe == nodes[i + 1])
      && (forall i, j :: 0 <= i < j < |nodes| ==> nodes[i] != nodes[j])
    }

    ghost function View(): (v: seq<Msg>)
      reads this, nodes
      ensures |v| == |nodes|
    {
      seq(|nodes|, i requires 0 <= i < |nodes| reads this, nodes => nodes[i].View())
    }

    ghost function Remembered(): set<Seen>
      reads this, nodes
    {
      SeenBy(nodes)
    }

    static ghost function SeenBy(nodes: seq<Message>): set<Seen>
      reads nodes
    {
      set m | m in nodes :: m.Remembered()
    }

    static lemma OneMore(m: Message, rest: seq<Message>, nodes: seq<Message>)
      requires nodes == [m] + rest
      ensures SeenBy(nodes) == SeenBy(rest) + {m.Remembered()}
    {
      assert nodes[0] == m && nodes[1..] == rest;
    }

    /**
     * Following the list: step `k` is the `k`-th message, and the null pointer comes after exactly `len`
     * steps. So the last message is reached, nothing comes twice, and `len` is the length of the chain.
     */
    ghost function Walk(k: nat): (m: Message?)
      requires Valid()
      reads this, nodes
      ensures m == if k < len then nodes[k] else null
    {
      if k == 0 then first
      else
        var before := Walk(k - 1);
        if before == null then null else before.behindMe
    }

    /** queueInit. */
    constructor ()
      ensures Valid() && View() == [] && nodes == []
    {
      first, last, len := null, null, 0;
      nodes := [];
    }

    /** queueIsEmpty. */
    method IsEmpty() returns (empty: bool)
      requires Valid()
      ensures empty <==> View() == []
    {
      empty := len == 0;
    }

    /** queueGetMessage. */
    method GetMessage() returns (m: Message?)
      requires Valid()
      ensures m == null <==> View() == []
      ensures m != null ==> nodes != [] && m == nodes[0] && m.View() == View()[0]
    {
      m := if len > 0 && first != null then first else null;
    }

    /** queueAddMessage. */
    method Add(data: Packet, flags: Flag, kind: byte, ghost serial: nat)
      requires Valid()
      modifies this, nodes
      ensures Valid() && View() == old(View()) + [Msg(serial, data, kind, flags, 0, false)]
      ensures |nodes| == old(|nodes|) + 1 && nodes[..old(|nodes|)] == old(nodes) && fresh(nodes[old(|nodes|)])
    {
      var m := new Message(data, kind, flags, serial);
      if first == null {
        first := m;
      }
      if last != null {
        last.behindMe := m;
      }
      last := m;
      len := len + 1;
      nodes := nodes + [m];
    }

    /** queueAddMessagePriority. */
    method AddPriority(data: Packet, flags: Flag, kind: byte, ghost serial: nat)
      requires Valid()
      modifies this
      ensures Valid() && View() == [Msg(serial, data, kind, flags, 0, false)] + old(View())
      ensures nodes != [] && nodes[1..] == old(nodes) && fresh(nodes[0])
    {
      var m := new Message(data, kind, flags, serial);
      if last == null {
        last := m;
      }
      m.behindMe := first;
      first := m;
      len := len + 1;
      nodes := [m] + nodes;
    }

    /** queueAddMessageOnlyID. */
    method AddOnlyId(id: Id, kind: byte)
      requires Valid()
      modifies this
      ensures Valid() && Remembered() == old(Remembered()) + {Seen(kind, id)}
      ensures nodes != [] && nodes[1..] == old(nodes) && fresh(nodes[0])
    {
      var m := new Message.OnlyId(id, kind);
      if last == null {
        last := m;
      }
      m.behindMe := first;
      first := m;
      len := len + 1;
      nodes := [m] + nodes;
      OneMore(m, old(nodes), nodes);
      assert SeenBy(old(nodes)) == old(SeenBy(nodes));
    }

    /** queuePopMessage: on an empty queue it does nothing. */
    method Pop()
      requires Valid()
      modifies this
      ensures Valid() && View() == if old(View()) == [] then [] else old(View())[1..]
      ensures nodes == if old(nodes) == [] then [] else old(nodes)[1..]
    {
      if len <= 0 {
        return;
      }
      var oldFirst := first;
      first := oldFirst.behindMe;
      if oldFirst == last {
        last := null;
      }
      len := len - 1;
      nodes := nodes[1..];
    }

    /** queuePopAllMessages. */
    method PopAll()
      requires Valid()
      modifies this
      ensures Valid() && View() == [] && nodes == []
    {
      while len > 0
        invariant Valid()
      {
        Pop();
      }
      first := null;
      last := null;
    }

    /** queueContainsMessageId: a char of the incoming message is compared with the unsigned stored bytes. */
    method ContainsMessageId(signedChar: bool, incoming: Packet, kind: byte) returns (found: bool)
      requires Valid()
      ensures found <==> exists x :: x in Remembered() && Matches(signedChar, Seen(kind, IdOf(incoming)), x)
    {
      var high, low := CharValue(signedChar, incoming[2]), CharValue(signedChar, incoming[1]);
      var m := first;
      ghost var k := 0;
      while m != null
        invariant 0 <= k <= |nodes| && m == if k < |nodes| then nodes[k] else null
        invariant forall i :: 0 <= i < k ==> !Matches(signedChar, Seen(kind, IdOf(incoming)), nodes[i].Remembered())
        decreases |nodes| - k
      {
        if high == m.highMsgId && low == m.lowMsgId && kind == m.kind {
          assert m.Remembered() in Remembered();
          return true;
        }
        m := m.behindMe;
        k := k + 1;
      }
      found := false;
    }

    /** queueMessageSended: one more on the 8-bit counter of the first message. */
    method MessageSent()
      requires Valid() && View() != []
      modifies nodes
      ensures Valid() && View() == old(View())[0 := CountSent(old(View())[0])]
    {
      first.sendCount := (first.sendCount + 1) % 256;
    }

    /** queueSetMessageID: acknowledgements keep their id. */
    method SetMessageId(counter: u16)
      requires Valid()
      modifies nodes
      ensures Valid()
      ensures View() == if old(View()) == [] || old(View())[0].IsAck() then old(View())
                        else old(View())[0 := old(View())[0].(data := Stamp(old(View())[0].data, counter))]
    {
      if first != null && first.flags != FlagConfirm && first.flags != FlagNokReply {
        ghost var stamped := Stamp(first.data, counter);
        first.data := first.data[2 := counter / 256][1 := counter % 256];
        assert first.data == stamped;
      }
    }

    /** queueGetMessageID: 0 for an empty queue. */
    method GetMessageId(signedChar: bool) returns (id: u16)
      requires Valid()
      ensures id == if View() == [] then 0
                    else var i := IdOf(View()[0].data); Decode(signedChar, i.low, i.high)
    {
      id := if first != null then Decode(signedChar, first.data[1], first.data[2]) else 0;
    }

    /** queueSetMessageFlags. */
    method SetMessageFlags(flags: Flag)
      requires Valid()
      modifies nodes
      ensures Valid()
      ensures View() == if old(View()) == [] then [] else old(View())[0 := old(View())[0].(flags := flags)]
    {
      if first != null {
        first.flags := flags;
      }
    }

    /** handleConfirmUDP sets the field of the front message directly. */
    method Confirm()
      requires Valid() && View() != []
      modifies nodes
      ensures Valid() && View() == old(View())[0 := old(View())[0].(confirmed := true)]
    {
      first.confirmed := true;
    }
  }
}
