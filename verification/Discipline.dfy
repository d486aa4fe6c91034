/**
 * The sending discipline: the queue is CONFIRMs before everything else, one message at a time is in
 * flight, no message is transmitted more often than the retry limit allows, and acknowledgements carry
 * the ids they answer. All of it holds in every reachable state, whatever the threads interleave.
 */
module Discipline {
  import opened Basics
  import opened Formats
  import opened ChatProtocol
  import opened Primitives

  /** How often the message `serial` has been transmitted. */
  function Count(sent: seq<Msg>, serial: nat): nat {
    if sent == [] then 0
    else Count(sent[..|sent| - 1], serial) + (if sent[|sent| - 1].serial == serial then 1 else 0)
  }

  // ---------------------------------------------------------------------------
  //  The invariants
  // ---------------------------------------------------------------------------

  ghost predicate KindsOk(s: State) { forall i :: 0 <= i < |s.queue| ==> MsgOk(s.queue[i]) }

  /** Queue order: CONFIRMs first; behind the first other message nothing has been sent yet. */
  ghost predicate Ordered(s: State) {
    && (forall i, j :: 0 <= i < j < |s.queue| && !s.queue[i].IsConf() ==>
          !s.queue[j].IsConf() && s.queue[i].serial < s.queue[j].serial && s.queue[j].sendCount == 0)
    && (forall i, j :: 0 <= i < j < |s.queue| ==> s.queue[i].serial != s.queue[j].serial)
    && (forall i :: 0 <= i < |s.queue| ==> s.queue[i].serial < s.log.next)
  }

  /** TCP has no retransmission. */
  ghost predicate TcpUncounted(cfg: Config, s: State) {
    cfg.proto == TCP ==> forall i :: 0 <= i < |s.queue| ==> s.queue[i].sendCount == 0
  }

  /** The history of transmissions: everything except CONFIRMs leaves in the order it was enqueued. */
  ghost predicate InSequence(s: State) {
    && (forall i :: 0 <= i < |s.log.sent| ==> s.log.sent[i].serial < s.log.next)
    && (forall i, j :: 0 <= i < j < |s.log.sent| && !s.log.sent[i].IsConf() && !s.log.sent[j].IsConf() ==>
          s.log.sent[i].serial <= s.log.sent[j].serial)
    && (forall i, j ::
          0 <= i < |s.log.sent| && 0 <= j < |s.queue| && !s.log.sent[i].IsConf() && !s.queue[j].IsConf() ==>
          s.log.sent[i].serial <= s.queue[j].serial)
  }

  /** The 8-bit counter of a queued message is the number of its transmissions, and none exceeds the limit. */
  ghost predicate Counted(cfg: Config, s: State) {
    && (forall i :: 0 <= i < |s.queue| ==> Count(s.log.sent, s.queue[i].serial) == s.queue[i].sendCount)
    && (forall k :: k >= s.log.next ==> Count(s.log.sent, k) == 0)
    && (forall k :: Count(s.log.sent, k) <= cfg.maxRetries + 1)
  }

  /** A queued or transmitted acknowledgement is the CONFIRM of the datagram that caused it. */
  ghost predicate AckOk(m: Msg, causes: map<nat, Datagram>) {
    m.IsAck() ==> m.serial in causes && m.data == UdpConfirm(causes[m.serial].id)
  }

  ghost predicate Acknowledged(s: State) {
    && (forall k :: k in s.log.causes ==> k < s.log.next)
    && (forall i :: 0 <= i < |s.queue| ==> AckOk(s.queue[i], s.log.causes))
    && (forall i :: 0 <= i < |s.log.sent| ==> AckOk(s.log.sent[i], s.log.causes))
  }

  ghost predicate Sound(cfg: Config, s: State) {
    && KindsOk(s) && Ordered(s) && TcpUncounted(cfg, s) && InSequence(s) && Acknowledged(s)
    && (cfg.maxRetries < 255 ==> Counted(cfg, s))
  }

  // ---------------------------------------------------------------------------
  //  Each primitive keeps each invariant
  // ---------------------------------------------------------------------------

  /** The message transmitted from the front `m`: only its id bytes may differ. */
  predicate SentFrom(m: Msg, out: Msg) {
    out.serial == m.serial && out.kind == m.kind && out.flags == m.flags && (m.IsAck() ==> out == m)
  }

  /** What a transmission does to the history, and to the queue: pop the front or count it. */
  lemma SendForm(cfg: Config, s: State, t: State) returns (out: Msg)
    requires IsSend(cfg, s, t)
    ensures SentFrom(s.queue[0], out) && t.log == s.log.(sent := s.log.sent + [out])
    ensures t.queue == s.queue[1..] || t.queue == s.queue[0 := CountSent(out)]
    ensures s.queue[0].IsAck() || cfg.proto == TCP ==> t.queue == s.queue[1..]
  {
    var m := s.queue[0];
    out := if cfg.proto == UDP && !m.IsAck() then m.(data := Stamp(m.data, s.counter)) else m;
  }

  /** The queue of `t` is a part of the queue of `s`, with the same messages up to flags and confirmation. */
  predicate Sub(s: seq<Msg>, t: seq<Msg>) {
    && |t| <= |s|
    && forall i :: 0 <= i < |t| ==>
        var m := s[i + |s| - |t|];
        t[i].serial == m.serial && t[i].kind == m.kind && t[i].sendCount == m.sendCount && t[i].data == m.data
        && (t[i].IsAck() ==> m.IsAck())
  }

  lemma SubForm(cfg: Config, s: State, t: State)
    requires IsQuiet(s, t) || IsPop(s, t) || IsClear(s, t) || IsMark(s, t)
    ensures Sub(s.queue, t.queue)
  {
    hide MsgOk;
    if IsMark(s, t) {
      assert forall i :: 0 < i < |t.queue| ==> t.queue[i] == s.queue[i];
    } else if IsPop(s, t) {
      assert forall i :: 0 <= i < |t.queue| ==> t.queue[i] == s.queue[i + 1];
    }
  }

  lemma PushForm(s: State, t: State)
    requires IsPush(s, t)
    ensures t.queue == [t.queue[0]] + s.queue
  {}

  lemma AppendForm(s: State, t: State)
    requires IsAppend(s, t)
    ensures t.queue == s.queue + [t.queue[|s.queue|]]
  {}

  lemma KindsKept(cfg: Config, s: State, t: State)
    requires Primitive(cfg, s, t) && KindsOk(s)
    ensures KindsOk(t)
  {
    hide Transmit;
    if IsPush(s, t) {
      PushForm(s, t);
    } else if IsAppend(s, t) {
      AppendForm(s, t);
    } else if IsSend(cfg, s, t) {
      var out := SendForm(cfg, s, t);
    }
  }

  lemma OrderSub(s: State, t: State)
    requires Ordered(s) && Sub(s.queue, t.queue) && s.log.next == t.log.next
    ensures Ordered(t)
  {
    var d := |s.queue| - |t.queue|;
    forall i, j | 0 <= i < j < |t.queue|
      ensures t.queue[i].serial != t.queue[j].serial
      ensures !t.queue[i].IsConf() ==>
        !t.queue[j].IsConf() && t.queue[i].serial < t.queue[j].serial && t.queue[j].sendCount == 0
    {
      assert 0 <= i + d < j + d < |s.queue|;
      assert s.queue[i + d].serial != s.queue[j + d].serial;
    }
  }

  lemma OrderPush(s: State, t: State)
    requires Ordered(s) && IsPush(s, t)
    ensures Ordered(t)
  {
    PushForm(s, t);
    assert t.queue[0].IsConf();
    assert forall i :: 0 < i < |t.queue| ==> t.queue[i] == s.queue[i - 1];
  }

  lemma OrderAppend(s: State, t: State)
    requires Ordered(s) && IsAppend(s, t)
    ensures Ordered(t)
  {
    AppendForm(s, t);
    assert forall i :: 0 <= i < |s.queue| ==> t.queue[i] == s.queue[i];
  }

  lemma OrderKept(cfg: Config, s: State, t: State)
    requires Primitive(cfg, s, t) && Ordered(s)
    ensures Ordered(t)
  {
    hide Transmit;
    hide MsgOk;
    if IsPush(s, t) {
      OrderPush(s, t);
    } else if IsAppend(s, t) {
      OrderAppend(s, t);
    } else if IsSend(cfg, s, t) {
      var out := SendForm(cfg, s, t);
    } else {
      SubForm(cfg, s, t);
      OrderSub(s, t);
    }
  }

  lemma TcpKept(cfg: Config, s: State, t: State)
    requires Primitive(cfg, s, t) && TcpUncounted(cfg, s)
    ensures TcpUncounted(cfg, t)
  {
    hide Transmit;
    hide MsgOk;
    if IsPush(s, t) {
      PushForm(s, t);
    } else if IsAppend(s, t) {
      AppendForm(s, t);
    } else if IsSend(cfg, s, t) {
      var out := SendForm(cfg, s, t);
    } else {
      SubForm(cfg, s, t);
    }
  }

  lemma SequenceSend(cfg: Config, s: State, t: State)
    requires IsSend(cfg, s, t) && InSequence(s) && Ordered(s)
    ensures InSequence(t)
  {
    var out := SendForm(cfg, s, t);
    forall i, j |
      0 <= i < |t.log.sent| && 0 <= j < |t.queue| && !t.log.sent[i].IsConf() && !t.queue[j].IsConf()
      ensures t.log.sent[i].serial <= t.queue[j].serial
    {
      var k := if t.queue == s.queue[1..] then j + 1 else j;
      assert t.queue[j].serial == s.queue[k].serial && !s.queue[k].IsConf();
      if i == |s.log.sent| && k > 0 {
        assert s.queue[0].serial < s.queue[k].serial;
      }
    }
  }

  lemma SequenceKept(cfg: Config, s: State, t: State)
    requires Primitive(cfg, s, t) && InSequence(s) && Ordered(s)
    ensures InSequence(t)
  {
    hide Transmit;
    if IsPush(s, t) {
      PushForm(s, t);
      assert t.queue[0].IsConf();
      assert forall i :: 0 < i < |t.queue| ==> t.queue[i] == s.queue[i - 1];
    } else if IsAppend(s, t) {
      AppendForm(s, t);
    } else if IsSend(cfg, s, t) {
      SequenceSend(cfg, s, t);
    } else {
      SubForm(cfg, s, t);
    }
  }

  lemma AcksSub(s: State, t: State)
    requires Acknowledged(s) && Sub(s.queue, t.queue) && SameHistory(s, t)
    ensures Acknowledged(t)
  {
    forall i | 0 <= i < |t.queue| ensures AckOk(t.queue[i], t.log.causes) {
      assert AckOk(s.queue[i + |s.queue| - |t.queue|], s.log.causes);
    }
  }

  lemma AcksPush(s: State, t: State)
    requires Acknowledged(s) && IsPush(s, t)
    requires forall i :: 0 <= i < |s.queue| ==> s.queue[i].serial < s.log.next
    requires forall i :: 0 <= i < |s.log.sent| ==> s.log.sent[i].serial < s.log.next
    ensures Acknowledged(t)
  {
    hide MsgOk;
    PushForm(s, t);
    forall i | 0 <= i < |t.queue| ensures AckOk(t.queue[i], t.log.causes) {
      if i > 0 { assert AckOk(s.queue[i - 1], s.log.causes); }
    }
    forall i | 0 <= i < |t.log.sent| ensures AckOk(t.log.sent[i], t.log.causes) {
      assert AckOk(s.log.sent[i], s.log.causes);
    }
  }

  lemma AcksKept(cfg: Config, s: State, t: State)
    requires Primitive(cfg, s, t) && Acknowledged(s) && Ordered(s) && InSequence(s)
    ensures Acknowledged(t)
  {
    hide Transmit;
    if IsPush(s, t) {
      AcksPush(s, t);
    } else if IsAppend(s, t) {
      AppendForm(s, t);
    } else if IsSend(cfg, s, t) {
      var out := SendForm(cfg, s, t);
      assert AckOk(s.queue[0], s.log.causes) && AckOk(out, s.log.causes);
    } else {
      SubForm(cfg, s, t);
      AcksSub(s, t);
    }
  }

  lemma {:induction false} CountOne(sent: seq<Msg>, m: Msg, k: nat)
    ensures Count(sent + [m], k) == Count(sent, k) + (if m.serial == k then 1 else 0)
  {
    assert (sent + [m])[..|sent|] == sent;
  }

  lemma CountsSend(cfg: Config, s: State, t: State)
    requires IsSend(cfg, s, t) && cfg.maxRetries < 255
    requires Counted(cfg, s) && Ordered(s)
    ensures Counted(cfg, t)
  {
    var out := SendForm(cfg, s, t);
    forall k: nat
      ensures Count(t.log.sent, k) == Count(s.log.sent, k) + (if s.queue[0].serial == k then 1 else 0)
    {
      CountOne(s.log.sent, out, k);
    }
    assert Count(s.log.sent, s.queue[0].serial) == s.queue[0].sendCount;
    forall i | 0 <= i < |t.queue|
      ensures Count(t.log.sent, t.queue[i].serial) == t.queue[i].sendCount
    {
      var k := if t.queue == s.queue[1..] then i + 1 else i;
      assert k > 0 ==> s.queue[0].serial != s.queue[k].serial && t.queue[i] == s.queue[k];
      assert Count(s.log.sent, s.queue[k].serial) == s.queue[k].sendCount;
    }
  }

  lemma CountsSub(cfg: Config, s: State, t: State)
    requires Counted(cfg, s) && Sub(s.queue, t.queue) && SameHistory(s, t)
    ensures Counted(cfg, t)
  {
    forall i | 0 <= i < |t.queue| ensures Count(t.log.sent, t.queue[i].serial) == t.queue[i].sendCount {
      var k := i + |s.queue| - |t.queue|;
      assert Count(s.log.sent, s.queue[k].serial) == s.queue[k].sendCount;
    }
  }

  lemma CountsKept(cfg: Config, s: State, t: State)
    requires Primitive(cfg, s, t) && cfg.maxRetries < 255
    requires Counted(cfg, s) && Ordered(s)
    ensures Counted(cfg, t)
  {
    hide Transmit;
    hide MsgOk;
    if IsPush(s, t) {
      PushForm(s, t);
    } else if IsAppend(s, t) {
      AppendForm(s, t);
    } else if IsSend(cfg, s, t) {
      CountsSend(cfg, s, t);
    } else {
      SubForm(cfg, s, t);
      CountsSub(cfg, s, t);
    }
  }

  /** Every primitive keeps the discipline. */
  lemma SoundKept(cfg: Config, s: State, t: State)
    requires Primitive(cfg, s, t) && Sound(cfg, s)
    ensures Sound(cfg, t)
  {
    KindsKept(cfg, s, t);
    OrderKept(cfg, s, t);
    TcpKept(cfg, s, t);
    SequenceKept(cfg, s, t);
    AcksKept(cfg, s, t);
    if cfg.maxRetries < 255 { CountsKept(cfg, s, t); }
  }
}
