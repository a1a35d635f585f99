/** Service datagrams on top of the chunked transport: payloads that begin with the escape byte are
    shielded, so that the datagram that announces a disconnection cannot be mistaken for data. */
module RpmsgEscape {
  import opened Rpmsg
  import opened RpmsgProofs

  const ESCAPE: byte := 27

  /** The escape byte, then "disconnect" and the terminating zero. */
  const DISCONNECT: seq<byte> := [27, 100, 105, 115, 99, 111, 110, 110, 101, 99, 116, 0]

  datatype Message = Data(bytes: seq<byte>) | Bye

  /** What is handed to the chunked transport for a message. */
  function Datagram(m: Message): seq<byte> {
    match m
    case Data(bytes) => if |bytes| >= 1 && bytes[0] == ESCAPE then [ESCAPE] + bytes else bytes
    case Bye => DISCONNECT
  }

  datatype Notice = Connected | Disconnected | Received(bytes: seq<byte>)

  /** The connection state, and what the listeners have been told. */
  datatype Side = Side(connected: bool, trace: seq<Notice>)

  /** The receive thread on one datagram. The service datagram is recognised by comparing twelve
      bytes of the receive buffer, in which bytes of earlier messages follow a short datagram. */
  function Handle(s: Side, d: seq<byte>, stale: seq<byte>): Side
    requires |stale| >= |DISCONNECT|
  {
    var escape := |d| >= 1 && d[0] == ESCAPE;
    var shielded := escape && |d| >= 2 && d[1] == ESCAPE;
    if !escape || shielded then
      Side(true, s.trace + (if s.connected then [] else [Connected])
                 + [Received(if shielded then d[1..] else d)])
    else if (d + stale)[..|DISCONNECT|] == DISCONNECT then
      Side(false, s.trace + [Disconnected])
    else s
  }

  function HandleAll(s: Side, ds: seq<seq<byte>>, stale: seq<seq<byte>>): Side
    requires |stale| == |ds| && forall i :: 0 <= i < |stale| ==> |stale[i]| >= |DISCONNECT|
    decreases |ds|
  {
    if ds == [] then s else HandleAll(Handle(s, ds[0], stale[0]), ds[1..], stale[1..])
  }

  /** What the sending side meant by a message. */
  function Meant(s: Side, m: Message): Side {
    match m
    case Data(bytes) => Side(true, s.trace + (if s.connected then [] else [Connected]) + [Received(bytes)])
    case Bye => Side(false, s.trace + [Disconnected])
  }

  function MeantAll(s: Side, ms: seq<Message>): Side
    decreases |ms|
  {
    if ms == [] then s else MeantAll(Meant(s, ms[0]), ms[1..])
  }

  function Datagrams(ms: seq<Message>): seq<seq<byte>> {
    if ms == [] then [] else [Datagram(ms[0])] + Datagrams(ms[1..])
  }

  /** A datagram is understood as it was meant, whatever the receive buffer held before. */
  lemma DatagramUnderstood(s: Side, m: Message, stale: seq<byte>)
    requires |stale| >= |DISCONNECT|
    ensures Handle(s, Datagram(m), stale) == Meant(s, m)
  {
    if m.Data? {
      if |m.bytes| >= 1 && m.bytes[0] == ESCAPE {
        assert ([ESCAPE] + m.bytes)[1..] == m.bytes;
      }
    } else {
      assert (DISCONNECT + stale)[..|DISCONNECT|] == DISCONNECT;
    }
  }

  /** Other datagrams that begin with a single escape byte are passed over. */
  lemma OtherServicesIgnored(s: Side, d: seq<byte>, stale: seq<byte>)
    requires |stale| >= 12 && |d| >= 12 && d[0] == 27 && d[1] != 27
    ensures Handle(s, d, stale) == if IsDisconnect(d) then Side(false, s.trace + [Disconnected]) else s
  {
    assert (d + stale)[..12] == d[..12];
    assert forall i :: 0 <= i < 12 ==> d[..12][i] == d[i];
  }

  /** The escape byte, the text and the zero at its end, whatever follows. */
  predicate IsDisconnect(d: seq<byte>) {
    && |d| >= 12 && d[0] == 27 && d[11] == 0
    && forall i :: 1 <= i < 11 ==> d[i] as char == "disconnect"[i - 1]
  }

  /** Different messages never share a datagram. */
  lemma DatagramInjective(m: Message, n: Message)
    requires Datagram(m) == Datagram(n)
    ensures m == n
  {
    var stale := DISCONNECT;
    DatagramUnderstood(Side(true, []), m, stale);
    DatagramUnderstood(Side(true, []), n, stale);
    assert Meant(Side(true, []), m).trace[0] == Meant(Side(true, []), n).trace[0];
  }

  lemma {:induction false} AllUnderstood(s: Side, ms: seq<Message>, stale: seq<seq<byte>>)
    requires |Datagrams(ms)| == |stale| && forall i :: 0 <= i < |stale| ==> |stale[i]| >= |DISCONNECT|
    ensures HandleAll(s, Datagrams(ms), stale) == MeantAll(s, ms)
    decreases |ms|
  {
    if ms != [] {
      DatagramUnderstood(s, ms[0], stale[0]);
      assert Datagrams(ms)[1..] == Datagrams(ms[1..]);
      AllUnderstood(Meant(s, ms[0]), ms[1..], stale[1..]);
    }
  }

  // ---- Listener discipline ----------------------------------------------------------

  predicate Standing(trace: seq<Notice>) {
    trace != [] &&
    match trace[|trace| - 1]
    case Connected => true
    case Disconnected => false
    case Received(_) => Standing(trace[..|trace| - 1])
  }

  /** Data is only received while connected, and a connection is announced only when there is none. */
  predicate Orderly(trace: seq<Notice>) {
    trace != [] ==>
      var init := trace[..|trace| - 1];
      && Orderly(init)
      && match trace[|trace| - 1]
         case Connected => !Standing(init)
         case Disconnected => true
         case Received(_) => Standing(init)
  }

  lemma OneMore(trace: seq<Notice>, n: Notice)
    requires Orderly(trace) && (n.Connected? ==> !Standing(trace)) && (n.Received? ==> Standing(trace))
    ensures Orderly(trace + [n]) && Standing(trace + [n]) == !n.Disconnected?
  {
    assert (trace + [n])[..|trace|] == trace;
  }

  lemma HandleOrderly(s: Side, d: seq<byte>, stale: seq<byte>)
    requires |stale| >= |DISCONNECT| && Orderly(s.trace) && Standing(s.trace) == s.connected
    ensures var s' := Handle(s, d, stale); Orderly(s'.trace) && Standing(s'.trace) == s'.connected
  {
    var s' := Handle(s, d, stale);
    if s'.connected && s' != s {
      var up := s.trace + (if s.connected then [] else [Connected]);
      if s.connected {
        assert up == s.trace;
      } else {
        OneMore(s.trace, Connected);
      }
      OneMore(up, s'.trace[|up|]);
    } else if s' != s {
      OneMore(s.trace, Disconnected);
    }
  }

  /** Whatever datagrams arrive, even ones no peer would send. */
  lemma {:induction false} AlwaysOrderly(s: Side, ds: seq<seq<byte>>, stale: seq<seq<byte>>)
    requires |stale| == |ds| && forall i :: 0 <= i < |stale| ==> |stale[i]| >= |DISCONNECT|
    requires Orderly(s.trace) && Standing(s.trace) == s.connected
    ensures var s' := HandleAll(s, ds, stale); Orderly(s'.trace) && Standing(s'.trace) == s'.connected
    decreases |ds|
  {
    if ds != [] {
      HandleOrderly(s, ds[0], stale[0]);
      AlwaysOrderly(Handle(s, ds[0], stale[0]), ds[1..], stale[1..]);
    }
  }

  // ---- Over the chunked transport ------------------------------------------------------

  /** The messages whose datagram is neither empty nor larger than the receive buffer. */
  function Carriable(ms: seq<Message>): seq<Message> {
    if ms == [] then []
    else (if 0 < |Datagram(ms[0])| <= 262144 then [ms[0]] else []) + Carriable(ms[1..])
  }

  lemma {:induction false} CarriableFit(ms: seq<Message>)
    ensures Fitting(Datagrams(ms)) == Datagrams(Carriable(ms))
  {
    if ms != [] {
      CarriableFit(ms[1..]);
      assert Datagrams(ms)[1..] == Datagrams(ms[1..]);
      if 0 < |Datagram(ms[0])| <= 262144 {
        assert Carriable(ms)[1..] == Carriable(ms[1..]);
      } else {
        assert Carriable(ms) == Carriable(ms[1..]);
      }
    }
  }

  lemma {:induction false} SentPossible(payloads: seq<seq<byte>>)
    requires forall p :: p in payloads ==> ChunkCount(|p|) < 65535
    ensures AllPossible(Sent(payloads))
  {
    if payloads != [] {
      assert payloads[0] in payloads;
      SentPossible(payloads[1..]);
    }
  }

  /** Without loss and without failing sends, the other side is told exactly what was meant, from
      any first id and across any number of id wrap-arounds. */
  lemma LosslessConversation(ms: seq<Message>, pauses: seq<bool>, id: nat, stale: seq<seq<byte>>)
    requires forall d :: d in Datagrams(ms) ==> ChunkCount(|d|) < 65535
    requires |pauses| == |Sent(Datagrams(ms))|
    requires |stale| == |Datagrams(Carriable(ms))| && forall i :: 0 <= i < |stale| ==> |stale[i]| >= |DISCONNECT|
    ensures var delivered := After(FRESH, Undisturbed(Sent(Datagrams(ms)), pauses, id, 0)).out;
            && |delivered| == |stale|
            && HandleAll(Side(false, []), delivered, stale) == MeantAll(Side(false, []), Carriable(ms))
  {
    SentPossible(Datagrams(ms));
    LosslessDelivery(Sent(Datagrams(ms)), pauses, id);
    AllExpected(Datagrams(ms), pauses);
    CarriableFit(ms);
    AllUnderstood(Side(false, []), Carriable(ms), stale);
  }

  /** The messages at the given positions. */
  function Picked(ms: seq<Message>, calls: seq<nat>): seq<Message>
    requires forall i :: 0 <= i < |calls| ==> calls[i] < |ms|
  {
    if calls == [] then [] else [ms[calls[0]]] + Picked(ms, calls[1..])
  }

  /** The calls that send these messages, `sent[i]` chunks of the i-th. */
  ghost predicate Sends(attempts: seq<Attempt>, ms: seq<Message>) {
    |attempts| == |ms| && forall i :: 0 <= i < |ms| ==> attempts[i].payload == Datagram(ms[i])
  }

  lemma {:induction false} PickedDatagrams(attempts: seq<Attempt>, ms: seq<Message>,
                                           delivered: seq<seq<byte>>, calls: seq<nat>)
    requires Sends(attempts, ms) && |calls| == |delivered|
    requires forall i :: 0 <= i < |calls| ==> calls[i] < |ms| && delivered[i] == attempts[calls[i]].payload
    ensures delivered == Datagrams(Picked(ms, calls))
    decreases |calls|
  {
    if calls != [] {
      PickedDatagrams(attempts, ms, delivered[1..], calls[1..]);
      assert Picked(ms, calls)[1..] == Picked(ms, calls[1..]);
      assert delivered == [delivered[0]] + delivered[1..];
    }
  }

  ghost predicate Increasing(calls: seq<nat>) {
    forall i, j :: 0 <= i < j < |calls| ==> calls[i] < calls[j]
  }

  /** Whatever is lost, the other side is told exactly what some of the messages meant, in order:
      a payload is never torn, never altered and never taken for a disconnection. */
  lemma LossyConversation(ms: seq<Message>, attempts: seq<Attempt>, id: nat, slots: seq<Slot>, stale: seq<seq<byte>>)
    returns (calls: seq<nat>)
    requires id <= 0xFFFF_FFFF && AllPossible(attempts) && Sends(attempts, ms) && LossPattern(slots, Total(attempts))
    requires |stale| == |After(FRESH, EventsOf(Stream(attempts), id, slots)).out|
    requires forall i :: 0 <= i < |stale| ==> |stale[i]| >= |DISCONNECT|
    ensures Increasing(calls) && forall i :: 0 <= i < |calls| ==> calls[i] < |ms|
    ensures HandleAll(Side(false, []), After(FRESH, EventsOf(Stream(attempts), id, slots)).out, stale)
         == MeantAll(Side(false, []), Picked(ms, calls))
  {
    var delivered := After(FRESH, EventsOf(Stream(attempts), id, slots)).out;
    NoSplicing(attempts, id, slots);
    calls :| Explains(attempts, delivered, calls);
    PickedDatagrams(attempts, ms, delivered, calls);
    AllUnderstood(Side(false, []), Picked(ms, calls), stale);
  }
}
