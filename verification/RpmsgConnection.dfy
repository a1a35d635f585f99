/** The connection object: sending and receiving as the program does it, with its id counters and
    its receive buffer updated in place. What it puts on the wire is the stream of chunks, and what
    it tells its listeners the trace, that the rest of the model reasons about. */
module RpmsgConnection {
  import opened Rpmsg
  import opened RpmsgProofs
  import opened RpmsgEscape

  datatype Status = Success | Timeout | Error

  lemma {:induction false} TotalOneMore(calls: seq<Attempt>, a: Attempt)
    ensures Total(calls + [a]) == Total(calls) + a.sent
    ensures Stream(calls + [a]) == Stream(calls) + Pieces(a.payload, a.sent)
    decreases |calls|
  {
    if calls == [] {
      assert calls + [a] == [a];
      assert [a][1..] == [];
      assert Stream([a]) == Pieces(a.payload, a.sent) + Stream([]);
    } else {
      assert (calls + [a])[1..] == calls[1..] + [a];
      TotalOneMore(calls[1..], a);
    }
  }

  /** The chunks of a stream under the ids they are sent with, from a sender's first id. */
  function Numbered(stream: seq<Piece>, k: nat): seq<Chunk>
    requires k <= |stream|
  {
    if k == 0 then [] else Numbered(stream, k - 1) + [OnWire(stream, 0, k - 1)]
  }

  lemma {:induction false} NumberedGrows(stream: seq<Piece>, more: seq<Piece>, k: nat)
    requires k <= |stream|
    ensures Numbered(stream + more, k) == Numbered(stream, k)
  {
    if k > 0 {
      NumberedGrows(stream, more, k - 1);
    }
  }

  /** The sender's counter after `k` chunks. */
  function LastId(k: nat): nat {
    if k == 0 then 0 else WireId(0, k - 1)
  }

  /** One more chunk of the call under way. */
  lemma SendOne(calls: seq<Attempt>, message: seq<byte>, k: nat)
    ensures var stream := Stream(calls + [Attempt(message, k)]);
            var stream' := Stream(calls + [Attempt(message, k + 1)]);
            && |stream'| == |stream| + 1
            && Numbered(stream', |stream'|)
               == Numbered(stream, |stream|)
                  + [Chunk(MAGIC, k + 1, ChunkCount(|message|), WireId(0, |stream|), PieceOf(message, k).payload)]
  {
    TotalOneMore(calls, Attempt(message, k));
    TotalOneMore(calls, Attempt(message, k + 1));
    var stream := Stream(calls + [Attempt(message, k)]);
    var stream' := Stream(calls + [Attempt(message, k + 1)]);
    assert stream' == stream + [PieceOf(message, k)];
    NumberedGrows(stream, [PieceOf(message, k)], |stream|);
  }

  lemma NothingSent(calls: seq<Attempt>, message: seq<byte>)
    ensures Stream(calls + [Attempt(message, 0)]) == Stream(calls)
  {
    TotalOneMore(calls, Attempt(message, 0));
  }

  lemma FedUpTo(start: Receiver, events: seq<Event>, used: nat, r: Receiver)
    requires used < |events| && After(start, events[..used]) == r
    ensures After(start, events[..used + 1]) == Step(r, events[used])
  {
    FeedOne(start, events[..used], events[used]);
    assert events[..used] + [events[used]] == events[..used + 1];
  }

  ghost predicate LongEnough(stale: seq<seq<byte>>) {
    forall i :: 0 <= i < |stale| ==> |stale[i]| >= |DISCONNECT|
  }

  lemma {:induction false} HandleOneMore(s: Side, ds: seq<seq<byte>>, stale: seq<seq<byte>>,
                                         d: seq<byte>, rest: seq<byte>)
    requires |stale| == |ds| && LongEnough(stale) && |rest| >= |DISCONNECT|
    ensures HandleAll(s, ds + [d], stale + [rest]) == Handle(HandleAll(s, ds, stale), d, rest)
    decreases |ds|
  {
    if ds == [] {
      assert ds + [d] == [d] && stale + [rest] == [rest];
      assert HandleAll(s, [d], [rest]) == HandleAll(Handle(s, d, rest), [d][1..], [rest][1..]);
    } else {
      assert (ds + [d])[1..] == ds[1..] + [d] && (stale + [rest])[1..] == stale[1..] + [rest];
      HandleOneMore(Handle(s, ds[0], stale[0]), ds[1..], stale[1..], d, rest);
    }
  }

  class Connection {
    var sendId: nat
    var recvId: nat
    var connected: bool
    const buffer: array<byte>
    var wire: seq<Chunk>
    var trace: seq<Notice>
    ghost var calls: seq<Attempt>

    ghost predicate Valid()
      reads this
    {
      && buffer.Length == MAX_PACKET
      && wire == Numbered(Stream(calls), |Stream(calls)|)
      && sendId == LastId(|Stream(calls)|)
    }

    constructor ()
      ensures Valid() && fresh(buffer)
      ensures calls == [] && recvId == 0 && !connected && trace == []
    {
      sendId, recvId, connected, wire, trace, calls := 0, 0, false, [], [], [];
      buffer := new byte[MAX_PACKET];
    }

    /** Cuts a message into chunks and sends them until the transport refuses one; it takes
        `capacity` of them. */
    method SendPartitioned(message: seq<byte>, capacity: nat) returns (ok: bool)
      requires Valid()
      modifies this`sendId, this`wire, this`calls
      ensures Valid()
      ensures calls == old(calls) + [Attempt(message, if ChunkCount(|message|) >= UINT16_MAX then 0
                                                      else Min(capacity, ChunkCount(|message|)))]
      ensures ok <==> ChunkCount(|message|) < UINT16_MAX && ChunkCount(|message|) <= capacity
    {
      NothingSent(calls, message);
      calls := calls + [Attempt(message, 0)];
      var chunks := ChunkCount(|message|);
      if chunks >= UINT16_MAX {
        return false;
      }
      var k := 0;
      while k < chunks
        invariant k <= chunks && k <= capacity
        invariant calls == old(calls) + [Attempt(message, k)]
        invariant Valid()
      {
        if k == capacity {
          return false;
        }
        var msgId := NextId(sendId);
        var from, to := k * 244, Min(|message|, (k + 1) * 244);
        SendOne(old(calls), message, k);
        wire := wire + [Chunk(MAGIC, k + 1, chunks, msgId, message[from..to])];
        sendId := msgId;
        k := k + 1;
        calls := old(calls) + [Attempt(message, k)];
      }
      return true;
    }

    /** Sends a payload, shielded if it begins with the escape byte. */
    method Transmit(message: seq<byte>, capacity: nat) returns (ok: bool)
      requires Valid()
      modifies this`sendId, this`wire, this`calls
      ensures Valid()
      ensures var d := Datagram(Data(message));
              && calls == old(calls) + [Attempt(d, if ChunkCount(|d|) >= UINT16_MAX then 0
                                                   else Min(capacity, ChunkCount(|d|)))]
              && (ok <==> ChunkCount(|d|) < UINT16_MAX && ChunkCount(|d|) <= capacity)
    {
      if |message| >= 1 && message[0] == ESCAPE {
        ok := SendPartitioned([ESCAPE] + message, capacity);
      } else {
        ok := SendPartitioned(message, capacity);
      }
    }

    method Append(at: nat, bytes: seq<byte>)
      requires at + |bytes| <= buffer.Length
      modifies buffer
      ensures buffer[..at + |bytes|] == old(buffer[..at]) + bytes
    {
      forall i | 0 <= i < |bytes| {
        buffer[at + i] := bytes[i];
      }
    }

    /** Deals with one event when `len` bytes are in the buffer and `previous` is the number of the
        last chunk collected: whether more is needed, or else how the message ended. */
    method Take(event: Event, previous: nat, length: nat, ghost out: seq<seq<byte>>)
      returns (more: bool, status: Status, number: nat, len: nat)
      requires Valid() && length <= buffer.Length
      modifies this`recvId, buffer
      ensures len <= buffer.Length && (more ==> event.Arrives?)
      ensures Step(Receiver(old(recvId), previous, old(buffer[..length]), out), event)
           == if more then Receiver(recvId, number, buffer[..len], out)
              else Receiver(recvId, 0, [], if status == Success then out + [buffer[..len]] else out)
    {
      len, number := length, previous;
      if event.Silence? {
        return false, Timeout, number, len;
      }
      var chunk := event.chunk;
      recvId := if recvId == 0 then chunk.id else NextId(recvId);
      if chunk.magic != MAGIC {
        return false, Error, number, len;
      }
      if recvId != chunk.id {
        recvId := chunk.id;
        return false, Error, number, len;
      }
      if previous != (if chunk.number == 0 then 0xFFFF_FFFF else chunk.number - 1) {
        return false, Error, number, len;
      }
      number := chunk.number;
      if len + |chunk.payload| > buffer.Length {
        return false, Error, number, len;
      }
      Append(len, chunk.payload);
      len := len + |chunk.payload|;
      return number != chunk.count, Success, number, len;
    }

    /** Collects one message. `events` is what the transport comes up with, ending in a timeout. */
    method ReceivePartitioned(events: seq<Event>, ghost out: seq<seq<byte>>)
      returns (status: Status, len: nat, used: nat)
      requires Valid() && events != [] && events[|events| - 1] == Silence
      modifies this`recvId, buffer
      ensures 0 < used <= |events| && len <= buffer.Length
      ensures After(Receiver(old(recvId), 0, [], out), events[..used])
           == Receiver(recvId, 0, [], if status == Success then out + [buffer[..len]] else out)
    {
      var previous := 0;
      len, used := 0, 0;
      ghost var start := Receiver(recvId, 0, [], out);
      while true
        invariant used < |events| && len <= buffer.Length
        invariant After(start, events[..used]) == Receiver(recvId, previous, buffer[..len], out)
        decreases |events| - used
      {
        ghost var r := Receiver(recvId, previous, buffer[..len], out);
        var more;
        more, status, previous, len := Take(events[used], previous, len, out);
        FedUpTo(start, events, used, r);
        used := used + 1;
        if !more {
          return;
        }
      }
    }

    /** Tells the listeners about one datagram, which is in the buffer. */
    method Dispatch(len: nat) returns (ghost stale: seq<byte>)
      requires Valid() && len <= buffer.Length
      modifies this`connected, this`trace
      ensures |stale| >= |DISCONNECT|
      ensures Side(connected, trace) == Handle(Side(old(connected), old(trace)), buffer[..len], stale)
    {
      stale := buffer[len..] + DISCONNECT;
      assert (buffer[..len] + stale)[..|DISCONNECT|] == buffer[..|DISCONNECT|];
      var escape := len >= 1 && buffer[0] == ESCAPE;
      var shielded := escape && len >= 2 && buffer[1] == ESCAPE;
      if !escape || shielded {
        if !connected {
          trace := trace + [Connected];
          connected := true;
        }
        if !shielded {
          trace := trace + [Received(buffer[..len])];
        } else {
          assert buffer[..len][1..] == buffer[1..len];
          trace := trace + [Received(buffer[1..len])];
        }
      } else if buffer[..|DISCONNECT|] == DISCONNECT {
        trace := trace + [Disconnected];
        connected := false;
      }
    }

    /** What the listeners have been told is what the messages received since `start` say. */
    ghost predicate Told(start: Receiver, side: Side, past: seq<Event>,
                         delivered: seq<seq<byte>>, stale: seq<seq<byte>>)
      reads this
    {
      && After(start, past) == Receiver(recvId, 0, [], delivered)
      && |stale| == |delivered| && LongEnough(stale)
      && Side(connected, trace) == HandleAll(side, delivered, stale)
    }

    method ReceiveNext(events: seq<Event>, ghost start: Receiver, ghost side: Side, ghost past: seq<Event>,
                       ghost delivered: seq<seq<byte>>, ghost stale: seq<seq<byte>>)
      returns (used: nat, ghost delivered': seq<seq<byte>>, ghost stale': seq<seq<byte>>)
      requires Valid() && events != [] && events[|events| - 1] == Silence
      requires Told(start, side, past, delivered, stale)
      modifies this`recvId, this`connected, this`trace, buffer
      ensures Valid() && 0 < used <= |events|
      ensures Told(start, side, past + events[..used], delivered', stale')
    {
      var status, len, n := ReceivePartitioned(events, delivered);
      FeedConcat(start, past, events[..n]);
      used, delivered', stale' := n, delivered, stale;
      if status == Success {
        ghost var rest := Dispatch(len);
        HandleOneMore(side, delivered, stale, buffer[..len], rest);
        delivered', stale' := delivered + [buffer[..len]], stale + [rest];
      }
    }

    /** Receives until the transport is shut down. */
    method ReceiveAll(events: seq<Event>) returns (ghost delivered: seq<seq<byte>>, ghost stale: seq<seq<byte>>)
      requires Valid() && events != [] && events[|events| - 1] == Silence
      modifies this`recvId, this`connected, this`trace, buffer
      ensures Valid()
      ensures Told(Receiver(old(recvId), 0, [], []), Side(old(connected), old(trace)), events, delivered, stale)
    {
      ghost var start, side := Receiver(recvId, 0, [], []), Side(connected, trace);
      var done := 0;
      delivered, stale := [], [];
      while done < |events|
        invariant done <= |events| && Valid() && Told(start, side, events[..done], delivered, stale)
      {
        var used;
        used, delivered, stale := ReceiveNext(events[done..], start, side, events[..done], delivered, stale);
        assert events[..done] + events[done..][..used] == events[..done + used];
        done := done + used;
      }
      assert events[..done] == events;
    }

    /** Receives until the transport is shut down, then says goodbye. */
    method ReceiveThread(events: seq<Event>, capacity: nat)
      returns (ghost delivered: seq<seq<byte>>, ghost stale: seq<seq<byte>>)
      requires Valid() && events != [] && events[|events| - 1] == Silence
      modifies this, buffer
      ensures Valid()
      ensures After(Receiver(old(recvId), 0, [], []), events) == Receiver(recvId, 0, [], delivered)
      ensures |stale| == |delivered| && LongEnough(stale)
      ensures var s := HandleAll(Side(old(connected), old(trace)), delivered, stale);
              connected == s.connected && trace == s.trace + [Disconnected]
      ensures calls == old(calls) + [Attempt(DISCONNECT, Min(capacity, ChunkCount(|DISCONNECT|)))]
    {
      delivered, stale := ReceiveAll(events);
      var ok := SendPartitioned(DISCONNECT, capacity);
      trace := trace + [Disconnected];
    }
  }
}
