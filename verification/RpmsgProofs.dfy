/** What the receiver delivers, for every pattern of loss, timeouts and failed sends. */
module RpmsgProofs {
  import opened Rpmsg

  // ---- Loss patterns ----------------------------------------------------------------

  /** Which chunk on the wire reaches the receiver next, or a timeout, or something that is no chunk of
      the peer's. */
  datatype Slot = At(k: nat) | Quiet | Noise(chunk: Chunk)

  function Last(slots: seq<Slot>): int {
    if slots == [] then -1
    else match slots[|slots| - 1]
      case At(k) => k
      case _ => Last(slots[..|slots| - 1])
  }

  /** Chunks arrive in order, with fewer than 2^32 - 1 lost in a row between two of them; whatever else
      arrives does not begin as they do. */
  ghost predicate LossPattern(slots: seq<Slot>, total: nat) {
    slots != [] ==>
      var init, slot := slots[..|slots| - 1], slots[|slots| - 1];
      && LossPattern(init, total)
      && (slot.At? ==> Last(init) < slot.k < total && (Last(init) >= 0 ==> slot.k - Last(init) - 1 < 0xFFFF_FFFF))
      && (slot.Noise? ==> slot.chunk.magic != 0xDEAD_BEEF)
  }

  function EventOf(stream: seq<Piece>, id: nat, slot: Slot): Event {
    match slot
    case At(k) => if k < |stream| then Arrives(OnWire(stream, id, k)) else Silence
    case Quiet => Silence
    case Noise(c) => Arrives(c)
  }

  function EventsOf(stream: seq<Piece>, id: nat, slots: seq<Slot>): seq<Event> {
    seq(|slots|, i requires 0 <= i < |slots| => EventOf(stream, id, slots[i]))
  }

  // ---- No splicing ------------------------------------------------------------------

  /** What the receiver has collected is a prefix of one message, up to the last chunk seen. */
  ghost predicate Collects(attempts: seq<Attempt>, id: nat, r: Receiver, last: int) {
    && (r.prev == 0 ==> r.acc == [])
    && (r.prev > 0 ==>
          && 0 <= last < Total(attempts) && r.id == WireId(id, last)
          && var p := PlaceOf(attempts, last);
             && p.call < |attempts| && p.chunk == r.prev - 1
             && r.acc == attempts[p.call].payload[..Carried(attempts[p.call].payload, r.prev)])
  }

  lemma AllCarried(payload: seq<byte>)
    ensures Carried(payload, ChunkCount(|payload|)) == |payload|
    ensures payload[..|payload|] == payload
  {
  }

  lemma PieceExtends(payload: seq<byte>, k: nat)
    ensures payload[..Carried(payload, k)] + PieceOf(payload, k).payload == payload[..Carried(payload, k + 1)]
    ensures payload[..Carried(payload, 0)] == []
  {
  }

  /** The receiver's decision, once the id check is settled. */
  lemma AcceptCases(r: Receiver, c: Chunk, next: bool)
    requires c.magic == 0xDEAD_BEEF && 1 <= c.number <= 65535
    requires next <==> r.id == 0 || NextId(r.id) == c.id
    ensures Accept(r, c) ==
            if next && r.prev == c.number - 1 && |r.acc| + |c.payload| <= 262144 then
              if c.number == c.count then Receiver(c.id, 0, [], r.out + [r.acc + c.payload])
              else Receiver(c.id, c.number, r.acc + c.payload, r.out)
            else Receiver(c.id, 0, [], r.out)
  {
  }

  /** Inside a message the id check passes exactly for the chunk that follows the last one seen. */
  lemma IdCheck(attempts: seq<Attempt>, id: nat, r: Receiver, last: int, q: nat)
    requires id <= 0xFFFF_FFFF && Collects(attempts, id, r, last) && last < q && r.prev > 0
    requires last >= 0 ==> q - last - 1 < 0xFFFF_FFFF
    ensures q == last + 1 <==> r.id == 0 || NextId(r.id) == WireId(id, q)
  {
    ExpectedIdMeansNext(id, last, q);
  }

  /** What has been collected when a chunk passes the id and number checks. */
  lemma Continues(attempts: seq<Attempt>, id: nat, r: Receiver, last: int, q: nat, p: Place)
    requires last < q < Total(attempts) && Collects(attempts, id, r, last) && p == PlaceOf(attempts, q)
    requires p.call < |attempts| && r.prev == p.chunk && (r.prev > 0 ==> q == last + 1)
    ensures var payload := attempts[p.call].payload; r.acc == payload[..Carried(payload, p.chunk)]
  {
    PieceExtends(attempts[p.call].payload, p.chunk);
    if r.prev > 0 {
      PlacesIncrease(attempts, last, q);
    }
  }

  /** Chunk `k` of a message, when all before it has been collected if the receiver takes it. */
  lemma AcceptPiece(payload: seq<byte>, k: nat, r: Receiver, c: Chunk, next: bool)
    requires k < ChunkCount(|payload|) && k < 65535
    requires c == Chunk(0xDEAD_BEEF, k + 1, ChunkCount(|payload|), c.id, PieceOf(payload, k).payload)
    requires next <==> r.id == 0 || NextId(r.id) == c.id
    requires next && r.prev == k ==> r.acc == payload[..Carried(payload, k)]
    ensures var r' := Accept(r, c);
            && r'.id == c.id && (r'.prev == 0 ==> r'.acc == [])
            && (r'.prev > 0 ==> r'.prev == k + 1 && r'.acc == payload[..Carried(payload, k + 1)])
            && (r'.out == r.out || (r'.out == r.out + [payload] && k + 1 == ChunkCount(|payload|)))
  {
    AcceptCases(r, c, next);
    PieceExtends(payload, k);
    AllCarried(payload);
  }

  lemma PlaceFits(attempts: seq<Attempt>, id: nat, q: nat)
    requires AllPossible(attempts) && q < Total(attempts)
    ensures |Stream(attempts)| == Total(attempts)
    ensures var p := PlaceOf(attempts, q);
            && p.call < |attempts| && p.chunk < attempts[p.call].sent <= ChunkCount(|attempts[p.call].payload|)
            && p.chunk < 65535
            && Stream(attempts)[q] == PieceOf(attempts[p.call].payload, p.chunk)
  {
    StreamAt(attempts, q);
    var a := attempts[PlaceOf(attempts, q).call];
    assert a in attempts && Possible(a);
  }

  /** One arrival: the collected part stays a prefix of one message, and a delivery is a whole
      message, completed by the chunk that arrived. */
  lemma AcceptCollects(attempts: seq<Attempt>, id: nat, r: Receiver, last: int, q: nat)
    requires id <= 0xFFFF_FFFF && AllPossible(attempts) && last < q < Total(attempts) && Collects(attempts, id, r, last)
    requires last >= 0 ==> q - last - 1 < 0xFFFF_FFFF
    ensures |Stream(attempts)| == Total(attempts)
    ensures var r' := Accept(r, OnWire(Stream(attempts), id, q));
            var p := PlaceOf(attempts, q);
            && Collects(attempts, id, r', q)
            && p.call < |attempts|
            && (r'.out == r.out
                || (r'.out == r.out + [attempts[p.call].payload] && Complete(attempts[p.call])
                    && p.chunk + 1 == attempts[p.call].sent))
  {
    PlaceFits(attempts, id, q);
    var p := PlaceOf(attempts, q);
    var c := OnWire(Stream(attempts), id, q);
    var next := r.id == 0 || NextId(r.id) == c.id;
    if next && r.prev == p.chunk {
      if r.prev > 0 {
        IdCheck(attempts, id, r, last, q);
      }
      Continues(attempts, id, r, last, q, p);
    }
    AcceptPiece(attempts[p.call].payload, p.chunk, r, c, next);
  }

  /** `calls` picks, for each delivered message, a later and later completed call that sent it. */
  ghost predicate Explains(attempts: seq<Attempt>, delivered: seq<seq<byte>>, calls: seq<nat>) {
    && |calls| == |delivered|
    && (forall i :: 0 <= i < |calls| ==> calls[i] < |attempts| && Complete(attempts[calls[i]])
                                         && delivered[i] == attempts[calls[i]].payload)
    && (forall i, j :: 0 <= i < j < |calls| ==> calls[i] < calls[j])
  }

  /** No delivered call reaches beyond the last chunk seen. */
  ghost predicate UpTo(attempts: seq<Attempt>, calls: seq<nat>, last: int) {
    forall i :: 0 <= i < |calls| ==>
      && 0 <= last < Total(attempts) && calls[i] < |attempts|
      && var p := PlaceOf(attempts, last);
         calls[i] < p.call || (calls[i] == p.call && p.chunk + 1 == attempts[p.call].sent)
  }

  lemma UpToAdvances(attempts: seq<Attempt>, calls: seq<nat>, last: int, q: nat)
    requires UpTo(attempts, calls, last) && last < q < Total(attempts)
    ensures forall i :: 0 <= i < |calls| ==> calls[i] < PlaceOf(attempts, q).call
  {
    forall i | 0 <= i < |calls|
      ensures calls[i] < PlaceOf(attempts, q).call
    {
      assert calls[i] < |attempts| && 0 <= last;
      PlacesIncrease(attempts, last, q);
      StreamAt(attempts, q);
    }
  }

  lemma UnsplicedArrival(attempts: seq<Attempt>, id: nat, r: Receiver, last: int, q: nat, calls: seq<nat>)
    returns (calls': seq<nat>)
    requires id <= 0xFFFF_FFFF && AllPossible(attempts) && last < q < Total(attempts)
    requires last >= 0 ==> q - last - 1 < 0xFFFF_FFFF
    requires Collects(attempts, id, r, last) && Explains(attempts, r.out, calls) && UpTo(attempts, calls, last)
    ensures |Stream(attempts)| == Total(attempts)
    ensures var r' := Accept(r, OnWire(Stream(attempts), id, q));
            Collects(attempts, id, r', q) && Explains(attempts, r'.out, calls') && UpTo(attempts, calls', q)
  {
    AcceptCollects(attempts, id, r, last, q);
    UpToAdvances(attempts, calls, last, q);
    if Accept(r, OnWire(Stream(attempts), id, q)).out == r.out {
      calls' := calls;
    } else {
      calls' := calls + [PlaceOf(attempts, q).call];
      OneMoreCall(attempts, r.out, calls, q);
    }
  }

  lemma OneMoreCall(attempts: seq<Attempt>, out: seq<seq<byte>>, calls: seq<nat>, q: nat)
    requires q < Total(attempts) && Explains(attempts, out, calls)
    requires forall i :: 0 <= i < |calls| ==> calls[i] < PlaceOf(attempts, q).call
    requires var p := PlaceOf(attempts, q);
             p.call < |attempts| && Complete(attempts[p.call]) && p.chunk + 1 == attempts[p.call].sent
    ensures var p := PlaceOf(attempts, q);
            && Explains(attempts, out + [attempts[p.call].payload], calls + [p.call])
            && UpTo(attempts, calls + [p.call], q)
  {
  }

  /** The state of a receiver that has seen the wire up to `last`, with the calls it has delivered. */
  ghost predicate Sound(attempts: seq<Attempt>, id: nat, r: Receiver, last: int, calls: seq<nat>) {
    Collects(attempts, id, r, last) && Explains(attempts, r.out, calls) && UpTo(attempts, calls, last)
  }

  lemma SoundStep(attempts: seq<Attempt>, id: nat, r: Receiver, last: int, slot: Slot, calls: seq<nat>)
    returns (calls': seq<nat>)
    requires id <= 0xFFFF_FFFF && AllPossible(attempts) && Sound(attempts, id, r, last, calls)
    requires slot.At? ==> last < slot.k < Total(attempts) && (last >= 0 ==> slot.k - last - 1 < 0xFFFF_FFFF)
    requires slot.Noise? ==> slot.chunk.magic != 0xDEAD_BEEF
    ensures Sound(attempts, id, Step(r, EventOf(Stream(attempts), id, slot)), if slot.At? then slot.k else last, calls')
  {
    calls' := calls;
    StreamLength(attempts);
    if slot.At? {
      calls' := UnsplicedArrival(attempts, id, r, last, slot.k, calls);
    }
  }

  lemma AfterOneMore(attempts: seq<Attempt>, id: nat, slots: seq<Slot>, slot: Slot)
    ensures After(FRESH, EventsOf(Stream(attempts), id, slots + [slot]))
         == Step(After(FRESH, EventsOf(Stream(attempts), id, slots)), EventOf(Stream(attempts), id, slot))
  {
    var before, event := EventsOf(Stream(attempts), id, slots), EventOf(Stream(attempts), id, slot);
    assert EventsOf(Stream(attempts), id, slots + [slot]) == before + [event];
    FeedOne(FRESH, before, event);
  }

  lemma {:induction false} Unspliced(attempts: seq<Attempt>, id: nat, slots: seq<Slot>) returns (calls: seq<nat>)
    requires id <= 0xFFFF_FFFF && AllPossible(attempts) && LossPattern(slots, Total(attempts))
    ensures Sound(attempts, id, After(FRESH, EventsOf(Stream(attempts), id, slots)), Last(slots), calls)
    decreases |slots|
  {
    if slots == [] {
      calls := [];
    } else {
      var init, slot := slots[..|slots| - 1], slots[|slots| - 1];
      calls := Unspliced(attempts, id, init);
      calls := SoundStep(attempts, id, After(FRESH, EventsOf(Stream(attempts), id, init)), Last(init), slot, calls);
      AfterOneMore(attempts, id, init, slot);
      assert slots == init + [slot];
    }
  }

  /** No splicing: whatever is lost, wherever timeouts fall and sends fail, and whatever comes that is
      not the peer's, each delivered message is one whole sent message, and messages are delivered in
      the order they were sent. */
  lemma NoSplicing(attempts: seq<Attempt>, id: nat, slots: seq<Slot>)
    requires id <= 0xFFFF_FFFF && AllPossible(attempts) && LossPattern(slots, Total(attempts))
    ensures exists calls :: Explains(attempts, After(FRESH, EventsOf(Stream(attempts), id, slots)).out, calls)
  {
    var calls := Unspliced(attempts, id, slots);
  }

  // ---- Exactly what is delivered when nothing is lost -----------------------------------

  lemma {:induction false} FeedConcat(r: Receiver, xs: seq<Event>, ys: seq<Event>)
    ensures After(r, xs + ys) == After(After(r, xs), ys)
    decreases |ys|
  {
    if ys == [] {
      assert xs + ys == xs;
    } else {
      var n := |ys| - 1;
      assert (xs + ys)[..|xs + ys| - 1] == xs + ys[..n];
      FeedConcat(r, xs, ys[..n]);
    }
  }

  lemma FeedOne(r: Receiver, es: seq<Event>, e: Event)
    ensures After(r, es + [e]) == Step(After(r, es), e)
  {
    assert (es + [e])[..|es|] == es;
  }

  /** Chunk `k` of a message, when chunk `j` of it is the n-th on the wire. */
  function ChunkAt(payload: seq<byte>, j: nat, k: nat, id: nat, n: nat): Chunk
    requires j <= k
  {
    var p := PieceOf(payload, k);
    Chunk(0xDEAD_BEEF, p.number, p.count, WireId(id, n + k - j), p.payload)
  }

  /** Chunks `j` up to `k` of a message arriving, the first as the n-th on the wire. */
  function ChunkEvents(payload: seq<byte>, j: nat, k: nat, id: nat, n: nat): seq<Event>
    requires j <= k
  {
    if j == k then [] else ChunkEvents(payload, j, k - 1, id, n) + [Arrives(ChunkAt(payload, j, k - 1, id, n))]
  }

  /** A receiver that expects the n-th chunk, with nothing collected if it is not waiting. */
  predicate Ready(r: Receiver, id: nat, n: nat) {
    (r.id == 0 || NextId(r.id) == WireId(id, n)) && (r.prev == 0 ==> r.acc == [])
  }

  /** The receiver after the first `k >= 1` chunks of a message, when it was (or was not) waiting
      for the rest of another one before. */
  function Midway(payload: seq<byte>, id: nat, n: nat, clean: bool, k: nat, out: seq<seq<byte>>): Receiver
    requires k >= 1
  {
    if !clean || Carried(payload, k) > 262144 then Receiver(WireId(id, n + k - 1), 0, [], out)
    else if k < ChunkCount(|payload|) then Receiver(WireId(id, n + k - 1), k, payload[..Carried(payload, k)], out)
    else Receiver(WireId(id, n + k - 1), 0, [], out + [payload])
  }

  lemma FirstChunk(payload: seq<byte>, id: nat, n: nat, r: Receiver)
    requires 1 <= ChunkCount(|payload|) < 65535 && Ready(r, id, n)
    ensures Accept(r, ChunkAt(payload, 0, 0, id, n)) == Midway(payload, id, n, r.prev == 0, 1, r.out)
  {
    AcceptCases(r, ChunkAt(payload, 0, 0, id, n), true);
    PieceExtends(payload, 0);
    AllCarried(payload);
  }

  lemma NextChunk(payload: seq<byte>, id: nat, n: nat, clean: bool, k: nat, out: seq<seq<byte>>)
    requires 1 <= k < ChunkCount(|payload|) < 65535
    ensures Accept(Midway(payload, id, n, clean, k, out), ChunkAt(payload, 0, k, id, n))
         == Midway(payload, id, n, clean, k + 1, out)
  {
    AcceptCases(Midway(payload, id, n, clean, k, out), ChunkAt(payload, 0, k, id, n), true);
    PieceExtends(payload, k);
    AllCarried(payload);
  }

  lemma {:induction false} FeedMessage(payload: seq<byte>, id: nat, n: nat, r: Receiver, k: nat)
    requires k < ChunkCount(|payload|) < 65535 && Ready(r, id, n)
    ensures After(r, ChunkEvents(payload, 0, k + 1, id, n)) == Midway(payload, id, n, r.prev == 0, k + 1, r.out)
    decreases k
  {
    var es := ChunkEvents(payload, 0, k, id, n);
    FeedOne(r, es, Arrives(ChunkAt(payload, 0, k, id, n)));
    if k > 0 {
      FeedMessage(payload, id, n, r, k - 1);
      NextChunk(payload, id, n, r.prev == 0, k, r.out);
    } else {
      assert es == [];
      FirstChunk(payload, id, n, r);
    }
  }

  /** All chunks of one call arriving, and a timeout after it if there is a pause. */
  function CallEvents(a: Attempt, pause: bool, id: nat, n: nat): seq<Event> {
    ChunkEvents(a.payload, 0, a.sent, id, n) + if pause then [Silence] else []
  }

  /** All chunks of a series of calls arriving; `pauses[i]` says whether a timeout falls after
      call `i`. */
  function Undisturbed(attempts: seq<Attempt>, pauses: seq<bool>, id: nat, n: nat): seq<Event>
    requires |pauses| == |attempts|
    decreases |attempts|
  {
    if attempts == [] then []
    else CallEvents(attempts[0], pauses[0], id, n)
         + Undisturbed(attempts[1..], pauses[1..], id, n + attempts[0].sent)
  }

  /** What a call delivers to a receiver that is (or is not) waiting for the rest of a message. */
  function CallOutput(a: Attempt, clean: bool): seq<seq<byte>> {
    if a.sent > 0 && clean && Complete(a) && |a.payload| <= 262144 then [a.payload] else []
  }

  /** Whether the receiver is not waiting for the rest of a message after the call. */
  predicate CleanAfter(a: Attempt, pause: bool, clean: bool) {
    || pause
    || (if a.sent == 0 then clean
        else !clean || Complete(a) || Carried(a.payload, a.sent) > 262144)
  }

  /** The messages that get through: those sent whole, no larger than the receive buffer, and not
      just after a call that failed part-way without a timeout in between. */
  function Expected(attempts: seq<Attempt>, pauses: seq<bool>, clean: bool): seq<seq<byte>>
    requires |pauses| == |attempts|
    decreases |attempts|
  {
    if attempts == [] then []
    else CallOutput(attempts[0], clean)
         + Expected(attempts[1..], pauses[1..], CleanAfter(attempts[0], pauses[0], clean))
  }

  lemma FeedChunks(a: Attempt, id: nat, n: nat, r: Receiver)
    requires Possible(a) && Ready(r, id, n)
    ensures var r' := After(r, ChunkEvents(a.payload, 0, a.sent, id, n));
            && Ready(r', id, n + a.sent)
            && (r'.prev == 0 <==> CleanAfter(a, false, r.prev == 0))
            && r'.out == r.out + CallOutput(a, r.prev == 0)
  {
    if a.sent > 0 {
      FeedMessage(a.payload, id, n, r, a.sent - 1);
      AllCarried(a.payload);
    }
  }

  /** The receiver after one call whose chunks all arrive, and after the pause if there is one. */
  lemma FeedCall(a: Attempt, pause: bool, id: nat, n: nat, r: Receiver) returns (r': Receiver)
    requires Possible(a) && Ready(r, id, n)
    ensures r' == After(r, CallEvents(a, pause, id, n))
    ensures Ready(r', id, n + a.sent)
    ensures r'.prev == 0 <==> CleanAfter(a, pause, r.prev == 0)
    ensures r'.out == r.out + CallOutput(a, r.prev == 0)
  {
    var xs := ChunkEvents(a.payload, 0, a.sent, id, n);
    FeedChunks(a, id, n, r);
    if pause {
      FeedOne(r, xs, Silence);
    } else {
      assert xs + [] == xs;
    }
    r' := After(r, CallEvents(a, pause, id, n));
  }

  /** Exactly these messages are delivered, in this order. */
  predicate Delivers(r: Receiver, es: seq<Event>, out: seq<seq<byte>>) {
    After(r, es).out == r.out + out
  }

  lemma DeliversJoin(r: Receiver, xs: seq<Event>, ys: seq<Event>, o: seq<seq<byte>>, p: seq<seq<byte>>, r': Receiver)
    requires r' == After(r, xs) && r'.out == r.out + o && Delivers(r', ys, p)
    ensures Delivers(r, xs + ys, o + p)
  {
    FeedConcat(r, xs, ys);
  }

  lemma {:induction false} FeedUndisturbed(attempts: seq<Attempt>, pauses: seq<bool>, id: nat, n: nat, r: Receiver)
    requires AllPossible(attempts) && |pauses| == |attempts| && Ready(r, id, n)
    ensures Delivers(r, Undisturbed(attempts, pauses, id, n), Expected(attempts, pauses, r.prev == 0))
    decreases |attempts|
  {
    if attempts != [] {
      assert attempts[0] in attempts;
      var r' := FeedCall(attempts[0], pauses[0], id, n, r);
      FeedUndisturbed(attempts[1..], pauses[1..], id, n + attempts[0].sent, r');
      DeliversJoin(r, CallEvents(attempts[0], pauses[0], id, n),
                   Undisturbed(attempts[1..], pauses[1..], id, n + attempts[0].sent),
                   CallOutput(attempts[0], r.prev == 0),
                   Expected(attempts[1..], pauses[1..], CleanAfter(attempts[0], pauses[0], r.prev == 0)), r');
    }
  }

  /** Without loss, a fresh receiver delivers exactly the expected messages. */
  lemma LosslessDelivery(attempts: seq<Attempt>, pauses: seq<bool>, id: nat)
    requires AllPossible(attempts) && |pauses| == |attempts|
    ensures After(FRESH, Undisturbed(attempts, pauses, id, 0)).out == Expected(attempts, pauses, true)
  {
    FeedUndisturbed(attempts, pauses, id, 0, FRESH);
  }

  // ---- Nothing lost is a loss pattern too -----------------------------------------------

  /** Chunks `n` up to `n + k` of the wire, each arriving. */
  function InOrder(k: nat, n: nat): seq<Slot> {
    if k == 0 then [] else InOrder(k - 1, n) + [At(n + k - 1)]
  }

  /** A whole call arriving, and the pause after it if there is one. */
  function CallSlots(sent: nat, pause: bool, n: nat): seq<Slot> {
    InOrder(sent, n) + if pause then [Quiet] else []
  }

  /** The pattern in which every chunk arrives and only the pauses time out. */
  function NothingLost(attempts: seq<Attempt>, pauses: seq<bool>, n: nat): seq<Slot>
    requires |pauses| == |attempts|
    decreases |attempts|
  {
    if attempts == [] then []
    else CallSlots(attempts[0].sent, pauses[0], n)
         + NothingLost(attempts[1..], pauses[1..], n + attempts[0].sent)
  }

  ghost predicate Feeds(stream: seq<Piece>, id: nat, slots: seq<Slot>, es: seq<Event>) {
    EventsOf(stream, id, slots) == es
  }

  lemma FeedsJoin(stream: seq<Piece>, id: nat, xs: seq<Slot>, ys: seq<Slot>, es: seq<Event>, fs: seq<Event>)
    requires Feeds(stream, id, xs, es) && Feeds(stream, id, ys, fs)
    ensures Feeds(stream, id, xs + ys, es + fs)
  {
  }

  lemma {:induction false} InOrderEvents(stream: seq<Piece>, payload: seq<byte>, k: nat, id: nat, n: nat)
    requires n + k <= |stream| && forall i :: 0 <= i < k ==> stream[n + i] == PieceOf(payload, i)
    ensures Feeds(stream, id, InOrder(k, n), ChunkEvents(payload, 0, k, id, n))
  {
    if k > 0 {
      InOrderEvents(stream, payload, k - 1, id, n);
      assert stream[n + (k - 1)] == PieceOf(payload, k - 1);
      FeedsJoin(stream, id, InOrder(k - 1, n), [At(n + k - 1)],
                ChunkEvents(payload, 0, k - 1, id, n), [Arrives(ChunkAt(payload, 0, k - 1, id, n))]);
    }
  }

  lemma CallFeeds(stream: seq<Piece>, a: Attempt, pause: bool, id: nat, n: nat)
    requires n + a.sent <= |stream| && stream[n..n + a.sent] == Pieces(a.payload, a.sent)
    ensures Feeds(stream, id, CallSlots(a.sent, pause, n), CallEvents(a, pause, id, n))
  {
    PieceAt(a.payload, a.sent);
    forall i | 0 <= i < a.sent
      ensures stream[n + i] == PieceOf(a.payload, i)
    {
      assert stream[n + i] == stream[n..n + a.sent][i];
    }
    InOrderEvents(stream, a.payload, a.sent, id, n);
    FeedsJoin(stream, id, InOrder(a.sent, n), if pause then [Quiet] else [],
              ChunkEvents(a.payload, 0, a.sent, id, n), if pause then [Silence] else []);
  }

  /** The stream from `n` on begins with the pieces of the first call. */
  lemma FirstCall(stream: seq<Piece>, attempts: seq<Attempt>, n: nat)
    requires attempts != [] && n <= |stream| && stream[n..] == Stream(attempts)
    ensures n + attempts[0].sent <= |stream|
    ensures stream[n..n + attempts[0].sent] == Pieces(attempts[0].payload, attempts[0].sent)
    ensures stream[n + attempts[0].sent..] == Stream(attempts[1..])
  {
    var a := attempts[0];
    PieceAt(a.payload, a.sent);
    assert stream[n..n + a.sent] == stream[n..][..a.sent];
    assert stream[n + a.sent..] == stream[n..][a.sent..];
  }

  lemma {:induction false} SlotsUndisturbed(stream: seq<Piece>, attempts: seq<Attempt>, pauses: seq<bool>,
                                            id: nat, n: nat)
    requires |pauses| == |attempts| && n <= |stream| && stream[n..] == Stream(attempts)
    ensures Feeds(stream, id, NothingLost(attempts, pauses, n), Undisturbed(attempts, pauses, id, n))
    decreases |attempts|
  {
    if attempts != [] {
      var a := attempts[0];
      FirstCall(stream, attempts, n);
      CallFeeds(stream, a, pauses[0], id, n);
      SlotsUndisturbed(stream, attempts[1..], pauses[1..], id, n + a.sent);
      FeedsJoin(stream, id, CallSlots(a.sent, pauses[0], n),
                NothingLost(attempts[1..], pauses[1..], n + a.sent),
                CallEvents(a, pauses[0], id, n), Undisturbed(attempts[1..], pauses[1..], id, n + a.sent));
    }
  }

  /** A loss pattern that has come as far as chunk `n`. */
  ghost predicate Reaches(slots: seq<Slot>, n: nat, total: nat) {
    LossPattern(slots, total) && Last(slots) == n - 1
  }

  lemma ReachesOne(slots: seq<Slot>, slot: Slot, n: nat, total: nat)
    requires Reaches(slots, n, total) && !slot.Noise? && (slot.At? ==> slot.k == n < total)
    ensures Reaches(slots + [slot], if slot.At? then n + 1 else n, total)
  {
    assert (slots + [slot])[..|slots|] == slots;
  }

  lemma {:induction false} ReachesInOrder(slots: seq<Slot>, k: nat, n: nat, total: nat)
    requires Reaches(slots, n, total) && n + k <= total
    ensures Reaches(slots + InOrder(k, n), n + k, total)
  {
    if k == 0 {
      assert slots + [] == slots;
    } else {
      ReachesInOrder(slots, k - 1, n, total);
      ReachesOne(slots + InOrder(k - 1, n), At(n + k - 1), n + k - 1, total);
      assert slots + InOrder(k - 1, n) + [At(n + k - 1)] == slots + InOrder(k, n);
    }
  }

  lemma ReachesCall(slots: seq<Slot>, sent: nat, pause: bool, n: nat, total: nat)
    requires Reaches(slots, n, total) && n + sent <= total
    ensures Reaches(slots + CallSlots(sent, pause, n), n + sent, total)
  {
    ReachesInOrder(slots, sent, n, total);
    if pause {
      ReachesOne(slots + InOrder(sent, n), Quiet, n + sent, total);
      assert slots + InOrder(sent, n) + [Quiet] == slots + (InOrder(sent, n) + [Quiet]);
    } else {
      assert InOrder(sent, n) + [] == InOrder(sent, n);
    }
  }

  lemma Associates(xs: seq<Slot>, ys: seq<Slot>, zs: seq<Slot>)
    ensures xs + ys + zs == xs + (ys + zs)
  {
  }

  lemma {:induction false} ReachesAll(slots: seq<Slot>, attempts: seq<Attempt>, pauses: seq<bool>, n: nat,
                                      total: nat, all: seq<Slot>)
    requires |pauses| == |attempts| && Reaches(slots, n, total) && n + Total(attempts) == total
    requires all == slots + NothingLost(attempts, pauses, n)
    ensures Reaches(all, total, total)
    decreases |attempts|
  {
    if attempts == [] {
      assert slots + [] == slots;
    } else {
      var sent := attempts[0].sent;
      var call := CallSlots(sent, pauses[0], n);
      ReachesCall(slots, sent, pauses[0], n, total);
      Associates(slots, call, NothingLost(attempts[1..], pauses[1..], n + sent));
      ReachesAll(slots + call, attempts[1..], pauses[1..], n + sent, total, all);
    }
  }

  /** An undisturbed series of calls is the loss pattern in which nothing is lost: the two accounts
      of what reaches the receiver are of the same wire. */
  lemma UndisturbedIsAPattern(attempts: seq<Attempt>, pauses: seq<bool>, id: nat)
    requires |pauses| == |attempts|
    ensures LossPattern(NothingLost(attempts, pauses, 0), Total(attempts))
    ensures EventsOf(Stream(attempts), id, NothingLost(attempts, pauses, 0)) == Undisturbed(attempts, pauses, id, 0)
  {
    assert [] + NothingLost(attempts, pauses, 0) == NothingLost(attempts, pauses, 0);
    ReachesAll([], attempts, pauses, 0, Total(attempts), NothingLost(attempts, pauses, 0));
    SlotsUndisturbed(Stream(attempts), attempts, pauses, id, 0);
  }

  // ---- When every send succeeds -----------------------------------------------------------

  /** The messages a receiver can hold at all. */
  function Fitting(payloads: seq<seq<byte>>): seq<seq<byte>> {
    if payloads == [] then []
    else (if 0 < |payloads[0]| <= 262144 then [payloads[0]] else []) + Fitting(payloads[1..])
  }

  /** The calls made when no send fails. */
  function Sent(payloads: seq<seq<byte>>): seq<Attempt> {
    if payloads == [] then []
    else [Attempt(payloads[0], ChunkCount(|payloads[0]|))] + Sent(payloads[1..])
  }

  /** When every send succeeds, exactly the messages that fit arrive: an empty one puts nothing on
      the wire, and one larger than the receive buffer is dropped without harm to its neighbours. */
  lemma {:induction false} AllExpected(payloads: seq<seq<byte>>, pauses: seq<bool>)
    requires |Sent(payloads)| == |pauses|
    ensures Expected(Sent(payloads), pauses, true) == Fitting(payloads)
    decreases |payloads|
  {
    if payloads != [] {
      assert Sent(payloads)[1..] == Sent(payloads[1..]);
      AllExpected(payloads[1..], pauses[1..]);
    }
  }

  // ---- Resynchronisation after a gap ----------------------------------------------------

  lemma LateChunkRefused(payload: seq<byte>, j: nat, k: nat, id: nat, n: nat, r: Receiver)
    requires j <= k < 65535
    requires (r.id != 0 && NextId(r.id) != WireId(id, n + k - j)) || (k > 0 && r.prev == 0)
    ensures Accept(r, ChunkAt(payload, j, k, id, n)) == Receiver(WireId(id, n + k - j), 0, [], r.out)
  {
    AcceptCases(r, ChunkAt(payload, j, k, id, n), r.id == 0 || NextId(r.id) == WireId(id, n + k - j));
  }

  lemma LateStep(payload: seq<byte>, j: nat, k: nat, id: nat, n: nat, r: Receiver, es: seq<Event>, r1: Receiver)
    requires j <= k < 65535 && After(r, es) == r1
    requires (r1.id != 0 && NextId(r1.id) != WireId(id, n + k - j)) || (k > 0 && r1.prev == 0)
    ensures After(r, es + [Arrives(ChunkAt(payload, j, k, id, n))]) == Receiver(WireId(id, n + k - j), 0, [], r1.out)
  {
    FeedOne(r, es, Arrives(ChunkAt(payload, j, k, id, n)));
    LateChunkRefused(payload, j, k, id, n, r1);
  }

  /** A pause after some events, or none. */
  lemma Paused(r: Receiver, xs: seq<Event>, pause: bool, r1: Receiver)
    requires After(r, xs) == r1 && r1.prev == 0 && r1.acc == []
    ensures After(r, xs + (if pause then [Silence] else [])) == r1
  {
    if pause {
      FeedOne(r, xs, Silence);
    } else {
      assert xs + [] == xs;
    }
  }

  /** The n-th chunk on the wire, chunk `j` of its message, is not one the receiver can take. */
  predicate OutOfStep(r: Receiver, j: nat, id: nat, n: nat) {
    (r.id != 0 && NextId(r.id) != WireId(id, n)) || (j > 0 && r.prev == 0)
  }

  /** Then the rest of the message under way is refused, whatever had been collected. */
  lemma {:induction false} FeedRemainder(payload: seq<byte>, j: nat, k: nat, id: nat, n: nat, r: Receiver)
    requires j <= k < 65535 && OutOfStep(r, j, id, n)
    ensures After(r, ChunkEvents(payload, j, k + 1, id, n)) == Receiver(WireId(id, n + k - j), 0, [], r.out)
    decreases k
  {
    var es := ChunkEvents(payload, j, k, id, n);
    if k > j {
      FeedRemainder(payload, j, k - 1, id, n, r);
      LateStep(payload, j, k, id, n, r, es, Receiver(WireId(id, n + k - 1 - j), 0, [], r.out));
    } else {
      LateStep(payload, j, k, id, n, r, es, r);
    }
  }

  lemma FeedLateCall(a: Attempt, j: nat, pause: bool, id: nat, q: nat, r: Receiver) returns (r': Receiver)
    requires Possible(a) && j < a.sent && OutOfStep(r, j, id, q)
    ensures r' == After(r, RestOf(a, j, pause, id, q))
    ensures Ready(r', id, q + a.sent - j) && r'.prev == 0 && r'.out == r.out
  {
    FeedRemainder(a.payload, j, a.sent - 1, id, q, r);
    r' := Receiver(WireId(id, q + a.sent - 1 - j), 0, [], r.out);
    Paused(r, ChunkEvents(a.payload, j, a.sent, id, q), pause, r');
  }

  /** Chunk `q`, the j-th of its call, arrives after a gap: chunks are missing since the last one
      seen, `p`, or the beginning of the call was never collected, be it because nothing had been
      seen at all or because of a timeout. */
  ghost predicate Gap(r: Receiver, j: nat, id: nat, p: nat, q: nat) {
    (r.id == WireId(id, p) && p + 1 < q <= p + 0xFFFF_FFFF) || (j > 0 && r.prev == 0)
  }

  /** Events that deliver nothing, and then others. */
  lemma SilentThen(r: Receiver, xs: seq<Event>, r': Receiver, ys: seq<Event>, out: seq<seq<byte>>)
    requires After(r, xs) == r' && r'.out == r.out && Delivers(r', ys, out)
    ensures Delivers(r, xs + ys, out)
  {
    FeedConcat(r, xs, ys);
  }

  lemma GapOutOfStep(r: Receiver, j: nat, id: nat, p: nat, q: nat)
    requires id <= 0xFFFF_FFFF && Gap(r, j, id, p, q)
    ensures OutOfStep(r, j, id, q)
  {
    if !(j > 0 && r.prev == 0) {
      ExpectedIdMeansNext(id, p, q);
    }
  }

  /** The chunks of a call from the j-th on, that one as the q-th on the wire, and the pause after it. */
  function RestOf(a: Attempt, j: nat, pause: bool, id: nat, q: nat): seq<Event>
    requires j <= a.sent
  {
    ChunkEvents(a.payload, j, a.sent, id, q) + if pause then [Silence] else []
  }

  /** What is delivered if chunk `j` of a call comes out of step: nothing of that call, and everything
      after it, of which `n` is the first chunk. */
  lemma LateDelivers(a: Attempt, j: nat, pause: bool, attempts: seq<Attempt>, pauses: seq<bool>,
                     id: nat, q: nat, n: nat, r: Receiver)
    requires Possible(a) && AllPossible(attempts) && |pauses| == |attempts| && j < a.sent && OutOfStep(r, j, id, q)
    requires n == q + a.sent - j
    ensures Delivers(r, RestOf(a, j, pause, id, q) + Undisturbed(attempts, pauses, id, n),
                     Expected(attempts, pauses, true))
  {
    var r' := FeedLateCall(a, j, pause, id, q, r);
    FeedUndisturbed(attempts, pauses, id, n, r');
    SilentThen(r, RestOf(a, j, pause, id, q), r', Undisturbed(attempts, pauses, id, n),
               Expected(attempts, pauses, true));
  }

  /** Resynchronisation: if nothing more is lost after a gap, the call under way is given up and
      everything after it is delivered as if nothing had happened. */
  lemma Resynchronises(a: Attempt, j: nat, pause: bool, attempts: seq<Attempt>, pauses: seq<bool>,
                       id: nat, p: nat, q: nat, n: nat, r: Receiver)
    requires Possible(a) && AllPossible(attempts) && |pauses| == |attempts| && j < a.sent && n == q + a.sent - j
    requires id <= 0xFFFF_FFFF && Gap(r, j, id, p, q)
    ensures Delivers(r, RestOf(a, j, pause, id, q) + Undisturbed(attempts, pauses, id, n),
                     Expected(attempts, pauses, true))
  {
    GapOutOfStep(r, j, id, p, q);
    LateDelivers(a, j, pause, attempts, pauses, id, q, n, r);
  }

  /** A timeout before the first chunk after the gap makes no difference: the receiver still knows which
      chunk it saw last. */
  lemma ResynchronisesLater(a: Attempt, j: nat, pause: bool, attempts: seq<Attempt>, pauses: seq<bool>,
                            id: nat, p: nat, q: nat, n: nat, r: Receiver)
    requires Possible(a) && AllPossible(attempts) && |pauses| == |attempts| && j < a.sent && n == q + a.sent - j
    requires id <= 0xFFFF_FFFF && Gap(r, j, id, p, q)
    ensures Delivers(r, [Silence] + (RestOf(a, j, pause, id, q) + Undisturbed(attempts, pauses, id, n)),
                     Expected(attempts, pauses, true))
  {
    FeedOne(r, [], Silence);
    assert [] + [Silence] == [Silence];
    var r' := Receiver(r.id, 0, [], r.out);
    Resynchronises(a, j, pause, attempts, pauses, id, p, q, n, r');
    SilentThen(r, [Silence], r', RestOf(a, j, pause, id, q) + Undisturbed(attempts, pauses, id, n),
               Expected(attempts, pauses, true));
  }

  /** A packet that arrives damaged where the q-th chunk was expected, the one before chunk `j` of its
      call, counts as that one: the call under way is given up with the rest of its chunks, and
      everything after it is delivered as if nothing had happened. */
  lemma DamagedChunk(c: Chunk, a: Attempt, j: nat, pause: bool, attempts: seq<Attempt>, pauses: seq<bool>,
                     id: nat, q: nat, n: nat, r: Receiver)
    requires Possible(a) && AllPossible(attempts) && |pauses| == |attempts| && 0 < j <= a.sent
    requires n == q + 1 + a.sent - j
    requires id <= 0xFFFF_FFFF && c.magic != 0xDEAD_BEEF && r.id != 0 && NextId(r.id) == WireId(id, q)
    ensures Delivers(r, [Arrives(c)] + (RestOf(a, j, pause, id, q + 1) + Undisturbed(attempts, pauses, id, n)),
                     Expected(attempts, pauses, true))
  {
    var r' := Receiver(WireId(id, q), 0, [], r.out);
    DamagedStep(c, id, q, r);
    AfterDamage(a, j, pause, attempts, pauses, id, q, n, r');
    SilentThen(r, [Arrives(c)], r', RestOf(a, j, pause, id, q + 1) + Undisturbed(attempts, pauses, id, n),
               Expected(attempts, pauses, true));
  }

  lemma DamagedStep(c: Chunk, id: nat, q: nat, r: Receiver)
    requires c.magic != 0xDEAD_BEEF && r.id != 0 && NextId(r.id) == WireId(id, q)
    ensures After(r, [Arrives(c)]) == Receiver(WireId(id, q), 0, [], r.out)
  {
    FeedOne(r, [], Arrives(c));
    assert [] + [Arrives(c)] == [Arrives(c)];
  }

  lemma AfterDamage(a: Attempt, j: nat, pause: bool, attempts: seq<Attempt>, pauses: seq<bool>,
                    id: nat, q: nat, n: nat, r: Receiver)
    requires Possible(a) && AllPossible(attempts) && |pauses| == |attempts| && 0 < j <= a.sent
    requires n == q + 1 + a.sent - j && r.id == WireId(id, q) && r.prev == 0 && r.acc == []
    ensures Delivers(r, RestOf(a, j, pause, id, q + 1) + Undisturbed(attempts, pauses, id, n),
                     Expected(attempts, pauses, true))
  {
    if j < a.sent {
      LateDelivers(a, j, pause, attempts, pauses, id, q + 1, n, r);
    } else {
      Paused(r, [], pause, r);
      FeedUndisturbed(attempts, pauses, id, n, r);
      SilentThen(r, RestOf(a, j, pause, id, q + 1), r, Undisturbed(attempts, pauses, id, n),
                 Expected(attempts, pauses, true));
    }
  }
}
