/** Fragmentation of messages into numbered chunks and their reassembly. */
module Rpmsg {

  type byte = x: int | 0 <= x < 256

  // A chunk is at most 256 bytes on the wire: a 12-byte header and 244 bytes of payload.
  const MAX_PACKET := 262144
  const MAGIC := 0xDEAD_BEEF
  const UINT16_MAX := 0xFFFF

  datatype Chunk = Chunk(magic: nat, number: nat, count: nat, id: nat, payload: seq<byte>)

  // ---- Chunk ids --------------------------------------------------------------------

  /** Increment of a 32-bit counter that skips zero when it wraps. */
  function NextId(id: nat): nat {
    var next := if id == 0xFFFF_FFFF then 0 else id + 1;
    if next != 0 then next else next + 1
  }

  /** The id of the chunk sent when `k` others have gone out since the last id was `id`. */
  function WireId(id: nat, k: nat): nat {
    if k == 0 then NextId(id) else NextId(WireId(id, k - 1))
  }

  lemma NextIdModulo(x: nat)
    ensures NextId(x % 0xFFFF_FFFF + 1) == (x + 1) % 0xFFFF_FFFF + 1
  {
    var r := x % 0xFFFF_FFFF;
    assert x == 0xFFFF_FFFF * (x / 0xFFFF_FFFF) + r;
    if r == 0xFFFF_FFFE {
      assert x + 1 == 0xFFFF_FFFF * (x / 0xFFFF_FFFF + 1);
    } else {
      assert (x + 1) % 0xFFFF_FFFF == r + 1;
    }
  }

  /** Ids are never zero and repeat with period 2^32 - 1. */
  lemma {:induction false} WireIdClosedForm(id: nat, k: nat)
    requires id <= 0xFFFF_FFFF
    ensures WireId(id, k) == (id + k) % 0xFFFF_FFFF + 1
  {
    if k > 0 {
      WireIdClosedForm(id, k - 1);
      NextIdModulo(id + k - 1);
    }
  }

  /** With fewer than 2^32 - 1 chunks missing in a row, an expected id shows that none is missing. */
  lemma ExpectedIdMeansNext(id: nat, i: nat, j: nat)
    requires id <= 0xFFFF_FFFF && i < j <= i + 0xFFFF_FFFF
    ensures NextId(WireId(id, i)) == WireId(id, j) <==> j == i + 1
    ensures WireId(id, i) != 0
  {
    WireIdClosedForm(id, i);
    WireIdClosedForm(id, i + 1);
    WireIdClosedForm(id, j);
    SameResidue(id + j, id + i + 1);
  }

  lemma SameResidue(a: nat, b: nat)
    requires b <= a < b + 0xFFFF_FFFF
    ensures a % 0xFFFF_FFFF == b % 0xFFFF_FFFF <==> a == b
  {
  }

  // ---- Sender -----------------------------------------------------------------------

  function ChunkCount(len: nat): nat {
    (len + 243) / 244
  }

  function Min(a: nat, b: nat): nat { if a < b then a else b }

  /** How much of a message its first `k` chunks carry. */
  function Carried(payload: seq<byte>, k: nat): nat {
    Min(|payload|, k * 244)
  }

  /** A chunk as cut from its message, before it is given an id. */
  datatype Piece = Piece(number: nat, count: nat, payload: seq<byte>)

  function PieceOf(payload: seq<byte>, k: nat): Piece {
    Piece(k + 1, ChunkCount(|payload|), payload[Carried(payload, k)..Carried(payload, k + 1)])
  }

  /** Every piece of a message but the last is full, and the last one is not empty. */
  lemma PieceSizes(payload: seq<byte>, k: nat)
    requires k < ChunkCount(|payload|)
    ensures var p := PieceOf(payload, k);
            && p.payload == payload[244 * k..244 * k + |p.payload|]
            && (k + 1 < ChunkCount(|payload|) ==> |p.payload| == 244)
            && (k + 1 == ChunkCount(|payload|) ==> 1 <= |p.payload| <= 244 && 244 * k + |p.payload| == |payload|)
  {
    var n := ChunkCount(|payload|);
    assert 244 * n >= |payload| > 244 * (n - 1);
  }

  /** The first `sent` pieces of a message. */
  function Pieces(payload: seq<byte>, sent: nat): seq<Piece> {
    if sent == 0 then [] else Pieces(payload, sent - 1) + [PieceOf(payload, sent - 1)]
  }

  /** One call to send: the message and how many chunks went out before a send failed, if one
      did. A message of too many chunks is refused outright. */
  datatype Attempt = Attempt(payload: seq<byte>, sent: nat)

  predicate Complete(a: Attempt) {
    a.sent == ChunkCount(|a.payload|)
  }

  ghost predicate Possible(a: Attempt) {
    a.sent <= ChunkCount(|a.payload|) && (ChunkCount(|a.payload|) >= 65535 ==> a.sent == 0)
  }

  ghost predicate AllPossible(attempts: seq<Attempt>) {
    forall a :: a in attempts ==> Possible(a)
  }

  function Total(attempts: seq<Attempt>): nat {
    if attempts == [] then 0 else attempts[0].sent + Total(attempts[1..])
  }

  /** All pieces put on the wire by a series of calls. */
  function Stream(attempts: seq<Attempt>): seq<Piece> {
    if attempts == [] then [] else Pieces(attempts[0].payload, attempts[0].sent) + Stream(attempts[1..])
  }

  /** The k-th piece with the id it is sent under. */
  function OnWire(stream: seq<Piece>, id: nat, k: nat): Chunk
    requires k < |stream|
  {
    Chunk(MAGIC, stream[k].number, stream[k].count, WireId(id, k), stream[k].payload)
  }

  /** Where on the wire a chunk came from: which call, and which chunk of that call. */
  datatype Place = Place(call: nat, chunk: nat)

  function PlaceOf(attempts: seq<Attempt>, k: nat): Place
    requires k < Total(attempts)
  {
    if k < attempts[0].sent then Place(0, k)
    else var p := PlaceOf(attempts[1..], k - attempts[0].sent); p.(call := p.call + 1)
  }

  lemma {:induction false} PieceAt(payload: seq<byte>, sent: nat)
    ensures |Pieces(payload, sent)| == sent
    ensures forall k :: 0 <= k < sent ==> Pieces(payload, sent)[k] == PieceOf(payload, k)
  {
    if sent > 0 {
      PieceAt(payload, sent - 1);
    }
  }

  /** The k-th piece on the wire is the one its place says. */
  lemma {:induction false} StreamAt(attempts: seq<Attempt>, k: nat)
    requires k < Total(attempts)
    ensures |Stream(attempts)| == Total(attempts)
    ensures var p := PlaceOf(attempts, k);
            && p.call < |attempts| && p.chunk < attempts[p.call].sent
            && Stream(attempts)[k] == PieceOf(attempts[p.call].payload, p.chunk)
    decreases |attempts|
  {
    var a := attempts[0];
    PieceAt(a.payload, a.sent);
    StreamLength(attempts);
    if k >= a.sent {
      StreamAt(attempts[1..], k - a.sent);
    }
  }

  lemma {:induction false} StreamLength(attempts: seq<Attempt>)
    ensures |Stream(attempts)| == Total(attempts)
    decreases |attempts|
  {
    if attempts != [] {
      PieceAt(attempts[0].payload, attempts[0].sent);
      StreamLength(attempts[1..]);
    }
  }

  /** Later on the wire means a later call, or a later chunk of the same call. */
  lemma {:induction false} PlacesIncrease(attempts: seq<Attempt>, i: nat, j: nat)
    requires i < j < Total(attempts)
    ensures var p, q := PlaceOf(attempts, i), PlaceOf(attempts, j);
            p.call < q.call || (p.call == q.call && p.chunk < q.chunk)
    ensures var p, q := PlaceOf(attempts, i), PlaceOf(attempts, j);
            j == i + 1 ==> (p.call == q.call && q.chunk == p.chunk + 1) || q.chunk == 0
    decreases |attempts|
  {
    if i >= attempts[0].sent {
      PlacesIncrease(attempts[1..], i - attempts[0].sent, j - attempts[0].sent);
    } else if j >= attempts[0].sent {
      FirstPlace(attempts[1..], j - attempts[0].sent);
    }
  }

  lemma {:induction false} FirstPlace(attempts: seq<Attempt>, k: nat)
    requires k < Total(attempts)
    ensures k == 0 ==> PlaceOf(attempts, k).chunk == 0
    decreases |attempts|
  {
    if k >= attempts[0].sent {
      FirstPlace(attempts[1..], k - attempts[0].sent);
    }
  }

  // ---- Receiver ---------------------------------------------------------------------

  /** The last id seen (zero before the first chunk), the number of the last chunk collected and
      the part of a message collected so far, and the messages delivered. */
  datatype Receiver = Receiver(id: nat, prev: nat, acc: seq<byte>, out: seq<seq<byte>>)

  const FRESH := Receiver(0, 0, [], [])

  datatype Verdict = More | Failed | Delivered

  function ExpectedId(r: Receiver, c: Chunk): nat {
    if r.id == 0 then c.id else NextId(r.id)
  }

  function Judge(r: Receiver, c: Chunk): Verdict {
    if c.magic != MAGIC then Failed
    else if ExpectedId(r, c) != c.id then Failed
    else if r.prev != (if c.number == 0 then 0xFFFF_FFFF else c.number - 1) then Failed
    else if |r.acc| + |c.payload| > MAX_PACKET then Failed
    else if c.number == c.count then Delivered
    else More
  }

  function Accept(r: Receiver, c: Chunk): Receiver {
    match Judge(r, c)
    case Failed => Receiver(if c.magic != MAGIC then ExpectedId(r, c) else c.id, 0, [], r.out)
    case More => Receiver(c.id, c.number, r.acc + c.payload, r.out)
    case Delivered => Receiver(c.id, 0, [], r.out + [r.acc + c.payload])
  }

  /** What the transport hands to the receiver: a chunk, or silence for a whole timeout. */
  datatype Event = Arrives(chunk: Chunk) | Silence

  function Step(r: Receiver, e: Event): Receiver {
    match e
    case Arrives(c) => Accept(r, c)
    case Silence => Receiver(r.id, 0, [], r.out)
  }

  function After(r: Receiver, es: seq<Event>): Receiver {
    if es == [] then r else Step(After(r, es[..|es| - 1]), es[|es| - 1])
  }
}
