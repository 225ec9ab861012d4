/**
 * Large responses on the wire: the node cuts a response into base64 envelopes, and the core client puts the
 * envelopes it receives back together, in any order and with repetitions, as an at-least-once broker delivers them.
 */
module ResponseChunks {
  import opened Wrappers
  import opened Base64

  const RESPONSE_CHUNK_BYTES := 48 * 1024

  datatype Envelope = Envelope(id: Option<string>, chunkIndex: nat, chunkCount: nat, totalSizeBytes: nat, base64Data: string)

  /** What is published on the response topic. */
  datatype Packet = Whole(payload: seq<Byte>) | Chunk(envelope: Envelope)

  function ChunkCount(n: nat): nat {
    (n + RESPONSE_CHUNK_BYTES - 1) / RESPONSE_CHUNK_BYTES
  }

  function ChunkStart(n: nat, i: nat): (start: nat)
    ensures start <= n
  {
    if i * RESPONSE_CHUNK_BYTES <= n then i * RESPONSE_CHUNK_BYTES else n
  }

  lemma ChunkStartOrder(n: nat, i: nat)
    ensures ChunkStart(n, i) <= ChunkStart(n, i + 1)
  {}

  function ChunkAt(payload: seq<Byte>, i: nat): seq<Byte> {
    ChunkStartOrder(|payload|, i);
    payload[ChunkStart(|payload|, i)..ChunkStart(|payload|, i + 1)]
  }

  function EnvelopeAt(id: Option<string>, payload: seq<Byte>, i: nat): Envelope {
    Envelope(id, i, ChunkCount(|payload|), |payload|, Encode(ChunkAt(payload, i)))
  }

  /** The packets that carry a response, in the order they are published. */
  function Packets(id: Option<string>, payload: seq<Byte>): seq<Packet> {
    if |payload| <= RESPONSE_CHUNK_BYTES || id.None? then [Whole(payload)]
    else seq(ChunkCount(|payload|), i requires 0 <= i => Chunk(EnvelopeAt(id, payload, i)))
  }

  // ----- Publishing -----

  /** The broker client; a publish may fail at any time. */
  class Client {
    var published: seq<Packet>

    constructor ()
      ensures published == []
    {
      published := [];
    }

    method Publish(packet: Packet) returns (ok: bool)
      modifies this
      ensures published == if ok then old(published) + [packet] else old(published)
    {
      ok := *;
      if ok {
        published := published + [packet];
      }
    }
  }

  /** On failure, exactly the packets before the failing one are out. */
  method PublishResponse(client: Client, id: Option<string>, payload: seq<Byte>) returns (ok: bool, ghost sent: nat)
    modifies client
    ensures sent <= |Packets(id, payload)| && (ok <==> sent == |Packets(id, payload)|)
    ensures client.published == old(client.published) + Packets(id, payload)[..sent]
  {
    hide Encode;
    ghost var packets := Packets(id, payload);
    if |payload| <= RESPONSE_CHUNK_BYTES || id.None? {
      ok := client.Publish(Whole(payload));
      sent := if ok then 1 else 0;
      return;
    }
    var totalChunks := ChunkCount(|payload|);
    sent := 0;
    var chunkIndex := 0;
    while chunkIndex < totalChunks
      invariant 0 <= chunkIndex <= totalChunks == |packets| && sent == chunkIndex
      invariant client.published == old(client.published) + packets[..chunkIndex]
    {
      var data := Base64Encode(ChunkAt(payload, chunkIndex));
      ok := client.Publish(Chunk(Envelope(id, chunkIndex, totalChunks, |payload|, data)));
      if !ok {
        return;
      }
      assert packets[chunkIndex] == Chunk(Envelope(id, chunkIndex, totalChunks, |payload|, data));
      assert packets[..chunkIndex + 1] == packets[..chunkIndex] + [packets[chunkIndex]];
      chunkIndex := chunkIndex + 1;
      sent := chunkIndex;
    }
    ok := true;
  }

  // ----- The cut -----

  lemma ChunkBounds(n: nat, i: nat)
    requires n > 0 && i < ChunkCount(n)
    ensures i * RESPONSE_CHUNK_BYTES < n
    ensures i + 1 < ChunkCount(n) ==> (i + 1) * RESPONSE_CHUNK_BYTES < n
    ensures i + 1 == ChunkCount(n) ==> n <= (i + 1) * RESPONSE_CHUNK_BYTES
  {}

  /** Every chunk but the last is full, and no chunk is empty. */
  lemma ChunkSizes(payload: seq<Byte>, i: nat)
    requires payload != [] && i < ChunkCount(|payload|)
    ensures 0 < |ChunkAt(payload, i)| <= RESPONSE_CHUNK_BYTES
    ensures i + 1 < ChunkCount(|payload|) ==> |ChunkAt(payload, i)| == RESPONSE_CHUNK_BYTES
  {
    ChunkBounds(|payload|, i);
  }

  function ConcatFirst(payload: seq<Byte>, k: nat): seq<Byte> {
    if k == 0 then [] else ConcatFirst(payload, k - 1) + ChunkAt(payload, k - 1)
  }

  function ConcatFirstEncoded(payload: seq<Byte>, k: nat): string {
    if k == 0 then [] else ConcatFirstEncoded(payload, k - 1) + Encode(ChunkAt(payload, k - 1))
  }

  lemma {:induction false} ConcatIsPrefix(payload: seq<Byte>, k: nat)
    ensures ConcatFirst(payload, k) == payload[..ChunkStart(|payload|, k)]
  {
    if k > 0 {
      ConcatIsPrefix(payload, k - 1);
      ChunkStartOrder(|payload|, k - 1);
    }
  }

  lemma LastChunkEnds(n: nat)
    ensures ChunkStart(n, ChunkCount(n)) == n
  {}

  /** The chunks in index order are the payload, so their sizes add up to the announced total. */
  lemma ChunksPartition(payload: seq<Byte>)
    ensures ConcatFirst(payload, ChunkCount(|payload|)) == payload
  {
    hide ChunkAt, ChunkStart;
    ConcatIsPrefix(payload, ChunkCount(|payload|));
    LastChunkEnds(|payload|);
    assert payload[..|payload|] == payload;
  }

  /** Because the chunk size is a multiple of three, the encodings of the chunks join to the encoding of the whole. */
  lemma {:induction false} EncodedChunksJoin(payload: seq<Byte>, k: nat)
    requires payload != [] && k <= ChunkCount(|payload|)
    ensures ConcatFirstEncoded(payload, k) == Encode(ConcatFirst(payload, k))
    ensures k == ChunkCount(|payload|) ==> ConcatFirstEncoded(payload, k) == Encode(payload)
  {
    hide Encode;
    if k == 0 {
      EncodeEmpty();
    } else {
      EncodedChunksJoin(payload, k - 1);
      ConcatIsPrefix(payload, k - 1);
      ChunkBounds(|payload|, k - 1);
      assert |ConcatFirst(payload, k - 1)| == (k - 1) * RESPONSE_CHUNK_BYTES;
      assert (k - 1) * RESPONSE_CHUNK_BYTES == 3 * ((k - 1) * 16384);
      EncodeConcat(ConcatFirst(payload, k - 1), ChunkAt(payload, k - 1));
    }
    ChunksPartition(payload);
  }

  /**
   * What the envelopes of a large response announce: its id, their own place, how many there are, and the size of the
   * whole payload, which the chunk sizes add up to. Each of them decodes to its chunk.
   */
  lemma EnvelopesAnnounce(id: Option<string>, payload: seq<Byte>, i: nat)
    requires |payload| > RESPONSE_CHUNK_BYTES && id.Some? && i < |Packets(id, payload)|
    ensures Packets(id, payload)[i].Chunk?
    ensures var e := Packets(id, payload)[i].envelope;
            && e.id == id && e.chunkIndex == i && e.chunkCount == |Packets(id, payload)|
            && (e.chunkCount - 1) * 49152 < |payload| <= e.chunkCount * 49152
            && e.totalSizeBytes == |payload| == |ConcatFirst(payload, e.chunkCount)|
            && Decode(e.base64Data) == Some(payload[i * 49152..if (i + 1) * 49152 <= |payload| then (i + 1) * 49152 else |payload|])
  {
    hide Encode, Decode, ConcatFirst;
    ChunksPartition(payload);
    ChunkBounds(|payload|, i);
    ChunkBounds(|payload|, ChunkCount(|payload|) - 1);
    DecodeEncode(ChunkAt(payload, i));
  }

  // ----- Receiving -----

  datatype Outcome = Waiting | Delivered(bytes: seq<Byte>) | Rejected

  datatype Reception = Reception(parts: map<nat, string>, outcome: Outcome)

  /** What parsing a payload as a response gives: nothing, or the id that it carries, if any. */
  datatype Reading = Malformed | Response(id: Option<string>)

  type Reader = seq<Byte> -> Reading

  /** An id that is present and names another request. */
  predicate Foreign(id: Option<string>, requestId: string) {
    id.Some? && id.value != "" && id.value != requestId
  }

  predicate ForeignPacket(packet: Packet, requestId: string, read: Reader) {
    match packet
    case Whole(payload) => read(payload).Response? && Foreign(read(payload).id, requestId)
    case Chunk(envelope) => Foreign(envelope.id, requestId)
  }

  /** The first k parts decoded and joined; nothing if one is missing or unreadable. */
  function Assemble(parts: map<nat, string>, k: nat): Option<seq<Byte>> {
    if k == 0 then Some([])
    else
      match Assemble(parts, k - 1)
      case None => None
      case Some(front) =>
        if k - 1 !in parts || parts[k - 1] == "" || Decode(parts[k - 1]).None? then None
        else Some(front + Decode(parts[k - 1]).value)
  }

  function Receive(r: Reception, packet: Packet, requestId: string, read: Reader): Reception {
    if !r.outcome.Waiting? || ForeignPacket(packet, requestId, read) then r
    else
      match packet
      case Whole(payload) => Reception(map[], if read(payload).Malformed? then Rejected else Delivered(payload))
      case Chunk(envelope) =>
        if envelope.base64Data == "" then Reception(map[], Rejected)
        else
          var parts := r.parts[envelope.chunkIndex := envelope.base64Data];
          if |parts| < envelope.chunkCount then Reception(parts, Waiting)
          else
            match Assemble(parts, envelope.chunkCount)
            case None => Reception(map[], Rejected)
            case Some(bytes) => Joined(parts, bytes, requestId, read)
  }

  /** What becomes of a full set of parts: a joined response that names another request is passed over. */
  function Joined(parts: map<nat, string>, bytes: seq<Byte>, requestId: string, read: Reader): Reception {
    match read(bytes)
    case Malformed => Reception(map[], Rejected)
    case Response(id) => if Foreign(id, requestId) then Reception(parts, Waiting) else Reception(map[], Delivered(bytes))
  }

  function ReceiveAll(packets: seq<Packet>, requestId: string, read: Reader): Reception {
    if packets == [] then Reception(map[], Waiting)
    else Receive(ReceiveAll(packets[..|packets| - 1], requestId, read), packets[|packets| - 1], requestId, read)
  }

  /** The id that a packet carries, if it can be told. */
  function IdOf(packet: Packet, read: Reader): Option<string> {
    match packet
    case Whole(payload) => (match read(payload) case Malformed => None case Response(id) => id)
    case Chunk(envelope) => envelope.id
  }

  /** What a waiting listener makes of one packet, case by case. */
  lemma ReceiveByCase(r: Reception, packet: Packet, requestId: string, read: Reader)
    requires r.outcome.Waiting?
    ensures var id := IdOf(packet, read);
            var mine := id.None? || id.value == "" || id.value == requestId;
            && (!mine ==> Receive(r, packet, requestId, read) == r)
            && (mine && packet.Whole? ==>
                  Receive(r, packet, requestId, read) ==
                  Reception(map[], if read(packet.payload).Malformed? then Rejected else Delivered(packet.payload)))
            && (mine && packet.Chunk? && packet.envelope.base64Data == "" ==>
                  Receive(r, packet, requestId, read) == Reception(map[], Rejected))
            && (mine && packet.Chunk? && packet.envelope.base64Data != ""
                && |r.parts[packet.envelope.chunkIndex := packet.envelope.base64Data]| < packet.envelope.chunkCount ==>
                  Receive(r, packet, requestId, read) ==
                  Reception(r.parts[packet.envelope.chunkIndex := packet.envelope.base64Data], Waiting))
  {
    hide Assemble;
  }

  /** The listener of the core client that waits for one response. */
  class ResponseListener {
    const requestId: string
    const read: Reader
    var chunkParts: map<nat, string>
    var outcome: Outcome

    ghost function View(): Reception
      reads this
    {
      Reception(chunkParts, outcome)
    }

    constructor (requestId: string, read: Reader)
      ensures View() == Reception(map[], Waiting) && this.requestId == requestId && this.read == read
    {
      this.requestId := requestId;
      this.read := read;
      chunkParts := map[];
      outcome := Waiting;
    }

    method Settle(result: Outcome)
      modifies this
      ensures View() == Reception(map[], result)
    {
      chunkParts := map[];
      outcome := result;
    }

    method OnMessage(packet: Packet)
      modifies this
      ensures View() == Receive(old(View()), packet, requestId, read)
    {
      hide Decode;
      if outcome != Waiting || ForeignPacket(packet, requestId, read) {
        return;
      }
      match packet {
        case Whole(payload) =>
          Settle(if read(payload).Malformed? then Rejected else Delivered(payload));
        case Chunk(envelope) =>
          if envelope.base64Data == "" {
            Settle(Rejected);
            return;
          }
          chunkParts := chunkParts[envelope.chunkIndex := envelope.base64Data];
          if |chunkParts| < envelope.chunkCount {
            return;
          }
          var bytes: seq<Byte> := [];
          var index := 0;
          while index < envelope.chunkCount
            invariant 0 <= index <= envelope.chunkCount
            invariant chunkParts == old(chunkParts)[envelope.chunkIndex := envelope.base64Data] && outcome == Waiting
            invariant Assemble(chunkParts, index) == Some(bytes)
          {
            if index !in chunkParts || chunkParts[index] == "" || Decode(chunkParts[index]).None? {
              AssembleFails(chunkParts, index + 1, envelope.chunkCount);
              Settle(Rejected);
              return;
            }
            bytes := bytes + Decode(chunkParts[index]).value;
            index := index + 1;
          }
          FinishJoined(bytes);
      }
    }

    /** The parts are all there and join to these bytes. */
    method FinishJoined(bytes: seq<Byte>)
      requires outcome == Waiting
      modifies this
      ensures View() == Joined(old(chunkParts), bytes, requestId, read)
    {
      match read(bytes) {
        case Malformed => Settle(Rejected);
        case Response(id) =>
          if Foreign(id, requestId) {
            return;
          }
          Settle(Delivered(bytes));
      }
    }
  }

  lemma {:induction false} AssembleFails(parts: map<nat, string>, k: nat, n: nat)
    requires k <= n && Assemble(parts, k).None?
    ensures Assemble(parts, n).None?
  {
    if k < n {
      AssembleFails(parts, k, n - 1);
    }
  }

  // ----- End to end -----

  /** The chunks among these packets. */
  ghost predicate Arrived(packets: seq<Packet>, payload: seq<Byte>, requestId: string, i: nat) {
    Chunk(EnvelopeAt(Some(requestId), payload, i)) in packets
  }

  function Indices(n: nat): (r: set<nat>)
    ensures forall i: nat :: i in r <==> i < n
  {
    if n == 0 then {} else Indices(n - 1) + {n - 1}
  }

  lemma {:induction false} IndicesCardinality(n: nat)
    ensures |Indices(n)| == n
  {
    if n > 0 {
      IndicesCardinality(n - 1);
      assert Indices(n) == Indices(n - 1) + {n - 1};
    }
  }

  lemma {:induction false} SubsetCardinality(a: set<nat>, b: set<nat>)
    requires a <= b
    ensures |a| <= |b| && (|a| == |b| ==> a == b)
  {
    if a != {} {
      var x :| x in a;
      SubsetCardinality(a - {x}, b - {x});
      if |a| == |b| {
        assert a == (a - {x}) + {x} && b == (b - {x}) + {x};
      }
    }
  }

  lemma EncodedNonEmpty(chunk: seq<Byte>)
    requires chunk != []
    ensures Encode(chunk) != ""
  {
    hide SymbolAt;
  }

  lemma {:induction false} AssembleOwn(parts: map<nat, string>, payload: seq<Byte>, k: nat)
    requires payload != [] && k <= ChunkCount(|payload|)
    requires forall i: nat :: i < k ==> i in parts && parts[i] == Encode(ChunkAt(payload, i))
    ensures Assemble(parts, k) == Some(ConcatFirst(payload, k))
  {
    hide Encode, Decode, ChunkAt;
    if k > 0 {
      AssembleOwn(parts, payload, k - 1);
      DecodeEncode(ChunkAt(payload, k - 1));
      ChunkSizes(payload, k - 1);
      EncodedNonEmpty(ChunkAt(payload, k - 1));
    }
  }

  /** The packets are this response's chunks, repeated and reordered at will, mixed with other requests' packets. */
  ghost predicate Deliveries(packets: seq<Packet>, payload: seq<Byte>, requestId: string, read: Reader) {
    forall j :: 0 <= j < |packets| ==>
      ForeignPacket(packets[j], requestId, read) || packets[j] in Packets(Some(requestId), payload)
  }

  ghost predicate Complete(packets: seq<Packet>, payload: seq<Byte>, requestId: string) {
    forall p :: p in Packets(Some(requestId), payload) ==> p in packets
  }

  lemma OwnPacket(payload: seq<Byte>, requestId: string, p: Packet) returns (i: nat)
    requires |payload| > RESPONSE_CHUNK_BYTES && p in Packets(Some(requestId), payload)
    ensures i < ChunkCount(|payload|) && p == Chunk(EnvelopeAt(Some(requestId), payload, i))
    ensures forall read: Reader :: !ForeignPacket(p, requestId, read)
  {
    hide Encode, ChunkAt;
    var packets := Packets(Some(requestId), payload);
    i :| 0 <= i < |packets| && packets[i] == p;
  }

  lemma IsOwnPacket(payload: seq<Byte>, requestId: string, i: nat)
    requires |payload| > RESPONSE_CHUNK_BYTES && i < ChunkCount(|payload|)
    ensures Chunk(EnvelopeAt(Some(requestId), payload, i)) in Packets(Some(requestId), payload)
  {
    hide Encode, ChunkAt;
    var packets := Packets(Some(requestId), payload);
    assert packets[i] == Chunk(EnvelopeAt(Some(requestId), payload, i));
  }

  /** While chunks are missing, the listener waits and holds exactly the ones that arrived. */
  ghost predicate Collecting(r: Reception, packets: seq<Packet>, payload: seq<Byte>, requestId: string) {
    && r.outcome == Waiting
    && r.parts.Keys < Indices(ChunkCount(|payload|))
    && (forall i: nat :: i < ChunkCount(|payload|) ==> (i in r.parts <==> Arrived(packets, payload, requestId, i)))
    && (forall i: nat :: i in r.parts ==> r.parts[i] == Encode(ChunkAt(payload, i)))
  }

  lemma CollectingIsIncomplete(r: Reception, packets: seq<Packet>, payload: seq<Byte>, requestId: string)
    requires |payload| > RESPONSE_CHUNK_BYTES && Collecting(r, packets, payload, requestId)
    ensures !Complete(packets, payload, requestId)
  {
    var i :| i in Indices(ChunkCount(|payload|)) && i !in r.parts;
    IsOwnPacket(payload, requestId, i);
  }

  /** The parts held after one more chunk. */
  function PartsWith(r: Reception, payload: seq<Byte>, i: nat): map<nat, string> {
    r.parts[i := Encode(ChunkAt(payload, i))]
  }

  lemma AllPartsHeld(r: Reception, packets: seq<Packet>, payload: seq<Byte>, requestId: string)
    requires |payload| > RESPONSE_CHUNK_BYTES && r.parts.Keys == Indices(ChunkCount(|payload|))
    requires forall i: nat :: i < ChunkCount(|payload|) ==> (i in r.parts <==> Arrived(packets, payload, requestId, i))
    requires forall i: nat :: i in r.parts ==> r.parts[i] == Encode(ChunkAt(payload, i))
    ensures Complete(packets, payload, requestId)
    ensures Assemble(r.parts, ChunkCount(|payload|)) == Some(payload)
  {
    hide Encode, ChunkAt, Decode, Assemble, Packets;
    AssembleOwn(r.parts, payload, ChunkCount(|payload|));
    ChunksPartition(payload);
    forall q | q in Packets(Some(requestId), payload) ensures q in packets {
      var k := OwnPacket(payload, requestId, q);
      assert k in r.parts.Keys;
      assert Arrived(packets, payload, requestId, k);
    }
  }

  /** One more chunk of the response: the listener goes on collecting, or has everything and delivers the payload. */
  lemma ReceiveOwnChunk(r: Reception, packets: seq<Packet>, payload: seq<Byte>, requestId: string, i: nat, read: Reader)
    requires read(payload) == Response(Some(requestId))
    requires |payload| > RESPONSE_CHUNK_BYTES && i < ChunkCount(|payload|)
    requires Collecting(r, packets, payload, requestId)
    ensures var p := Chunk(EnvelopeAt(Some(requestId), payload, i));
            var r' := Receive(r, p, requestId, read);
            || (Collecting(r', packets + [p], payload, requestId) && !Complete(packets + [p], payload, requestId))
            || (r' == Reception(map[], Delivered(payload)) && Complete(packets + [p], payload, requestId))
  {
    hide Encode, ChunkAt, Decode, Assemble, Complete, Indices;
    var n := ChunkCount(|payload|);
    var p := Chunk(EnvelopeAt(Some(requestId), payload, i));
    ChunkSizes(payload, i);
    EncodedNonEmpty(ChunkAt(payload, i));
    var parts := PartsWith(r, payload, i);
    assert parts.Keys == r.parts.Keys + {i};
    assert |parts| == |parts.Keys|;
    IndicesCardinality(n);
    SubsetCardinality(parts.Keys, Indices(n));
    ArrivedAfter(r, packets, payload, requestId, i, parts);
    var r' := Reception(parts, Waiting);
    if |parts| < n {
      assert parts.Keys != Indices(n);
      assert Collecting(r', packets + [p], payload, requestId);
      CollectingIsIncomplete(r', packets + [p], payload, requestId);
    } else {
      AllPartsHeld(r', packets + [p], payload, requestId);
    }
  }

  lemma ArrivedAfter(r: Reception, packets: seq<Packet>, payload: seq<Byte>, requestId: string, i: nat, parts: map<nat, string>)
    requires Collecting(r, packets, payload, requestId) && i < ChunkCount(|payload|)
    requires parts == r.parts[i := Encode(ChunkAt(payload, i))]
    ensures var p := Chunk(EnvelopeAt(Some(requestId), payload, i));
            forall k: nat :: k < ChunkCount(|payload|) ==> (k in parts <==> Arrived(packets + [p], payload, requestId, k))
    ensures forall k: nat :: k in parts ==> parts[k] == Encode(ChunkAt(payload, k))
  {
    hide Encode, ChunkAt;
  }

  /** Without stray packets: exactly the payload once every packet of the response has arrived, and nothing before. */
  lemma {:induction false} OwnPacketsDeliver(packets: seq<Packet>, payload: seq<Byte>, requestId: string, read: Reader)
    requires read(payload) == Response(Some(requestId)) && Deliveries(packets, payload, requestId, read)
    ensures ReceiveAll(packets, requestId, read).outcome ==
            if Complete(packets, payload, requestId) then Delivered(payload) else Waiting
  {
    if |payload| <= RESPONSE_CHUNK_BYTES {
      WholeIsDelivered(packets, payload, requestId, read);
    } else {
      ChunksAreDelivered(packets, payload, requestId, read);
    }
  }

  lemma {:induction false} WholeIsDelivered(packets: seq<Packet>, payload: seq<Byte>, requestId: string, read: Reader)
    requires read(payload) == Response(Some(requestId))
    requires |payload| <= RESPONSE_CHUNK_BYTES && Deliveries(packets, payload, requestId, read)
    ensures ReceiveAll(packets, requestId, read).outcome ==
            if Whole(payload) in packets then Delivered(payload) else Waiting
    ensures Complete(packets, payload, requestId) <==> Whole(payload) in packets
  {
    assert Packets(Some(requestId), payload) == [Whole(payload)];
    if packets != [] {
      var front, last := packets[..|packets| - 1], packets[|packets| - 1];
      WholeIsDelivered(front, payload, requestId, read);
      assert packets == front + [last];
    }
  }

  lemma {:induction false} ChunksAreDelivered(packets: seq<Packet>, payload: seq<Byte>, requestId: string, read: Reader)
    requires read(payload) == Response(Some(requestId))
    requires |payload| > RESPONSE_CHUNK_BYTES && Deliveries(packets, payload, requestId, read)
    ensures var r := ReceiveAll(packets, requestId, read);
            || (Collecting(r, packets, payload, requestId) && !Complete(packets, payload, requestId))
            || (r == Reception(map[], Delivered(payload)) && Complete(packets, payload, requestId))
  {
    hide Encode, ChunkAt, Decode, Receive, Packets;
    if packets == [] {
      IsOwnPacket(payload, requestId, 0);
      assert 0 in Indices(ChunkCount(|payload|));
    } else {
      var front, last := packets[..|packets| - 1], packets[|packets| - 1];
      assert packets == front + [last];
      assert Deliveries(front, payload, requestId, read);
      ChunksAreDelivered(front, payload, requestId, read);
      var r := ReceiveAll(front, requestId, read);
      if ForeignPacket(last, requestId, read) {
        ForeignChangesNothing(r, front, last, payload, requestId, read);
      } else if r.outcome.Waiting? {
        var i := OwnPacket(payload, requestId, last);
        ReceiveOwnChunk(r, front, payload, requestId, i, read);
      } else {
        SettledStays(r, last, requestId, read);
      }
    }
  }

  lemma SettledStays(r: Reception, packet: Packet, requestId: string, read: Reader)
    requires !r.outcome.Waiting?
    ensures Receive(r, packet, requestId, read) == r
  {}

  lemma ForeignChangesNothing(r: Reception, packets: seq<Packet>, packet: Packet, payload: seq<Byte>, requestId: string, read: Reader)
    requires |payload| > RESPONSE_CHUNK_BYTES && ForeignPacket(packet, requestId, read)
    ensures Receive(r, packet, requestId, read) == r
    ensures Complete(packets + [packet], payload, requestId) == Complete(packets, payload, requestId)
    ensures Collecting(r, packets, payload, requestId) ==> Collecting(r, packets + [packet], payload, requestId)
  {
    hide Encode, ChunkAt, Decode;
    forall p | p in Packets(Some(requestId), payload) ensures p in packets + [packet] <==> p in packets {
      var i := OwnPacket(payload, requestId, p);
    }
  }

  // ----- Strays -----

  /**
   * A whole payload that names no request at all, such as the answer to a command that could not be parsed or whose
   * thread panicked, or one that is no response. Every waiting listener takes it for its own.
   */
  predicate Stray(p: Packet, payload: seq<Byte>, requestId: string, read: Reader) {
    && p.Whole? && !ForeignPacket(p, requestId, read)
    && p !in Packets(Some(requestId), payload)
    && (read(p.payload).Response? ==> read(p.payload).id.None? || read(p.payload).id == Some(""))
  }

  function StrayOutcome(p: Packet, read: Reader): Outcome
    requires p.Whole?
  {
    if read(p.payload).Malformed? then Rejected else Delivered(p.payload)
  }

  /** The place of the first stray packet, or the end. */
  function FirstStray(packets: seq<Packet>, payload: seq<Byte>, requestId: string, read: Reader): (n: nat)
    ensures n <= |packets|
    ensures forall j :: 0 <= j < n ==> !Stray(packets[j], payload, requestId, read)
    ensures n < |packets| ==> Stray(packets[n], payload, requestId, read)
  {
    hide Stray;
    if packets == [] then 0
    else
      var front := packets[..|packets| - 1];
      var n := FirstStray(front, payload, requestId, read);
      if n < |front| || Stray(packets[|front|], payload, requestId, read) then n else |packets|
  }

  /** This response's packets, packets of other requests, and strays, in any order and with any repetitions. */
  ghost predicate Traffic(packets: seq<Packet>, payload: seq<Byte>, requestId: string, read: Reader) {
    forall j :: 0 <= j < |packets| ==>
      || ForeignPacket(packets[j], requestId, read)
      || packets[j] in Packets(Some(requestId), payload)
      || Stray(packets[j], payload, requestId, read)
  }

  /** What the listener ends with. */
  ghost function Expected(packets: seq<Packet>, payload: seq<Byte>, requestId: string, read: Reader): Outcome {
    var n := FirstStray(packets, payload, requestId, read);
    if Complete(packets[..n], payload, requestId) then Delivered(payload)
    else if n < |packets| then StrayOutcome(packets[n], read)
    else Waiting
  }

  /**
   * Delivery. Whatever the order, the repetitions and the other traffic, the listener delivers exactly the payload if
   * the last missing packet of the response arrives before the first stray one. Otherwise it takes that stray for the
   * answer, and as long as neither has arrived it waits.
   */
  lemma {:induction false} ListenerDeliversPayload(packets: seq<Packet>, payload: seq<Byte>, requestId: string, read: Reader)
    requires read(payload) == Response(Some(requestId)) && Traffic(packets, payload, requestId, read)
    ensures ReceiveAll(packets, requestId, read).outcome == Expected(packets, payload, requestId, read)
  {
    hide Receive, Packets, Complete, ForeignPacket, Stray;
    var n := FirstStray(packets, payload, requestId, read);
    if n == |packets| {
      assert packets[..n] == packets;
      OwnPacketsDeliver(packets, payload, requestId, read);
    } else {
      var front, last := packets[..|packets| - 1], packets[|packets| - 1];
      var r := ReceiveAll(front, requestId, read);
      ListenerDeliversPayload(front, payload, requestId, read);
      assert packets[..n] == front[..n];
      if n < |front| {
        assert r.outcome != Waiting;
        SettledStays(r, last, requestId, read);
      } else {
        assert front[..n] == front;
        StraySettles(r, last, payload, requestId, read);
      }
    }
  }

  lemma StraySettles(r: Reception, p: Packet, payload: seq<Byte>, requestId: string, read: Reader)
    requires Stray(p, payload, requestId, read)
    ensures Receive(r, p, requestId, read).outcome == if r.outcome.Waiting? then StrayOutcome(p, read) else r.outcome
  {}
}
