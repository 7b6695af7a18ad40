/** Splitting of large peer-to-peer messages and their reassembly from chunks that arrive in any
    order, duplicated, and interleaved across peers and messages. */
module Chunking {
  import opened Bytes

  const MAX_CHUNK: nat := 64000

  type Data = seq<byte>

  datatype MessageChunk = MessageChunk(messageId: string, chunkIndex: int, totalChunks: int, data: Data)

  datatype IncompleteMessage = IncompleteMessage(messageId: string, totalChunks: int, chunks: map<int, Data>)

  datatype Delivery = Delivery(peerId: string, chunk: MessageChunk)

  /** Bytes handed on as one complete message. */
  datatype Emission = Emission(peerId: string, messageId: string, data: Data)

  // ---------------------------------------------------------------- sender

  /** ceil(count / MAX_CHUNK) */
  function TotalChunks(count: nat): nat {
    (count + MAX_CHUNK - 1) / MAX_CHUNK
  }

  lemma TotalChunksBounds(count: nat)
    ensures MAX_CHUNK * TotalChunks(count) - MAX_CHUNK < count <= MAX_CHUNK * TotalChunks(count) || count == 0
    ensures TotalChunks(count) >= 2 <==> count > MAX_CHUNK
    ensures TotalChunks(count) == 0 <==> count == 0
  {
  }

  /** y is a double-precision rounding of x: relative error at most 2^-53, and no integer is crossed. */
  ghost predicate RoundsTo(x: real, y: real) {
    && (y - x) * 9007199254740992.0 <= x
    && (x - y) * 9007199254740992.0 <= x
    && forall k: int :: IntegerNotCrossed(k, x, y)
  }

  ghost predicate IntegerNotCrossed(k: int, x: real, y: real) {
    (x <= k as real ==> y <= k as real) && (k as real <= x ==> k as real <= y)
  }

  /** The source divides doubles before taking the ceiling. Below 2^53 bytes the rounding of the
      quotient never changes the ceiling. */
  lemma CeilingOfRoundedQuotient(count: nat, y: real)
    requires 0 < count < 9007199254740992
    requires RoundsTo(count as real / 64000.0, y)
    ensures TotalChunks(count) as real - 1.0 < y <= TotalChunks(count) as real
  {
    var x := count as real / 64000.0;
    var t := TotalChunks(count);
    TotalChunksBounds(count);
    assert x * 64000.0 == count as real;
    assert IntegerNotCrossed(t, x, y);
    assert count >= 64000 * (t - 1) + 1;
    assert x * 64000.0 >= 64000.0 * (t as real - 1.0) + 1.0;
  }

  /** The bytes of data up to the end of its first k chunks. */
  function Covered(data: Data, k: nat): nat {
    Min(MAX_CHUNK * k, |data|)
  }

  function ChunkAt(messageId: string, data: Data, i: nat): MessageChunk
    requires i < TotalChunks(|data|)
  {
    TotalChunksBounds(|data|);
    MessageChunk(messageId, i, TotalChunks(|data|), data[Covered(data, i)..Covered(data, i + 1)])
  }

  /** c is number i of n chunks: the bytes from 64000 i on, 64000 of them or as many as there are. */
  ghost predicate IsChunkOf(c: MessageChunk, messageId: string, data: Data, i: nat, n: nat) {
    && c.messageId == messageId && c.chunkIndex == i && c.totalChunks == n
    && 64000 * i <= |data| && (|data| < 64000 * (i + 1) ==> c.data == data[64000 * i..])
    && (64000 * (i + 1) <= |data| ==> c.data == data[64000 * i..64000 * (i + 1)])
  }

  /** Sends the subranges one by one; `sent` is what reached the channel. */
  method SendChunkedMessage(data: Data, messageId: string) returns (sent: seq<MessageChunk>)
    ensures |sent| == TotalChunks(|data|)
    ensures if data == [] then sent == [] else 64000 * |sent| - 64000 < |data| <= 64000 * |sent|
    ensures forall i :: 0 <= i < |sent| ==> sent[i] == ChunkAt(messageId, data, i) && 0 < |sent[i].data| <= 64000
    ensures forall i :: 0 <= i < |sent| ==> IsChunkOf(sent[i], messageId, data, i, |sent|)
  {
    var totalChunks := TotalChunks(|data|);
    TotalChunksBounds(|data|);
    sent := [];
    for chunkIndex := 0 to totalChunks
      invariant |sent| == chunkIndex
      invariant forall i :: 0 <= i < |sent| ==>
                  sent[i] == ChunkAt(messageId, data, i) && 0 < |sent[i].data| <= MAX_CHUNK
    {
      var startOffset := chunkIndex * MAX_CHUNK;
      var endOffset := Min(startOffset + MAX_CHUNK, |data|);
      sent := sent + [MessageChunk(messageId, chunkIndex, totalChunks, data[startOffset..endOffset])];
    }
  }

  datatype Transmission = Whole(data: Data) | Chunked(chunks: seq<MessageChunk>)

  /** The size guard: only messages that make at least two chunks are chunked. */
  method SendP2PMessage(messageToSend: Data, messageId: string) returns (r: Transmission)
    ensures r.Whole? ==> r.data == messageToSend
    ensures r.Chunked? <==> |messageToSend| > 64000
    ensures r.Chunked? ==> |r.chunks| == TotalChunks(|messageToSend|) >= 2
    ensures r.Chunked? ==> forall i :: 0 <= i < |r.chunks| ==> r.chunks[i] == ChunkAt(messageId, messageToSend, i)
    ensures r.Chunked? ==>
              forall i :: 0 <= i < |r.chunks| ==> IsChunkOf(r.chunks[i], messageId, messageToSend, i, |r.chunks|)
  {
    if |messageToSend| > MAX_CHUNK {
      TotalChunksBounds(|messageToSend|);
      var sent := SendChunkedMessage(messageToSend, messageId);
      r := Chunked(sent);
    } else {
      r := Whole(messageToSend);
    }
  }

  // ---------------------------------------------------------------- receiver

  function Key(peerId: string, messageId: string): string {
    peerId + "_" + messageId
  }

  /** Concatenates the chunks 0 .. n-1 that are present. */
  function Assemble(chunks: map<int, Data>, n: nat): Data {
    if n == 0 then []
    else Assemble(chunks, n - 1) + (if n - 1 in chunks then chunks[n - 1] else [])
  }

  datatype State = State(incomplete: map<string, IncompleteMessage>, emitted: seq<Emission>)

  const EMPTY := State(map[], [])

  /** What one delivered chunk does to the receiver. */
  function Step(s: State, d: Delivery): State {
    var c := d.chunk;
    var key := Key(d.peerId, c.messageId);
    if key in s.incomplete then
      var m := s.incomplete[key];
      var chunks := m.chunks[c.chunkIndex := c.data];
      if |chunks| == c.totalChunks then
        State(s.incomplete - {key}, s.emitted + [Emission(d.peerId, c.messageId, Assemble(chunks, |chunks|))])
      else
        State(s.incomplete[key := m.(chunks := chunks)], s.emitted)
    else
      State(s.incomplete[key := IncompleteMessage(c.messageId, c.totalChunks, map[c.chunkIndex := c.data])], s.emitted)
  }

  /** The effect of any chunk, genuine or not: no other entry is touched; a first chunk is only stored; a
      later one replaces what was held under its index and completes the message when as many indices are
      held as the chunk itself says there are. */
  ghost predicate Handled(s: State, s': State, c: MessageChunk, peerId: string) {
    var key := peerId + "_" + c.messageId;
    && (forall k :: k != key ==>
          (k in s'.incomplete <==> k in s.incomplete) && (k in s.incomplete ==> s'.incomplete[k] == s.incomplete[k]))
    && (key !in s.incomplete ==>
          && s'.emitted == s.emitted && key in s'.incomplete
          && s'.incomplete[key] == IncompleteMessage(c.messageId, c.totalChunks, map[c.chunkIndex := c.data]))
    && (key in s.incomplete ==>
          var held := s.incomplete[key].chunks[c.chunkIndex := c.data];
          if |held| == c.totalChunks then
            && key !in s'.incomplete && |s'.emitted| == |s.emitted| + 1 && s'.emitted[..|s.emitted|] == s.emitted
            && s'.emitted[|s.emitted|] == Emission(peerId, c.messageId, Assemble(held, c.totalChunks))
          else
            && s'.emitted == s.emitted && key in s'.incomplete
            && s'.incomplete[key] == s.incomplete[key].(chunks := held))
  }

  /** Chunk i, if held, follows the bytes of the chunks before it, and missing ones leave no gap. */
  lemma {:induction false} AssembleAt(chunks: map<int, Data>, n: nat, i: nat)
    requires i < n
    ensures
      var from, to := |Assemble(chunks, i)|, |Assemble(chunks, i + 1)|;
      && from <= to <= |Assemble(chunks, n)|
      && Assemble(chunks, n)[from..to] == (if i in chunks then chunks[i] else [])
    ensures Assemble(chunks, 0) == []
  {
    if i < n - 1 {
      AssembleAt(chunks, n - 1, i);
      var from, to := |Assemble(chunks, i)|, |Assemble(chunks, i + 1)|;
      assert Assemble(chunks, n)[from..to] == Assemble(chunks, n - 1)[from..to];
    }
  }

  class Receiver {
    var incompleteMessages: map<string, IncompleteMessage>
    var emitted: seq<Emission>

    constructor ()
      ensures Contents() == EMPTY
    {
      incompleteMessages, emitted := map[], [];
    }

    ghost function Contents(): State
      reads this
    {
      State(incompleteMessages, emitted)
    }

    method HandleMessageChunk(chunk: MessageChunk, peerId: string)
      modifies this
      ensures Contents() == Step(old(Contents()), Delivery(peerId, chunk))
      ensures Handled(old(Contents()), Contents(), chunk, peerId)
    {
      var key := Key(peerId, chunk.messageId);
      if key in incompleteMessages {
        var incompleteMsg := incompleteMessages[key];
        incompleteMsg := incompleteMsg.(chunks := incompleteMsg.chunks[chunk.chunkIndex := chunk.data]);
        if |incompleteMsg.chunks| == chunk.totalChunks {
          var completeData: Data := [];
          for i := 0 to chunk.totalChunks
            invariant completeData == Assemble(incompleteMsg.chunks, i)
          {
            if i in incompleteMsg.chunks {
              completeData := completeData + incompleteMsg.chunks[i];
            }
          }
          incompleteMessages := incompleteMessages - {key};
          emitted := emitted + [Emission(peerId, chunk.messageId, completeData)];
        } else {
          incompleteMessages := incompleteMessages[key := incompleteMsg];
        }
      } else {
        var newIncompleteMsg := IncompleteMessage(chunk.messageId, chunk.totalChunks, map[]);
        newIncompleteMsg := newIncompleteMsg.(chunks := newIncompleteMsg.chunks[chunk.chunkIndex := chunk.data]);
        incompleteMessages := incompleteMessages[key := newIncompleteMsg];
      }
    }
  }

  function Run(s: State, ds: seq<Delivery>): State {
    if ds == [] then s else Step(Run(s, ds[..|ds| - 1]), ds[|ds| - 1])
  }

  // ---------------------------------------------------------------- genuine traffic

  type MessageKey = (string, string)

  const UUID_LENGTH := 36

  /** What the peers sent through the chunked path: data over one chunk, under UUID identifiers. */
  ghost predicate ValidSent(sent: map<MessageKey, Data>) {
    forall k :: k in sent ==> |k.1| == UUID_LENGTH && |sent[k]| > MAX_CHUNK
  }

  function KeyOf(d: Delivery): MessageKey {
    (d.peerId, d.chunk.messageId)
  }

  /** d is one of the chunks of a message that was sent. */
  ghost predicate Genuine(sent: map<MessageKey, Data>, d: Delivery) {
    && KeyOf(d) in sent
    && 0 <= d.chunk.chunkIndex < TotalChunks(|sent[KeyOf(d)]|)
    && d.chunk == ChunkAt(d.chunk.messageId, sent[KeyOf(d)], d.chunk.chunkIndex)
  }

  ghost predicate AllGenuine(sent: map<MessageKey, Data>, ds: seq<Delivery>) {
    forall i :: 0 <= i < |ds| ==> Genuine(sent, ds[i])
  }

  /** Fixed-length identifiers make the concatenated dictionary key unambiguous. */
  lemma KeyInjective(k: MessageKey, l: MessageKey)
    requires |k.1| == |l.1| && Key(k.0, k.1) == Key(l.0, l.1)
    ensures k == l
  {
    var x, y := Key(k.0, k.1), Key(l.0, l.1);
    assert x[|k.0| + 1..] == k.1 && y[|l.0| + 1..] == l.1;
    assert x[..|k.0|] == k.0 && y[..|l.0|] == l.0;
  }

  ghost function Indices(n: nat): set<int> {
    if n == 0 then {} else Indices(n - 1) + {n - 1}
  }

  lemma {:induction false} IndicesMembers(n: nat)
    ensures |Indices(n)| == n && forall i :: i in Indices(n) <==> 0 <= i < n
  {
    if n > 0 {
      IndicesMembers(n - 1);
    }
  }

  lemma FullWhenCounted(s: set<int>, n: nat)
    requires s <= Indices(n)
    ensures |s| == n <==> s == Indices(n)
  {
    IndicesMembers(n);
    assert Indices(n) == s + (Indices(n) - s);
    assert |Indices(n)| == |s| + |Indices(n) - s|;
  }

  /** m holds some, but not all, of the chunks of data, each under its own index. */
  ghost predicate Partial(m: IncompleteMessage, messageId: string, data: Data) {
    && m.chunks.Keys < Indices(TotalChunks(|data|))
    && HoldsChunksOf(m.chunks, messageId, data)
  }

  ghost predicate HoldsChunksOf(chunks: map<int, Data>, messageId: string, data: Data) {
    forall i :: i in chunks ==> 0 <= i < TotalChunks(|data|) && chunks[i] == ChunkAt(messageId, data, i).data
  }

  /** The receiver invariant: every entry is a partial copy of a sent message, and everything
      emitted is a sent message in full. */
  ghost predicate Inv(sent: map<MessageKey, Data>, s: State) {
    && (forall k :: k in sent && Key(k.0, k.1) in s.incomplete ==> Partial(s.incomplete[Key(k.0, k.1)], k.1, sent[k]))
    && (forall e :: e in s.emitted ==> (e.peerId, e.messageId) in sent && e.data == sent[(e.peerId, e.messageId)])
  }

  lemma {:induction false} AssemblePrefix(chunks: map<int, Data>, messageId: string, data: Data, n: nat)
    requires n <= TotalChunks(|data|) && HoldsChunksOf(chunks, messageId, data)
    requires forall i :: 0 <= i < n ==> i in chunks
    ensures Assemble(chunks, n) == data[..Covered(data, n)]
  {
    if n > 0 {
      AssemblePrefix(chunks, messageId, data, n - 1);
      assert chunks[n - 1] == ChunkAt(messageId, data, n - 1).data;
      assert data[..Covered(data, n)] == data[..Covered(data, n - 1)] + data[Covered(data, n - 1)..Covered(data, n)];
    }
  }

  lemma AssembleAll(chunks: map<int, Data>, messageId: string, data: Data)
    requires HoldsChunksOf(chunks, messageId, data) && chunks.Keys == Indices(TotalChunks(|data|))
    ensures Assemble(chunks, TotalChunks(|data|)) == data
  {
    var n := TotalChunks(|data|);
    IndicesMembers(n);
    assert forall i :: i in chunks.Keys <==> i in chunks;
    AssemblePrefix(chunks, messageId, data, n);
    assert data[..|data|] == data;
  }

  // ---------------------------------------------------------------- one message at a time

  /** The chunks of message k held since its last emission. */
  ghost function Pending(s: State, k: MessageKey): set<int> {
    if Key(k.0, k.1) in s.incomplete then s.incomplete[Key(k.0, k.1)].chunks.Keys else {}
  }

  function EmittedCount(es: seq<Emission>, k: MessageKey): nat {
    if es == [] then 0
    else EmittedCount(es[..|es| - 1], k)
         + if (es[|es| - 1].peerId, es[|es| - 1].messageId) == k then 1 else 0
  }

  lemma EmittedOneMore(es: seq<Emission>, e: Emission, k: MessageKey)
    ensures EmittedCount(es + [e], k) == EmittedCount(es, k) + if (e.peerId, e.messageId) == k then 1 else 0
  {
  }

  /** How often chunk i of message k was delivered. */
  function Delivered(ds: seq<Delivery>, k: MessageKey, i: int): nat {
    if ds == [] then 0
    else
      var d := ds[|ds| - 1];
      Delivered(ds[..|ds| - 1], k, i) + if KeyOf(d) == k && d.chunk.chunkIndex == i then 1 else 0
  }

  /** A delivery for one message leaves every other message's progress alone. */
  lemma StepOther(sent: map<MessageKey, Data>, s: State, d: Delivery, k: MessageKey)
    requires ValidSent(sent) && Genuine(sent, d) && k in sent && k != KeyOf(d)
    ensures Pending(Step(s, d), k) == Pending(s, k)
    ensures EmittedCount(Step(s, d).emitted, k) == EmittedCount(s.emitted, k)
    ensures Key(k.0, k.1) in Step(s, d).incomplete <==> Key(k.0, k.1) in s.incomplete
    ensures Key(k.0, k.1) in s.incomplete ==> Step(s, d).incomplete[Key(k.0, k.1)] == s.incomplete[Key(k.0, k.1)]
  {
    if Key(k.0, k.1) == Key(d.peerId, d.chunk.messageId) {
      KeyInjective(k, KeyOf(d));
    }
    var s' := Step(s, d);
    if s'.emitted != s.emitted {
      EmittedOneMore(s.emitted, s'.emitted[|s.emitted|], k);
    }
  }

  lemma ExtendPartial(m: IncompleteMessage, c: MessageChunk, data: Data)
    requires HoldsChunksOf(m.chunks, c.messageId, data) && m.chunks.Keys <= Indices(TotalChunks(|data|))
    requires 0 <= c.chunkIndex < TotalChunks(|data|) && c == ChunkAt(c.messageId, data, c.chunkIndex)
    ensures
      var chunks := m.chunks[c.chunkIndex := c.data];
      && chunks.Keys == m.chunks.Keys + {c.chunkIndex}
      && chunks.Keys <= Indices(TotalChunks(|data|))
      && HoldsChunksOf(chunks, c.messageId, data)
      && (|chunks| == c.totalChunks <==> chunks.Keys == Indices(TotalChunks(|data|)))
  {
    IndicesMembers(TotalChunks(|data|));
    var chunks := m.chunks[c.chunkIndex := c.data];
    assert chunks.Keys == m.chunks.Keys + {c.chunkIndex};
    FullWhenCounted(chunks.Keys, TotalChunks(|data|));
    assert |chunks| == |chunks.Keys|;
  }

  /** A delivery for message k adds its index; when that makes the set full, the set is emptied and
      exactly the sent bytes are emitted. The first-chunk branch never looks for completion, so this
      law needs messages of at least two chunks. */
  lemma StepOwn(sent: map<MessageKey, Data>, s: State, d: Delivery)
    requires ValidSent(sent) && Inv(sent, s) && Genuine(sent, d)
    ensures
      var k, data, s' := KeyOf(d), sent[KeyOf(d)], Step(s, d);
      var now := Pending(s, k) + {d.chunk.chunkIndex};
      if now == Indices(TotalChunks(|data|)) then
        && Pending(s', k) == {}
        && s'.emitted == s.emitted + [Emission(k.0, k.1, data)]
        && Key(k.0, k.1) !in s'.incomplete
      else
        && Pending(s', k) == now
        && s'.emitted == s.emitted
        && Key(k.0, k.1) in s'.incomplete
        && Partial(s'.incomplete[Key(k.0, k.1)], k.1, data)
  {
    var k, data, c := KeyOf(d), sent[KeyOf(d)], d.chunk;
    var n := TotalChunks(|data|);
    TotalChunksBounds(|data|);
    IndicesMembers(n);
    var key := Key(k.0, k.1);
    if key in s.incomplete {
      var m := s.incomplete[key];
      ExtendPartial(m, c, data);
      var chunks := m.chunks[c.chunkIndex := c.data];
      if chunks.Keys == Indices(n) {
        AssembleAll(chunks, c.messageId, data);
      }
    } else {
      var first := map[c.chunkIndex := c.data];
      assert first.Keys == {c.chunkIndex};
      assert (0 in Indices(n) && 1 in Indices(n)) && !(0 in first && 1 in first);
    }
  }

  lemma StepInv(sent: map<MessageKey, Data>, s: State, d: Delivery)
    requires ValidSent(sent) && Inv(sent, s) && Genuine(sent, d)
    ensures Inv(sent, Step(s, d))
  {
    var s' := Step(s, d);
    StepOwn(sent, s, d);
    forall k | k in sent && Key(k.0, k.1) in s'.incomplete
      ensures Partial(s'.incomplete[Key(k.0, k.1)], k.1, sent[k])
    {
      if k != KeyOf(d) {
        StepOther(sent, s, d, k);
      }
    }
  }

  // ---------------------------------------------------------------- whole runs

  /** Between s0 and s, chunk i of message k having been delivered so often: emissions and the index
      still held are paid for by deliveries of i, and until the next emission nothing is lost. */
  ghost predicate Accounted(s0: State, s: State, k: MessageKey, i: int, delivered: nat) {
    var before, after := EmittedCount(s0.emitted, k), EmittedCount(s.emitted, k);
    var heldBefore, heldAfter := i in Pending(s0, k), i in Pending(s, k);
    && before <= after
    && after + (if heldAfter then 1 else 0) <= before + (if heldBefore then 1 else 0) + delivered
    && (after == before ==> (heldAfter <==> heldBefore || delivered > 0))
  }

  lemma StepAccounts(sent: map<MessageKey, Data>, s: State, d: Delivery, k: MessageKey, i: int)
    requires ValidSent(sent) && Inv(sent, s) && Genuine(sent, d)
    requires k in sent && 0 <= i < TotalChunks(|sent[k]|)
    ensures Accounted(s, Step(s, d), k, i, if KeyOf(d) == k && d.chunk.chunkIndex == i then 1 else 0)
  {
    if KeyOf(d) == k {
      StepOwn(sent, s, d);
      IndicesMembers(TotalChunks(|sent[k]|));
      EmittedOneMore(s.emitted, Emission(k.0, k.1, sent[k]), k);
    } else {
      StepOther(sent, s, d, k);
    }
  }

  lemma {:induction false} RunAccounts(sent: map<MessageKey, Data>, s0: State, ds: seq<Delivery>, k: MessageKey, i: int)
    requires ValidSent(sent) && Inv(sent, s0) && AllGenuine(sent, ds)
    requires k in sent && 0 <= i < TotalChunks(|sent[k]|)
    ensures Inv(sent, Run(s0, ds)) && Accounted(s0, Run(s0, ds), k, i, Delivered(ds, k, i))
  {
    if ds != [] {
      var init, d := ds[..|ds| - 1], ds[|ds| - 1];
      RunAccounts(sent, s0, init, k, i);
      var s := Run(s0, init);
      StepInv(sent, s, d);
      StepAccounts(sent, s, d, k, i);
    }
  }

  ghost predicate EveryChunkDelivered(ds: seq<Delivery>, k: MessageKey, total: nat) {
    forall i :: 0 <= i < total ==> Delivered(ds, k, i) >= 1
  }

  /** Safety: whatever the order, duplication and interleaving, only sent bytes are emitted, under
      the peer and identifier they were sent with. */
  lemma OnlySentBytesAreEmitted(sent: map<MessageKey, Data>, ds: seq<Delivery>, e: Emission)
    requires ValidSent(sent) && AllGenuine(sent, ds) && e in Run(EMPTY, ds).emitted
    ensures (e.peerId, e.messageId) in sent && e.data == sent[(e.peerId, e.messageId)]
  {
    RunInv(sent, ds);
  }

  lemma {:induction false} RunInv(sent: map<MessageKey, Data>, ds: seq<Delivery>)
    requires ValidSent(sent) && AllGenuine(sent, ds)
    ensures Inv(sent, Run(EMPTY, ds))
  {
    if ds != [] {
      RunInv(sent, ds[..|ds| - 1]);
      StepInv(sent, Run(EMPTY, ds[..|ds| - 1]), ds[|ds| - 1]);
    }
  }

  /** No duplication out of nothing: a message is emitted at most as often as each of its chunks
      was delivered. */
  lemma EmittedAtMostLeastDelivered(sent: map<MessageKey, Data>, ds: seq<Delivery>, k: MessageKey, i: int)
    requires ValidSent(sent) && AllGenuine(sent, ds) && k in sent && 0 <= i < TotalChunks(|sent[k]|)
    ensures EmittedCount(Run(EMPTY, ds).emitted, k) <= Delivered(ds, k, i)
  {
    RunAccounts(sent, EMPTY, ds, k, i);
  }

  /** Liveness, from every reachable state: a stretch of traffic in which every chunk of k arrives
      at least once emits k at least once. */
  lemma EmittedOnceAllArrive(sent: map<MessageKey, Data>, earlier: seq<Delivery>, ds: seq<Delivery>, k: MessageKey)
    requires ValidSent(sent) && AllGenuine(sent, earlier) && AllGenuine(sent, ds) && k in sent
    requires EveryChunkDelivered(ds, k, TotalChunks(|sent[k]|))
    ensures EmittedCount(Run(Run(EMPTY, earlier), ds).emitted, k) > EmittedCount(Run(EMPTY, earlier).emitted, k)
  {
    RunInv(sent, earlier);
    var s0 := Run(EMPTY, earlier);
    var s := Run(s0, ds);
    TotalChunksBounds(|sent[k]|);
    RunAccounts(sent, s0, ds, k, 0);
    var i := MissingIndex(sent, s, k);
    RunAccounts(sent, s0, ds, k, i);
  }

  lemma {:induction false} FindMissing(s: set<int>, n: nat) returns (i: int)
    requires s < Indices(n)
    ensures 0 <= i < n && i !in s
  {
    i := n - 1;
    if n - 1 in s {
      i := FindMissing(s - {n - 1}, n - 1);
    }
  }

  lemma MissingIndex(sent: map<MessageKey, Data>, s: State, k: MessageKey) returns (i: int)
    requires ValidSent(sent) && Inv(sent, s) && k in sent
    ensures 0 <= i < TotalChunks(|sent[k]|) && i !in Pending(s, k)
  {
    var n := TotalChunks(|sent[k]|);
    TotalChunksBounds(|sent[k]|);
    IndicesMembers(n);
    if Key(k.0, k.1) in s.incomplete {
      assert Partial(s.incomplete[Key(k.0, k.1)], k.1, sent[k]);
      i := FindMissing(Pending(s, k), n);
    } else {
      i := 0;
    }
  }

  // ---------------------------------------------------------------- the size guard

  /** The first n chunks of one message, each delivered once, in order. */
  function InOrder(peerId: string, messageId: string, data: Data, n: nat): (r: seq<Delivery>)
    requires n <= TotalChunks(|data|)
    ensures |r| == n
  {
    if n == 0 then [] else InOrder(peerId, messageId, data, n - 1) + [Delivery(peerId, ChunkAt(messageId, data, n - 1))]
  }

  lemma {:induction false} InOrderAt(peerId: string, messageId: string, data: Data, n: nat, i: int)
    requires 0 <= i < n <= TotalChunks(|data|)
    ensures InOrder(peerId, messageId, data, n)[i] == Delivery(peerId, ChunkAt(messageId, data, i))
  {
    if i < n - 1 {
      InOrderAt(peerId, messageId, data, n - 1, i);
    }
  }

  lemma {:induction false} InOrderDelivered(peerId: string, messageId: string, data: Data, n: nat, i: int)
    requires n <= TotalChunks(|data|)
    ensures Delivered(InOrder(peerId, messageId, data, n), (peerId, messageId), i) == if 0 <= i < n then 1 else 0
  {
    if n > 0 {
      InOrderDelivered(peerId, messageId, data, n - 1, i);
    }
  }

  lemma {:induction false} AllEmissionsCounted(es: seq<Emission>, k: MessageKey)
    requires forall e :: e in es ==> (e.peerId, e.messageId) == k
    ensures EmittedCount(es, k) == |es|
  {
    if es != [] {
      assert forall e :: e in es[..|es| - 1] ==> e in es;
      AllEmissionsCounted(es[..|es| - 1], k);
      assert es[|es| - 1] in es;
    }
  }

  /** The cross-function dependency: one in-order delivery of the chunks of a non-empty message
      yields exactly that message if and only if the sender's guard `count > maxChunkSize` holds. */
  lemma GuardIsExact(peerId: string, messageId: string, data: Data)
    requires |messageId| == UUID_LENGTH && data != []
    ensures Run(EMPTY, InOrder(peerId, messageId, data, TotalChunks(|data|))).emitted
            == [Emission(peerId, messageId, data)]
            <==> |data| > MAX_CHUNK
  {
    var n, k := TotalChunks(|data|), (peerId, messageId);
    var ds := InOrder(peerId, messageId, data, n);
    TotalChunksBounds(|data|);
    if |data| > MAX_CHUNK {
      var sent := map[k := data];
      forall i | 0 <= i < n
        ensures Delivered(ds, k, i) == 1
      {
        InOrderDelivered(peerId, messageId, data, n, i);
      }
      forall i | 0 <= i < |ds|
        ensures Genuine(sent, ds[i])
      {
        InOrderAt(peerId, messageId, data, n, i);
      }
      EmittedOnceAllArrive(sent, [], ds, k);
      EmittedAtMostLeastDelivered(sent, ds, k, 0);
      RunInv(sent, ds);
      var es := Run(EMPTY, ds).emitted;
      AllEmissionsCounted(es, k);
      assert es[0] in es;
      assert es == [es[0]];
    } else {
      InOrderAt(peerId, messageId, data, n, 0);
      assert ds[..0] == [];
      assert Run(EMPTY, ds) == Step(EMPTY, ds[0]);
    }
  }
}
