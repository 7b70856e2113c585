/** Fast synchronisation: a chain sent as a stream of chunks, and a receiver that puts chunks back in
    order, whatever order they arrive in and however often. */
module FastSync {
  import opened Base

  const CHAIN_SYNC_CHUNK_SIZE: nat := 20

  datatype Chunk<T> = Chunk(start: int, blocks: seq<T>, done: bool, next: Option<int>)

  // ---- Sending ----------------------------------------------------------------------------

  function Least(a: int, b: int): int {
    if a < b then a else b
  }

  // A chunk from a height on; heights past the chain give an empty, last chunk.
  function BuildChunk<T>(chain: seq<T>, height: int, start: nat): Chunk<T> {
    var from := Least(start, |chain|);
    var blocks := chain[from..Least(from + CHAIN_SYNC_CHUNK_SIZE, |chain|)];
    var next := start + |blocks|;
    Chunk(start, blocks, next > height, if next > height then None else Some(next))
  }

  // The heights of the chain from a start on, none when the start is past its end.
  function From<T>(chain: seq<T>, start: nat): seq<T> {
    if start <= |chain| then chain[start..] else []
  }

  lemma ChunkFacts<T>(chain: seq<T>, start: nat)
    ensures var c := BuildChunk(chain, |chain| - 1, start);
            && c.start == start && (c.done <==> c.next.None?) && (c.next.Some? ==> c.next == Some(start + |c.blocks|))
            && |c.blocks| <= 20
            && (if c.done then c.blocks == From(chain, start)
                else |c.blocks| == 20 && start + |c.blocks| < |chain|
                     && From(chain, start) == c.blocks + From(chain, start + |c.blocks|))
  {
  }

  // The chunks of a chain from a height on.
  ghost function Stream<T>(chain: seq<T>, start: nat): seq<Chunk<T>>
    decreases if start < |chain| then |chain| - start else 0
  {
    ChunkFacts(chain, start);
    var c := BuildChunk(chain, |chain| - 1, start);
    if c.done then [c] else [c] + Stream(chain, start + |c.blocks|)
  }

  method SendChainStream<T>(chain: seq<T>, chainHeight: int, startHeight: int) returns (sent: seq<Chunk<T>>)
    requires chainHeight == |chain| - 1
    ensures sent == Stream(chain, if startHeight < 0 then 0 else startHeight)
  {
    hide BuildChunk, From;
    var next := if startHeight < 0 then 0 else startHeight;
    ghost var first := next;
    sent := [];
    assert [] + Stream(chain, first) == Stream(chain, first);
    while true
      invariant next >= 0 && sent + Stream(chain, next) == Stream(chain, first)
      decreases |chain| - next
    {
      ChunkFacts(chain, next);
      var c := BuildChunk(chain, chainHeight, next);
      ghost var rest := if c.done then [] else Stream(chain, next + |c.blocks|);
      assert Stream(chain, next) == [c] + rest && sent + ([c] + rest) == sent + [c] + rest;
      sent := sent + [c];
      if c.done {
        return;
      }
      next := c.next.value;
    }
  }

  ghost function Joined<T>(chunks: seq<Chunk<T>>): seq<T> {
    if chunks == [] then [] else Joined(chunks[..|chunks| - 1]) + chunks[|chunks| - 1].blocks
  }

  lemma {:induction false} JoinedFirst<T>(c: Chunk<T>, chunks: seq<Chunk<T>>)
    ensures Joined([c] + chunks) == c.blocks + Joined(chunks)
  {
    if chunks == [] {
      assert [c] + chunks == [c] && [c][..0] == [];
      assert Joined([c]) == Joined([c][..0]) + c.blocks == c.blocks + Joined([]);
    } else {
      var front, last, all := chunks[..|chunks| - 1], chunks[|chunks| - 1], [c] + chunks;
      JoinedFirst(c, front);
      assert all[..|all| - 1] == [c] + front && all[|all| - 1] == last;
      assert c.blocks + Joined(front) + last.blocks == c.blocks + (Joined(front) + last.blocks);
    }
  }

  // Consecutive chunks, all but the last of them non-empty and not the last.
  ghost predicate WellFormed<T>(chunks: seq<Chunk<T>>) {
    && chunks != [] && (forall j :: 0 <= j < |chunks| ==> chunks[j].start >= 0 && (chunks[j].done <==> j == |chunks| - 1))
    && (forall j :: 0 <= j < |chunks| ==> (chunks[j].next.Some? ==> chunks[j].next.value == chunks[j].start + |chunks[j].blocks|))
    && (forall j, k :: 0 <= j < k < |chunks| ==> chunks[j].start + |chunks[j].blocks| <= chunks[k].start && chunks[j].blocks != [])
    && (forall j, k :: 0 <= j < |chunks| && k == j + 1 < |chunks| ==> chunks[j].start + |chunks[j].blocks| == chunks[k].start)
  }

  lemma ConsWellFormed<T>(c: Chunk<T>, rest: seq<Chunk<T>>)
    requires WellFormed(rest) && c.start >= 0 && !c.done && c.blocks != [] && rest[0].start == c.start + |c.blocks|
    requires c.next == Some(c.start + |c.blocks|)
    ensures WellFormed([c] + rest)
  {
    var all := [c] + rest;
    assert all[0] == c && all[1] == rest[0];
    assert forall k :: 1 <= k < |all| ==> all[k] == rest[k - 1];
    forall k | 1 <= k < |all|
      ensures c.start + |c.blocks| <= all[k].start
    {
      assert all[k] == rest[k - 1];
    }
    forall j, k | 0 <= j < k < |all|
      ensures all[j].start + |all[j].blocks| <= all[k].start && all[j].blocks != []
    {
      if j > 0 {
        assert all[j] == rest[j - 1] && all[k] == rest[k - 1];
      }
    }
    forall j | 0 <= j < |all| - 1
      ensures all[j].start + |all[j].blocks| == all[j + 1].start
    {
      if j > 0 {
        assert all[j] == rest[j - 1] && all[j + 1] == rest[j];
      }
    }
  }

  // The chunks are in order and join to the chain from the start height on.
  lemma {:induction false} StreamIsTheChain<T>(chain: seq<T>, start: nat)
    ensures var chunks := Stream(chain, start);
            WellFormed(chunks) && chunks[0].start == start && Joined(chunks) == From(chain, start)
    decreases if start < |chain| then |chain| - start else 0
  {
    hide BuildChunk, From, WellFormed;
    var c := BuildChunk(chain, |chain| - 1, start);
    ChunkFacts(chain, start);
    if c.done {
      JoinedFirst(c, []);
      OneChunk(c);
      assert [c] + [] == [c];
    } else {
      StreamIsTheChain(chain, start + |c.blocks|);
      JoinedFirst(c, Stream(chain, start + |c.blocks|));
      ConsWellFormed(c, Stream(chain, start + |c.blocks|));
    }
  }

  lemma OneChunk<T>(c: Chunk<T>)
    requires c.start >= 0 && c.done && (c.next.Some? ==> c.next.value == c.start + |c.blocks|)
    ensures WellFormed([c])
  {
  }

  // ---- Receiving --------------------------------------------------------------------------

  // What the handler of received blocks reports back.
  datatype Reply = Reply(accepted: nat, orphans: nat, rejected: nat)

  // A reply after which the sync neither starts over nor stops.
  predicate GoesOn(start: int, r: Reply) {
    !(start > 0 && r.accepted == 0 && r.orphans > 0) && !(r.accepted == 0 && r.rejected > 0 && r.orphans == 0)
  }

  // The first chunks, up to and without the first one that has not arrived.
  ghost predicate Leading(arrived: set<nat>, count: nat, m: nat) {
    m <= count && (forall j :: 0 <= j < m ==> j in arrived) && (m < count ==> m !in arrived)
  }

  // Where the stream goes on after its first m chunks.
  ghost function StartOf<T>(chunks: seq<Chunk<T>>, m: nat): int
    requires chunks != [] && m <= |chunks|
  {
    if m < |chunks| then chunks[m].start else chunks[m - 1].start + |chunks[m - 1].blocks|
  }

  // The pending chunks are those that arrived and have not been handed over.
  ghost predicate Pends<T>(chunks: seq<Chunk<T>>, m: nat, arrived: set<nat>, pending: map<int, Chunk<T>>) {
    && (forall j :: m <= j < |chunks| && j in arrived ==> chunks[j].start in pending && pending[chunks[j].start] == chunks[j])
    && (forall h :: h in pending ==> Awaited(chunks, m, arrived, h))
  }

  ghost predicate Awaited<T>(chunks: seq<Chunk<T>>, m: nat, arrived: set<nat>, h: int) {
    exists j :: m <= j < |chunks| && j in arrived && chunks[j].start == h
  }

  lemma StartsIncrease<T>(chunks: seq<Chunk<T>>, j: nat, k: nat)
    requires WellFormed(chunks) && j < k < |chunks|
    ensures 0 <= chunks[j].start < chunks[k].start
  {
  }

  lemma NextStart<T>(chunks: seq<Chunk<T>>, j: nat)
    requires WellFormed(chunks) && j < |chunks|
    ensures chunks[j].start >= 0 && StartOf(chunks, j + 1) == chunks[j].start + |chunks[j].blocks|
    ensures (chunks[j].done <==> j == |chunks| - 1) && (chunks[j].next.Some? ==> chunks[j].next.value == StartOf(chunks, j + 1))
  {
  }

  // A chunk that starts before the expected one has been handed over; in an unfinished stream the
  // others have not.
  lemma BeforeExpected<T>(chunks: seq<Chunk<T>>, j: nat, m: nat)
    requires WellFormed(chunks) && j < |chunks| && m <= |chunks|
    ensures chunks[j].start < StartOf(chunks, m) ==> j < m
    ensures chunks[j].start >= StartOf(chunks, m) && m < |chunks| ==> j >= m
  {
    hide WellFormed;
    if m < |chunks| && j > m {
      StartsIncrease(chunks, m, j);
    } else if m < |chunks| && j < m {
      StartsIncrease(chunks, j, m);
    }
  }

  lemma PendsMore<T>(chunks: seq<Chunk<T>>, m: nat, arrived: set<nat>, pending: map<int, Chunk<T>>, j: nat)
    requires WellFormed(chunks) && Pends(chunks, m, arrived, pending) && m <= j < |chunks|
    ensures var start := chunks[j].start;
            Pends(chunks, m, arrived + {j}, if start in pending then pending else pending[start := chunks[j]])
  {
    hide WellFormed;
    forall k | 0 <= k < |chunks| && k != j
      ensures chunks[k].start != chunks[j].start
    {
      StartsIncrease(chunks, if j < k then j else k, if j < k then k else j);
    }
    forall h | Awaited(chunks, m, arrived, h)
      ensures Awaited(chunks, m, arrived + {j}, h)
    {
    }
    assert Awaited(chunks, m, arrived + {j}, chunks[j].start);
  }

  lemma PendsStill<T>(chunks: seq<Chunk<T>>, m: nat, arrived: set<nat>, pending: map<int, Chunk<T>>, j: nat)
    requires Pends(chunks, m, arrived, pending) && j < m
    ensures Pends(chunks, m, arrived + {j}, pending)
  {
    forall h | Awaited(chunks, m, arrived, h)
      ensures Awaited(chunks, m, arrived + {j}, h)
    {
    }
  }

  // The expected chunk is pending exactly when it has arrived, and taking it out leaves the rest.
  lemma PendsNext<T>(chunks: seq<Chunk<T>>, m: nat, arrived: set<nat>, pending: map<int, Chunk<T>>)
    requires WellFormed(chunks) && Pends(chunks, m, arrived, pending) && m < |chunks|
    ensures chunks[m].start in pending <==> m in arrived
    ensures m in arrived ==> pending[chunks[m].start] == chunks[m] && Pends(chunks, m + 1, arrived, pending - {chunks[m].start})
  {
    hide WellFormed;
    forall k | m < k < |chunks|
      ensures chunks[k].start != chunks[m].start
    {
      StartsIncrease(chunks, m, k);
    }
    forall h | Awaited(chunks, m, arrived, h) && h != chunks[m].start
      ensures Awaited(chunks, m + 1, arrived, h)
    {
    }
  }

  function AcceptedIn(replies: seq<Reply>): nat {
    if replies == [] then 0 else AcceptedIn(replies[..|replies| - 1]) + replies[|replies| - 1].accepted
  }

  lemma MayGoOn(start: int)
    ensures GoesOn(start, Reply(1, 0, 0))
  {
  }

  class Receiver<T(==)> {
    var expectedStart: int
    var pending: map<int, Chunk<T>>
    var active: bool
    var acceptedBlocks: nat

    // The blocks given to the handler, and the stream that is being received.
    ghost var handed: seq<T>
    ghost var stream: seq<Chunk<T>>
    ghost var next: nat
    ghost var arrived: set<nat>

    // What the handler replied to each of them; it may reply differently to the same blocks.
    ghost var replies: seq<Reply>

    // Chunks before next have been handed over; of the others, those that arrived are pending.
    ghost predicate Sound()
      reads this
    {
      && WellFormed(stream) && next <= |stream| && active == (next < |stream|)
      && (forall j :: 0 <= j < next ==> j in arrived)
      && handed == Joined(stream[..next]) && expectedStart == StartOf(stream, next)
      && (active ==> Pends(stream, next, arrived, pending))
      && |replies| == next && acceptedBlocks == AcceptedIn(replies)
    }

    ghost predicate Valid()
      reads this
    {
      Sound() && Leading(arrived, |stream|, next)
    }

    constructor (startHeight: int, ghost stream: seq<Chunk<T>>)
      requires WellFormed(stream) && stream[0].start == if startHeight < 0 then 0 else startHeight
      ensures Valid() && this.stream == stream && arrived == {} && handed == []
    {
      expectedStart := if startHeight < 0 then 0 else startHeight;
      pending, active, acceptedBlocks := map[], true, 0;
      handed, this.stream, next, arrived, replies := [], stream, 0, {}, [];
    }

    // Takes a chunk of the stream in; one whose blocks were handed over already is ignored.
    method HandleChunk(c: Chunk<T>, ghost j: nat)
      requires Valid() && j < |stream| && c == stream[j]
      modifies this
      ensures Valid() && stream == old(stream) && arrived == old(arrived) + {j} && old(handed) <= handed
    {
      hide Joined, WellFormed, Pends, StartOf;
      NextStart(stream, j);
      BeforeExpected(stream, j, next);
      if active && j >= next {
        PendsMore(stream, next, arrived, pending, j);
      } else if active {
        PendsStill(stream, next, arrived, pending, j);
      }
      arrived := arrived + {j};
      var start := if c.start < 0 then 0 else c.start;
      if start < expectedStart {
        return;
      }
      if start !in pending {
        pending := pending[start := c];
      }
      Drain();
    }

    // Hands over pending chunks as long as the expected one is among them.
    method Drain()
      requires Sound()
      modifies `pending, `expectedStart, `active, `acceptedBlocks, `handed, `next, `replies
      ensures Valid() && old(handed) <= handed
    {
      hide Joined, WellFormed, Pends;
      while active && expectedStart in pending
        invariant Sound() && old(handed) <= handed
        decreases |stream| - next
      {
        HandOver();
      }
      if active {
        PendsNext(stream, next, arrived, pending);
      }
    }

    // Gives the blocks of the expected chunk to the handler, which replies anything that lets the sync
    // go on.
    method HandOver()
      requires Sound() && active && expectedStart in pending
      modifies `pending, `expectedStart, `active, `acceptedBlocks, `handed, `next, `replies
      ensures Sound() && next == old(next) + 1 && old(handed) <= handed
    {
      hide Joined, WellFormed, Pends;
      PendsNext(stream, next, arrived, pending);
      NextStart(stream, next);
      JoinedNext(stream, next);
      var c := pending[expectedStart];
      pending := pending - {expectedStart};
      var nextStart := if c.next.None? then c.start + |c.blocks| else c.next.value;
      MayGoOn(c.start);
      var reply: Reply :| GoesOn(c.start, reply);
      acceptedBlocks := acceptedBlocks + reply.accepted;
      replies := replies + [reply];
      handed := handed + c.blocks;
      next := next + 1;
      expectedStart := if nextStart < 0 then 0 else nextStart;
      if c.done {
        pending := map[];
        active := false;
      }
    }
  }

  lemma {:induction false} JoinedPrefix<T>(chunks: seq<Chunk<T>>, m: nat)
    requires m <= |chunks|
    ensures Joined(chunks[..m]) <= Joined(chunks)
    decreases |chunks| - m
  {
    if m < |chunks| {
      JoinedNext(chunks, m);
      JoinedPrefix(chunks, m + 1);
    } else {
      assert chunks[..m] == chunks;
    }
  }

  // Whatever has arrived, and however often, the blocks handed over are those of the leading
  // chunks, each once: a prefix of the chain from the start height on, and all of it, with the
  // sync over, once every chunk has arrived.
  lemma HandedIsAPrefix<T>(r: Receiver<T>, chain: seq<T>, start: nat)
    requires r.Valid() && r.stream == Stream(chain, start)
    ensures r.handed == Joined(r.stream[..r.next]) && Leading(r.arrived, |r.stream|, r.next)
    ensures r.handed <= From(chain, start)
    ensures (forall j :: 0 <= j < |r.stream| ==> j in r.arrived) ==> r.handed == From(chain, start) && !r.active
    ensures |r.replies| == r.next && r.acceptedBlocks == AcceptedIn(r.replies)
  {
    hide Stream, From, Joined, WellFormed;
    StreamIsTheChain(chain, start);
    JoinedPrefix(r.stream, r.next);
    if r.next == |r.stream| {
      assert r.stream[..r.next] == r.stream;
    }
  }

  lemma JoinedNext<T>(chunks: seq<Chunk<T>>, m: nat)
    requires m < |chunks|
    ensures Joined(chunks[..m + 1]) == Joined(chunks[..m]) + chunks[m].blocks
  {
    assert chunks[..m + 1][..m] == chunks[..m];
  }
}
