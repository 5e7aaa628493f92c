/** Reassembly of request bodies that arrive in blocks (section 2.5 of RFC 7959). */
module BlockTransfer {
  import opened Common

  /** A cache key: a digest of the session and of the request without its block option. */
  type Key = seq<byte>

  /** A cache entry holds a reassembly buffer, or nothing once a body has been handed over. */
  datatype Entry = Released | Buffering(bytes: seq<byte>)

  type Cache = map<Key, Entry>

  /**
   * One request as the CoAP library presents it. `hasData` is whether a payload
   * was found, `canCache` whether a new cache entry could be created if needed.
   */
  datatype Block = Block(key: Key, hasData: bool, offset: nat, data: seq<byte>, total: nat, canCache: bool) {
    function End(): nat { offset + |data| }

    /** What the library guarantees: blocks lie inside the announced total. */
    predicate WellFormed() { if hasData then End() <= total else data == [] }

    predicate Blockwise() { hasData && |data| != total }

    predicate Covers(i: nat) { offset <= i < End() }
  }

  datatype Outcome = Waiting | Complete(body: seq<byte>) | Failed

  function Resize(bytes: seq<byte>, total: nat): (r: seq<byte>)
    ensures |r| == total
    ensures forall i :: 0 <= i < total ==> r[i] == if i < |bytes| then bytes[i] else 0
  {
    if total <= |bytes| then bytes[..total] else bytes + Repeat(0, total - |bytes|)
  }

  /** `bytes` with `data` copied over it at `offset`. */
  function Overlay(bytes: seq<byte>, offset: nat, data: seq<byte>): (r: seq<byte>)
    ensures |r| == |bytes|
    ensures forall i :: 0 <= i < |bytes| ==> r[i] == if offset <= i < offset + |data| then data[i - offset] else bytes[i]
  {
    seq(|bytes|, i requires 0 <= i < |bytes| => if offset <= i < offset + |data| then data[i - offset] else bytes[i])
  }

  // ---------- One block ----------

  /** The entry a block finds or makes; `None` when the block has nowhere to go. */
  function Open(entry: Option<Entry>, b: Block): Option<Entry> {
    if b.offset == 0 then (if entry.Some? || b.canCache then Some(Buffering([])) else None) else entry
  }

  function Receive(entry: Option<Entry>, b: Block): (Option<Entry>, Outcome) {
    if !b.Blockwise() then (entry, Complete(b.data))
    else match Open(entry, b)
      case None => (None, Failed)
      case Some(Released) => (Some(Released), if b.data != [] || b.End() == b.total then Failed else Waiting)
      case Some(Buffering(bytes)) =>
        var filled := if b.data == [] then bytes else Overlay(Resize(bytes, b.total), b.offset, b.data);
        if b.End() == b.total then (Some(Released), Complete(filled)) else (Some(Buffering(filled)), Waiting)
  }

  function Step(cache: Cache, b: Block): (Cache, Outcome) {
    var (entry, outcome) := Receive(Lookup(cache, b.key), b);
    (if entry.Some? then cache[b.key := entry.value] else cache, outcome)
  }

  function BytesBefore(entry: Option<Entry>, b: Block): seq<byte> {
    if b.offset != 0 && entry.Some? && entry.value.Buffering? then entry.value.bytes else []
  }

  /** A non-empty block lands in a buffer of the announced total, over what the buffer held. */
  lemma ReceiveNonEmpty(entry: Option<Entry>, b: Block)
    requires b.Blockwise() && b.data != []
    requires if b.offset == 0 then b.canCache else entry.Some? && entry.value.Buffering?
    ensures var (after, outcome) := Receive(entry, b);
      var filled := Overlay(Resize(BytesBefore(entry, b), b.total), b.offset, b.data);
      if b.End() == b.total
      then after == Some(Released) && outcome == Complete(filled)
      else after == Some(Buffering(filled)) && outcome == Waiting
  {
  }

  /** A request that is not blockwise delivers its own data, or none, and leaves every entry alone. */
  lemma PlainRequestIsDelivered(cache: Cache, b: Block)
    requires !b.hasData || |b.data| == b.total
    ensures Step(cache, b) == (cache, Complete(b.data))
  {
    assert b.key in cache ==> cache[b.key := cache[b.key]] == cache;
  }

  /** A block with nowhere to go is an error, and makes no entry. */
  lemma StrayBlockFails(cache: Cache, b: Block)
    requires b.hasData && |b.data| != b.total && b.key !in cache && (b.offset != 0 || !b.canCache)
    ensures Step(cache, b) == (cache, Failed)
  {
  }

  /** A continuation of a body that has been delivered fails, unless it is empty and not at the end. */
  lemma ReleasedBlockFails(cache: Cache, b: Block)
    requires b.hasData && |b.data| != b.total && b.offset != 0 && b.key in cache && cache[b.key] == Released
    ensures Step(cache, b) == (cache, if b.data == [] && b.offset != b.total then Waiting else Failed)
  {
    assert cache[b.key := cache[b.key]] == cache;
  }

  /** An empty block at offset 0 starts a body and waits; another one waits, or delivers the buffer if it is at the end. */
  lemma EmptyBlock(cache: Cache, b: Block)
    requires b.hasData && b.data == [] && b.total != 0
    ensures b.offset == 0 && (b.key in cache || b.canCache) ==>
              Step(cache, b) == (cache[b.key := Buffering([])], Waiting)
    ensures b.offset != 0 && b.key in cache && cache[b.key].Buffering? ==>
              Step(cache, b) ==
                if b.offset == b.total then (cache[b.key := Released], Complete(cache[b.key].bytes)) else (cache, Waiting)
  {
    assert b.key in cache ==> cache[b.key := cache[b.key]] == cache;
  }

  // ---------- Runs ----------

  function Run(cache: Cache, blocks: seq<Block>): (Cache, seq<Outcome>) {
    if blocks == [] then (cache, []) else
      var (before, outcomes) := Run(cache, blocks[..|blocks| - 1]);
      var (after, outcome) := Step(before, blocks[|blocks| - 1]);
      (after, outcomes + [outcome])
  }

  function RunEntry(entry: Option<Entry>, blocks: seq<Block>): (r: (Option<Entry>, seq<Outcome>))
    ensures |r.1| == |blocks|
  {
    if blocks == [] then (entry, []) else
      var (before, outcomes) := RunEntry(entry, blocks[..|blocks| - 1]);
      var (after, outcome) := Receive(before, blocks[|blocks| - 1]);
      (after, outcomes + [outcome])
  }

  /** The blocks of one key, in order of arrival. */
  function Select(blocks: seq<Block>, key: Key): seq<Block> {
    if blocks == [] then [] else
      var n := |blocks| - 1;
      Select(blocks[..n], key) + (if blocks[n].key == key then [blocks[n]] else [])
  }

  /** The outcomes of the blocks of one key. */
  function SelectOutcomes(blocks: seq<Block>, outcomes: seq<Outcome>, key: Key): seq<Outcome>
    requires |blocks| == |outcomes|
  {
    if blocks == [] then [] else
      var n := |blocks| - 1;
      SelectOutcomes(blocks[..n], outcomes[..n], key) + (if blocks[n].key == key then [outcomes[n]] else [])
  }

  /** What the last block of a run does, when it is non-empty and finds its buffer. */
  lemma RunEntryLast(entry: Option<Entry>, blocks: seq<Block>, n: nat)
    requires |blocks| == n + 1 && blocks[n].Blockwise() && blocks[n].data != []
    requires var before := RunEntry(entry, blocks[..n]).0;
      if blocks[n].offset == 0 then blocks[n].canCache else before.Some? && before.value.Buffering?
    ensures var (before, outcomes) := RunEntry(entry, blocks[..n]);
      var b := blocks[n];
      var filled := Overlay(Resize(BytesBefore(before, b), b.total), b.offset, b.data);
      RunEntry(entry, blocks) ==
        if b.End() == b.total
        then (Some(Released), outcomes + [Complete(filled)])
        else (Some(Buffering(filled)), outcomes + [Waiting])
  {
    ReceiveNonEmpty(RunEntry(entry, blocks[..n]).0, blocks[n]);
  }

  /**
   * Transfers do not interfere: what a key's blocks see and leave behind is what
   * they would see and leave behind if they arrived alone.
   */
  lemma {:induction false} KeysAreIsolated(cache: Cache, blocks: seq<Block>, key: Key)
    ensures |Run(cache, blocks).1| == |blocks|
    ensures Lookup(Run(cache, blocks).0, key) == RunEntry(Lookup(cache, key), Select(blocks, key)).0
    ensures SelectOutcomes(blocks, Run(cache, blocks).1, key) == RunEntry(Lookup(cache, key), Select(blocks, key)).1
  {
    if blocks != [] {
      var n := |blocks| - 1;
      var mine := Select(blocks[..n], key);
      KeysAreIsolated(cache, blocks[..n], key);
      assert Run(cache, blocks).1[..n] == Run(cache, blocks[..n]).1;
      if blocks[n].key == key {
        assert Select(blocks, key) == mine + [blocks[n]];
        assert (mine + [blocks[n]])[..|mine|] == mine;
      } else {
        assert Select(blocks, key) == mine;
      }
    }
  }

  lemma {:induction false} RunEntryAppend(entry: Option<Entry>, first: seq<Block>, second: seq<Block>)
    ensures RunEntry(entry, first + second).0 == RunEntry(RunEntry(entry, first).0, second).0
    ensures RunEntry(entry, first + second).1 == RunEntry(entry, first).1 + RunEntry(RunEntry(entry, first).0, second).1
  {
    var all := first + second;
    if second == [] {
      assert all == first;
    } else {
      var n := |second| - 1;
      RunEntryAppend(entry, first, second[..n]);
      assert all[..|all| - 1] == first + second[..n] && all[|all| - 1] == second[n];
    }
  }

  // ---------- Contiguous transfers ----------

  function Concat(blocks: seq<Block>): seq<byte> {
    if blocks == [] then [] else Concat(blocks[..|blocks| - 1]) + blocks[|blocks| - 1].data
  }

  /** Non-empty blocks in order from offset 0; only the last one reaches its announced total. */
  ghost predicate Transfer(blocks: seq<Block>) {
    && blocks != []
    && blocks[0].canCache
    && forall j :: 0 <= j < |blocks| ==>
         && blocks[j].WellFormed() && blocks[j].hasData && blocks[j].data != []
         && blocks[j].offset == |Concat(blocks[..j])|
         && (blocks[j].End() == blocks[j].total <==> j == |blocks| - 1)
  }

  /** A wait for every block but the last, which gets the body. */
  function TransferOutcomes(blocks: seq<Block>): seq<Outcome> {
    if blocks == [] then [] else Repeat(Waiting, |blocks| - 1) + [Complete(Concat(blocks))]
  }

  lemma {:induction false} ConcatGrows(blocks: seq<Block>, j: nat)
    requires j <= |blocks|
    ensures |Concat(blocks[..j])| <= |Concat(blocks)|
  {
    if j < |blocks| {
      var n := |blocks| - 1;
      ConcatGrows(blocks[..n], j);
      assert blocks[..n][..j] == blocks[..j];
    } else {
      assert blocks[..j] == blocks;
    }
  }

  /** What `Transfer` says of one block. */
  lemma TransferBlock(blocks: seq<Block>, j: nat)
    requires Transfer(blocks) && j < |blocks|
    ensures var b := blocks[j];
      && b.WellFormed() && b.hasData && b.data != []
      && b.offset == |Concat(blocks[..j])|
      && (b.End() == b.total <==> j == |blocks| - 1)
      && (b.offset == 0 <==> j == 0) && (b.offset == 0 ==> b.canCache)
      && (|blocks| > 1 ==> b.Blockwise())
  {
    assert blocks[..0] == [];
    if j > 0 {
      ConcatGrows(blocks[..j], 1);
      assert blocks[..j][..1] == blocks[..1];
      assert blocks[..1][..0] == [];
    }
  }

  ghost predicate WaitingWith(r: (Option<Entry>, seq<Outcome>), n: nat, front: seq<byte>) {
    r.1 == Repeat(Waiting, n) && r.0.Some? && r.0.value.Buffering? && front <= r.0.value.bytes
  }

  /** A block that goes on where the buffer's front ends makes that front longer. */
  lemma FrontGrows(entry: Option<Entry>, blocks: seq<Block>, n: nat, front: seq<byte>)
    requires |blocks| == n + 1
    requires var b := blocks[n];
      b.Blockwise() && b.data != [] && b.offset == |front| && b.End() < b.total
    requires if n == 0 then front == [] && blocks[n].canCache
             else front != [] && WaitingWith(RunEntry(entry, blocks[..n]), n, front)
    ensures WaitingWith(RunEntry(entry, blocks), n + 1, front + blocks[n].data)
  {
    var b, before := blocks[n], RunEntry(entry, blocks[..n]);
    RunEntryLast(entry, blocks, n);
    FillKeepsFront(BytesBefore(before.0, b), front, b.data, b.total);
    assert Repeat(Waiting, n) + [Waiting] == Repeat(Waiting, n + 1);
  }

  /** Before its last block a transfer is waiting, with its blocks so far at the front of the buffer. */
  lemma {:induction false} TransferPrefix(entry: Option<Entry>, blocks: seq<Block>, j: nat)
    requires Transfer(blocks) && 0 < j < |blocks|
    ensures WaitingWith(RunEntry(entry, blocks[..j]), j, Concat(blocks[..j]))
  {
    var n := j - 1;
    TransferBlock(blocks, n);
    assert blocks[..j][..n] == blocks[..n];
    if n > 0 {
      TransferPrefix(entry, blocks, n);
    }
    FrontGrows(entry, blocks[..j], n, Concat(blocks[..n]));
  }

  lemma FillKeepsFront(held: seq<byte>, front: seq<byte>, data: seq<byte>, total: nat)
    requires front <= held && |front| + |data| <= total
    ensures front + data <= Overlay(Resize(held, total), |front|, data)
  {
  }

  lemma FinalFill(held: seq<byte>, front: seq<byte>, data: seq<byte>)
    requires front <= held
    ensures Overlay(Resize(held, |front| + |data|), |front|, data) == front + data
  {
  }

  lemma OneBlockTransfer(entry: Option<Entry>, blocks: seq<Block>)
    requires |blocks| == 1 && !blocks[0].Blockwise()
    ensures RunEntry(entry, blocks).1 == TransferOutcomes(blocks)
  {
    var none := blocks[..|blocks| - 1];
    assert RunEntry(entry, none) == (entry, []) && Concat(none) == [];
    assert RunEntry(entry, blocks).1 == [] + [Complete(blocks[0].data)];
    assert Concat(blocks) == [] + blocks[0].data == blocks[0].data;
  }

  lemma LastBlockCompletes(entry: Option<Entry>, blocks: seq<Block>, n: nat)
    requires 0 < n && |blocks| == n + 1 && blocks[n].Blockwise() && blocks[n].data != [] && blocks[n].offset != 0
    requires blocks[n].offset == |Concat(blocks[..n])| && blocks[n].End() == blocks[n].total
    requires WaitingWith(RunEntry(entry, blocks[..n]), n, Concat(blocks[..n]))
    ensures RunEntry(entry, blocks) == (Some(Released), TransferOutcomes(blocks))
  {
    RunEntryLast(entry, blocks, n);
    FinalFill(RunEntry(entry, blocks[..n]).0.value.bytes, Concat(blocks[..n]), blocks[n].data);
  }

  lemma TransferCompletes(entry: Option<Entry>, blocks: seq<Block>)
    requires Transfer(blocks)
    ensures RunEntry(entry, blocks).1 == TransferOutcomes(blocks)
    ensures |blocks| > 1 ==> RunEntry(entry, blocks).0 == Some(Released)
  {
    var n := |blocks| - 1;
    TransferBlock(blocks, n);
    if n == 0 {
      OneBlockTransfer(entry, blocks);
    } else {
      TransferPrefix(entry, blocks, n);
      LastBlockCompletes(entry, blocks, n);
    }
  }

  function FlatOutcomes(transfers: seq<seq<Block>>): seq<Outcome> {
    if transfers == [] then [] else
      FlatOutcomes(transfers[..|transfers| - 1]) + TransferOutcomes(transfers[|transfers| - 1])
  }

  lemma {:induction false} TransfersComplete(entry: Option<Entry>, transfers: seq<seq<Block>>)
    requires forall t :: t in transfers ==> Transfer(t)
    ensures RunEntry(entry, Flatten(transfers)).1 == FlatOutcomes(transfers)
  {
    if transfers != [] {
      var n := |transfers| - 1;
      var before := Flatten(transfers[..n]);
      TransfersComplete(entry, transfers[..n]);
      RunEntryAppend(entry, before, transfers[n]);
      TransferCompletes(RunEntry(entry, before).0, transfers[n]);
    }
  }

  /** The same as long as the last transfers are unfinished. */
  lemma TransfersSoFar(entry: Option<Entry>, blocks: seq<Block>, transfers: seq<seq<Block>>)
    requires blocks <= Flatten(transfers) && forall t :: t in transfers ==> Transfer(t)
    ensures |blocks| <= |FlatOutcomes(transfers)|
    ensures RunEntry(entry, blocks).1 == FlatOutcomes(transfers)[..|blocks|]
  {
    var rest := Flatten(transfers)[|blocks|..];
    TransfersComplete(entry, transfers);
    RunEntryAppend(entry, blocks, rest);
    assert blocks + rest == Flatten(transfers);
    var first, second := RunEntry(entry, blocks).1, RunEntry(RunEntry(entry, blocks).0, rest).1;
    assert FlatOutcomes(transfers) == first + second;
  }

  /**
   * However the blocks of different keys are interleaved, and whatever the cache
   * held: as long as the blocks of a key form transfers one after the other, of
   * which the last may be unfinished, the key gets each body exactly once, on the
   * transfer's last block, and a wait for every other block.
   */
  lemma InterleavedTransfersComplete(cache: Cache, blocks: seq<Block>, key: Key, transfers: seq<seq<Block>>)
    requires Select(blocks, key) <= Flatten(transfers)
    requires forall t :: t in transfers ==> Transfer(t)
    ensures |Run(cache, blocks).1| == |blocks|
    ensures |Select(blocks, key)| <= |FlatOutcomes(transfers)|
    ensures SelectOutcomes(blocks, Run(cache, blocks).1, key) == FlatOutcomes(transfers)[..|Select(blocks, key)|]
  {
    KeysAreIsolated(cache, blocks, key);
    TransfersSoFar(Lookup(cache, key), Select(blocks, key), transfers);
  }

  // ---------- Blocks in any order ----------

  /** The byte of the latest block covering position `i` since the last block at offset 0. */
  function Latest(blocks: seq<Block>, i: nat): Option<byte> {
    if blocks == [] then None else
      var b := blocks[|blocks| - 1];
      if b.Covers(i) then Some(b.data[i - b.offset])
      else if b.offset == 0 then None
      else Latest(blocks[..|blocks| - 1], i)
  }

  /** Non-empty blocks of one announced total, none of which reaches it. */
  ghost predicate Unfinished(blocks: seq<Block>, total: nat) {
    forall b :: b in blocks ==> b.hasData && b.canCache && b.data != [] && b.total == total && b.End() < total
  }

  lemma {:induction false} BufferIsLatest(entry: Option<Entry>, blocks: seq<Block>, total: nat)
    requires blocks != [] && blocks[0].offset == 0 && Unfinished(blocks, total)
    ensures var r := RunEntry(entry, blocks);
      && r.1 == Repeat(Waiting, |blocks|)
      && r.0.Some? && r.0.value.Buffering? && |r.0.value.bytes| == total
      && forall i :: 0 <= i < total ==> r.0.value.bytes[i] == Latest(blocks, i).GetOr(0)
  {
    var n := |blocks| - 1;
    assert blocks[n] in blocks;
    if n > 0 {
      BufferIsLatest(entry, blocks[..n], total);
    }
    var b, before := blocks[n], RunEntry(entry, blocks[..n]).0;
    RunEntryLast(entry, blocks, n);
    var filled := Overlay(Resize(BytesBefore(before, b), total), b.offset, b.data);
    forall i | 0 <= i < total
      ensures filled[i] == Latest(blocks, i).GetOr(0)
    {
    }
    assert Repeat(Waiting, n) + [Waiting] == Repeat(Waiting, |blocks|);
  }

  ghost predicate CoveredBy(blocks: seq<Block>, i: nat, j: nat) {
    j < |blocks| && blocks[j].Covers(i) && forall l :: j < l < |blocks| ==> blocks[l].offset != 0
  }

  /** Some block covers `i` and no later block starts the body again. */
  ghost predicate Covered(blocks: seq<Block>, i: nat) {
    exists j :: CoveredBy(blocks, i, j)
  }

  ghost predicate SliceOf(b: Block, body: seq<byte>) {
    b.total == |body| && b.End() <= |body| && b.data == body[b.offset..b.End()]
  }

  lemma CoveredStep(blocks: seq<Block>, n: nat, i: nat)
    requires |blocks| == n + 1
    ensures Covered(blocks, i) <==> blocks[n].Covers(i) || (blocks[n].offset != 0 && Covered(blocks[..n], i))
  {
    var init := blocks[..n];
    if blocks[n].Covers(i) {
      assert CoveredBy(blocks, i, n);
    } else if blocks[n].offset != 0 {
      forall j: nat
        ensures CoveredBy(blocks, i, j) <==> CoveredBy(init, i, j)
      {
      }
    }
  }

  lemma {:induction false} LatestOfSlices(blocks: seq<Block>, body: seq<byte>, i: nat)
    requires forall j :: 0 <= j < |blocks| ==> SliceOf(blocks[j], body)
    requires i < |body|
    ensures Latest(blocks, i) == if Covered(blocks, i) then Some(body[i]) else None
  {
    if blocks != [] {
      var n := |blocks| - 1;
      LatestOfSlices(blocks[..n], body, i);
      CoveredStep(blocks, n, i);
    }
  }

  /**
   * Blocks of one body may arrive in any order and any number of times, after a
   * first block at offset 0 and before the final one. What is delivered is the
   * body with a zero at every position no block covered since the last restart.
   */
  lemma AnyOrderDelivers(entry: Option<Entry>, blocks: seq<Block>, last: Block, body: seq<byte>)
    requires blocks != [] && blocks[0].offset == 0 && Unfinished(blocks, |body|)
    requires last.hasData && last.data != [] && last.offset != 0 && last.End() == |body|
    requires SliceOf(last, body) && forall j :: 0 <= j < |blocks| ==> SliceOf(blocks[j], body)
    ensures var r := RunEntry(entry, blocks + [last]);
      && r.0 == Some(Released)
      && r.1[..|blocks|] == Repeat(Waiting, |blocks|)
      && r.1[|blocks|].Complete?
      && |r.1[|blocks|].body| == |body|
      && (forall i :: 0 <= i < |body| ==>
            r.1[|blocks|].body[i] == if Covered(blocks + [last], i) then body[i] else 0)
      && ((forall i :: 0 <= i < |body| ==> Covered(blocks + [last], i)) ==> r.1[|blocks|] == Complete(body))
  {
    var all := blocks + [last];
    BufferIsLatest(entry, blocks, |body|);
    assert all[..|all| - 1] == blocks;
    var r := RunEntry(entry, all).1[|blocks|];
    forall i | 0 <= i < |body|
      ensures r.body[i] == if Covered(all, i) then body[i] else 0
    {
      LatestOfSlices(all, body, i);
    }
  }

  // ---------- Without a first block ----------

  /** Until a block at offset 0 starts a body, every blockwise block of a key without an entry is an error. */
  lemma {:induction false} StrayBlocksFail(blocks: seq<Block>)
    requires forall b :: b in blocks ==> b.hasData && |b.data| != b.total && b.offset != 0
    ensures RunEntry(None, blocks) == (None, Repeat(Failed, |blocks|))
  {
    if blocks != [] {
      var n := |blocks| - 1;
      assert blocks[n] in blocks;
      StrayBlocksFail(blocks[..n]);
      assert Receive(None, blocks[n]) == (None, Failed);
      assert Repeat(Failed, n) + [Failed] == Repeat(Failed, |blocks|);
    }
  }

  ghost predicate StartsBody(b: Block) { b.hasData && |b.data| != b.total && b.offset == 0 }

  /** An entry exists only after a block at offset 0. */
  lemma {:induction false} EntryNeedsStart(blocks: seq<Block>)
    ensures RunEntry(None, blocks).0.Some? ==> exists j :: 0 <= j < |blocks| && StartsBody(blocks[j])
  {
    if blocks != [] {
      var n := |blocks| - 1;
      EntryNeedsStart(blocks[..n]);
      if j :| 0 <= j < n && StartsBody(blocks[..n][j]) {
        assert StartsBody(blocks[j]);
      } else if RunEntry(None, blocks).0.Some? {
        assert StartsBody(blocks[n]);
      }
    }
  }

  ghost predicate StartedBefore(blocks: seq<Block>, m: int) {
    exists j :: 0 <= j < m && j < |blocks| && StartsBody(blocks[j])
  }

  /** A blockwise block completes a body only if an earlier block of its key was at offset 0. */
  lemma {:induction false} CompletionNeedsStart(blocks: seq<Block>, m: nat)
    requires m < |blocks| && blocks[m].hasData && |blocks[m].data| != blocks[m].total
    requires RunEntry(None, blocks).1[m].Complete?
    ensures StartedBefore(blocks, m)
    decreases |blocks|
  {
    var n := |blocks| - 1;
    if m < n {
      CompletionNeedsStart(blocks[..n], m);
      var j :| 0 <= j < m && j < n && StartsBody(blocks[..n][j]);
      assert StartsBody(blocks[j]);
    } else {
      EntryNeedsStart(blocks[..n]);
      var before := RunEntry(None, blocks[..n]).0;
      assert Receive(before, blocks[n]).1.Complete?;
      if before.Some? {
        var j :| 0 <= j < n && StartsBody(blocks[..n][j]);
        assert StartsBody(blocks[j]);
      }
    }
  }

  // ---------- After a body has been delivered ----------

  ghost predicate Continuation(b: Block) { b.Blockwise() && b.data != [] && b.offset != 0 }

  /** Until a block at offset 0 starts a new body, every further block of a delivered one is an error. */
  lemma {:induction false} LateBlocksFail(blocks: seq<Block>)
    requires forall b :: b in blocks ==> Continuation(b)
    ensures RunEntry(Some(Released), blocks) == (Some(Released), Repeat(Failed, |blocks|))
  {
    if blocks != [] {
      var n := |blocks| - 1;
      assert Continuation(blocks[n]);
      LateBlocksFail(blocks[..n]);
      assert Receive(Some(Released), blocks[n]) == (Some(Released), Failed);
      assert Repeat(Failed, n) + [Failed] == Repeat(Failed, |blocks|);
    }
  }
}
