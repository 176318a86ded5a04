/** The store the fillers share (internal/repository/db/indexer.go): each method is one transaction,
    atomic, and may fail. */
module Repository {
  import opened Wrappers
  import opened Tables
  import opened RowContents
  import opened LogReads
  import Balances
  import Seqs

  /** What the database does to a transaction. */
  datatype Fault =
    | NoFault
    | StatementFails     // a statement fails: the transaction is rolled back
    | CommitFails        // the commit fails: the transaction is rolled back
    | ReplyLost          // the commit takes effect but its caller gets an error

  /** The commit took effect. */
  predicate Took(fault: Fault) {
    fault.NoFault? || fault.ReplyLost?
  }

  /** UNNEST of the column arrays: one row per index. */
  function ZipBlocks(hashes: seq<string>, ids: seq<nat>, parents: seq<string>, limits: seq<nat>, useds: seq<nat>,
                     miners: seq<string>, timestamps: seq<nat>): seq<Block>
    requires |hashes| == |ids| == |parents| == |limits| == |useds| == |miners| == |timestamps|
  {
    seq(|hashes|, i requires 0 <= i < |hashes| =>
      Block(hashes[i], ids[i], parents[i], limits[i], useds[i], miners[i], timestamps[i]))
  }

  function ZipTxs(ids: seq<nat>, hashes: seq<string>, froms: seq<string>, tos: seq<Option<string>>, useds: seq<nat>)
    : seq<(string, Row<TxCols>)>
    requires |ids| == |hashes| == |froms| == |tos| == |useds|
  {
    seq(|ids|, i requires 0 <= i < |ids| => (hashes[i], Row(ids[i], TxCols(froms[i], tos[i], useds[i]))))
  }

  function ZipEvents(ids: seq<nat>, indexes: seq<nat>, txHashes: seq<string>, emitters: seq<string>, datas: seq<string>,
                     topics: seq<seq<string>>): seq<(EventKey, Row<EventCols>)>
    requires |ids| == |indexes| == |txHashes| == |emitters| == |datas| == |topics|
  {
    seq(|ids|, i requires 0 <= i < |ids| =>
      (EventKey(txHashes[i], indexes[i]), Row(ids[i], EventCols(emitters[i], datas[i], topics[i]))))
  }

  /** The first statement of BulkCreate: seven column arrays filled by index, here in two passes. */
  method BlockColumns(items: seq<BlockTxsEvents>) returns (rows: seq<Block>)
    ensures rows == Blocks(items)
  {
    var hashes, ids, parents := LinkColumns(items);
    var limits, useds, miners, timestamps := HeaderColumns(items);
    ZippedBlocks(items, hashes, ids, parents, limits, useds, miners, timestamps);
    rows := ZipBlocks(hashes, ids, parents, limits, useds, miners, timestamps);
  }

  method LinkColumns(items: seq<BlockTxsEvents>) returns (hashes: seq<string>, ids: seq<nat>, parents: seq<string>)
    ensures |items| == |hashes| == |ids| == |parents|
    ensures forall j :: 0 <= j < |items| ==> hashes[j] == items[j].block.hash
    ensures forall j :: 0 <= j < |items| ==> ids[j] == items[j].block.id
    ensures forall j :: 0 <= j < |items| ==> parents[j] == items[j].block.parentHash
  {
    var n := |items|;
    var blockHashes, blockIds, parentHashes := new string[n], new nat[n], new string[n];
    for i := 0 to n
      invariant forall j :: 0 <= j < i ==> blockHashes[j] == items[j].block.hash
      invariant forall j :: 0 <= j < i ==> blockIds[j] == items[j].block.id
      invariant forall j :: 0 <= j < i ==> parentHashes[j] == items[j].block.parentHash
    {
      blockHashes[i] := items[i].block.hash;
      blockIds[i] := items[i].block.id;
      parentHashes[i] := items[i].block.parentHash;
    }
    hashes, ids, parents := blockHashes[..], blockIds[..], parentHashes[..];
  }

  method HeaderColumns(items: seq<BlockTxsEvents>)
    returns (limits: seq<nat>, useds: seq<nat>, miners: seq<string>, timestamps: seq<nat>)
    ensures |items| == |limits| == |useds| == |miners| == |timestamps|
    ensures forall j :: 0 <= j < |items| ==> limits[j] == items[j].block.gasLimit
    ensures forall j :: 0 <= j < |items| ==> useds[j] == items[j].block.gasUsed
    ensures forall j :: 0 <= j < |items| ==> miners[j] == items[j].block.miner
    ensures forall j :: 0 <= j < |items| ==> timestamps[j] == items[j].block.timestamp
  {
    var n := |items|;
    var gasLimits, gasUseds, minerNames, times := new nat[n], new nat[n], new string[n], new nat[n];
    for i := 0 to n
      invariant forall j :: 0 <= j < i ==> gasLimits[j] == items[j].block.gasLimit
      invariant forall j :: 0 <= j < i ==> gasUseds[j] == items[j].block.gasUsed
      invariant forall j :: 0 <= j < i ==> minerNames[j] == items[j].block.miner
      invariant forall j :: 0 <= j < i ==> times[j] == items[j].block.timestamp
    {
      gasLimits[i] := items[i].block.gasLimit;
      gasUseds[i] := items[i].block.gasUsed;
      minerNames[i] := items[i].block.miner;
      times[i] := items[i].block.timestamp;
    }
    limits, useds, miners, timestamps := gasLimits[..], gasUseds[..], minerNames[..], times[..];
  }

  lemma ZippedBlocks(items: seq<BlockTxsEvents>, hashes: seq<string>, ids: seq<nat>, parents: seq<string>,
                     limits: seq<nat>, useds: seq<nat>, miners: seq<string>, timestamps: seq<nat>)
    requires |items| == |hashes| == |ids| == |parents| == |limits| == |useds| == |miners| == |timestamps|
    requires forall j :: 0 <= j < |items| ==> hashes[j] == items[j].block.hash
    requires forall j :: 0 <= j < |items| ==> ids[j] == items[j].block.id
    requires forall j :: 0 <= j < |items| ==> parents[j] == items[j].block.parentHash
    requires forall j :: 0 <= j < |items| ==> limits[j] == items[j].block.gasLimit
    requires forall j :: 0 <= j < |items| ==> useds[j] == items[j].block.gasUsed
    requires forall j :: 0 <= j < |items| ==> miners[j] == items[j].block.miner
    requires forall j :: 0 <= j < |items| ==> timestamps[j] == items[j].block.timestamp
    ensures ZipBlocks(hashes, ids, parents, limits, useds, miners, timestamps) == Blocks(items)
  {
  }

  method TxColumns(txs: seq<Transaction>) returns (rows: seq<(string, Row<TxCols>)>)
    ensures rows == TxEntries(txs) && |rows| == |txs|
    ensures forall j :: 0 <= j < |txs| ==>
              rows[j] == (txs[j].hash, Row(txs[j].blockId, TxCols(txs[j].from, txs[j].to, txs[j].gasUsed)))
  {
    var n := |txs|;
    var ids, hashes, froms := new nat[n], new string[n], new string[n];
    var tos, useds := new Option<string>[n](_ => None), new nat[n];
    for i := 0 to n
      invariant forall j :: 0 <= j < i ==> ids[j] == txs[j].blockId && hashes[j] == txs[j].hash
      invariant forall j :: 0 <= j < i ==> froms[j] == txs[j].from && tos[j] == txs[j].to && useds[j] == txs[j].gasUsed
    {
      ids[i], hashes[i], froms[i], tos[i], useds[i] :=
        txs[i].blockId, txs[i].hash, txs[i].from, txs[i].to, txs[i].gasUsed;
    }
    rows := ZipTxs(ids[..], hashes[..], froms[..], tos[..], useds[..]);
  }

  /** The event columns, filled by index, in two passes. */
  method EventColumns(events: seq<Event>) returns (rows: seq<(EventKey, Row<EventCols>)>)
    ensures rows == EventEntries(events) && |rows| == |events|
    ensures forall j :: 0 <= j < |events| ==>
              rows[j] == (EventKey(events[j].txHash, events[j].logIndex),
                          Row(events[j].blockId, EventCols(events[j].emitter, events[j].datas, events[j].topics)))
  {
    var ids, indexes, txHashes := EventKeyColumns(events);
    var emitters, datas, topics := EventDataColumns(events);
    rows := ZipEvents(ids, indexes, txHashes, emitters, datas, topics);
  }

  method EventKeyColumns(events: seq<Event>) returns (ids: seq<nat>, indexes: seq<nat>, txHashes: seq<string>)
    ensures |events| == |ids| == |indexes| == |txHashes|
    ensures forall j :: 0 <= j < |events| ==> ids[j] == events[j].blockId
    ensures forall j :: 0 <= j < |events| ==> indexes[j] == events[j].logIndex
    ensures forall j :: 0 <= j < |events| ==> txHashes[j] == events[j].txHash
  {
    var n := |events|;
    var evBlockIds, evLogIndexes, evTxHashes := new nat[n], new nat[n], new string[n];
    for i := 0 to n
      invariant forall j :: 0 <= j < i ==> evBlockIds[j] == events[j].blockId
      invariant forall j :: 0 <= j < i ==> evLogIndexes[j] == events[j].logIndex
      invariant forall j :: 0 <= j < i ==> evTxHashes[j] == events[j].txHash
    {
      evBlockIds[i] := events[i].blockId;
      evLogIndexes[i] := events[i].logIndex;
      evTxHashes[i] := events[i].txHash;
    }
    ids, indexes, txHashes := evBlockIds[..], evLogIndexes[..], evTxHashes[..];
  }

  method EventDataColumns(events: seq<Event>)
    returns (emitters: seq<string>, datas: seq<string>, topics: seq<seq<string>>)
    ensures |events| == |emitters| == |datas| == |topics|
    ensures forall j :: 0 <= j < |events| ==> emitters[j] == events[j].emitter
    ensures forall j :: 0 <= j < |events| ==> datas[j] == events[j].datas
    ensures forall j :: 0 <= j < |events| ==> topics[j] == events[j].topics
  {
    var n := |events|;
    var evEmitters, evDatas, evTopics := new string[n], new string[n], new seq<string>[n];
    for i := 0 to n
      invariant forall j :: 0 <= j < i ==> evEmitters[j] == events[j].emitter
      invariant forall j :: 0 <= j < i ==> evDatas[j] == events[j].datas
      invariant forall j :: 0 <= j < i ==> evTopics[j] == events[j].topics
    {
      evEmitters[i] := events[i].emitter;
      evDatas[i] := events[i].datas;
      evTopics[i] := events[i].topics;
    }
    emitters, datas, topics := evEmitters[..], evDatas[..], evTopics[..];
  }

  /** The loops of Create: one first-wins insert for each transaction, then for each event. */
  method InsertTxs(t: Table<string, TxCols>, newTxs: seq<Transaction>) returns (work: Table<string, TxCols>)
    ensures work == InsertAll(t, TxEntries(newTxs))
  {
    work := t;
    for i := 0 to |newTxs|
      invariant work == InsertAll(t, TxEntries(newTxs)[..i])
    {
      var (k, r) := TxEntry(newTxs[i]);
      if k !in work { work := work[k := r]; }
      assert TxEntries(newTxs)[..i + 1][..i] == TxEntries(newTxs)[..i];
    }
    assert TxEntries(newTxs)[..|newTxs|] == TxEntries(newTxs);
  }

  method InsertEvents(t: Table<EventKey, EventCols>, newEvents: seq<Event>) returns (work: Table<EventKey, EventCols>)
    ensures work == InsertAll(t, EventEntries(newEvents))
  {
    work := t;
    for i := 0 to |newEvents|
      invariant work == InsertAll(t, EventEntries(newEvents)[..i])
    {
      var (k, r) := EventEntry(newEvents[i]);
      if k !in work { work := work[k := r]; }
      assert EventEntries(newEvents)[..i + 1][..i] == EventEntries(newEvents)[..i];
    }
    assert EventEntries(newEvents)[..|newEvents|] == EventEntries(newEvents);
  }

  /** The transactions and the events of all items, in order. */
  method FlattenItems(items: seq<BlockTxsEvents>) returns (flatTxs: seq<Transaction>, flatEvents: seq<Event>)
    ensures flatTxs == FlatTxs(items) && flatEvents == FlatEvents(items)
  {
    flatTxs, flatEvents := [], [];
    for i := 0 to |items|
      invariant flatTxs == FlatTxs(items[..i])
    {
      assert items[..i + 1][..i] == items[..i];
      flatTxs := flatTxs + items[i].txs;
    }
    for i := 0 to |items|
      invariant flatEvents == FlatEvents(items[..i])
    {
      assert items[..i + 1][..i] == items[..i];
      flatEvents := flatEvents + items[i].events;
    }
    assert items[..|items|] == items;
  }

  class IndexerRepository {
    var blocks: map<nat, Block>
    var txs: Table<string, TxCols>
    var events: Table<EventKey, EventCols>
    var walletBalance: Balances.Ledger
    var backfillCursor: nat
    var balancefillCursor: nat

    function Rows(): Store
      reads this
    {
      Store(blocks, txs, events)
    }

    /** The migrated schema: empty tables, both cursors at 0. */
    constructor ()
      ensures Rows() == Store(map[], map[], map[]) && walletBalance == map[]
      ensures backfillCursor == 0 && balancefillCursor == 0
    {
      blocks, txs, events, walletBalance := map[], map[], map[], map[];
      backfillCursor, balancefillCursor := 0, 0;
    }

    /** Create: an error rolls everything back, but the error of the commit itself is dropped. */
    method Create(block: Block, newTxs: seq<Transaction>, newEvents: seq<Event>, fault: Fault) returns (err: bool)
      modifies this`blocks, this`txs, this`events
      ensures
        var spec := old(CreateSpec(Rows(), BlockTxsEvents(block, newTxs, newEvents)));
        && err == (fault.StatementFails? || spec.None?)
        && Rows() == if err || fault.CommitFails? then old(Rows()) else spec.value
      ensures err <==>
        || fault.StatementFails?
        || (block.id in old(blocks) && forall h :: h in old(blocks) ==> old(blocks)[h].hash != block.hash)
      ensures !err && !fault.CommitFails? ==>
        && BlockWritten(old(blocks), block, blocks)
        && TxsWritten(old(txs), newTxs, txs) && EventsWritten(old(events), newEvents, events)
    {
      CreateWrites(Rows(), BlockTxsEvents(block, newTxs, newEvents));
      hide TxsWritten, EventsWritten, BlockWritten;
      var inserted := InsertBlock(blocks, block);
      if fault.StatementFails? || inserted.None? { return true; }
      var workTxs := InsertTxs(txs, newTxs);
      var workEvents := InsertEvents(events, newEvents);
      if !fault.CommitFails? {
        blocks, txs, events := inserted.value, workTxs, workEvents;
      }
      err := false;
    }

    /** BulkCreate: all blocks, then the flattened transactions, then the flattened events. */
    method BulkCreate(items: seq<BlockTxsEvents>, fault: Fault) returns (err: bool)
      modifies this`blocks, this`txs, this`events
      ensures
        var spec := old(BulkSpec(Rows(), items));
        && err == (fault != NoFault || spec.None?)
        && Rows() == if fault.StatementFails? || fault.CommitFails? || spec.None? then old(Rows()) else spec.value
      ensures old(BulkSpec(Rows(), items)).Some? && !fault.StatementFails? && !fault.CommitFails? ==>
        TxsWritten(old(txs), FlatTxs(items), txs) && EventsWritten(old(events), FlatEvents(items), events)
    {
      if BulkSpec(Rows(), items).Some? { BulkWrites(Rows(), items); }
      hide TxsWritten, EventsWritten;
      var blockRows := BlockColumns(items);
      var inserted := InsertBlocks(blocks, blockRows);
      if fault.StatementFails? || inserted.None? { return true; }
      var flatTxs, flatEvents := FlattenItems(items);
      var workTxs, workEvents := txs, events;
      if |flatTxs| > 0 {
        var txRows := TxColumns(flatTxs);
        workTxs := InsertAll(txs, txRows);
      }
      if |flatEvents| > 0 {
        var eventRows := EventColumns(flatEvents);
        workEvents := InsertAll(events, eventRows);
      }
      if fault.CommitFails? { return true; }
      blocks, txs, events := inserted.value, workTxs, workEvents;
      err := fault.ReplyLost?;
    }

    method Delete(blockId: nat, fault: Fault) returns (err: bool)
      modifies this`blocks, this`txs, this`events
      ensures err == (fault != NoFault)
      ensures Rows() == if fault.StatementFails? || fault.CommitFails? then old(Rows())
                        else old(DeleteSpec(Rows(), blockId))
    {
      if fault.StatementFails? || fault.CommitFails? { return true; }
      events := DropHeight(events, blockId);
      txs := DropHeight(txs, blockId);
      blocks := blocks - {blockId};
      err := fault.ReplyLost?;
    }

    /** The row at a height; None is ErrNotFound. */
    method GetBlockById(id: nat) returns (b: Option<Block>)
      ensures b == if id in blocks then Some(blocks[id]) else None
    {
      b := if id in blocks then Some(blocks[id]) else None;
    }

    method UpdateBackfillCursor(blockId: nat, fault: Fault) returns (err: bool)
      modifies this`backfillCursor
      ensures err == (fault != NoFault)
      ensures backfillCursor == if fault.StatementFails? || fault.CommitFails? then old(backfillCursor) else blockId
    {
      if Took(fault) { backfillCursor := blockId; }
      err := !fault.NoFault?;
    }

    method UpdateBalancefillCursor(blockId: nat, fault: Fault) returns (err: bool)
      modifies this`balancefillCursor
      ensures err == (fault != NoFault)
      ensures balancefillCursor == if fault.StatementFails? || fault.CommitFails? then old(balancefillCursor)
                                   else blockId
    {
      if Took(fault) { balancefillCursor := blockId; }
      err := !fault.NoFault?;
    }

    /** One statement for all entries: it fails if two of them have the same key. */
    method BatchUpsertBalance(entries: seq<Balances.Entry>, fault: Fault) returns (err: bool)
      modifies this`walletBalance
      ensures
        var spec := old(Balances.Upsert(walletBalance, entries));
        && err == (fault != NoFault || spec.None?)
        && walletBalance == if fault.StatementFails? || fault.CommitFails? || spec.None?
                            then old(walletBalance) else spec.value
      ensures !err ==> !fault.StatementFails? && Balances.EntriesAdded(old(walletBalance), entries, walletBalance)
      ensures fault.NoFault? ==> (err <==> exists i, j :: 0 <= i < j < |entries| && entries[i].key == entries[j].key)
    {
      Balances.UpsertAdds(walletBalance, entries);
      hide Balances.EntriesAdded;
      var spec := Balances.Upsert(walletBalance, entries);
      if fault.StatementFails? || fault.CommitFails? || spec.None? { return true; }
      walletBalance := spec.value;
      err := fault.ReplyLost?;
    }

    /** The highest stored height, 0 when there is none. */
    method GetMaxIndexedBlock() returns (max: nat)
      ensures IsMax(blocks, max)
      ensures (forall h :: h in blocks ==> h <= max) && (if blocks == map[] then max == 0 else max in blocks)
    {
      max := 0;
      var rest := blocks.Keys;
      while rest != {}
        invariant rest <= blocks.Keys
        invariant forall h :: h in blocks && h !in rest ==> h <= max
        invariant (rest == blocks.Keys && max == 0) || max in blocks
        decreases |rest|
      {
        var h :| h in rest;
        if h > max || rest == blocks.Keys { max := h; }
        rest := rest - {h};
      }
    }

    /** The matching events, each once, in whatever order they come. */
    method GetLogsByTopic(signatures: seq<string>, from: nat, to: nat) returns (logs: seq<Balances.Log>)
      ensures IsLogRead(events, signatures, from, to, logs)
      ensures exists keys: seq<EventKey> :: ReadsAs(events, signatures, from, to, logs, keys)
    {
      logs := [];
      ghost var keys: seq<EventKey> := [];
      var rest := set k | k in events && Selected(events, signatures, from, to, k);
      while rest != {}
        invariant Seqs.Distinct(keys) && LogsAt(events, logs, keys)
        invariant forall k :: k in rest ==> k !in keys
        invariant forall k :: Selected(events, signatures, from, to, k) <==> k in keys || k in rest
        decreases |rest|
      {
        var k :| k in rest;
        logs := logs + [LogOf(events[k])];
        keys := keys + [k];
        rest := rest - {k};
      }
      assert IsLogReadOf(events, signatures, from, to, logs, keys);
      ReadsAsIff(events, signatures, from, to, logs, keys);
    }
  }
}
