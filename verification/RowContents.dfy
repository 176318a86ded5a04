/** What a committed write leaves in `transactions` and `events`, column by column
    (internal/repository/db/indexer.go:39-69, 110-177): an independent reading of the first-wins inserts. */
module RowContents {
  import opened Wrappers
  import opened Tables

  // ---------------------------------------------------------------- one table

  /** The rows that were there stay, the first row of each new key is stored, and nothing else. */
  lemma {:induction false} FirstRowStored<K, V>(t: Table<K, V>, rows: seq<(K, Row<V>)>, j: nat)
    requires j < |rows| && rows[j].0 !in t && forall i :: 0 <= i < j ==> rows[i].0 != rows[j].0
    ensures rows[j].0 in InsertAll(t, rows) && InsertAll(t, rows)[rows[j].0] == rows[j].1
  {
    var n := |rows| - 1;
    if j < n {
      FirstRowStored(t, rows[..n], j);
    } else {
      KeysStored(t, rows[..n], rows[n].0);
    }
  }

  lemma {:induction false} KeysStored<K, V>(t: Table<K, V>, rows: seq<(K, Row<V>)>, k: K)
    ensures k in InsertAll(t, rows) <==> k in t || exists j :: 0 <= j < |rows| && rows[j].0 == k
    ensures k in t ==> InsertAll(t, rows)[k] == t[k]
  {
    if rows == [] {
    } else {
      var n := |rows| - 1;
      KeysStored(t, rows[..n], k);
      if j :| 0 <= j < |rows| && rows[j].0 == k { assert j == n || rows[..n][j].0 == k; }
      if j :| 0 <= j < n && rows[..n][j].0 == k { assert rows[j].0 == k; }
    }
  }

  // ---------------------------------------------------------------- transactions

  /** Transaction j is the first of the list with its hash, and the table does not hold it. */
  predicate NewTx(t: Table<string, TxCols>, txs: seq<Transaction>, j: nat)
    requires j < |txs|
  {
    txs[j].hash !in t && forall i :: 0 <= i < j ==> txs[i].hash != txs[j].hash
  }

  /** The row of the transaction's hash has its height, sender, receiver and gas. */
  predicate HasTx(t: Table<string, TxCols>, x: Transaction) {
    && x.hash in t && t[x.hash].blockId == x.blockId
    && t[x.hash].cols.from == x.from && t[x.hash].cols.to == x.to && t[x.hash].cols.gasUsed == x.gasUsed
  }

  /** Table t' is t with the transactions of the list written to it. */
  ghost predicate TxsWritten(t: Table<string, TxCols>, txs: seq<Transaction>, t': Table<string, TxCols>) {
    && (forall k :: k in t ==> k in t' && t'[k] == t[k])
    && (forall j :: 0 <= j < |txs| && NewTx(t, txs, j) ==> HasTx(t', txs[j]))
    && (forall k :: k in t' && k !in t ==> exists j :: 0 <= j < |txs| && txs[j].hash == k)
  }

  lemma TxsInserted(t: Table<string, TxCols>, txs: seq<Transaction>)
    ensures TxsWritten(t, txs, InsertAll(t, TxEntries(txs)))
  {
    var rows := TxEntries(txs);
    forall k ensures k in InsertAll(t, rows) <==> k in t || exists j :: 0 <= j < |txs| && txs[j].hash == k
             ensures k in t ==> InsertAll(t, rows)[k] == t[k]
    {
      KeysStored(t, rows, k);
      if j :| 0 <= j < |txs| && txs[j].hash == k { assert rows[j].0 == k; }
      if j :| 0 <= j < |rows| && rows[j].0 == k { assert txs[j].hash == k; }
    }
    forall j | 0 <= j < |txs| && NewTx(t, txs, j) ensures HasTx(InsertAll(t, rows), txs[j]) {
      assert forall i :: 0 <= i <= j ==> rows[i].0 == txs[i].hash;
      FirstRowStored(t, rows, j);
    }
  }

  lemma {:induction false} FirstWith<K>(keys: seq<K>, j: nat) returns (i: nat)
    requires j < |keys|
    ensures i <= j && keys[i] == keys[j] && forall h :: 0 <= h < i ==> keys[h] != keys[j]
  {
    i := j;
    if h :| 0 <= h < j && keys[h] == keys[j] { i := FirstWith(keys, h); }
  }

  /** That determines the new table: it is the first-wins insert. */
  lemma TxsWrittenIff(t: Table<string, TxCols>, txs: seq<Transaction>, t': Table<string, TxCols>)
    ensures TxsWritten(t, txs, t') <==> t' == InsertAll(t, TxEntries(txs))
  {
    TxsInserted(t, txs);
    if TxsWritten(t, txs, t') {
      TxsWrittenOnce(t, txs, t', InsertAll(t, TxEntries(txs)));
      TxsWrittenOnce(t, txs, InsertAll(t, TxEntries(txs)), t');
    }
  }

  lemma TxsWrittenOnce(t: Table<string, TxCols>, txs: seq<Transaction>, a: Table<string, TxCols>,
                       b: Table<string, TxCols>)
    requires TxsWritten(t, txs, a) && TxsWritten(t, txs, b)
    ensures forall k :: k in a ==> k in b && a[k] == b[k]
  {
    forall k | k in a && k !in t ensures k in b && a[k] == b[k] {
      var j :| 0 <= j < |txs| && txs[j].hash == k;
      var hashes := seq(|txs|, i requires 0 <= i < |txs| => txs[i].hash);
      var i := FirstWith(hashes, j);
      assert forall h :: 0 <= h < i ==> hashes[h] == txs[h].hash;
      assert NewTx(t, txs, i) && HasTx(a, txs[i]) && HasTx(b, txs[i]);
    }
  }

  // ---------------------------------------------------------------- events

  /** Event j is the first of the list with its transaction and index, and the table does not hold it. */
  predicate NewEvent(t: Table<EventKey, EventCols>, events: seq<Event>, j: nat)
    requires j < |events|
  {
    && EventKey(events[j].txHash, events[j].logIndex) !in t
    && forall i :: 0 <= i < j ==> !(events[i].txHash == events[j].txHash && events[i].logIndex == events[j].logIndex)
  }

  /** The row of the event's transaction and index has its height, emitter, data and topics. */
  predicate HasEvent(t: Table<EventKey, EventCols>, e: Event) {
    var k := EventKey(e.txHash, e.logIndex);
    && k in t && t[k].blockId == e.blockId
    && t[k].cols.emitter == e.emitter && t[k].cols.datas == e.datas && t[k].cols.topics == e.topics
  }

  /** Table t' is t with the events of the list written to it. */
  ghost predicate EventsWritten(t: Table<EventKey, EventCols>, events: seq<Event>, t': Table<EventKey, EventCols>) {
    && (forall k :: k in t ==> k in t' && t'[k] == t[k])
    && (forall j :: 0 <= j < |events| && NewEvent(t, events, j) ==> HasEvent(t', events[j]))
    && (forall k :: k in t' && k !in t ==>
          exists j :: 0 <= j < |events| && events[j].txHash == k.txHash && events[j].logIndex == k.logIndex)
  }

  lemma EventsInserted(t: Table<EventKey, EventCols>, events: seq<Event>)
    ensures EventsWritten(t, events, InsertAll(t, EventEntries(events)))
  {
    var rows := EventEntries(events);
    forall k
      ensures k in InsertAll(t, rows) <==>
              || k in t
              || exists j :: 0 <= j < |events| && events[j].txHash == k.txHash && events[j].logIndex == k.logIndex
      ensures k in t ==> InsertAll(t, rows)[k] == t[k]
    {
      KeysStored(t, rows, k);
      if j :| 0 <= j < |events| && events[j].txHash == k.txHash && events[j].logIndex == k.logIndex {
        assert rows[j].0 == k;
      }
      if j :| 0 <= j < |rows| && rows[j].0 == k { assert EventKey(events[j].txHash, events[j].logIndex) == k; }
    }
    forall j | 0 <= j < |events| && NewEvent(t, events, j) ensures HasEvent(InsertAll(t, rows), events[j]) {
      assert forall i :: 0 <= i <= j ==> rows[i].0 == EventKey(events[i].txHash, events[i].logIndex);
      FirstRowStored(t, rows, j);
    }
  }

  /** That determines the new table: it is the first-wins insert. */
  lemma EventsWrittenIff(t: Table<EventKey, EventCols>, events: seq<Event>, t': Table<EventKey, EventCols>)
    ensures EventsWritten(t, events, t') <==> t' == InsertAll(t, EventEntries(events))
  {
    EventsInserted(t, events);
    if EventsWritten(t, events, t') {
      EventsWrittenOnce(t, events, t', InsertAll(t, EventEntries(events)));
      EventsWrittenOnce(t, events, InsertAll(t, EventEntries(events)), t');
    }
  }

  lemma EventsWrittenOnce(t: Table<EventKey, EventCols>, events: seq<Event>, a: Table<EventKey, EventCols>,
                          b: Table<EventKey, EventCols>)
    requires EventsWritten(t, events, a) && EventsWritten(t, events, b)
    ensures forall k :: k in a ==> k in b && a[k] == b[k]
  {
    forall k | k in a && k !in t ensures k in b && a[k] == b[k] {
      var j :| 0 <= j < |events| && events[j].txHash == k.txHash && events[j].logIndex == k.logIndex;
      var keys := seq(|events|, i requires 0 <= i < |events| => EventKey(events[i].txHash, events[i].logIndex));
      var i := FirstWith(keys, j);
      assert forall h :: 0 <= h < i ==> keys[h] == EventKey(events[h].txHash, events[h].logIndex);
      assert NewEvent(t, events, i) && HasEvent(a, events[i]) && HasEvent(b, events[i]);
    }
  }

  // ---------------------------------------------------------------- whole writes

  /** The block is stored, unless its hash is. */
  ghost predicate BlockWritten(bs: map<nat, Block>, b: Block, bs': map<nat, Block>) {
    bs' == if exists h :: h in bs && bs[h].hash == b.hash then bs else bs[b.id := b]
  }

  /** A create fails exactly on a height that another hash holds, when its own hash is not stored. */
  lemma CreateWrites(s: Store, item: BlockTxsEvents)
    ensures CreateSpec(s, item).None? <==>
            item.block.id in s.blocks && forall h :: h in s.blocks ==> s.blocks[h].hash != item.block.hash
    ensures CreateSpec(s, item).Some? ==>
      var s' := CreateSpec(s, item).value;
      && BlockWritten(s.blocks, item.block, s'.blocks)
      && TxsWritten(s.txs, item.txs, s'.txs) && EventsWritten(s.events, item.events, s'.events)
  {
    TxsInserted(s.txs, item.txs);
    EventsInserted(s.events, item.events);
  }

  /** The flattened lists of a bulk write: the items' lists one after another. */
  lemma FlatOne(item: BlockTxsEvents)
    ensures FlatTxs([item]) == item.txs && FlatEvents([item]) == item.events
  {
    assert [item][..0] == [];
    assert FlatTxs([item][..0]) == [] && FlatEvents([item][..0]) == [];
  }

  lemma {:induction false} FlatTxsAppend(a: seq<BlockTxsEvents>, b: seq<BlockTxsEvents>)
    ensures FlatTxs(a + b) == FlatTxs(a) + FlatTxs(b)
  {
    if b == [] {
      assert a + b == a;
    } else {
      var front, last := b[..|b| - 1], b[|b| - 1];
      FlatTxsAppend(a, front);
      assert (a + b)[..|a + b| - 1] == a + front && (a + b)[|a + b| - 1] == last;
    }
  }

  lemma {:induction false} FlatEventsAppend(a: seq<BlockTxsEvents>, b: seq<BlockTxsEvents>)
    ensures FlatEvents(a + b) == FlatEvents(a) + FlatEvents(b)
  {
    if b == [] {
      assert a + b == a;
    } else {
      var front, last := b[..|b| - 1], b[|b| - 1];
      FlatEventsAppend(a, front);
      assert (a + b)[..|a + b| - 1] == a + front && (a + b)[|a + b| - 1] == last;
    }
  }

  lemma BulkWrites(s: Store, items: seq<BlockTxsEvents>)
    requires BulkSpec(s, items).Some?
    ensures
      var s' := BulkSpec(s, items).value;
      TxsWritten(s.txs, FlatTxs(items), s'.txs) && EventsWritten(s.events, FlatEvents(items), s'.events)
  {
    TxsInserted(s.txs, FlatTxs(items));
    EventsInserted(s.events, FlatEvents(items));
  }

  // ---------------------------------------------------------------- a block's own rows

  /** No two events of the list have both their transaction and their index in common. */
  predicate KeysDiffer(events: seq<Event>) {
    forall i, j :: 0 <= i < j < |events| ==>
      !(events[i].txHash == events[j].txHash && events[i].logIndex == events[j].logIndex)
  }

  lemma {:induction false} KeptApart<K, V>(rows: seq<(K, Row<V>)>)
    requires forall i, j :: 0 <= i < j < |rows| ==> rows[i].0 != rows[j].0
    ensures |Own(rows)| == |rows|
  {
    if rows != [] {
      var n := |rows| - 1;
      KeptApart(rows[..n]);
      KeysStored(map[], rows[..n], rows[n].0);
      assert Own(rows).Keys == Own(rows[..n]).Keys + {rows[n].0};
    }
  }

  /** A block whose n events differ in transaction or index has n rows, each event's own. */
  lemma EveryEventHasARow(events: seq<Event>)
    requires KeysDiffer(events)
    ensures |Own(EventEntries(events))| == |events|
    ensures forall j :: 0 <= j < |events| ==> HasEvent(Own(EventEntries(events)), events[j])
  {
    var rows := EventEntries(events);
    assert forall i :: 0 <= i < |rows| ==> rows[i].0 == EventKey(events[i].txHash, events[i].logIndex);
    KeptApart(rows);
    EventsInserted(map[], events);
    forall j | 0 <= j < |events| ensures HasEvent(Own(rows), events[j]) {
      assert NewEvent(map[], events, j);
    }
  }
}
