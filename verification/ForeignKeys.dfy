/** The foreign key from events to transactions that migration 2 drops
    (internal/repository/db/migrations/00002_remove_fk.sql): does every stored event still have its
    transaction?  A transaction re-included at another height keeps its first row there, so replacing
    that height can take the row away from under the other block's events. */
module ForeignKeys {
  import opened Wrappers
  import opened Tables
  import opened Forwardfill

  ghost predicate EventsHaveTxs(s: Store) {
    forall k :: k in s.events ==> k.txHash in s.txs
  }

  /** Every log of a fetched block was emitted by one of its transactions. */
  ghost predicate LogsInTxs(item: BlockTxsEvents) {
    forall k :: k in Own(EventEntries(item.events)) ==> k.txHash in Own(TxEntries(item.txs))
  }

  lemma CreateKeepsEventsHaveTxs(s: Store, item: BlockTxsEvents, s': Store)
    requires EventsHaveTxs(s) && LogsInTxs(item) && CreateSpec(s, item) == Some(s')
    ensures EventsHaveTxs(s')
  {
    InsertAllIsMerge(s.txs, TxEntries(item.txs));
    InsertAllIsMerge(s.events, EventEntries(item.events));
  }

  lemma {:induction false} BulkKeepsEventsHaveTxs(s: Store, items: seq<BlockTxsEvents>, s': Store)
    requires EventsHaveTxs(s) && CreateAll(s, items) == Some(s')
    requires forall i :: 0 <= i < |items| ==> LogsInTxs(items[i])
    ensures EventsHaveTxs(s')
  {
    if items == [] {
    } else {
      var front := items[..|items| - 1];
      BulkKeepsEventsHaveTxs(s, front, CreateAll(s, front).value);
      CreateKeepsEventsHaveTxs(CreateAll(s, front).value, items[|items| - 1], s');
    }
  }

  /** A delete orphans events exactly when an event of another height has its transaction row there. */
  lemma DeleteOrphansIff(s: Store, h: nat)
    requires EventsHaveTxs(s)
    ensures EventsHaveTxs(DeleteSpec(s, h)) <==>
            forall k :: k in s.events && s.events[k].blockId != h ==> s.txs[k.txHash].blockId != h
  {
  }

  /** An event the replaced height would orphan: kept at another height, its transaction row at h. */
  ghost predicate LeansOn(s: Store, k: EventKey, h: nat)
    requires EventsHaveTxs(s)
  {
    k in s.events && s.events[k].blockId != h && s.txs[k.txHash].blockId == h
  }

  /** One successful head keeps every event's transaction if and only if it is no reorg, or the new
      block includes again every transaction that events of other heights lean on. */
  lemma HeadKeepsEventsHaveTxsIff(s: Store, item: BlockTxsEvents, s': Store, sent: seq<Message>)
    requires EventsHaveTxs(s) && LogsInTxs(item) && Iterate(s, item, true) == Some((s', sent))
    ensures EventsHaveTxs(s') <==>
            (IsReorg(s, item) ==>
              forall k :: LeansOn(s, k, item.block.id) ==> k.txHash in Own(TxEntries(item.txs)))
  {
    var h, mid := item.block.id, AfterDelete(s, item);
    InsertAllIsMerge(mid.txs, TxEntries(item.txs));
    InsertAllIsMerge(mid.events, EventEntries(item.events));
    if EventsHaveTxs(s') && IsReorg(s, item) {
      forall k | LeansOn(s, k, h) ensures k.txHash in Own(TxEntries(item.txs)) {
        assert k in s'.events;
      }
    }
  }

  /** A chain whose transactions never change height. */
  ghost predicate HashesStay(w: World) {
    forall a, b, hash :: hash in OwnTxs(w)(a) && hash in OwnTxs(w)(b) && WellFormed(w(a)) && WellFormed(w(b)) ==>
      w(a).block.id == w(b).block.id
  }

  /** On such a chain an event and its transaction are always stored at one height, so no delete orphans. */
  lemma DeleteKeepsEventsHaveTxs(s: Store, w: World, h: nat)
    requires Sound(s, w) && EventsHaveTxs(s) && HashesStay(w)
    requires forall hash :: LogsInTxs(w(hash))
    ensures EventsHaveTxs(DeleteSpec(s, h))
  {
    forall k | k in s.events && s.events[k].blockId != h ensures s.txs[k.txHash].blockId != h {
      assert Backed(s.events, k, s.blocks, OwnEvents(w));
      assert Backed(s.txs, k.txHash, s.blocks, OwnTxs(w));
      var a, b := s.blocks[s.events[k].blockId].hash, s.blocks[s.txs[k.txHash].blockId].hash;
      assert LogsInTxs(w(a));
      assert k.txHash in OwnTxs(w)(a) && k.txHash in OwnTxs(w)(b);
    }
    DeleteOrphansIff(s, h);
  }

  // ---------------------------------------------------------------- a chain that orphans an event

  // C and B replace A, and their heads arrive in the wrong order: B, on top of C, first.
  const OLD_HEAD := BlockTxsEvents(
    Block("A", 1, "0", 0, 0, "m", 0), [Transaction(1, "t", "x", None, 0, 1)], [])
  const MOVED := BlockTxsEvents(
    Block("B", 2, "C", 0, 0, "m", 0), [Transaction(2, "t", "x", None, 0, 1)], [Event(2, "t", 0, "c", "0x", [])])
  const NEW_HEAD := BlockTxsEvents(Block("C", 1, "0", 0, 0, "m", 0), [], [])

  const EMPTY := Store(map[], map[], map[])
  const AFTER_OLD := Store(map[1 := OLD_HEAD.block], map["t" := TxEntry(OLD_HEAD.txs[0]).1], map[])
  const AFTER_MOVED := Store(map[1 := OLD_HEAD.block, 2 := MOVED.block], map["t" := TxEntry(OLD_HEAD.txs[0]).1],
                             map[EventKey("t", 0) := EventEntry(MOVED.events[0]).1])

  lemma OldHead()
    ensures Iterate(EMPTY, OLD_HEAD, true) == Some((AFTER_OLD, PublishOf(OLD_HEAD)))
    ensures WellFormed(OLD_HEAD) && LogsInTxs(OLD_HEAD)
  {
    OwnSingle(TxEntry(OLD_HEAD.txs[0]));
    assert TxEntries(OLD_HEAD.txs) == [TxEntry(OLD_HEAD.txs[0])] && EventEntries(OLD_HEAD.events) == [];
    InsertAllIsMerge(EMPTY.txs, TxEntries(OLD_HEAD.txs));
    assert [] + PublishOf(OLD_HEAD) == PublishOf(OLD_HEAD);
  }

  lemma MovedHead()
    ensures Iterate(AFTER_OLD, MOVED, true) == Some((AFTER_MOVED, PublishOf(MOVED)))
    ensures WellFormed(MOVED) && LogsInTxs(MOVED) && Own(TxEntries(MOVED.txs)) == map["t" := TxEntry(MOVED.txs[0]).1]
  {
    OwnSingle(TxEntry(MOVED.txs[0]));
    OwnSingle(EventEntry(MOVED.events[0]));
    assert TxEntries(MOVED.txs) == [TxEntry(MOVED.txs[0])];
    assert EventEntries(MOVED.events) == [EventEntry(MOVED.events[0])];
    InsertAllIsMerge(AFTER_OLD.txs, TxEntries(MOVED.txs));
    InsertAllIsMerge(AFTER_OLD.events, EventEntries(MOVED.events));
    assert [] + PublishOf(MOVED) == PublishOf(MOVED);
  }

  /** Two heads, the second with a transaction of the first: it is published as a row of height 2, while the
      row stored under its hash is that of height 1. */
  lemma MovedTransactionIsPublishedUnstored()
    ensures
      var out := Iterate(AFTER_OLD, MOVED, true);
      && out == Some((AFTER_MOVED, PublishOf(MOVED)))
      && PublishOf(MOVED)[1] == TxMsg(MOVED.txs[0])
      && AFTER_MOVED.txs[MOVED.txs[0].hash] != TxEntry(MOVED.txs[0]).1
      && !RowsStored(AFTER_MOVED, MOVED)
  {
    MovedHead();
    assert "t" in Own(TxEntries(MOVED.txs));
  }

  /** The same three blocks with the heads in order: C replaces A before B arrives, and every block finds its keys
      free; B right after A does not. */
  lemma InOrderKeysAreFree()
    ensures IsReorg(AFTER_OLD, NEW_HEAD) && CreateSpec(DeleteSpec(AFTER_OLD, 1), NEW_HEAD).Some?
    ensures RowsFree(EMPTY, OLD_HEAD) && RowsFree(DeleteSpec(AFTER_OLD, 1), NEW_HEAD)
    ensures RowsFree(CreateSpec(DeleteSpec(AFTER_OLD, 1), NEW_HEAD).value, MOVED) && !RowsFree(AFTER_OLD, MOVED)
  {
    MovedHead();
    assert "t" in Own(TxEntries(MOVED.txs)) && "t" in AFTER_OLD.txs;
    assert TxEntries(NEW_HEAD.txs) == [] && EventEntries(NEW_HEAD.events) == [];
  }

  /** Three heads, the last a reorg of the first: the event of height 2 is left without its transaction. */
  lemma ReorgCanOrphanAnEvent()
    ensures WellFormed(OLD_HEAD) && WellFormed(MOVED) && WellFormed(NEW_HEAD)
    ensures LogsInTxs(OLD_HEAD) && LogsInTxs(MOVED) && LogsInTxs(NEW_HEAD)
    ensures
      var out := HeadRun(EMPTY, [OLD_HEAD, MOVED, NEW_HEAD]);
      out.Some? && !EventsHaveTxs(out.value.0)
  {
    OldHead();
    MovedHead();
    var last := Iterate(AFTER_MOVED, NEW_HEAD, true).value.0;
    assert EventKey("t", 0) in last.events && "t" !in last.txs;
    HeadRunOfThree(EMPTY, OLD_HEAD, MOVED, NEW_HEAD);
  }

  lemma OwnSingle<K, V>(row: (K, Row<V>))
    ensures Own([row]) == map[row.0 := row.1]
  {
    assert [row][..0] == [];
    assert InsertAll(map[], [row][..0]) == map[];
  }

  lemma HeadRunOfThree(s: Store, a: BlockTxsEvents, b: BlockTxsEvents, c: BlockTxsEvents)
    requires Iterate(s, a, true).Some?
    requires Iterate(Iterate(s, a, true).value.0, b, true).Some?
    requires Iterate(Iterate(Iterate(s, a, true).value.0, b, true).value.0, c, true).Some?
    ensures HeadRun(s, [a, b, c]).Some?
    ensures HeadRun(s, [a, b, c]).value.0 ==
            Iterate(Iterate(Iterate(s, a, true).value.0, b, true).value.0, c, true).value.0
  {
    assert [a, b, c][..2] == [a, b] && [a, b][..1] == [a] && [a][..0] == [];
    assert HeadRun(s, [a][..0]) == Some((s, []));
    assert HeadRun(s, [a]).value.0 == Iterate(s, a, true).value.0;
    assert HeadRun(s, [a, b][..1]) == HeadRun(s, [a]);
    assert HeadRun(s, [a, b]).value.0 == Iterate(Iterate(s, a, true).value.0, b, true).value.0;
    assert HeadRun(s, [a, b, c][..2]) == HeadRun(s, [a, b]);
  }
}
