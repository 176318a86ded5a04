/** When every stored block is complete: the rows at its height are exactly its own, none missing.  A row whose key
    is held at another height is skipped by the first-wins inserts (internal/repository/db/indexer.go:39-69), and
    that is the only way a row can be missing. */
module Completeness {
  import opened Wrappers
  import opened Tables
  import opened Forwardfill
  import opened ForeignKeys
  import opened Indexer
  import Backfill

  /** The converse of integrity. */
  ghost predicate EveryBlockFull(s: Store, w: World) {
    forall h :: h in s.blocks ==> Backfill.FullyStored(s, w(s.blocks[h].hash))
  }

  // ---------------------------------------------------------------- creates

  lemma RowsAtIff<K, V>(t: Table<K, V>, own: Table<K, V>, h: nat)
    requires OnlyOwnAt(t, own, h) && forall k :: k in own ==> own[k].blockId == h
    ensures RowsAt(t, h) == own <==> Includes(t, own)
  {
    var at := RowsAt(t, h);
    if at == own {
      assert forall k :: k in own ==> k in at;
    }
    if Includes(t, own) {
      assert at == own;
    }
  }

  lemma OwnAtHeight(item: BlockTxsEvents)
    requires WellFormed(item)
    ensures forall k :: k in Own(TxEntries(item.txs)) ==> Own(TxEntries(item.txs))[k].blockId == item.block.id
    ensures forall k :: k in Own(EventEntries(item.events)) ==>
              Own(EventEntries(item.events))[k].blockId == item.block.id
  {
    OwnRows(TxEntries(item.txs));
    OwnRows(EventEntries(item.events));
  }

  /** A stored block is complete when each of its rows is stored as it is. */
  lemma FullIff(s: Store, w: World, item: BlockTxsEvents)
    requires Sound(s, w) && Fetched(w, item) && item.block.id in s.blocks && s.blocks[item.block.id] == item.block
    ensures Backfill.FullyStored(s, item) <==> RowsStored(s, item)
  {
    RowsAtHeadAreOwn(s, w, item);
    OwnAtHeight(item);
    RowsAtIff(s.txs, Own(TxEntries(item.txs)), item.block.id);
    RowsAtIff(s.events, Own(EventEntries(item.events)), item.block.id);
  }

  /** Some stored block misses a row whose key another height holds. */
  ghost predicate Displaced(s: Store, w: World) {
    exists h :: h in s.blocks && !RowsFree(s, w(s.blocks[h].hash))
  }

  lemma DisplacedIsNotFull(s: Store, w: World)
    requires Sound(s, w) && Displaced(s, w)
    ensures !EveryBlockFull(s, w)
  {
    var h :| h in s.blocks && !RowsFree(s, w(s.blocks[h].hash));
    var item := w(s.blocks[h].hash);
    assert item.block == s.blocks[h] && Fetched(w, item);
    FullIff(s, w, item);
    OwnAtHeight(item);
  }

  lemma NotFreeStays(s: Store, s': Store, item: BlockTxsEvents)
    requires Extends(s, s') && !RowsFree(s, item)
    ensures !RowsFree(s', item)
  {
    var h, txs, events := item.block.id, Own(TxEntries(item.txs)), Own(EventEntries(item.events));
    if !FreeElsewhere(s.txs, txs, h) {
      var k :| k in txs && k in s.txs && s.txs[k].blockId != h;
      assert s'.txs[k] == s.txs[k];
    } else {
      var k :| k in events && k in s.events && s.events[k].blockId != h;
      assert s'.events[k] == s.events[k];
    }
  }

  /** Creates do not repair a displaced row, and one that does not find its keys free displaces one. */
  lemma DisplacedStays(s: Store, w: World, item: BlockTxsEvents, s': Store)
    requires Sound(s, w) && Fetched(w, item) && CreateSpec(s, item) == Some(s')
    ensures Displaced(s, w) || !RowsFree(s, item) ==> Displaced(s', w)
  {
    hide RowsFree;
    CreateKeepsSound(s, w, item, s');
    CreateExtends(s, item, s');
    if Displaced(s, w) {
      var h :| h in s.blocks && !RowsFree(s, w(s.blocks[h].hash));
      NotFreeStays(s, s', w(s.blocks[h].hash));
      assert h in s'.blocks && !RowsFree(s', w(s'.blocks[h].hash));
    } else if !RowsFree(s, item) {
      NotFreeStays(s, s', item);
      assert !RowsFree(s', w(s'.blocks[item.block.id].hash));
    }
  }

  lemma IncludesExtends(s: Store, s': Store, item: BlockTxsEvents)
    requires Extends(s, s') && RowsStored(s, item)
    requires item.block.id in s'.blocks && s'.blocks[item.block.id] == item.block
    ensures RowsStored(s', item)
  {
  }

  lemma FreeCreateKeepsFull(s: Store, w: World, item: BlockTxsEvents, s': Store)
    requires Sound(s, w) && Fetched(w, item) && EveryBlockFull(s, w) && CreateSpec(s, item) == Some(s')
    requires RowsFree(s, item)
    ensures EveryBlockFull(s', w)
  {
    hide RowsStored, RowsFree, Backfill.FullyStored;
    CreateKeepsSound(s, w, item, s');
    CreateExtends(s, item, s');
    CreateStoresRowsIff(s, w, item, s');
    forall h | h in s'.blocks ensures Backfill.FullyStored(s', w(s'.blocks[h].hash)) {
      var stored := w(s'.blocks[h].hash);
      assert stored.block == s'.blocks[h] && Fetched(w, stored);
      if h in s.blocks {
        FullIff(s, w, stored);
        IncludesExtends(s, s', stored);
      } else {
        CreateBlocks(s, w, item, s', h);
      }
      FullIff(s', w, stored);
    }
  }

  lemma CreateBlocks(s: Store, w: World, item: BlockTxsEvents, s': Store, h: nat)
    requires Sound(s, w) && Fetched(w, item) && CreateSpec(s, item) == Some(s') && h in s'.blocks && h !in s.blocks
    ensures w(s'.blocks[h].hash) == item
  {
  }

  /** A create keeps every block complete if and only if it finds its keys free. */
  lemma CreateKeepsFullIff(s: Store, w: World, item: BlockTxsEvents, s': Store)
    requires Sound(s, w) && Fetched(w, item) && EveryBlockFull(s, w) && CreateSpec(s, item) == Some(s')
    ensures Sound(s', w) && (EveryBlockFull(s', w) <==> RowsFree(s, item))
  {
    CreateKeepsSound(s, w, item, s');
    if RowsFree(s, item) {
      FreeCreateKeepsFull(s, w, item, s');
    } else {
      DisplacedStays(s, w, item, s');
      DisplacedIsNotFull(s', w);
    }
  }

  lemma {:induction false} BulkDisplaces(s: Store, w: World, items: seq<BlockTxsEvents>, s': Store)
    requires Sound(s, w) && CreateAll(s, items) == Some(s')
    requires forall i :: 0 <= i < |items| ==> Fetched(w, items[i])
    ensures Sound(s', w) && (!FreeInTurn(s, items) ==> Displaced(s', w))
  {
    if items == [] {
    } else {
      var front := items[..|items| - 1];
      var mid := CreateAll(s, front).value;
      BulkDisplaces(s, w, front, mid);
      DisplacedStays(mid, w, items[|items| - 1], s');
      CreateKeepsSound(mid, w, items[|items| - 1], s');
    }
  }

  lemma {:induction false} FreeBulkKeepsFull(s: Store, w: World, items: seq<BlockTxsEvents>, s': Store)
    requires Sound(s, w) && EveryBlockFull(s, w) && CreateAll(s, items) == Some(s') && FreeInTurn(s, items)
    requires forall i :: 0 <= i < |items| ==> Fetched(w, items[i])
    ensures Sound(s', w) && EveryBlockFull(s', w)
  {
    if items == [] {
    } else {
      var front := items[..|items| - 1];
      FreeBulkKeepsFull(s, w, front, CreateAll(s, front).value);
      CreateKeepsFullIff(CreateAll(s, front).value, w, items[|items| - 1], s');
    }
  }

  /** A bulk write keeps every block complete if and only if each of its items finds its keys free in its turn. */
  lemma BulkKeepsFullIff(s: Store, w: World, items: seq<BlockTxsEvents>, s': Store)
    requires Sound(s, w) && EveryBlockFull(s, w) && CreateAll(s, items) == Some(s')
    requires forall i :: 0 <= i < |items| ==> Fetched(w, items[i])
    ensures Sound(s', w) && (EveryBlockFull(s', w) <==> FreeInTurn(s, items))
  {
    BulkDisplaces(s, w, items, s');
    if FreeInTurn(s, items) {
      FreeBulkKeepsFull(s, w, items, s');
    } else {
      DisplacedIsNotFull(s', w);
    }
  }

  lemma DropKeepsRowsAt<K, V>(t: Table<K, V>, h: nat, g: nat)
    requires g != h
    ensures RowsAt(DropHeight(t, h), g) == RowsAt(t, g)
  {
  }

  lemma DeleteKeepsFull(s: Store, w: World, h: nat)
    requires Sound(s, w) && EveryBlockFull(s, w)
    ensures EveryBlockFull(DeleteSpec(s, h), w)
  {
    var s' := DeleteSpec(s, h);
    forall g | g in s'.blocks ensures Backfill.FullyStored(s', w(s'.blocks[g].hash)) {
      DropKeepsRowsAt(s.txs, h, g);
      DropKeepsRowsAt(s.events, h, g);
      assert Backfill.FullyStored(s, w(s.blocks[g].hash));
    }
  }

  // ---------------------------------------------------------------- runs

  lemma WriteIsCreateAll(s: State, reported: bool, c: Context)
    requires Integrity(s, c.w) && Enabled(s, Bf(Backfill.Write(reported)), c)
    ensures CreateAll(s.rows, s.bf.items) == Some(Next(s, Bf(Backfill.Write(reported)), c).rows)
    ensures forall i :: 0 <= i < |s.bf.items| ==> Fetched(c.w, s.bf.items[i])
  {
    BulkRefinesCreate(s.rows, s.bf.items);
  }

  /** A step keeps every block complete if and only if every block it stores finds its keys free. */
  lemma FullStepIff(s: State, a: Action, c: Context)
    requires Integrity(s, c.w) && EveryBlockFull(s.rows, c.w) && Enabled(s, a, c)
    ensures EveryBlockFull(Next(s, a, c).rows, c.w) <==> FreeStep(s, a)
  {
    hide EveryBlockFull, RowsFree, FreeInTurn;
    match a
    case Ff(fa) =>
      if fa.Create? { CreateKeepsFullIff(s.rows, c.w, s.ff.item, CreateSpec(s.rows, s.ff.item).value); }
      if fa.Delete? { DeleteKeepsFull(s.rows, c.w, s.ff.item.block.id); }
    case Bf(ba) =>
      if ba.Write? {
        WriteIsCreateAll(s, ba.reported, c);
        BulkKeepsFullIff(s.rows, c.w, s.bf.items, Next(s, a, c).rows);
      }
    case _ =>
  }

  /** Every block is complete at every point of a run. */
  ghost predicate AlwaysFull(s0: State, trace: seq<Action>, c: Context) {
    && (trace != [] ==> AlwaysFull(s0, trace[..|trace| - 1], c))
    && var s := Run(Anything, s0, trace, c);
       s.Some? && EveryBlockFull(s.value.rows, c.w)
  }

  /** In any run, with failures, dropped commits, crashes, resets and restarts, every stored block is complete at
      every point if and only if every block that is stored finds its keys free when it is. */
  lemma {:induction false} AlwaysFullIff(s0: State, trace: seq<Action>, s: State, c: Context)
    requires Integrity(s0, c.w) && EveryBlockFull(s0.rows, c.w) && Run(Anything, s0, trace, c) == Some(s)
    ensures AlwaysFull(s0, trace, c) <==> Run(Free(Anything), s0, trace, c) == Some(s)
  {
    hide FreeStep, EveryBlockFull, Integrity, Enabled;
    if trace == [] {
    } else {
      var front := trace[..|trace| - 1];
      var before := Run(Anything, s0, front, c).value;
      AlwaysFullIff(s0, front, before, c);
      IntegrityInEveryRun(s0, front, before, c);
      if AlwaysFull(s0, front, c) {
        FullStepIff(before, trace[|trace| - 1], c);
      } else {
        assert Run(Free(Anything), s0, trace, c) != Some(s) by { FreeRunsAgree(s0, front, before, c); }
      }
    }
  }

  lemma FreeRunsAgree(s0: State, trace: seq<Action>, s: State, c: Context)
    requires Run(Anything, s0, trace, c) == Some(s)
    ensures Run(Free(Anything), s0, trace, c).Some? ==> Run(Free(Anything), s0, trace, c) == Some(s)
  {
    var free := Run(Free(Anything), s0, trace, c);
    if free.Some? { RunsAs(Free(Anything), Anything, s0, trace, free.value, c); }
  }

  /** In particular along a run that stores blocks with free keys only. */
  lemma {:induction false} EveryBlockFullInFreeRun(d: Discipline, s0: State, trace: seq<Action>, s: State, c: Context)
    requires Integrity(s0, c.w) && EveryBlockFull(s0.rows, c.w) && Run(Free(d), s0, trace, c) == Some(s)
    ensures Integrity(s, c.w) && EveryBlockFull(s.rows, c.w)
  {
    hide FreeStep, EveryBlockFull, Integrity, Enabled;
    if trace == [] {
    } else {
      var front := trace[..|trace| - 1];
      var before := Run(Free(d), s0, front, c).value;
      EveryBlockFullInFreeRun(d, s0, front, before, c);
      FullStepIff(before, trace[|trace| - 1], c);
      IntegrityStep(before, trace[|trace| - 1], c);
    }
  }

  /** While a block is being published, it is complete if and only if its keys were free when it was created. */
  lemma PublishedBlocksAreFullIff(s0: State, trace: seq<Action>, s: State, c: Context)
    requires Integrity(s0, c.w) && PublishesStored(s0) && Run(Commits, s0, trace, c) == Some(s)
    ensures s.ff.Publishing? ==> (Backfill.FullyStored(s.rows, s.ff.item) <==> s.free)
  {
    RunsAs(Commits, Anything, s0, trace, s, c);
    IntegrityInEveryRun(s0, trace, s, c);
    PublishedRowsIff(s0, trace, s, c);
    if s.ff.Publishing? {
      AbsorbedBlock(s.rows, c.w, s.ff.item);
      FullIff(s.rows, c.w, s.ff.item);
    }
  }

  // ---------------------------------------------------------------- chains on which keys are always free

  /** A chain whose transactions never change height, on any fork, each log being of a transaction of its block. */
  ghost predicate KeysStay(w: World) {
    HashesStay(w) && forall hash :: LogsInTxs(w(hash))
  }

  lemma KeysStayFree(s: Store, w: World, item: BlockTxsEvents)
    requires Sound(s, w) && Fetched(w, item) && KeysStay(w)
    ensures RowsFree(s, item)
  {
    var hash := item.block.hash;
    forall k | k in OwnTxs(w)(hash) && k in s.txs ensures s.txs[k].blockId == item.block.id {
      assert Backed(s.txs, k, s.blocks, OwnTxs(w));
      assert k in OwnTxs(w)(s.blocks[s.txs[k].blockId].hash);
    }
    forall k | k in OwnEvents(w)(hash) && k in s.events ensures s.events[k].blockId == item.block.id {
      assert Backed(s.events, k, s.blocks, OwnEvents(w));
      var other := s.blocks[s.events[k].blockId].hash;
      assert LogsInTxs(w(hash)) && LogsInTxs(w(other));
      assert k.txHash in OwnTxs(w)(hash) && k.txHash in OwnTxs(w)(other);
    }
  }

  lemma {:induction false} KeysStayFreeInTurn(s: Store, w: World, items: seq<BlockTxsEvents>)
    requires Sound(s, w) && KeysStay(w) && forall i :: 0 <= i < |items| ==> Fetched(w, items[i])
    ensures FreeInTurn(s, items)
  {
    if items == [] {
    } else {
      var front := items[..|items| - 1];
      KeysStayFreeInTurn(s, w, front);
      var before := CreateAll(s, front);
      if before.Some? {
        CreateAllKeepsSound(s, w, front, before.value);
        KeysStayFree(before.value, w, items[|items| - 1]);
      }
    }
  }

  lemma KeysStayFreeStep(s: State, a: Action, c: Context)
    requires Integrity(s, c.w) && KeysStay(c.w) && Enabled(s, a, c)
    ensures FreeStep(s, a)
  {
    hide RowsFree, FreeInTurn, KeysStay;
    if a.Ff? && a.fa.Create? { KeysStayFree(s.rows, c.w, s.ff.item); }
    if a.Bf? && a.ba.Write? { KeysStayFreeInTurn(s.rows, c.w, s.bf.items); }
  }

  /** On such a chain every run stores blocks with free keys only. */
  lemma {:induction false} KeysStayRunsFree(d: Discipline, s0: State, trace: seq<Action>, s: State, c: Context)
    requires Integrity(s0, c.w) && KeysStay(c.w) && Run(d, s0, trace, c) == Some(s)
    ensures Run(Free(d), s0, trace, c) == Some(s) && Integrity(s, c.w)
  {
    hide FreeStep, KeysStay, Integrity, Enabled;
    if trace == [] {
    } else {
      var front, a := trace[..|trace| - 1], trace[|trace| - 1];
      var before := Run(d, s0, front, c).value;
      KeysStayRunsFree(d, s0, front, before, c);
      KeysStayFreeStep(before, a, c);
      IntegrityStep(before, a, c);
    }
  }

  /** Whatever the schedule of a backfill over a fixed chain, what it has stored is complete if and only if the
      blocks of [from, hi), one after another, find their keys free. */
  lemma ScheduleIsFullIff(s0: Store, w: World, chain: Backfill.Chain, p: Backfill.BfParams,
                          trace: seq<Backfill.EnvAction>, e: Backfill.Env)
    returns (hi: nat)
    requires Backfill.Bounded(p.batch, p.target)
    requires Backfill.EnvRun(Backfill.Env(Backfill.BfView(s0, 0, false, Backfill.Init), p), trace,
                             Backfill.Serve(chain)) == Some(e)
    requires Sound(s0, w) && EveryBlockFull(s0, w) && forall n :: Fetched(w, chain(n))
    ensures p.from <= hi && (e.view.cursor > 0 ==> e.view.cursor < hi)
    ensures EveryBlockFull(e.view.rows, w) <==> FreeInTurn(s0, Backfill.Segment(chain, p.from, hi))
  {
    hi := Backfill.ScheduleConverges(s0, chain, p, trace);
    BulkKeepsFullIff(s0, w, Backfill.Segment(chain, p.from, hi), e.view.rows);
  }
}
