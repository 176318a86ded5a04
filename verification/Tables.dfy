/** The rows the indexer stores and the key semantics of the three chain tables
    (internal/repository/db/migrations/00001_setup.sql, 00002_remove_fk.sql).

    A table is a map from its primary key to its row.  `blocks` also has a second unique
    key, the hash, and its insert resolves conflicts on the hash only, so a height held by
    a different hash is a hard failure.  `transactions` and `events` are first-wins.  No
    foreign key ties the tables together: whether rows of different tables agree is a
    property of the code that writes them, stated here as `Sound`. */
module Tables {
  import opened Wrappers

  datatype Block = Block(
    hash: string, id: nat, parentHash: string, gasLimit: nat, gasUsed: nat, miner: string, timestamp: nat)

  datatype Transaction = Transaction(
    blockId: nat, hash: string, from: string, to: Option<string>, gasUsed: nat, status: nat)

  datatype Event = Event(
    blockId: nat, txHash: string, logIndex: nat, emitter: string, datas: string, topics: seq<string>)

  /** What one fetch returns: a block with its transactions and events. */
  datatype BlockTxsEvents = BlockTxsEvents(block: Block, txs: seq<Transaction>, events: seq<Event>)

  /** A row of `transactions` or `events`: the block_id column and the remaining columns. */
  datatype Row<+V> = Row(blockId: nat, cols: V)

  datatype TxCols = TxCols(from: string, to: Option<string>, gasUsed: nat)
  datatype EventKey = EventKey(txHash: string, logIndex: nat)
  datatype EventCols = EventCols(emitter: string, datas: string, topics: seq<string>)

  type Table<K, +V> = map<K, Row<V>>

  datatype Store = Store(blocks: map<nat, Block>, txs: Table<string, TxCols>, events: Table<EventKey, EventCols>)

  /** The table has no status column, so a stored transaction forgets it. */
  function TxEntry(t: Transaction): (string, Row<TxCols>) {
    (t.hash, Row(t.blockId, TxCols(t.from, t.to, t.gasUsed)))
  }

  function EventEntry(e: Event): (EventKey, Row<EventCols>) {
    (EventKey(e.txHash, e.logIndex), Row(e.blockId, EventCols(e.emitter, e.datas, e.topics)))
  }

  function TxEntries(txs: seq<Transaction>): seq<(string, Row<TxCols>)> {
    seq(|txs|, i requires 0 <= i < |txs| => TxEntry(txs[i]))
  }

  function EventEntries(events: seq<Event>): seq<(EventKey, Row<EventCols>)> {
    seq(|events|, i requires 0 <= i < |events| => EventEntry(events[i]))
  }

  // ---------------------------------------------------------------- first-wins inserts

  /** INSERT ... ON CONFLICT (key) DO NOTHING, row after row. */
  function InsertAll<K, V>(t: Table<K, V>, rows: seq<(K, Row<V>)>): Table<K, V> {
    if rows == [] then t
    else
      var before := InsertAll(t, rows[..|rows| - 1]);
      var (k, r) := rows[|rows| - 1];
      if k in before then before else before[k := r]
  }

  /** The rows a list contributes when nothing else competes for its keys. */
  function Own<K, V>(rows: seq<(K, Row<V>)>): Table<K, V> {
    InsertAll(map[], rows)
  }

  /** A first-wins insert is a merge in which the rows already there win. */
  lemma {:induction false} InsertAllIsMerge<K, V>(t: Table<K, V>, rows: seq<(K, Row<V>)>)
    ensures InsertAll(t, rows) == Own(rows) + t
  {
    if rows == [] {
    } else {
      InsertAllIsMerge(t, rows[..|rows| - 1]);
    }
  }

  lemma {:induction false} InsertAllAppend<K, V>(t: Table<K, V>, a: seq<(K, Row<V>)>, b: seq<(K, Row<V>)>)
    ensures InsertAll(t, a + b) == InsertAll(InsertAll(t, a), b)
  {
    if b == [] {
      assert a + b == a;
    } else {
      InsertAllAppend(t, a, b[..|b| - 1]);
      assert (a + b)[..|a + b| - 1] == a + b[..|b| - 1];
    }
  }

  /** Every row a list contributes is one of its entries, and every key of it gets a row. */
  lemma {:induction false} OwnRows<K, V>(rows: seq<(K, Row<V>)>)
    ensures forall k :: k in Own(rows) ==> (k, Own(rows)[k]) in rows
    ensures forall i :: 0 <= i < |rows| ==> rows[i].0 in Own(rows)
  {
    if rows == [] {
    } else {
      var front := rows[..|rows| - 1];
      OwnRows(front);
      forall k | k in Own(rows) ensures (k, Own(rows)[k]) in rows {
        if k in Own(front) {
          var i :| 0 <= i < |front| && front[i] == (k, Own(front)[k]);
          assert rows[i] == (k, Own(rows)[k]);
        } else {
          assert rows[|rows| - 1] == (k, Own(rows)[k]);
        }
      }
      forall i | 0 <= i < |rows| ensures rows[i].0 in Own(rows) {
        if i < |rows| - 1 { assert front[i] == rows[i]; }
      }
    }
  }

  /** DELETE ... WHERE block_id = h. */
  function DropHeight<K, V>(t: Table<K, V>, h: nat): Table<K, V> {
    map k | k in t && t[k].blockId != h :: t[k]
  }

  function RowsAt<K, V>(t: Table<K, V>, h: nat): Table<K, V> {
    map k | k in t && t[k].blockId == h :: t[k]
  }

  // ---------------------------------------------------------------- the blocks table

  predicate HasHash(bs: map<nat, Block>, hash: string) {
    exists h :: h in bs && bs[h].hash == hash
  }

  /** INSERT INTO blocks ... ON CONFLICT (block_hash) DO NOTHING; None is a unique violation on block_id. */
  function InsertBlock(bs: map<nat, Block>, b: Block): Option<map<nat, Block>> {
    if HasHash(bs, b.hash) then Some(bs)
    else if b.id in bs then None
    else Some(bs[b.id := b])
  }

  function InsertBlocks(bs: map<nat, Block>, rows: seq<Block>): Option<map<nat, Block>> {
    if rows == [] then Some(bs)
    else
      match InsertBlocks(bs, rows[..|rows| - 1])
      case None => None
      case Some(before) => InsertBlock(before, rows[|rows| - 1])
  }

  /** SELECT COALESCE(MAX(block_id), 0) FROM blocks. */
  ghost predicate IsMax(bs: map<nat, Block>, max: nat) {
    && (forall h :: h in bs ==> h <= max)
    && (if bs == map[] then max == 0 else max in bs)
  }

  // ---------------------------------------------------------------- transactions on the store

  /** The effect of a committed Create; None when the block insert violates a constraint. */
  function CreateSpec(s: Store, item: BlockTxsEvents): Option<Store> {
    match InsertBlock(s.blocks, item.block)
    case None => None
    case Some(bs) =>
      Some(Store(bs, InsertAll(s.txs, TxEntries(item.txs)), InsertAll(s.events, EventEntries(item.events))))
  }

  /** Creating the items one after another, stopping at the first failure. */
  function CreateAll(s: Store, items: seq<BlockTxsEvents>): Option<Store> {
    if items == [] then Some(s)
    else
      match CreateAll(s, items[..|items| - 1])
      case None => None
      case Some(before) => CreateSpec(before, items[|items| - 1])
  }

  function Blocks(items: seq<BlockTxsEvents>): seq<Block> {
    seq(|items|, i requires 0 <= i < |items| => items[i].block)
  }

  function FlatTxs(items: seq<BlockTxsEvents>): seq<Transaction> {
    if items == [] then [] else FlatTxs(items[..|items| - 1]) + items[|items| - 1].txs
  }

  function FlatEvents(items: seq<BlockTxsEvents>): seq<Event> {
    if items == [] then [] else FlatEvents(items[..|items| - 1]) + items[|items| - 1].events
  }

  /** The effect of a committed BulkCreate: all blocks, then all transactions, then all events. */
  function BulkSpec(s: Store, items: seq<BlockTxsEvents>): Option<Store> {
    match InsertBlocks(s.blocks, Blocks(items))
    case None => None
    case Some(bs) =>
      Some(Store(bs, InsertAll(s.txs, TxEntries(FlatTxs(items))), InsertAll(s.events, EventEntries(FlatEvents(items)))))
  }

  function DeleteSpec(s: Store, h: nat): Store {
    Store(s.blocks - {h}, DropHeight(s.txs, h), DropHeight(s.events, h))
  }

  /** The column-wise bulk insert is the item-by-item one: same store, same failures. */
  lemma {:induction false} BulkRefinesCreate(s: Store, items: seq<BlockTxsEvents>)
    ensures BulkSpec(s, items) == CreateAll(s, items)
  {
    if items == [] {
    } else {
      var front, last := items[..|items| - 1], items[|items| - 1];
      BulkRefinesCreate(s, front);
      assert Blocks(items)[..|items| - 1] == Blocks(front);
      assert TxEntries(FlatTxs(items)) == TxEntries(FlatTxs(front)) + TxEntries(last.txs);
      assert EventEntries(FlatEvents(items)) == EventEntries(FlatEvents(front)) + EventEntries(last.events);
      InsertAllAppend(s.txs, TxEntries(FlatTxs(front)), TxEntries(last.txs));
      InsertAllAppend(s.events, EventEntries(FlatEvents(front)), EventEntries(last.events));
    }
  }

  // ---------------------------------------------------------------- replays

  /** Every row of the item has its key in the store. */
  ghost predicate Absorbed(s: Store, item: BlockTxsEvents) {
    && HasHash(s.blocks, item.block.hash)
    && Own(TxEntries(item.txs)).Keys <= s.txs.Keys
    && Own(EventEntries(item.events)).Keys <= s.events.Keys
  }

  /** An item is absorbed exactly when creating it again changes nothing. */
  lemma AbsorbedIffNoOp(s: Store, item: BlockTxsEvents)
    ensures Absorbed(s, item) <==> CreateSpec(s, item) == Some(s)
  {
    InsertAllIsMerge(s.txs, TxEntries(item.txs));
    InsertAllIsMerge(s.events, EventEntries(item.events));
    var t, e := Own(TxEntries(item.txs)), Own(EventEntries(item.events));
    if Absorbed(s, item) {
      assert t + s.txs == s.txs && e + s.events == s.events;
    }
    if CreateSpec(s, item) == Some(s) {
      assert forall k :: k in t ==> k in t + s.txs;
      assert forall k :: k in e ==> k in e + s.events;
    }
  }

  lemma CreateAbsorbs(s: Store, item: BlockTxsEvents, s': Store, other: BlockTxsEvents)
    requires CreateSpec(s, item) == Some(s')
    ensures Absorbed(s', item)
    ensures Absorbed(s, other) ==> Absorbed(s', other)
  {
    InsertAllIsMerge(s.txs, TxEntries(item.txs));
    InsertAllIsMerge(s.events, EventEntries(item.events));
    InsertBlockKeeps(s.blocks, item.block, other.block.hash);
  }

  lemma InsertBlockKeeps(bs: map<nat, Block>, b: Block, hash: string)
    requires InsertBlock(bs, b).Some?
    ensures HasHash(InsertBlock(bs, b).value, b.hash)
    ensures HasHash(bs, hash) ==> HasHash(InsertBlock(bs, b).value, hash)
  {
    var bs' := InsertBlock(bs, b).value;
    if !HasHash(bs, b.hash) { assert bs'[b.id].hash == b.hash; }
    if HasHash(bs, hash) {
      var h :| h in bs && bs[h].hash == hash;
      assert h in bs' && bs'[h] == bs[h];
    }
  }

  lemma {:induction false} CreateAllAppend(s: Store, a: seq<BlockTxsEvents>, b: seq<BlockTxsEvents>)
    requires CreateAll(s, a).Some?
    ensures CreateAll(s, a + b) == CreateAll(CreateAll(s, a).value, b)
  {
    if b == [] {
      assert a + b == a;
    } else {
      CreateAllAppend(s, a, b[..|b| - 1]);
      assert (a + b)[..|a + b| - 1] == a + b[..|b| - 1];
    }
  }

  lemma {:induction false} CreateAllAbsorbs(s: Store, items: seq<BlockTxsEvents>, s': Store)
    requires CreateAll(s, items) == Some(s')
    ensures forall i :: 0 <= i < |items| ==> Absorbed(s', items[i])
  {
    if items == [] {
    } else {
      var front := items[..|items| - 1];
      var mid := CreateAll(s, front).value;
      CreateAllAbsorbs(s, front, mid);
      forall i | 0 <= i < |items| ensures Absorbed(s', items[i]) {
        CreateAbsorbs(mid, items[|items| - 1], s', items[i]);
        if i < |items| - 1 { assert front[i] == items[i]; }
      }
    }
  }

  lemma {:induction false} CreateAllKeepsAbsorbed(s: Store, items: seq<BlockTxsEvents>, s': Store,
                                                  other: BlockTxsEvents)
    requires CreateAll(s, items) == Some(s') && Absorbed(s, other)
    ensures Absorbed(s', other)
  {
    if items == [] {
    } else {
      var front := items[..|items| - 1];
      CreateAllKeepsAbsorbed(s, front, CreateAll(s, front).value, other);
      CreateAbsorbs(CreateAll(s, front).value, items[|items| - 1], s', other);
    }
  }

  /** A bulk write fills no other heights than those of its items. */
  lemma {:induction false} CreateAllHeights(s: Store, items: seq<BlockTxsEvents>, s': Store, h: nat)
    requires CreateAll(s, items) == Some(s') && h in s'.blocks && h !in s.blocks
    ensures exists i :: 0 <= i < |items| && items[i].block.id == h
  {
    if items == [] {
    } else {
      var front := items[..|items| - 1];
      var mid := CreateAll(s, front).value;
      if h in mid.blocks {
        CreateAllHeights(s, front, mid, h);
        var i :| 0 <= i < |front| && front[i].block.id == h;
        assert items[i].block.id == h;
      } else {
        assert items[|items| - 1].block.id == h;
      }
    }
  }

  /** No row that is stored is changed by a write. */
  ghost predicate Extends(s: Store, s': Store) {
    && (forall k :: k in s.txs ==> k in s'.txs && s'.txs[k] == s.txs[k])
    && (forall k :: k in s.events ==> k in s'.events && s'.events[k] == s.events[k])
  }

  lemma CreateExtends(s: Store, item: BlockTxsEvents, s': Store)
    requires CreateSpec(s, item) == Some(s')
    ensures Extends(s, s')
  {
    InsertAllIsMerge(s.txs, TxEntries(item.txs));
    InsertAllIsMerge(s.events, EventEntries(item.events));
  }

  lemma {:induction false} CreateAllExtends(s: Store, items: seq<BlockTxsEvents>, s': Store)
    requires CreateAll(s, items) == Some(s')
    ensures Extends(s, s')
  {
    if items == [] {
    } else {
      var front := items[..|items| - 1];
      CreateAllExtends(s, front, CreateAll(s, front).value);
      CreateExtends(CreateAll(s, front).value, items[|items| - 1], s');
    }
  }

  lemma {:induction false} AbsorbedAllNoOp(s: Store, items: seq<BlockTxsEvents>)
    requires forall i :: 0 <= i < |items| ==> Absorbed(s, items[i])
    ensures CreateAll(s, items) == Some(s)
  {
    if items == [] {
    } else {
      AbsorbedAllNoOp(s, items[..|items| - 1]);
      AbsorbedIffNoOp(s, items[|items| - 1]);
    }
  }

  // ---------------------------------------------------------------- integrity

  /** What every block hash stands for: equal hashes mean equal content. */
  type World = string -> BlockTxsEvents

  /** Every transaction and event carries its block's number. */
  predicate WellFormed(item: BlockTxsEvents) {
    && (forall i :: 0 <= i < |item.txs| ==> item.txs[i].blockId == item.block.id)
    && (forall i :: 0 <= i < |item.events| ==> item.events[i].blockId == item.block.id)
  }

  ghost predicate Fetched(w: World, item: BlockTxsEvents) {
    WellFormed(item) && w(item.block.hash) == item
  }

  /** Row k of table t belongs to the block now stored at its height. */
  ghost predicate Backed<K, V>(t: Table<K, V>, k: K, bs: map<nat, Block>, own: string -> Table<K, V>)
    requires k in t
  {
    && t[k].blockId in bs
    && var rows := own(bs[t[k].blockId].hash);
       k in rows && rows[k] == t[k]
  }

  function OwnTxs(w: World): string -> Table<string, TxCols> {
    hash => Own(TxEntries(w(hash).txs))
  }

  function OwnEvents(w: World): string -> Table<EventKey, EventCols> {
    hash => Own(EventEntries(w(hash).events))
  }

  ghost predicate SoundBlocks(bs: map<nat, Block>, w: World) {
    forall h :: h in bs ==> bs[h].id == h && Fetched(w, w(bs[h].hash)) && w(bs[h].hash).block == bs[h]
  }

  ghost predicate SoundTable<K, V>(t: Table<K, V>, bs: map<nat, Block>, own: string -> Table<K, V>) {
    forall k :: k in t ==> Backed(t, k, bs, own)
  }

  /** Referential integrity without foreign keys: every stored block is what its hash stands for,
      and every transaction and event row is one of the rows of the block now stored at its height. */
  ghost predicate Sound(s: Store, w: World) {
    && SoundBlocks(s.blocks, w)
    && SoundTable(s.txs, s.blocks, OwnTxs(w))
    && SoundTable(s.events, s.blocks, OwnEvents(w))
  }

  /** In a sound store no hash sits at two heights. */
  lemma HashAtOneHeight(s: Store, w: World, h: nat, h': nat)
    requires Sound(s, w)
    requires h in s.blocks && h' in s.blocks && s.blocks[h].hash == s.blocks[h'].hash
    ensures h == h'
  {
  }

  lemma InsertBlockSound(bs: map<nat, Block>, w: World, item: BlockTxsEvents)
    requires SoundBlocks(bs, w) && Fetched(w, item) && InsertBlock(bs, item.block).Some?
    ensures
      var bs' := InsertBlock(bs, item.block).value;
      && SoundBlocks(bs', w)
      && item.block.id in bs' && bs'[item.block.id] == item.block
      && (forall h :: h in bs ==> h in bs' && bs'[h] == bs[h])
  {
  }

  /** The generic table step of Create: new rows are the created block's own rows. */
  lemma InsertAllSound<K, V>(t: Table<K, V>, rows: seq<(K, Row<V>)>, bs: map<nat, Block>, bs': map<nat, Block>,
                             own: string -> Table<K, V>, b: Block)
    requires SoundTable(t, bs, own)
    requires forall h :: h in bs ==> h in bs' && bs'[h] == bs[h]
    requires b.id in bs' && bs'[b.id] == b
    requires own(b.hash) == Own(rows)
    requires forall i :: 0 <= i < |rows| ==> rows[i].1.blockId == b.id
    ensures SoundTable(InsertAll(t, rows), bs', own)
  {
    InsertAllIsMerge(t, rows);
    OwnRows(rows);
    var t' := InsertAll(t, rows);
    forall k | k in t' ensures Backed(t', k, bs', own) {
      if k in t {
        assert Backed(t, k, bs, own);
      }
    }
  }

  lemma CreateKeepsSound(s: Store, w: World, item: BlockTxsEvents, s': Store)
    requires Sound(s, w) && Fetched(w, item) && CreateSpec(s, item) == Some(s')
    ensures Sound(s', w)
    ensures item.block.id in s'.blocks && s'.blocks[item.block.id] == item.block
    ensures forall h :: h in s.blocks ==> h in s'.blocks && s'.blocks[h] == s.blocks[h]
  {
    InsertBlockSound(s.blocks, w, item);
    InsertAllSound(s.txs, TxEntries(item.txs), s.blocks, s'.blocks, OwnTxs(w), item.block);
    InsertAllSound(s.events, EventEntries(item.events), s.blocks, s'.blocks, OwnEvents(w), item.block);
  }

  lemma {:induction false} CreateAllKeepsSound(s: Store, w: World, items: seq<BlockTxsEvents>, s': Store)
    requires Sound(s, w) && CreateAll(s, items) == Some(s')
    requires forall i :: 0 <= i < |items| ==> Fetched(w, items[i])
    ensures Sound(s', w)
    ensures forall h :: h in s.blocks ==> h in s'.blocks && s'.blocks[h] == s.blocks[h]
    ensures forall i :: 0 <= i < |items| ==>
              items[i].block.id in s'.blocks && s'.blocks[items[i].block.id] == items[i].block
  {
    if items == [] {
    } else {
      var front := items[..|items| - 1];
      var mid := CreateAll(s, front).value;
      CreateAllKeepsSound(s, w, front, mid);
      CreateKeepsSound(mid, w, items[|items| - 1], s');
      forall i | 0 <= i < |items|
        ensures items[i].block.id in s'.blocks && s'.blocks[items[i].block.id] == items[i].block
      {
        if i < |items| - 1 { assert front[i] == items[i]; }
      }
    }
  }

  /** The generic table step of Delete: a height loses its rows together with its block. */
  lemma DropHeightSound<K, V>(t: Table<K, V>, bs: map<nat, Block>, own: string -> Table<K, V>, h: nat)
    requires SoundTable(t, bs, own)
    ensures SoundTable(DropHeight(t, h), bs - {h}, own)
  {
  }

  lemma DeleteKeepsSound(s: Store, w: World, h: nat)
    requires Sound(s, w)
    ensures Sound(DeleteSpec(s, h), w)
  {
    DropHeightSound(s.txs, s.blocks, OwnTxs(w), h);
    DropHeightSound(s.events, s.blocks, OwnEvents(w), h);
  }
}
