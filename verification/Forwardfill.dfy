/** Head handling (internal/core/services/forwardfill.go): read the stored block at the head's
    height, delete it when its hash differs, create the fetched block, publish what was done. */
module Forwardfill {
  import opened Wrappers
  import opened Tables

  /** One call of Publish, by channel. */
  datatype Message = ReorgMsg(blockId: nat) | BlockMsg(block: Block) | TxMsg(tx: Transaction) | EventMsg(event: Event)

  function TxMsgs(txs: seq<Transaction>): seq<Message> {
    seq(|txs|, i requires 0 <= i < |txs| => TxMsg(txs[i]))
  }

  function EventMsgs(events: seq<Event>): seq<Message> {
    seq(|events|, i requires 0 <= i < |events| => EventMsg(events[i]))
  }

  /** What is published after a block was created. */
  function PublishOf(item: BlockTxsEvents): seq<Message> {
    [BlockMsg(item.block)] + TxMsgs(item.txs) + EventMsgs(item.events)
  }

  predicate IsReorg(s: Store, item: BlockTxsEvents) {
    item.block.id in s.blocks && s.blocks[item.block.id].hash != item.block.hash
  }

  function AfterDelete(s: Store, item: BlockTxsEvents): Store {
    if IsReorg(s, item) then DeleteSpec(s, item.block.id) else s
  }

  /** What is published after the delete step. */
  function ReorgOf(s: Store, item: BlockTxsEvents): seq<Message> {
    if IsReorg(s, item) then [ReorgMsg(item.block.id)] else []
  }

  /** One whole iteration with no other writer.  Create drops the error of its commit, so with
      `committed` false the iteration goes on, and publishes, with nothing stored. */
  function Iterate(s: Store, item: BlockTxsEvents, committed: bool): Option<(Store, seq<Message>)> {
    var mid := AfterDelete(s, item);
    match CreateSpec(mid, item)
    case None => None
    case Some(s') =>
      Some((if committed then s' else mid, ReorgOf(s, item) + PublishOf(item)))
  }

  /** Consecutive heads, each committed. */
  function HeadRun(s: Store, items: seq<BlockTxsEvents>): Option<(Store, seq<Message>)> {
    if items == [] then Some((s, []))
    else
      match HeadRun(s, items[..|items| - 1])
      case None => None
      case Some((mid, sent)) =>
        match Iterate(mid, items[|items| - 1], true)
        case None => None
        case Some((s', more)) => Some((s', sent + more))
  }

  // ---------------------------------------------------------------- the published stream

  /** A subscriber's copy of the store: a reorg drops a height, anything else is inserted if its key is free. */
  function Apply(s: Store, m: Message): Store {
    match m
    case ReorgMsg(h) => DeleteSpec(s, h)
    case BlockMsg(b) =>
      if HasHash(s.blocks, b.hash) || b.id in s.blocks then s else s.(blocks := s.blocks[b.id := b])
    case TxMsg(t) =>
      var (k, r) := TxEntry(t);
      if k in s.txs then s else s.(txs := s.txs[k := r])
    case EventMsg(e) =>
      var (k, r) := EventEntry(e);
      if k in s.events then s else s.(events := s.events[k := r])
  }

  function Replay(s: Store, msgs: seq<Message>): Store {
    if msgs == [] then s else Apply(Replay(s, msgs[..|msgs| - 1]), msgs[|msgs| - 1])
  }

  lemma {:induction false} ReplayAppend(s: Store, a: seq<Message>, b: seq<Message>)
    ensures Replay(s, a + b) == Replay(Replay(s, a), b)
  {
    if b == [] {
      assert a + b == a;
    } else {
      ReplayAppend(s, a, b[..|b| - 1]);
      assert (a + b)[..|a + b| - 1] == a + b[..|b| - 1];
    }
  }

  lemma {:induction false} ReplayTxs(s: Store, txs: seq<Transaction>)
    ensures Replay(s, TxMsgs(txs)) == s.(txs := InsertAll(s.txs, TxEntries(txs)))
  {
    if txs == [] {
    } else {
      var front := txs[..|txs| - 1];
      ReplayTxs(s, front);
      assert TxMsgs(txs)[..|txs| - 1] == TxMsgs(front);
      assert TxEntries(txs)[..|txs| - 1] == TxEntries(front);
    }
  }

  lemma {:induction false} ReplayEvents(s: Store, events: seq<Event>)
    ensures Replay(s, EventMsgs(events)) == s.(events := InsertAll(s.events, EventEntries(events)))
  {
    if events == [] {
    } else {
      var front := events[..|events| - 1];
      ReplayEvents(s, front);
      assert EventMsgs(events)[..|events| - 1] == EventMsgs(front);
      assert EventEntries(events)[..|events| - 1] == EventEntries(front);
    }
  }

  lemma ReplayPublishOf(s: Store, item: BlockTxsEvents)
    requires CreateSpec(s, item).Some?
    ensures Replay(s, PublishOf(item)) == CreateSpec(s, item).value
  {
    var first := [BlockMsg(item.block)];
    ReplayAppend(s, first + TxMsgs(item.txs), EventMsgs(item.events));
    ReplayAppend(s, first, TxMsgs(item.txs));
    assert first[..0] == [];
    assert Replay(s, first) == Apply(Replay(s, []), BlockMsg(item.block));
    ReplayTxs(Replay(s, first), item.txs);
    ReplayEvents(Replay(s, first + TxMsgs(item.txs)), item.events);
  }

  /** The stream of one iteration reproduces the store exactly when the commit took effect,
      or had nothing to do. */
  lemma IterationStream(s: Store, item: BlockTxsEvents, committed: bool)
    requires Iterate(s, item, committed).Some?
    ensures
      var (s', sent) := Iterate(s, item, committed).value;
      Replay(s, sent) == s' <==> committed || Absorbed(AfterDelete(s, item), item)
  {
    var mid := AfterDelete(s, item);
    var reorg := ReorgOf(s, item);
    ReplayAppend(s, reorg, PublishOf(item));
    assert Replay(s, reorg) == mid by {
      if reorg != [] { ReplayOne(s, reorg[0]); }
    }
    ReplayPublishOf(mid, item);
    AbsorbedIffNoOp(mid, item);
  }

  /** Replaying everything published over a snapshot of the starting store gives the final store. */
  lemma {:induction false} StreamReproducesStore(s: Store, items: seq<BlockTxsEvents>)
    requires HeadRun(s, items).Some?
    ensures Replay(s, HeadRun(s, items).value.1) == HeadRun(s, items).value.0
  {
    if items == [] {
    } else {
      var front, last := items[..|items| - 1], items[|items| - 1];
      var (mid, sent) := HeadRun(s, front).value;
      StreamReproducesStore(s, front);
      IterationStream(mid, last, true);
      ReplayAppend(s, sent, Iterate(mid, last, true).value.1);
    }
  }

  // ---------------------------------------------------------------- reorg replacement

  /** Keys of `own` that the table holds at a height other than h. */
  ghost predicate FreeElsewhere<K, V>(t: Table<K, V>, own: Table<K, V>, h: nat) {
    forall k :: k in own && k in t ==> t[k].blockId == h
  }

  /** Whatever the table holds at height h is a row of `own`. */
  ghost predicate OnlyOwnAt<K, V>(t: Table<K, V>, own: Table<K, V>, h: nat) {
    forall k :: k in t && t[k].blockId == h ==> k in own && own[k] == t[k]
  }

  lemma AfterDeleteSound(s: Store, w: World, item: BlockTxsEvents)
    requires Sound(s, w) && Fetched(w, item)
    ensures Sound(AfterDelete(s, item), w)
    ensures CreateSpec(AfterDelete(s, item), item).Some?
  {
    DeleteKeepsSound(s, w, item.block.id);
    var mid := AfterDelete(s, item);
    assert Sound(mid, w);
    if item.block.id in mid.blocks {
      assert mid.blocks[item.block.id].hash == item.block.hash;
      assert HasHash(mid.blocks, item.block.hash);
    }
  }

  /** One table under one iteration: rows at other heights stay, and the rows at the head's height
      become exactly the block's own rows if and only if no key of the block is held elsewhere. */
  lemma TableAfterHead<K, V>(t: Table<K, V>, mid: Table<K, V>, rows: seq<(K, Row<V>)>, h: nat)
    requires mid == t || mid == DropHeight(t, h)
    requires forall i :: 0 <= i < |rows| ==> rows[i].1.blockId == h
    requires OnlyOwnAt(mid, Own(rows), h)
    ensures DropHeight(InsertAll(mid, rows), h) == DropHeight(t, h)
    ensures RowsAt(InsertAll(mid, rows), h) == Own(rows) <==> FreeElsewhere(t, Own(rows), h)
  {
    InsertAllIsMerge(mid, rows);
    OwnRows(rows);
    MergeKeepsOthers(mid, Own(rows), h);
    MergeFillsIff(mid, Own(rows), h);
    assert FreeElsewhere(mid, Own(rows), h) <==> FreeElsewhere(t, Own(rows), h);
  }

  lemma MergeKeepsOthers<K, V>(mid: Table<K, V>, own: Table<K, V>, h: nat)
    requires forall k :: k in own ==> own[k].blockId == h
    ensures DropHeight(own + mid, h) == DropHeight(mid, h)
  {
  }

  lemma MergeFillsIff<K, V>(mid: Table<K, V>, own: Table<K, V>, h: nat)
    requires forall k :: k in own ==> own[k].blockId == h
    requires OnlyOwnAt(mid, own, h)
    ensures RowsAt(own + mid, h) == own <==> FreeElsewhere(mid, own, h)
  {
  }

  /** A successful iteration for a head at height h: the block is the one stored, other heights are
      untouched, and the rows at h are exactly the block's own if and only if its keys were free elsewhere. */
  lemma HeadReplacesHeight(s: Store, w: World, item: BlockTxsEvents, s': Store, sent: seq<Message>)
    requires Sound(s, w) && Fetched(w, item)
    requires Iterate(s, item, true) == Some((s', sent))
    ensures Sound(s', w)
    ensures s'.blocks == s.blocks[item.block.id := item.block]
    ensures DropHeight(s'.txs, item.block.id) == DropHeight(s.txs, item.block.id)
    ensures DropHeight(s'.events, item.block.id) == DropHeight(s.events, item.block.id)
    ensures RowsAt(s'.txs, item.block.id) == Own(TxEntries(item.txs)) <==>
            FreeElsewhere(s.txs, Own(TxEntries(item.txs)), item.block.id)
    ensures RowsAt(s'.events, item.block.id) == Own(EventEntries(item.events)) <==>
            FreeElsewhere(s.events, Own(EventEntries(item.events)), item.block.id)
  {
    var mid := AfterDelete(s, item);
    assert Sound(s', w) by {
      AfterDeleteSound(s, w, item);
      CreateKeepsSound(mid, w, item, s');
    }
    BlocksAfterHead(s, w, item);
    TablesAfterHead(s, w, item, s');
  }

  lemma TablesAfterHead(s: Store, w: World, item: BlockTxsEvents, s': Store)
    requires Sound(s, w) && Fetched(w, item)
    requires CreateSpec(AfterDelete(s, item), item) == Some(s')
    ensures DropHeight(s'.txs, item.block.id) == DropHeight(s.txs, item.block.id)
    ensures DropHeight(s'.events, item.block.id) == DropHeight(s.events, item.block.id)
    ensures RowsAt(s'.txs, item.block.id) == Own(TxEntries(item.txs)) <==>
            FreeElsewhere(s.txs, Own(TxEntries(item.txs)), item.block.id)
    ensures RowsAt(s'.events, item.block.id) == Own(EventEntries(item.events)) <==>
            FreeElsewhere(s.events, Own(EventEntries(item.events)), item.block.id)
  {
    hide InsertAll, Own, RowsAt, FreeElsewhere;
    var h, mid := item.block.id, AfterDelete(s, item);
    var txs, events := TxEntries(item.txs), EventEntries(item.events);
    assert OnlyOwnAt(mid.txs, Own(txs), h) && OnlyOwnAt(mid.events, Own(events), h) by {
      AfterDeleteSound(s, w, item);
      RowsAtHeadAreOwn(mid, w, item);
    }
    TableAfterHead(s.txs, mid.txs, txs, h);
    TableAfterHead(s.events, mid.events, events, h);
  }

  /** Alone on a sound store an iteration never fails. */
  lemma HeadSucceeds(s: Store, w: World, item: BlockTxsEvents, committed: bool)
    requires Sound(s, w) && Fetched(w, item)
    ensures Iterate(s, item, committed).Some?
  {
  }

  lemma IterateKeepsSound(s: Store, w: World, item: BlockTxsEvents, committed: bool)
    requires Sound(s, w) && Fetched(w, item) && Iterate(s, item, committed).Some?
    ensures Sound(Iterate(s, item, committed).value.0, w)
  {
    AfterDeleteSound(s, w, item);
    CreateKeepsSound(AfterDelete(s, item), w, item, CreateSpec(AfterDelete(s, item), item).value);
  }

  /** After an iteration the head's height is filled unless its commit was dropped while it had work to do:
      a dropped commit leaves a deleted height, or a new one, empty. */
  lemma HeadFilledIff(s: Store, w: World, item: BlockTxsEvents, committed: bool, s': Store, sent: seq<Message>)
    requires Sound(s, w) && Fetched(w, item)
    requires Iterate(s, item, committed) == Some((s', sent))
    ensures item.block.id in s'.blocks <==>
            committed || (item.block.id in s.blocks && s.blocks[item.block.id].hash == item.block.hash)
  {
  }

  lemma BlocksAfterHead(s: Store, w: World, item: BlockTxsEvents)
    requires Sound(s, w) && Fetched(w, item) && CreateSpec(AfterDelete(s, item), item).Some?
    ensures CreateSpec(AfterDelete(s, item), item).value.blocks == s.blocks[item.block.id := item.block]
  {
  }

  /** After the delete step only the head's own rows can be left at its height. */
  lemma RowsAtHeadAreOwn(mid: Store, w: World, item: BlockTxsEvents)
    requires Sound(mid, w) && Fetched(w, item)
    requires item.block.id in mid.blocks ==> mid.blocks[item.block.id].hash == item.block.hash
    ensures OnlyOwnAt(mid.txs, Own(TxEntries(item.txs)), item.block.id)
    ensures OnlyOwnAt(mid.events, Own(EventEntries(item.events)), item.block.id)
  {
  }

  /** No key of the block is held at another height. */
  ghost predicate RowsFree(s: Store, item: BlockTxsEvents) {
    && FreeElsewhere(s.txs, Own(TxEntries(item.txs)), item.block.id)
    && FreeElsewhere(s.events, Own(EventEntries(item.events)), item.block.id)
  }

  /** Every item of a write finds its keys free when its turn comes. */
  ghost predicate FreeInTurn(s: Store, items: seq<BlockTxsEvents>) {
    items == [] ||
    (&& FreeInTurn(s, items[..|items| - 1])
     && match CreateAll(s, items[..|items| - 1])
        case None => true
        case Some(before) => RowsFree(before, items[|items| - 1]))
  }

  ghost predicate Includes<K, V>(t: Table<K, V>, own: Table<K, V>) {
    forall k :: k in own ==> k in t && t[k] == own[k]
  }

  /** The block and each of its rows are stored as they are, not only under their keys. */
  ghost predicate RowsStored(s: Store, item: BlockTxsEvents) {
    && item.block.id in s.blocks && s.blocks[item.block.id] == item.block
    && Includes(s.txs, Own(TxEntries(item.txs)))
    && Includes(s.events, Own(EventEntries(item.events)))
  }

  lemma TableIncludesIff<K, V>(t: Table<K, V>, rows: seq<(K, Row<V>)>, h: nat)
    requires forall i :: 0 <= i < |rows| ==> rows[i].1.blockId == h
    requires OnlyOwnAt(t, Own(rows), h)
    ensures Includes(InsertAll(t, rows), Own(rows)) <==> FreeElsewhere(t, Own(rows), h)
  {
    InsertAllIsMerge(t, rows);
    OwnRows(rows);
  }

  /** A create stores every row of its block as it is if and only if none of its keys was held at another height. */
  lemma CreateStoresRowsIff(s: Store, w: World, item: BlockTxsEvents, s': Store)
    requires Sound(s, w) && Fetched(w, item) && CreateSpec(s, item) == Some(s')
    ensures RowsStored(s', item) <==> RowsFree(s, item)
  {
    CreateKeepsSound(s, w, item, s');
    RowsAtHeadAreOwn(s, w, item);
    TableIncludesIff(s.txs, TxEntries(item.txs), item.block.id);
    TableIncludesIff(s.events, EventEntries(item.events), item.block.id);
  }

  /** A write of other blocks neither stores nor changes rows whose keys are held already. */
  lemma WriteKeepsRowsStored(s: Store, w: World, items: seq<BlockTxsEvents>, s': Store, item: BlockTxsEvents)
    requires Sound(s, w) && CreateAll(s, items) == Some(s') && forall i :: 0 <= i < |items| ==> Fetched(w, items[i])
    requires Fetched(w, item) && Absorbed(s, item)
    ensures RowsStored(s', item) <==> RowsStored(s, item)
  {
    assert item.block.id in s.blocks && s.blocks[item.block.id] == item.block by { AbsorbedBlock(s, w, item); }
    assert s'.blocks[item.block.id] == s.blocks[item.block.id] by { CreateAllKeepsSound(s, w, items, s'); }
    CreateAllExtends(s, items, s');
    IncludesStays(s.txs, s'.txs, Own(TxEntries(item.txs)));
    IncludesStays(s.events, s'.events, Own(EventEntries(item.events)));
  }

  lemma AbsorbedBlock(s: Store, w: World, item: BlockTxsEvents)
    requires Sound(s, w) && Fetched(w, item) && Absorbed(s, item)
    ensures item.block.id in s.blocks && s.blocks[item.block.id] == item.block
  {
    var h :| h in s.blocks && s.blocks[h].hash == item.block.hash;
    assert s.blocks[h] == item.block;
  }

  lemma IncludesStays<K, V>(t: Table<K, V>, t': Table<K, V>, own: Table<K, V>)
    requires (forall k :: k in t ==> k in t' && t'[k] == t[k]) && own.Keys <= t.Keys
    ensures Includes(t', own) <==> Includes(t, own)
  {
    if Includes(t', own) {
      forall k | k in own ensures k in t && t[k] == own[k] { assert k in own.Keys; }
    }
  }

  /** Handling the same head again changes nothing and announces no reorg. */
  lemma SameHeadTwice(s: Store, w: World, item: BlockTxsEvents, s': Store, sent: seq<Message>)
    requires Sound(s, w) && Fetched(w, item)
    requires Iterate(s, item, true) == Some((s', sent))
    ensures Iterate(s', item, true) == Some((s', PublishOf(item)))
  {
    BlocksAfterHead(s, w, item);
    CreateAbsorbs(AfterDelete(s, item), item, s', item);
    AbsorbedIffNoOp(s', item);
    assert [] + PublishOf(item) == PublishOf(item);
  }

  // ---------------------------------------------------------------- the filler as a state machine

  datatype FfPc =
    | Listening
    | Reading(item: BlockTxsEvents)
    | Deleting(item: BlockTxsEvents)
    | Announcing(item: BlockTxsEvents)
    | Creating(item: BlockTxsEvents)
    | Publishing(item: BlockTxsEvents, sent: nat)
    | Stopped

  datatype FfAction =
    | Head(item: BlockTxsEvents)     // a head arrived and its block was fetched
    | Read                           // GetBlockById and the hash comparison
    | Delete(reported: bool)         // Delete committed; `reported` false: its caller got an error
    | Announce(reported: bool)       // the reorg was delivered; `reported` false: its caller got an error
    | Create(committed: bool)        // Create returned nil
    | Publish(reported: bool)        // the next message was delivered
    | Fail                           // any error or cancellation: nothing written, the filler returns

  datatype FfView = FfView(rows: Store, published: seq<Message>, pc: FfPc)

  ghost predicate FfEnabled(v: FfView, a: FfAction, w: World) {
    match a
    case Head(item) => v.pc.Listening? && Fetched(w, item)
    case Read => v.pc.Reading?
    case Delete(_) => v.pc.Deleting?
    case Announce(_) => v.pc.Announcing?
    case Create(_) => v.pc.Creating? && CreateSpec(v.rows, v.pc.item).Some?
    case Publish(_) => v.pc.Publishing? && v.pc.sent < |PublishOf(v.pc.item)|
    case Fail => true
  }

  ghost function FfNext(v: FfView, a: FfAction, w: World): FfView
    requires FfEnabled(v, a, w)
  {
    match a
    case Head(item) => v.(pc := Reading(item))
    case Read => v.(pc := if IsReorg(v.rows, v.pc.item) then Deleting(v.pc.item) else Creating(v.pc.item))
    case Delete(reported) =>
      v.(rows := DeleteSpec(v.rows, v.pc.item.block.id), pc := if reported then Announcing(v.pc.item) else Stopped)
    case Announce(reported) =>
      v.(published := v.published + [ReorgMsg(v.pc.item.block.id)],
         pc := if reported then Creating(v.pc.item) else Stopped)
    case Create(committed) =>
      v.(rows := if committed then CreateSpec(v.rows, v.pc.item).value else v.rows, pc := Publishing(v.pc.item, 0))
    case Publish(reported) =>
      v.(published := v.published + [PublishOf(v.pc.item)[v.pc.sent]],
         pc := if !reported then Stopped
               else if v.pc.sent + 1 == |PublishOf(v.pc.item)| then Listening else Publishing(v.pc.item, v.pc.sent + 1))
    case Fail => v.(pc := Stopped)
  }

  /** The state after a trace, None if some step of it was not possible. */
  ghost function FfRun(v: FfView, trace: seq<FfAction>, w: World): Option<FfView> {
    if trace == [] then Some(v)
    else
      var before, a := FfRun(v, trace[..|trace| - 1], w), trace[|trace| - 1];
      if before.None? || !FfEnabled(before.value, a, w) then None else Some(FfNext(before.value, a, w))
  }

  /** How far the stream is behind the store at each point of an iteration. */
  ghost predicate StreamTracks(s0: Store, v: FfView) {
    var copy := Replay(s0, v.published);
    match v.pc
    case Announcing(item) => v.rows == DeleteSpec(copy, item.block.id)
    case Publishing(item, sent) => sent < |PublishOf(item)| && v.rows == Replay(copy, PublishOf(item)[sent..])
    case Stopped => true
    case _ => v.rows == copy
  }

  lemma StreamStep(s0: Store, v: FfView, a: FfAction, w: World)
    requires StreamTracks(s0, v) && FfEnabled(v, a, w) && a != Create(false)
    ensures StreamTracks(s0, FfNext(v, a, w))
  {
    match a
    case Announce(_) =>
      ReplayAppend(s0, v.published, [ReorgMsg(v.pc.item.block.id)]);
      ReplayOne(Replay(s0, v.published), ReorgMsg(v.pc.item.block.id));
    case Create(_) =>
      ReplayPublishOf(v.rows, v.pc.item);
      assert PublishOf(v.pc.item)[0..] == PublishOf(v.pc.item);
    case Publish(_) => ReplayNext(s0, v.published, PublishOf(v.pc.item), v.pc.sent);
    case _ =>
  }

  /** Moving one message from what is still to come to what was sent. */
  lemma ReplayNext(s0: Store, published: seq<Message>, all: seq<Message>, k: nat)
    requires k < |all|
    ensures Replay(Replay(s0, published), all[k..]) == Replay(Replay(s0, published + [all[k]]), all[k + 1..])
    ensures k + 1 == |all| ==> Replay(Replay(s0, published), all[k..]) == Replay(s0, published + [all[k]])
  {
    ReplayAppend(s0, published, [all[k]]);
    assert all[k..] == [all[k]] + all[k + 1..];
    ReplayAppend(Replay(s0, published), [all[k]], all[k + 1..]);
  }

  lemma ReplayOne(s: Store, m: Message)
    ensures Replay(s, [m]) == Apply(s, m)
  {
  }

  /** Over every run of forwardfill without another writer and without a dropped commit, also one
      that ends in an error, the stream reproduces the store whenever the filler is back to listening. */
  lemma {:induction false} StreamReproducesEveryRun(s0: Store, w: World, trace: seq<FfAction>)
    requires FfRun(FfView(s0, [], Listening), trace, w).Some?
    requires forall i :: 0 <= i < |trace| ==> trace[i] != Create(false)
    ensures
      var v := FfRun(FfView(s0, [], Listening), trace, w).value;
      StreamTracks(s0, v) && (v.pc.Listening? ==> Replay(s0, v.published) == v.rows)
  {
    if trace == [] {
    } else {
      var front := trace[..|trace| - 1];
      StreamReproducesEveryRun(s0, w, front);
      StreamStep(s0, FfRun(FfView(s0, [], Listening), front, w).value, trace[|trace| - 1], w);
    }
  }
}
