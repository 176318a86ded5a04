/** What the balance loop reads of a stored block, in the block's own terms
    (internal/repository/db/indexer.go:306-317, internal/core/services/balancefill.go:162-177): the log of each of its
    transfer events, and no others. */
module TransferReads {
  import opened Wrappers
  import opened Tables
  import opened RowContents
  import opened Words
  import opened Balances
  import opened LogReads
  import opened Seqs
  import Backfill

  predicate IsTransfer(e: Event) {
    && |e.topics| > 0
    && (e.topics[0] == TRANSFER || e.topics[0] == TRANSFER_SINGLE || e.topics[0] == TRANSFER_BATCH)
  }

  /** The logs of a block's transfer events, in order. */
  function TransferLogs(events: seq<Event>): seq<Log> {
    if events == [] then []
    else
      var e := events[|events| - 1];
      TransferLogs(events[..|events| - 1]) +
      if IsTransfer(e) then [Log(e.blockId, e.emitter, e.datas, e.topics)] else []
  }

  function KeyOf(e: Event): EventKey {
    EventKey(e.txHash, e.logIndex)
  }

  function TransferKeys(events: seq<Event>): seq<EventKey> {
    if events == [] then []
    else
      var e := events[|events| - 1];
      TransferKeys(events[..|events| - 1]) + if IsTransfer(e) then [KeyOf(e)] else []
  }

  lemma {:induction false} TransferKeysMean(events: seq<Event>)
    ensures forall k :: k in TransferKeys(events) <==>
              exists j :: 0 <= j < |events| && IsTransfer(events[j]) && k == KeyOf(events[j])
  {
    if events == [] {
    } else {
      var n := |events| - 1;
      var front := events[..n];
      TransferKeysMean(front);
      forall k ensures k in TransferKeys(events) <==>
        exists j :: 0 <= j < |events| && IsTransfer(events[j]) && k == KeyOf(events[j])
      {
        if j :| 0 <= j < n && IsTransfer(front[j]) && k == KeyOf(front[j]) {
          assert IsTransfer(events[j]);
        }
        if j :| 0 <= j <= n && IsTransfer(events[j]) && k == KeyOf(events[j]) {
          assert j < n ==> IsTransfer(front[j]);
        }
      }
    }
  }

  lemma {:induction false} TransferKeysDistinct(events: seq<Event>)
    requires KeysDiffer(events)
    ensures Distinct(TransferKeys(events))
  {
    if events != [] {
      var n := |events| - 1;
      var e, before := events[n], TransferKeys(events[..n]);
      TransferKeysDistinct(events[..n]);
      TransferKeysMean(events[..n]);
      assert KeyOf(e) !in before;
      assert forall i :: 0 <= i < |before| ==> before[i] in before;
    }
  }

  lemma {:induction false} TransferLogsAt(t: Table<EventKey, EventCols>, events: seq<Event>)
    requires forall j :: 0 <= j < |events| ==> HasEvent(t, events[j])
    ensures LogsAt(t, TransferLogs(events), TransferKeys(events))
  {
    if events != [] {
      TransferLogsAt(t, events[..|events| - 1]);
      assert HasEvent(t, events[|events| - 1]);
    }
  }

  lemma TransferTopics(topic: string)
    ensures topic in TRANSFER_SIGNATURES <==> topic == TRANSFER || topic == TRANSFER_SINGLE || topic == TRANSFER_BATCH
  {
  }

  /** The selected rows of a height are those of the block's transfer events. */
  lemma SelectedOfBlock(t: Table<EventKey, EventCols>, item: BlockTxsEvents, k: EventKey)
    requires WellFormed(item) && KeysDiffer(item.events)
    requires RowsAt(t, item.block.id) == Own(EventEntries(item.events))
    ensures Selected(t, TRANSFER_SIGNATURES, item.block.id, item.block.id, k) <==> k in TransferKeys(item.events)
  {
    var own, events := Own(EventEntries(item.events)), item.events;
    EveryEventHasARow(events);
    EventsInserted(map[], events);
    TransferKeysMean(events);
    if k in t { if |t[k].cols.topics| > 0 { TransferTopics(t[k].cols.topics[0]); } }
    hide Own, EventEntries, TransferKeys;
    if Selected(t, TRANSFER_SIGNATURES, item.block.id, item.block.id, k) {
      assert k in RowsAt(t, item.block.id);
      var j :| 0 <= j < |events| && events[j].txHash == k.txHash && events[j].logIndex == k.logIndex;
      assert HasEvent(own, events[j]);
      assert IsTransfer(events[j]);
    }
    if k in TransferKeys(events) {
      var j :| 0 <= j < |events| && IsTransfer(events[j]) && k == KeyOf(events[j]);
      assert HasEvent(own, events[j]);
      assert k in RowsAt(t, item.block.id);
    }
  }

  /** A read of the height of a complete block whose events have keys of their own returns the log of each of its
      transfer events, with its height, emitter, data and topics, and no others. */
  lemma BlockReads(s: Store, item: BlockTxsEvents, logs: seq<Log>)
    requires WellFormed(item) && KeysDiffer(item.events) && Backfill.FullyStored(s, item)
    requires IsLogRead(s.events, TRANSFER_SIGNATURES, item.block.id, item.block.id, logs)
    ensures multiset(logs) == multiset(TransferLogs(item.events))
  {
    var h, events, keys := item.block.id, item.events, TransferKeys(item.events);
    TransferKeysDistinct(events);
    forall k ensures k in keys <==> Selected(s.events, TRANSFER_SIGNATURES, h, h, k) {
      SelectedOfBlock(s.events, item, k);
    }
    forall j | 0 <= j < |events| ensures HasEvent(s.events, events[j]) {
      EveryEventHasARow(events);
      assert HasEvent(RowsAt(s.events, h), events[j]);
    }
    TransferLogsAt(s.events, events);
    assert IsLogReadOf(s.events, TRANSFER_SIGNATURES, h, h, TransferLogs(events), keys);
    ReadsOfSameRowsAgree(s.events, TRANSFER_SIGNATURES, h, h, logs, TransferLogs(events));
  }

  /** What crediting the read does is what the block's transfer events say, one by one. */
  lemma BlockCredits(s: Store, item: BlockTxsEvents, logs: seq<Log>, m: Ledger, unpack: Unpacker)
    requires WellFormed(item) && KeysDiffer(item.events) && Backfill.FullyStored(s, item)
    requires IsLogRead(s.events, TRANSFER_SIGNATURES, item.block.id, item.block.id, logs)
    ensures
      var read, own := EntriesOf(logs, unpack), EntriesOf(TransferLogs(item.events), unpack);
      && (read.None? <==> own.None?)
      && (read.Some? ==> CreditAll(m, read.value) == CreditAll(m, own.value))
  {
    BlockReads(s, item, logs);
    RowOrderIrrelevant(m, logs, TransferLogs(item.events), unpack);
  }

  // ---------------------------------------------------------------- from a created event to its entries

  /** A created transfer event whose key was free is in every read of its height, as it is. */
  lemma CreatedIsRead(s: Store, item: BlockTxsEvents, s': Store, j: nat, logs: seq<Log>) returns (i: nat)
    requires CreateSpec(s, item) == Some(s') && j < |item.events| && NewEvent(s.events, item.events, j)
    requires IsTransfer(item.events[j])
    requires IsLogRead(s'.events, TRANSFER_SIGNATURES, item.events[j].blockId, item.events[j].blockId, logs)
    ensures
      var e := item.events[j];
      i < |logs| && logs[i] == Log(e.blockId, e.emitter, e.datas, e.topics)
  {
    var e := item.events[j];
    EventsInserted(s.events, item.events);
    assert HasEvent(s'.events, e);
    TransferTopics(e.topics[0]);
    var keys: seq<EventKey> :| IsLogReadOf(s'.events, TRANSFER_SIGNATURES, e.blockId, e.blockId, logs, keys);
    assert Selected(s'.events, TRANSFER_SIGNATURES, e.blockId, e.blockId, KeyOf(e));
    i :| 0 <= i < |keys| && keys[i] == KeyOf(e);
  }

  /** An ERC-20 Transfer of `value`: created, read, and extracted as -value and +value. */
  lemma CreatedErc20(s: Store, item: BlockTxsEvents, s': Store, j: nat, logs: seq<Log>, value: nat, from: string,
                     to: string, unpack: Unpacker)
    returns (i: nat)
    requires CreateSpec(s, item) == Some(s') && j < |item.events| && NewEvent(s.events, item.events, j)
    requires IsWord(value) && item.events[j].datas == Encode(ToBytes(value, 32))
    requires item.events[j].topics == [TRANSFER, from, to]
    requires IsLogRead(s'.events, TRANSFER_SIGNATURES, item.events[j].blockId, item.events[j].blockId, logs)
    ensures
      var token := item.events[j].emitter;
      && i < |logs|
      && Extract(logs[i], unpack) == Some([Entry(Key(from, token, ""), 0 - value), Entry(Key(to, token, ""), value)])
  {
    hide Encode, ToBytes, FromHex, IsLogRead, CreateSpec, NewEvent;
    i := CreatedIsRead(s, item, s', j, logs);
    var e := item.events[j];
    Erc20RoundTrip(value, from, to, e.emitter, e.blockId, unpack);
  }

  /** A TransferSingle of `value` units of an id, whose text is that of an indexed topic. */
  lemma CreatedSingle(s: Store, item: BlockTxsEvents, s': Store, j: nat, logs: seq<Log>, id: nat, text: string,
                      value: nat, op: string, from: string, to: string, unpack: Unpacker)
    returns (i: nat)
    requires CreateSpec(s, item) == Some(s') && j < |item.events| && NewEvent(s.events, item.events, j)
    requires IsWord(id) && IsWord(value)
    requires |text| == 66 && IsHexText(text) && FromBytes(FromHex(text)) == id
    requires item.events[j].datas == Encode(ToBytes(id, 32) + ToBytes(value, 32))
    requires item.events[j].topics == [TRANSFER_SINGLE, op, from, to]
    requires IsLogRead(s'.events, TRANSFER_SIGNATURES, item.events[j].blockId, item.events[j].blockId, logs)
    ensures
      var token := item.events[j].emitter;
      && i < |logs|
      && Extract(logs[i], unpack) ==
           Some([Entry(Key(from, token, text), 0 - value), Entry(Key(to, token, text), value)])
  {
    hide Encode, ToBytes, FromHex, FromBytes, IsHexText, IsLogRead, CreateSpec, NewEvent, Extract;
    i := CreatedIsRead(s, item, s', j, logs);
    var e := item.events[j];
    SingleRoundTrip(id, text, value, from, to, op, e.emitter, e.blockId, unpack);
  }
}
