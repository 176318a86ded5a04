/** What a log query may return (internal/repository/db/indexer.go:306-317): the matching rows, each once,
    in no particular order. */
module LogReads {
  import opened Tables
  import opened Balances
  import opened Seqs

  function LogOf(r: Row<EventCols>): Log {
    Log(r.blockId, r.cols.emitter, r.cols.datas, r.cols.topics)
  }

  /** topics[1] = ANY(signatures) AND block_id >= from AND block_id <= to, with SQL's 1-based arrays. */
  predicate Selected(events: Table<EventKey, EventCols>, signatures: seq<string>, from: nat, to: nat, k: EventKey) {
    && k in events && from <= events[k].blockId <= to
    && |events[k].cols.topics| > 0 && events[k].cols.topics[0] in signatures
  }

  ghost predicate LogsAt(events: Table<EventKey, EventCols>, logs: seq<Log>, keys: seq<EventKey>) {
    && |keys| == |logs|
    && forall i :: 0 <= i < |keys| ==> keys[i] in events && logs[i] == LogOf(events[keys[i]])
  }

  ghost predicate IsLogReadOf(events: Table<EventKey, EventCols>, signatures: seq<string>, from: nat, to: nat,
                              logs: seq<Log>, keys: seq<EventKey>) {
    && Distinct(keys) && LogsAt(events, logs, keys)
    && forall k :: k in keys <==> Selected(events, signatures, from, to, k)
  }

  ghost predicate IsLogRead(events: Table<EventKey, EventCols>, signatures: seq<string>, from: nat, to: nat,
                            logs: seq<Log>) {
    exists keys: seq<EventKey> :: IsLogReadOf(events, signatures, from, to, logs, keys)
  }

  /** The logs are those of the rows with these keys: the rows of the heights [from, to] whose first topic is one of
      the signatures, each with its height, emitter, data and topics. */
  ghost predicate ReadsAs(events: Table<EventKey, EventCols>, signatures: seq<string>, from: nat, to: nat,
                          logs: seq<Log>, keys: seq<EventKey>) {
    && |keys| == |logs| && (forall i, j :: 0 <= i < j < |keys| ==> keys[i] != keys[j])
    && (forall k :: k in keys <==>
          && k in events && from <= events[k].blockId && events[k].blockId <= to
          && |events[k].cols.topics| > 0
          && exists i :: 0 <= i < |signatures| && signatures[i] == events[k].cols.topics[0])
    && (forall i :: 0 <= i < |keys| ==>
          && keys[i] in events
          && var r := events[keys[i]];
             logs[i] == Log(r.blockId, r.cols.emitter, r.cols.datas, r.cols.topics))
  }

  lemma ReadsAsIff(events: Table<EventKey, EventCols>, signatures: seq<string>, from: nat, to: nat, logs: seq<Log>,
                   keys: seq<EventKey>)
    ensures ReadsAs(events, signatures, from, to, logs, keys) <==> IsLogReadOf(events, signatures, from, to, logs, keys)
  {
    forall k ensures Selected(events, signatures, from, to, k) <==>
      && k in events && from <= events[k].blockId && events[k].blockId <= to
      && |events[k].cols.topics| > 0
      && exists i :: 0 <= i < |signatures| && signatures[i] == events[k].cols.topics[0]
    {
    }
  }

  /** The rows a read of one height matches. */
  function RowsRead(events: Table<EventKey, EventCols>, signatures: seq<string>, h: nat): Table<EventKey, EventCols> {
    map k | k in events && Selected(events, signatures, h, h, k) :: events[k]
  }

  /** What a read returns depends on the rows it matches only. */
  lemma ReadsByRows(e: Table<EventKey, EventCols>, e': Table<EventKey, EventCols>, signatures: seq<string>, h: nat,
                    logs: seq<Log>)
    requires RowsRead(e, signatures, h) == RowsRead(e', signatures, h) && IsLogRead(e, signatures, h, h, logs)
    ensures IsLogRead(e', signatures, h, h, logs)
  {
    var keys: seq<EventKey> :| IsLogReadOf(e, signatures, h, h, logs, keys);
    forall k ensures Selected(e, signatures, h, h, k) <==> Selected(e', signatures, h, h, k) {
      assert k in RowsRead(e, signatures, h) <==> k in RowsRead(e', signatures, h);
    }
    forall i | 0 <= i < |keys| ensures keys[i] in e' && logs[i] == LogOf(e'[keys[i]]) {
      assert keys[i] in keys && keys[i] in RowsRead(e, signatures, h);
      assert RowsRead(e, signatures, h)[keys[i]] == RowsRead(e', signatures, h)[keys[i]];
    }
    assert IsLogReadOf(e', signatures, h, h, logs, keys);
  }

  lemma LogsAtWithout(events: Table<EventKey, EventCols>, logs: seq<Log>, keys: seq<EventKey>, j: nat)
    requires LogsAt(events, logs, keys) && j < |keys|
    ensures LogsAt(events, Without(logs, j), Without(keys, j))
    ensures logs[j] == LogOf(events[keys[j]])
  {
  }

  lemma {:induction false} LogsOfKeys(events: Table<EventKey, EventCols>, a: seq<Log>, ka: seq<EventKey>,
                                      b: seq<Log>, kb: seq<EventKey>)
    requires LogsAt(events, a, ka) && LogsAt(events, b, kb) && multiset(ka) == multiset(kb)
    ensures multiset(a) == multiset(b)
  {
    assert |multiset(ka)| == |ka| && |multiset(kb)| == |kb|;
    if ka != [] {
      assert ka[0] in multiset(kb);
      var j :| 0 <= j < |kb| && kb[j] == ka[0];
      LogsAtWithout(events, a, ka, 0);
      LogsAtWithout(events, b, kb, j);
      assert multiset(Without(ka, 0)) == multiset(Without(kb, j)) by {
        WithoutMultiset(ka, 0);
        WithoutMultiset(kb, j);
      }
      LogsOfKeys(events, Without(a, 0), Without(ka, 0), Without(b, j), Without(kb, j));
      WithoutMultiset(a, 0);
      WithoutMultiset(b, j);
    }
  }

  /** Two reads over the same event rows return the same logs, up to order. */
  lemma ReadsOfSameRowsAgree(events: Table<EventKey, EventCols>, signatures: seq<string>, from: nat, to: nat,
                             a: seq<Log>, b: seq<Log>)
    requires IsLogRead(events, signatures, from, to, a) && IsLogRead(events, signatures, from, to, b)
    ensures multiset(a) == multiset(b)
  {
    var ka: seq<EventKey> :| IsLogReadOf(events, signatures, from, to, a, ka);
    var kb: seq<EventKey> :| IsLogReadOf(events, signatures, from, to, b, kb);
    SameElementsPermuted(ka, kb);
    LogsOfKeys(events, a, ka, b, kb);
  }
}
