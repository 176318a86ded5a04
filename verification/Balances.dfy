/** From transfer logs to balance changes (internal/core/services/balancefill.go:19-134) and the
    upsert they end in (internal/repository/db/indexer.go:272-298). */
module Balances {
  import opened Wrappers
  import opened Words
  import opened Seqs

  datatype Log = Log(blockId: nat, emitter: string, datas: string, topics: seq<string>)
  datatype Key = Key(wallet: string, token: string, id: string)
  datatype Entry = Entry(key: Key, amount: int)

  datatype Standard = NoStandard | ERC20 | ERC721 | ERC1155Single | ERC1155Batch

  // Each written in two parts: its third character tells it from the others.
  const TRANSFER := "0xd" + "df252ad1be2c89b69c2b068fc378daa952ba7f163c4a11628f55a4df523b3ef"
  const TRANSFER_SINGLE := "0xc" + "3d58168c5ae7397731d063d5bbf3d657854427343f4c083240f7aacaa2d0f62"
  const TRANSFER_BATCH := "0x4" + "a39dc06d4c0dbc64b70af90fd698a233a518aa5d07e595d983b8c0526c8f7fb"

  /** The first topics the ledger asks the store for. */
  const TRANSFER_SIGNATURES := [TRANSFER, TRANSFER_SINGLE, TRANSFER_BATCH]

  function FindStandard(topics: seq<string>): Standard {
    if |topics| == 0 then NoStandard
    else if topics[0] == TRANSFER_SINGLE then ERC1155Single
    else if topics[0] == TRANSFER_BATCH then ERC1155Batch
    else if |topics| <= 3 then ERC20
    else ERC721
  }

  /** The ABI decoder for (uint256[], uint256[]); None is an unpacking error. */
  type Unpacker = seq<Byte> -> Option<(seq<nat>, seq<nat>)>

  /** One transfer of `value` units of (token, id). */
  function Move(from: string, to: string, token: string, id: string, value: nat): seq<Entry> {
    [Entry(Key(from, token, id), 0 - value), Entry(Key(to, token, id), value)]
  }

  function Moves(from: string, to: string, token: string, ids: seq<nat>, values: seq<nat>): seq<Entry>
    requires |ids| == |values|
  {
    if ids == [] then []
    else
      var n := |ids| - 1;
      Moves(from, to, token, ids[..n], values[..n]) + Move(from, to, token, HashHex(ids[n]), values[n])
  }

  function Min(a: nat, b: nat): (r: nat)
    ensures r <= a && r <= b && (r == a || r == b)
  {
    if a < b then a else b
  }

  /** The balance changes of one log; None is the index panic of a log with too few topics. */
  function Extract(log: Log, unpack: Unpacker): Option<seq<Entry>> {
    var topics := log.topics;
    match FindStandard(topics)
    case NoStandard => Some([])
    case ERC20 =>
      if |topics| < 3 then None
      else Some(Move(topics[1], topics[2], log.emitter, "", FromBytes(FromHex(log.datas))))
    case ERC721 => Some(Move(topics[1], topics[2], log.emitter, topics[3], 1))
    case ERC1155Single =>
      if |topics| < 4 then None
      else
        var data := FromHex(log.datas);
        if |data| < 64 then Some([])
        else Some(Move(topics[2], topics[3], log.emitter, HashHex(FromBytes(data[0..32])), FromBytes(data[32..64])))
    case ERC1155Batch =>
      if |topics| < 4 then None
      else
        match unpack(FromHex(log.datas))
        case None => Some([])
        case Some((ids, values)) =>
          var n := Min(|ids|, |values|);
          Some(Moves(topics[2], topics[3], log.emitter, ids[..n], values[..n]))
  }

  lemma TransferSignaturesDiffer()
    ensures TRANSFER != TRANSFER_SINGLE && TRANSFER != TRANSFER_BATCH && TRANSFER_SINGLE != TRANSFER_BATCH
  {
    assert TRANSFER[2] == 'd' && TRANSFER_SINGLE[2] == 'c' && TRANSFER_BATCH[2] == '4';
  }

  /** A log the store can return panics exactly when its standard's indexed parameters are missing. */
  lemma ExtractPanicsIff(log: Log, unpack: Unpacker)
    requires |log.topics| > 0 && log.topics[0] in TRANSFER_SIGNATURES
    ensures Extract(log, unpack).None? <==> |log.topics| < (if log.topics[0] == TRANSFER then 3 else 4)
  {
    TransferSignaturesDiffer();
  }

  /** Data of less than two words moves nothing, and what follows the second word is not read. */
  lemma SingleOfAnyData(datas: seq<Byte>, text: string, from: string, to: string, op: string, token: string, h: nat,
                        unpack: Unpacker)
    requires |datas| >= 64 ==> |text| == 66 && IsHexText(text) && FromHex(text) == datas[..32]
    ensures Extract(Log(h, token, Encode(datas), [TRANSFER_SINGLE, op, from, to]), unpack) ==
            Some(if |datas| < 64 then []
                 else [Entry(Key(from, token, text), 0 - FromBytes(datas[32..64])),
                       Entry(Key(to, token, text), FromBytes(datas[32..64]))])
  {
    HexRoundTrip(datas);
    if |datas| >= 64 {
      WordLimit();
      NumberRoundTrip(datas[..32]);
      HashHexIff(FromBytes(datas[..32]), text);
      assert datas[0..32] == datas[..32];
    }
    hide IsHexText, Encode, FromHex, FromBytes;
  }

  /** Decoding the data of a TransferSingle gives back its id, as the text of 0x and 64 lower-case digits that an
      indexed topic of that number has, and its value. */
  lemma SingleRoundTrip(id: nat, text: string, value: nat, from: string, to: string, op: string, token: string, h: nat,
                        unpack: Unpacker)
    requires IsWord(id) && IsWord(value)
    requires |text| == 66 && IsHexText(text) && FromBytes(FromHex(text)) == id
    ensures Extract(SingleLog(id, value, from, to, op, token, h), unpack) ==
            Some([Entry(Key(from, token, text), 0 - value), Entry(Key(to, token, text), value)])
  {
    hide *;
    WordBytes(value);
    TextBytes(id, text);
    SingleLogIs(id, value, from, to, op, token, h);
    SingleOfTwoWords(ToBytes(id, 32), ToBytes(value, 32), text, from, to, op, token, h, unpack);
  }

  lemma SingleLogIs(id: nat, value: nat, from: string, to: string, op: string, token: string, h: nat)
    ensures SingleLog(id, value, from, to, op, token, h) ==
            Log(h, token, Encode(ToBytes(id, 32) + ToBytes(value, 32)), [TRANSFER_SINGLE, op, from, to])
  {
  }

  lemma SingleOfTwoWords(a: seq<Byte>, b: seq<Byte>, text: string, from: string, to: string, op: string, token: string,
                         h: nat, unpack: Unpacker)
    requires |a| == |b| == 32 && |text| == 66 && IsHexText(text) && FromHex(text) == a
    ensures Extract(Log(h, token, Encode(a + b), [TRANSFER_SINGLE, op, from, to]), unpack) ==
            Some([Entry(Key(from, token, text), 0 - FromBytes(b)), Entry(Key(to, token, text), FromBytes(b))])
  {
    hide Extract, Encode, FromHex, IsHexText, FromBytes;
    assert (a + b)[..32] == a && (a + b)[32..64] == b;
    SingleOfAnyData(a + b, text, from, to, op, token, h, unpack);
  }

  /** The amount of an ERC-20 Transfer is the whole of its data as one big-endian number. */
  lemma Erc20OfAnyData(datas: seq<Byte>, from: string, to: string, token: string, h: nat, unpack: Unpacker)
    ensures Extract(Log(h, token, Encode(datas), [TRANSFER, from, to]), unpack) ==
            Some([Entry(Key(from, token, ""), 0 - FromBytes(datas)), Entry(Key(to, token, ""), FromBytes(datas))])
  {
    TransferSignaturesDiffer();
    HexRoundTrip(datas);
  }

  /** The log a TransferSingle leaves in the store. */
  function SingleLog(id: nat, value: nat, from: string, to: string, op: string, token: string, h: nat): Log {
    Log(h, token, Encode(ToBytes(id, 32) + ToBytes(value, 32)), [TRANSFER_SINGLE, op, from, to])
  }

  /** An ERC-20 Transfer of `value`, with its two indexed parameters, moves `value` units under the empty id. */
  lemma Erc20RoundTrip(value: nat, from: string, to: string, token: string, h: nat, unpack: Unpacker)
    requires IsWord(value)
    ensures Extract(Log(h, token, Encode(ToBytes(value, 32)), [TRANSFER, from, to]), unpack) ==
            Some([Entry(Key(from, token, ""), 0 - value), Entry(Key(to, token, ""), value)])
  {
    TransferSignaturesDiffer();
    WordLimit();
    HexRoundTrip(ToBytes(value, 32));
    BytesRoundTrip(value, 32);
  }

  /** An ERC-721 Transfer, with its three indexed parameters, moves one unit under the token's id, whatever its data. */
  lemma Erc721MovesOne(id: string, from: string, to: string, token: string, datas: string, h: nat, unpack: Unpacker)
    ensures Extract(Log(h, token, datas, [TRANSFER, from, to, id]), unpack) ==
            Some([Entry(Key(from, token, id), 0 - 1), Entry(Key(to, token, id), 1)])
  {
    TransferSignaturesDiffer();
  }

  // ---------------------------------------------------------------- all logs of a block

  /** The entries of a list of logs, in order; None if one of them panics. */
  function EntriesOf(logs: seq<Log>, unpack: Unpacker): Option<seq<Entry>> {
    if logs == [] then Some([])
    else
      match EntriesOf(logs[..|logs| - 1], unpack)
      case None => None
      case Some(before) =>
        match Extract(logs[|logs| - 1], unpack)
        case None => None
        case Some(last) => Some(before + last)
  }

  /** One TransferSingle per pair of a batch. */
  function Singles(ids: seq<nat>, values: seq<nat>, from: string, to: string, op: string, token: string, h: nat)
    : seq<Log>
    requires |ids| == |values|
  {
    seq(|ids|, i requires 0 <= i < |ids| => SingleLog(ids[i], values[i], from, to, op, token, h))
  }

  lemma {:induction false} MovesAreSingles(ids: seq<nat>, values: seq<nat>, from: string, to: string, op: string,
                                           token: string, h: nat, unpack: Unpacker)
    requires |ids| == |values| && forall i :: 0 <= i < |ids| ==> IsWord(ids[i]) && IsWord(values[i])
    ensures EntriesOf(Singles(ids, values, from, to, op, token, h), unpack) == Some(Moves(from, to, token, ids, values))
  {
    if ids == [] {
    } else {
      var n := |ids| - 1;
      MovesAreSingles(ids[..n], values[..n], from, to, op, token, h, unpack);
      assert Singles(ids, values, from, to, op, token, h)[..n] ==
             Singles(ids[..n], values[..n], from, to, op, token, h);
      HashHexIff(ids[n], HashHex(ids[n]));
      SingleRoundTrip(ids[n], HashHex(ids[n]), values[n], from, to, op, token, h, unpack);
    }
  }

  /** A TransferBatch is the TransferSingles of its pairs, in order, as many as the shorter list has. */
  lemma BatchIsItsSingles(ids: seq<nat>, values: seq<nat>, from: string, to: string, op: string, token: string, h: nat,
                          unpack: Unpacker, datas: string)
    requires unpack(FromHex(datas)) == Some((ids, values))
    requires forall i :: 0 <= i < Min(|ids|, |values|) ==> IsWord(ids[i]) && IsWord(values[i])
    ensures Extract(Log(h, token, datas, [TRANSFER_BATCH, op, from, to]), unpack) ==
            EntriesOf(Singles(ids[..Min(|ids|, |values|)], values[..Min(|ids|, |values|)], from, to, op, token, h),
                      unpack)
  {
    var n := Min(|ids|, |values|);
    var topics := [TRANSFER_BATCH, op, from, to];
    assert FindStandard(topics) == ERC1155Batch by { TransferSignaturesDiffer(); }
    BatchExtract(Log(h, token, datas, topics), unpack, ids, values);
    MovesAreSingles(ids[..n], values[..n], from, to, op, token, h, unpack);
  }

  lemma BatchExtract(log: Log, unpack: Unpacker, ids: seq<nat>, values: seq<nat>)
    requires FindStandard(log.topics) == ERC1155Batch && |log.topics| >= 4
    requires unpack(FromHex(log.datas)) == Some((ids, values))
    ensures
      var n := Min(|ids|, |values|);
      Extract(log, unpack) == Some(Moves(log.topics[2], log.topics[3], log.emitter, ids[..n], values[..n]))
  {
  }

  predicate HasKey(entries: seq<Entry>, k: Key) {
    exists i :: 0 <= i < |entries| && entries[i].key == k
  }

  /** What a list of entries adds to one key. */
  function SumFor(entries: seq<Entry>, k: Key): int {
    if entries == [] then 0
    else
      var last := entries[|entries| - 1];
      SumFor(entries[..|entries| - 1], k) + if last.key == k then last.amount else 0
  }

  lemma {:induction false} SumForAppend(a: seq<Entry>, b: seq<Entry>, k: Key)
    ensures SumFor(a + b, k) == SumFor(a, k) + SumFor(b, k)
  {
    if b == [] {
      assert a + b == a;
    } else {
      SumForAppend(a, b[..|b| - 1], k);
      assert (a + b)[..|a + b| - 1] == a + b[..|b| - 1];
    }
  }

  lemma {:induction false} SumForAbsent(entries: seq<Entry>, k: Key)
    requires !HasKey(entries, k)
    ensures SumFor(entries, k) == 0
  {
    if entries == [] {
    } else {
      var front := entries[..|entries| - 1];
      assert forall i :: 0 <= i < |front| ==> front[i] == entries[i];
      assert !HasKey(front, k);
      assert entries[|entries| - 1].key != k;
      SumForAbsent(front, k);
    }
  }

  predicate DistinctKeys(entries: seq<Entry>) {
    forall i, j :: 0 <= i < j < |entries| ==> entries[i].key != entries[j].key
  }

  lemma {:induction false} SumForDistinct(entries: seq<Entry>, i: nat)
    requires DistinctKeys(entries) && i < |entries|
    ensures SumFor(entries, entries[i].key) == entries[i].amount
  {
    var n := |entries| - 1;
    var front := entries[..n];
    if i == n {
      SumForAbsent(front, entries[n].key);
    } else {
      SumForDistinct(front, i);
    }
  }

  // ---------------------------------------------------------------- the balance table

  type Ledger = map<Key, int>

  function Balance(m: Ledger, k: Key): int {
    if k in m then m[k] else 0
  }

  function Credit(m: Ledger, e: Entry): Ledger {
    m[e.key := Balance(m, e.key) + e.amount]
  }

  /** The entries applied one by one: the plain meaning of a list of changes. */
  function CreditAll(m: Ledger, entries: seq<Entry>): Ledger {
    if entries == [] then m else Credit(CreditAll(m, entries[..|entries| - 1]), entries[|entries| - 1])
  }

  /** INSERT ... ON CONFLICT DO UPDATE in one statement: an error when it would touch a row twice. */
  function Upsert(m: Ledger, entries: seq<Entry>): Option<Ledger> {
    if DistinctKeys(entries) then Some(CreditAll(m, entries)) else None
  }

  lemma {:induction false} CreditAllAt(m: Ledger, entries: seq<Entry>, k: Key)
    ensures k in CreditAll(m, entries) <==> k in m || HasKey(entries, k)
    ensures Balance(CreditAll(m, entries), k) == Balance(m, k) + SumFor(entries, k)
  {
    if entries == [] {
    } else {
      var n := |entries| - 1;
      var front := entries[..n];
      CreditAllAt(m, front, k);
      if HasKey(entries, k) && entries[n].key != k {
        var i :| 0 <= i < |entries| && entries[i].key == k;
        assert front[i].key == k;
      }
      if HasKey(front, k) {
        var i :| 0 <= i < |front| && front[i].key == k;
        assert entries[i].key == k;
      }
      assert entries[n].key == k ==> HasKey(entries, k);
    }
  }

  /** Two lists with the same keys and the same sum per key have the same effect. */
  lemma SameSumsSameLedger(m: Ledger, a: seq<Entry>, b: seq<Entry>)
    requires forall k :: HasKey(a, k) <==> HasKey(b, k)
    requires forall k :: SumFor(a, k) == SumFor(b, k)
    ensures CreditAll(m, a) == CreditAll(m, b)
  {
    var ma, mb := CreditAll(m, a), CreditAll(m, b);
    forall k ensures k in ma <==> k in mb {
      CreditAllAt(m, a, k);
      CreditAllAt(m, b, k);
    }
    forall k | k in ma ensures ma[k] == mb[k] {
      CreditAllAt(m, a, k);
      CreditAllAt(m, b, k);
      assert Balance(ma, k) == Balance(mb, k);
    }
  }

  /** Each entry is added to the row of its key, a missing row counting as 0, and no other row changes. */
  ghost predicate EntriesAdded(m: Ledger, entries: seq<Entry>, m': Ledger) {
    && (forall i :: 0 <= i < |entries| ==>
          var k := entries[i].key;
          k in m' && m'[k] == (if k in m then m[k] else 0) + entries[i].amount)
    && (forall k :: k in m && !HasKey(entries, k) ==> k in m' && m'[k] == m[k])
    && (forall k :: k in m' ==> k in m || HasKey(entries, k))
  }

  /** The upsert fails exactly on a repeated key, and otherwise adds every entry to its row. */
  lemma UpsertAdds(m: Ledger, entries: seq<Entry>)
    ensures Upsert(m, entries).None? <==> exists i, j :: 0 <= i < j < |entries| && entries[i].key == entries[j].key
    ensures Upsert(m, entries).Some? ==> EntriesAdded(m, entries, Upsert(m, entries).value)
  {
    if DistinctKeys(entries) {
      var m' := CreditAll(m, entries);
      forall k ensures k in m' <==> k in m || HasKey(entries, k)
               ensures Balance(m', k) == Balance(m, k) + SumFor(entries, k)
               ensures !HasKey(entries, k) ==> SumFor(entries, k) == 0
      {
        CreditAllAt(m, entries, k);
        if !HasKey(entries, k) { SumForAbsent(entries, k); }
      }
      forall i | 0 <= i < |entries| ensures SumFor(entries, entries[i].key) == entries[i].amount {
        SumForDistinct(entries, i);
      }
      assert forall i :: 0 <= i < |entries| ==> HasKey(entries, entries[i].key);
      hide CreditAll, SumFor;
    }
  }

  // ---------------------------------------------------------------- aggregation

  /** An exact group-by: keys pairwise distinct, exactly the input keys, each with the sum of its inputs. */
  ghost predicate IsGroupBy(entries: seq<Entry>, out: seq<Entry>) {
    && DistinctKeys(out)
    && (forall k :: HasKey(out, k) <==> HasKey(entries, k))
    && (forall i :: 0 <= i < |out| ==> out[i].amount == SumFor(entries, out[i].key))
  }

  /** The single-statement upsert of a group-by never touches a row twice and equals applying
      the raw entries one by one. */
  lemma UpsertOfGroupBy(m: Ledger, entries: seq<Entry>, out: seq<Entry>)
    requires IsGroupBy(entries, out)
    ensures Upsert(m, out) == Some(CreditAll(m, entries))
  {
    forall k ensures SumFor(out, k) == SumFor(entries, k) {
      if HasKey(out, k) {
        var i :| 0 <= i < |out| && out[i].key == k;
        SumForDistinct(out, i);
      } else {
        SumForAbsent(out, k);
        SumForAbsent(entries, k);
      }
    }
    SameSumsSameLedger(m, out, entries);
  }

  // ---------------------------------------------------------------- row order does not matter

  /** What one log adds to one key. */
  function LogSum(log: Log, unpack: Unpacker, k: Key): int {
    match Extract(log, unpack)
    case None => 0
    case Some(es) => SumFor(es, k)
  }

  ghost predicate LogHas(log: Log, unpack: Unpacker, k: Key) {
    Extract(log, unpack).Some? && HasKey(Extract(log, unpack).value, k)
  }

  function PerLog(unpack: Unpacker, k: Key): Log -> int {
    (log: Log) => LogSum(log, unpack, k)
  }

  lemma HasKeyAppend(a: seq<Entry>, b: seq<Entry>, k: Key)
    ensures HasKey(a + b, k) <==> HasKey(a, k) || HasKey(b, k)
  {
    if HasKey(a, k) {
      var i :| 0 <= i < |a| && a[i].key == k;
      assert (a + b)[i].key == k;
    }
    if HasKey(b, k) {
      var i :| 0 <= i < |b| && b[i].key == k;
      assert (a + b)[|a| + i].key == k;
    }
  }

  lemma {:induction false} EntriesDefined(logs: seq<Log>, unpack: Unpacker)
    ensures EntriesOf(logs, unpack).Some? <==> forall log :: log in logs ==> Extract(log, unpack).Some?
  {
    if logs == [] {
    } else {
      var front, last := logs[..|logs| - 1], logs[|logs| - 1];
      assert logs == front + [last];
      EntriesDefined(front, unpack);
    }
  }

  lemma {:induction false} EntriesSum(logs: seq<Log>, unpack: Unpacker, k: Key)
    requires EntriesOf(logs, unpack).Some?
    ensures SumFor(EntriesOf(logs, unpack).value, k) == SumBy(logs, PerLog(unpack, k))
  {
    if logs == [] {
    } else {
      var front, last := logs[..|logs| - 1], logs[|logs| - 1];
      EntriesSum(front, unpack, k);
      SumForAppend(EntriesOf(front, unpack).value, Extract(last, unpack).value, k);
    }
  }

  lemma {:induction false} EntriesKeys(logs: seq<Log>, unpack: Unpacker, k: Key)
    requires EntriesOf(logs, unpack).Some?
    ensures HasKey(EntriesOf(logs, unpack).value, k) <==> exists log :: log in logs && LogHas(log, unpack, k)
  {
    if logs == [] {
    } else {
      var front, last := logs[..|logs| - 1], logs[|logs| - 1];
      assert logs == front + [last];
      EntriesKeys(front, unpack, k);
      HasKeyAppend(EntriesOf(front, unpack).value, Extract(last, unpack).value, k);
      assert LogHas(last, unpack, k) <==> HasKey(Extract(last, unpack).value, k);
    }
  }

  /** The order in which a block's rows come back does not matter. */
  lemma RowOrderIrrelevant(m: Ledger, a: seq<Log>, b: seq<Log>, unpack: Unpacker)
    requires multiset(a) == multiset(b)
    ensures EntriesOf(a, unpack).Some? <==> EntriesOf(b, unpack).Some?
    ensures EntriesOf(a, unpack).Some? ==>
      CreditAll(m, EntriesOf(a, unpack).value) == CreditAll(m, EntriesOf(b, unpack).value)
  {
    assert forall log :: log in a <==> log in multiset(a);
    assert forall log :: log in b <==> log in multiset(b);
    EntriesDefined(a, unpack);
    EntriesDefined(b, unpack);
    if EntriesOf(a, unpack).Some? {
      var ea, eb := EntriesOf(a, unpack).value, EntriesOf(b, unpack).value;
      forall k ensures HasKey(ea, k) <==> HasKey(eb, k) {
        EntriesKeys(a, unpack, k);
        EntriesKeys(b, unpack, k);
      }
      forall k ensures SumFor(ea, k) == SumFor(eb, k) {
        EntriesSum(a, unpack, k);
        EntriesSum(b, unpack, k);
        SumByPermuted(a, b, PerLog(unpack, k));
      }
      SameSumsSameLedger(m, ea, eb);
    }
  }

  // ---------------------------------------------------------------- conservation

  ghost function Pick(m: Ledger): Key
    requires m != map[]
    ensures Pick(m) in m
  {
    var k :| k in m; k
  }

  function Share(k: Key, amount: int, token: string, id: string): int {
    if k.token == token && k.id == id then amount else 0
  }

  /** The units of (token, id) over all wallets. */
  ghost function Total(m: Ledger, token: string, id: string): int
    decreases |m|
  {
    if m == map[] then 0
    else
      var k := Pick(m);
      Share(k, m[k], token, id) + Total(m - {k}, token, id)
  }

  lemma {:induction false} TotalRemove(m: Ledger, k: Key, token: string, id: string)
    requires k in m
    ensures Total(m, token, id) == Share(k, m[k], token, id) + Total(m - {k}, token, id)
    decreases |m|
  {
    var j := Pick(m);
    if j != k {
      TotalRemove(m - {j}, k, token, id);
      TotalRemove(m - {k}, j, token, id);
      assert m - {j} - {k} == m - {k} - {j};
    }
  }

  lemma TotalCredit(m: Ledger, e: Entry, token: string, id: string)
    ensures Total(Credit(m, e), token, id) == Total(m, token, id) + Share(e.key, e.amount, token, id)
  {
    var m' := Credit(m, e);
    TotalRemove(m', e.key, token, id);
    assert m' - {e.key} == m - {e.key};
    if e.key in m {
      TotalRemove(m, e.key, token, id);
    } else {
      assert m - {e.key} == m;
    }
  }

  /** What a list of entries adds to (token, id) over all wallets. */
  function Net(entries: seq<Entry>, token: string, id: string): int {
    if entries == [] then 0
    else
      var last := entries[|entries| - 1];
      Net(entries[..|entries| - 1], token, id) + Share(last.key, last.amount, token, id)
  }

  lemma {:induction false} NetAppend(a: seq<Entry>, b: seq<Entry>, token: string, id: string)
    ensures Net(a + b, token, id) == Net(a, token, id) + Net(b, token, id)
  {
    if b == [] {
      assert a + b == a;
    } else {
      NetAppend(a, b[..|b| - 1], token, id);
      assert (a + b)[..|a + b| - 1] == a + b[..|b| - 1];
    }
  }

  lemma {:induction false} TotalCreditAll(m: Ledger, entries: seq<Entry>, token: string, id: string)
    ensures Total(CreditAll(m, entries), token, id) == Total(m, token, id) + Net(entries, token, id)
  {
    if entries == [] {
    } else {
      var front := entries[..|entries| - 1];
      TotalCreditAll(m, front, token, id);
      TotalCredit(CreditAll(m, front), entries[|entries| - 1], token, id);
    }
  }

  lemma MoveNetsZero(from: string, to: string, t: string, i: string, value: nat, token: string, id: string)
    ensures Net(Move(from, to, t, i, value), token, id) == 0
  {
    var es := Move(from, to, t, i, value);
    assert es[..1] == [es[0]] && es[..1][..0] == [];
    assert Net(es[..1][..0], token, id) == 0;
    assert Net(es[..1], token, id) == Share(es[0].key, es[0].amount, token, id);
  }

  lemma {:induction false} MovesNetZero(from: string, to: string, t: string, ids: seq<nat>, values: seq<nat>,
                                        token: string, id: string)
    requires |ids| == |values|
    ensures Net(Moves(from, to, t, ids, values), token, id) == 0
  {
    if ids == [] {
    } else {
      var n := |ids| - 1;
      MovesNetZero(from, to, t, ids[..n], values[..n], token, id);
      MoveNetsZero(from, to, t, HashHex(ids[n]), values[n], token, id);
      NetAppend(Moves(from, to, t, ids[..n], values[..n]), Move(from, to, t, HashHex(ids[n]), values[n]), token, id);
    }
  }

  lemma ExtractNetsZero(log: Log, unpack: Unpacker, token: string, id: string)
    requires Extract(log, unpack).Some?
    ensures Net(Extract(log, unpack).value, token, id) == 0
  {
    var topics := log.topics;
    match FindStandard(topics)
    case NoStandard =>
    case ERC20 => MoveNetsZero(topics[1], topics[2], log.emitter, "", FromBytes(FromHex(log.datas)), token, id);
    case ERC721 => MoveNetsZero(topics[1], topics[2], log.emitter, topics[3], 1, token, id);
    case ERC1155Single =>
      var data := FromHex(log.datas);
      if |data| >= 64 {
        MoveNetsZero(topics[2], topics[3], log.emitter, HashHex(FromBytes(data[0..32])), FromBytes(data[32..64]),
                     token, id);
      }
    case ERC1155Batch =>
      var out := unpack(FromHex(log.datas));
      if out.Some? {
        var n := Min(|out.value.0|, |out.value.1|);
        MovesNetZero(topics[2], topics[3], log.emitter, out.value.0[..n], out.value.1[..n], token, id);
      }
  }

  /** Whatever the logs, mints, burns and self-transfers included, they move units and create none. */
  lemma {:induction false} LogsConserve(m: Ledger, logs: seq<Log>, unpack: Unpacker, token: string, id: string)
    requires EntriesOf(logs, unpack).Some?
    ensures Net(EntriesOf(logs, unpack).value, token, id) == 0
    ensures Total(CreditAll(m, EntriesOf(logs, unpack).value), token, id) == Total(m, token, id)
  {
    if logs == [] {
    } else {
      var front, last := logs[..|logs| - 1], logs[|logs| - 1];
      LogsConserve(m, front, unpack, token, id);
      ExtractNetsZero(last, unpack, token, id);
      NetAppend(EntriesOf(front, unpack).value, Extract(last, unpack).value, token, id);
    }
    TotalCreditAll(m, EntriesOf(logs, unpack).value, token, id);
  }
}
