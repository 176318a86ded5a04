/** How the balances come apart from the stored logs: runs that follow the chain and store complete blocks only, but
    change the transfers of a height after the balance loop has passed it
    (internal/core/services/balancefill.go:136-191). */
module BrokenLedgers {
  import opened Wrappers
  import opened Tables
  import opened Forwardfill
  import opened LogReads
  import opened Seqs
  import opened Balances
  import opened Indexer
  import opened Completeness
  import ForeignKeys
  import Coverage
  import EndToEnd
  import LostHeights
  import Backfill
  import Ledgers

  // ---------------------------------------------------------------- a chain with one transfer

  const TOPICS := [TRANSFER, "a", "b", "i"]
  const MOVE_LOG := Log(2, "c", "0x", TOPICS)

  /** A block of height 2 with the transfer of token ("c", "i") from a to b. */
  const WITH_MOVE := BlockTxsEvents(
    Block("mv", 2, "", 0, 0, "m", 0), [Transaction(2, "t", "x", None, 0, 1)], [Event(2, "t", 0, "c", "0x", TOPICS)])

  const MOVE_TXS: Table<string, TxCols> := map["t" := Row(2, TxCols("x", None, 0))]
  const MOVE_EVENTS: Table<EventKey, EventCols> := map[EventKey("t", 0) := Row(2, EventCols("c", "0x", TOPICS))]

  /** All other blocks are empty; the height of a block is the length of its hash. */
  function OneMove(): World {
    (hash: string) => if hash == "mv" then WITH_MOVE else LostHeights.EmptyBlocks()(hash)
  }

  function Ctx(unpack: Unpacker): Context {
    Context(OneMove(), unpack)
  }

  /** The empty blocks of heights 1 to 99 but one. */
  function EmptyBut(h: nat): map<nat, Block> {
    map n: nat | 1 <= n <= 99 && n != h :: LostHeights.EmptyBlocks()(LostHeights.HashAt(n)).block
  }

  /** Backfill of [from, target] has completed, heads came up to 99, and the balance loop is about to start at 2. */
  function Running(rows: Store, from: nat, target: nat, lost: set<nat>): State {
    State(rows, target, Ledgers.Fresh(map[], 2), Listening, [], Backfill.Completed, true,
          Backfill.BfParams(from, target, 1), 99, None, lost, true, {})
  }

  /** Heights 1 to 99 stored, all blocks empty. */
  const NOTHING_LOST := Running(Store(EmptyBut(0), map[], map[]), 2, 99, {})
  /** The same, but forwardfill lost height 2. */
  const TWO_LOST := Running(Store(EmptyBut(2), map[], map[]), 2, 99, {2})
  /** It lost height 2, which is above the target. */
  const TWO_LOST_ABOVE := Running(Store(EmptyBut(2), map[], map[]), 1, 1, {2})
  /** Heights 1 to 99 stored, the block of height 2 with the transfer. */
  const MOVE_STORED := Running(Store(EmptyBut(2)[2 := WITH_MOVE.block], MOVE_TXS, MOVE_EVENTS), 2, 99, {})

  /** All that the ledger theorem asks of a start. */
  ghost predicate GoodStart(s: State, c: Context) {
    Coverage.Vouched(s, c.w) && EveryBlockFull(s.rows, c.w) && s.ledger == Ledgers.Fresh(map[], 2)
  }

  /** The stored logs do not account for the balances. */
  ghost predicate Broken(s: State, c: Context) {
    && (exists logs: Ledgers.Logs :: EndToEnd.StoredLogs(s.rows, logs))
    && forall logs: Ledgers.Logs :: EndToEnd.StoredLogs(s.rows, logs) ==>
         !Ledgers.Accounts(map[], 2, s.ledger, logs, c.unpack)
  }

  ghost predicate Reaches(s0: State, trace: seq<Action>, s: State, c: Context) {
    Run(Free(Follows), s0, trace, c) == Some(s)
  }

  lemma Push(s0: State, trace: seq<Action>, s: State, a: Action, c: Context)
    returns (trace': seq<Action>, s': State)
    requires Reaches(s0, trace, s, c) && Enabled(s, a, c) && Allowed(Follows, s, a) && FreeStep(s, a)
    ensures Reaches(s0, trace', s', c) && s' == Next(s, a, c)
  {
    assert Allowed(Free(Follows), s, a);
    RunPush(Free(Follows), s0, trace, s, a, c);
    trace', s' := trace + [a], Next(s, a, c);
  }

  // ---------------------------------------------------------------- the block with the transfer

  lemma MoveRows()
    ensures Fetched(OneMove(), WITH_MOVE)
    ensures Own(TxEntries(WITH_MOVE.txs)) == MOVE_TXS && Own(EventEntries(WITH_MOVE.events)) == MOVE_EVENTS
  {
    ForeignKeys.OwnSingle(TxEntry(WITH_MOVE.txs[0]));
    ForeignKeys.OwnSingle(EventEntry(WITH_MOVE.events[0]));
    assert TxEntries(WITH_MOVE.txs) == [TxEntry(WITH_MOVE.txs[0])];
    assert EventEntries(WITH_MOVE.events) == [EventEntry(WITH_MOVE.events[0])];
  }

  lemma OthersEmpty(hash: string)
    requires hash != "mv"
    ensures Fetched(OneMove(), OneMove()(hash)) && OneMove()(hash).block.id == |hash|
    ensures Own(TxEntries(OneMove()(hash).txs)) == map[] && Own(EventEntries(OneMove()(hash).events)) == map[]
  {
    var item := OneMove()(hash);
    assert item == LostHeights.EmptyBlocks()(hash);
    assert item.block.id == |hash| && item.block.hash == hash && item.txs == [] && item.events == [];
    assert TxEntries(item.txs) == [] && EventEntries(item.events) == [];
  }

  lemma NotMove(n: nat)
    ensures LostHeights.HashAt(n) != "mv"
  {
    if |LostHeights.HashAt(n)| == 2 { assert LostHeights.HashAt(n)[0] != "mv"[0]; }
  }

  lemma EmptyStoreFull(h: nat)
    ensures var s := Store(EmptyBut(h), map[], map[]); Sound(s, OneMove()) && EveryBlockFull(s, OneMove())
  {
    var s := Store(EmptyBut(h), map[], map[]);
    forall n | n in s.blocks
      ensures s.blocks[n].id == n && Fetched(OneMove(), OneMove()(s.blocks[n].hash))
      ensures OneMove()(s.blocks[n].hash).block == s.blocks[n] && Backfill.FullyStored(s, OneMove()(s.blocks[n].hash))
    {
      NotMove(n);
      OthersEmpty(LostHeights.HashAt(n));
    }
  }

  /** Storing the block where there is none, and no other row. */
  lemma CreatesMove(rows: Store)
    requires 2 !in rows.blocks && rows.txs == map[] && rows.events == map[]
    requires forall h :: h in rows.blocks ==> rows.blocks[h].hash != "mv"
    ensures CreateSpec(rows, WITH_MOVE) == Some(Store(rows.blocks[2 := WITH_MOVE.block], MOVE_TXS, MOVE_EVENTS))
    ensures BulkSpec(rows, [WITH_MOVE]) == CreateSpec(rows, WITH_MOVE)
    ensures RowsFree(rows, WITH_MOVE) && FreeInTurn(rows, [WITH_MOVE])
  {
    MoveRows();
    InsertAllIsMerge(rows.txs, TxEntries(WITH_MOVE.txs));
    InsertAllIsMerge(rows.events, EventEntries(WITH_MOVE.events));
    BulkRefinesCreate(rows, [WITH_MOVE]);
    assert [WITH_MOVE][..0] == [];
    assert CreateAll(rows, [WITH_MOVE][..0]) == Some(rows);
    assert FreeInTurn(rows, [WITH_MOVE][..0]);
  }

  // ---------------------------------------------------------------- what is broken then

  /** A store with that block has exactly its transfer at height 2. */
  lemma StoredMove(rows: Store, logs: Ledgers.Logs)
    requires rows.events == MOVE_EVENTS && EndToEnd.StoredLogs(rows, logs)
    ensures logs(2) == [MOVE_LOG]
  {
    var k := EventKey("t", 0);
    var keys: seq<EventKey> :| IsLogReadOf(rows.events, TRANSFER_SIGNATURES, 2, 2, logs(2), keys);
    assert Selected(rows.events, TRANSFER_SIGNATURES, 2, 2, k);
    assert forall i :: 0 <= i < |keys| ==> keys[i] in keys && keys[i] == k;
    assert k in keys;
    assert |keys| == 1 by { assert multiset(keys)[k] == 1 by { DistinctCount(keys, k); } AllSame(keys, k); }
    assert logs(2)[0] == LogOf(rows.events[keys[0]]);
  }

  lemma NoEventsNoLogs(h: nat)
    ensures IsLogRead(map[], TRANSFER_SIGNATURES, h, h, [])
  {
    assert IsLogReadOf(map[], TRANSFER_SIGNATURES, h, h, [], []);
  }

  /** No event, no log. */
  lemma StoredNothing(rows: Store, logs: Ledgers.Logs)
    requires rows.events == map[] && EndToEnd.StoredLogs(rows, logs)
    ensures logs(2) == []
  {
    NoEventsNoLogs(2);
    ReadsOfSameRowsAgree(rows.events, TRANSFER_SIGNATURES, 2, 2, logs(2), []);
    assert |multiset(logs(2))| == |logs(2)|;
  }

  /** Every height has some logs. */
  lemma SomeLogs(rows: Store) returns (logs: Ledgers.Logs)
    requires rows.events == map[] || rows.events == MOVE_EVENTS
    ensures EndToEnd.StoredLogs(rows, logs)
  {
    var k := EventKey("t", 0);
    logs := h => if k in rows.events && h == 2 then [MOVE_LOG] else [];
    forall h ensures IsLogRead(rows.events, TRANSFER_SIGNATURES, h, h, logs(h)) {
      if k in rows.events && h == 2 {
        assert IsLogReadOf(rows.events, TRANSFER_SIGNATURES, 2, 2, [MOVE_LOG], [k]);
      } else {
        assert IsLogReadOf(rows.events, TRANSFER_SIGNATURES, h, h, [], []);
      }
    }
  }

  lemma {:induction false} AllSame<T>(s: seq<T>, x: T)
    requires forall i :: 0 <= i < |s| ==> s[i] == x
    ensures multiset(s)[x] == |s|
  {
    if s != [] {
      AllSame(s[..|s| - 1], x);
      assert s == s[..|s| - 1] + [s[|s| - 1]];
    }
  }

  const BEFORE := Key("a", "c", "i")
  const AFTER := Key("b", "c", "i")
  const MOVED_UNIT := [Entry(BEFORE, 0 - 1), Entry(AFTER, 1)]

  lemma MovedSums()
    ensures SumFor(MOVED_UNIT, AFTER) == 1 && SumFor(MOVED_UNIT, BEFORE) == -1
    ensures IsGroupBy(MOVED_UNIT, MOVED_UNIT)
  {
    assert BEFORE != AFTER;
    SumForDistinct(MOVED_UNIT, 0);
    SumForDistinct(MOVED_UNIT, 1);
    hide SumFor;
  }

  lemma MoveEntries(unpack: Unpacker)
    ensures EntriesOf([MOVE_LOG], unpack) == Some(MOVED_UNIT)
  {
    Erc721MovesOne("i", "a", "b", "c", "0x", 2, unpack);
    hide Extract;
    assert [MOVE_LOG][..0] == [] && [] + MOVED_UNIT == MOVED_UNIT;
    assert EntriesOf([MOVE_LOG][..0], unpack) == Some([]);
  }

  /** Height 2 was passed once and height 3 not yet: the weighted sum is what height 2 adds. */
  lemma WeightedOfTwo(logs: Ledgers.Logs, unpack: Unpacker, k: Key)
    ensures Ledgers.Weighted(2, 4, multiset{2}, logs, unpack, k) == Ledgers.Delta(logs(2), unpack, k)
  {
    assert Ledgers.Weighted(2, 2, multiset{2}, logs, unpack, k) == 0;
    assert Ledgers.Weighted(2, 3, multiset{2}, logs, unpack, k) == Ledgers.Delta(logs(2), unpack, k);
  }

  /** The loop passed height 2 without a transfer, and now it has one. */
  lemma PassedEmptyIsBroken(s: State, c: Context)
    requires s.rows.events == MOVE_EVENTS
    requires s.ledger.view.balances == map[] && s.ledger.view.cursor == 3 && s.ledger.passes == [2]
    ensures Broken(s, c)
  {
    forall logs: Ledgers.Logs | EndToEnd.StoredLogs(s.rows, logs)
      ensures !Ledgers.Accounts(map[], 2, s.ledger, logs, c.unpack)
    {
      StoredMove(s.rows, logs);
      MoveEntries(c.unpack);
      MovedSums();
      WeightedOfTwo(logs, c.unpack, AFTER);
      assert multiset(s.ledger.passes) == multiset{2};
      assert Balance(s.ledger.view.balances, AFTER) == Balance(map[], AFTER) == 0;
    }
    var logs := SomeLogs(s.rows);
  }

  /** It passed height 2 with the transfer, and now there is none. */
  lemma PassedMoveIsBroken(s: State, c: Context)
    requires s.rows.events == map[]
    requires s.ledger.view.balances == CreditAll(map[], MOVED_UNIT)
    requires s.ledger.view.cursor == 3 && s.ledger.passes == [2]
    ensures Broken(s, c)
  {
    forall logs: Ledgers.Logs | EndToEnd.StoredLogs(s.rows, logs)
      ensures !Ledgers.Accounts(map[], 2, s.ledger, logs, c.unpack)
    {
      StoredNothing(s.rows, logs);
      MovedSums();
      CreditAllAt(map[], MOVED_UNIT, AFTER);
      WeightedOfTwo(logs, c.unpack, AFTER);
      assert multiset(s.ledger.passes) == multiset{2};
      assert Balance(map[], AFTER) == 0 && SumFor([], AFTER) == 0;
    }
    var logs := SomeLogs(s.rows);
  }

  // ---------------------------------------------------------------- height 2 is passed without a transfer

  lemma ComesToTwo(s0: State, c: Context) returns (trace: seq<Action>, s: State)
    requires s0.token && s0.ledger == Ledgers.Fresh(map[], 2) && IsMax(s0.rows.blocks, 99)
    ensures Reaches(s0, trace, s, c)
    ensures s == s0.(token := false, ledger := Ledgers.History(Ledgers.BalView(map[], 2, Ledgers.Reading(2)), [], 0))
  {
    assert Reaches(s0, [], s0, c);
    hide Reaches;
    trace, s := Push(s0, [], s0, Bal(Ledgers.Start), c);
    trace, s := Push(s0, trace, s, Bal(Ledgers.Poll(99)), c);
  }

  /** The loop waits for the token, finds height 2 behind the lag, reads no logs and advances. */
  lemma PassesTwo(s0: State, c: Context) returns (trace: seq<Action>, s: State)
    requires s0.token && s0.ledger == Ledgers.Fresh(map[], 2) && s0.rows.events == map[] && IsMax(s0.rows.blocks, 99)
    ensures Reaches(s0, trace, s, c)
    ensures s == s0.(token := false, seen := s0.seen + {2},
                     ledger := Ledgers.History(Ledgers.BalView(map[], 3, Ledgers.Polling(3)), [2], 0))
  {
    NoEventsNoLogs(2);
    hide Reaches, IsMax, IsLogRead;
    trace, s := ComesToTwo(s0, c);
    trace, s := Push(s0, trace, s, Bal(Ledgers.ReadLogs(2, [])), c);
    trace, s := Push(s0, trace, s, Bal(Ledgers.Advance(true)), c);
  }

  /** A head with the transfer arrives where no block is stored. */
  lemma HeadFillsTwo(s0: State, before: seq<Action>, sb: State, c: Context) returns (trace: seq<Action>, s: State)
    requires Reaches(s0, before, sb, c) && c.w == OneMove() && sb.ff == Creating(WITH_MOVE)
    requires 2 !in sb.rows.blocks && sb.rows.txs == map[] && sb.rows.events == map[]
    requires forall h :: h in sb.rows.blocks ==> sb.rows.blocks[h].hash != "mv"
    ensures Reaches(s0, trace, s, c) && s.rows.events == MOVE_EVENTS && s.ledger == sb.ledger
  {
    CreatesMove(sb.rows);
    hide Reaches;
    trace, s := Push(s0, before, sb, Ff(Create(true)), c);
  }

  /** A later run fetches the block with the transfer at height 2 ... */
  lemma RunFetchesTwo(s0: State, before: seq<Action>, sb: State, c: Context, target: nat)
    returns (trace: seq<Action>, s: State)
    requires Reaches(s0, before, sb, c) && Fetched(c.w, WITH_MOVE) && AllStopped(sb)
    requires Backfill.Start(sb.backCursor, sb.p.from) == 2 <= target <= 99 && sb.p.target <= target
    ensures Reaches(s0, trace, s, c) && s.rows == sb.rows && s.bf == Backfill.Ready(2, 2, [WITH_MOVE])
    ensures s.ledger == Ledgers.Next(sb.ledger, Ledgers.Restart, c.unpack)
  {
    hide Reaches, Fetched;
    trace, s := Push(s0, before, sb, Restart(target, 1), c);
    trace, s := Push(s0, trace, s, Bf(Backfill.Begin), c);
    assert Backfill.BatchEnd(2, 1, target) == 2;
    trace, s := Push(s0, trace, s, Bf(Backfill.Fetch([WITH_MOVE])), c);
  }

  /** ... and writes it. */
  lemma RunFillsTwo(s0: State, before: seq<Action>, sb: State, c: Context, target: nat)
    returns (trace: seq<Action>, s: State)
    requires Reaches(s0, before, sb, c) && c.w == OneMove() && AllStopped(sb)
    requires Backfill.Start(sb.backCursor, sb.p.from) == 2 <= target <= 99 && sb.p.target <= target
    requires 2 !in sb.rows.blocks && sb.rows.txs == map[] && sb.rows.events == map[]
    requires forall h :: h in sb.rows.blocks ==> sb.rows.blocks[h].hash != "mv"
    ensures Reaches(s0, trace, s, c) && s.rows.events == MOVE_EVENTS
    ensures s.ledger == Ledgers.Next(sb.ledger, Ledgers.Restart, c.unpack)
  {
    CreatesMove(sb.rows);
    MoveRows();
    hide Reaches, Fetched, CreateSpec;
    trace, s := RunFetchesTwo(s0, before, sb, c, target);
    trace, s := Push(s0, trace, s, Bf(Backfill.Write(true)), c);
  }

  lemma ReadsMove(s0: State, c: Context) returns (trace: seq<Action>, s: State)
    requires s0.token && s0.ledger == Ledgers.Fresh(map[], 2) && s0.rows.events == MOVE_EVENTS &&
             IsMax(s0.rows.blocks, 99)
    ensures Reaches(s0, trace, s, c)
    ensures s == s0.(token := false, seen := s0.seen + {2},
                     ledger := Ledgers.History(Ledgers.BalView(map[], 2, Ledgers.Crediting(2, [MOVE_LOG])), [], 0))
  {
    assert IsLogReadOf(s0.rows.events, TRANSFER_SIGNATURES, 2, 2, [MOVE_LOG], [EventKey("t", 0)]);
    hide Reaches, IsMax, IsLogRead;
    trace, s := ComesToTwo(s0, c);
    trace, s := Push(s0, trace, s, Bal(Ledgers.ReadLogs(2, [MOVE_LOG])), c);
  }

  /** The same with the transfer: it is read, and credited. */
  lemma CreditsTwo(s0: State, c: Context) returns (trace: seq<Action>, s: State)
    requires s0.token && s0.ledger == Ledgers.Fresh(map[], 2) && s0.rows.events == MOVE_EVENTS &&
             IsMax(s0.rows.blocks, 99)
    ensures Reaches(s0, trace, s, c)
    ensures s.ledger == Ledgers.History(Ledgers.BalView(CreditAll(map[], MOVED_UNIT), 3, Ledgers.Polling(3)), [2], 0)
    ensures s.rows == s0.rows && s.ff == s0.ff && s.top == s0.top
  {
    MoveEntries(c.unpack);
    MovedSums();
    UpsertOfGroupBy(map[], MOVED_UNIT, MOVED_UNIT);
    hide Reaches, IsMax, IsLogRead, IsGroupBy, CreditAll, EntriesOf;
    trace, s := ReadsMove(s0, c);
    trace, s := Push(s0, trace, s, Bal(Ledgers.Upsert(MOVED_UNIT, true)), c);
    trace, s := Push(s0, trace, s, Bal(Ledgers.Advance(true)), c);
  }

  // ---------------------------------------------------------------- the ways

  lemma StartsGood(h: nat, from: nat, target: nat, lost: set<nat>, c: Context)
    requires c.w == OneMove() && ((h == 0 && lost == {}) || (h == 2 && lost == {2})) && 1 <= from && 1 <= target <= 99
    ensures
      var s0 := Running(Store(EmptyBut(h), map[], map[]), from, target, lost);
      && GoodStart(s0, c) && IsMax(s0.rows.blocks, 99)
      && forall n :: n in s0.rows.blocks ==> s0.rows.blocks[n].hash != "mv"
  {
    EmptyStoreFull(h);
    assert 99 in EmptyBut(h);
    forall n | n in EmptyBut(h) ensures EmptyBut(h)[n].hash != "mv" { NotMove(n); }
    hide EveryBlockFull, Sound;
  }

  /** Without a loss it is a point of a run in which nothing is missing. */
  lemma NothingIsMissing(c: Context)
    requires c.w == OneMove()
    ensures Coverage.NoMissing(NOTHING_LOST, c.w)
  {
    StartsGood(0, 2, 99, {}, c);
    hide EveryBlockFull, Sound;
  }

  lemma ReorgOfTwo(s0: State, before: seq<Action>, sb: State, c: Context, item: BlockTxsEvents)
    returns (trace: seq<Action>, s: State)
    requires Reaches(s0, before, sb, c) && Fetched(c.w, item) && item.block.id == 2 && sb.ff.Listening? && sb.top == 99
    requires IsReorg(sb.rows, item)
    ensures Reaches(s0, trace, s, c) && s.rows == DeleteSpec(sb.rows, 2)
    ensures s.ff == Creating(item) && s.ledger == sb.ledger
  {
    hide Reaches, Fetched;
    trace, s := Push(s0, before, sb, Ff(Head(item)), c);
    trace, s := Push(s0, trace, s, Ff(Read), c);
    trace, s := Push(s0, trace, s, Ff(Delete(true)), c);
    trace, s := Push(s0, trace, s, Ff(Announce(true)), c);
  }

  /** A reorg deeper than the lag: height 2 is replaced after the loop has passed it. */
  lemma DeepReorgBreaks(unpack: Unpacker) returns (trace: seq<Action>, s: State)
    ensures GoodStart(NOTHING_LOST, Ctx(unpack)) && Coverage.NoMissing(NOTHING_LOST, OneMove())
    ensures Run(Free(Follows), NOTHING_LOST, trace, Ctx(unpack)) == Some(s) && Broken(s, Ctx(unpack))
  {
    var s0, c := NOTHING_LOST, Ctx(unpack);
    StartsGood(0, 2, 99, {}, c);
    NothingIsMissing(c);
    MoveRows();
    hide GoodStart, Coverage.NoMissing, Broken, Run, Next, Enabled;
    trace, s := PassesTwo(s0, c);
    assert 2 in s.rows.blocks;
    trace, s := ReorgOfTwo(s0, trace, s, c, WITH_MOVE);
    trace, s := HeadFillsTwo(s0, trace, s, c);
    PassedEmptyIsBroken(s, c);
  }

  lemma MoveStoredIsFull()
    ensures Sound(MOVE_STORED.rows, OneMove()) && EveryBlockFull(MOVE_STORED.rows, OneMove())
  {
    var rows := Store(EmptyBut(2), map[], map[]);
    EmptyStoreFull(2);
    forall n | n in EmptyBut(2) ensures EmptyBut(2)[n].hash != "mv" { NotMove(n); }
    CreatesMove(rows);
    MoveRows();
    hide EveryBlockFull, Sound, RowsFree;
    CreateKeepsFullIff(rows, OneMove(), WITH_MOVE, MOVE_STORED.rows);
  }

  lemma MoveStoredIsGood(c: Context)
    requires c.w == OneMove()
    ensures GoodStart(MOVE_STORED, c) && Coverage.NoMissing(MOVE_STORED, c.w) && IsMax(MOVE_STORED.rows.blocks, 99)
  {
    MoveStoredIsFull();
    hide EveryBlockFull, Sound;
    assert 99 in MOVE_STORED.rows.blocks;
  }

  /** The other way round: the reorg takes a transfer away that was credited. */
  lemma ForgottenTransferBreaks(unpack: Unpacker) returns (trace: seq<Action>, s: State)
    ensures GoodStart(MOVE_STORED, Ctx(unpack)) && Coverage.NoMissing(MOVE_STORED, OneMove())
    ensures Run(Free(Follows), MOVE_STORED, trace, Ctx(unpack)) == Some(s) && Broken(s, Ctx(unpack))
  {
    var s0, c, item := MOVE_STORED, Ctx(unpack), OneMove()("aa");
    MoveStoredIsGood(c);
    OthersEmpty("aa");
    assert "aa"[0] != "mv"[0];
    assert IsReorg(s0.rows, item);
    assert DeleteSpec(s0.rows, 2).events == map[];
    hide GoodStart, Coverage.NoMissing, Broken, CreditAll, IsMax, IsReorg, Fetched, DeleteSpec, Run, Next, Enabled;
    trace, s := CreditsTwo(s0, c);
    trace, s := ReorgOfTwo(s0, trace, s, c, item);
    PassedMoveIsBroken(s, c);
  }

  /** A lost height is passed as empty, and then a head for it arrives. */
  lemma LateHeadBreaks(unpack: Unpacker) returns (trace: seq<Action>, s: State)
    ensures GoodStart(TWO_LOST, Ctx(unpack))
    ensures Run(Free(Follows), TWO_LOST, trace, Ctx(unpack)) == Some(s) && Broken(s, Ctx(unpack))
  {
    var s0, c := TWO_LOST, Ctx(unpack);
    StartsGood(2, 2, 99, {2}, c);
    hide GoodStart, Broken;
    MoveRows();
    trace, s := PassesTwo(s0, c);
    trace, s := Push(s0, trace, s, Ff(Head(WITH_MOVE)), c);
    trace, s := Push(s0, trace, s, Ff(Read), c);
    trace, s := HeadFillsTwo(s0, trace, s, c);
    PassedEmptyIsBroken(s, c);
  }

  /** A height lost above the target is passed as empty, and after a crash the next run fetches it. */
  lemma RestartBreaks(unpack: Unpacker) returns (trace: seq<Action>, s: State)
    ensures GoodStart(TWO_LOST_ABOVE, Ctx(unpack))
    ensures Run(Free(Follows), TWO_LOST_ABOVE, trace, Ctx(unpack)) == Some(s) && Broken(s, Ctx(unpack))
  {
    var s0, c := TWO_LOST_ABOVE, Ctx(unpack);
    StartsGood(2, 1, 1, {2}, c);
    hide GoodStart, Broken;
    trace, s := PassesTwo(s0, c);
    trace, s := Push(s0, trace, s, Crash, c);
    trace, s := RunFillsTwo(s0, trace, s, c, 2);
    PassedEmptyIsBroken(s, c);
  }

  /** A height lost below the backfill cursor is passed as empty, and fetched again after a reset of that cursor. */
  lemma ResetBreaks(unpack: Unpacker) returns (trace: seq<Action>, s: State)
    ensures GoodStart(TWO_LOST, Ctx(unpack))
    ensures Run(Free(Follows), TWO_LOST, trace, Ctx(unpack)) == Some(s) && Broken(s, Ctx(unpack))
  {
    var s0, c := TWO_LOST, Ctx(unpack);
    StartsGood(2, 2, 99, {2}, c);
    hide GoodStart, Broken;
    trace, s := PassesTwo(s0, c);
    trace, s := Push(s0, trace, s, Crash, c);
    trace, s := Push(s0, trace, s, Reset, c);
    trace, s := RunFillsTwo(s0, trace, s, c, 99);
    PassedEmptyIsBroken(s, c);
  }
}
