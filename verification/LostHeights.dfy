/** What becomes of a height that forwardfill deleted and did not re-create
    (internal/core/services/forwardfill.go:35-55, internal/core/services/backfill.go:19-22): backfill, which resumes
    behind its cursor, does not fetch it again, and the balance loop passes it as a block without transfers. */
module LostHeights {
  import opened Wrappers
  import opened Tables
  import opened Forwardfill
  import opened Indexer
  import opened Coverage
  import opened LogReads
  import Backfill
  import Ledgers
  import Balances

  /** The filler holds no head of that height. */
  predicate HandsOff(pc: FfPc, h: nat) {
    InHand(pc) ==> pc.item.block.id != h
  }

  /** Lost, below a positive cursor, and not in hand. */
  ghost predicate StaysLost(s: State, h: nat) {
    h in s.lost && 0 < s.backCursor && h <= s.backCursor && HandsOff(s.ff, h)
  }

  lemma WriteStaysAbove(s: State, reported: bool, c: Context, h: nat)
    requires Vouched(s, c.w) && StaysLost(s, h) && Enabled(s, Bf(Backfill.Write(reported)), c)
    ensures h !in Next(s, Bf(Backfill.Write(reported)), c).rows.blocks
  {
    BulkRefinesCreate(s.rows, s.bf.items);
    BulkHeights(s.rows, c.w, s.bf.items, BulkSpec(s.rows, s.bf.items).value, s.bf.curr, s.bf.end);
  }

  lemma FfStaysLost(s: State, a: FfAction, c: Context, h: nat)
    requires Vouched(s, c.w) && StaysLost(s, h) && Enabled(s, Ff(a), c)
    requires a.Head? ==> a.item.block.id != h
    ensures StaysLost(Next(s, Ff(a), c), h)
  {
    if a.Create? { CreateKeepsSound(s.rows, c.w, s.ff.item, CreateSpec(s.rows, s.ff.item).value); }
  }

  lemma StaysLostStep(s: State, a: Action, c: Context, h: nat)
    requires Vouched(s, c.w) && StaysLost(s, h) && Enabled(s, a, c)
    requires !a.Reset? && (a.Ff? && a.fa.Head? ==> a.fa.item.block.id != h)
    ensures StaysLost(Next(s, a, c), h)
  {
    match a
    case Ff(fa) => FfStaysLost(s, fa, c, h);
    case Bf(ba) => if ba.Write? { WriteStaysAbove(s, ba.reported, c, h); }
    case _ =>
  }

  /** Only another head at that height, or a reset, brings a lost height back: without one it stays lost over
      any number of runs, crashes and restarts. */
  lemma {:induction false} LostStaysLost(s0: State, trace: seq<Action>, s: State, c: Context, h: nat)
    requires Vouched(s0, c.w) && StaysLost(s0, h) && Run(Anything, s0, trace, c) == Some(s)
    requires forall i :: 0 <= i < |trace| ==>
      !trace[i].Reset? && (trace[i].Ff? && trace[i].fa.Head? ==> trace[i].fa.item.block.id != h)
    ensures StaysLost(s, h) && h !in s.rows.blocks
  {
    if trace == [] {
    } else {
      var front := trace[..|trace| - 1];
      var before := Run(Anything, s0, front, c).value;
      LostStaysLost(s0, front, before, c, h);
      CursorVouches(s0, front, before, c);
      StaysLostStep(before, trace[|trace| - 1], c, h);
      VouchedStep(before, trace[|trace| - 1], c);
    }
  }

  /** The balance loop reads a height that is not stored as a block without transfers. */
  lemma ReadsEmptyIff(s: Store, w: World, h: nat, logs: seq<Balances.Log>)
    requires Sound(s, w) && h !in s.blocks
    ensures IsLogRead(s.events, Balances.TRANSFER_SIGNATURES, h, h, logs) <==> logs == []
  {
    forall k | k in s.events ensures s.events[k].blockId != h {
      assert Backed(s.events, k, s.blocks, OwnEvents(w));
    }
    assert IsLogReadOf(s.events, Balances.TRANSFER_SIGNATURES, h, h, [], []);
    if IsLogRead(s.events, Balances.TRANSFER_SIGNATURES, h, h, logs) {
      ReadsOfSameRowsAgree(s.events, Balances.TRANSFER_SIGNATURES, h, h, logs, []);
      assert |multiset(logs)| == |logs|;
    }
  }

  // ---------------------------------------------------------------- a run that loses a height

  ghost predicate Reaches(s0: State, trace: seq<Action>, s: State, c: Context) {
    Run(Follows, s0, trace, c) == Some(s)
  }

  lemma Push(s0: State, trace: seq<Action>, s: State, a: Action, c: Context)
    returns (trace': seq<Action>, s': State)
    requires Reaches(s0, trace, s, c) && Enabled(s, a, c) && Allowed(Follows, s, a)
    ensures Reaches(s0, trace', s', c) && trace' == trace + [a] && s' == Next(s, a, c)
  {
    RunPush(Follows, s0, trace, s, a, c);
    trace', s' := trace + [a], Next(s, a, c);
  }

  /** A run in which nothing is missing, backfill has nothing to do, and a head replaces the height at the lag of
      the top, which is the one the balance loop comes to next. */
  ghost predicate ReorgAtLag(s: State, c: Context, item: BlockTxsEvents) {
    && RunStart(s, c.w) && s.lost == {} && Fetched(c.w, item) && IsReorg(s.rows, item)
    && s.backCursor == s.p.target == s.top == item.block.id + Ledgers.LAG
    && s.p.from <= item.block.id == s.ledger.view.cursor
    && Backfill.Bounded(1, s.top + 1)
  }

  lemma AboutToDelete(s0: State, c: Context, item: BlockTxsEvents) returns (trace: seq<Action>, s: State)
    requires ReorgAtLag(s0, c, item)
    ensures Reaches(s0, trace, s, c) && s == s0.(ff := Deleting(item))
  {
    assert Reaches(s0, [], s0, c);
    hide Reaches;
    trace, s := Push(s0, [], s0, Ff(Head(item)), c);
    trace, s := Push(s0, trace, s, Ff(Read), c);
    assert s.lost == {} == s0.lost;
  }

  /** The crash: after the delete was committed and before the create. */
  lemma CrashAfterDelete(s0: State, c: Context, item: BlockTxsEvents) returns (trace: seq<Action>, s: State)
    requires ReorgAtLag(s0, c, item)
    ensures Reaches(s0, trace, s, c)
    ensures s.rows == DeleteSpec(s0.rows, item.block.id) && s.lost == {item.block.id}
    ensures AllStopped(s) && s.p == s0.p && s.top == s0.top && s.backCursor == s0.backCursor
    ensures s.ledger == Ledgers.Next(s0.ledger, Ledgers.Crash, c.unpack)
  {
    hide Reaches;
    trace, s := AboutToDelete(s0, c, item);
    trace, s := Push(s0, trace, s, Ff(Delete(true)), c);
    trace, s := Push(s0, trace, s, Crash, c);
  }

  /** The next run: backfill starts behind its cursor and fetches the one new block ... */
  lemma FetchesNext(s0: State, before: seq<Action>, sb: State, c: Context, next: BlockTxsEvents)
    returns (trace: seq<Action>, s: State)
    requires Reaches(s0, before, sb, c) && AllStopped(sb) && LostUnfilled(sb)
    requires sb.backCursor == sb.p.target == sb.top > 0 && Backfill.Bounded(1, sb.top + 1)
    requires Fetched(c.w, next) && next.block.id == sb.top + 1
    ensures Reaches(s0, trace, s, c) && s.rows == sb.rows && s.lost == sb.lost && !s.token
    ensures s.bf == Backfill.Ready(sb.top + 1, sb.top + 1, [next]) && s.p.target == sb.top + 1
    ensures s.ledger == Ledgers.Next(sb.ledger, Ledgers.Restart, c.unpack)
  {
    hide Reaches;
    var n := sb.top + 1;
    trace, s := Push(s0, before, sb, Restart(n, 1), c);
    assert Backfill.Next(sb.top) == n;
    trace, s := Push(s0, trace, s, Bf(Backfill.Begin), c);
    assert Backfill.BatchEnd(n, 1, n) == n;
    trace, s := Push(s0, trace, s, Bf(Backfill.Fetch([next])), c);
    assert s.lost == sb.lost;
  }

  /** ... writes it, advances its cursor and sends the token. */
  lemma WritesAndSends(s0: State, before: seq<Action>, sb: State, c: Context, n: nat, next: BlockTxsEvents)
    returns (trace: seq<Action>, s: State)
    requires Reaches(s0, before, sb, c) && BulkSpec(sb.rows, [next]).Some?
    requires sb.bf == Backfill.Ready(n, n, [next]) && sb.p.target == n && n + 1 < WORD
    ensures Reaches(s0, trace, s, c) && s.rows == BulkSpec(sb.rows, [next]).value
    ensures s.lost == Unfilled(sb.lost, s.rows.blocks) && s.token && s.bf.Completed? && s.ledger == sb.ledger
  {
    hide Reaches;
    trace, s := Push(s0, before, sb, Bf(Backfill.Write(true)), c);
    assert Backfill.Next(n) == n + 1;
    trace, s := Push(s0, trace, s, Bf(Backfill.Advance(true)), c);
    trace, s := Push(s0, trace, s, Bf(Backfill.Send), c);
    assert s.lost == Unfilled(sb.lost, s.rows.blocks);
  }

  lemma NewBlockFits(s: Store, w: World, next: BlockTxsEvents)
    requires Sound(s, w) && Fetched(w, next) && next.block.id !in s.blocks
    ensures CreateSpec(s, next).Some? && BulkSpec(s, [next]) == CreateSpec(s, next)
  {
    forall h | h in s.blocks ensures s.blocks[h].hash != next.block.hash {
      assert s.blocks[h].id == h && w(s.blocks[h].hash).block == s.blocks[h];
    }
    BulkRefinesCreate(s, [next]);
    assert [next][..0] == [];
    assert CreateAll(s, [next][..0]) == Some(s);
  }

  /** The balance loop of that run starts, and finds the lost height behind the lag ... */
  lemma ComesToHeight(s0: State, before: seq<Action>, sb: State, c: Context, h: nat)
    returns (trace: seq<Action>, s: State)
    requires Reaches(s0, before, sb, c) && sb.token && sb.ledger.view.pc.Waiting? && sb.ledger.view.cursor == h
    requires IsMax(sb.rows.blocks, h + Ledgers.LAG + 1)
    ensures Reaches(s0, trace, s, c) && s.rows == sb.rows && s.lost == sb.lost && s.bf == sb.bf
    ensures s.ledger.view == sb.ledger.view.(pc := Ledgers.Reading(h)) && s.ledger.passes == sb.ledger.passes
  {
    hide Reaches;
    trace, s := Push(s0, before, sb, Bal(Ledgers.Start), c);
    trace, s := Push(s0, trace, s, Bal(Ledgers.Poll(h + Ledgers.LAG + 1)), c);
  }

  /** ... reads it as empty and advances. */
  lemma PassesAsEmpty(s0: State, before: seq<Action>, sb: State, c: Context, h: nat)
    returns (trace: seq<Action>, s: State)
    requires Reaches(s0, before, sb, c) && Sound(sb.rows, c.w) && h !in sb.rows.blocks
    requires sb.ledger.view.pc == Ledgers.Reading(h)
    ensures Reaches(s0, trace, s, c) && s.rows == sb.rows && s.lost == sb.lost && s.bf == sb.bf
    ensures s.ledger.view.cursor == h + 1 && s.ledger.view.balances == sb.ledger.view.balances
    ensures s.ledger.passes == sb.ledger.passes + [h]
  {
    hide Reaches;
    ReadsEmptyIff(sb.rows, c.w, h, []);
    trace, s := Push(s0, before, sb, Bal(Ledgers.ReadLogs(h, [])), c);
    trace, s := Push(s0, trace, s, Bal(Ledgers.Advance(true)), c);
  }

  /** A crash between Delete and Create, then a restart: heads and restarts follow the chain, the reorg is within
      the lag, and yet the run ends with backfill completed, the height not stored, and the balance loop past it. */
  lemma CrashLosesAHeight(s0: State, c: Context, item: BlockTxsEvents, next: BlockTxsEvents)
    returns (trace: seq<Action>, s: State)
    requires ReorgAtLag(s0, c, item) && Fetched(c.w, next) && next.block.id == s0.top + 1
    ensures Run(Follows, s0, trace, c) == Some(s) && s.bf.Completed?
    ensures item.block.id !in s.rows.blocks && item.block.id in s.lost
    ensures s.ledger.view.cursor == item.block.id + 1 && s.ledger.passes == s0.ledger.passes + [item.block.id]
    ensures s.ledger.view.balances == s0.ledger.view.balances
  {
    var h := item.block.id;
    trace, s := CrashAfterDelete(s0, c, item);
    DeleteKeepsSound(s0.rows, c.w, h);
    ghost var crashed := s;
    trace, s := FetchesNext(s0, trace, s, c, next);
    NewBlockFits(crashed.rows, c.w, next);
    trace, s := WritesAndSends(s0, trace, s, c, s0.top + 1, next);
    CreateKeepsSound(crashed.rows, c.w, next, s.rows);
    assert IsMax(s.rows.blocks, h + Ledgers.LAG + 1);
    trace, s := ComesToHeight(s0, trace, s, c, h);
    trace, s := PassesAsEmpty(s0, trace, s, c, h);
  }

  // ---------------------------------------------------------------- a chain it happens on

  /** A world of empty blocks: the height of a block is the length of its hash. */
  function EmptyBlocks(): World {
    (hash: string) => BlockTxsEvents(Block(hash, |hash|, "", 0, 0, "m", 0), [], [])
  }

  function HashAt(n: nat): string {
    seq(n, i => 'a')
  }

  /** Heights 1 to 97 stored, backfill done, and the balance loop about to come to height 1. */
  function Stored97(): State {
    var blocks := map n: nat | 1 <= n <= 97 :: EmptyBlocks()(HashAt(n)).block;
    State(Store(blocks, map[], map[]), 97, Ledgers.Fresh(map[], 1), Listening, [], Backfill.Init, false,
          Backfill.BfParams(1, 97, 1), 97, None, {}, true, {})
  }

  /** On it, a head that replaces height 1 and a crash at the wrong moment. */
  lemma HeightOneIsLost(unpack: Balances.Unpacker) returns (trace: seq<Action>, s: State)
    ensures Run(Follows, Stored97(), trace, Context(EmptyBlocks(), unpack)) == Some(s)
    ensures s.bf.Completed? && 1 !in s.rows.blocks && s.ledger.view.cursor == 2
  {
    var c := Context(EmptyBlocks(), unpack);
    var item, next := EmptyBlocks()("R"), EmptyBlocks()(HashAt(98));
    assert HashAt(1)[0] != "R"[0];
    assert ReorgAtLag(Stored97(), c, item);
    trace, s := CrashLosesAHeight(Stored97(), c, item, next);
  }
}
