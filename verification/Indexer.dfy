/** The three fillers over one store (internal/core/services/indexer.go), as one interleaved machine
    with failures, lost replies, crashes and restarts. */
module Indexer {
  import opened Wrappers
  import opened Tables
  import opened Forwardfill
  import Backfill
  import Ledgers
  import opened LogReads
  import Balances

  datatype State = State(
    rows: Store,
    backCursor: nat,
    ledger: Ledgers.History,
    ff: FfPc,
    published: seq<Message>,
    bf: Backfill.BfPc,
    token: bool,             // the one-slot channel
    p: Backfill.BfParams,    // from, targetId and the batch size of the current run
    top: nat,                // history: the highest of targetId and the heads handled so far
    hole: Option<nat>,       // history: the height forwardfill deleted in this run and has not re-created
    lost: set<nat>,          // history: the heights it deleted, or created without a commit, and nobody stored since
    free: bool,              // history: whether no key of the last created block was held at another height
    seen: set<nat>)          // history: the heights whose logs the balance loop has read

  datatype Action =
    | Ff(fa: FfAction)
    | Bf(ba: Backfill.BfAction)
    | Bal(la: Ledgers.BalAction)
    | Crash                                  // of the whole process, at any point
    | Reset                                  // -reindex: the backfill cursor, before a run
    | Restart(target: nat, batch: nat)

  /** What the chain can return, and the ABI decoder. */
  datatype Context = Context(w: World, unpack: Balances.Unpacker)

  function FfOf(s: State): FfView {
    FfView(s.rows, s.published, s.ff)
  }

  function BfOf(s: State): Backfill.BfView {
    Backfill.BfView(s.rows, s.backCursor, s.token, s.bf)
  }

  /** A fetch of a height returns any block of that height the chain ever had. */
  ghost function Fetches(w: World): Backfill.Source {
    (h: nat) => iset item: BlockTxsEvents | Fetched(w, item) && item.block.id == h
  }

  ghost predicate AllStopped(s: State) {
    s.ff.Stopped? && Backfill.Stopped(s.bf) && s.ledger.view.pc.Stopped?
  }

  ghost predicate BalAllowed(s: State, a: Ledgers.BalAction) {
    match a
    case Start => s.token
    case Poll(max) => IsMax(s.rows.blocks, max)
    case ReadLogs(h, logs) => IsLogRead(s.rows.events, Balances.TRANSFER_SIGNATURES, h, h, logs)
    case _ => true
  }

  ghost predicate Enabled(s: State, a: Action, c: Context) {
    match a
    case Ff(fa) => FfEnabled(FfOf(s), fa, c.w)
    case Bf(ba) => Backfill.BfEnabled(BfOf(s), ba, s.p, Fetches(c.w))
    case Bal(la) => Ledgers.BalEnabled(s.ledger.view, la, c.unpack) && BalAllowed(s, la)
    case Crash => true
    case Reset => AllStopped(s)
    case Restart(target, batch) => AllStopped(s) && Backfill.Bounded(batch, target)
  }

  function Max(a: nat, b: nat): nat {
    if a < b then b else a
  }

  function Unfilled(heights: set<nat>, bs: map<nat, Block>): set<nat> {
    set h | h in heights && h !in bs
  }

  ghost function Next(s: State, a: Action, c: Context): State
    requires Enabled(s, a, c)
  {
    match a
    case Ff(fa) =>
      var v := FfNext(FfOf(s), fa, c.w);
      s.(rows := v.rows, published := v.published, ff := v.pc,
         top := if fa.Create? then Max(s.top, s.ff.item.block.id) else s.top,
         hole := if fa.Delete? then Some(s.ff.item.block.id) else if fa == Create(true) then None else s.hole,
         lost := Unfilled(s.lost + if fa.Delete? || fa.Create? then {s.ff.item.block.id} else {}, v.rows.blocks),
         free := if fa.Create? then RowsFree(s.rows, s.ff.item) else s.free)
    case Bf(ba) =>
      var v := Backfill.BfNext(BfOf(s), ba, s.p, Fetches(c.w));
      s.(rows := v.rows, backCursor := v.cursor, token := v.token, bf := v.pc, lost := Unfilled(s.lost, v.rows.blocks))
    case Bal(la) =>
      s.(ledger := Ledgers.Next(s.ledger, Ledgers.Step(la), c.unpack), token := s.token && !la.Start?,
         seen := if la.ReadLogs? then s.seen + {la.h} else s.seen)
    case Crash =>
      s.(ff := Stopped, bf := Backfill.Failed, ledger := Ledgers.Next(s.ledger, Ledgers.Crash, c.unpack),
         token := false)
    case Reset => s.(backCursor := 0)
    case Restart(target, batch) =>
      s.(ff := Listening, bf := Backfill.Init, ledger := Ledgers.Next(s.ledger, Ledgers.Restart, c.unpack),
         token := false, p := Backfill.BfParams(s.p.from, target, batch), top := Max(s.top, target), hole := None)
  }

  /** A fresh database, and the process about to run for the first time. */
  function Fresh(p: Backfill.BfParams): State {
    State(Store(map[], map[], map[]), 0, Ledgers.Fresh(map[], 0), Listening, [], Backfill.Init, false, p, p.target,
          None, {}, true, {})
  }

  /** Which runs a theorem speaks of. */
  datatype Discipline =
    | Anything
    | Commits          // no Create drops its commit
    | NoRestart        // neither a restart nor a reset
    | Follows          // heads at most one above the top, and no restart lowers the target
    | OneRun           // no dropped commit, no restart, heads at most one above the top, reorgs within the lag of it
    | Near(c0: nat)    // OneRun, and a head for a height of [c0, from) not stored is within the lag, or moves nothing
    | Steady           // any number of runs whose reorgs and late heads stay within the lag
    | Settled          // no step changes the transfers of a height the balance loop has read
    | Free(d: Discipline)  // `d`, and every block that is stored finds its keys free

  ghost predicate HeadFollows(s: State, a: Action) {
    a.Ff? && a.fa.Head? ==> a.fa.item.block.id <= s.top + 1
  }

  predicate WithinLag(s: State, h: nat) {
    h + Ledgers.LAG >= s.top
  }

  ghost predicate DeletesWithinLag(s: State, a: Action) {
    a.Ff? && a.fa.Delete? && s.ff.Deleting? ==> WithinLag(s, s.ff.item.block.id)
  }

  /** The transfer rows of a height. */
  function TransfersAt(s: Store, h: nat): Table<EventKey, EventCols> {
    RowsRead(s.events, Balances.TRANSFER_SIGNATURES, h)
  }

  /** The transfer rows of a block. */
  function TransfersOf(item: BlockTxsEvents): Table<EventKey, EventCols> {
    RowsRead(Own(EventEntries(item.events)), Balances.TRANSFER_SIGNATURES, item.block.id)
  }

  ghost predicate AllowedInOneRun(s: State, a: Action) {
    a != Ff(Create(false)) && !a.Reset? && !a.Restart? && HeadFollows(s, a) && DeletesWithinLag(s, a)
  }

  /** A head for a height that is not stored is within the lag, or its block has no transfers. */
  ghost predicate FillsWithinLag(s: State, a: Action) {
    a.Ff? && a.fa.Head? && a.fa.item.block.id !in s.rows.blocks ==>
      WithinLag(s, a.fa.item.block.id) || TransfersOf(a.fa.item) == map[]
  }

  /** The first height backfill may still fetch in a later call. */
  function Floor(s: State): nat {
    if s.backCursor > 0 then s.backCursor + 1 else s.p.from
  }

  /** The balance loop reads only heights that are stored, or that backfill will not fetch. */
  ghost predicate ReadsBelowFloor(s: State, a: Action) {
    a.Bal? && a.la.ReadLogs? ==> a.la.h in s.rows.blocks || a.la.h < Floor(s)
  }

  /** Storing the item gives no transfers to a height that was read without a block. */
  ghost predicate AddsNothingRead(s: State, item: BlockTxsEvents) {
    item.block.id in s.seen && item.block.id !in s.rows.blocks ==> TransfersOf(item) == map[]
  }

  ghost predicate SettledStep(s: State, a: Action) {
    && (a.Ff? && a.fa.Delete? && s.ff.Deleting? && s.ff.item.block.id in s.seen ==>
          TransfersAt(s.rows, s.ff.item.block.id) == map[])
    && (a == Ff(Create(true)) && s.ff.Creating? ==> AddsNothingRead(s, s.ff.item))
    && (a.Bf? && a.ba.Write? && s.bf.Ready? ==>
          forall i :: 0 <= i < |s.bf.items| ==> AddsNothingRead(s, s.bf.items[i]))
  }

  /** Every block the step stores finds its keys free. */
  ghost predicate FreeStep(s: State, a: Action) {
    && (a == Ff(Create(true)) && s.ff.Creating? ==> RowsFree(s.rows, s.ff.item))
    && (a.Bf? && a.ba.Write? && s.bf.Ready? ==> FreeInTurn(s.rows, s.bf.items))
  }

  ghost predicate Allowed(d: Discipline, s: State, a: Action) {
    match d
    case Anything => true
    case Commits => a != Ff(Create(false))
    case NoRestart => !a.Reset? && !a.Restart?
    case Follows => HeadFollows(s, a) && (a.Restart? ==> s.p.target <= a.target)
    case OneRun => AllowedInOneRun(s, a)
    case Near(c0) =>
      && AllowedInOneRun(s, a)
      && (a.Ff? && a.fa.Head? && c0 <= a.fa.item.block.id < s.p.from ==> FillsWithinLag(s, a))
    case Steady => !a.Reset? && DeletesWithinLag(s, a) && FillsWithinLag(s, a) && ReadsBelowFloor(s, a)
    case Settled => SettledStep(s, a)
    case Free(inner) => Allowed(inner, s, a) && FreeStep(s, a)
  }

  /** The state after a run, None if some step of it was not possible or not allowed. */
  ghost function Run(d: Discipline, s: State, trace: seq<Action>, c: Context): Option<State> {
    if trace == [] then Some(s)
    else
      var before, a := Run(d, s, trace[..|trace| - 1], c), trace[|trace| - 1];
      if before.None? || !Enabled(before.value, a, c) || !Allowed(d, before.value, a) then None
      else Some(Next(before.value, a, c))
  }

  lemma RunPush(d: Discipline, s0: State, trace: seq<Action>, s: State, a: Action, c: Context)
    requires Run(d, s0, trace, c) == Some(s) && Enabled(s, a, c) && Allowed(d, s, a)
    ensures Run(d, s0, trace + [a], c) == Some(Next(s, a, c))
  {
    assert (trace + [a])[..|trace|] == trace;
  }

  /** What allows more has more runs. */
  lemma {:induction false} RunsAs(d: Discipline, d': Discipline, s0: State, trace: seq<Action>, s: State, c: Context)
    requires Run(d, s0, trace, c) == Some(s) && (d'.Anything? || (d.Near? && d'.OneRun?) || d == Free(d'))
    ensures Run(d', s0, trace, c) == Some(s)
  {
    if trace == [] {
    } else {
      var front := trace[..|trace| - 1];
      RunsAs(d, d', s0, front, Run(d, s0, front, c).value, c);
    }
  }

  // ---------------------------------------------------------------- integrity

  ghost predicate FfHolds(pc: FfPc, w: World) {
    match pc
    case Listening => true
    case Stopped => true
    case Publishing(item, _) => Fetched(w, item)
    case _ => Fetched(w, pc.item)
  }

  ghost predicate BfHolds(pc: Backfill.BfPc, w: World) {
    pc.Ready? ==>
      && |pc.items| == pc.end - pc.curr + 1
      && forall i :: 0 <= i < |pc.items| ==> Fetched(w, pc.items[i]) && pc.items[i].block.id == pc.curr + i
  }

  ghost predicate Integrity(s: State, w: World) {
    Sound(s.rows, w) && FfHolds(s.ff, w) && BfHolds(s.bf, w)
  }

  lemma FfIntegrity(s: State, a: FfAction, c: Context)
    requires Integrity(s, c.w) && Enabled(s, Ff(a), c)
    ensures Integrity(Next(s, Ff(a), c), c.w)
  {
    match a
    case Delete(_) => DeleteKeepsSound(s.rows, c.w, s.ff.item.block.id);
    case Create(committed) => CreateKeepsSound(s.rows, c.w, s.ff.item, CreateSpec(s.rows, s.ff.item).value);
    case _ =>
  }

  lemma BfIntegrity(s: State, a: Backfill.BfAction, c: Context)
    requires Integrity(s, c.w) && Enabled(s, Bf(a), c)
    ensures Integrity(Next(s, Bf(a), c), c.w)
  {
    match a
    case Write(_) =>
      BulkRefinesCreate(s.rows, s.bf.items);
      CreateAllKeepsSound(s.rows, c.w, s.bf.items, BulkSpec(s.rows, s.bf.items).value);
    case _ =>
  }

  lemma IntegrityStep(s: State, a: Action, c: Context)
    requires Integrity(s, c.w) && Enabled(s, a, c)
    ensures Integrity(Next(s, a, c), c.w)
  {
    if a.Ff? { FfIntegrity(s, a.fa, c); }
    if a.Bf? { BfIntegrity(s, a.ba, c); }
  }

  /** In every reachable state of every interleaving of bulk writes, head handling, failures, crashes and
      restarts, each stored block is what its hash stands for, and every transaction and event row is one of
      the rows of the block now stored at its height. */
  lemma {:induction false} IntegrityInEveryRun(s0: State, trace: seq<Action>, s: State, c: Context)
    requires Integrity(s0, c.w) && Run(Anything, s0, trace, c) == Some(s)
    ensures Integrity(s, c.w)
    ensures forall h, h' | h in s.rows.blocks && h' in s.rows.blocks &&
                           s.rows.blocks[h].hash == s.rows.blocks[h'].hash :: h == h'
  {
    if trace == [] {
    } else {
      var front, a := trace[..|trace| - 1], trace[|trace| - 1];
      var before := Run(Anything, s0, front, c).value;
      IntegrityInEveryRun(s0, front, before, c);
      IntegrityStep(before, a, c);
    }
  }

  // ---------------------------------------------------------------- what is published is stored

  ghost predicate PublishesStored(s: State) {
    s.ff.Publishing? ==> Absorbed(s.rows, s.ff.item) && (RowsStored(s.rows, s.ff.item) <==> s.free)
  }

  lemma CreatePublishesStored(s: State, committed: bool, c: Context)
    requires Integrity(s, c.w) && Enabled(s, Ff(Create(committed)), c) && committed
    ensures PublishesStored(Next(s, Ff(Create(committed)), c))
  {
    var rows' := CreateSpec(s.rows, s.ff.item).value;
    CreateAbsorbs(s.rows, s.ff.item, rows', s.ff.item);
    CreateStoresRowsIff(s.rows, c.w, s.ff.item, rows');
  }

  lemma WriteKeepsPublished(rows: Store, w: World, items: seq<BlockTxsEvents>, rows': Store, item: BlockTxsEvents)
    requires Sound(rows, w) && BulkSpec(rows, items) == Some(rows')
    requires forall i :: 0 <= i < |items| ==> Fetched(w, items[i])
    requires Fetched(w, item) && Absorbed(rows, item)
    ensures Absorbed(rows', item) && (RowsStored(rows', item) <==> RowsStored(rows, item))
  {
    BulkRefinesCreate(rows, items);
    CreateAllKeepsAbsorbed(rows, items, rows', item);
    WriteKeepsRowsStored(rows, w, items, rows', item);
  }

  lemma PublishesStoredStep(s: State, a: Action, c: Context)
    requires Integrity(s, c.w) && PublishesStored(s) && Enabled(s, a, c) && Allowed(Commits, s, a)
    ensures PublishesStored(Next(s, a, c))
  {
    hide RowsStored, RowsFree, Absorbed;
    match a
    case Ff(fa) =>
      if fa.Create? { CreatePublishesStored(s, fa.committed, c); }
    case Bf(ba) =>
      if ba.Write? && s.ff.Publishing? {
        WriteKeepsPublished(s.rows, c.w, s.bf.items, BulkSpec(s.rows, s.bf.items).value, s.ff.item);
      }
    case _ =>
  }

  /** While a block is being published, whatever backfill writes meanwhile, its hash and all its keys are stored,
      and its rows are stored as published if and only if none of its keys was held at another height when it
      was created. */
  lemma {:induction false} PublishedRowsIff(s0: State, trace: seq<Action>, s: State, c: Context)
    requires Integrity(s0, c.w) && PublishesStored(s0) && Run(Commits, s0, trace, c) == Some(s)
    ensures PublishesStored(s)
  {
    if trace == [] {
    } else {
      var front := trace[..|trace| - 1];
      var before := Run(Commits, s0, front, c).value;
      PublishedRowsIff(s0, front, before, c);
      RunsAs(Commits, Anything, s0, front, before, c);
      IntegrityInEveryRun(s0, front, before, c);
      PublishesStoredStep(before, trace[|trace| - 1], c);
    }
  }

  // ---------------------------------------------------------------- a run that finds backfill up to date

  /** Whether a call of backfill has passed its range check. */
  predicate Begun(pc: Backfill.BfPc) {
    pc.Round? || pc.Ready? || pc.Written? || pc.Sending? || pc.Completed?
  }

  predicate LoopStarted(s: State) {
    !s.ledger.view.pc.Waiting? && !s.ledger.view.pc.Stopped?
  }

  /** What the range check of this run decided, `start` being where backfill began. */
  predicate RangeChecked(s0: State, s: State, start: nat) {
    && s.p == s0.p
    && (s.bf.Init? ==> Backfill.Start(s.backCursor, s.p.from) == start)
    && (s.bf.UpToDate? ==> start > s.p.target)
    && (Begun(s.bf) || s.token || LoopStarted(s) ==> start <= s.p.target)
    && (start > s.p.target ==> s.ledger.view.balances == s0.ledger.view.balances && s.ledger.passes == s0.ledger.passes)
  }

  lemma RangeCheckedStep(s0: State, s: State, start: nat, a: Action, c: Context)
    requires RangeChecked(s0, s, start) && Enabled(s, a, c) && Allowed(NoRestart, s, a)
    ensures RangeChecked(s0, Next(s, a, c), start)
  {
  }

  /** In every run, up to its end, backfill is found up to date only if its start is past the target, and then no
      token is sent, the balance loop never starts and nothing is credited; it goes on to fetch, sends the token
      or lets the loop start only if its start is not past the target. */
  lemma {:induction false} UpToDateIff(s0: State, trace: seq<Action>, s: State, c: Context)
    requires s0.bf.Init? && !s0.token && s0.ledger.view.pc.Waiting? && Run(NoRestart, s0, trace, c) == Some(s)
    ensures RangeChecked(s0, s, Backfill.Start(s0.backCursor, s0.p.from))
  {
    if trace == [] {
    } else {
      var front := trace[..|trace| - 1];
      var before := Run(NoRestart, s0, front, c).value;
      UpToDateIff(s0, front, before, c);
      RangeCheckedStep(s0, before, Backfill.Start(s0.backCursor, s0.p.from), trace[|trace| - 1], c);
    }
  }

  // ---------------------------------------------------------------- the ledger inside the whole system

  /** The ledger's share of a step and of a run. */
  function ProjectOne(a: Action): seq<Ledgers.RunAction> {
    match a
    case Bal(la) => [Ledgers.Step(la)]
    case Crash => [Ledgers.Crash]
    case Restart(_, _) => [Ledgers.Restart]
    case _ => []
  }

  function Project(trace: seq<Action>): seq<Ledgers.RunAction> {
    if trace == [] then [] else Project(trace[..|trace| - 1]) + ProjectOne(trace[|trace| - 1])
  }

  lemma LedgerStepInside(s: State, a: Action, c: Context)
    requires Enabled(s, a, c)
    ensures Ledgers.Run(s.ledger, ProjectOne(a), c.unpack) == Some(Next(s, a, c).ledger)
  {
    var mine := ProjectOne(a);
    if mine != [] {
      assert mine[..0] == [];
      assert Ledgers.Run(s.ledger, mine[..0], c.unpack) == Some(s.ledger);
    }
  }

  /** Inside the whole system the ledger makes a run of its own, so everything proved of the balance loop
      holds of the indexer. */
  lemma {:induction false} LedgerRunsInside(d: Discipline, s0: State, trace: seq<Action>, s: State, c: Context)
    requires Run(d, s0, trace, c) == Some(s)
    ensures Ledgers.Run(s0.ledger, Project(trace), c.unpack) == Some(s.ledger)
  {
    if trace == [] {
    } else {
      var front, a := trace[..|trace| - 1], trace[|trace| - 1];
      var before := Run(d, s0, front, c).value;
      LedgerRunsInside(d, s0, front, before, c);
      LedgerStepInside(before, a, c);
      Ledgers.RunAppend(s0.ledger, Project(front), ProjectOne(a), c.unpack);
    }
  }

  /** In every reachable state of the indexer the units of every (token, id) are the starting ones. */
  lemma UnitsConservedInside(s0: State, trace: seq<Action>, s: State, c: Context, token: string, id: string)
    requires Run(Anything, s0, trace, c) == Some(s)
    ensures Balances.Total(s.ledger.view.balances, token, id) == Balances.Total(s0.ledger.view.balances, token, id)
  {
    LedgerRunsInside(Anything, s0, trace, s, c);
    Ledgers.UnitsConserved(s0.ledger, Project(trace), s.ledger, c.unpack, token, id);
  }

  /** The balances the indexer holds are at-least-once applications of the logs it read, if those are fixed:
      applied(b) is at least 1 below the cursor and 0 outside, and the surplus is the torn iterations and the one
      in flight. */
  lemma LedgerUnderCrashesInside(s0: State, trace: seq<Action>, s: State, c: Context, m0: Balances.Ledger, c0: nat,
                                 logs: Ledgers.Logs)
    requires s0.ledger == Ledgers.Fresh(m0, c0)
    requires Run(Anything, s0, trace, c) == Some(s) && Ledgers.ReadsFixed(Project(trace), logs)
    ensures Ledgers.Accounts(m0, c0, s.ledger, logs, c.unpack) && s.ledger.torn <= Ledgers.Failures(Project(trace))
  {
    LedgerRunsInside(Anything, s0, trace, s, c);
    Ledgers.LedgerUnderCrashes(m0, c0, Project(trace), s.ledger, logs, c.unpack);
  }

  /** With no torn iteration they are the plain replay. */
  lemma LedgerEqualsReplayInside(s0: State, trace: seq<Action>, s: State, c: Context, m0: Balances.Ledger, c0: nat,
                                 logs: Ledgers.Logs)
    requires s0.ledger == Ledgers.Fresh(m0, c0)
    requires Run(Anything, s0, trace, c) == Some(s) && Ledgers.ReadsFixed(Project(trace), logs)
    requires s.ledger.torn == 0
    ensures c0 <= s.ledger.view.cursor
    ensures s.ledger.view.balances == Ledgers.Replayed(m0, c0, s.ledger.view, logs, c.unpack)
  {
    LedgerRunsInside(Anything, s0, trace, s, c);
    Ledgers.UntornIsReplay(m0, c0, Project(trace), s.ledger, logs, c.unpack);
  }
}
