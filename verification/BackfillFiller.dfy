/** The catch-up loop as the code runs it (internal/core/services/backfill.go): every run of it is a run of
    the backfill machine, against a database that may fail each call. */
module BackfillFiller {
  import opened Wrappers
  import opened Tables
  import opened Backfill
  import opened Repository

  /** Whether a fetch of each height of [curr, curr + size) succeeds. */
  ghost predicate AllFetch(fetch: nat -> Option<BlockTxsEvents>, curr: nat, size: nat) {
    forall h: nat :: curr <= h < curr + size ==> fetch(h).Some?
  }

  /** One batch: a worker per slot, completing in any order.  The result does not depend on that order:
      slot i holds the block of height curr + i, and the batch fails exactly when one of its fetches does. */
  method FetchBatch(fetch: nat -> Option<BlockTxsEvents>, curr: nat, size: nat)
    returns (results: Option<seq<BlockTxsEvents>>)
    ensures results.Some? <==> AllFetch(fetch, curr, size)
    ensures results.Some? ==>
      && |results.value| == size
      && forall i :: 0 <= i < size ==> Some(results.value[i]) == fetch(curr + i)
  {
    var slots := new BlockTxsEvents[size];
    var failed := false;
    var pending: set<nat> := {};
    for i := 0 to size
      invariant forall j: nat :: j in pending <==> j < i
    {
      pending := pending + {i};
    }
    while pending != {}
      invariant forall i :: i in pending ==> i < size
      invariant !failed ==> forall i :: 0 <= i < size && i !in pending ==> Some(slots[i]) == fetch(curr + i)
      invariant failed ==> !AllFetch(fetch, curr, size)
      decreases |pending|
    {
      var i :| i in pending;
      match fetch(curr + i) {
        case None => failed := true;
        case Some(data) => slots[i] := data;
      }
      pending := pending - {i};
    }
    results := if failed then None else Some(slots[..]);
    if !failed {
      forall h: nat | curr <= h < curr + size ensures fetch(h).Some? {
        assert Some(slots[h - curr]) == fetch(curr + (h - curr));
      }
    }
  }

  /** A fetch returns what it returns, or fails. */
  ghost function Offers(fetch: nat -> Option<BlockTxsEvents>): Source {
    (h: nat) => iset x: BlockTxsEvents | fetch(h) == Some(x)
  }

  ghost predicate IsRun(e0: Env, trace: seq<EnvAction>, e: Env, src: Source) {
    EnvRun(e0, trace, src) == Some(e)
  }

  ghost method Push(e0: Env, trace: seq<EnvAction>, e: Env, a: BfAction, src: Source)
    returns (trace': seq<EnvAction>, e': Env)
    requires IsRun(e0, trace, e, src) && BfEnabled(e.view, a, e.p, src)
    ensures IsRun(e0, trace', e', src) && e' == Env(BfNext(e.view, a, e.p, src), e.p)
  {
    trace', e' := trace + [Step(a)], EnvNext(e, Step(a), src);
    assert trace'[..|trace|] == trace;
  }

  /** The bulk write of a batch, as a step of the machine. */
  method WriteStep(repo: IndexerRepository, curr: nat, end: nat, items: seq<BlockTxsEvents>, fault: Fault,
                   ghost p: BfParams, ghost src: Source)
    returns (err: bool, ghost step: BfAction)
    modifies repo`blocks, repo`txs, repo`events
    ensures err <==> !fault.NoFault? || old(BulkSpec(repo.Rows(), items)).None?
    ensures old(BulkSpec(repo.Rows(), items)).None? ==> repo.Rows() == old(repo.Rows())
    ensures
      var v := BfView(old(repo.Rows()), repo.backfillCursor, false, Ready(curr, end, items));
      && BfEnabled(v, step, p, src)
      && BfNext(v, step, p, src) ==
           BfView(repo.Rows(), repo.backfillCursor, false, if err then Failed else Written(end))
  {
    step := if Took(fault) && BulkSpec(repo.Rows(), items).Some? then Write(fault.NoFault?) else Fail;
    err := repo.BulkCreate(items, fault);
  }

  /** The cursor update of a batch, as a step of the machine. */
  method AdvanceStep(repo: IndexerRepository, end: nat, fault: Fault, ghost p: BfParams, ghost src: Source)
    returns (err: bool, ghost step: BfAction)
    modifies repo`backfillCursor
    ensures err <==> !fault.NoFault?
    ensures
      var v := BfView(repo.Rows(), old(repo.backfillCursor), false, Written(end));
      && BfEnabled(v, step, p, src)
      && BfNext(v, step, p, src) ==
           BfView(repo.Rows(), repo.backfillCursor, false,
                  if err then Failed else if Next(end) <= p.target then Round(Next(end)) else Sending)
  {
    step := if Took(fault) then Advance(fault.NoFault?) else Fail;
    err := repo.UpdateBackfillCursor(end, fault);
  }

  /** What the database does to the read of the cursor, and to the write and the cursor update of the batch
      that starts at a height. */
  datatype Database = Database(readFails: bool, write: nat -> Fault, advance: nat -> Fault)

  predicate FetchedFrom(fetch: nat -> Option<BlockTxsEvents>, curr: nat, items: seq<BlockTxsEvents>) {
    forall i :: 0 <= i < |items| ==> Some(items[i]) == fetch(curr + i)
  }

  /** Some batch of blocks fetched for heights of [lo, hi] cannot be written: a height is held by a different hash. */
  ghost predicate Conflict(rows: Store, fetch: nat -> Option<BlockTxsEvents>, lo: nat, hi: nat) {
    exists curr, items ::
      lo <= curr && curr + |items| <= hi + 1 && FetchedFrom(fetch, curr, items) && BulkSpec(rows, items).None?
  }

  /** Why the heights of [lo, hi] may fail. */
  ghost predicate Excused(rows: Store, fetch: nat -> Option<BlockTxsEvents>, db: Database, lo: nat, hi: nat) {
    || (exists h: nat :: lo <= h <= hi && fetch(h).None?)
    || (exists h: nat :: lo <= h <= hi && (db.write(h) != NoFault || db.advance(h) != NoFault))
    || Conflict(rows, fetch, lo, hi)
  }

  lemma ExcusedWiden(rows: Store, fetch: nat -> Option<BlockTxsEvents>, db: Database, curr: nat, end: nat, lo: nat,
                     hi: nat)
    requires Excused(rows, fetch, db, curr, end) && lo <= curr && end <= hi
    ensures Excused(rows, fetch, db, lo, hi)
  {
  }

  /** Neither the write nor the cursor update of the batch that starts at a height fails. */
  predicate Undisturbed(db: Database, curr: nat) {
    db.write(curr).NoFault? && db.advance(curr).NoFault?
  }

  /** No fetch of [lo, hi) fails, and no call for a batch. */
  ghost predicate Served(fetch: nat -> Option<BlockTxsEvents>, db: Database, batches: seq<(nat, nat)>, lo: nat,
                         hi: nat)
  {
    && (forall h: nat :: lo <= h < hi ==> fetch(h).Some?)
    && (forall i :: 0 <= i < |batches| ==> Undisturbed(db, batches[i].0))
  }

  lemma NothingServed(fetch: nat -> Option<BlockTxsEvents>, db: Database, lo: nat)
    ensures Served(fetch, db, [], lo, lo)
  {
  }

  lemma ServedNext(fetch: nat -> Option<BlockTxsEvents>, db: Database, batches: seq<(nat, nat)>, lo: nat, curr: nat,
                   end: nat)
    requires Served(fetch, db, batches, lo, curr) && curr <= end
    requires AllFetch(fetch, curr, end - curr + 1) && Undisturbed(db, curr)
    ensures Served(fetch, db, batches + [(curr, end)], lo, end + 1)
  {
  }

  /** Fetch, write and advance for one batch. */
  method OneRound(repo: IndexerRepository, fetch: nat -> Option<BlockTxsEvents>, db: Database, curr: nat, end: nat,
                  ghost p: BfParams, ghost e0: Env, ghost before: seq<EnvAction>, ghost eb: Env)
    returns (err: bool, ghost trace: seq<EnvAction>, ghost e: Env)
    requires curr <= end + 1 && end == BatchEnd(curr, p.batch, p.target)
    requires IsRun(e0, before, eb, Offers(fetch))
    requires eb == Env(BfView(repo.Rows(), repo.backfillCursor, false, Round(curr)), p)
    modifies repo`blocks, repo`txs, repo`events, repo`backfillCursor
    ensures IsRun(e0, trace, e, Offers(fetch))
    ensures e == Env(BfView(repo.Rows(), repo.backfillCursor, false,
                            if err then Failed else if Next(end) <= p.target then Round(Next(end)) else Sending), p)
    ensures !err ==> repo.backfillCursor == end && AllFetch(fetch, curr, end - curr + 1) && Undisturbed(db, curr)
    ensures err ==> Excused(repo.Rows(), fetch, db, curr, if end < curr then curr else end)
    ensures !AllFetch(fetch, curr, end - curr + 1) ==>
              repo.Rows() == old(repo.Rows()) && repo.backfillCursor == old(repo.backfillCursor)
  {
    ghost var src := Offers(fetch);
    var results := FetchBatch(fetch, curr, end - curr + 1);
    if results.None? {
      trace, e := Push(e0, before, eb, Fail, src);
      return true, trace, e;
    }
    trace, e := Push(e0, before, eb, Fetch(results.value), src);
    ghost var step;
    assert FetchedFrom(fetch, curr, results.value);
    err, step := WriteStep(repo, curr, end, results.value, db.write(curr), p, src);
    trace, e := Push(e0, trace, e, step, src);
    if err {
      assert db.write(curr) != NoFault || BulkSpec(repo.Rows(), results.value).None?;
      return;
    }
    err, step := AdvanceStep(repo, end, db.advance(curr), p, src);
    trace, e := Push(e0, trace, e, step, src);
  }

  /** The batches written so far and those still to come are the batches of the whole call. */
  ghost predicate Tiled(done: seq<(nat, nat)>, start: nat, curr: nat, batch: nat, target: nat) {
    1 <= batch && done + Batches(curr, batch, target) == Batches(start, batch, target)
  }

  lemma TiledStep(done: seq<(nat, nat)>, start: nat, curr: nat, batch: nat, target: nat)
    requires Tiled(done, start, curr, batch, target) && curr <= target
    ensures Tiled(done + [(curr, PlainEnd(curr, batch, target))], start, PlainEnd(curr, batch, target) + 1,
                  batch, target)
  {
  }

  lemma TiledDone(done: seq<(nat, nat)>, start: nat, curr: nat, batch: nat, target: nat)
    requires Tiled(done, start, curr, batch, target) && curr > target
    ensures done == Batches(start, batch, target)
  {
    assert done + [] == done;
  }

  /** How a call ends. */
  datatype End =
    | Sent
    | NothingToDo
    | Error
    | Panicked     // the slice of a batch would have a negative size
    | Stalled      // a batch of size 0: from here on the loop repeats it

  /** A batch of size 0 at height 0 wraps to the whole range. */
  function Effective(batch: nat, target: nat): (r: nat)
    ensures r >= 1
  {
    if batch == 0 then target + 1 else batch
  }

  function PcAfter(end: End, start: nat): BfPc {
    match end
    case Sent => Completed
    case NothingToDo => UpToDate
    case Stalled => Round(start)
    case _ => Failed
  }

  lemma EndIsPlain(curr: nat, batch: nat, target: nat)
    requires curr <= target < WORD - 1 && batch < WORD && curr <= BatchEnd(curr, batch, target)
    ensures BatchEnd(curr, batch, target) == PlainEnd(curr, Effective(batch, target), target) <= target
    ensures Next(BatchEnd(curr, batch, target)) == BatchEnd(curr, batch, target) + 1
  {
    ProgressIff(curr, batch, target);
    BatchIsWindowIff(curr, batch, target);
  }

  /** One turn of the loop: the end of the batch, the size of its slice, and its round. */
  method OneBatch(repo: IndexerRepository, fetch: nat -> Option<BlockTxsEvents>, db: Database, curr: nat,
                  ghost p: BfParams, batchSize: nat, targetId: nat, ghost e0: Env, ghost before: seq<EnvAction>,
                  ghost eb: Env)
    returns (stop: Option<End>, end: nat, ghost trace: seq<EnvAction>, ghost e: Env)
    requires curr <= targetId < WORD - 1 && batchSize < WORD && p.batch == batchSize && p.target == targetId
    requires IsRun(e0, before, eb, Offers(fetch))
    requires eb == Env(BfView(repo.Rows(), repo.backfillCursor, false, Round(curr)), p)
    modifies repo`blocks, repo`txs, repo`events, repo`backfillCursor
    ensures IsRun(e0, trace, e, Offers(fetch))
    ensures e == Env(BfView(repo.Rows(), repo.backfillCursor, false,
                            if stop.Some? then PcAfter(stop.value, curr)
                            else if end + 1 <= targetId then Round(end + 1) else Sending), p)
    ensures stop.None? ==>
      curr <= end == PlainEnd(curr, Effective(batchSize, targetId), targetId) <= targetId && repo.backfillCursor == end
    ensures stop.None? && batchSize == 0 ==> end == targetId
    ensures stop.None? ==> AllFetch(fetch, curr, end - curr + 1) && Undisturbed(db, curr)
    ensures stop.Some? ==> StopsFor(stop.value, repo.Rows(), fetch, db, curr, batchSize, targetId)
  {
    end := BatchEnd(curr, batchSize, targetId);
    ProgressIff(curr, batchSize, targetId);
    if end + 1 < curr {
      trace, e := Push(e0, before, eb, Fail, Offers(fetch));
      return Some(Panicked), end, trace, e;
    }
    var err: bool;
    err, trace, e := OneRound(repo, fetch, db, curr, end, p, e0, before, eb);
    if err {
      ExcusedWiden(repo.Rows(), fetch, db, curr, if end < curr then curr else end, curr, targetId);
      return Some(Error), end, trace, e;
    }
    if end + 1 == curr { return Some(Stalled), end, trace, e; }
    EndIsPlain(curr, batchSize, targetId);
    stop := None;
  }

  /** The loop, up to a stall, from its first batch. */
  method AllBatches(repo: IndexerRepository, fetch: nat -> Option<BlockTxsEvents>, db: Database, start: nat,
                    ghost p: BfParams, batchSize: nat, targetId: nat, ghost e0: Env, ghost before: seq<EnvAction>,
                    ghost eb: Env)
    returns (stop: Option<End>, batches: seq<(nat, nat)>, ghost trace: seq<EnvAction>, ghost e: Env)
    requires start <= targetId < WORD - 1 && batchSize < WORD && p.batch == batchSize && p.target == targetId
    requires IsRun(e0, before, eb, Offers(fetch))
    requires eb == Env(BfView(repo.Rows(), repo.backfillCursor, false, Round(start)), p)
    modifies repo`blocks, repo`txs, repo`events, repo`backfillCursor
    ensures IsRun(e0, trace, e, Offers(fetch))
    ensures e == Env(BfView(repo.Rows(), repo.backfillCursor, false,
                            if stop.Some? then PcAfter(stop.value, start) else Sending), p)
    ensures stop.None? ==>
              repo.backfillCursor == targetId && batches == Batches(start, Effective(batchSize, targetId), targetId)
    ensures stop.None? ==> Served(fetch, db, batches, start, targetId + 1)
    ensures stop.Some? ==> StopsFor(stop.value, repo.Rows(), fetch, db, start, batchSize, targetId)
  {
    var curr := start;
    trace, e, stop, batches := before, eb, None, [];
    hide IsRun, Excused, Batches, Served;
    assert Served(fetch, db, [], start, start) by { NothingServed(fetch, db, start); }
    while curr <= targetId
      invariant IsRun(e0, trace, e, Offers(fetch)) && stop.None?
      invariant e == Env(BfView(repo.Rows(), repo.backfillCursor, false,
                                if curr <= targetId then Round(curr) else Sending), p)
      invariant Tiled(batches, start, curr, Effective(batchSize, targetId), targetId)
      invariant Served(fetch, db, batches, start, curr) && curr <= targetId + 1
      invariant start <= curr && (curr > targetId ==> repo.backfillCursor == targetId)
      invariant batchSize == 0 && curr <= targetId ==> curr == start
      decreases targetId + 1 - curr
    {
      var end: nat;
      stop, end, trace, e := OneBatch(repo, fetch, db, curr, p, batchSize, targetId, e0, trace, e);
      if stop.Some? {
        if stop == Some(Error) { ExcusedWiden(repo.Rows(), fetch, db, curr, targetId, start, targetId); }
        return;
      }
      TiledStep(batches, start, curr, Effective(batchSize, targetId), targetId);
      ServedNext(fetch, db, batches, start, curr, end);
      batches := batches + [(curr, end)];
      curr := end + 1;
    }
    TiledDone(batches, start, curr, Effective(batchSize, targetId), targetId);
  }

  /** Why the loop may stop early: a fetch or a database call failed or a batch conflicts; the batch size is 0;
      the end of a batch wraps. */
  ghost predicate StopsFor(end: End, rows: Store, fetch: nat -> Option<BlockTxsEvents>, db: Database,
                           start: nat, batchSize: nat, targetId: nat)
  {
    match end
    case Error => Excused(rows, fetch, db, start, targetId)
    case Stalled => batchSize == 0 && start > 0
    case Panicked => batchSize >= 1 && targetId + batchSize - 1 >= WORD
    case _ => false
  }

  /** Where a call starts: at `from`, or one after a stored cursor, in 64 bits. */
  function FirstHeight(cursor: nat, from: nat): nat {
    if cursor == 0 then from else if cursor == WORD - 1 then 0 else cursor + 1
  }

  /** The batches start at the first height, and there are as many as blocks of cpus * factor + 1 heights take. */
  predicate InNumbers(cursor: nat, from: nat, target: nat, cpus: int, factor: int, batches: seq<(nat, nat)>) {
    var n, first, size := |batches|, FirstHeight(cursor, from), cpus * factor + 1;
    && n > 0 && batches[0].0 == first
    && (1 <= size < WORD ==> (n - 1) * size < target + 1 - first <= n * size)
  }

  lemma TilingInNumbers(cursor: nat, from: nat, target: nat, cpus: int, factor: int)
    requires cursor < WORD
    ensures Start(cursor, from) == FirstHeight(cursor, from)
    ensures Start(cursor, from) <= target ==>
      InNumbers(cursor, from, target, cpus, factor,
                Batches(Start(cursor, from), Effective(BatchSize(cpus, factor), target), target))
  {
    PlainNumbers(cursor, from, cpus, factor);
    if Start(cursor, from) <= target {
      hide Start, BatchSize;
      BatchesTile(Start(cursor, from), Effective(BatchSize(cpus, factor), target), target);
    }
  }

  /** The whole call, up to a stall.  It makes a run of the machine.  With nothing to do it returns; when it sends the
      token the batches it wrote are exactly the tiling of [start, target] and the stored cursor is the target.
      It fails only when a fetch or a database call does, or a fetched batch conflicts with the store; it stalls
      only with batch size 0, and panics only when the end of a batch wraps. */
  method RunBackfill(repo: IndexerRepository, fetch: nat -> Option<BlockTxsEvents>, db: Database,
                     from: nat, targetId: nat, cpus: nat, concurrencyF: int)
    returns (outcome: End, batches: seq<(nat, nat)>, ghost trace: seq<EnvAction>, ghost e: Env)
    requires targetId < WORD - 1
    modifies repo`blocks, repo`txs, repo`events, repo`backfillCursor
    ensures
      var start := old(Start(repo.backfillCursor, from));
      var p := BfParams(from, targetId, BatchSize(cpus, concurrencyF));
      && IsRun(Env(old(BfView(repo.Rows(), repo.backfillCursor, false, Init)), p), trace, e, Offers(fetch))
      && e == Env(BfView(repo.Rows(), repo.backfillCursor, outcome.Sent?, PcAfter(outcome, start)), p)
      && (db.readFails ==> outcome.Error?)
      && (outcome.NothingToDo? <==> !db.readFails && start > targetId)
      && (outcome.Sent? ==> Served(fetch, db, batches, start, targetId + 1))
      && (outcome.Sent? ==>
            repo.backfillCursor == targetId && batches == Batches(start, Effective(p.batch, targetId), targetId))
      && (outcome.Sent? || outcome.NothingToDo? || (outcome.Error? && db.readFails) ||
            StopsFor(outcome, repo.Rows(), fetch, db, start, p.batch, targetId))
    ensures old(repo.backfillCursor) < WORD ==>
      var cursor := old(repo.backfillCursor);
      && (outcome.NothingToDo? <==> !db.readFails && FirstHeight(cursor, from) > targetId)
      && (outcome.Sent? ==> InNumbers(cursor, from, targetId, cpus, concurrencyF, batches))
  {
    if repo.backfillCursor < WORD { TilingInNumbers(repo.backfillCursor, from, targetId, cpus, concurrencyF); }
    hide InNumbers;
    var curr := Start(repo.backfillCursor, from);
    var batchSize := BatchSize(cpus, concurrencyF);
    ghost var p := BfParams(from, targetId, batchSize);
    ghost var e0 := Env(BfView(repo.Rows(), repo.backfillCursor, false, Init), p);
    assert IsRun(e0, [], e0, Offers(fetch));
    hide IsRun, StopsFor, Batches, Served;
    batches := [];
    if db.readFails {
      trace, e := Push(e0, [], e0, Fail, Offers(fetch));
      return Error, batches, trace, e;
    }
    trace, e := Push(e0, [], e0, Begin, Offers(fetch));
    if curr > targetId { return NothingToDo, batches, trace, e; }
    var stop: Option<End>;
    stop, batches, trace, e := AllBatches(repo, fetch, db, curr, p, batchSize, targetId, e0, trace, e);
    if stop.Some? { return stop.value, batches, trace, e; }
    trace, e := Push(e0, trace, e, Send, Offers(fetch));
    outcome := Sent;
  }

  lemma OfferedStepIsServed(e: Env, a: EnvAction, fetch: nat -> Option<BlockTxsEvents>, chain: Chain)
    requires EnvEnabled(e, a, Offers(fetch))
    requires forall h :: fetch(h).Some? ==> fetch(h).value == chain(h)
    ensures EnvEnabled(e, a, Serve(chain)) && EnvNext(e, a, Serve(chain)) == EnvNext(e, a, Offers(fetch))
  {
  }

  /** A run whose fetches agree with a fixed chain is a run against that chain. */
  lemma {:induction false} OfferedRunIsServed(e0: Env, trace: seq<EnvAction>, e: Env,
                                              fetch: nat -> Option<BlockTxsEvents>, chain: Chain)
    requires IsRun(e0, trace, e, Offers(fetch))
    requires forall h :: fetch(h).Some? ==> fetch(h).value == chain(h)
    ensures IsRun(e0, trace, e, Serve(chain))
  {
    if trace == [] {
    } else {
      var front := trace[..|trace| - 1];
      var before := EnvRun(e0, front, Offers(fetch)).value;
      OfferedRunIsServed(e0, front, before, fetch, chain);
      OfferedStepIsServed(before, trace[|trace| - 1], fetch, chain);
    }
  }

  /** A call that starts from cursor 0 and sends the token leaves the store of
      creating every block of [from, target] once, in order. */
  lemma SentMeansStored(s0: Store, p: BfParams, trace: seq<EnvAction>, e: Env, fetch: nat -> Option<BlockTxsEvents>,
                        chain: Chain)
    requires Bounded(p.batch, p.target) && p.from <= p.target + 1
    requires IsRun(Env(BfView(s0, 0, false, Init), p), trace, e, Offers(fetch)) && e.view.pc.Completed? && e.p == p
    requires forall h :: fetch(h).Some? ==> fetch(h).value == chain(h)
    ensures Some(e.view.rows) == CreateAll(s0, Segment(chain, p.from, p.target + 1))
  {
    OfferedRunIsServed(Env(BfView(s0, 0, false, Init), p), trace, e, fetch, chain);
    CompletedEqualsUninterrupted(s0, chain, p, trace, e);
  }
}
