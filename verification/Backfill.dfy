/** Historical catch-up (internal/core/services/backfill.go): contiguous batches are fetched in
    parallel, bulk-written, and the cursor is advanced in a separate transaction. */
module Backfill {
  import opened Wrappers
  import opened Tables
  import opened ForeignKeys

  // ---------------------------------------------------------------- 64-bit batch arithmetic

  /** uint64(runtime.NumCPU()*concurrencyF + 1): a signed product converted to 64 unsigned bits. */
  function BatchSize(cpus: int, factor: int): (r: nat)
    ensures r < WORD
  {
    (cpus * factor + 1) % WORD
  }

  /** The last height of the batch that starts at curr. */
  function BatchEnd(curr: nat, batch: nat, target: nat): nat {
    var end := (curr + batch - 1) % WORD;
    if end > target then target else end
  }

  function Next(height: nat): nat {
    (height + 1) % WORD
  }

  /** Where a call begins. */
  function Start(cursor: nat, from: nat): nat {
    if cursor > 0 then Next(cursor) else from
  }

  /** A batch is a non-empty window of [curr, target] exactly when its end does not wrap; the one other
      case is the degenerate size 0 at height 0, whose end wraps to the top and is cut to the target. */
  lemma BatchIsWindowIff(curr: nat, batch: nat, target: nat)
    requires curr <= target < WORD && batch < WORD
    ensures curr <= BatchEnd(curr, batch, target) <= target <==>
            (1 <= batch && curr + batch - 1 < WORD) || (batch == 0 && curr == 0)
  {
  }

  /** With a negative concurrency the batch size can be 0, and then the loop does not advance. */
  lemma ZeroBatchStalls(curr: nat, target: nat)
    requires 0 < curr <= target < WORD
    ensures BatchSize(1, -1) == 0
    ensures Next(BatchEnd(curr, 0, target)) == curr
  {
  }

  /** The loop gets ahead in exactly the same cases; in every other case its slice would have size 0, and it
      repeats the batch, or a negative size, and making the slice panics. */
  lemma ProgressIff(curr: nat, batch: nat, target: nat)
    requires curr <= target < WORD - 1 && batch < WORD
    ensures
      var end := BatchEnd(curr, batch, target);
      && (Next(end) > curr <==> (1 <= batch && curr + batch - 1 < WORD) || (batch == 0 && curr == 0))
      && (end + 1 == curr <==> batch == 0 && curr > 0)
      && (end + 1 < curr <==> 1 <= batch && curr + batch - 1 >= WORD)
  {
    if curr + batch >= WORD + 1 {
      assert (curr + batch - 1) % WORD == curr + batch - 1 - WORD;
    } else if curr + batch == 0 {
      assert (-1) % WORD == WORD - 1;
    }
  }

  /** No height of the run, nor the one after it, wraps. */
  predicate Bounded(batch: nat, target: nat) {
    1 <= batch && target + batch - 1 < WORD && target + 1 < WORD
  }

  /** The last height of a batch in unbounded arithmetic. */
  function PlainEnd(curr: nat, batch: nat, target: nat): nat
    requires 1 <= batch
  {
    if curr + batch - 1 > target then target else curr + batch - 1
  }

  lemma NoWrap(curr: nat, batch: nat, target: nat)
    requires Bounded(batch, target) && curr <= target
    ensures BatchEnd(curr, batch, target) == PlainEnd(curr, batch, target)
    ensures Next(BatchEnd(curr, batch, target)) == PlainEnd(curr, batch, target) + 1
  {
  }

  lemma NonNegativeConcurrency(cpus: nat, factor: nat, target: nat)
    requires cpus * factor + 1 + target < WORD
    ensures Bounded(BatchSize(cpus, factor), target)
  {
  }

  /** Where a call starts, and how many blocks it fetches at once, in plain arithmetic. */
  lemma PlainNumbers(cursor: nat, from: nat, cpus: int, factor: int)
    ensures Start(0, from) == from
    ensures 0 < cursor < WORD ==> Start(cursor, from) == if cursor == WORD - 1 then 0 else cursor + 1
    ensures 0 <= cpus * factor < WORD - 1 ==> BatchSize(cpus, factor) == cpus * factor + 1
    ensures cpus * factor == -1 ==> BatchSize(cpus, factor) == 0
    ensures 0 - WORD <= cpus * factor < -1 ==> BatchSize(cpus, factor) == WORD + 1 + cpus * factor
  {
    var product := cpus * factor;
    if 0 <= product < WORD - 1 { assert (product + 1) % WORD == product + 1; }
    if product == -1 { assert (product + 1) % WORD == 0; }
    if 0 - WORD <= product < -1 { assert (product + 1) % WORD == WORD + product + 1; }
  }

  /** The batches of an uninterrupted loop, as (first, last) heights, in unbounded arithmetic. */
  function Batches(curr: nat, batch: nat, target: nat): seq<(nat, nat)>
    requires 1 <= batch
    decreases target + 1 - curr
  {
    if curr > target then []
    else
      var end := PlainEnd(curr, batch, target);
      [(curr, end)] + Batches(end + 1, batch, target)
  }

  lemma {:induction false} BatchesCount(curr: nat, batch: nat, target: nat)
    requires 1 <= batch && curr <= target
    ensures
      var n := |Batches(curr, batch, target)|;
      n > 0 && (n - 1) * batch < target + 1 - curr <= n * batch
    decreases target + 1 - curr
  {
    var end := PlainEnd(curr, batch, target);
    var rest := |Batches(end + 1, batch, target)|;
    assert |Batches(curr, batch, target)| == 1 + rest;
    CountBatch(rest, batch);
    if end < target {
      BatchesCount(end + 1, batch, target);
    } else {
      assert rest == 0;
    }
  }

  /** The batches are non-empty, at most `batch` long, contiguous, tile exactly [curr, target],
      and there are ceil((target + 1 - curr) / batch) of them. */
  lemma {:induction false} BatchesTile(curr: nat, batch: nat, target: nat)
    requires 1 <= batch && curr <= target
    ensures
      var bs := Batches(curr, batch, target);
      && |bs| > 0 && bs[0].0 == curr && bs[|bs| - 1].1 == target
      && (forall i :: 0 <= i < |bs| ==> bs[i].0 <= bs[i].1 && bs[i].1 + 1 - bs[i].0 <= batch)
      && (forall i :: 0 < i < |bs| ==> bs[i].0 == bs[i - 1].1 + 1)
      && (|bs| - 1) * batch < target + 1 - curr <= |bs| * batch
    decreases target + 1 - curr
  {
    BatchesCount(curr, batch, target);
    var end := PlainEnd(curr, batch, target);
    var rest := Batches(end + 1, batch, target);
    assert Batches(curr, batch, target) == [(curr, end)] + rest;
    if end < target {
      BatchesTile(end + 1, batch, target);
    } else {
      assert rest == [];
    }
  }

  lemma CountBatch(n: nat, batch: nat)
    ensures (n + 1) * batch == n * batch + batch
    ensures n > 0 ==> n * batch == (n - 1) * batch + batch
  {
  }

  // ---------------------------------------------------------------- the filler as a state machine

  datatype BfPc =
    | Init
    | Round(curr: nat)
    | Ready(curr: nat, end: nat, items: seq<BlockTxsEvents>)
    | Written(end: nat)
    | Sending
    | Completed
    | UpToDate       // nothing to do: returned without a token
    | Failed

  datatype BfAction =
    | Begin                                   // GetBackfillCursor and the range check
    | Fetch(items: seq<BlockTxsEvents>)       // every slot of the batch was fetched
    | Write(reported: bool)                   // BulkCreate committed; `reported` false: its caller got an error
    | Advance(reported: bool)                 // UpdateBackfillCursor took effect
    | Send                                    // the completion token
    | Fail                                    // any error or cancellation: nothing written, the filler returns

  datatype BfView = BfView(rows: Store, cursor: nat, token: bool, pc: BfPc)

  /** What a fetch of a height may return. */
  type Source = nat -> iset<BlockTxsEvents>

  datatype BfParams = BfParams(from: nat, target: nat, batch: nat)

  ghost predicate FetchedBatch(src: Source, curr: nat, end: nat, items: seq<BlockTxsEvents>) {
    && |items| == end - curr + 1
    && forall i :: 0 <= i < |items| ==> items[i] in src(curr + i)
  }

  ghost predicate BfEnabled(v: BfView, a: BfAction, p: BfParams, src: Source) {
    match a
    case Begin => v.pc.Init?
    case Fetch(items) => v.pc.Round? && FetchedBatch(src, v.pc.curr, BatchEnd(v.pc.curr, p.batch, p.target), items)
    case Write(_) => v.pc.Ready? && BulkSpec(v.rows, v.pc.items).Some?
    case Advance(_) => v.pc.Written?
    case Send => v.pc.Sending?
    case Fail => !v.pc.Completed? && !v.pc.UpToDate?
  }

  ghost function BfNext(v: BfView, a: BfAction, p: BfParams, src: Source): BfView
    requires BfEnabled(v, a, p, src)
  {
    match a
    case Begin =>
      var curr := Start(v.cursor, p.from);
      v.(pc := if curr > p.target then UpToDate else Round(curr))
    case Fetch(items) => v.(pc := Ready(v.pc.curr, BatchEnd(v.pc.curr, p.batch, p.target), items))
    case Write(reported) =>
      v.(rows := BulkSpec(v.rows, v.pc.items).value, pc := if reported then Written(v.pc.end) else Failed)
    case Advance(reported) =>
      v.(cursor := v.pc.end,
         pc := if !reported then Failed
               else if Next(v.pc.end) <= p.target then Round(Next(v.pc.end)) else Sending)
    case Send => v.(token := true, pc := Completed)
    case Fail => v.(pc := Failed)
  }

  // ---------------------------------------------------------------- convergence

  type Chain = nat -> BlockTxsEvents

  function Segment(chain: Chain, a: nat, b: nat): seq<BlockTxsEvents>
    requires a <= b
  {
    seq(b - a, i requires 0 <= i < b - a => chain(a + i))
  }

  function Serve(chain: Chain): Source {
    (h: nat) => iset{chain(h)}
  }

  /** Re-creating items that were created before, and going on, is going on. */
  lemma ResumeItems(s0: Store, done: seq<BlockTxsEvents>, rows: Store, again: seq<BlockTxsEvents>,
                    more: seq<BlockTxsEvents>)
    requires CreateAll(s0, done) == Some(rows)
    requires forall i :: 0 <= i < |again| ==> again[i] in done
    ensures CreateAll(rows, again + more) == CreateAll(s0, done + more)
  {
    forall i | 0 <= i < |again| ensures Absorbed(rows, again[i]) {
      CreateAllAbsorbs(s0, done, rows);
    }
    AbsorbedAllNoOp(rows, again);
    CreateAllAppend(rows, again, more);
    CreateAllAppend(s0, done, more);
  }

  /** The heights [from, hi) were created once, in order, on top of s0. */
  ghost predicate Passed(s0: Store, chain: Chain, from: nat, hi: nat, rows: Store) {
    from <= hi && CreateAll(s0, Segment(chain, from, hi)) == Some(rows)
  }

  lemma SegmentSplit(chain: Chain, a: nat, m: nat, b: nat)
    requires a <= m <= b
    ensures Segment(chain, a, b) == Segment(chain, a, m) + Segment(chain, m, b)
  {
  }

  lemma SegmentPart(chain: Chain, from: nat, a: nat, m: nat, hi: nat)
    requires from <= a <= m <= hi
    ensures forall i :: 0 <= i < |Segment(chain, a, m)| ==> Segment(chain, a, m)[i] in Segment(chain, from, hi)
  {
    forall i | 0 <= i < m - a ensures Segment(chain, a, m)[i] in Segment(chain, from, hi) {
      assert Segment(chain, from, hi)[a - from + i] == Segment(chain, a, m)[i];
    }
  }

  lemma Resume(s0: Store, chain: Chain, from: nat, hi: nat, rows: Store, a: nat, b: nat, rows': Store)
    requires Passed(s0, chain, from, hi, rows)
    requires from <= a <= hi && a <= b
    requires CreateAll(rows, Segment(chain, a, b)) == Some(rows')
    ensures Passed(s0, chain, from, if hi < b then b else hi, rows')
  {
    if hi < b {
      SegmentPart(chain, from, a, hi, hi);
      SegmentSplit(chain, a, hi, b);
      SegmentSplit(chain, from, hi, b);
      ResumeItems(s0, Segment(chain, from, hi), rows, Segment(chain, a, hi), Segment(chain, hi, b));
    } else {
      SegmentPart(chain, from, a, b, hi);
      ResumeItems(s0, Segment(chain, from, hi), rows, Segment(chain, a, b), []);
      assert Segment(chain, a, b) + [] == Segment(chain, a, b);
      assert Segment(chain, from, hi) + [] == Segment(chain, from, hi);
    }
  }

  datatype Env = Env(view: BfView, p: BfParams)

  /** A step of backfill, or something that happens to it between steps. */
  datatype EnvAction =
    | Step(a: BfAction)
    | Crash                                // at any point
    | Reset                                // -reindex, before a run
    | Restart(target: nat, batch: nat)     // a new run, with the chain's new last height

  predicate Stopped(pc: BfPc) {
    pc.Failed? || pc.UpToDate? || pc.Completed?
  }

  ghost predicate EnvEnabled(e: Env, a: EnvAction, src: Source) {
    match a
    case Step(b) => BfEnabled(e.view, b, e.p, src)
    case Crash => true
    case Reset => Stopped(e.view.pc)
    case Restart(target, batch) => Stopped(e.view.pc) && e.p.target <= target && Bounded(batch, target)
  }

  ghost function EnvNext(e: Env, a: EnvAction, src: Source): Env
    requires EnvEnabled(e, a, src)
  {
    match a
    case Step(b) => e.(view := BfNext(e.view, b, e.p, src))
    case Crash => e.(view := e.view.(pc := Failed))
    case Reset => e.(view := e.view.(cursor := 0, token := false, pc := Failed))
    case Restart(target, batch) => Env(e.view.(pc := Init, token := false), BfParams(e.p.from, target, batch))
  }

  /** The state after a schedule, None if some step of it was not possible. */
  ghost function EnvRun(e: Env, trace: seq<EnvAction>, src: Source): Option<Env> {
    if trace == [] then Some(e)
    else
      var before, a := EnvRun(e, trace[..|trace| - 1], src), trace[|trace| - 1];
      if before.None? || !EnvEnabled(before.value, a, src) then None else Some(EnvNext(before.value, a, src))
  }

  ghost predicate PcCovered(pc: BfPc, chain: Chain, p: BfParams, hi: nat) {
    match pc
    case Round(curr) => p.from <= curr <= hi && curr <= p.target
    case Ready(curr, end, items) =>
      p.from <= curr <= hi && curr <= end <= p.target && items == Segment(chain, curr, end + 1)
    case Written(end) => p.from <= end < hi && end <= p.target
    case Sending => hi == p.target + 1
    case Completed => hi == p.target + 1
    case _ => true
  }

  /** The store is exactly what creating [from, hi) once, in order, makes of the starting store. */
  ghost predicate Converging(s0: Store, chain: Chain, e: Env, hi: nat) {
    && Bounded(e.p.batch, e.p.target)
    && (hi == e.p.from || hi <= e.p.target + 1)
    && Passed(s0, chain, e.p.from, hi, e.view.rows)
    && (e.view.cursor > 0 ==> e.p.from <= e.view.cursor < hi)
    && (e.view.token ==> e.view.pc.Completed? || e.view.pc.Failed?)
    && (e.view.pc.Completed? ==> e.view.token && e.view.cursor == e.p.target)
    && (e.view.pc.Sending? ==> e.view.cursor == e.p.target)
    && PcCovered(e.view.pc, chain, e.p, hi)
  }

  lemma BeginConverges(s0: Store, chain: Chain, e: Env, hi: nat)
    requires Converging(s0, chain, e, hi) && e.view.pc.Init?
    ensures Converging(s0, chain, e.(view := BfNext(e.view, Begin, e.p, Serve(chain))), hi)
  {
  }

  lemma FetchConverges(s0: Store, chain: Chain, e: Env, hi: nat, items: seq<BlockTxsEvents>)
    requires Converging(s0, chain, e, hi) && BfEnabled(e.view, Fetch(items), e.p, Serve(chain))
    ensures Converging(s0, chain, e.(view := BfNext(e.view, Fetch(items), e.p, Serve(chain))), hi)
  {
  }

  lemma WriteConverges(s0: Store, chain: Chain, e: Env, hi: nat, reported: bool) returns (hi': nat)
    requires Converging(s0, chain, e, hi) && BfEnabled(e.view, Write(reported), e.p, Serve(chain))
    ensures Converging(s0, chain, e.(view := BfNext(e.view, Write(reported), e.p, Serve(chain))), hi')
  {
    var curr, end, rows := e.view.pc.curr, e.view.pc.end, e.view.rows;
    hi' := if hi < end + 1 then end + 1 else hi;
    BulkRefinesCreate(rows, e.view.pc.items);
    Resume(s0, chain, e.p.from, hi, rows, curr, end + 1, BulkSpec(rows, e.view.pc.items).value);
  }

  lemma AdvanceConverges(s0: Store, chain: Chain, e: Env, hi: nat, reported: bool)
    requires Converging(s0, chain, e, hi) && e.view.pc.Written?
    ensures Converging(s0, chain, e.(view := BfNext(e.view, Advance(reported), e.p, Serve(chain))), hi)
  {
  }

  lemma ConvergingStep(s0: Store, chain: Chain, e: Env, hi: nat, a: BfAction) returns (hi': nat)
    requires Converging(s0, chain, e, hi) && BfEnabled(e.view, a, e.p, Serve(chain))
    ensures Converging(s0, chain, e.(view := BfNext(e.view, a, e.p, Serve(chain))), hi')
  {
    hi' := hi;
    match a
    case Begin => BeginConverges(s0, chain, e, hi);
    case Fetch(items) => FetchConverges(s0, chain, e, hi, items);
    case Write(reported) => hi' := WriteConverges(s0, chain, e, hi, reported);
    case Advance(reported) => AdvanceConverges(s0, chain, e, hi, reported);
    case Send =>
    case Fail =>
  }

  /** Any schedule of steps, failures, lost replies, crashes, resets and restarts leaves the store equal to
      one uninterrupted pass over some [from, hi), with the cursor below hi. */
  lemma {:induction false} ScheduleConverges(s0: Store, chain: Chain, p: BfParams, trace: seq<EnvAction>)
    returns (hi: nat)
    requires Bounded(p.batch, p.target)
    requires EnvRun(Env(BfView(s0, 0, false, Init), p), trace, Serve(chain)).Some?
    ensures
      var e := EnvRun(Env(BfView(s0, 0, false, Init), p), trace, Serve(chain)).value;
      Converging(s0, chain, e, hi) && e.p.from == p.from
  {
    var e0 := Env(BfView(s0, 0, false, Init), p);
    if trace == [] {
      hi := p.from;
      assert Segment(chain, p.from, p.from) == [];
    } else {
      var front, last := trace[..|trace| - 1], trace[|trace| - 1];
      hi := ScheduleConverges(s0, chain, p, front);
      var e := EnvRun(e0, front, Serve(chain)).value;
      if last.Step? {
        hi := ConvergingStep(s0, chain, e, hi, last.a);
      }
    }
  }

  /** Completion under any schedule gives the store of one uninterrupted run, and the token
      is out only when the stored cursor is the target. */
  lemma CompletedEqualsUninterrupted(s0: Store, chain: Chain, p: BfParams, trace: seq<EnvAction>, e: Env)
    requires Bounded(p.batch, p.target)
    requires EnvRun(Env(BfView(s0, 0, false, Init), p), trace, Serve(chain)) == Some(e)
    requires e.view.pc.Completed?
    ensures p.from <= e.p.target + 1
    ensures Some(e.view.rows) == CreateAll(s0, Segment(chain, p.from, e.p.target + 1))
    ensures e.view.cursor == e.p.target && e.view.token
  {
    var hi := ScheduleConverges(s0, chain, p, trace);
  }

  /** Block, transactions and events of the item are stored, and nothing else at its height. */
  ghost predicate FullyStored(s: Store, item: BlockTxsEvents) {
    var h := item.block.id;
    && h in s.blocks && s.blocks[h] == item.block
    && RowsAt(s.txs, h) == Own(TxEntries(item.txs))
    && RowsAt(s.events, h) == Own(EventEntries(item.events))
  }

  lemma RowsAtAreOwn<K, V>(t: Table<K, V>, bs: map<nat, Block>, own: string -> Table<K, V>, b: Block)
    requires SoundTable(t, bs, own) && b.id in bs && bs[b.id] == b
    requires own(b.hash).Keys <= t.Keys
    requires forall k :: k in own(b.hash) && k in t ==> t[k].blockId == b.id
    ensures RowsAt(t, b.id) == own(b.hash)
  {
  }

  lemma AbsorbedIsFullyStored(s: Store, w: World, item: BlockTxsEvents)
    requires Sound(s, w) && Fetched(w, item) && Absorbed(s, item)
    requires HashesStay(w) && forall hash :: LogsInTxs(w(hash))
    ensures FullyStored(s, item)
  {
    var h0 :| h0 in s.blocks && s.blocks[h0].hash == item.block.hash;
    assert s.blocks[h0] == item.block;
    var hash := item.block.hash;
    forall k | k in OwnTxs(w)(hash) && k in s.txs ensures s.txs[k].blockId == item.block.id {
      assert Backed(s.txs, k, s.blocks, OwnTxs(w));
      var other := s.blocks[s.txs[k].blockId].hash;
      assert k in OwnTxs(w)(other);
    }
    RowsAtAreOwn(s.txs, s.blocks, OwnTxs(w), item.block);
    forall k | k in OwnEvents(w)(hash) && k in s.events ensures s.events[k].blockId == item.block.id {
      assert Backed(s.events, k, s.blocks, OwnEvents(w));
      var other := s.blocks[s.events[k].blockId].hash;
      assert LogsInTxs(w(hash)) && LogsInTxs(w(other));
      assert k.txHash in OwnTxs(w)(hash) && k.txHash in OwnTxs(w)(other);
    }
    RowsAtAreOwn(s.events, s.blocks, OwnEvents(w), item.block);
  }

  /** At every point of every schedule a positive cursor c means every height of [from, c] is absorbed;
      on a chain whose transactions keep their height it means fully stored. */
  lemma CursorCoversStore(s0: Store, w: World, chain: Chain, p: BfParams, trace: seq<EnvAction>, e: Env, h: nat)
    requires Bounded(p.batch, p.target)
    requires EnvRun(Env(BfView(s0, 0, false, Init), p), trace, Serve(chain)) == Some(e)
    requires Sound(s0, w) && forall n :: Fetched(w, chain(n))
    requires p.from <= h <= e.view.cursor && e.view.cursor > 0
    ensures Absorbed(e.view.rows, chain(h))
    ensures HashesStay(w) && (forall hash :: LogsInTxs(w(hash))) ==> FullyStored(e.view.rows, chain(h))
  {
    var hi := ScheduleConverges(s0, chain, p, trace);
    PassedAbsorbs(s0, w, chain, p.from, hi, e.view.rows, h);
    if HashesStay(w) && forall hash :: LogsInTxs(w(hash)) {
      AbsorbedIsFullyStored(e.view.rows, w, chain(h));
    }
  }

  lemma PassedAbsorbs(s0: Store, w: World, chain: Chain, from: nat, hi: nat, rows: Store, h: nat)
    requires Passed(s0, chain, from, hi, rows) && from <= h < hi
    requires Sound(s0, w) && forall n :: Fetched(w, chain(n))
    ensures Absorbed(rows, chain(h)) && Sound(rows, w)
  {
    var items := Segment(chain, from, hi);
    assert items[h - from] == chain(h) && forall i :: 0 <= i < |items| ==> Fetched(w, items[i]);
    hide *;
    CreateAllAbsorbs(s0, items, rows);
    CreateAllKeepsSound(s0, w, items, rows);
  }
}
