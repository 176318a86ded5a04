/** Which heights are stored (internal/core/services/indexer.go:22-72): within a run the balance loop never reads
    a missing block, and over runs a positive backfill cursor vouches for all heights up to it but those that
    forwardfill lost. */
module Coverage {
  import opened Wrappers
  import opened Tables
  import opened Forwardfill
  import opened Indexer
  import Backfill
  import Ledgers

  /** The first height backfill has not yet covered; a call that is not running leaves what its cursor says. */
  function Covered(s: State): nat {
    match s.bf
    case Round(curr) => curr
    case Ready(curr, _, _) => curr
    case Written(end) => end + 1
    case Sending => s.p.target + 1
    case Completed => s.p.target + 1
    case _ => if s.backCursor > 0 then s.backCursor + 1 else s.p.from
  }

  predicate InReach(s: State, h: nat) {
    s.p.from <= h < Covered(s) || s.p.target < h <= s.top
  }

  ghost predicate Filled(s: State) {
    forall h :: InReach(s, h) ==> h in s.rows.blocks || s.hole == Some(h)
  }

  ghost predicate BelowTop(s: State) {
    s.p.target <= s.top && forall h :: h in s.rows.blocks ==> h <= s.top
  }

  /** The hole is the height of the head in hand, within the lag of the top. */
  ghost predicate HoleInHand(s: State) {
    && (s.hole.Some? ==> s.hole.value <= s.top && s.hole.value + Ledgers.LAG >= s.top)
    && match s.ff
       case Listening => s.hole.None?
       case Reading(item) => s.hole.None? && item.block.id <= s.top + 1
       case Deleting(item) => s.hole.None? && item.block.id <= s.top
       case Announcing(item) => s.hole == Some(item.block.id)
       case Creating(item) => item.block.id <= s.top + 1 && (s.hole.Some? ==> s.hole == Some(item.block.id))
       case Publishing(_, _) => s.hole.None?
       case Stopped => true
  }

  /** Backfill is within its range, and ahead of its cursor. */
  ghost predicate BfInRange(s: State) {
    && Backfill.Bounded(s.p.batch, s.p.target)
    && s.backCursor + 1 < WORD
    && (s.backCursor > 0 ==> s.backCursor < Covered(s))
    && match s.bf
       case Round(curr) => curr <= s.p.target
       case Ready(curr, end, _) => curr <= end <= s.p.target
       case Written(end) => end <= s.p.target
       case _ => true
  }

  /** The gate: the loop runs only after the token, and looks at heights behind the lag of the top. */
  ghost predicate BalGated(s: State) {
    && (s.token ==> s.bf.Completed?)
    && (!s.ledger.view.pc.Waiting? && !s.ledger.view.pc.Stopped? ==> s.bf.Completed?)
    && (s.ledger.view.pc.Reading? ==> s.ledger.view.pc.at + Ledgers.LAG < s.top)
  }

  ghost predicate NoMissing(s: State, w: World) {
    Integrity(s, w) && Filled(s) && BelowTop(s) && HoleInHand(s) && BfInRange(s) && BalGated(s)
  }

  /** The heights a run does not fetch again: up to a positive cursor, and between the target and the top. */
  predicate Taken(s: State, h: nat) {
    (s.backCursor > 0 && s.p.from <= h <= s.backCursor) || s.p.target < h <= s.top
  }

  ghost predicate LostUnfilled(s: State) {
    forall h :: h in s.lost ==> h !in s.rows.blocks
  }

  /** The start of a run from which nothing is missing: every height it will not fetch again is stored. */
  ghost predicate RunStart(s: State, w: World) {
    && Integrity(s, w) && BelowTop(s) && Backfill.Bounded(s.p.batch, s.p.target) && LostUnfilled(s)
    && s.ff.Listening? && s.bf.Init? && s.ledger.view.pc.Waiting? && !s.token && s.hole.None?
    && s.backCursor + 1 < WORD
    && (forall h :: Taken(s, h) ==> h in s.rows.blocks)
  }

  // ---------------------------------------------------------------- one run

  /** The parts of NoMissing that a step of forwardfill touches. */
  ghost predicate NoHoleBut(s: State) {
    Filled(s) && BelowTop(s) && HoleInHand(s)
  }

  lemma CreateFills(s: State, rows': Store, s': State)
    requires s.ff.Creating? && NoHoleBut(s)
    requires forall h :: h in s.rows.blocks || h == s.ff.item.block.id <==> h in rows'.blocks
    requires s'.rows == rows' && s'.ff == Publishing(s.ff.item, 0) && s'.top == Max(s.top, s.ff.item.block.id) &&
             s'.hole.None?
    requires s'.bf == s.bf && s'.p == s.p && s'.backCursor == s.backCursor
    ensures NoHoleBut(s')
  {
  }

  lemma FfCreateNoMissing(s: State, committed: bool, c: Context)
    requires NoMissing(s, c.w) && Enabled(s, Ff(Create(committed)), c) && committed
    ensures NoHoleBut(Next(s, Ff(Create(committed)), c))
  {
    var rows' := CreateSpec(s.rows, s.ff.item).value;
    assert forall h :: h in s.rows.blocks || h == s.ff.item.block.id <==> h in rows'.blocks by {
      CreateKeepsSound(s.rows, c.w, s.ff.item, rows');
    }
    CreateFills(s, rows', Next(s, Ff(Create(true)), c));
  }

  lemma FfDeleteNoMissing(s: State, reported: bool, c: Context)
    requires NoMissing(s, c.w) && Enabled(s, Ff(Delete(reported)), c) && Allowed(OneRun, s, Ff(Delete(reported)))
    ensures NoHoleBut(Next(s, Ff(Delete(reported)), c))
  {
  }

  lemma FfOtherNoMissing(s: State, a: FfAction, c: Context)
    requires NoMissing(s, c.w) && Enabled(s, Ff(a), c) && Allowed(OneRun, s, Ff(a)) && !a.Create? && !a.Delete?
    ensures NoHoleBut(Next(s, Ff(a), c))
  {
  }

  lemma FfNoMissing(s: State, a: FfAction, c: Context)
    requires NoMissing(s, c.w) && Enabled(s, Ff(a), c) && Allowed(OneRun, s, Ff(a))
    ensures NoMissing(Next(s, Ff(a), c), c.w)
  {
    FfIntegrity(s, a, c);
    match a
    case Create(committed) => FfCreateNoMissing(s, committed, c);
    case Delete(reported) => FfDeleteNoMissing(s, reported, c);
    case _ => FfOtherNoMissing(s, a, c);
  }

  /** A bulk write stores every height of its batch, and no other new one. */
  lemma BulkHeights(s: Store, w: World, items: seq<BlockTxsEvents>, s': Store, curr: nat, end: nat)
    requires Sound(s, w) && CreateAll(s, items) == Some(s')
    requires curr <= end && BfHolds(Backfill.Ready(curr, end, items), w)
    ensures Sound(s', w)
    ensures forall h :: h in s.blocks || curr <= h <= end <==> h in s'.blocks
  {
    CreateAllKeepsSound(s, w, items, s');
    forall h | curr <= h <= end ensures h in s'.blocks {
      assert items[h - curr].block.id == h;
    }
    forall h | h in s'.blocks && h !in s.blocks ensures curr <= h <= end {
      CreateAllHeights(s, items, s', h);
    }
  }

  lemma WriteFills(s: State, rows': Store, s': State)
    requires s.bf.Ready? && Filled(s) && BelowTop(s) && BfInRange(s)
    requires forall h :: h in s.rows.blocks || s.bf.curr <= h <= s.bf.end <==> h in rows'.blocks
    requires s'.bf == Backfill.Written(s.bf.end) || s'.bf.Failed?
    requires s'.rows == rows' && s'.hole == s.hole && s'.top == s.top && s'.p == s.p && s'.backCursor == s.backCursor
    ensures Filled(s') && BelowTop(s') && BfInRange(s')
  {
    forall h: nat | InReach(s', h) ensures h in s'.rows.blocks || s'.hole == Some(h) {
      assert InReach(s, h) || s.bf.curr <= h <= s.bf.end;
    }
  }

  lemma WriteNoMissing(s: State, reported: bool, c: Context)
    requires NoMissing(s, c.w) && Enabled(s, Bf(Backfill.Write(reported)), c)
    ensures NoMissing(Next(s, Bf(Backfill.Write(reported)), c), c.w)
  {
    var rows' := BulkSpec(s.rows, s.bf.items).value;
    var s' := Next(s, Bf(Backfill.Write(reported)), c);
    assert Integrity(s', c.w) by { BfIntegrity(s, Backfill.Write(reported), c); }
    assert Filled(s') && BelowTop(s') && BfInRange(s') by {
      BulkRefinesCreate(s.rows, s.bf.items);
      BulkHeights(s.rows, c.w, s.bf.items, rows', s.bf.curr, s.bf.end);
      WriteFills(s, rows', s');
    }
  }

  /** The other steps of backfill: they move its program counter and its cursor, within range and ahead of it. */
  lemma BfStaysInRange(s: State, a: Backfill.BfAction, c: Context)
    requires BfInRange(s) && Enabled(s, Bf(a), c) && !a.Write?
    ensures
      var s' := Next(s, Bf(a), c);
      && BfInRange(s') && s'.rows == s.rows && s'.hole == s.hole && s'.top == s.top && s'.p == s.p
      && (Covered(s') <= Covered(s) || Covered(s') <= s.p.from)
  {
    if a.Fetch? { Backfill.NoWrap(s.bf.curr, s.p.batch, s.p.target); }
    if a.Advance? { assert Backfill.Next(s.bf.end) == s.bf.end + 1; }
    if a.Begin? { assert Backfill.Next(s.backCursor) == s.backCursor + 1; }
  }

  lemma BfNoMissing(s: State, a: Backfill.BfAction, c: Context)
    requires NoMissing(s, c.w) && Enabled(s, Bf(a), c)
    ensures NoMissing(Next(s, Bf(a), c), c.w)
  {
    if a.Write? {
      WriteNoMissing(s, a.reported, c);
    } else {
      BfIntegrity(s, a, c);
      BfStaysInRange(s, a, c);
    }
  }

  lemma BalNoMissing(s: State, a: Ledgers.BalAction, c: Context)
    requires NoMissing(s, c.w) && Enabled(s, Bal(a), c)
    ensures NoMissing(Next(s, Bal(a), c), c.w)
  {
    hide Integrity, HoleInHand;
    var s' := Next(s, Bal(a), c);
    assert s' == s.(ledger := s'.ledger, token := s'.token, seen := s'.seen);
    IntegrityOf(s, s', c.w);
  }

  /** Integrity and the hole are about the store, the two fillers that write it, and the top. */
  lemma IntegrityOf(s: State, s': State, w: World)
    requires s'.rows == s.rows && s'.ff == s.ff && s'.bf == s.bf && s'.hole == s.hole && s'.top == s.top
    ensures Integrity(s', w) <==> Integrity(s, w)
    ensures HoleInHand(s') <==> HoleInHand(s)
  {
  }

  lemma NoMissingStep(s: State, a: Action, c: Context)
    requires NoMissing(s, c.w) && Enabled(s, a, c) && Allowed(OneRun, s, a)
    ensures NoMissing(Next(s, a, c), c.w)
  {
    match a
    case Ff(fa) => FfNoMissing(s, fa, c);
    case Bf(ba) => BfNoMissing(s, ba, c);
    case Bal(la) => BalNoMissing(s, la, c);
    case Crash =>
  }

  lemma {:induction false} NoMissingInOneRun(s0: State, trace: seq<Action>, s: State, c: Context)
    requires RunStart(s0, c.w) && Run(OneRun, s0, trace, c) == Some(s)
    ensures NoMissing(s, c.w) && s.p == s0.p
  {
    if trace == [] {
    } else {
      var front := trace[..|trace| - 1];
      NoMissingInOneRun(s0, front, Run(OneRun, s0, front, c).value, c);
      NoMissingStep(Run(OneRun, s0, front, c).value, trace[|trace| - 1], c);
    }
  }

  /** Within a run every block at or above `from` that the balance loop is about to read is stored, and while
      the loop runs [from, max] has no hole but the one height deleted and not yet re-created. */
  lemma BalancefillReadsStoredBlocks(s0: State, trace: seq<Action>, s: State, c: Context, max: nat)
    requires RunStart(s0, c.w) && Run(OneRun, s0, trace, c) == Some(s)
    requires !s.ledger.view.pc.Waiting? && !s.ledger.view.pc.Stopped? && IsMax(s.rows.blocks, max)
    ensures forall h :: s.p.from <= h <= max ==> h in s.rows.blocks || s.hole == Some(h)
    ensures s.ledger.view.pc.Reading? && s.p.from <= s.ledger.view.pc.at ==> s.ledger.view.pc.at in s.rows.blocks
  {
    NoMissingInOneRun(s0, trace, s, c);
    forall h | s.p.from <= h <= max ensures h in s.rows.blocks || s.hole == Some(h) {
      if s.rows.blocks == map[] {
        assert max == 0;
        assert InReach(s, h);
      } else {
        assert InReach(s, h);
      }
    }
    if s.ledger.view.pc.Reading? && s.p.from <= s.ledger.view.pc.at {
      assert InReach(s, s.ledger.view.pc.at);
    }
  }

  /** A height behind the lag keeps its block: what the loop has read is not replaced within the run. */
  lemma ReadBlockStays(s: State, a: Action, c: Context, h: nat)
    requires NoMissing(s, c.w) && Enabled(s, a, c) && Allowed(OneRun, s, a)
    requires h in s.rows.blocks && h + Ledgers.LAG < s.top
    ensures h in Next(s, a, c).rows.blocks && Next(s, a, c).rows.blocks[h] == s.rows.blocks[h]
    ensures h + Ledgers.LAG < Next(s, a, c).top
  {
    match a
    case Ff(fa) =>
      if fa.Create? { CreateKeepsSound(s.rows, c.w, s.ff.item, CreateSpec(s.rows, s.ff.item).value); }
    case Bf(ba) =>
      if ba.Write? {
        BulkRefinesCreate(s.rows, s.bf.items);
        CreateAllKeepsSound(s.rows, c.w, s.bf.items, BulkSpec(s.rows, s.bf.items).value);
      }
    case _ =>
  }

  // ---------------------------------------------------------------- over runs

  /** Everything below what backfill covered is stored, but the heights forwardfill lost. */
  ghost predicate Vouched(s: State, w: World) {
    && Integrity(s, w) && BelowTop(s) && BfInRange(s) && LostUnfilled(s)
    && forall h :: s.p.from <= h < Covered(s) ==> h in s.rows.blocks || h in s.lost
  }

  /** Where the head in hand is, if there is one. */
  predicate InHand(pc: FfPc) {
    pc.Reading? || pc.Deleting? || pc.Announcing? || pc.Creating?
  }

  /** A step keeps every height that is stored or lost stored or lost, and fills none above the top. */
  ghost predicate KeepsHeights(s: State, s': State) {
    && (forall h :: h in s.rows.blocks || h in s.lost ==> h in s'.rows.blocks || h in s'.lost)
    && (forall h :: h in s'.rows.blocks ==> h in s.rows.blocks || h <= s'.top)
    && LostUnfilled(s') && s.top <= s'.top
  }

  lemma CreateKeepsHeights(s: State, committed: bool, c: Context)
    requires Integrity(s, c.w) && LostUnfilled(s) && Enabled(s, Ff(Create(committed)), c)
    ensures
      var s' := Next(s, Ff(Create(committed)), c);
      KeepsHeights(s, s') && (s.ff.item.block.id in s'.rows.blocks || s.ff.item.block.id in s'.lost)
  {
    CreateKeepsSound(s.rows, c.w, s.ff.item, CreateSpec(s.rows, s.ff.item).value);
  }

  lemma FfKeepsHeights(s: State, a: FfAction, c: Context)
    requires Integrity(s, c.w) && LostUnfilled(s) && Enabled(s, Ff(a), c)
    ensures KeepsHeights(s, Next(s, Ff(a), c))
  {
    if a.Create? { CreateKeepsHeights(s, a.committed, c); }
  }

  lemma FfVouched(s: State, a: FfAction, c: Context)
    requires Vouched(s, c.w) && Enabled(s, Ff(a), c)
    ensures Vouched(Next(s, Ff(a), c), c.w)
  {
    FfIntegrity(s, a, c);
    FfKeepsHeights(s, a, c);
    VouchedIs(s, Next(s, Ff(a), c), c.w);
  }

  lemma VouchedIs(s: State, s': State, w: World)
    requires Vouched(s, w) && Integrity(s', w) && KeepsHeights(s, s')
    requires s'.bf == s.bf && s'.p == s.p && s'.backCursor == s.backCursor
    ensures Vouched(s', w)
  {
  }

  lemma WriteKeepsHeights(s: State, reported: bool, c: Context)
    requires Vouched(s, c.w) && Enabled(s, Bf(Backfill.Write(reported)), c)
    ensures
      var s' := Next(s, Bf(Backfill.Write(reported)), c);
      KeepsHeights(s, s') && forall h :: s.bf.curr <= h <= s.bf.end ==> h in s'.rows.blocks
  {
    BulkRefinesCreate(s.rows, s.bf.items);
    BulkHeights(s.rows, c.w, s.bf.items, BulkSpec(s.rows, s.bf.items).value, s.bf.curr, s.bf.end);
  }

  lemma WriteVouched(s: State, reported: bool, c: Context)
    requires Vouched(s, c.w) && Enabled(s, Bf(Backfill.Write(reported)), c)
    ensures Vouched(Next(s, Bf(Backfill.Write(reported)), c), c.w)
  {
    BfIntegrity(s, Backfill.Write(reported), c);
    WriteKeepsHeights(s, reported, c);
  }

  lemma BfVouched(s: State, a: Backfill.BfAction, c: Context)
    requires Vouched(s, c.w) && Enabled(s, Bf(a), c)
    ensures Vouched(Next(s, Bf(a), c), c.w)
  {
    if a.Write? {
      WriteVouched(s, a.reported, c);
    } else {
      BfIntegrity(s, a, c);
      BfStaysInRange(s, a, c);
    }
  }

  lemma VouchedStep(s: State, a: Action, c: Context)
    requires Vouched(s, c.w) && Enabled(s, a, c)
    ensures Vouched(Next(s, a, c), c.w)
  {
    hide Vouched, Enabled, Next;
    match a
    case Ff(fa) => FfVouched(s, fa, c);
    case Bf(ba) => BfVouched(s, ba, c);
    case _ => OtherVouched(s, a, c);
  }

  lemma OtherVouched(s: State, a: Action, c: Context)
    requires Vouched(s, c.w) && Enabled(s, a, c) && !a.Ff? && !a.Bf?
    ensures Vouched(Next(s, a, c), c.w)
  {
    hide Sound, Ledgers.Next, Ledgers.BalNext;
  }

  /** In every reachable state of every interleaving, restarts, resets and dropped commits included, a positive
      backfill cursor vouches for every height of [from, cursor], but those that forwardfill deleted, or created
      without a commit, and that nobody stored since. */
  lemma {:induction false} CursorVouches(s0: State, trace: seq<Action>, s: State, c: Context)
    requires Vouched(s0, c.w) && Run(Anything, s0, trace, c) == Some(s)
    ensures Vouched(s, c.w)
    ensures forall h :: s.backCursor > 0 && s.p.from <= h <= s.backCursor ==> (h in s.rows.blocks <==> h !in s.lost)
  {
    if trace == [] {
    } else {
      var front := trace[..|trace| - 1];
      CursorVouches(s0, front, Run(Anything, s0, front, c).value, c);
      VouchedStep(Run(Anything, s0, front, c).value, trace[|trace| - 1], c);
    }
  }

  lemma RunStartVouches(s: State, w: World)
    requires RunStart(s, w)
    ensures Vouched(s, w) && Accounted(s)
  {
    assert forall h :: s.p.from <= h < Covered(s) ==> Taken(s, h);
  }

  /** The heights above the target up to the top are stored or lost, and the head in hand is at most one above. */
  ghost predicate Accounted(s: State) {
    && (forall h :: s.p.target < h <= s.top ==> h in s.rows.blocks || h in s.lost)
    && (InHand(s.ff) ==> s.ff.item.block.id <= s.top + 1)
  }

  lemma FfAccounted(s: State, a: FfAction, c: Context)
    requires Integrity(s, c.w) && LostUnfilled(s) && Accounted(s) && Enabled(s, Ff(a), c) && Allowed(Follows, s, Ff(a))
    ensures Accounted(Next(s, Ff(a), c))
  {
    FfKeepsHeights(s, a, c);
    HandFollows(s, a, c);
    if a.Create? { CreateKeepsHeights(s, a.committed, c); }
    AccountedIs(s, Next(s, Ff(a), c), a);
  }

  lemma AccountedIs(s: State, s': State, a: FfAction)
    requires Accounted(s) && KeepsHeights(s, s') && s'.p == s.p && (InHand(s'.ff) ==> s'.ff.item.block.id <= s'.top + 1)
    requires if a.Create? then InHand(s.ff) && s'.top == Max(s.top, s.ff.item.block.id) &&
                               (s.ff.item.block.id in s'.rows.blocks || s.ff.item.block.id in s'.lost)
             else s'.top == s.top
    ensures Accounted(s')
  {
    if a.Create? {
      forall h | s.p.target < h <= s'.top ensures h in s'.rows.blocks || h in s'.lost {
        assert h <= s.top || h == s.ff.item.block.id;
      }
    }
  }

  lemma HandFollows(s: State, a: FfAction, c: Context)
    requires Accounted(s) && Enabled(s, Ff(a), c) && Allowed(Follows, s, Ff(a))
    ensures var s' := Next(s, Ff(a), c); InHand(s'.ff) ==> s'.ff.item.block.id <= s'.top + 1
  {
  }

  lemma AccountedStep(s: State, a: Action, c: Context)
    requires Vouched(s, c.w) && Accounted(s) && Enabled(s, a, c) && Allowed(Follows, s, a)
    ensures Accounted(Next(s, a, c))
  {
    match a
    case Ff(fa) => FfAccounted(s, fa, c);
    case Bf(ba) => if ba.Write? { WriteKeepsHeights(s, ba.reported, c); }
    case _ =>
  }

  lemma {:induction false} AccountedInEveryRun(s0: State, trace: seq<Action>, s: State, c: Context)
    requires Vouched(s0, c.w) && Accounted(s0) && Run(Follows, s0, trace, c) == Some(s)
    ensures Vouched(s, c.w) && Accounted(s)
  {
    if trace == [] {
    } else {
      var front := trace[..|trace| - 1];
      var before := Run(Follows, s0, front, c).value;
      AccountedInEveryRun(s0, front, before, c);
      VouchedStep(before, trace[|trace| - 1], c);
      AccountedStep(before, trace[|trace| - 1], c);
    }
  }

  /** The first run on a fresh database, whatever block it is told to start from, starts with nothing missing. */
  lemma FirstRunStarts(p: Backfill.BfParams, w: World)
    requires Backfill.Bounded(p.batch, p.target)
    ensures RunStart(Indexer.Fresh(p), w)
  {
  }

  /** After any number of runs, crashes, resets and restarts, a new run starts with nothing missing if and only if
      no lost height is left among those it will not fetch again. */
  lemma RestartStartsIff(s0: State, trace: seq<Action>, s: State, c: Context, target: nat, batch: nat)
    requires RunStart(s0, c.w) && Run(Follows, s0, trace, c) == Some(s)
    requires Enabled(s, Restart(target, batch), c) && Allowed(Follows, s, Restart(target, batch))
    ensures
      var s' := Next(s, Restart(target, batch), c);
      RunStart(s', c.w) <==> forall h :: h in s.lost ==> !Taken(s', h)
  {
    RunStartVouches(s0, c.w);
    AccountedInEveryRun(s0, trace, s, c);
    var s' := Next(s, Restart(target, batch), c);
    VouchedStep(s, Restart(target, batch), c);
    AccountedStep(s, Restart(target, batch), c);
    forall h | Taken(s', h) ensures h in s'.rows.blocks || h in s'.lost {}
  }

  lemma BalGatedStep(s: State, a: Action, c: Context)
    requires BalGated(s) && BelowTop(s) && Enabled(s, a, c)
    ensures BalGated(Next(s, a, c))
  {
  }

  lemma {:induction false} GatedInEveryRun(s0: State, trace: seq<Action>, s: State, c: Context)
    requires Vouched(s0, c.w) && Accounted(s0) && BalGated(s0) && Run(Follows, s0, trace, c) == Some(s)
    ensures Vouched(s, c.w) && Accounted(s) && BalGated(s)
  {
    if trace == [] {
    } else {
      var front := trace[..|trace| - 1];
      var before := Run(Follows, s0, front, c).value;
      GatedInEveryRun(s0, front, before, c);
      hide Vouched, Accounted, BalGated;
      assert BelowTop(before) by { VouchedBelowTop(before, c.w); }
      VouchedStep(before, trace[|trace| - 1], c);
      AccountedStep(before, trace[|trace| - 1], c);
      BalGatedStep(before, trace[|trace| - 1], c);
    }
  }

  lemma VouchedBelowTop(s: State, w: World)
    requires Vouched(s, w)
    ensures BelowTop(s)
  {
  }

  /** Over any number of runs, with crashes, restarts, dropped commits and reorgs of any depth, a block at or above
      `from` that the balance loop is about to read is missing if and only if its height was lost. */
  lemma ReadsMissOnlyLost(s0: State, trace: seq<Action>, s: State, c: Context)
    requires RunStart(s0, c.w) && Run(Follows, s0, trace, c) == Some(s)
    requires s.ledger.view.pc.Reading? && s.p.from <= s.ledger.view.pc.at
    ensures s.ledger.view.pc.at !in s.rows.blocks <==> s.ledger.view.pc.at in s.lost
  {
    RunStartVouches(s0, c.w);
    GatedInEveryRun(s0, trace, s, c);
  }
}
