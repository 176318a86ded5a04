/** Runs on which nothing changes the transfers of a height the balance loop has read: one run whose heads follow the
    chain, and any number of runs whose reorgs and late heads stay within the lag. */
module SettledRuns {
  import opened Wrappers
  import opened Tables
  import opened Forwardfill
  import opened Indexer
  import opened Coverage
  import opened Completeness
  import EndToEnd
  import Backfill
  import Ledgers
  import Balances

  /** The block in hand would bring transfers to a height that is not stored and behind the lag. */
  ghost predicate FillsBehind(s: State) {
    && InHand(s.ff) && s.ff.item.block.id !in s.rows.blocks
    && !WithinLag(s, s.ff.item.block.id) && TransfersOf(s.ff.item) != map[]
  }

  /** A stored height behind the lag stays stored. */
  lemma BehindStaysStored(s: State, a: Action, c: Context, h: nat)
    requires Integrity(s, c.w) && Enabled(s, a, c) && DeletesWithinLag(s, a) && h in s.rows.blocks && !WithinLag(s, h)
    ensures h in Next(s, a, c).rows.blocks && s.top <= Next(s, a, c).top
  {
    match a
    case Ff(fa) =>
      if fa.Create? { CreateKeepsSound(s.rows, c.w, s.ff.item, CreateSpec(s.rows, s.ff.item).value); }
    case Bf(ba) =>
      if ba.Write? {
        WriteIsCreateAll(s, ba.reported, c);
        CreateAllKeepsSound(s.rows, c.w, s.bf.items, Next(s, a, c).rows);
      }
    case _ =>
  }

  // ---------------------------------------------------------------- one run

  /** Where the balance loop is, never below where it started. */
  predicate From(v: Ledgers.BalView, c0: nat) {
    c0 <= v.cursor && (!v.pc.Waiting? && !v.pc.Stopped? ==> c0 <= v.pc.at)
  }

  /** The heights read so far are behind the lag, and stored or out of backfill's reach. */
  ghost predicate SeenInRun(s: State, c0: nat) {
    forall h :: h in s.seen ==>
      c0 <= h && !WithinLag(s, h) && (h in s.rows.blocks || (h < s.p.from && (s.bf.Completed? || s.bf.Failed?)))
  }

  ghost predicate HandNear(s: State, c0: nat) {
    InHand(s.ff) && c0 <= s.ff.item.block.id < s.p.from ==> !FillsBehind(s)
  }

  ghost predicate OnTrack(s: State, c: Context, c0: nat) {
    NoMissing(s, c.w) && HandNear(s, c0) && From(s.ledger.view, c0) && SeenInRun(s, c0)
  }

  lemma NearIsSettled(s: State, a: Action, c: Context, c0: nat)
    requires OnTrack(s, c, c0) && Enabled(s, a, c) && Allowed(Near(c0), s, a)
    ensures SettledStep(s, a)
  {
    hide NoMissing, TransfersOf, TransfersAt;
  }

  lemma WriteKeepsBlocks(s: State, a: Action, c: Context)
    requires Integrity(s, c.w) && Enabled(s, a, c) && a.Bf?
    ensures forall h :: h in s.rows.blocks ==> h in Next(s, a, c).rows.blocks
  {
    if a.ba.Write? {
      WriteIsCreateAll(s, a.ba.reported, c);
      CreateAllKeepsSound(s.rows, c.w, s.bf.items, Next(s, a, c).rows);
    }
  }

  lemma HandNearStep(s: State, a: Action, c: Context, c0: nat)
    requires Integrity(s, c.w) && HandNear(s, c0) && Enabled(s, a, c) && Allowed(Near(c0), s, a)
    ensures HandNear(Next(s, a, c), c0)
  {
    hide Integrity, TransfersOf;
    if a.Bf? { WriteKeepsBlocks(s, a, c); }
  }

  lemma SeenInRunStep(s: State, a: Action, c: Context, c0: nat)
    requires OnTrack(s, c, c0) && Enabled(s, a, c) && Allowed(Near(c0), s, a)
    ensures SeenInRun(Next(s, a, c), c0)
  {
    var s' := Next(s, a, c);
    assert !a.Restart? && s'.p == s.p && s.top <= s'.top;
    forall h | h in s'.seen
      ensures c0 <= h && !WithinLag(s', h) &&
              (h in s'.rows.blocks || (h < s'.p.from && (s'.bf.Completed? || s'.bf.Failed?)))
    {
      if h in s.seen {
        if h in s.rows.blocks { BehindStaysStored(s, a, c, h); }
      } else {
        NewlySeen(s, a, c, h);
      }
    }
  }

  lemma NewlySeen(s: State, a: Action, c: Context, h: nat)
    requires NoMissing(s, c.w) && Enabled(s, a, c) && h in Next(s, a, c).seen && h !in s.seen
    ensures s.ledger.view.pc == Ledgers.Reading(h) && Next(s, a, c).rows == s.rows && Next(s, a, c).bf == s.bf
    ensures !WithinLag(s, h) && (h in s.rows.blocks || (h < s.p.from && s.bf.Completed?))
  {
    assert a.Bal? && a.la.ReadLogs?;
    if s.p.from <= h { assert InReach(s, h); }
  }

  lemma FromStep(s: State, a: Action, c: Context, c0: nat)
    requires From(s.ledger.view, c0) && Enabled(s, a, c)
    ensures From(Next(s, a, c).ledger.view, c0)
  {
  }

  lemma NoMissingIntegrity(s: State, w: World)
    requires NoMissing(s, w)
    ensures Integrity(s, w)
  {
  }

  lemma OnTrackStep(s: State, a: Action, c: Context, c0: nat)
    requires OnTrack(s, c, c0) && Enabled(s, a, c) && Allowed(Near(c0), s, a)
    ensures OnTrack(Next(s, a, c), c, c0)
  {
    hide NoMissing, HandNear, SeenInRun, From;
    NoMissingStep(s, a, c);
    NoMissingIntegrity(s, c.w);
    HandNearStep(s, a, c, c0);
    FromStep(s, a, c, c0);
    SeenInRunStep(s, a, c, c0);
  }

  /** One run whose heads follow the chain is settled. */
  lemma {:induction false} OneRunSettles(s0: State, trace: seq<Action>, s: State, c: Context)
    requires RunStart(s0, c.w) && s0.seen == {}
    requires Run(Free(Near(s0.ledger.view.cursor)), s0, trace, c) == Some(s)
    ensures OnTrack(s, c, s0.ledger.view.cursor) && Run(Free(Settled), s0, trace, c) == Some(s)
  {
    hide FreeStep, SettledStep, Enabled, NoMissing;
    var c0 := s0.ledger.view.cursor;
    if trace == [] {
      NoMissingInOneRun(s0, trace, s, c);
    } else {
      var front, a := trace[..|trace| - 1], trace[|trace| - 1];
      var before := Run(Free(Near(c0)), s0, front, c).value;
      OneRunSettles(s0, front, before, c);
      assert Allowed(Near(c0), before, a);
      NearIsSettled(before, a, c, c0);
      OnTrackStep(before, a, c, c0);
      assert Allowed(Settled, before, a);
    }
  }

  /** At every point of one run, wherever the balance cursor and `from` are, and whatever backfill and forwardfill
      wrote and replaced meanwhile, the balances are those of the logs now stored. */
  lemma OneRunBalances(s0: State, trace: seq<Action>, s: State, c: Context, m0: Balances.Ledger, c0: nat,
                       logs: Ledgers.Logs)
    requires RunStart(s0, c.w) && EveryBlockFull(s0.rows, c.w) && s0.seen == {} && s0.ledger == Ledgers.Fresh(m0, c0)
    requires Run(Free(Near(c0)), s0, trace, c) == Some(s) && EndToEnd.StoredLogs(s.rows, logs)
    ensures Ledgers.Accounts(m0, c0, s.ledger, logs, c.unpack)
    ensures s.ledger.torn == 0 ==> s.ledger.view.balances == Ledgers.Replayed(m0, c0, s.ledger.view, logs, c.unpack)
  {
    OneRunSettles(s0, trace, s, c);
    EndToEnd.BalancesAreStoredLogs(s0, trace, s, c, m0, c0, logs);
  }

  /** In particular on a fresh database, for any block to start from. */
  lemma FirstRunBalances(p: Backfill.BfParams, trace: seq<Action>, s: State, c: Context, logs: Ledgers.Logs)
    requires Backfill.Bounded(p.batch, p.target)
    requires Run(Free(Near(0)), Indexer.Fresh(p), trace, c) == Some(s) && EndToEnd.StoredLogs(s.rows, logs)
    ensures Ledgers.Accounts(map[], 0, s.ledger, logs, c.unpack)
    ensures s.ledger.torn == 0 ==> s.ledger.view.balances == Ledgers.Replayed(map[], 0, s.ledger.view, logs, c.unpack)
  {
    FirstRunStarts(p, c.w);
    OneRunBalances(Indexer.Fresh(p), trace, s, c, map[], 0, logs);
  }

  // ---------------------------------------------------------------- any number of runs

  /** The heights read so far are behind the lag, and stored or below all that backfill may still fetch. */
  ghost predicate SeenSafe(s: State) {
    forall h :: h in s.seen ==> !WithinLag(s, h) && (h in s.rows.blocks || h < Floor(s))
  }

  /** Backfill is at or above its floor. */
  predicate AboveFloor(s: State) {
    s.bf.Round? || s.bf.Ready? || s.bf.Written? ==> Floor(s) <= Covered(s)
  }

  predicate ReadingBehind(s: State) {
    s.ledger.view.pc.Reading? ==> !WithinLag(s, s.ledger.view.pc.at)
  }

  ghost predicate OnSteady(s: State, w: World) {
    Vouched(s, w) && SeenSafe(s) && AboveFloor(s) && ReadingBehind(s) && !FillsBehind(s)
  }

  lemma SteadyIsSettled(s: State, a: Action, c: Context)
    requires OnSteady(s, c.w) && Enabled(s, a, c) && Allowed(Steady, s, a)
    ensures SettledStep(s, a)
  {
    hide TransfersOf, TransfersAt, Sound;
    if a.Bf? && a.ba.Write? {
      forall i | 0 <= i < |s.bf.items| ensures AddsNothingRead(s, s.bf.items[i]) {
        assert s.bf.items[i].block.id == s.bf.curr + i;
      }
    }
  }

  lemma FloorStep(s: State, a: Action, c: Context)
    requires BfInRange(s) && AboveFloor(s) && Enabled(s, a, c) && !a.Reset?
    ensures AboveFloor(Next(s, a, c)) && Floor(s) <= Floor(Next(s, a, c))
  {
    if a.Bf? {
      if a.ba.Advance? { assert Backfill.Next(s.bf.end) == s.bf.end + 1; }
      if a.ba.Begin? && s.backCursor > 0 { assert Backfill.Next(s.backCursor) == s.backCursor + 1; }
    }
  }

  lemma ReadingBehindStep(s: State, a: Action, c: Context)
    requires BelowTop(s) && ReadingBehind(s) && Enabled(s, a, c)
    ensures ReadingBehind(Next(s, a, c)) && s.top <= Next(s, a, c).top
  {
  }

  lemma HandStep(s: State, a: Action, c: Context)
    requires Integrity(s, c.w) && !FillsBehind(s) && Enabled(s, a, c) && Allowed(Steady, s, a)
    ensures !FillsBehind(Next(s, a, c))
  {
    hide Integrity, TransfersOf;
    if a.Bf? { WriteKeepsBlocks(s, a, c); }
  }

  lemma SeenSafeStep(s: State, a: Action, c: Context)
    requires OnSteady(s, c.w) && Enabled(s, a, c) && Allowed(Steady, s, a)
    ensures SeenSafe(Next(s, a, c))
  {
    var s' := Next(s, a, c);
    FloorStep(s, a, c);
    ReadingBehindStep(s, a, c);
    forall h | h in s'.seen ensures !WithinLag(s', h) && (h in s'.rows.blocks || h < Floor(s')) {
      if h in s.seen {
        if h in s.rows.blocks { BehindStaysStored(s, a, c, h); }
      } else {
        assert a.Bal? && a.la.ReadLogs? && s.ledger.view.pc == Ledgers.Reading(h);
      }
    }
  }

  lemma SteadyStep(s: State, a: Action, c: Context)
    requires OnSteady(s, c.w) && Enabled(s, a, c) && Allowed(Steady, s, a)
    ensures OnSteady(Next(s, a, c), c.w)
  {
    VouchedParts(s, c.w);
    hide Vouched, SeenSafe, AboveFloor, ReadingBehind, FillsBehind;
    VouchedStep(s, a, c);
    FloorStep(s, a, c);
    ReadingBehindStep(s, a, c);
    HandStep(s, a, c);
    SeenSafeStep(s, a, c);
  }

  lemma VouchedParts(s: State, w: World)
    requires Vouched(s, w)
    ensures Integrity(s, w) && BelowTop(s) && BfInRange(s)
  {
  }

  /** Any number of runs, with crashes and restarts, is settled if reorgs and late heads stay within the lag and
      the loop reads no height that backfill may still fetch. */
  lemma {:induction false} SteadySettles(s0: State, trace: seq<Action>, s: State, c: Context)
    requires OnSteady(s0, c.w) && Run(Free(Steady), s0, trace, c) == Some(s)
    ensures OnSteady(s, c.w) && Run(Free(Settled), s0, trace, c) == Some(s)
  {
    hide FreeStep, SettledStep, Enabled, OnSteady;
    if trace == [] {
    } else {
      var front, a := trace[..|trace| - 1], trace[|trace| - 1];
      var before := Run(Free(Steady), s0, front, c).value;
      SteadySettles(s0, front, before, c);
      assert Allowed(Steady, before, a);
      SteadyIsSettled(before, a, c);
      SteadyStep(before, a, c);
      assert Allowed(Settled, before, a);
    }
  }

  lemma RunStartIsSteady(s: State, w: World)
    requires RunStart(s, w) && s.seen == {}
    ensures OnSteady(s, w)
  {
    RunStartVouches(s, w);
  }

  /** At every point of any number of such runs the balances are those of the logs now stored. */
  lemma SteadyBalances(s0: State, trace: seq<Action>, s: State, c: Context, m0: Balances.Ledger, c0: nat,
                       logs: Ledgers.Logs)
    requires OnSteady(s0, c.w) && EveryBlockFull(s0.rows, c.w) && s0.ledger == Ledgers.Fresh(m0, c0)
    requires Run(Free(Steady), s0, trace, c) == Some(s) && EndToEnd.StoredLogs(s.rows, logs)
    ensures Ledgers.Accounts(m0, c0, s.ledger, logs, c.unpack) && s.ledger.torn <= Ledgers.Failures(Project(trace))
    ensures s.ledger.torn == 0 ==> s.ledger.view.balances == Ledgers.Replayed(m0, c0, s.ledger.view, logs, c.unpack)
  {
    SteadySettles(s0, trace, s, c);
    assert Integrity(s0, c.w) by { VouchedParts(s0, c.w); }
    EndToEnd.BalancesAreStoredLogs(s0, trace, s, c, m0, c0, logs);
  }
}
