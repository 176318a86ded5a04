/** What the three fillers achieve together: as long as stored blocks are complete and nothing changes the transfers
    of a height the balance loop has read, the balances are those of the logs now stored, over any number of runs. */
module EndToEnd {
  import opened Wrappers
  import opened Tables
  import opened LogReads
  import opened Indexer
  import opened Completeness
  import Backfill
  import Forwardfill
  import Ledgers
  import Balances

  lemma RowsReadOf(events: Table<EventKey, EventCols>, own: Table<EventKey, EventCols>, signatures: seq<string>, h: nat)
    requires RowsAt(events, h) == own
    ensures RowsRead(events, signatures, h) == RowsRead(own, signatures, h)
  {
    forall k ensures k in RowsRead(events, signatures, h) <==> k in RowsRead(own, signatures, h) {
      assert k in events && events[k].blockId == h <==> k in RowsAt(events, h);
    }
    forall k | k in RowsRead(events, signatures, h)
      ensures RowsRead(events, signatures, h)[k] == RowsRead(own, signatures, h)[k]
    {
      assert k in RowsAt(events, h);
    }
  }

  /** With complete blocks, the transfers of a height are those of its block, none without one. */
  lemma TransfersOfStored(s: Store, w: World, h: nat)
    requires Sound(s, w) && EveryBlockFull(s, w)
    ensures TransfersAt(s, h) == if h in s.blocks then TransfersOf(w(s.blocks[h].hash)) else map[]
  {
    if h in s.blocks {
      assert Backfill.FullyStored(s, w(s.blocks[h].hash));
      RowsReadOf(s.events, RowsAt(s.events, h), Balances.TRANSFER_SIGNATURES, h);
    } else {
      forall k | k in s.events ensures s.events[k].blockId != h {
        assert Backed(s.events, k, s.blocks, OwnEvents(w));
      }
    }
  }

  // ---------------------------------------------------------------- steps

  /** The transfers of every height the loop has read are the same after the step. */
  ghost predicate ReadRowsStay(s: State, s': State) {
    forall h :: h in s.seen ==> TransfersAt(s'.rows, h) == TransfersAt(s.rows, h)
  }

  lemma DeleteSettlesIff(s: State, reported: bool, c: Context)
    requires Integrity(s, c.w) && Enabled(s, Ff(Forwardfill.Delete(reported)), c)
    ensures
      var a := Ff(Forwardfill.Delete(reported));
      ReadRowsStay(s, Next(s, a, c)) <==> SettledStep(s, a)
  {
    hide TransfersAt;
    var id, s' := s.ff.item.block.id, Next(s, Ff(Forwardfill.Delete(reported)), c);
    forall h ensures TransfersAt(s'.rows, h) == if h == id then map[] else TransfersAt(s.rows, h) {
      DropTransfers(s.rows, id, h);
    }
  }

  lemma DropTransfers(s: Store, id: nat, h: nat)
    ensures TransfersAt(DeleteSpec(s, id), h) == if h == id then map[] else TransfersAt(s, h)
  {
  }

  /** What storing blocks adds to the heights that were read. */
  lemma StoresSettle(s: Store, s': Store, w: World, h: nat)
    requires Sound(s, w) && EveryBlockFull(s, w) && Sound(s', w) && EveryBlockFull(s', w)
    requires h in s.blocks ==> h in s'.blocks && s'.blocks[h] == s.blocks[h]
    ensures TransfersAt(s', h) == TransfersAt(s, h) <==>
            (h in s'.blocks && h !in s.blocks ==> TransfersOf(w(s'.blocks[h].hash)) == map[])
  {
    TransfersOfStored(s, w, h);
    TransfersOfStored(s', w, h);
  }

  lemma CreateSettlesIff(s: State, c: Context)
    requires Integrity(s, c.w) && EveryBlockFull(s.rows, c.w)
    requires Enabled(s, Ff(Forwardfill.Create(true)), c) && FreeStep(s, Ff(Forwardfill.Create(true)))
    ensures
      var a := Ff(Forwardfill.Create(true));
      ReadRowsStay(s, Next(s, a, c)) <==> SettledStep(s, a)
  {
    hide EveryBlockFull, TransfersAt, TransfersOf;
    var a := Ff(Forwardfill.Create(true));
    var item, rows, rows' := s.ff.item, s.rows, Next(s, a, c).rows;
    FullStepIff(s, a, c);
    CreateKeepsSound(rows, c.w, item, rows');
    forall h ensures TransfersAt(rows', h) == TransfersAt(rows, h) <==>
                     (h == item.block.id && h !in rows.blocks ==> TransfersOf(item) == map[])
    {
      StoresSettle(rows, rows', c.w, h);
      if h in rows'.blocks && h !in rows.blocks { CreateBlocks(rows, c.w, item, rows', h); }
    }
  }

  lemma WriteSettlesIff(s: State, reported: bool, c: Context)
    requires Integrity(s, c.w) && EveryBlockFull(s.rows, c.w)
    requires Enabled(s, Bf(Backfill.Write(reported)), c) && FreeStep(s, Bf(Backfill.Write(reported)))
    ensures
      var a := Bf(Backfill.Write(reported));
      ReadRowsStay(s, Next(s, a, c)) <==> SettledStep(s, a)
  {
    hide EveryBlockFull, TransfersAt, TransfersOf;
    var a := Bf(Backfill.Write(reported));
    var items, rows, rows' := s.bf.items, s.rows, Next(s, a, c).rows;
    WriteIsCreateAll(s, reported, c);
    FullStepIff(s, a, c);
    CreateAllKeepsSound(rows, c.w, items, rows');
    forall h ensures TransfersAt(rows', h) == TransfersAt(rows, h) <==>
                     (h in rows'.blocks && h !in rows.blocks ==> TransfersOf(c.w(rows'.blocks[h].hash)) == map[])
    {
      StoresSettle(rows, rows', c.w, h);
    }
    forall h | h in rows'.blocks && h !in rows.blocks
      ensures exists i :: 0 <= i < |items| && items[i].block.id == h && c.w(rows'.blocks[h].hash) == items[i]
    {
      CreateAllHeights(rows, items, rows', h);
      var i :| 0 <= i < |items| && items[i].block.id == h;
      assert rows'.blocks[items[i].block.id] == items[i].block;
    }
    forall i | 0 <= i < |items| ensures c.w(rows'.blocks[items[i].block.id].hash) == items[i] {
      assert rows'.blocks[items[i].block.id] == items[i].block;
    }
  }

  /** While blocks are complete, a step leaves every past read as it was if and only if it deletes no height that
      was read with transfers, and stores no block with transfers at a height that was read without one. */
  lemma ReadRowsStayIff(s: State, a: Action, c: Context)
    requires Integrity(s, c.w) && EveryBlockFull(s.rows, c.w) && Enabled(s, a, c) && FreeStep(s, a)
    ensures ReadRowsStay(s, Next(s, a, c)) <==> SettledStep(s, a)
  {
    hide ReadRowsStay, SettledStep;
    match a
    case Ff(fa) =>
      if fa.Delete? {
        DeleteSettlesIff(s, fa.reported, c);
      } else if fa == Forwardfill.Create(true) {
        CreateSettlesIff(s, c);
      } else {
        SameRowsStay(s, a, c);
      }
    case Bf(ba) =>
      if ba.Write? { WriteSettlesIff(s, ba.reported, c); } else { SameRowsStay(s, a, c); }
    case _ => SameRowsStay(s, a, c);
  }

  lemma SameRowsStay(s: State, a: Action, c: Context)
    requires Enabled(s, a, c)
    requires !(a.Ff? && a.fa.Delete?) && a != Ff(Forwardfill.Create(true)) && !(a.Bf? && a.ba.Write?)
    ensures ReadRowsStay(s, Next(s, a, c)) && SettledStep(s, a)
  {
    assert Next(s, a, c).rows == s.rows;
    hide Next, Enabled, TransfersAt, TransfersOf;
  }

  // ---------------------------------------------------------------- runs

  /** Every past read is what a read of its height would return now. */
  ghost predicate ReadsHold(s: State, mine: seq<Ledgers.RunAction>) {
    forall i :: 0 <= i < |mine| && mine[i].Step? && mine[i].a.ReadLogs? ==> ReadHolds(s, mine[i].a.h, mine[i].a.logs)
  }

  ghost predicate ReadHolds(s: State, h: nat, logs: seq<Balances.Log>) {
    h in s.seen && IsLogRead(s.rows.events, Balances.TRANSFER_SIGNATURES, h, h, logs)
  }

  lemma ReadHoldsStep(s: State, a: Action, c: Context, h: nat, logs: seq<Balances.Log>)
    requires Enabled(s, a, c) && ReadHolds(s, h, logs) && ReadRowsStay(s, Next(s, a, c))
    ensures ReadHolds(Next(s, a, c), h, logs)
  {
    ReadsByRows(s.rows.events, Next(s, a, c).rows.events, Balances.TRANSFER_SIGNATURES, h, logs);
  }

  lemma ReadsHoldStep(s: State, a: Action, c: Context, mine: seq<Ledgers.RunAction>)
    requires Enabled(s, a, c) && ReadsHold(s, mine) && ReadRowsStay(s, Next(s, a, c))
    ensures ReadsHold(Next(s, a, c), mine + ProjectOne(a))
  {
    hide ReadRowsStay;
    var s', mine' := Next(s, a, c), mine + ProjectOne(a);
    forall i | 0 <= i < |mine'| && mine'[i].Step? && mine'[i].a.ReadLogs?
      ensures ReadHolds(s', mine'[i].a.h, mine'[i].a.logs)
    {
      if i < |mine| {
        assert mine'[i] == mine[i];
        ReadHoldsStep(s, a, c, mine[i].a.h, mine[i].a.logs);
      }
    }
  }

  /** Over every run whose blocks are complete and whose steps leave past reads as they were. */
  lemma {:induction false} ReadsHoldInEveryRun(s0: State, trace: seq<Action>, s: State, c: Context)
    requires Integrity(s0, c.w) && EveryBlockFull(s0.rows, c.w) && Run(Free(Settled), s0, trace, c) == Some(s)
    ensures ReadsHold(s, Project(trace))
  {
    hide EveryBlockFull, FreeStep, SettledStep, ReadsHold, Integrity, ReadRowsStay, Enabled;
    if trace == [] {
      NoReads(s);
    } else {
      var front, a := trace[..|trace| - 1], trace[|trace| - 1];
      var before := Run(Free(Settled), s0, front, c).value;
      ReadsHoldInEveryRun(s0, front, before, c);
      EveryBlockFullInFreeRun(Settled, s0, front, before, c);
      assert Allowed(Settled, before, a);
      ReadRowsStayIff(before, a, c);
      ReadsHoldStep(before, a, c, Project(front));
    }
  }

  lemma NoReads(s: State)
    ensures ReadsHold(s, [])
  {
  }

  /** The transfer logs every height has in a store, in some order. */
  ghost predicate StoredLogs(s: Store, logs: Ledgers.Logs) {
    forall h :: IsLogRead(s.events, Balances.TRANSFER_SIGNATURES, h, h, logs(h))
  }

  lemma ReadsAreStored(s: State, mine: seq<Ledgers.RunAction>, logs: Ledgers.Logs)
    requires ReadsHold(s, mine) && StoredLogs(s.rows, logs)
    ensures Ledgers.ReadsFixed(mine, logs)
  {
    forall i | 0 <= i < |mine| && mine[i].Step? && mine[i].a.ReadLogs?
      ensures multiset(mine[i].a.logs) == multiset(logs(mine[i].a.h))
    {
      var h := mine[i].a.h;
      ReadsOfSameRowsAgree(s.rows.events, Balances.TRANSFER_SIGNATURES, h, h, mine[i].a.logs, logs(h));
    }
  }

  /** Over any number of runs, with failures, torn iterations, dropped commits, crashes, resets and restarts: the
      balances are the starting balances plus applied(b) times what the logs now stored at height b add, with
      applied(b) at least 1 below the cursor and 0 outside and the surplus exactly the torn iterations and the one
      in flight; and if none was torn, the replay of the stored logs, each height once. */
  lemma BalancesAreStoredLogs(s0: State, trace: seq<Action>, s: State, c: Context, m0: Balances.Ledger, c0: nat,
                              logs: Ledgers.Logs)
    requires Integrity(s0, c.w) && EveryBlockFull(s0.rows, c.w) && s0.ledger == Ledgers.Fresh(m0, c0)
    requires Run(Free(Settled), s0, trace, c) == Some(s) && StoredLogs(s.rows, logs)
    ensures Ledgers.Accounts(m0, c0, s.ledger, logs, c.unpack) && s.ledger.torn <= Ledgers.Failures(Project(trace))
    ensures s.ledger.torn == 0 ==> s.ledger.view.balances == Ledgers.Replayed(m0, c0, s.ledger.view, logs, c.unpack)
  {
    ReadsHoldInEveryRun(s0, trace, s, c);
    ReadsAreStored(s, Project(trace), logs);
    LedgerRunsInside(Free(Settled), s0, trace, s, c);
    Ledgers.LedgerUnderCrashes(m0, c0, Project(trace), s.ledger, logs, c.unpack);
    if s.ledger.torn == 0 {
      Ledgers.UntornIsReplay(m0, c0, Project(trace), s.ledger, logs, c.unpack);
    }
  }
}
