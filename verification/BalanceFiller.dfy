/** The balance loop as the code runs it (internal/core/services/balancefill.go:136-191), step by step on
    the store, against a database that may fail each call. */
module BalanceFiller {
  import opened Wrappers
  import opened Balances
  import opened Ledgers
  import opened LogReads
  import opened Repository
  import opened Aggregation

  datatype End = Cancelled | Error | Panicked

  lemma EntriesPush(logs: seq<Log>, i: nat, unpack: Unpacker, before: seq<Entry>)
    requires i < |logs| && EntriesOf(logs[..i], unpack) == Some(before)
    ensures Extract(logs[i], unpack).None? ==> EntriesOf(logs, unpack).None?
    ensures Extract(logs[i], unpack).Some? ==>
      EntriesOf(logs[..i + 1], unpack) == Some(before + Extract(logs[i], unpack).value)
  {
    hide Extract;
    assert logs[..i + 1][..i] == logs[..i];
    EntriesDefined(logs, unpack);
    assert logs[i] in logs;
  }

  method ExtractAll(logs: seq<Log>, unpack: Unpacker) returns (out: Option<seq<Slot>>)
    ensures out.Some? <==> EntriesOf(logs, unpack).Some?
    ensures out.Some? ==> NoNull(out.value) && ValueOf(out.value) == EntriesOf(logs, unpack).value
  {
    hide Extract;
    var entries: seq<Slot> := [];
    assert ValueOf(entries) == [] && logs[..0] == [];
    for i := 0 to |logs|
      invariant NoNull(entries) && EntriesOf(logs[..i], unpack) == Some(ValueOf(entries))
    {
      EntriesPush(logs, i, unpack, ValueOf(entries));
      var one := ExtractBalanceEntries(logs[i], unpack);
      if one.None? { return None; }
      assert ValueOf(entries + one.value) == ValueOf(entries) + ValueOf(one.value);
      entries := entries + one.value;
    }
    assert logs[..|logs|] == logs;
    out := Some(entries);
  }

  /** Extraction, aggregation and the upsert for the logs of one block. */
  method CreditLogs(repo: IndexerRepository, logs: seq<Log>, unpack: Unpacker, fault: Fault)
    returns (end: Option<End>, ghost out: seq<Entry>)
    modifies repo`walletBalance
    ensures end == Some(Panicked) <==> EntriesOf(logs, unpack).None?
    ensures end != Some(Panicked) ==>
      && IsGroupBy(EntriesOf(logs, unpack).value, out)
      && end == (if fault.NoFault? then None else Some(Error))
    ensures repo.walletBalance ==
      if end != Some(Panicked) && Took(fault)
      then old(CreditAll(repo.walletBalance, EntriesOf(logs, unpack).value)) else old(repo.walletBalance)
  {
    out := [];
    var entries := ExtractAll(logs, unpack);
    if entries.None? { return Some(Panicked), out; }
    var grouped := AggregateSameEntries(entries.value);
    out := ValueOf(grouped);
    UpsertOfGroupBy(repo.walletBalance, ValueOf(entries.value), out);
    var err := repo.BatchUpsertBalance(ValueOf(grouped), fault);
    end := if err then Some(Error) else None;
  }

  type EventTable = Tables.Table<Tables.EventKey, Tables.EventCols>

  /** The tables as a step of the loop found them. */
  datatype Seen = Seen(blocks: map<nat, Tables.Block>, events: EventTable)

  /** A poll sees the highest stored height, a log read the matching rows. */
  ghost predicate ReadsRight(a: BalAction, seen: Seen) {
    && (a.Poll? ==> Tables.IsMax(seen.blocks, a.max))
    && (a.ReadLogs? ==> IsLogRead(seen.events, TRANSFER_SIGNATURES, a.h, a.h, a.logs))
  }

  /** Steps of the loop that make a run of the machine, each with the tables it found. */
  ghost predicate IsRun(s0: History, trace: seq<RunAction>, seen: seq<Seen>, s: History, unpack: Unpacker) {
    && Run(s0, trace, unpack) == Some(s) && |seen| == |trace|
    && forall i :: 0 <= i < |trace| ==> trace[i].Step? && ReadsRight(trace[i].a, seen[i])
  }

  function PollCount(trace: seq<RunAction>): nat {
    if trace == [] then 0
    else
      var last := trace[|trace| - 1];
      PollCount(trace[..|trace| - 1]) + if last.Step? && last.a.Poll? then 1 else 0
  }

  lemma Push(s0: History, trace: seq<RunAction>, seen: seq<Seen>, s: History, a: BalAction, now: Seen, unpack: Unpacker)
    returns (trace': seq<RunAction>, seen': seq<Seen>, s': History)
    requires IsRun(s0, trace, seen, s, unpack) && BalEnabled(s.view, a, unpack) && ReadsRight(a, now)
    ensures IsRun(s0, trace', seen', s', unpack) && s'.view == BalNext(s.view, a, unpack)
    ensures trace' == trace + [Step(a)]
    ensures PollCount(trace') == PollCount(trace) + if a.Poll? then 1 else 0
  {
    assert (trace + [Step(a)])[..|trace|] == trace;
    RunPush(s0, trace, s, Step(a), unpack);
    trace', seen', s' := trace + [Step(a)], seen + [now], Next(s, Step(a), unpack);
  }

  /** What the other fillers do to the store meanwhile. */
  method OthersWrite(repo: IndexerRepository)
    modifies repo`blocks, repo`txs, repo`events
  {
    repo.blocks, repo.txs, repo.events := *, *, *;
  }

  /** The upsert of one iteration, as a step of the machine. */
  method UpsertStep(repo: IndexerRepository, logs: seq<Log>, unpack: Unpacker, at: nat, fault: Fault)
    returns (end: Option<End>, ghost step: BalAction)
    modifies repo`walletBalance
    ensures end == if EntriesOf(logs, unpack).None? then Some(Panicked)
                   else if fault.NoFault? then None else Some(Error)
    ensures
      var v := BalView(old(repo.walletBalance), repo.balancefillCursor, Crediting(at, logs));
      && BalEnabled(v, step, unpack) && !step.ReadLogs? && !step.Poll?
      && BalNext(v, step, unpack) == BalView(repo.walletBalance, repo.balancefillCursor,
                                             if end.None? then Advancing(at) else Stopped)
  {
    ghost var out;
    end, out := CreditLogs(repo, logs, unpack, fault);
    step := if end != Some(Panicked) && Took(fault) then Upsert(out, fault.NoFault?) else Fail;
    if EntriesOf(logs, unpack).Some? {
      UpsertOfGroupBy(old(repo.walletBalance), EntriesOf(logs, unpack).value, out);
    }
  }

  /** The cursor update of one iteration, as a step of the machine. */
  method AdvanceStep(repo: IndexerRepository, unpack: Unpacker, at: nat, fault: Fault)
    returns (end: Option<End>, ghost step: BalAction)
    modifies repo`balancefillCursor
    ensures end == if fault.NoFault? then None else Some(Error)
    ensures repo.balancefillCursor == if Took(fault) then at + 1 else old(repo.balancefillCursor)
    ensures
      var v := BalView(repo.walletBalance, old(repo.balancefillCursor), Advancing(at));
      && BalEnabled(v, step, unpack) && !step.ReadLogs? && !step.Poll?
      && BalNext(v, step, unpack) == BalView(repo.walletBalance, repo.balancefillCursor,
                                             if end.None? then Polling(at + 1) else Stopped)
  {
    var err := repo.UpdateBalancefillCursor(at + 1, fault);
    step := if Took(fault) then Advance(fault.NoFault?) else Fail;
    end := if err then Some(Error) else None;
  }

  /** What the database does to the four calls of one poll. */
  datatype PollFaults = PollFaults(max: bool, logs: bool, upsert: Fault, advance: Fault)

  predicate Clean(f: PollFaults) {
    !f.max && !f.logs && f.upsert.NoFault? && f.advance.NoFault?
  }

  /** A transfer event stored at the height has too few topics. */
  ghost predicate PanicsAt(events: EventTable, at: nat, unpack: Unpacker) {
    exists k :: Selected(events, TRANSFER_SIGNATURES, at, at, k) && Extract(LogOf(events[k]), unpack).None?
  }

  lemma PanicMeans(events: EventTable, at: nat, logs: seq<Log>, unpack: Unpacker)
    requires IsLogRead(events, TRANSFER_SIGNATURES, at, at, logs)
    ensures EntriesOf(logs, unpack).None? <==> PanicsAt(events, at, unpack)
  {
    var keys: seq<Tables.EventKey> :| IsLogReadOf(events, TRANSFER_SIGNATURES, at, at, logs, keys);
    EntriesDefined(logs, unpack);
    if EntriesOf(logs, unpack).None? {
      var i :| 0 <= i < |logs| && Extract(logs[i], unpack).None?;
      assert keys[i] in keys && logs[i] == LogOf(events[keys[i]]);
    }
    if PanicsAt(events, at, unpack) {
      var k :| Selected(events, TRANSFER_SIGNATURES, at, at, k) && Extract(LogOf(events[k]), unpack).None?;
      var i :| 0 <= i < |keys| && keys[i] == k;
      assert logs[i] in logs;
    }
  }

  /** No call for the block at the cursor fails, and its logs do not panic; without logs there is no upsert. */
  ghost predicate Passes(f: PollFaults, events: EventTable, at: nat, unpack: Unpacker) {
    && !f.logs && !PanicsAt(events, at, unpack) && f.advance.NoFault?
    && (f.upsert.NoFault? || NothingAt(events, at))
  }

  /** The height has no transfer event. */
  ghost predicate NothingAt(events: EventTable, at: nat) {
    forall k :: !Selected(events, TRANSFER_SIGNATURES, at, at, k)
  }

  lemma EmptyReadIff(events: EventTable, at: nat, logs: seq<Log>)
    requires IsLogRead(events, TRANSFER_SIGNATURES, at, at, logs)
    ensures logs == [] <==> NothingAt(events, at)
  {
    var keys: seq<Tables.EventKey> :| IsLogReadOf(events, TRANSFER_SIGNATURES, at, at, logs, keys);
    if logs != [] { assert keys[0] in keys; }
  }

  /** The read of one height. */
  method ReadHeight(repo: IndexerRepository, unpack: Unpacker, at: nat) returns (logs: seq<Log>)
    ensures IsLogRead(repo.events, TRANSFER_SIGNATURES, at, at, logs)
    ensures EntriesOf(logs, unpack).None? <==> PanicsAt(repo.events, at, unpack)
    ensures logs == [] <==> NothingAt(repo.events, at)
  {
    logs := repo.GetLogsByTopic(TRANSFER_SIGNATURES, at, at);
    PanicMeans(repo.events, at, logs, unpack);
    EmptyReadIff(repo.events, at, logs);
  }

  /** The upsert of the logs that were read, if there are any, and the cursor update. */
  method CreditAndAdvance(repo: IndexerRepository, logs: seq<Log>, unpack: Unpacker, at: nat, faults: PollFaults,
                          ghost s0: History, ghost before: seq<RunAction>, ghost saw: seq<Seen>, ghost sb: History)
    returns (end: Option<End>, ghost trace: seq<RunAction>, ghost seen: seq<Seen>, ghost s: History)
    requires IsRun(s0, before, saw, sb, unpack)
    requires sb.view == BalView(repo.walletBalance, repo.balancefillCursor,
                                if |logs| > 0 then Crediting(at, logs) else Advancing(at))
    modifies repo`walletBalance, repo`balancefillCursor
    ensures IsRun(s0, trace, seen, s, unpack) && PollCount(trace) == PollCount(before) && before <= trace
    ensures s.view == BalView(repo.walletBalance, repo.balancefillCursor,
                              if end.None? then Polling(at + 1) else Stopped)
    ensures end == Some(Panicked) <==> EntriesOf(logs, unpack).None?
    ensures end.None? <==>
      EntriesOf(logs, unpack).Some? && faults.advance.NoFault? && (faults.upsert.NoFault? || logs == [])
    ensures end != Some(Cancelled)
    ensures end.None? ==> repo.balancefillCursor == at + 1
    ensures end == Some(Panicked) ==> repo.balancefillCursor == old(repo.balancefillCursor)
  {
    hide IsRun, PollCount, EntriesOf;
    ghost var now := Seen(repo.blocks, repo.events);
    ghost var step;
    trace, seen, s := before, saw, sb;
    if |logs| > 0 {
      end, step := UpsertStep(repo, logs, unpack, at, faults.upsert);
      trace, seen, s := Push(s0, trace, seen, s, step, now, unpack);
      if end.Some? { return; }
    } else {
      NoEntries(unpack);
    }
    end, step := AdvanceStep(repo, unpack, at, faults.advance);
    trace, seen, s := Push(s0, trace, seen, s, step, now, unpack);
  }

  lemma NoEntries(unpack: Unpacker)
    ensures EntriesOf([], unpack) == Some([])
  {
  }

  /** The logs of one block, their upsert and the cursor update. */
  method OneBlock(repo: IndexerRepository, unpack: Unpacker, blockCursor: nat, faults: PollFaults,
                  ghost s0: History, ghost before: seq<RunAction>, ghost saw: seq<Seen>, ghost sb: History)
    returns (end: Option<End>, next: nat, ghost trace: seq<RunAction>, ghost seen: seq<Seen>, ghost s: History)
    requires IsRun(s0, before, saw, sb, unpack) && repo.balancefillCursor == blockCursor
    requires sb.view == BalView(repo.walletBalance, repo.balancefillCursor, Reading(blockCursor))
    modifies repo`walletBalance, repo`balancefillCursor
    ensures IsRun(s0, trace, seen, s, unpack) && PollCount(trace) == PollCount(before) && before <= trace
    ensures s.view == BalView(repo.walletBalance, repo.balancefillCursor, if end.None? then Polling(next) else Stopped)
    ensures end.None? <==> Passes(faults, repo.events, blockCursor, unpack)
    ensures end == Some(Panicked) <==> !faults.logs && PanicsAt(repo.events, blockCursor, unpack)
    ensures end == Some(Panicked) ==> repo.balancefillCursor == blockCursor
    ensures end != Some(Cancelled) && (end.None? ==> next == blockCursor + 1 == repo.balancefillCursor)
  {
    hide IsRun, PollCount, PanicsAt, NothingAt, IsLogRead, EntriesOf;
    ghost var now := Seen(repo.blocks, repo.events);
    if faults.logs {
      trace, seen, s := Push(s0, before, saw, sb, Fail, now, unpack);
      return Some(Error), blockCursor, trace, seen, s;
    }
    var events := ReadHeight(repo, unpack, blockCursor);
    trace, seen, s := Push(s0, before, saw, sb, ReadLogs(blockCursor, events), now, unpack);
    end, trace, seen, s := CreditAndAdvance(repo, events, unpack, blockCursor, faults, s0, trace, seen, s);
    next := blockCursor + 1;
  }

  /** One poll: the lag test, then one block.  It ends the loop only for a database fault or a panicking log. */
  method OnePoll(repo: IndexerRepository, unpack: Unpacker, lagFinalized: nat, blockCursor: nat, faults: PollFaults,
                 ghost s0: History, ghost before: seq<RunAction>, ghost saw: seq<Seen>, ghost sb: History)
    returns (end: Option<End>, next: nat, ghost trace: seq<RunAction>, ghost seen: seq<Seen>, ghost s: History,
             ghost max: nat)
    requires lagFinalized == LAG && repo.balancefillCursor == blockCursor
    requires IsRun(s0, before, saw, sb, unpack)
    requires sb.view == BalView(repo.walletBalance, repo.balancefillCursor, Polling(blockCursor))
    modifies repo`walletBalance, repo`balancefillCursor, repo`blocks, repo`txs, repo`events
    ensures IsRun(s0, trace, seen, s, unpack)
    ensures s.view == BalView(repo.walletBalance, repo.balancefillCursor, if end.None? then Polling(next) else Stopped)
    ensures end == Some(Error) ==> !Clean(faults)
    ensures end == Some(Panicked) ==> PanicsAt(repo.events, repo.balancefillCursor, unpack)
    ensures end != Some(Cancelled)
    ensures end.None? ==> repo.balancefillCursor == next && PollCount(trace) == PollCount(before) + 1
    ensures !faults.max ==> before + [Step(Poll(max))] <= trace
    ensures faults.max ==> end == Some(Error)
    ensures end.None? <==> !faults.max && (blockCursor + 96 < max ==> Passes(faults, repo.events, blockCursor, unpack))
    ensures end.None? ==> next == if blockCursor + 96 < max then blockCursor + 1 else blockCursor
  {
    hide IsRun, PollCount, PanicsAt;
    max := 0;
    OthersWrite(repo);
    ghost var now := Seen(repo.blocks, repo.events);
    if faults.max {
      trace, seen, s := Push(s0, before, saw, sb, Fail, now, unpack);
      return Some(Error), blockCursor, trace, seen, s, max;
    }
    var maxBlock := repo.GetMaxIndexedBlock();
    max := maxBlock;
    trace, seen, s := Push(s0, before, saw, sb, Poll(maxBlock), now, unpack);
    if maxBlock < lagFinalized || blockCursor >= maxBlock - lagFinalized {
      return None, blockCursor, trace, seen, s, max;
    }
    OthersWrite(repo);
    end, next, trace, seen, s := OneBlock(repo, unpack, blockCursor, faults, s0, trace, seen, s);
  }

  /** The loop, for as many polls as its context allows and whatever the other fillers write meanwhile, makes a
      run of the balance machine: every theorem about those runs is about this loop.  It fails only for a
      database fault, panics only on a log with too few topics at the height it has reached, and otherwise
      makes all its polls. */
  method Balancefill(repo: IndexerRepository, unpack: Unpacker, lagFinalized: nat, polls: nat,
                     cursorFails: bool, faults: nat -> PollFaults)
    returns (end: End, ghost trace: seq<RunAction>, ghost seen: seq<Seen>, ghost s: History)
    requires lagFinalized == LAG
    modifies repo`walletBalance, repo`balancefillCursor, repo`blocks, repo`txs, repo`events
    ensures IsRun(old(Fresh(repo.walletBalance, repo.balancefillCursor)), trace, seen, s, unpack)
    ensures s.view == BalView(repo.walletBalance, repo.balancefillCursor,
                              if end.Cancelled? then Polling(repo.balancefillCursor) else Stopped)
    ensures end.Error? ==> cursorFails || exists n: nat :: n < polls && !Clean(faults(n))
    ensures end.Panicked? ==> PanicsAt(repo.events, repo.balancefillCursor, unpack)
    ensures cursorFails ==> end.Error?
    ensures end.Cancelled? ==> PollCount(trace) == polls && forall n: nat :: n < polls ==> !faults(n).max
  {
    ghost var s0, now := Fresh(repo.walletBalance, repo.balancefillCursor), Seen(repo.blocks, repo.events);
    if cursorFails {
      trace, seen, s := Push(s0, [], [], s0, Fail, now, unpack);
      return Error, trace, seen, s;
    }
    var blockCursor: nat := repo.balancefillCursor;
    trace, seen, s := Push(s0, [], [], s0, Start, now, unpack);
    for poll := 0 to polls
      invariant IsRun(s0, trace, seen, s, unpack) && PollCount(trace) == poll
      invariant s.view == BalView(repo.walletBalance, repo.balancefillCursor, Polling(blockCursor))
      invariant repo.balancefillCursor == blockCursor && forall n: nat :: n < poll ==> !faults(n).max
    {
      var stopped: Option<End>;
      ghost var max;
      stopped, blockCursor, trace, seen, s, max :=
        OnePoll(repo, unpack, lagFinalized, blockCursor, faults(poll), s0, trace, seen, s);
      if stopped.Some? { return stopped.value, trace, seen, s; }
    }
    end := Cancelled;
  }

  /** Where n polls of a store that does not grow take the cursor: one height each, up to the lag. */
  function CaughtUp(cursor: nat, max: nat, n: nat): nat {
    if !BehindLag(cursor, max) then cursor
    else if cursor + n < max - LAG then cursor + n else max - LAG
  }

  /** How far the loop is after n polls that all saw `max`. */
  ghost predicate CaughtUpAt(v: BalView, c0: nat, max: nat, n: nat) {
    match v.pc
    case Waiting => v.cursor == c0 && n == 0
    case Polling(at) => at == v.cursor == CaughtUp(c0, max, n)
    case Stopped => true
    case _ => n > 0 && v.pc.at == v.cursor == CaughtUp(c0, max, n - 1) && BehindLag(v.cursor, max)
  }

  lemma {:induction false} PollsCatchUp(s0: History, trace: seq<RunAction>, s: History, unpack: Unpacker, max: nat)
    requires s0.view.pc.Waiting? && Run(s0, trace, unpack) == Some(s)
    requires forall i :: 0 <= i < |trace| ==> trace[i].Step? && (trace[i].a.Poll? ==> trace[i].a.max == max)
    ensures CaughtUpAt(s.view, s0.view.cursor, max, PollCount(trace))
  {
    if trace == [] {
    } else {
      var front := trace[..|trace| - 1];
      PollsCatchUp(s0, front, Run(s0, front, unpack).value, unpack, max);
    }
  }

  /** If the highest stored height stays, the loop catches up with the lag, one height per poll, and stays there. */
  lemma FrozenStoreCatchesUp(m0: Ledger, c0: nat, trace: seq<RunAction>, seen: seq<Seen>, s: History, unpack: Unpacker,
                             max: nat)
    requires IsRun(Fresh(m0, c0), trace, seen, s, unpack) && s.view.pc.Polling?
    requires forall i :: 0 <= i < |seen| ==> Tables.IsMax(seen[i].blocks, max)
    ensures s.view.cursor == if c0 + 96 < max then Min(c0 + PollCount(trace), max - 96) else c0
  {
    forall i | 0 <= i < |trace| && trace[i].a.Poll? ensures trace[i].a.max == max {
      assert ReadsRight(trace[i].a, seen[i]) && Tables.IsMax(seen[i].blocks, max);
    }
    PollsCatchUp(Fresh(m0, c0), trace, s, unpack, max);
  }

  /** As long as every read of a height saw the same rows, a loop without a torn iteration leaves exactly the
      replay of the heights it passed. */
  lemma UntornLoopIsReplay(m0: Ledger, c0: nat, trace: seq<RunAction>, seen: seq<Seen>, s: History, unpack: Unpacker,
                           logs: Logs)
    requires IsRun(Fresh(m0, c0), trace, seen, s, unpack) && s.torn == 0
    requires forall i :: 0 <= i < |trace| && trace[i].a.ReadLogs? ==>
      IsLogRead(seen[i].events, TRANSFER_SIGNATURES, trace[i].a.h, trace[i].a.h, logs(trace[i].a.h))
    ensures c0 <= s.view.cursor && s.view.balances == Replayed(m0, c0, s.view, logs, unpack)
  {
    forall i | 0 <= i < |trace| && trace[i].a.ReadLogs?
      ensures multiset(trace[i].a.logs) == multiset(logs(trace[i].a.h))
    {
      var h := trace[i].a.h;
      assert ReadsRight(trace[i].a, seen[i]);
      ReadsOfSameRowsAgree(seen[i].events, TRANSFER_SIGNATURES, h, h, trace[i].a.logs, logs(h));
    }
    UntornIsReplay(m0, c0, trace, s, logs, unpack);
  }
}
