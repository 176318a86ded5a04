/** The balance loop (internal/core/services/balancefill.go:136-191): one block per iteration, behind a
    lag, with the upsert and the cursor update in two transactions. */
module Ledgers {
  import opened Wrappers
  import opened Balances

  /** The lag Run passes to balancefill. */
  const LAG: nat := 96

  datatype BalPc =
    | Waiting                                // for the completion token
    | Polling(at: nat)
    | Reading(at: nat)
    | Crediting(at: nat, logs: seq<Log>)
    | Advancing(at: nat)
    | Stopped

  datatype BalAction =
    | Start                                  // GetBalancefillCursor
    | Poll(max: nat)                         // GetMaxIndexedBlock and the lag test
    | ReadLogs(h: nat, logs: seq<Log>)       // GetLogsByTopic
    | Upsert(out: seq<Entry>, reported: bool)  // BatchUpsertBalance committed; not `reported`: its caller got an error
    | Advance(reported: bool)                // UpdateBalancefillCursor took effect
    | Fail                                   // any error, panic or cancellation: nothing written, the loop ends

  datatype BalView = BalView(balances: Ledger, cursor: nat, pc: BalPc)

  predicate BehindLag(at: nat, max: nat) {
    !(max < LAG || at >= max - LAG)
  }

  ghost predicate BalEnabled(v: BalView, a: BalAction, unpack: Unpacker) {
    match a
    case Start => v.pc.Waiting?
    case Poll(_) => v.pc.Polling?
    case ReadLogs(h, _) => v.pc.Reading? && v.pc.at == h
    case Upsert(out, _) =>
      v.pc.Crediting? && EntriesOf(v.pc.logs, unpack).Some? &&
      IsGroupBy(EntriesOf(v.pc.logs, unpack).value, out) && Balances.Upsert(v.balances, out).Some?
    case Advance(_) => v.pc.Advancing?
    case Fail => true
  }

  ghost function BalNext(v: BalView, a: BalAction, unpack: Unpacker): BalView
    requires BalEnabled(v, a, unpack)
  {
    match a
    case Start => v.(pc := Polling(v.cursor))
    case Poll(max) => if BehindLag(v.pc.at, max) then v.(pc := Reading(v.pc.at)) else v
    case ReadLogs(h, logs) => v.(pc := if |logs| > 0 then Crediting(h, logs) else Advancing(h))
    case Upsert(out, reported) =>
      v.(balances := Balances.Upsert(v.balances, out).value, pc := if reported then Advancing(v.pc.at) else Stopped)
    case Advance(reported) => v.(cursor := v.pc.at + 1, pc := if reported then Polling(v.pc.at + 1) else Stopped)
    case Fail => v.(pc := Stopped)
  }

  /** A step of the loop, a crash at any point, or a new run. */
  datatype RunAction = Step(a: BalAction) | Crash | Restart

  /** The loop with its history: the heights whose logs were applied, in order, and how often a failure
      struck between a committed upsert and the cursor update it should be followed by. */
  datatype History = History(view: BalView, passes: seq<nat>, torn: nat)

  ghost predicate Enabled(s: History, a: RunAction, unpack: Unpacker) {
    match a
    case Step(b) => BalEnabled(s.view, b, unpack)
    case Crash => true
    case Restart => s.view.pc.Stopped?
  }

  /** The height a step applies: an upsert, or a block without logs that needs none. */
  function Applies(v: BalView, a: BalAction): seq<nat> {
    match a
    case Upsert(_, _) => if v.pc.Crediting? then [v.pc.at] else []
    case ReadLogs(h, logs) => if |logs| == 0 then [h] else []
    case _ => []
  }

  predicate Fails(a: RunAction) {
    match a
    case Step(b) => b.Fail? || (b.Upsert? && !b.reported) || (b.Advance? && !b.reported)
    case Crash => true
    case Restart => false
  }

  /** A step that loses the cursor update of an application that took effect. */
  predicate Tears(v: BalView, a: RunAction) {
    match a
    case Step(b) => (b.Upsert? && !b.reported) || (b.Fail? && v.pc.Advancing?)
    case Crash => v.pc.Advancing?
    case Restart => false
  }

  ghost function Next(s: History, a: RunAction, unpack: Unpacker): History
    requires Enabled(s, a, unpack)
  {
    var torn := s.torn + if Tears(s.view, a) then 1 else 0;
    match a
    case Step(b) => History(BalNext(s.view, b, unpack), s.passes + Applies(s.view, b), torn)
    case Crash => History(s.view.(pc := Stopped), s.passes, torn)
    case Restart => History(s.view.(pc := Waiting), s.passes, torn)
  }

  /** The state after a run, None if some step of it was not possible. */
  ghost function Run(s: History, trace: seq<RunAction>, unpack: Unpacker): Option<History> {
    if trace == [] then Some(s)
    else
      var before, a := Run(s, trace[..|trace| - 1], unpack), trace[|trace| - 1];
      if before.None? || !Enabled(before.value, a, unpack) then None else Some(Next(before.value, a, unpack))
  }

  lemma RunPush(s0: History, trace: seq<RunAction>, s: History, a: RunAction, unpack: Unpacker)
    requires Run(s0, trace, unpack) == Some(s) && Enabled(s, a, unpack)
    ensures Run(s0, trace + [a], unpack) == Some(Next(s, a, unpack))
  {
  }

  function Fresh(m: Ledger, cursor: nat): History {
    History(BalView(m, cursor, Waiting), [], 0)
  }

  // ---------------------------------------------------------------- what the history means

  /** The logs of every height, fixed once and for all. */
  type Logs = nat -> seq<Log>

  /** Every read of a height returns its logs, in some order. */
  predicate ReadsFixed(trace: seq<RunAction>, logs: Logs) {
    forall i :: 0 <= i < |trace| && trace[i].Step? && trace[i].a.ReadLogs? ==>
      multiset(trace[i].a.logs) == multiset(logs(trace[i].a.h))
  }

  /** The raw entries of one block applied one by one. */
  function ApplyBlock(m: Ledger, logs: seq<Log>, unpack: Unpacker): Ledger {
    match EntriesOf(logs, unpack)
    case None => m
    case Some(es) => CreditAll(m, es)
  }

  function ApplyPasses(m: Ledger, passes: seq<nat>, logs: Logs, unpack: Unpacker): Ledger {
    if passes == [] then m
    else ApplyBlock(ApplyPasses(m, passes[..|passes| - 1], logs, unpack), logs(passes[|passes| - 1]), unpack)
  }

  function InFlight(pc: BalPc): nat {
    if pc.Advancing? then 1 else 0
  }

  ghost predicate PcConsistent(v: BalView, logs: Logs, unpack: Unpacker, passes: seq<nat>) {
    match v.pc
    case Polling(at) => at == v.cursor
    case Reading(at) => at == v.cursor
    case Crediting(at, read) => at == v.cursor && multiset(read) == multiset(logs(at))
    case Advancing(at) => at == v.cursor && at in passes
    case _ => true
  }

  /** The heights applied so far: none outside [c0, cursor], all of [c0, cursor) at least once. */
  ghost predicate Shape(c0: nat, cursor: nat, passes: seq<nat>, logs: Logs, unpack: Unpacker) {
    && c0 <= cursor
    && (forall i :: 0 <= i < |passes| ==> c0 <= passes[i] <= cursor && EntriesOf(logs(passes[i]), unpack).Some?)
    && (forall b :: c0 <= b < cursor ==> b in passes)
  }

  /** How many applications there were, and that without a torn iteration each height had one. */
  ghost predicate Count(c0: nat, s: History)
    requires c0 <= s.view.cursor
  {
    && |s.passes| - (s.view.cursor - c0) == s.torn + InFlight(s.view.pc)
    && (s.torn == 0 ==> s.passes == Heights(c0, s.view.cursor + InFlight(s.view.pc)))
  }

  ghost predicate AtLeastOnce(m0: Ledger, c0: nat, s: History, logs: Logs, unpack: Unpacker) {
    && Shape(c0, s.view.cursor, s.passes, logs, unpack)
    && s.view.balances == ApplyPasses(m0, s.passes, logs, unpack)
    && PcConsistent(s.view, logs, unpack, s.passes)
    && Count(c0, s)
  }

  function Heights(a: nat, b: nat): seq<nat>
    requires a <= b
  {
    seq(b - a, i requires 0 <= i < b - a => a + i)
  }

  lemma ApplyPassesPush(m: Ledger, passes: seq<nat>, b: nat, logs: Logs, unpack: Unpacker)
    ensures ApplyPasses(m, passes + [b], logs, unpack) ==
            ApplyBlock(ApplyPasses(m, passes, logs, unpack), logs(b), unpack)
  {
  }

  /** One upsert of aggregated rows, read in any order, is the block applied entry by entry. */
  lemma UpsertIsApplyBlock(m: Ledger, read: seq<Log>, logs: seq<Log>, out: seq<Entry>, unpack: Unpacker)
    requires multiset(read) == multiset(logs) && EntriesOf(read, unpack).Some?
    requires IsGroupBy(EntriesOf(read, unpack).value, out)
    ensures EntriesOf(logs, unpack).Some?
    ensures Balances.Upsert(m, out) == Some(ApplyBlock(m, logs, unpack))
  {
    RowOrderIrrelevant(m, read, logs, unpack);
    UpsertOfGroupBy(m, EntriesOf(read, unpack).value, out);
  }

  lemma ShapePush(c0: nat, cursor: nat, passes: seq<nat>, logs: Logs, unpack: Unpacker)
    requires Shape(c0, cursor, passes, logs, unpack) && EntriesOf(logs(cursor), unpack).Some?
    ensures Shape(c0, cursor, passes + [cursor], logs, unpack) && cursor in passes + [cursor]
  {
  }

  lemma HeightsPush(a: nat, b: nat)
    requires a <= b
    ensures Heights(a, b + 1) == Heights(a, b) + [b]
  {
  }

  lemma PassKeeps(m0: Ledger, c0: nat, s: History, logs: Logs, unpack: Unpacker, s': History)
    requires AtLeastOnce(m0, c0, s, logs, unpack)
    requires s.view.pc.Reading? || s.view.pc.Crediting?
    requires EntriesOf(logs(s.view.cursor), unpack).Some?
    requires s'.passes == s.passes + [s.view.cursor] && s'.view.cursor == s.view.cursor
    requires s'.view.balances == ApplyBlock(s.view.balances, logs(s.view.cursor), unpack)
    requires (s'.view.pc == Advancing(s.view.cursor) && s'.torn == s.torn) ||
             (s'.view.pc.Stopped? && s'.torn == s.torn + 1)
    ensures AtLeastOnce(m0, c0, s', logs, unpack)
  {
    ApplyPassesPush(m0, s.passes, s.view.cursor, logs, unpack);
    ShapePush(c0, s.view.cursor, s.passes, logs, unpack);
    HeightsPush(c0, s.view.cursor);
  }

  lemma ReadOrUpsertKeeps(m0: Ledger, c0: nat, s: History, a: BalAction, logs: Logs, unpack: Unpacker)
    requires AtLeastOnce(m0, c0, s, logs, unpack) && BalEnabled(s.view, a, unpack)
    requires a.Upsert? || (a.ReadLogs? && multiset(a.logs) == multiset(logs(a.h)))
    ensures AtLeastOnce(m0, c0, Next(s, Step(a), unpack), logs, unpack)
  {
    var s' := Next(s, Step(a), unpack);
    if a.Upsert? {
      UpsertIsApplyBlock(s.view.balances, s.view.pc.logs, logs(s.view.pc.at), a.out, unpack);
      PassKeeps(m0, c0, s, logs, unpack, s');
    } else if |a.logs| == 0 {
      assert |multiset(logs(a.h))| == |logs(a.h)| && |multiset(a.logs)| == 0;
      assert logs(a.h) == [];
      assert s.view.balances == CreditAll(s.view.balances, []);
      PassKeeps(m0, c0, s, logs, unpack, s');
    } else {
      assert s.passes + [] == s.passes;
    }
  }

  lemma CursorStepKeeps(m0: Ledger, c0: nat, s: History, a: BalAction, logs: Logs, unpack: Unpacker)
    requires AtLeastOnce(m0, c0, s, logs, unpack) && BalEnabled(s.view, a, unpack)
    requires !a.Upsert? && !a.ReadLogs?
    ensures AtLeastOnce(m0, c0, Next(s, Step(a), unpack), logs, unpack)
  {
    hide ApplyPasses, EntriesOf;
    var s' := Next(s, Step(a), unpack);
    assert s'.passes == s.passes;
    assert Shape(c0, s'.view.cursor, s.passes, logs, unpack);
  }

  lemma AtLeastOnceStep(m0: Ledger, c0: nat, s: History, a: RunAction, logs: Logs, unpack: Unpacker)
    requires AtLeastOnce(m0, c0, s, logs, unpack) && Enabled(s, a, unpack)
    requires a.Step? && a.a.ReadLogs? ==> multiset(a.a.logs) == multiset(logs(a.a.h))
    ensures AtLeastOnce(m0, c0, Next(s, a, unpack), logs, unpack)
  {
    if a.Step? {
      if a.a.Upsert? || a.a.ReadLogs? {
        ReadOrUpsertKeeps(m0, c0, s, a.a, logs, unpack);
      } else {
        CursorStepKeeps(m0, c0, s, a.a, logs, unpack);
      }
    }
  }

  /** Every run of the loop, with failures, lost replies, crashes and restarts at any step. */
  lemma {:induction false} EveryRunAtLeastOnce(m0: Ledger, c0: nat, trace: seq<RunAction>, s: History, logs: Logs,
                                               unpack: Unpacker)
    requires ReadsFixed(trace, logs) && Run(Fresh(m0, c0), trace, unpack) == Some(s)
    ensures AtLeastOnce(m0, c0, s, logs, unpack)
  {
    if trace == [] {
      assert Heights(c0, c0) == [];
    } else {
      var front := trace[..|trace| - 1];
      var before := Run(Fresh(m0, c0), front, unpack).value;
      EveryRunAtLeastOnce(m0, c0, front, before, logs, unpack);
      AtLeastOnceStep(m0, c0, before, trace[|trace| - 1], logs, unpack);
    }
  }

  // ---------------------------------------------------------------- applied(b) times delta(b)

  /** delta(b): what the logs of one height add to a key. */
  function Delta(logs: seq<Log>, unpack: Unpacker, k: Key): int {
    match EntriesOf(logs, unpack)
    case None => 0
    case Some(es) => SumFor(es, k)
  }

  /** The sum over heights [a, b) of applied(h) times delta(h). */
  function Weighted(a: nat, b: nat, applied: multiset<nat>, logs: Logs, unpack: Unpacker, k: Key): int
    decreases b
  {
    if b <= a then 0
    else Weighted(a, b - 1, applied, logs, unpack, k) + applied[b - 1] * Delta(logs(b - 1), unpack, k)
  }

  lemma {:induction false} WeightedPush(a: nat, b: nat, applied: multiset<nat>, h: nat, logs: Logs, unpack: Unpacker,
                                        k: Key)
    ensures Weighted(a, b, applied + multiset{h}, logs, unpack, k) ==
            Weighted(a, b, applied, logs, unpack, k) + if a <= h < b then Delta(logs(h), unpack, k) else 0
    decreases b
  {
    if b > a {
      WeightedPush(a, b - 1, applied, h, logs, unpack, k);
      var d := Delta(logs(b - 1), unpack, k);
      assert (applied[b - 1] + 1) * d == applied[b - 1] * d + d;
    }
  }

  lemma {:induction false} WeightedNone(a: nat, b: nat, logs: Logs, unpack: Unpacker, k: Key)
    ensures Weighted(a, b, multiset{}, logs, unpack, k) == 0
    decreases b
  {
    if b > a { WeightedNone(a, b - 1, logs, unpack, k); }
  }

  lemma {:induction false} PassesWeighted(m: Ledger, passes: seq<nat>, a: nat, b: nat, logs: Logs, unpack: Unpacker,
                                          k: Key)
    requires forall i :: 0 <= i < |passes| ==> a <= passes[i] < b
    ensures Balance(ApplyPasses(m, passes, logs, unpack), k) ==
            Balance(m, k) + Weighted(a, b, multiset(passes), logs, unpack, k)
  {
    if passes == [] {
      WeightedNone(a, b, logs, unpack, k);
    } else {
      var front, h := passes[..|passes| - 1], passes[|passes| - 1];
      PassesWeighted(m, front, a, b, logs, unpack, k);
      assert passes == front + [h];
      WeightedPush(a, b, multiset(front), h, logs, unpack, k);
      var es := EntriesOf(logs(h), unpack);
      if es.Some? { CreditAllAt(ApplyPasses(m, front, logs, unpack), es.value, k); }
    }
  }

  /** Balances are the starting ones plus applied(b) times delta(b) over the heights up to the cursor, where
      applied(b), the number of passes over b, is at least 1 below the cursor and 0 outside, and the surplus
      applications are the torn iterations plus the one in flight. */
  ghost predicate Accounts(m0: Ledger, c0: nat, s: History, logs: Logs, unpack: Unpacker) {
    var applied := multiset(s.passes);
    && (forall k :: Balance(s.view.balances, k) ==
          Balance(m0, k) + Weighted(c0, s.view.cursor + 1, applied, logs, unpack, k))
    && (forall b :: c0 <= b < s.view.cursor ==> applied[b] >= 1)
    && (forall b :: b < c0 || b > s.view.cursor ==> applied[b] == 0)
    && |applied| - (s.view.cursor - c0) == s.torn + InFlight(s.view.pc)
  }

  /** The ledger under crashes: balances are the starting balances plus applied(b) times delta(b) over the
      heights up to the cursor, applied(b) is at least 1 below the cursor and 0 outside, and the surplus
      applications are exactly the torn iterations plus the one in flight. */
  lemma LedgerUnderCrashes(m0: Ledger, c0: nat, trace: seq<RunAction>, s: History, logs: Logs, unpack: Unpacker)
    requires ReadsFixed(trace, logs) && Run(Fresh(m0, c0), trace, unpack) == Some(s)
    ensures Accounts(m0, c0, s, logs, unpack) && s.torn <= Failures(trace)
  {
    EveryRunAtLeastOnce(m0, c0, trace, s, logs, unpack);
    TornAreFailures(Fresh(m0, c0), trace, s, unpack);
    AtLeastOnceAccounts(m0, c0, s, logs, unpack);
  }

  lemma AtLeastOnceAccounts(m0: Ledger, c0: nat, s: History, logs: Logs, unpack: Unpacker)
    requires AtLeastOnce(m0, c0, s, logs, unpack)
    ensures Accounts(m0, c0, s, logs, unpack)
  {
    hide ApplyPasses, EntriesOf, Weighted;
    var applied := multiset(s.passes);
    forall b ensures b in applied <==> b in s.passes {}
    forall k ensures Balance(s.view.balances, k) ==
                     Balance(m0, k) + Weighted(c0, s.view.cursor + 1, applied, logs, unpack, k)
    {
      PassesWeighted(m0, s.passes, c0, s.view.cursor + 1, logs, unpack, k);
    }
  }

  function Failures(trace: seq<RunAction>): nat {
    if trace == [] then 0
    else Failures(trace[..|trace| - 1]) + if Fails(trace[|trace| - 1]) then 1 else 0
  }

  lemma {:induction false} TornAreFailures(s0: History, trace: seq<RunAction>, s: History, unpack: Unpacker)
    requires Run(s0, trace, unpack) == Some(s)
    ensures s.torn <= s0.torn + Failures(trace)
  {
    if trace == [] {
    } else {
      TornAreFailures(s0, trace[..|trace| - 1], Run(s0, trace[..|trace| - 1], unpack).value, unpack);
    }
  }

  /** The plain fold of all transfer deltas of heights [a, b) onto starting balances, each height once. */
  function ReplayBlocks(m: Ledger, a: nat, b: nat, logs: Logs, unpack: Unpacker): Ledger
    decreases b
  {
    if b <= a then m else ApplyBlock(ReplayBlocks(m, a, b - 1, logs, unpack), logs(b - 1), unpack)
  }

  /** The replay up to where the loop is. */
  function Replayed(m0: Ledger, c0: nat, v: BalView, logs: Logs, unpack: Unpacker): Ledger {
    ReplayBlocks(m0, c0, v.cursor + InFlight(v.pc), logs, unpack)
  }

  lemma {:induction false} HeightsReplay(m: Ledger, a: nat, b: nat, logs: Logs, unpack: Unpacker)
    requires a <= b
    ensures ApplyPasses(m, Heights(a, b), logs, unpack) == ReplayBlocks(m, a, b, logs, unpack)
    decreases b
  {
    if a < b {
      HeightsReplay(m, a, b - 1, logs, unpack);
      assert Heights(a, b)[..b - a - 1] == Heights(a, b - 1);
    }
  }

  /** Every height was applied exactly once, in order, if and only if no iteration was torn, and then the
      balances are exactly the replay: the table equal as a map, whatever order rows came back in and
      whatever order the aggregation was iterated in. */
  lemma ExactlyOnceIff(m0: Ledger, c0: nat, trace: seq<RunAction>, s: History, logs: Logs, unpack: Unpacker)
    requires ReadsFixed(trace, logs) && Run(Fresh(m0, c0), trace, unpack) == Some(s)
    ensures c0 <= s.view.cursor
    ensures s.passes == Heights(c0, s.view.cursor + InFlight(s.view.pc)) <==> s.torn == 0
    ensures s.torn == 0 ==>
      s.view.balances == Replayed(m0, c0, s.view, logs, unpack)
  {
    EveryRunAtLeastOnce(m0, c0, trace, s, logs, unpack);
    if s.torn == 0 { UntornIsReplay(m0, c0, trace, s, logs, unpack); }
  }

  lemma UntornIsReplay(m0: Ledger, c0: nat, trace: seq<RunAction>, s: History, logs: Logs, unpack: Unpacker)
    requires ReadsFixed(trace, logs) && Run(Fresh(m0, c0), trace, unpack) == Some(s) && s.torn == 0
    ensures c0 <= s.view.cursor
    ensures s.view.balances == Replayed(m0, c0, s.view, logs, unpack)
  {
    EveryRunAtLeastOnce(m0, c0, trace, s, logs, unpack);
    OnceIsReplay(m0, c0, s, logs, unpack);
  }

  lemma OnceIsReplay(m0: Ledger, c0: nat, s: History, logs: Logs, unpack: Unpacker)
    requires AtLeastOnce(m0, c0, s, logs, unpack) && s.torn == 0
    ensures c0 <= s.view.cursor
    ensures s.view.balances == Replayed(m0, c0, s.view, logs, unpack)
  {
    hide ApplyPasses, ReplayBlocks, EntriesOf;
    HeightsReplay(m0, c0, s.view.cursor + InFlight(s.view.pc), logs, unpack);
  }

  /** A height with a log that panics is never passed, whatever the restarts. */
  lemma PanickingHeightBlocks(m0: Ledger, c0: nat, trace: seq<RunAction>, s: History, logs: Logs, unpack: Unpacker,
                              b: nat)
    requires ReadsFixed(trace, logs) && Run(Fresh(m0, c0), trace, unpack) == Some(s)
    requires c0 <= b && EntriesOf(logs(b), unpack).None?
    ensures s.view.cursor <= b
  {
    EveryRunAtLeastOnce(m0, c0, trace, s, logs, unpack);
    assert b < s.view.cursor ==> b in s.passes;
  }

  /** A run that applies a height twice: a failure between the upsert and the cursor update. */
  lemma CrashAppliesTwice(m0: Ledger, log: Log, out: seq<Entry>, unpack: Unpacker)
    requires EntriesOf([log], unpack).Some? && IsGroupBy(EntriesOf([log], unpack).value, out)
    ensures
      var once := [Step(Start), Step(Poll(LAG + 1)), Step(ReadLogs(0, [log])), Step(Upsert(out, true))];
      var s := Run(Fresh(m0, 0), once + [Crash, Restart] + once, unpack);
      s.Some? && s.value.passes == [0, 0] && s.value.view.cursor == 0 && s.value.torn == 1
  {
    var es := EntriesOf([log], unpack).value;
    var s0 := Fresh(m0, 0);
    var m1 := CreditAll(m0, es);
    UpsertOfGroupBy(m0, es, out);
    UpsertOfGroupBy(m1, es, out);
    var s1 := AppliedOnce(s0, log, out, unpack);
    var s2 := Next(Next(s1, Crash, unpack), Restart, unpack);
    var s3 := AppliedOnce(s2, log, out, unpack);
    var once := [Step(Start), Step(Poll(LAG + 1)), Step(ReadLogs(0, [log])), Step(Upsert(out, true))];
    RunAppend(s0, once, [Crash, Restart], unpack);
    RunTwo(s1, Crash, Restart, unpack);
    RunAppend(s0, once + [Crash, Restart], once, unpack);
  }

  lemma AppliedOnce(s: History, log: Log, out: seq<Entry>, unpack: Unpacker) returns (s': History)
    requires s.view.pc.Waiting? && s.view.cursor == 0
    requires EntriesOf([log], unpack).Some? && IsGroupBy(EntriesOf([log], unpack).value, out)
    ensures Run(s, [Step(Start), Step(Poll(LAG + 1)), Step(ReadLogs(0, [log])), Step(Upsert(out, true))], unpack) ==
            Some(s')
    ensures s'.passes == s.passes + [0] && s'.view.cursor == 0 && s'.torn == s.torn && s'.view.pc == Advancing(0)
  {
    UpsertOfGroupBy(s.view.balances, EntriesOf([log], unpack).value, out);
    var a := Next(Next(s, Step(Start), unpack), Step(Poll(LAG + 1)), unpack);
    RunTwo(s, Step(Start), Step(Poll(LAG + 1)), unpack);
    assert a.view.pc == Reading(0);
    s' := Next(Next(a, Step(ReadLogs(0, [log])), unpack), Step(Upsert(out, true)), unpack);
    RunTwo(a, Step(ReadLogs(0, [log])), Step(Upsert(out, true)), unpack);
    RunAppend(s, [Step(Start), Step(Poll(LAG + 1))], [Step(ReadLogs(0, [log])), Step(Upsert(out, true))], unpack);
    assert [Step(Start), Step(Poll(LAG + 1))] + [Step(ReadLogs(0, [log])), Step(Upsert(out, true))] ==
           [Step(Start), Step(Poll(LAG + 1)), Step(ReadLogs(0, [log])), Step(Upsert(out, true))];
  }

  lemma RunTwo(s: History, a: RunAction, b: RunAction, unpack: Unpacker)
    requires Enabled(s, a, unpack) && Enabled(Next(s, a, unpack), b, unpack)
    ensures Run(s, [a, b], unpack) == Some(Next(Next(s, a, unpack), b, unpack))
  {
    assert [a, b][..1] == [a] && [a][..0] == [];
    assert Run(s, [a][..0], unpack) == Some(s);
    assert Run(s, [a], unpack) == Some(Next(s, a, unpack));
  }

  lemma {:induction false} RunAppend(s: History, a: seq<RunAction>, b: seq<RunAction>, unpack: Unpacker)
    requires Run(s, a, unpack).Some?
    ensures Run(s, a + b, unpack) == Run(Run(s, a, unpack).value, b, unpack)
  {
    if b == [] {
      assert a + b == a;
    } else {
      RunAppend(s, a, b[..|b| - 1], unpack);
      assert (a + b)[..|a + b| - 1] == a + b[..|b| - 1];
    }
  }

  // ---------------------------------------------------------------- conservation

  /** In every reachable state, crashes and re-applied heights included, whatever is read: the units
      of every (token, id) over all wallets are the starting ones. */
  lemma {:induction false} UnitsConserved(s0: History, trace: seq<RunAction>, s: History, unpack: Unpacker,
                                          token: string, id: string)
    requires Run(s0, trace, unpack) == Some(s)
    ensures Total(s.view.balances, token, id) == Total(s0.view.balances, token, id)
  {
    if trace == [] {
    } else {
      var front, a := trace[..|trace| - 1], trace[|trace| - 1];
      var before := Run(s0, front, unpack).value;
      UnitsConserved(s0, front, before, unpack, token, id);
      if a.Step? && a.a.Upsert? {
        UpsertOfGroupBy(before.view.balances, EntriesOf(before.view.pc.logs, unpack).value, a.a.out);
        LogsConserve(before.view.balances, before.view.pc.logs, unpack, token, id);
      }
    }
  }
}
