/** Which recorded indices stay exact over runs of subscribe and delete
    (internal/handlers/ws/client.go:44-83). */
module RegistryRuns {
  import opened Wrappers
  import opened Seqs
  import opened Registry

  datatype ClientState = ClientState(pos: seq<Position>, live: bool)

  /** The registry and its clients, a client being known by the number of its channel; a client that is not
      live has run delete, so its channel is closed. */
  datatype Hub = Hub(reg: Channels, clients: map<nat, ClientState>)

  predicate Recorded(reg: Channels, p: Position, c: nat) {
    p.topic in reg && p.index < |At(reg, p.topic, p.filter)| && At(reg, p.topic, p.filter)[p.index] == c
  }

  /** Every index a live client recorded is where its channel is. */
  ghost predicate Exact(h: Hub) {
    forall c, j :: c in h.clients && h.clients[c].live && 0 <= j < |h.clients[c].pos| ==>
      Recorded(h.reg, h.clients[c].pos[j], c)
  }

  /** Every registered channel is that of a live client, which recorded it: no closed channel is registered. */
  ghost predicate AllOpen(h: Hub) {
    forall t, f, i :: 0 <= i < |At(h.reg, t, f)| ==>
      var c := At(h.reg, t, f)[i];
      c in h.clients && h.clients[c].live && Position(t, f, i) in h.clients[c].pos
  }

  ghost predicate Healthy(h: Hub) {
    && Exact(h) && AllOpen(h)
    && forall sub :: ValidateSubscription(sub) ==> sub.topic in h.reg
  }

  predicate SameBucket(p: Position, q: Position) {
    p.topic == q.topic && p.filter == q.filter
  }

  predicate OnePerBucket(pos: seq<Position>) {
    forall i, j :: 0 <= i < j < |pos| ==> !SameBucket(pos[i], pos[j])
  }

  // ---------------------------------------------------------------- subscribe

  function Subscribed(h: Hub, c: nat, sub: SubscribeMessage): Hub
    requires c in h.clients && sub.topic in h.reg
  {
    var filter := ExtractFilter(sub);
    var slots := At(h.reg, sub.topic, filter);
    Hub(Put(h.reg, sub.topic, filter, slots + [c]),
        h.clients[c := h.clients[c].(pos := h.clients[c].pos + [Position(sub.topic, filter, |slots|)])])
  }

  lemma SubscribeKeepsExact(h: Hub, c: nat, sub: SubscribeMessage)
    requires Exact(h) && c in h.clients && sub.topic in h.reg
    ensures Exact(Subscribed(h, c, sub))
  {
  }

  lemma SubscribeKeepsHealthy(h: Hub, c: nat, sub: SubscribeMessage)
    requires Healthy(h) && c in h.clients && h.clients[c].live && ValidateSubscription(sub)
    ensures Healthy(Subscribed(h, c, sub))
  {
    SubscribeKeepsExact(h, c, sub);
    var h' := Subscribed(h, c, sub);
    forall t, f, i | 0 <= i < |At(h'.reg, t, f)|
      ensures var d := At(h'.reg, t, f)[i];
              d in h'.clients && h'.clients[d].live && Position(t, f, i) in h'.clients[d].pos
    {
      if i < |At(h.reg, t, f)| {
        assert At(h'.reg, t, f)[i] == At(h.reg, t, f)[i];
        assert Position(t, f, i) in h.clients[At(h.reg, t, f)[i]].pos;
      } else {
        assert h'.clients[c].pos[|h.clients[c].pos|] == Position(t, f, i);
      }
    }
  }

  // ---------------------------------------------------------------- delete

  /** The index a client recorded in a bucket. */
  function IndexIn(pos: seq<Position>, topic: string, filter: Filter): Option<nat> {
    if pos == [] then None
    else
      var last := pos[|pos| - 1];
      if last.topic == topic && last.filter == filter then Some(last.index)
      else IndexIn(pos[..|pos| - 1], topic, filter)
  }

  lemma IndexInMeans(pos: seq<Position>, topic: string, filter: Filter)
    ensures IndexIn(pos, topic, filter).Some? ==> Position(topic, filter, IndexIn(pos, topic, filter).value) in pos
    ensures OnePerBucket(pos) ==> forall j :: 0 <= j < |pos| && pos[j].topic == topic && pos[j].filter == filter ==>
              IndexIn(pos, topic, filter) == Some(pos[j].index)
    ensures IndexIn(pos, topic, filter).None? ==>
              forall j :: 0 <= j < |pos| ==> !(pos[j].topic == topic && pos[j].filter == filter)
  {
    if IndexIn(pos, topic, filter).Some? { IndexInRecorded(pos, topic, filter); }
    IndexInNone(pos, topic, filter);
    if OnePerBucket(pos) {
      forall j | 0 <= j < |pos| && pos[j].topic == topic && pos[j].filter == filter
        ensures IndexIn(pos, topic, filter) == Some(pos[j].index)
      {
        var i :| 0 <= i < |pos| && pos[i] == Position(topic, filter, IndexIn(pos, topic, filter).value);
        assert SameBucket(pos[i], pos[j]) && SameBucket(pos[j], pos[i]);
      }
    }
  }

  lemma {:induction false} IndexInRecorded(pos: seq<Position>, topic: string, filter: Filter)
    requires IndexIn(pos, topic, filter).Some?
    ensures Position(topic, filter, IndexIn(pos, topic, filter).value) in pos
  {
    var front, last := pos[..|pos| - 1], pos[|pos| - 1];
    assert pos == front + [last];
    if !(last.topic == topic && last.filter == filter) { IndexInRecorded(front, topic, filter); }
  }

  lemma {:induction false} IndexInNone(pos: seq<Position>, topic: string, filter: Filter)
    ensures IndexIn(pos, topic, filter).None? ==>
              forall j :: 0 <= j < |pos| ==> !(pos[j].topic == topic && pos[j].filter == filter)
  {
    if pos != [] { IndexInNone(pos[..|pos| - 1], topic, filter); }
  }

  /** The slice of a bucket after the recorded index is taken out of it. */
  function Cut(c: seq<nat>, index: Option<nat>): seq<nat>
    requires index.Some? ==> index.value < |c|
  {
    if index.None? then c else Without(c, index.value)
  }

  ghost predicate InRange(reg: Channels, pos: seq<Position>) {
    forall j :: 0 <= j < |pos| ==> pos[j].topic in reg && pos[j].index < |At(reg, pos[j].topic, pos[j].filter)|
  }

  lemma IndexInRange(reg: Channels, pos: seq<Position>, t: string, f: Filter)
    requires InRange(reg, pos)
    ensures IndexIn(pos, t, f).Some? ==> IndexIn(pos, t, f).value < |At(reg, t, f)|
  {
  }

  /** With at most one registration per bucket, delete takes exactly the recorded index out of each bucket. */
  lemma {:induction false} RemoveAllCuts(reg: Channels, pos: seq<Position>, t: string, f: Filter)
    requires OnePerBucket(pos) && InRange(reg, pos)
    ensures IndexIn(pos, t, f).Some? ==> IndexIn(pos, t, f).value < |At(reg, t, f)|
    ensures RemoveAll(reg, pos).Some? && RemoveAll(reg, pos).value.Keys == reg.Keys
    ensures At(RemoveAll(reg, pos).value, t, f) == Cut(At(reg, t, f), IndexIn(pos, t, f))
  {
    IndexInRange(reg, pos, t, f);
    if pos == [] {
    } else {
      var front, last := pos[..|pos| - 1], pos[|pos| - 1];
      RemoveAllCuts(reg, front, t, f);
      RemoveAllCuts(reg, front, last.topic, last.filter);
      IndexInMeans(front, last.topic, last.filter);
      assert forall j :: 0 <= j < |front| ==> front[j] == pos[j] && !SameBucket(pos[j], last);
      assert IndexIn(front, last.topic, last.filter).None?;
    }
  }

  function Deleted(h: Hub, c: nat): Option<Hub>
    requires c in h.clients
  {
    if !h.clients[c].live then Some(h)
    else
      match RemoveAll(h.reg, h.clients[c].pos)
      case None => None
      case Some(reg') => Some(Hub(reg', h.clients[c := h.clients[c].(live := false)]))
  }

  lemma HealthyInRange(h: Hub, c: nat)
    requires Healthy(h) && c in h.clients && h.clients[c].live
    ensures InRange(h.reg, h.clients[c].pos)
  {
    var pos := h.clients[c].pos;
    forall j | 0 <= j < |pos| ensures pos[j].topic in h.reg && pos[j].index < |At(h.reg, pos[j].topic, pos[j].filter)| {
      assert Recorded(h.reg, pos[j], c);
    }
  }

  /** In a healthy hub a bucket holds the client's channel exactly at the index it recorded. */
  lemma OwnIndex(h: Hub, c: nat, t: string, f: Filter)
    requires Healthy(h) && c in h.clients && h.clients[c].live && OnePerBucket(h.clients[c].pos)
    ensures
      var own, bucket := IndexIn(h.clients[c].pos, t, f), At(h.reg, t, f);
      && (own.Some? ==> own.value < |bucket| && bucket[own.value] == c)
      && forall i :: 0 <= i < |bucket| && bucket[i] == c ==> own == Some(i)
  {
    var pos := h.clients[c].pos;
    var own, bucket := IndexIn(pos, t, f), At(h.reg, t, f);
    IndexInMeans(pos, t, f);
    if own.Some? {
      var j :| 0 <= j < |pos| && pos[j] == Position(t, f, own.value);
      assert Recorded(h.reg, pos[j], c);
    }
    forall i | 0 <= i < |bucket| && bucket[i] == c ensures own == Some(i) {
      assert Position(t, f, i) in pos;
    }
  }

  /** What delete by a live client with at most one registration per bucket does to one bucket: it does not
      panic, it takes out the client's own channel and nothing else, and keeps the order of the others. */
  lemma DeleteTakesOwnChannels(h: Hub, c: nat, t: string, f: Filter)
    requires Healthy(h) && c in h.clients && h.clients[c].live && OnePerBucket(h.clients[c].pos)
    ensures InRange(h.reg, h.clients[c].pos) && Deleted(h, c).Some?
    ensures
      var own := IndexIn(h.clients[c].pos, t, f);
      var before, after := At(h.reg, t, f), At(Deleted(h, c).value.reg, t, f);
      && (own.Some? ==> own.value < |before| && before[own.value] == c)
      && after == Cut(before, own)
      && c !in after
  {
    HealthyInRange(h, c);
    RemoveAllCuts(h.reg, h.clients[c].pos, t, f);
    OwnIndex(h, c, t, f);
    CutLoses(At(h.reg, t, f), IndexIn(h.clients[c].pos, t, f), c);
  }

  lemma CutLoses(bucket: seq<nat>, own: Option<nat>, c: nat)
    requires own.Some? ==> own.value < |bucket|
    requires forall i :: 0 <= i < |bucket| && bucket[i] == c ==> own == Some(i)
    ensures c !in Cut(bucket, own)
  {
  }

  /** The index another client recorded: exact as before if it is not behind the removed one in the same
      bucket, otherwise too large by exactly one. */
  lemma OthersAfterDelete(h: Hub, c: nat, d: nat, q: Position)
    requires Healthy(h) && c in h.clients && h.clients[c].live && OnePerBucket(h.clients[c].pos)
    requires d in h.clients && d != c && h.clients[d].live && q in h.clients[d].pos
    ensures Deleted(h, c).Some?
    ensures
      var own := IndexIn(h.clients[c].pos, q.topic, q.filter);
      var h' := Deleted(h, c).value;
      if own.Some? && own.value < q.index then Recorded(h'.reg, q.(index := q.index - 1), d)
      else Recorded(h'.reg, q, d)
  {
    assert Recorded(h.reg, q, d) by {
      var j :| 0 <= j < |h.clients[d].pos| && h.clients[d].pos[j] == q;
      assert Recorded(h.reg, h.clients[d].pos[j], d);
    }
    DeleteTakesOwnChannels(h, c, q.topic, q.filter);
    assert q.topic in Deleted(h, c).value.reg by { RemoveAllCuts(h.reg, h.clients[c].pos, q.topic, q.filter); }
    RecordShifts(h.reg, Deleted(h, c).value.reg, IndexIn(h.clients[c].pos, q.topic, q.filter), q, d);
  }

  /** A record in a slice that loses another index. */
  lemma RecordShifts(reg: Channels, reg': Channels, own: Option<nat>, q: Position, d: nat)
    requires Recorded(reg, q, d) && q.topic in reg'
    requires own.Some? ==> own.value < |At(reg, q.topic, q.filter)| && At(reg, q.topic, q.filter)[own.value] != d
    requires At(reg', q.topic, q.filter) == Cut(At(reg, q.topic, q.filter), own)
    ensures if own.Some? && own.value < q.index then Recorded(reg', q.(index := q.index - 1), d)
            else Recorded(reg', q, d)
  {
  }

  /** The client's channel is the newest in each of its buckets. */
  ghost predicate Newest(h: Hub, c: nat)
    requires c in h.clients
  {
    forall j :: 0 <= j < |h.clients[c].pos| ==>
      var p := h.clients[c].pos[j];
      p.index + 1 == |At(h.reg, p.topic, p.filter)|
  }

  /** Delete leaves every other recorded index exact if and only if the client was the newest in each of its buckets. */
  lemma DeleteKeepsExactIffNewest(h: Hub, c: nat)
    requires Healthy(h) && c in h.clients && h.clients[c].live && OnePerBucket(h.clients[c].pos)
    ensures Deleted(h, c).Some?
    ensures Exact(Deleted(h, c).value) <==> Newest(h, c)
  {
    DeleteTakesOwnChannels(h, c, "", Filter("", ""));
    if Newest(h, c) {
      NewestKeepsExact(h, c);
    } else {
      var j :| 0 <= j < |h.clients[c].pos| &&
               var p := h.clients[c].pos[j]; p.index + 1 != |At(h.reg, p.topic, p.filter)|;
      var p := h.clients[c].pos[j];
      LastBecomesStale(h, c, j, p);
    }
  }

  lemma NewestKeepsExact(h: Hub, c: nat)
    requires Healthy(h) && c in h.clients && h.clients[c].live && OnePerBucket(h.clients[c].pos) && Newest(h, c)
    requires Deleted(h, c).Some?
    ensures Exact(Deleted(h, c).value)
  {
    var h' := Deleted(h, c).value;
    forall d, j | d in h'.clients && h'.clients[d].live && 0 <= j < |h'.clients[d].pos|
      ensures Recorded(h'.reg, h'.clients[d].pos[j], d)
    {
      var q := h.clients[d].pos[j];
      OthersAfterDelete(h, c, d, q);
      IndexInMeans(h.clients[c].pos, q.topic, q.filter);
      assert Recorded(h.reg, h.clients[d].pos[j], d);
    }
  }

  /** The newest channel of a bucket that loses an older one is recorded past its end. */
  lemma LastBecomesStale(h: Hub, c: nat, j: nat, p: Position)
    requires Healthy(h) && c in h.clients && h.clients[c].live && OnePerBucket(h.clients[c].pos)
    requires j < |h.clients[c].pos| && h.clients[c].pos[j] == p && p.index + 1 != |At(h.reg, p.topic, p.filter)|
    requires Deleted(h, c).Some?
    ensures !Exact(Deleted(h, c).value)
  {
    var h', before := Deleted(h, c).value, At(h.reg, p.topic, p.filter);
    assert Recorded(h.reg, h.clients[c].pos[j], c);
    IndexInMeans(h.clients[c].pos, p.topic, p.filter);
    DeleteTakesOwnChannels(h, c, p.topic, p.filter);
    var n := |before| - 1;
    var d := before[n];
    assert Position(p.topic, p.filter, n) in h.clients[d].pos;
    assert d != c;
    var i :| 0 <= i < |h.clients[d].pos| && h.clients[d].pos[i] == Position(p.topic, p.filter, n);
    assert !Recorded(h'.reg, h'.clients[d].pos[i], d);
  }

  lemma DeleteKeepsHealthy(h: Hub, c: nat)
    requires Healthy(h) && c in h.clients && h.clients[c].live && OnePerBucket(h.clients[c].pos) && Newest(h, c)
    ensures Deleted(h, c).Some? && Healthy(Deleted(h, c).value)
  {
    DeleteKeepsExactIffNewest(h, c);
    var h' := Deleted(h, c).value;
    forall t, f, i | 0 <= i < |At(h'.reg, t, f)|
      ensures var d := At(h'.reg, t, f)[i];
              d in h'.clients && h'.clients[d].live && Position(t, f, i) in h'.clients[d].pos
    {
      DeleteTakesOwnChannels(h, c, t, f);
      IndexInMeans(h.clients[c].pos, t, f);
      assert At(h'.reg, t, f)[i] == At(h.reg, t, f)[i];
      assert At(h'.reg, t, f)[i] != c;
    }
    RemoveAllCuts(h.reg, h.clients[c].pos, "", Filter("", ""));
  }

  // ---------------------------------------------------------------- runs

  datatype Action = Connect(c: nat) | Subscribe(c: nat, sub: SubscribeMessage) | Delete(c: nat)

  /** One step; None is the panic of delete. */
  function Next(h: Hub, a: Action): Option<Hub> {
    match a
    case Connect(c) => Some(if c in h.clients then h else h.(clients := h.clients[c := ClientState([], true)]))
    case Subscribe(c, sub) =>
      Some(if c in h.clients && ValidateSubscription(sub) && sub.topic in h.reg then Subscribed(h, c, sub) else h)
    case Delete(c) => if c in h.clients then Deleted(h, c) else Some(h)
  }

  /** The hub after a run, None once a step panicked. */
  function Run(h: Hub, trace: seq<Action>): Option<Hub> {
    if trace == [] then Some(h)
    else
      match Run(h, trace[..|trace| - 1])
      case None => None
      case Some(before) => Next(before, trace[|trace| - 1])
  }

  /** The steps in question: nobody subscribes after its delete, and each bucket is emptied newest-first by
      clients with at most one registration per bucket. */
  ghost predicate Orderly(h: Hub, a: Action) {
    match a
    case Connect(c) => c !in h.clients
    case Subscribe(c, _) => c in h.clients && h.clients[c].live
    case Delete(c) => c in h.clients && (h.clients[c].live ==> OnePerBucket(h.clients[c].pos) && Newest(h, c))
  }

  /** Every step that is reached is orderly. */
  ghost predicate OrderlyRun(h: Hub, trace: seq<Action>) {
    forall n :: 0 <= n < |trace| && Run(h, trace[..n]).Some? ==> Orderly(Run(h, trace[..n]).value, trace[n])
  }

  /** Orderly steps never panic and keep every index exact and every registered channel open. */
  lemma OrderlyStep(h: Hub, a: Action)
    requires Orderly(h, a) && Healthy(h)
    ensures Next(h, a).Some? && Healthy(Next(h, a).value)
  {
    match a
    case Connect(c) =>
    case Subscribe(c, sub) => if ValidateSubscription(sub) { SubscribeKeepsHealthy(h, c, sub); }
    case Delete(c) => if h.clients[c].live { DeleteKeepsHealthy(h, c); }
  }

  /** Orderly runs never panic, and at their end every index is exact and every registered channel open. */
  lemma {:induction false} OrderlyRunsStayHealthy(h: Hub, trace: seq<Action>)
    requires Healthy(h) && OrderlyRun(h, trace)
    ensures Run(h, trace).Some? && Healthy(Run(h, trace).value)
  {
    if trace == [] {
    } else {
      var front := trace[..|trace| - 1];
      assert forall n :: 0 <= n < |front| ==> front[..n] == trace[..n] && front[n] == trace[n];
      OrderlyRunsStayHealthy(h, front);
      OrderlyStep(Run(h, front).value, trace[|trace| - 1]);
    }
  }
}
