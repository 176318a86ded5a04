/** The head loop as the code runs it (internal/core/services/forwardfill.go): every run of it is a run of
    the forwardfill machine, and a successful iteration is `Iterate`. */
module ForwardFiller {
  import opened Wrappers
  import opened Tables
  import opened Forwardfill
  import opened Repository

  /** What the broker does to a message. */
  datatype Delivery =
    | Delivered
    | Refused
    | ReplyLost          // delivered, but its caller gets an error

  /** The broker, as the list of what was published. */
  class PubSub {
    var sent: seq<Message>

    constructor ()
      ensures sent == []
    {
      sent := [];
    }

    method Publish(m: Message, delivery: Delivery) returns (err: bool)
      modifies this
      ensures err <==> !delivery.Delivered?
      ensures sent == if delivery.Refused? then old(sent) else old(sent) + [m]
    {
      if !delivery.Refused? { sent := sent + [m]; }
      err := !delivery.Delivered?;
    }
  }

  /** What the database and the broker do to the calls of one iteration; `publish` goes by message. */
  datatype HeadFaults = HeadFaults(read: bool, delete: Fault, reorg: Delivery, create: Fault, publish: nat -> Delivery)

  /** No call of the iteration reports an error; a dropped commit does not. */
  ghost predicate Quiet(f: HeadFaults) {
    !f.read && f.delete.NoFault? && f.reorg.Delivered? && !f.create.StatementFails? &&
      forall n :: f.publish(n).Delivered?
  }

  /** Messages [lo, hi) of a created block are all delivered, as far as their caller can tell. */
  ghost predicate AllDelivered(f: HeadFaults, lo: nat, hi: nat) {
    forall n: nat :: lo <= n < hi ==> f.publish(n).Delivered?
  }

  /** Every call that an iteration makes on these rows succeeds: the read; on a reorg, the delete and its
      announcement; the create, on which no other hash may hold the height; and every message of the block. */
  ghost predicate Succeeds(f: HeadFaults, rows: Store, item: BlockTxsEvents) {
    && !f.read
    && (item.block.id in rows.blocks && rows.blocks[item.block.id].hash != item.block.hash ==>
          f.delete.NoFault? && f.reorg.Delivered?)
    && !f.create.StatementFails? && CreateSpec(AfterDelete(rows, item), item).Some?
    && AllDelivered(f, 0, 1 + |item.txs| + |item.events|)
  }

  ghost predicate IsRun(v0: FfView, trace: seq<FfAction>, v: FfView, w: World) {
    FfRun(v0, trace, w) == Some(v)
  }

  ghost method Push(v0: FfView, trace: seq<FfAction>, v: FfView, a: FfAction, w: World)
    returns (trace': seq<FfAction>, v': FfView)
    requires IsRun(v0, trace, v, w) && FfEnabled(v, a, w)
    ensures IsRun(v0, trace', v', w) && v' == FfNext(v, a, w)
  {
    trace', v' := trace + [a], FfNext(v, a, w);
    assert trace'[..|trace|] == trace;
  }

  /** The reorg branch: delete the height, then announce it. */
  method Replace(repo: IndexerRepository, pubsub: PubSub, item: BlockTxsEvents, faults: HeadFaults,
                 ghost v0: FfView, ghost before: seq<FfAction>, ghost vb: FfView, ghost w: World)
    returns (err: bool, ghost trace: seq<FfAction>, ghost v: FfView)
    requires IsRun(v0, before, vb, w) && vb == FfView(repo.Rows(), pubsub.sent, Deleting(item))
    modifies repo`blocks, repo`txs, repo`events, pubsub
    ensures IsRun(v0, trace, v, w)
    ensures v == FfView(repo.Rows(), pubsub.sent, if err then Stopped else Creating(item))
    ensures err <==> !faults.delete.NoFault? || !faults.reorg.Delivered?
    ensures !err ==> repo.Rows() == old(DeleteSpec(repo.Rows(), item.block.id))
    ensures !err ==> pubsub.sent == old(pubsub.sent) + [ReorgMsg(item.block.id)]
  {
    var fault := faults.delete;
    err := repo.Delete(item.block.id, fault);
    trace, v := Push(v0, before, vb,
                     if Took(fault) then Forwardfill.Delete(fault.NoFault?) else Fail, w);
    if err { return; }
    err := pubsub.Publish(ReorgMsg(item.block.id), faults.reorg);
    trace, v := Push(v0, trace, v, if faults.reorg.Refused? then Fail else Announce(!err), w);
  }

  /** Message n of a created block, counting the block, then its transactions, then its events. */
  function Part(item: BlockTxsEvents, n: nat): Message
    requires n < 1 + |item.txs| + |item.events|
  {
    if n == 0 then BlockMsg(item.block)
    else if n <= |item.txs| then TxMsg(item.txs[n - 1])
    else EventMsg(item.events[n - 1 - |item.txs|])
  }

  lemma PublishOfPart(item: BlockTxsEvents, n: nat)
    requires n < 1 + |item.txs| + |item.events|
    ensures |PublishOf(item)| == 1 + |item.txs| + |item.events| && PublishOf(item)[n] == Part(item, n)
  {
  }

  /** Where the filler is after n messages of a created block. */
  ghost function After(rows: Store, published: seq<Message>, item: BlockTxsEvents, n: nat): FfView {
    FfView(rows, published, if n == 1 + |item.txs| + |item.events| then Listening else Publishing(item, n))
  }

  /** The first n messages of a created block were published on top of sent0. */
  ghost predicate Sent(sent: seq<Message>, sent0: seq<Message>, item: BlockTxsEvents, n: nat) {
    n <= |PublishOf(item)| == 1 + |item.txs| + |item.events| && sent == sent0 + PublishOf(item)[..n]
  }

  lemma SentNext(sent: seq<Message>, sent0: seq<Message>, item: BlockTxsEvents, n: nat)
    requires Sent(sent, sent0, item, n) && n < |PublishOf(item)|
    ensures Sent(sent + [PublishOf(item)[n]], sent0, item, n + 1)
  {
  }

  /** The machine's steps for message n. */
  lemma PublishMoves(rows: Store, sent: seq<Message>, item: BlockTxsEvents, n: nat, w: World)
    requires n < 1 + |item.txs| + |item.events| == |PublishOf(item)|
    ensures
      var v := After(rows, sent, item, n);
      && FfEnabled(v, Fail, w) && FfNext(v, Fail, w) == FfView(rows, sent, Stopped)
      && FfEnabled(v, Forwardfill.Publish(true), w) && FfEnabled(v, Forwardfill.Publish(false), w)
      && FfNext(v, Forwardfill.Publish(true), w) == After(rows, sent + [PublishOf(item)[n]], item, n + 1)
      && FfNext(v, Forwardfill.Publish(false), w) == FfView(rows, sent + [PublishOf(item)[n]], Stopped)
  {
    hide PublishOf;
  }

  /** The call of Publish for message n. */
  method PublishNext(repo: IndexerRepository, pubsub: PubSub, item: BlockTxsEvents, n: nat, m: Message,
                     delivery: Delivery, ghost v0: FfView, ghost before: seq<FfAction>, ghost vb: FfView,
                     ghost w: World)
    returns (err: bool, ghost trace: seq<FfAction>, ghost v: FfView)
    requires n < 1 + |item.txs| + |item.events| && m == Part(item, n)
    requires IsRun(v0, before, vb, w) && vb == After(repo.Rows(), pubsub.sent, item, n)
    modifies pubsub
    ensures IsRun(v0, trace, v, w)
    ensures v == if err then FfView(repo.Rows(), pubsub.sent, Stopped) else After(repo.Rows(), pubsub.sent, item, n + 1)
    ensures err == !delivery.Delivered? && |PublishOf(item)| == 1 + |item.txs| + |item.events|
    ensures !err ==> pubsub.sent == old(pubsub.sent) + [PublishOf(item)[n]]
  {
    PublishOfPart(item, n);
    PublishMoves(repo.Rows(), pubsub.sent, item, n, w);
    hide PublishOf, IsRun, After, FfEnabled, FfNext;
    err := pubsub.Publish(m, delivery);
    trace, v := Push(v0, before, vb, if delivery.Refused? then Fail else Forwardfill.Publish(!err), w);
  }

  lemma DeliveredParts(f: HeadFaults, n: nat, m: nat)
    ensures AllDelivered(f, 0, 1 + n + m) <==>
            f.publish(0).Delivered? && AllDelivered(f, 1, 1 + n) && AllDelivered(f, 1 + n, 1 + n + m)
  {
  }

  /** Whether one more message is delivered decides. */
  lemma DeliveredNext(f: HeadFaults, lo: nat, n: nat, hi: nat)
    requires lo <= n < hi && AllDelivered(f, lo, n)
    ensures AllDelivered(f, lo, n + 1) <==> f.publish(n).Delivered?
    ensures !f.publish(n).Delivered? ==> !AllDelivered(f, lo, hi)
  {
  }

  method PublishTxs(repo: IndexerRepository, pubsub: PubSub, item: BlockTxsEvents, faults: HeadFaults,
                    ghost sent0: seq<Message>, ghost v0: FfView, ghost before: seq<FfAction>, ghost vb: FfView,
                    ghost w: World)
    returns (err: bool, ghost trace: seq<FfAction>, ghost v: FfView)
    requires IsRun(v0, before, vb, w) && vb == After(repo.Rows(), pubsub.sent, item, 1)
    requires Sent(pubsub.sent, sent0, item, 1)
    modifies pubsub
    ensures IsRun(v0, trace, v, w)
    ensures v == if err then FfView(repo.Rows(), pubsub.sent, Stopped)
                 else After(repo.Rows(), pubsub.sent, item, 1 + |item.txs|)
    ensures err <==> !AllDelivered(faults, 1, 1 + |item.txs|)
    ensures !err ==> Sent(pubsub.sent, sent0, item, 1 + |item.txs|)
  {
    err, trace, v := false, before, vb;
    assert AllDelivered(faults, 1, 1);
    hide IsRun, Sent, AllDelivered, After, PublishOf;
    for i := 0 to |item.txs|
      invariant !err && IsRun(v0, trace, v, w) && v == After(repo.Rows(), pubsub.sent, item, 1 + i)
      invariant Sent(pubsub.sent, sent0, item, 1 + i) && AllDelivered(faults, 1, 1 + i)
    {
      PublishOfPart(item, 1 + i);
      SentNext(pubsub.sent, sent0, item, 1 + i);
      DeliveredNext(faults, 1, 1 + i, 1 + |item.txs|);
      err, trace, v :=
        PublishNext(repo, pubsub, item, 1 + i, TxMsg(item.txs[i]), faults.publish(1 + i), v0, trace, v, w);
      if err { return; }
    }
  }

  method PublishEvents(repo: IndexerRepository, pubsub: PubSub, item: BlockTxsEvents, faults: HeadFaults,
                       ghost sent0: seq<Message>, ghost v0: FfView, ghost before: seq<FfAction>, ghost vb: FfView,
                       ghost w: World)
    returns (err: bool, ghost trace: seq<FfAction>, ghost v: FfView)
    requires IsRun(v0, before, vb, w) && vb == After(repo.Rows(), pubsub.sent, item, 1 + |item.txs|)
    requires Sent(pubsub.sent, sent0, item, 1 + |item.txs|)
    modifies pubsub
    ensures IsRun(v0, trace, v, w)
    ensures v == FfView(repo.Rows(), pubsub.sent, if err then Stopped else Listening)
    ensures err <==> !AllDelivered(faults, 1 + |item.txs|, 1 + |item.txs| + |item.events|)
    ensures !err ==> Sent(pubsub.sent, sent0, item, 1 + |item.txs| + |item.events|)
  {
    err, trace, v := false, before, vb;
    var last := 1 + |item.txs| + |item.events|;
    assert AllDelivered(faults, 1 + |item.txs|, 1 + |item.txs|);
    assert After(repo.Rows(), pubsub.sent, item, last).pc == Listening;
    hide IsRun, Sent, AllDelivered, PublishOf;
    for i := 0 to |item.events|
      invariant !err && IsRun(v0, trace, v, w) && v == After(repo.Rows(), pubsub.sent, item, 1 + |item.txs| + i)
      invariant Sent(pubsub.sent, sent0, item, 1 + |item.txs| + i)
      invariant AllDelivered(faults, 1 + |item.txs|, 1 + |item.txs| + i)
    {
      var n := 1 + |item.txs| + i;
      PublishOfPart(item, n);
      SentNext(pubsub.sent, sent0, item, n);
      DeliveredNext(faults, 1 + |item.txs|, n, last);
      err, trace, v := PublishNext(repo, pubsub, item, n, EventMsg(item.events[i]), faults.publish(n), v0, trace, v, w);
      if err { return; }
    }
  }

  lemma SentAll(sent: seq<Message>, sent0: seq<Message>, item: BlockTxsEvents)
    requires Sent(sent, sent0, item, 1 + |item.txs| + |item.events|)
    ensures sent == sent0 + PublishOf(item)
  {
    assert PublishOf(item)[..|PublishOf(item)|] == PublishOf(item);
  }

  /** What was published on top of `before`: the block, then its transactions, then its events, in order. */
  ghost predicate BlockPublished(before: seq<Message>, item: BlockTxsEvents, sent: seq<Message>) {
    var m, n := |before|, |item.txs|;
    && |sent| == m + 1 + n + |item.events| && sent[..m] == before && sent[m] == BlockMsg(item.block)
    && (forall i :: 0 <= i < n ==> sent[m + 1 + i] == TxMsg(item.txs[i]))
    && (forall i :: 0 <= i < |item.events| ==> sent[m + 1 + n + i] == EventMsg(item.events[i]))
  }

  lemma PublishedInOrder(before: seq<Message>, item: BlockTxsEvents)
    ensures BlockPublished(before, item, before + PublishOf(item))
  {
  }

  /** The calls of Publish after a block was created: the block, its transactions, its events. */
  method PublishAll(repo: IndexerRepository, pubsub: PubSub, item: BlockTxsEvents, faults: HeadFaults,
                    ghost v0: FfView, ghost before: seq<FfAction>, ghost vb: FfView, ghost w: World)
    returns (err: bool, ghost trace: seq<FfAction>, ghost v: FfView)
    requires IsRun(v0, before, vb, w) && vb == FfView(repo.Rows(), pubsub.sent, Publishing(item, 0))
    modifies pubsub
    ensures IsRun(v0, trace, v, w)
    ensures v == FfView(repo.Rows(), pubsub.sent, if err then Stopped else Listening)
    ensures err <==> !AllDelivered(faults, 0, 1 + |item.txs| + |item.events|)
    ensures !err ==> pubsub.sent == old(pubsub.sent) + PublishOf(item)
    ensures !err ==> BlockPublished(old(pubsub.sent), item, pubsub.sent)
  {
    hide AllDelivered, BlockPublished, IsRun;
    ghost var sent0 := pubsub.sent;
    PublishOfPart(item, 0);
    DeliveredParts(faults, |item.txs|, |item.events|);
    assert Sent(pubsub.sent, sent0, item, 0);
    SentNext(pubsub.sent, sent0, item, 0);
    hide Sent, PublishOf;
    err, trace, v := PublishNext(repo, pubsub, item, 0, BlockMsg(item.block), faults.publish(0), v0, before, vb, w);
    if err { return; }
    err, trace, v := PublishTxs(repo, pubsub, item, faults, sent0, v0, trace, v, w);
    if err { return; }
    err, trace, v := PublishEvents(repo, pubsub, item, faults, sent0, v0, trace, v, w);
    if err { return; }
    SentAll(pubsub.sent, sent0, item);
    PublishedInOrder(sent0, item);
  }

  /** The read of the stored block and, when its hash differs, its replacement. */
  method ReadAndReplace(repo: IndexerRepository, pubsub: PubSub, item: BlockTxsEvents, faults: HeadFaults,
                        ghost v0: FfView, ghost before: seq<FfAction>, ghost vb: FfView, ghost w: World)
    returns (err: bool, ghost trace: seq<FfAction>, ghost v: FfView)
    requires IsRun(v0, before, vb, w) && vb == FfView(repo.Rows(), pubsub.sent, Reading(item))
    modifies repo`blocks, repo`txs, repo`events, pubsub
    ensures IsRun(v0, trace, v, w)
    ensures v == FfView(repo.Rows(), pubsub.sent, if err then Stopped else Creating(item))
    ensures err <==>
      || faults.read
      || (old(IsReorg(repo.Rows(), item)) && !(faults.delete.NoFault? && faults.reorg.Delivered?))
    ensures !err ==> repo.Rows() == old(AfterDelete(repo.Rows(), item))
    ensures !err ==> pubsub.sent == old(pubsub.sent + ReorgOf(repo.Rows(), item))
  {
    if faults.read {
      trace, v := Push(v0, before, vb, Fail, w);
      return true, trace, v;
    }
    var curr := repo.GetBlockById(item.block.id);
    trace, v := Push(v0, before, vb, Read, w);
    err := false;
    if curr.Some? && curr.value.hash != item.block.hash {
      err, trace, v := Replace(repo, pubsub, item, faults, v0, trace, v, w);
    }
  }

  /** Create, and the publishing of the created block. */
  method CreateAndPublish(repo: IndexerRepository, pubsub: PubSub, item: BlockTxsEvents, faults: HeadFaults,
                          ghost v0: FfView, ghost before: seq<FfAction>, ghost vb: FfView, ghost w: World)
    returns (err: bool, ghost trace: seq<FfAction>, ghost v: FfView)
    requires IsRun(v0, before, vb, w) && vb == FfView(repo.Rows(), pubsub.sent, Creating(item))
    modifies repo`blocks, repo`txs, repo`events, pubsub
    ensures IsRun(v0, trace, v, w)
    ensures v == FfView(repo.Rows(), pubsub.sent, if err then Stopped else Listening)
    ensures err <==>
      || faults.create.StatementFails? || old(CreateSpec(repo.Rows(), item)).None?
      || !AllDelivered(faults, 0, 1 + |item.txs| + |item.events|)
    ensures !err ==>
      var spec := old(CreateSpec(repo.Rows(), item));
      spec.Some? && repo.Rows() == if faults.create.CommitFails? then old(repo.Rows()) else spec.value
    ensures !err ==> pubsub.sent == old(pubsub.sent) + PublishOf(item)
  {
    var fault := faults.create;
    ghost var step := if fault.StatementFails? || CreateSpec(repo.Rows(), item).None? then Fail
                      else Forwardfill.Create(!fault.CommitFails?);
    assert BlockTxsEvents(item.block, item.txs, item.events) == item;
    err := repo.Create(item.block, item.txs, item.events, fault);
    trace, v := Push(v0, before, vb, step, w);
    if err { return; }
    err, trace, v := PublishAll(repo, pubsub, item, faults, v0, trace, v, w);
  }

  /** An iteration took the store and the stream where `Iterate` says. */
  ghost predicate Iterated(rows: Store, sent: seq<Message>, item: BlockTxsEvents, committed: bool,
                           rows': Store, sent': seq<Message>)
  {
    var out := Iterate(rows, item, committed);
    out.Some? && rows' == out.value.0 && sent' == sent + out.value.1
  }

  lemma IteratedParts(rows: Store, sent: seq<Message>, item: BlockTxsEvents, committed: bool, mid: Store,
                      rows': Store, sent': seq<Message>)
    requires mid == AfterDelete(rows, item) && CreateSpec(mid, item).Some?
    requires rows' == if committed then CreateSpec(mid, item).value else mid
    requires sent' == sent + ReorgOf(rows, item) + PublishOf(item)
    ensures Iterated(rows, sent, item, committed, rows', sent')
  {
  }

  lemma IteratedSound(rows: Store, sent: seq<Message>, item: BlockTxsEvents, committed: bool,
                      rows': Store, sent': seq<Message>, w: World)
    requires Iterated(rows, sent, item, committed, rows', sent') && Fetched(w, item)
    ensures Sound(rows, w) ==> Sound(rows', w)
  {
    if Sound(rows, w) { IterateKeepsSound(rows, w, item, committed); }
  }

  /** One head.  On a sound store the iteration succeeds when no call of it fails, and a successful one stores and
      publishes what `Iterate` says. */
  method HandleHead(repo: IndexerRepository, pubsub: PubSub, item: BlockTxsEvents, faults: HeadFaults,
                    ghost v0: FfView, ghost before: seq<FfAction>, ghost vb: FfView, ghost w: World)
    returns (err: bool, ghost trace: seq<FfAction>, ghost v: FfView)
    requires Fetched(w, item)
    requires IsRun(v0, before, vb, w) && vb == FfView(repo.Rows(), pubsub.sent, Listening)
    modifies repo`blocks, repo`txs, repo`events, pubsub
    ensures IsRun(v0, trace, v, w)
    ensures v == FfView(repo.Rows(), pubsub.sent, if err then Stopped else Listening)
    ensures err <==> !Succeeds(faults, old(repo.Rows()), item)
    ensures err && old(Sound(repo.Rows(), w)) ==> !Quiet(faults)
    ensures !err && old(Sound(repo.Rows(), w)) ==> Sound(repo.Rows(), w)
    ensures !err ==>
      Iterated(old(repo.Rows()), old(pubsub.sent), item, !faults.create.CommitFails?, repo.Rows(), pubsub.sent)
  {
    ghost var rows, sent := repo.Rows(), pubsub.sent;
    trace, v := Push(v0, before, vb, Head(item), w);
    err, trace, v := ReadAndReplace(repo, pubsub, item, faults, v0, trace, v, w);
    if err { return; }
    ghost var mid := repo.Rows();
    if Sound(rows, w) { AfterDeleteSound(rows, w, item); }
    err, trace, v := CreateAndPublish(repo, pubsub, item, faults, v0, trace, v, w);
    if !err {
      IteratedParts(rows, sent, item, !faults.create.CommitFails?, mid, repo.Rows(), pubsub.sent);
      IteratedSound(rows, sent, item, !faults.create.CommitFails?, repo.Rows(), pubsub.sent, w);
    }
  }

  /** The calls of an iteration that it makes whatever is stored: the read, the create and the publishing. */
  ghost predicate StoreIndependent(f: HeadFaults, item: BlockTxsEvents) {
    !f.read && !f.create.StatementFails? && AllDelivered(f, 0, 1 + |item.txs| + |item.events|)
  }

  lemma SucceedsParts(f: HeadFaults, rows: Store, item: BlockTxsEvents)
    requires Succeeds(f, rows, item)
    ensures StoreIndependent(f, item)
  {
  }

  /** Head i succeeds on the rows that the heads before it leave. */
  ghost predicate HeadPasses(rows: Store, faults: nat -> HeadFaults, items: seq<BlockTxsEvents>, i: nat)
    requires i < |items|
  {
    var out := HeadRun(rows, items[..i]);
    out.Some? && Succeeds(faults(i), out.value.0, items[i])
  }

  lemma {:induction false} PassesNext(v0: FfView, faults: nat -> HeadFaults, items: seq<BlockTxsEvents>, v: FfView,
                                      item: BlockTxsEvents)
    requires Handled(v0, items, v) && Succeeds(faults(|items|), v.rows, item)
    requires forall j :: 0 <= j < |items| ==> HeadPasses(v0.rows, faults, items, j)
    ensures forall j :: 0 <= j <= |items| ==> HeadPasses(v0.rows, faults, items + [item], j)
  {
    hide Succeeds, HeadRun;
    forall j | 0 <= j <= |items| ensures HeadPasses(v0.rows, faults, items + [item], j) {
      assert (items + [item])[..j] == items[..j];
      if j < |items| { assert HeadPasses(v0.rows, faults, items, j); } else { assert items[..j] == items; }
    }
  }

  /** Where the loop is after some heads. */
  ghost predicate Progress(v0: FfView, faults: nat -> HeadFaults, items: seq<BlockTxsEvents>, v: FfView) {
    && (forall j :: 0 <= j < |items| ==> StoreIndependent(faults(j), items[j]))
    && ((forall j :: 0 <= j < |items| ==> !faults(j).create.CommitFails?) ==>
          Handled(v0, items, v) && forall j :: 0 <= j < |items| ==> HeadPasses(v0.rows, faults, items, j))
  }

  lemma NoProgress(v: FfView, faults: nat -> HeadFaults)
    ensures Progress(v, faults, [], v)
  {
  }

  lemma ProgressNext(v0: FfView, faults: nat -> HeadFaults, items: seq<BlockTxsEvents>, v: FfView, item: BlockTxsEvents,
                     v': FfView)
    requires Progress(v0, faults, items, v) && Succeeds(faults(|items|), v.rows, item)
    requires Iterated(v.rows, v.published, item, !faults(|items|).create.CommitFails?, v'.rows, v'.published)
    ensures Progress(v0, faults, items + [item], v')
  {
    SucceedsParts(faults(|items|), v.rows, item);
    hide Succeeds, Iterated, StoreIndependent, HeadPasses, Handled;
    var all := items + [item];
    forall j | 0 <= j < |all| ensures StoreIndependent(faults(j), all[j]) {
      if j < |items| { assert all[j] == items[j]; }
    }
    if forall j :: 0 <= j < |all| ==> !faults(j).create.CommitFails? {
      assert !faults(|items|).create.CommitFails?;
      HandledNext(v0, items, v, item, v');
      PassesNext(v0, faults, items, v, item);
    }
  }

  lemma ProgressMeans(v0: FfView, faults: nat -> HeadFaults, items: seq<BlockTxsEvents>, v: FfView)
    requires Progress(v0, faults, items, v)
    ensures forall j :: 0 <= j < |items| ==> StoreIndependent(faults(j), items[j])
    ensures (forall j :: 0 <= j < |items| ==> !faults(j).create.CommitFails?) ==>
      && (forall j :: 0 <= j < |items| ==> HeadPasses(v0.rows, faults, items, j))
      && var out := HeadRun(v0.rows, items);
         out.Some? && v.rows == out.value.0 && v.published == v0.published + out.value.1
  {
  }

  /** How the loop ends: a fetch or an iteration failed, or its context was cancelled. */
  datatype End = FetchFailed | IterationFailed | Cancelled

  /** The loop over heads until one fails or the context ends: a run of the forwardfill machine, so every
      theorem about those runs is about this loop.  If all heads were handled and no commit was dropped,
      the store and the stream are those of `HeadRun`.  `fetch(i, heads[i])` answers the fetch for head i: a
      height announced again may answer with another block, the reorg this loop is for. */
  method RunForwardfill(repo: IndexerRepository, pubsub: PubSub, heads: seq<nat>,
                        fetch: (nat, nat) -> Option<BlockTxsEvents>, faults: nat -> HeadFaults, ghost w: World)
    returns (end: End, ghost trace: seq<FfAction>, ghost handled: seq<BlockTxsEvents>)
    requires forall i, h :: fetch(i, h).Some? ==> Fetched(w, fetch(i, h).value)
    modifies repo`blocks, repo`txs, repo`events, pubsub
    ensures IsRun(old(FfView(repo.Rows(), pubsub.sent, Listening)), trace, FfView(repo.Rows(), pubsub.sent, Stopped), w)
    ensures !end.Cancelled? ==>
      var n := |handled|;
      && n < |heads| && (forall i :: 0 <= i < n ==> Some(handled[i]) == fetch(i, heads[i]))
      && (end.FetchFailed? <==> fetch(n, heads[n]).None?)
    ensures end.IterationFailed? && old(Sound(repo.Rows(), w)) ==> exists i: nat :: i < |heads| && !Quiet(faults(i))
    ensures end.Cancelled? ==>
      && |handled| == |heads| && (forall i :: 0 <= i < |heads| ==> Some(handled[i]) == fetch(i, heads[i]))
      && (forall i :: 0 <= i < |heads| ==> StoreIndependent(faults(i), handled[i]))
      && ((forall i :: 0 <= i < |heads| ==> !faults(i).create.CommitFails?) ==>
            && (forall i :: 0 <= i < |heads| ==> HeadPasses(old(repo.Rows()), faults, handled, i))
            && var out := HeadRun(old(repo.Rows()), handled);
               out.Some? && repo.Rows() == out.value.0 && pubsub.sent == old(pubsub.sent) + out.value.1)
  {
    hide Iterated, Sound, Succeeds, Progress;
    NoProgress(FfView(repo.Rows(), pubsub.sent, Listening), faults);
    ghost var v0 := FfView(repo.Rows(), pubsub.sent, Listening);
    ghost var v := v0;
    trace, handled := [], [];
    for i := 0 to |heads|
      invariant IsRun(v0, trace, v, w) && v == FfView(repo.Rows(), pubsub.sent, Listening)
      invariant |handled| == i && (forall j :: 0 <= j < i ==> Some(handled[j]) == fetch(j, heads[j]))
      invariant Sound(v0.rows, w) ==> Sound(v.rows, w)
      invariant Progress(v0, faults, handled, v)
    {
      var from := fetch(i, heads[i]);
      if from.None? {
        trace, v := Push(v0, trace, v, Fail, w);
        return FetchFailed, trace, handled;
      }
      ghost var vb := v;
      var err: bool;
      err, trace, v := HandleHead(repo, pubsub, from.value, faults(i), v0, trace, v, w);
      if err { return IterationFailed, trace, handled; }
      ProgressNext(v0, faults, handled, vb, from.value, v);
      handled := handled + [from.value];
    }
    ProgressMeans(v0, faults, handled, v);
    trace, v := Push(v0, trace, v, Fail, w);
    end := Cancelled;
  }

  /** The store and the stream after some heads, each committed. */
  ghost predicate Handled(v0: FfView, items: seq<BlockTxsEvents>, v: FfView) {
    var out := HeadRun(v0.rows, items);
    out.Some? && v.rows == out.value.0 && v.published == v0.published + out.value.1
  }

  lemma HandledNext(v0: FfView, items: seq<BlockTxsEvents>, v: FfView, item: BlockTxsEvents, v': FfView)
    requires Handled(v0, items, v) && Iterated(v.rows, v.published, item, true, v'.rows, v'.published)
    ensures Handled(v0, items + [item], v')
  {
    hide Iterate;
    var all := items + [item];
    assert all[..|all| - 1] == items && all[|all| - 1] == item;
    assert HeadRun(v0.rows, all[..|all| - 1]) == HeadRun(v0.rows, items);
  }
}
