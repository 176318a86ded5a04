/** Two clients that leave one after the other (internal/handlers/ws/client.go:70-83), each with at most one
    registration per bucket: what the second delete does depends on who was behind whom. */
module DeletesInARow {
  import opened Wrappers
  import opened Seqs
  import opened Registry
  import opened RegistryRuns
  import opened RepeatedRegistrations

  ghost predicate Leaves(h: Hub, c: nat) {
    c in h.clients && h.clients[c].live && OnePerBucket(h.clients[c].pos)
  }

  /** Both are in the bucket, b behind a. */
  predicate Behind(h: Hub, a: nat, b: nat, t: string, f: Filter)
    requires a in h.clients && b in h.clients
  {
    var i, j := IndexIn(h.clients[a].pos, t, f), IndexIn(h.clients[b].pos, t, f);
    i.Some? && j.Some? && i.value < j.value
  }

  /** b is behind a and the newest. */
  predicate NewestBehind(h: Hub, a: nat, b: nat, t: string, f: Filter)
    requires a in h.clients && b in h.clients
  {
    Behind(h, a, b, t, f) && IndexIn(h.clients[b].pos, t, f).value + 1 == |At(h.reg, t, f)|
  }

  /** A slice that holds b at j, if anywhere, loses the index i of another client. */
  lemma CutAnother(bucket: seq<nat>, i: Option<nat>, j: Option<nat>, b: nat)
    requires (i.Some? ==> i.value < |bucket| && bucket[i.value] != b) && (j.Some? ==> j.value < |bucket|)
    requires forall p :: 0 <= p < |bucket| ==> (bucket[p] == b <==> j == Some(p))
    ensures
      var after, behind := Cut(bucket, i), i.Some? && j.Some? && i.value < j.value;
      && |after| == |bucket| - (if i.Some? then 1 else 0)
      && (behind ==> after[j.value..] == bucket[j.value + 1..])
      && forall p :: 0 <= p < |after| ==> (after[p] == b <==> j.Some? && p == if behind then j.value - 1 else j.value)
  {
    if i.Some? {
      WithoutAt(bucket, i.value);
      WithoutPlaces(bucket, i.value, j, b);
      hide Without;
    }
  }

  lemma WithoutPlaces(bucket: seq<nat>, i: nat, j: Option<nat>, b: nat)
    requires i < |bucket| && bucket[i] != b && (j.Some? ==> j.value < |bucket|)
    requires forall p :: 0 <= p < |bucket| ==> (bucket[p] == b <==> j == Some(p))
    ensures
      var after := Without(bucket, i);
      forall p :: 0 <= p < |after| ==>
        (after[p] == b <==> j.Some? && p == if i < j.value then j.value - 1 else j.value)
  {
    var after := Without(bucket, i);
    WithoutAt(bucket, i);
    hide Without;
    forall p | 0 <= p < |after|
      ensures after[p] == b <==> j.Some? && p == if i < j.value then j.value - 1 else j.value
    {
      assert after[p] == bucket[if p < i then p else p + 1];
    }
  }

  lemma WithoutAt(bucket: seq<nat>, i: nat)
    requires i < |bucket|
    ensures |Without(bucket, i)| == |bucket| - 1
    ensures forall p :: 0 <= p < |bucket| - 1 ==> Without(bucket, i)[p] == bucket[if p < i then p else p + 1]
    ensures forall p :: i < p < |bucket| ==> Without(bucket, i)[p - 1] == bucket[p]
    ensures forall j :: i < j < |bucket| ==> Without(bucket, i)[j..] == bucket[j + 1..]
  {
  }

  /** After a left, b is one before the index it recorded where it was behind a, and at it elsewhere; b's
      channel is at no other place of the bucket. */
  lemma AfterFirst(h: Hub, a: nat, b: nat, t: string, f: Filter)
    requires Healthy(h) && a != b && Leaves(h, a) && Leaves(h, b)
    ensures Deleted(h, a).Some?
    ensures
      var h1 := Deleted(h, a).value;
      var j, before, after := IndexIn(h.clients[b].pos, t, f), At(h.reg, t, f), At(h1.reg, t, f);
      && (j.Some? ==> j.value < |before|)
      && |after| == |before| - (if IndexIn(h.clients[a].pos, t, f).Some? then 1 else 0)
      && (Behind(h, a, b, t, f) ==> after[j.value..] == before[j.value + 1..])
      && forall p :: 0 <= p < |after| ==>
           (after[p] == b <==> j.Some? && p == if Behind(h, a, b, t, f) then j.value - 1 else j.value)
  {
    DeleteTakesOwnChannels(h, a, t, f);
    OwnIndex(h, b, t, f);
    hide Healthy, Deleted;
    CutAnother(At(h.reg, t, f), IndexIn(h.clients[a].pos, t, f), IndexIn(h.clients[b].pos, t, f), b);
  }

  /** The second delete panics if and only if in some bucket b was behind a and the newest. */
  lemma SecondPanicsIff(h: Hub, a: nat, b: nat)
    requires Healthy(h) && a != b && Leaves(h, a) && Leaves(h, b)
    ensures Deleted(h, a).Some?
    ensures Deleted(Deleted(h, a).value, b).None? <==> exists t, f :: NewestBehind(h, a, b, t, f)
  {
    AfterFirst(h, a, b, "", Filter("", ""));
    var h1 := Deleted(h, a).value;
    DeletePanicsIff(h1, b);
    if t, f, j :| Overruns(h1, b, t, f, j) { OverrunsAfterFirst(h, a, b, t, f); }
    if t, f :| NewestBehind(h, a, b, t, f) { OverrunsAfterFirst(h, a, b, t, f); }
  }

  lemma OneOverrunsIff(h: Hub, c: nat, t: string, f: Filter)
    requires c in h.clients && OnePerBucket(h.clients[c].pos)
    ensures
      var own := IndexIn(h.clients[c].pos, t, f);
      (exists j :: Overruns(h, c, t, f, j)) <==> own.Some? && own.value >= |At(h.reg, t, f)|
  {
    IndicesOfOne(h.clients[c].pos, t, f);
    hide IndicesIn, IndexIn;
    var own := IndexIn(h.clients[c].pos, t, f);
    if own.Some? && own.value >= |At(h.reg, t, f)| { assert Overruns(h, c, t, f, 0); }
  }

  lemma OverrunsAfterFirst(h: Hub, a: nat, b: nat, t: string, f: Filter)
    requires Healthy(h) && a != b && Leaves(h, a) && Leaves(h, b) && Deleted(h, a).Some?
    ensures (exists j :: Overruns(Deleted(h, a).value, b, t, f, j)) <==> NewestBehind(h, a, b, t, f)
  {
    AfterFirst(h, a, b, t, f);
    OwnIndex(h, a, t, f);
    OwnIndex(h, b, t, f);
    assert Deleted(h, a).value.clients[b] == h.clients[b];
    OneOverrunsIff(Deleted(h, a).value, b, t, f);
    hide Healthy, Deleted, IndexIn, Overruns, At;
  }

  /** It takes out exactly b's own channels if and only if b was behind a in no bucket. */
  lemma SecondIsExactIff(h: Hub, a: nat, b: nat)
    requires Healthy(h) && a != b && Leaves(h, a) && Leaves(h, b)
    ensures Deleted(h, a).Some?
    ensures TakesExactlyOwn(Deleted(h, a).value, b) <==> forall t, f :: !Behind(h, a, b, t, f)
  {
    AfterFirst(h, a, b, "", Filter("", ""));
    var h1 := Deleted(h, a).value;
    OneIsExactIff(h1, b);
    forall t, f ensures Placed(h1, b, t, f) <==> !Behind(h, a, b, t, f) {
      PlacedAfterFirst(h, a, b, t, f);
    }
  }

  lemma PlacedAfterFirst(h: Hub, a: nat, b: nat, t: string, f: Filter)
    requires Healthy(h) && a != b && Leaves(h, a) && Leaves(h, b) && Deleted(h, a).Some?
    ensures Placed(Deleted(h, a).value, b, t, f) <==> !Behind(h, a, b, t, f)
  {
    AfterFirst(h, a, b, t, f);
    OwnIndex(h, a, t, f);
    OwnIndex(h, b, t, f);
    var h1 := Deleted(h, a).value;
    assert h1.clients[b] == h.clients[b];
    hide Healthy, Deleted, IndexIn, At;
    var j, after := IndexIn(h.clients[b].pos, t, f), At(h1.reg, t, f);
    if Behind(h, a, b, t, f) {
      assert after[j.value - 1] == b;
    } else if j.Some? {
      assert j.value < |after|;
    }
  }

  /** Where b was behind a and not the newest, it takes out the channel of the client right behind it, and its own,
      by then closed, stays registered. */
  lemma SecondTakesNext(h: Hub, a: nat, b: nat, t: string, f: Filter)
    requires Healthy(h) && a != b && Leaves(h, a) && Leaves(h, b) && Behind(h, a, b, t, f)
    requires Deleted(h, a).Some? && Deleted(Deleted(h, a).value, b).Some?
    ensures
      var j, before := IndexIn(h.clients[b].pos, t, f).value, At(h.reg, t, f);
      var h1 := Deleted(h, a).value;
      var after := At(Deleted(h1, b).value.reg, t, f);
      && j + 1 < |before| && before[j + 1] != b
      && j < |At(h1.reg, t, f)| && At(h1.reg, t, f)[j] == before[j + 1]
      && after == Without(At(h1.reg, t, f), j) && b in after
  {
    var j, before := IndexIn(h.clients[b].pos, t, f).value, At(h.reg, t, f);
    var h1 := Deleted(h, a).value;
    AfterFirst(h, a, b, t, f);
    OwnIndex(h, a, t, f);
    OwnIndex(h, b, t, f);
    assert h1.clients[b] == h.clients[b];
    OneTakesOut(h1, b, t, f);
    assert At(h1.reg, t, f)[j..][0] == before[j + 1..][0];
    assert At(Deleted(h1, b).value.reg, t, f)[j - 1] == b;
  }
}
