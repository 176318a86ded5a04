/** What `delete` takes out of any hub, stale indices and several registrations in one bucket included
    (internal/handlers/ws/client.go:70-83). */
module StaleIndices {
  import opened Wrappers
  import opened Seqs
  import opened Registry
  import opened RegistryRuns
  import opened RepeatedRegistrations

  /** Removal number j finds the client's own channel at its index, after the removals before it. */
  predicate Meets(bucket: seq<nat>, indices: seq<nat>, c: nat, j: nat)
    requires j < |indices|
  {
    var mid := TakeOut(bucket, indices[..j]);
    mid.Some? && indices[j] < |mid.value| && mid.value[indices[j]] == c
  }

  /** How many removals do. */
  function Hits(bucket: seq<nat>, indices: seq<nat>, c: nat): nat {
    if indices == [] then 0
    else
      var n := |indices| - 1;
      Hits(bucket, indices[..n], c) + if Meets(bucket, indices, c, n) then 1 else 0
  }

  lemma {:induction false} AllHitIff(bucket: seq<nat>, indices: seq<nat>, c: nat)
    ensures Hits(bucket, indices, c) <= |indices|
    ensures Hits(bucket, indices, c) == |indices| <==>
            forall j :: 0 <= j < |indices| ==> Meets(bucket, indices, c, j)
  {
    if indices == [] {
    } else {
      var n := |indices| - 1;
      var front := indices[..n];
      AllHitIff(bucket, front, c);
      forall j | 0 <= j < n ensures Meets(bucket, front, c, j) <==> Meets(bucket, indices, c, j) {
        assert front[..j] == indices[..j];
      }
    }
  }

  /** Only those removals lower the number of the client's channels. */
  lemma {:induction false} HitsCount(bucket: seq<nat>, indices: seq<nat>, c: nat)
    requires TakeOut(bucket, indices).Some?
    ensures multiset(TakeOut(bucket, indices).value)[c] == multiset(bucket)[c] - Hits(bucket, indices, c)
  {
    if indices == [] {
    } else {
      var n := |indices| - 1;
      HitsCount(bucket, indices[..n], c);
      WithoutMultiset(TakeOut(bucket, indices[..n]).value, indices[n]);
    }
  }

  lemma {:induction false} OthersCount(bucket: seq<nat>, c: nat)
    ensures |Others(bucket, c)| == |bucket| - multiset(bucket)[c]
  {
    if bucket != [] {
      var n := |bucket| - 1;
      OthersCount(bucket[..n], c);
      assert bucket == bucket[..n] + [bucket[n]];
    }
  }

  /** Taking out one of the client's channels leaves the others as they are. */
  lemma {:induction false} OthersWithout(bucket: seq<nat>, i: nat)
    requires i < |bucket|
    ensures Others(Without(bucket, i), bucket[i]) == Others(bucket, bucket[i])
  {
    var n := |bucket| - 1;
    if i == n {
      assert Without(bucket, i) == bucket[..n];
    } else {
      OthersWithout(bucket[..n], i);
      var rest := Without(bucket, i);
      assert rest[..n - 1] == Without(bucket[..n], i) && rest[n - 1] == bucket[n];
    }
  }

  lemma {:induction false} HitsKeepOthers(bucket: seq<nat>, indices: seq<nat>, c: nat)
    requires Hits(bucket, indices, c) == |indices|
    ensures TakeOut(bucket, indices).Some? && Others(TakeOut(bucket, indices).value, c) == Others(bucket, c)
  {
    if indices == [] {
    } else {
      var n := |indices| - 1;
      AllHitIff(bucket, indices[..n], c);
      HitsKeepOthers(bucket, indices[..n], c);
      OthersWithout(TakeOut(bucket, indices[..n]).value, indices[n]);
    }
  }

  /** The removals take out a client's channels and nothing else if and only if each finds one, and there are as
      many removals as channels. */
  lemma TakeOutIsOthersIff(bucket: seq<nat>, indices: seq<nat>, c: nat)
    ensures TakeOut(bucket, indices) == Some(Others(bucket, c)) <==>
            (forall j :: 0 <= j < |indices| ==> Meets(bucket, indices, c, j)) && |indices| == multiset(bucket)[c]
  {
    AllHitIff(bucket, indices, c);
    OthersCount(bucket, c);
    TakeOutIff(bucket, indices);
    if TakeOut(bucket, indices).Some? {
      HitsCount(bucket, indices, c);
      OthersLose(bucket, c);
    }
    if Hits(bucket, indices, c) == |indices| == multiset(bucket)[c] {
      HitsKeepOthers(bucket, indices, c);
      OthersOfNone(TakeOut(bucket, indices).value, c);
    }
  }

  /** In the bucket each removal of the client finds one of its channels, and none is left. */
  ghost predicate MeetsOwn(h: Hub, c: nat, t: string, f: Filter)
    requires c in h.clients
  {
    var own, bucket := IndicesIn(h.clients[c].pos, t, f), At(h.reg, t, f);
    (forall j :: 0 <= j < |own| ==> Meets(bucket, own, c, j)) && |own| == multiset(bucket)[c]
  }

  /** Whatever the hub, delete takes out exactly the client's own channels if and only if in every bucket each of its
      removals finds one of them, and none is left. */
  lemma DeleteTakesOwnIff(h: Hub, c: nat)
    requires c in h.clients && h.clients[c].live
    ensures TakesExactlyOwn(h, c) <==> forall t, f :: MeetsOwn(h, c, t, f)
  {
    var pos := h.clients[c].pos;
    forall t, f ensures TakeOut(At(h.reg, t, f), IndicesIn(pos, t, f)) == Some(Others(At(h.reg, t, f), c)) <==>
                        MeetsOwn(h, c, t, f)
    {
      TakeOutIsOthersIff(At(h.reg, t, f), IndicesIn(pos, t, f), c);
    }
    hide MeetsOwn;
    if RemoveAll(h.reg, pos).None? {
      var t, f := RemoveAllPanics(h.reg, pos);
      assert !MeetsOwn(h, c, t, f);
    } else {
      forall t, f ensures TakeOut(At(h.reg, t, f), IndicesIn(pos, t, f)) == Some(At(Deleted(h, c).value.reg, t, f)) {
        RemoveAllTakesOut(h.reg, pos, t, f);
      }
    }
  }

  // ---------------------------------------------------------------- indices in order

  predicate InOrder(indices: seq<nat>) {
    forall i, j :: 0 <= i < j < |indices| ==> indices[i] <= indices[j]
  }

  /** Behind the removals a slice has moved by their number. */
  lemma {:induction false} TakeOutShifts(bucket: seq<nat>, indices: seq<nat>, p: nat)
    requires InOrder(indices) && TakeOut(bucket, indices).Some?
    requires indices == [] || indices[|indices| - 1] <= p
    ensures
      var mid := TakeOut(bucket, indices).value;
      |mid| == |bucket| - |indices| && (p < |mid| ==> mid[p] == bucket[p + |indices|])
  {
    if indices == [] {
    } else {
      var n := |indices| - 1;
      TakeOutShifts(bucket, indices[..n], p + 1);
      assert forall i :: 0 <= i < n ==> indices[i] <= indices[n];
    }
  }

  /** The client's channel is at the index it recorded j-th, counted from 0, plus j. */
  ghost predicate Shifted(h: Hub, c: nat, t: string, f: Filter, j: nat)
    requires c in h.clients
  {
    var own, bucket := IndicesIn(h.clients[c].pos, t, f), At(h.reg, t, f);
    j < |own| ==> own[j] + j < |bucket| && bucket[own[j] + j] == c
  }

  lemma MeetsAtShift(bucket: seq<nat>, indices: seq<nat>, c: nat, j: nat)
    requires InOrder(indices) && j < |indices| && TakeOut(bucket, indices[..j]).Some?
    ensures Meets(bucket, indices, c, j) <==> indices[j] + j < |bucket| && bucket[indices[j] + j] == c
  {
    TakeOutShifts(bucket, indices[..j], indices[j]);
    hide TakeOut, InOrder;
  }

  lemma {:induction false} MeetsAllIff(bucket: seq<nat>, indices: seq<nat>, c: nat)
    requires InOrder(indices)
    ensures (forall j :: 0 <= j < |indices| ==> Meets(bucket, indices, c, j)) <==>
            (forall j :: 0 <= j < |indices| ==> indices[j] + j < |bucket| && bucket[indices[j] + j] == c)
  {
    forall j | 0 <= j < |indices| && (forall i :: 0 <= i < j ==> indices[i] + i < |bucket|)
      ensures Meets(bucket, indices, c, j) <==> indices[j] + j < |bucket| && bucket[indices[j] + j] == c
    {
      TakeOutIff(bucket, indices[..j]);
      MeetsAtShift(bucket, indices, c, j);
    }
    if forall j :: 0 <= j < |indices| ==> Meets(bucket, indices, c, j) {
      AllMeetInRange(bucket, indices, c, |indices|);
    }
  }

  lemma {:induction false} AllMeetInRange(bucket: seq<nat>, indices: seq<nat>, c: nat, n: nat)
    requires InOrder(indices) && n <= |indices| && forall j :: 0 <= j < n ==> Meets(bucket, indices, c, j)
    ensures forall j :: 0 <= j < n ==> indices[j] + j < |bucket|
  {
    forall j | 0 <= j < n ensures indices[j] + j < |bucket| {
      assert Meets(bucket, indices, c, j);
      MeetsAtShift(bucket, indices, c, j);
    }
  }

  /** With indices recorded in order, delete takes out exactly the client's own channels if and
      only if its channels are where the j-th recorded index plus j says, and nowhere else. */
  lemma OrderedTakesOwnIff(h: Hub, c: nat)
    requires c in h.clients && h.clients[c].live && forall t, f :: InOrder(IndicesIn(h.clients[c].pos, t, f))
    ensures TakesExactlyOwn(h, c) <==>
            forall t, f :: |IndicesIn(h.clients[c].pos, t, f)| == multiset(At(h.reg, t, f))[c] &&
                           forall j :: Shifted(h, c, t, f, j)
  {
    DeleteTakesOwnIff(h, c);
    forall t, f ensures MeetsOwn(h, c, t, f) <==>
      |IndicesIn(h.clients[c].pos, t, f)| == multiset(At(h.reg, t, f))[c] && forall j :: Shifted(h, c, t, f, j)
    {
      var own, bucket := IndicesIn(h.clients[c].pos, t, f), At(h.reg, t, f);
      MeetsAllIff(bucket, own, c);
      if forall j :: Shifted(h, c, t, f, j) {
        forall j | 0 <= j < |own| ensures own[j] + j < |bucket| && bucket[own[j] + j] == c {
          assert Shifted(h, c, t, f, j);
        }
      }
    }
  }
}
