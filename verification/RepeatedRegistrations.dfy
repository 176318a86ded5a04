/** Clients with several registrations in one bucket (internal/handlers/ws/client.go:53-79): `delete` walks the
    recorded indices over a slice that shrinks under them, so after the first removal each later one is off by the
    number of removals before it. */
module RepeatedRegistrations {
  import opened Wrappers
  import opened Seqs
  import opened Registry
  import opened RegistryRuns

  /** The indices a client recorded in one bucket, in the order it recorded them. */
  function IndicesIn(pos: seq<Position>, topic: string, filter: Filter): seq<nat> {
    if pos == [] then []
    else
      var last := pos[|pos| - 1];
      IndicesIn(pos[..|pos| - 1], topic, filter) +
      if last.topic == topic && last.filter == filter then [last.index] else []
  }

  /** The removals of one bucket; None is the slice bounds panic. */
  function TakeOut(c: seq<nat>, indices: seq<nat>): Option<seq<nat>> {
    if indices == [] then Some(c)
    else
      match TakeOut(c, indices[..|indices| - 1])
      case None => None
      case Some(mid) =>
        var i := indices[|indices| - 1];
        if i >= |mid| then None else Some(Without(mid, i))
  }

  lemma TakeOutPush(c: seq<nat>, before: seq<nat>, i: nat)
    ensures TakeOut(c, before).None? ==> TakeOut(c, before + [i]).None?
    ensures TakeOut(c, before).Some? ==>
      var mid := TakeOut(c, before).value;
      TakeOut(c, before + [i]) == if i >= |mid| then None else Some(Without(mid, i))
  {
    assert (before + [i])[..|before|] == before;
  }

  lemma RemoveOneAt(reg: Channels, p: Position, t: string, f: Filter)
    requires RemoveOne(reg, p).Some?
    ensures p.index < |At(reg, p.topic, p.filter)|
    ensures At(RemoveOne(reg, p).value, t, f) ==
            if p.topic == t && p.filter == f then Without(At(reg, t, f), p.index) else At(reg, t, f)
  {
  }

  /** Delete is the removals of each bucket on its own ... */
  lemma {:induction false} RemoveAllTakesOut(reg: Channels, pos: seq<Position>, t: string, f: Filter)
    requires RemoveAll(reg, pos).Some?
    ensures TakeOut(At(reg, t, f), IndicesIn(pos, t, f)) == Some(At(RemoveAll(reg, pos).value, t, f))
  {
    if pos == [] {
    } else {
      var front, last := pos[..|pos| - 1], pos[|pos| - 1];
      RemoveAllTakesOut(reg, front, t, f);
      var before := IndicesIn(front, t, f);
      RemoveOneAt(RemoveAll(reg, front).value, last, t, f);
      if last.topic == t && last.filter == f {
        TakeOutPush(At(reg, t, f), before, last.index);
      } else {
        assert before + [] == before;
      }
    }
  }

  /** ... and panics only if one of them does. */
  lemma {:induction false} RemoveAllPanics(reg: Channels, pos: seq<Position>) returns (t: string, f: Filter)
    requires RemoveAll(reg, pos).None?
    ensures TakeOut(At(reg, t, f), IndicesIn(pos, t, f)).None?
  {
    var front, last := pos[..|pos| - 1], pos[|pos| - 1];
    if RemoveAll(reg, front).None? {
      t, f := RemoveAllPanics(reg, front);
    } else {
      t, f := last.topic, last.filter;
      RemoveAllTakesOut(reg, front, t, f);
    }
    var before := IndicesIn(front, t, f);
    TakeOutPush(At(reg, t, f), before, last.index);
    assert IndicesIn(pos, t, f) == before || IndicesIn(pos, t, f) == before + [last.index];
  }

  predicate Increasing(indices: seq<nat>) {
    forall i, j :: 0 <= i < j < |indices| ==> indices[i] < indices[j]
  }

  predicate Below(indices: seq<nat>, n: nat) {
    forall i :: 0 <= i < |indices| ==> indices[i] < n
  }

  /** Removal number j meets a slice that lost j channels before. */
  lemma {:induction false} TakeOutIff(c: seq<nat>, indices: seq<nat>)
    ensures TakeOut(c, indices).None? <==> exists j :: 0 <= j < |indices| && indices[j] + j >= |c|
    ensures TakeOut(c, indices).Some? ==> |TakeOut(c, indices).value| == |c| - |indices|
  {
    if indices == [] {
    } else {
      var n := |indices| - 1;
      var front := indices[..n];
      TakeOutIff(c, front);
      assert forall j :: 0 <= j < n ==> front[j] == indices[j];
      if TakeOut(c, front).None? {
        var j :| 0 <= j < n && front[j] + j >= |c|;
        assert indices[j] + j >= |c|;
      }
    }
  }

  /** Of increasing indices the last is the first to run past the end. */
  lemma LastOverruns(indices: seq<nat>, n: nat)
    requires Increasing(indices)
    ensures (exists j :: 0 <= j < |indices| && indices[j] + j >= n) <==>
            indices != [] && indices[|indices| - 1] + |indices| > n
  {
    var k := |indices|;
    if k > 0 { assert indices[k - 1] + (k - 1) >= n <==> indices[k - 1] + k > n; }
  }

  /** The second recorded channel is never taken out: the first removal is before it, all others behind it. */
  lemma {:induction false} SecondStays(c: seq<nat>, indices: seq<nat>)
    requires Increasing(indices) && Below(indices, |c|) && |indices| >= 2 && TakeOut(c, indices).Some?
    ensures 0 < indices[1] <= |TakeOut(c, indices).value|
    ensures TakeOut(c, indices).value[indices[1] - 1] == c[indices[1]]
  {
    var n := |indices| - 1;
    var front := indices[..n];
    if n == 1 {
      assert front[..0] == [] && front == [indices[0]];
      assert TakeOut(c, front[..0]) == Some(c);
      assert TakeOut(c, front) == Some(Without(c, indices[0]));
    } else {
      SecondStays(c, front);
    }
  }

  // ---------------------------------------------------------------- hubs

  /** In each bucket a client recorded its indices in increasing order. */
  predicate IncreasingIn(pos: seq<Position>) {
    forall i, j :: 0 <= i < j < |pos| && SameBucket(pos[i], pos[j]) ==> pos[i].index < pos[j].index
  }

  lemma {:induction false} IndicesInMean(pos: seq<Position>, t: string, f: Filter)
    ensures forall i :: i in IndicesIn(pos, t, f) <==> Position(t, f, i) in pos
  {
    if pos == [] {
    } else {
      var front, last := pos[..|pos| - 1], pos[|pos| - 1];
      IndicesInMean(front, t, f);
      assert pos == front + [last];
    }
  }

  lemma {:induction false} IndicesInIncrease(pos: seq<Position>, t: string, f: Filter)
    requires IncreasingIn(pos)
    ensures Increasing(IndicesIn(pos, t, f))
  {
    if pos == [] {
    } else {
      var front, last := pos[..|pos| - 1], pos[|pos| - 1];
      IndicesInIncrease(front, t, f);
      IndicesInMean(front, t, f);
      var before := IndicesIn(front, t, f);
      if last.topic == t && last.filter == f {
        forall k | 0 <= k < |before| ensures before[k] < last.index {
          assert before[k] in before;
          var j :| 0 <= j < |front| && front[j] == Position(t, f, before[k]);
          assert SameBucket(pos[j], last);
        }
      }
    }
  }

  /** From exact positions a new index is larger than those the client has in the bucket. */
  lemma SubscribeKeepsIncreasing(h: Hub, c: nat, sub: SubscribeMessage)
    requires Exact(h) && c in h.clients && h.clients[c].live && sub.topic in h.reg && IncreasingIn(h.clients[c].pos)
    ensures IncreasingIn(Subscribed(h, c, sub).clients[c].pos)
  {
    var pos := h.clients[c].pos;
    assert forall j :: 0 <= j < |pos| ==> Recorded(h.reg, pos[j], c);
  }

  /** In a healthy hub a bucket holds a channel exactly where its client recorded it. */
  lemma OwnIndices(h: Hub, c: nat, t: string, f: Filter)
    requires Healthy(h) && c in h.clients && h.clients[c].live && IncreasingIn(h.clients[c].pos)
    ensures
      var own, bucket := IndicesIn(h.clients[c].pos, t, f), At(h.reg, t, f);
      && Increasing(own) && Below(own, |bucket|)
      && forall i :: 0 <= i < |bucket| ==> (bucket[i] == c <==> i in own)
  {
    var pos := h.clients[c].pos;
    IndicesInMean(pos, t, f);
    IndicesInIncrease(pos, t, f);
    forall i | i in IndicesIn(pos, t, f) ensures i < |At(h.reg, t, f)| && At(h.reg, t, f)[i] == c {
      var j :| 0 <= j < |pos| && pos[j] == Position(t, f, i);
      assert Recorded(h.reg, pos[j], c);
    }
    assert forall i :: 0 <= i < |IndicesIn(pos, t, f)| ==> IndicesIn(pos, t, f)[i] in IndicesIn(pos, t, f);
  }

  /** The client's removal number j in the bucket runs past the end of its n channels. */
  ghost predicate Overruns(h: Hub, c: nat, t: string, f: Filter, j: nat)
    requires c in h.clients
  {
    var own := IndicesIn(h.clients[c].pos, t, f);
    j < |own| && own[j] + j >= |At(h.reg, t, f)|
  }

  /** Whatever the hub, stale indices included, delete panics if and only if in some bucket the index the client
      recorded j-th, counting from 0, is at least n - j. */
  lemma DeletePanicsIff(h: Hub, c: nat)
    requires c in h.clients && h.clients[c].live
    ensures Deleted(h, c).None? <==> exists t, f, j :: Overruns(h, c, t, f, j)
  {
    var pos := h.clients[c].pos;
    if RemoveAll(h.reg, pos).None? {
      var t, f := RemoveAllPanics(h.reg, pos);
      TakeOutIff(At(h.reg, t, f), IndicesIn(pos, t, f));
      var j :| 0 <= j < |IndicesIn(pos, t, f)| && IndicesIn(pos, t, f)[j] + j >= |At(h.reg, t, f)|;
      assert Overruns(h, c, t, f, j);
    } else {
      forall t, f, j ensures !Overruns(h, c, t, f, j) {
        RemoveAllTakesOut(h.reg, pos, t, f);
        TakeOutIff(At(h.reg, t, f), IndicesIn(pos, t, f));
      }
    }
  }

  /** With k registrations in a bucket of n channels, recorded in increasing order, the last at index i: it panics
      if and only if i + k > n in some bucket. */
  lemma IncreasingPanicsIff(h: Hub, c: nat)
    requires c in h.clients && h.clients[c].live && IncreasingIn(h.clients[c].pos)
    ensures Deleted(h, c).None? <==>
      exists t, f :: var own := IndicesIn(h.clients[c].pos, t, f);
        own != [] && own[|own| - 1] + |own| > |At(h.reg, t, f)|
  {
    var pos := h.clients[c].pos;
    DeletePanicsIff(h, c);
    forall t, f ensures (exists j :: Overruns(h, c, t, f, j)) <==>
      var own := IndicesIn(pos, t, f);
      own != [] && own[|own| - 1] + |own| > |At(h.reg, t, f)|
    {
      IndicesInIncrease(pos, t, f);
      LastOverruns(IndicesIn(pos, t, f), |At(h.reg, t, f)|);
      var own, n := IndicesIn(pos, t, f), |At(h.reg, t, f)|;
      if j :| 0 <= j < |own| && own[j] + j >= n { assert Overruns(h, c, t, f, j); }
    }
  }

  /** A slice without a channel, the others in order. */
  function Others(bucket: seq<nat>, c: nat): seq<nat> {
    if bucket == [] then []
    else
      var last := bucket[|bucket| - 1];
      Others(bucket[..|bucket| - 1], c) + if last == c then [] else [last]
  }

  lemma {:induction false} OthersLose(bucket: seq<nat>, c: nat)
    ensures c !in Others(bucket, c)
  {
    if bucket != [] { OthersLose(bucket[..|bucket| - 1], c); }
  }

  lemma {:induction false} OthersOfNone(bucket: seq<nat>, c: nat)
    requires c !in bucket
    ensures Others(bucket, c) == bucket
  {
    if bucket != [] { OthersOfNone(bucket[..|bucket| - 1], c); }
  }

  lemma {:induction false} OthersOfOne(bucket: seq<nat>, i: nat)
    requires i < |bucket| && forall j :: 0 <= j < |bucket| && j != i ==> bucket[j] != bucket[i]
    ensures Others(bucket, bucket[i]) == Without(bucket, i)
  {
    var n := |bucket| - 1;
    if i == n {
      OthersOfNone(bucket[..n], bucket[i]);
      assert Without(bucket, i) == bucket[..n];
    } else {
      OthersOfOne(bucket[..n], i);
      assert bucket == bucket[..n] + [bucket[n]];
      assert bucket[i + 1..] == bucket[..n][i + 1..] + [bucket[n]];
    }
  }

  /** Delete does what it is for: it does not panic, and every bucket loses the client's channels and nothing else. */
  ghost predicate TakesExactlyOwn(h: Hub, c: nat)
    requires c in h.clients
  {
    && Deleted(h, c).Some?
    && forall t, f :: At(Deleted(h, c).value.reg, t, f) == Others(At(h.reg, t, f), c)
  }

  /** In the bucket the client's channel is where it recorded it, and nowhere else. */
  ghost predicate Placed(h: Hub, c: nat, t: string, f: Filter)
    requires c in h.clients
  {
    var own, bucket := IndexIn(h.clients[c].pos, t, f), At(h.reg, t, f);
    && (own.Some? ==> own.value < |bucket|)
    && forall i :: 0 <= i < |bucket| ==> (bucket[i] == c <==> own == Some(i))
  }

  lemma {:induction false} IndicesOfOne(pos: seq<Position>, t: string, f: Filter)
    requires OnePerBucket(pos)
    ensures IndicesIn(pos, t, f) == match IndexIn(pos, t, f) case None => [] case Some(i) => [i]
  {
    if pos == [] {
    } else {
      var front, last := pos[..|pos| - 1], pos[|pos| - 1];
      IndicesOfOne(front, t, f);
      if last.topic == t && last.filter == f {
        IndexInMeans(front, t, f);
        assert forall j :: 0 <= j < |front| ==> front[j] == pos[j] && !SameBucket(pos[j], last);
      }
    }
  }

  /** The one removal of a bucket is right exactly when the channel is there, once. */
  lemma WithoutIsOthersIff(bucket: seq<nat>, i: nat, c: nat)
    requires i < |bucket|
    ensures Without(bucket, i) == Others(bucket, c) <==> forall j :: 0 <= j < |bucket| ==> (bucket[j] == c <==> j == i)
  {
    if Without(bucket, i) == Others(bucket, c) {
      OthersLose(bucket, c);
      forall j | 0 <= j < |bucket| && j != i ensures bucket[j] != c {
        assert Without(bucket, i)[if j < i then j else j - 1] == bucket[j];
      }
      if bucket[i] != c { OthersOfNone(bucket, c); }
    } else if forall j :: 0 <= j < |bucket| ==> (bucket[j] == c <==> j == i) {
      OthersOfOne(bucket, i);
    }
  }

  lemma OneTakesOut(h: Hub, c: nat, t: string, f: Filter)
    requires c in h.clients && h.clients[c].live && OnePerBucket(h.clients[c].pos) && Deleted(h, c).Some?
    ensures
      var own, bucket := IndexIn(h.clients[c].pos, t, f), At(h.reg, t, f);
      (own.Some? ==> own.value < |bucket|) && At(Deleted(h, c).value.reg, t, f) == Cut(bucket, own)
  {
    var pos := h.clients[c].pos;
    var bucket, indices := At(h.reg, t, f), IndicesIn(pos, t, f);
    RemoveAllTakesOut(h.reg, pos, t, f);
    IndicesOfOne(pos, t, f);
    if indices != [] {
      assert indices[..0] == [];
      assert TakeOut(bucket, indices[..0]) == Some(bucket);
    }
  }

  /** One registration per bucket, whatever the hub: delete takes out exactly the client's own channels if and only
      if in every bucket its channel is where it recorded it, and nowhere else. */
  lemma OneIsExactIff(h: Hub, c: nat)
    requires c in h.clients && h.clients[c].live && OnePerBucket(h.clients[c].pos)
    ensures TakesExactlyOwn(h, c) <==> forall t, f :: Placed(h, c, t, f)
  {
    if Deleted(h, c).Some? {
      forall t, f ensures At(Deleted(h, c).value.reg, t, f) == Others(At(h.reg, t, f), c) <==> Placed(h, c, t, f) {
        OneTakesOut(h, c, t, f);
        var own, bucket := IndexIn(h.clients[c].pos, t, f), At(h.reg, t, f);
        if own.Some? { WithoutIsOthersIff(bucket, own.value, c); } else { NothingOut(bucket, c); }
      }
    } else {
      DeletePanicsIff(h, c);
      var t, f, j :| Overruns(h, c, t, f, j);
      IndicesOfOne(h.clients[c].pos, t, f);
      assert !Placed(h, c, t, f);
    }
  }

  lemma NothingOut(bucket: seq<nat>, c: nat)
    ensures bucket == Others(bucket, c) <==> c !in bucket
  {
    OthersLose(bucket, c);
    if c !in bucket { OthersOfNone(bucket, c); }
  }

  /** Two registrations in a bucket: if delete gets through, it leaves the client's second channel registered. */
  lemma TwoLeaveOne(h: Hub, c: nat, i: nat, j: nat)
    requires Healthy(h) && c in h.clients && h.clients[c].live && IncreasingIn(h.clients[c].pos)
    requires i < j < |h.clients[c].pos| && SameBucket(h.clients[c].pos[i], h.clients[c].pos[j])
    requires Deleted(h, c).Some?
    ensures c in At(Deleted(h, c).value.reg, h.clients[c].pos[i].topic, h.clients[c].pos[i].filter)
  {
    var pos := h.clients[c].pos;
    var t, f := pos[i].topic, pos[i].filter;
    var own, bucket := IndicesIn(pos, t, f), At(h.reg, t, f);
    TwoIndices(pos, t, f, i, j);
    OwnIndices(h, c, t, f);
    RemoveAllTakesOut(h.reg, pos, t, f);
    SecondStays(bucket, own);
    assert own[1] in own && bucket[own[1]] == c;
  }

  lemma TwoIndices(pos: seq<Position>, t: string, f: Filter, i: nat, j: nat)
    requires i < j < |pos| && IncreasingIn(pos) && SameBucket(pos[i], pos[j]) && pos[i].topic == t && pos[i].filter == f
    ensures |IndicesIn(pos, t, f)| >= 2
  {
    var own := IndicesIn(pos, t, f);
    IndicesInMean(pos, t, f);
    assert pos[i] == Position(t, f, pos[i].index) && pos[j] == Position(t, f, pos[j].index);
    var a :| 0 <= a < |own| && own[a] == pos[i].index;
    var b :| 0 <= b < |own| && own[b] == pos[j].index;
    assert a != b;
  }

  /** Delete takes out exactly the client's own channels if and only if it has at most one registration per bucket. */
  lemma DeleteIsExactIff(h: Hub, c: nat)
    requires Healthy(h) && c in h.clients && h.clients[c].live && IncreasingIn(h.clients[c].pos)
    ensures TakesExactlyOwn(h, c) <==> OnePerBucket(h.clients[c].pos)
  {
    var pos := h.clients[c].pos;
    if OnePerBucket(pos) {
      forall t, f ensures Placed(h, c, t, f) { OwnIndex(h, c, t, f); }
      OneIsExactIff(h, c);
    } else if Deleted(h, c).Some? {
      var i, j :| 0 <= i < j < |pos| && SameBucket(pos[i], pos[j]);
      TwoLeaveOne(h, c, i, j);
      OthersLose(At(h.reg, pos[i].topic, pos[i].filter), c);
    }
  }

  /** A client that subscribes again to a bucket it is in, and then leaves before anyone joins that bucket, panics. */
  lemma DoubleRegistrationPanics(h: Hub, c: nat, sub: SubscribeMessage)
    requires sub.topic in h.reg && c in h.clients && h.clients[c].live
    requires IndicesIn(h.clients[c].pos, sub.topic, ExtractFilter(sub)) != []
    ensures Deleted(Subscribed(h, c, sub), c).None?
  {
    var f, pos, h' := ExtractFilter(sub), h.clients[c].pos, Subscribed(h, c, sub);
    var own, n := IndicesIn(pos, sub.topic, f), |At(h.reg, sub.topic, f)|;
    assert IndicesIn(h'.clients[c].pos, sub.topic, f) == own + [n] by { assert h'.clients[c].pos[..|pos|] == pos; }
    assert |At(h'.reg, sub.topic, f)| == n + 1;
    DeletePanicsIff(h', c);
    assert Overruns(h', c, sub.topic, f, |own|);
  }

  lemma RemoveTwo(reg: Channels, p: Position, q: Position, mid: Channels)
    requires RemoveOne(reg, p) == Some(mid)
    ensures RemoveAll(reg, [p, q]) == RemoveOne(mid, q)
  {
    assert [p, q][..0] == [] && [p, q][..2] == [p, q];
    assert RemoveAll(reg, [p, q][..0]) == Some(reg);
    RemoveAllNext(reg, [p, q], 0);
    RemoveAllNext(reg, [p, q], 1);
  }

  /** With someone behind it, it takes that client's open channel instead of its own second one, which stays
      registered although it is closed: the bucket [c, c, d] becomes [c]. */
  lemma DoubleRegistrationTakesAnother(h: Hub, c: nat, d: nat, sub: SubscribeMessage)
    requires sub.topic in h.reg && At(h.reg, sub.topic, ExtractFilter(sub)) == [] && c != d
    requires c in h.clients && h.clients[c] == ClientState([], true)
    requires d in h.clients && h.clients[d] == ClientState([], true)
    ensures
      var out := Deleted(Subscribed(Subscribed(Subscribed(h, c, sub), c, sub), d, sub), c);
      && out.Some? && At(out.value.reg, sub.topic, ExtractFilter(sub)) == [c]
      && !out.value.clients[c].live && out.value.clients[d].live && !AllOpen(out.value)
  {
    var f := ExtractFilter(sub);
    var p, q := Position(sub.topic, f, 0), Position(sub.topic, f, 1);
    var h' := Subscribed(Subscribed(Subscribed(h, c, sub), c, sub), d, sub);
    assert h'.clients[c].pos == [p, q];
    assert At(h'.reg, sub.topic, f) == [c, c, d];
    assert Without([c, c, d], 0) == [c, d] && Without([c, d], 1) == [c];
    RemoveTwo(h'.reg, p, q, Put(h'.reg, sub.topic, f, [c, d]));
    var out := Deleted(h', c).value;
    assert At(out.reg, sub.topic, f)[0] == c;
  }
}
