/** Grouped joins and batch loaders (internal/core/services/query.go:72-128, 219-235,
    internal/handlers/graphql/graph/loaders.go:28-75). */
module Queries {
  import opened Wrappers
  import opened Tables
  import opened Seqs

  datatype QueryError = NotFound | InvalidOffset
  datatype Result<+T> = Ok(value: T) | Err(error: QueryError)

  /** The rows with one key, in row order: what a query for that key alone would keep. */
  function FilterBy<K(==), R>(rows: seq<R>, key: R -> K, k: K): seq<R> {
    if rows == [] then []
    else
      var last := rows[|rows| - 1];
      FilterBy(rows[..|rows| - 1], key, k) + if key(last) == k then [last] else []
  }

  /** The positions of the rows with one key, in increasing order. */
  ghost predicate Positions<K, R>(rows: seq<R>, key: R -> K, k: K, ps: seq<nat>) {
    && (forall i, j :: 0 <= i < j < |ps| ==> ps[i] < ps[j])
    && (forall p: nat :: p in ps <==> p < |rows| && key(rows[p]) == k)
  }

  /** The list holds the rows with that key, each once, in the order of the rows. */
  ghost predicate InRowOrder<K, R>(rows: seq<R>, key: R -> K, k: K, list: seq<R>) {
    exists ps: seq<nat> :: Positions(rows, key, k, ps) && IsAt(rows, ps, list)
  }

  ghost predicate IsAt<R>(rows: seq<R>, ps: seq<nat>, list: seq<R>) {
    |list| == |ps| && forall j :: 0 <= j < |ps| ==> ps[j] < |rows| && list[j] == rows[ps[j]]
  }

  lemma {:induction false} FilterPositions<K, R>(rows: seq<R>, key: R -> K, k: K) returns (ps: seq<nat>)
    ensures Positions(rows, key, k, ps) && IsAt(rows, ps, FilterBy(rows, key, k))
  {
    if rows == [] {
      ps := [];
    } else {
      var n := |rows| - 1;
      var front := FilterPositions(rows[..n], key, k);
      assert forall j :: 0 <= j < |front| ==> front[j] in front && front[j] < n;
      ps := front + if key(rows[n]) == k then [n] else [];
    }
  }

  lemma {:induction false} IncreasingOnce(a: seq<nat>, b: seq<nat>)
    requires (forall i, j :: 0 <= i < j < |a| ==> a[i] < a[j]) && (forall i, j :: 0 <= i < j < |b| ==> b[i] < b[j])
    requires forall p :: p in a <==> p in b
    ensures a == b
  {
    if a != [] { assert a[0] in a; }
    if b != [] { assert b[0] in b; }
    if a != [] {
      var x, y := a[|a| - 1], b[|b| - 1];
      assert x in a && x in b && y in a && y in b;
      assert x <= y by { var j :| 0 <= j < |b| && b[j] == x; }
      assert y <= x by { var i :| 0 <= i < |a| && a[i] == y; }
      var fa, fb := a[..|a| - 1], b[..|b| - 1];
      assert a == fa + [x] && b == fb + [y];
      assert x !in fa && x !in fb;
      forall p ensures p in fa <==> p in fb {
        assert p in a <==> p in fa || p == x;
        assert p in b <==> p in fb || p == y;
      }
      IncreasingOnce(fa, fb);
    }
  }

  /** That determines the list. */
  lemma InRowOrderIff<K, R>(rows: seq<R>, key: R -> K, k: K, list: seq<R>)
    ensures InRowOrder(rows, key, k, list) <==> list == FilterBy(rows, key, k)
  {
    var ps := FilterPositions(rows, key, k);
    if InRowOrder(rows, key, k, list) {
      var qs: seq<nat> :| Positions(rows, key, k, qs) && IsAt(rows, qs, list);
      IncreasingOnce(ps, qs);
    }
  }

  /** A map read: a missing entry is the nil slice. */
  function Get<K, R>(m: map<K, seq<R>>, k: K): seq<R> {
    if k in m then m[k] else []
  }

  /** The grouping loop: every key's list is the rows of that key, in row order. */
  method GroupRows<K(==), R>(rows: seq<R>, key: R -> K) returns (m: map<K, seq<R>>)
    ensures forall k :: Get(m, k) == FilterBy(rows, key, k)
    ensures forall k :: InRowOrder(rows, key, k, Get(m, k))
    ensures forall k :: k in m ==> m[k] != []
  {
    m := map[];
    for i := 0 to |rows|
      invariant forall k :: Get(m, k) == FilterBy(rows[..i], key, k)
      invariant forall k :: k in m ==> m[k] != []
    {
      var id := key(rows[i]);
      assert rows[..i + 1][..i] == rows[..i];
      m := m[id := Get(m, id) + [rows[i]]];
    }
    assert rows[..|rows|] == rows;
    forall k ensures InRowOrder(rows, key, k, Get(m, k)) { InRowOrderIff(rows, key, k, Get(m, k)); }
  }

  // ---------------------------------------------------------------- the batch loaders

  datatype Loaded<+D> = Data(items: seq<D>) | Failed(error: QueryError)

  function Map<R, D>(f: R -> D, s: seq<R>): seq<D> {
    seq(|s|, j requires 0 <= j < |s| => f(s[j]))
  }

  /** The same error for as many items as were requested. */
  method HandleError<D(0)>(itemsLength: nat, error: QueryError) returns (results: seq<Loaded<D>>)
    ensures |results| == itemsLength && forall i :: 0 <= i < itemsLength ==> results[i] == Failed(error)
  {
    var slots := new Loaded<D>[itemsLength](_ => Data([]));
    for i := 0 to itemsLength
      invariant forall j :: 0 <= j < i ==> slots[j] == Failed(error)
    {
      slots[i] := Failed(error);
    }
    results := slots[..];
  }

  /** The inner loop: one converted item per row. */
  method ConvertAll<R, D(0)>(rows: seq<R>, dto: R -> D) returns (items: seq<D>)
    ensures items == Map(dto, rows)
  {
    var slots := new D[|rows|];
    for j := 0 to |rows|
      invariant forall k :: 0 <= k < j ==> slots[k] == dto(rows[k])
    {
      slots[j] := dto(rows[j]);
    }
    items := slots[..];
  }

  /** What a load of one key alone would give, if the batch found anything. */
  function Single<K(==), R, D>(rows: seq<R>, key: R -> K, dto: R -> D, id: K): Loaded<D> {
    Data(Map(dto, FilterBy(rows, key, id)))
  }

  /** The items of a slot are the converted rows with its key, each once, in the order of the rows. */
  ghost predicate ConvertedInOrder<K, R, D>(rows: seq<R>, key: R -> K, dto: R -> D, id: K, items: seq<D>) {
    exists ps: seq<nat> :: Positions(rows, key, id, ps) && ConvertedAt(rows, dto, ps, items)
  }

  ghost predicate ConvertedAt<R, D>(rows: seq<R>, dto: R -> D, ps: seq<nat>, items: seq<D>) {
    |items| == |ps| && forall j :: 0 <= j < |ps| ==> ps[j] < |rows| && items[j] == dto(rows[ps[j]])
  }

  lemma SingleInOrder<K, R, D>(rows: seq<R>, key: R -> K, dto: R -> D, id: K)
    ensures ConvertedInOrder(rows, key, dto, id, Single(rows, key, dto, id).items)
  {
    var ps := FilterPositions(rows, key, id);
    assert ConvertedAt(rows, dto, ps, Single(rows, key, dto, id).items);
  }

  /** The outer loop: one slot per requested key. */
  method FillSlots<K(==), R, D(0)>(rows: seq<R>, key: R -> K, m: map<K, seq<R>>, ids: seq<K>, dto: R -> D)
    returns (results: seq<Loaded<D>>)
    requires forall k :: Get(m, k) == FilterBy(rows, key, k)
    ensures |results| == |ids| && forall i :: 0 <= i < |ids| ==> results[i] == Single(rows, key, dto, ids[i])
  {
    var slots := new Loaded<D>[|ids|](_ => Data([]));
    for i := 0 to |ids|
      invariant forall j :: 0 <= j < i ==> slots[j] == Single(rows, key, dto, ids[j])
    {
      var items := ConvertAll(Get(m, ids[i]), dto);
      assert Data(items) == Single(rows, key, dto, ids[i]);
      slots[i] := Data(items);
    }
    results := slots[..];
  }

  /** A batch load over the rows its query returned, an empty answer being ErrNotFound: one slot per requested
      key, duplicates included, each with exactly what a query for its key alone keeps; or one error for all. */
  method LoadBatch<K(==), R, D(0)>(rows: seq<R>, key: R -> K, ids: seq<K>, dto: R -> D)
    returns (results: seq<Loaded<D>>)
    ensures |results| == |ids|
    ensures forall i :: 0 <= i < |ids| ==>
      results[i] == if |rows| == 0 then Failed(NotFound) else Single(rows, key, dto, ids[i])
    ensures |rows| > 0 ==> forall i :: 0 <= i < |ids| ==>
      results[i].Data? && ConvertedInOrder(rows, key, dto, ids[i], results[i].items)
  {
    forall id { SingleInOrder(rows, key, dto, id); }
    if |rows| == 0 {
      results := HandleError(|ids|, NotFound);
    } else {
      var m := GroupRows(rows, key);
      results := FillSlots(rows, key, m, ids, dto);
    }
  }

  /** All the lists of a key list, one after another. */
  function Flatten<K(==), R>(rows: seq<R>, key: R -> K, ids: seq<K>): seq<R> {
    if ids == [] then [] else Flatten(rows, key, ids[..|ids| - 1]) + FilterBy(rows, key, ids[|ids| - 1])
  }

  lemma {:induction false} FilterCount<K, R>(rows: seq<R>, key: R -> K, k: K, x: R)
    ensures multiset(FilterBy(rows, key, k))[x] == if key(x) == k then multiset(rows)[x] else 0
  {
    if rows == [] {
    } else {
      FilterCount(rows[..|rows| - 1], key, k, x);
      assert rows == rows[..|rows| - 1] + [rows[|rows| - 1]];
    }
  }

  lemma {:induction false} FlattenCount<K, R>(rows: seq<R>, key: R -> K, ids: seq<K>, x: R)
    requires Distinct(ids)
    ensures multiset(Flatten(rows, key, ids))[x] == if key(x) in ids then multiset(rows)[x] else 0
  {
    if ids == [] {
    } else {
      var front, last := ids[..|ids| - 1], ids[|ids| - 1];
      FlattenCount(rows, key, front, x);
      FilterCount(rows, key, last, x);
      assert ids == front + [last] && last !in front;
    }
  }

  /** Over distinct keys the lists account for every returned row exactly once. */
  lemma EveryRowOnce<K, R>(rows: seq<R>, key: R -> K, ids: seq<K>)
    requires Distinct(ids) && forall x :: x in rows ==> key(x) in ids
    ensures multiset(Flatten(rows, key, ids)) == multiset(rows)
  {
    var flat, all := multiset(Flatten(rows, key, ids)), multiset(rows);
    forall x: R ensures flat[x] == all[x] {
      FlattenCount(rows, key, ids, x);
      assert x in all ==> x in rows;
    }
    SameCounts(flat, all);
  }

  // ---------------------------------------------------------------- blocks with their transactions

  datatype BlockTxs = BlockTxs(block: Block, txs: seq<Transaction>)

  const OFFSET_DEFAULT: nat := 1000

  function BlockIdOf(): Transaction -> nat {
    (t: Transaction) => t.blockId
  }

  /** The list holds the transactions of one block, each once, in the order of the query's rows. */
  ghost predicate TxsOfBlock(txs: seq<Transaction>, id: nat, list: seq<Transaction>) {
    exists ps: seq<nat> ::
      && (forall i, j :: 0 <= i < j < |ps| ==> ps[i] < ps[j])
      && (forall p: nat :: p in ps <==> p < |txs| && txs[p].blockId == id)
      && IsAt(txs, ps, list)
  }

  lemma FilteredByBlock(txs: seq<Transaction>, id: nat)
    ensures TxsOfBlock(txs, id, FilterBy(txs, BlockIdOf(), id))
  {
    var ps := FilterPositions(txs, BlockIdOf(), id);
    assert IsAt(txs, ps, FilterBy(txs, BlockIdOf(), id));
  }

  method AggregateBlocksId(blocks: seq<Block>) returns (ids: seq<nat>)
    ensures |ids| == |blocks| && forall i :: 0 <= i < |blocks| ==> ids[i] == blocks[i].id
  {
    var slots := new nat[|blocks|];
    for i := 0 to |blocks|
      invariant forall j :: 0 <= j < i ==> slots[j] == blocks[j].id
    {
      slots[i] := blocks[i].id;
    }
    ids := slots[..];
  }

  /** GetTransactionsByBatchBlocksId: `byBlocks` is the repository's query, whose empty answer is ErrNotFound. */
  method TransactionsByBlocks(byBlocks: seq<nat> -> seq<Transaction>, ids: seq<nat>, tx: bool)
    returns (r: Result<map<nat, seq<Transaction>>>)
    ensures r.Err? <==> tx && byBlocks(ids) == []
    ensures r.Err? ==> r.error == NotFound
    ensures r.Ok? ==> forall id :: Get(r.value, id) == if tx then FilterBy(byBlocks(ids), BlockIdOf(), id) else []
    ensures r.Ok? && tx ==> forall id :: TxsOfBlock(byBlocks(ids), id, Get(r.value, id))
  {
    forall id { FilteredByBlock(byBlocks(ids), id); }
    hide TxsOfBlock;
    var txs: seq<Transaction> := [];
    if tx {
      txs := byBlocks(ids);
      if txs == [] { return Err(NotFound); }
    }
    var m := GroupRows(txs, BlockIdOf());
    r := Ok(m);
  }

  /** GetBlocksWithOffset: the join of a range of blocks with the transactions of all of them fetched at once
      agrees with one query per block, in block order; it fails with ErrNotFound when the range has no block, or
      when transactions are asked for and the whole range has none. */
  method GetBlocksWithOffset(byRange: (nat, nat) -> seq<Block>, byBlocks: seq<nat> -> seq<Transaction>, offsetMax: nat,
                             from: nat, offset: nat, tx: bool)
    returns (r: Result<seq<BlockTxs>>, ghost ids: seq<nat>)
    ensures r == Err(InvalidOffset) <==> offset > offsetMax
    ensures offset <= offsetMax ==>
      var blocks := byRange(from, (from + if offset == 0 then OFFSET_DEFAULT else offset) % WORD);
      && |ids| == |blocks| && (forall i :: 0 <= i < |ids| ==> ids[i] == blocks[i].id)
      && (r == Err(NotFound) <==> blocks == [] || (tx && byBlocks(ids) == []))
      && (r.Ok? ==>
            && |r.value| == |blocks|
            && forall i :: 0 <= i < |blocks| ==>
                 r.value[i] == BlockTxs(blocks[i],
                   if tx then FilterBy(byBlocks(ids), BlockIdOf(), blocks[i].id) else []))
    ensures r.Ok? ==>
      var blocks := byRange(from, (from + if offset == 0 then 1000 else offset) % 0x1_0000_0000_0000_0000);
      && |r.value| == |blocks|
      && forall i :: 0 <= i < |blocks| ==>
           && r.value[i].block == blocks[i]
           && if tx then TxsOfBlock(byBlocks(ids), blocks[i].id, r.value[i].txs) else r.value[i].txs == []
  {
    hide TxsOfBlock;
    ids := [];
    if offset > offsetMax { return Err(InvalidOffset), ids; }
    var width := if offset == 0 then OFFSET_DEFAULT else offset;
    var blocksData := byRange(from, (from + width) % WORD);
    var blockIds := AggregateBlocksId(blocksData);
    ids := blockIds;
    if blocksData == [] { return Err(NotFound), ids; }
    var m := TransactionsByBlocks(byBlocks, blockIds, tx);
    if m.Err? { return Err(m.error), ids; }
    var slots := new BlockTxs[|blocksData|](i requires 0 <= i < |blocksData| => BlockTxs(blocksData[i], []));
    for i := 0 to |blocksData|
      invariant forall j :: 0 <= j < i ==> slots[j] == BlockTxs(blocksData[j], Get(m.value, blocksData[j].id))
    {
      slots[i] := BlockTxs(blocksData[i], Get(m.value, blocksData[i].id));
    }
    r := Ok(slots[..]);
  }
}
