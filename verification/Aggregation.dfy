/** The mutable side of the ledger derivation (internal/core/services/balancefill.go:35-134): amounts are
    big integers on the heap, and aggregation adds into the ones its map holds. */
module Aggregation {
  import opened Wrappers
  import opened Balances
  import opened Words
  import opened Seqs

  class BigInt {
    var value: int

    constructor (value: int)
      ensures this.value == value
    {
      this.value := value;
    }

    /** b.Add(b, x) */
    method Add(x: BigInt)
      modifies this
      ensures value == old(value) + old(x.value)
    {
      value := value + x.value;
    }
  }

  /** A BalanceEntry: its amount is a pointer, null in a slot of a fresh slice. */
  datatype Slot = Slot(key: Key, amount: BigInt?)

  predicate NoNull(es: seq<Slot>) {
    forall i :: 0 <= i < |es| ==> es[i].amount != null
  }

  /** The entries a list of slots stands for. */
  function ValueOf(es: seq<Slot>): seq<Entry>
    requires NoNull(es)
    reads set i | 0 <= i < |es| :: es[i].amount
  {
    seq(|es|, i requires 0 <= i < |es| && es[i].amount != null reads set j | 0 <= j < |es| :: es[j].amount =>
      Entry(es[i].key, es[i].amount.value))
  }

  /** Every key of the map has its own big integer. */
  ghost predicate Unshared(m: map<Key, BigInt>) {
    forall k, k' :: k in m && k' in m && k != k' ==> m[k] != m[k']
  }

  lemma SumForPush(es: seq<Entry>, i: nat, k: Key)
    requires i < |es|
    ensures SumFor(es[..i + 1], k) == SumFor(es[..i], k) + if es[i].key == k then es[i].amount else 0
    ensures HasKey(es[..i + 1], k) <==> HasKey(es[..i], k) || es[i].key == k
  {
    assert es[..i + 1][..i] == es[..i];
    if HasKey(es[..i], k) {
      var j :| 0 <= j < i && es[..i][j].key == k;
      assert es[..i + 1][j].key == k;
    }
    assert es[..i + 1][i] == es[i];
  }

  /** The map after the loop: every input key with the sum of its inputs, in big integers of its own. */
  method SumByKey(entries: seq<Slot>) returns (m: map<Key, BigInt>)
    requires NoNull(entries)
    ensures forall k :: k in m <==> HasKey(ValueOf(entries), k)
    ensures forall k :: k in m ==> fresh(m[k]) && m[k].value == SumFor(ValueOf(entries), k)
    ensures Unshared(m)
  {
    m := map[];
    ghost var es := ValueOf(entries);
    for i := 0 to |entries|
      invariant forall k :: k in m <==> HasKey(es[..i], k)
      invariant forall k :: k in m ==> fresh(m[k]) && m[k].value == SumFor(es[..i], k)
      invariant Unshared(m)
    {
      var key := entries[i].key;
      forall k ensures SumFor(es[..i + 1], k) == SumFor(es[..i], k) + if es[i].key == k then es[i].amount else 0
               ensures HasKey(es[..i + 1], k) <==> HasKey(es[..i], k) || es[i].key == k
      {
        SumForPush(es, i, k);
      }
      if key in m {
        m[key].Add(entries[i].amount);
      } else {
        SumForAbsent(es[..i], key);
        var copy := new BigInt(entries[i].amount.value);
        m := m[key := copy];
      }
    }
    assert es[..|entries|] == es;
  }

  /** A slice with one slot per map entry, filled by index in whatever order the map is iterated. */
  method ListMap(m: map<Key, BigInt>) returns (out: seq<Slot>, ghost keys: seq<Key>)
    ensures Distinct(keys) && |keys| == |out| && forall k :: k in keys <==> k in m
    ensures forall i :: 0 <= i < |out| ==> keys[i] in m && out[i] == Slot(keys[i], m[keys[i]])
  {
    var slots := new Slot[|m|];
    var i, rest := 0, m.Keys;
    keys := [];
    while rest != {}
      invariant rest <= m.Keys && i == |keys| && i + |rest| == |m| == slots.Length
      invariant Distinct(keys) && forall k :: k in keys <==> k in m && k !in rest
      invariant forall j :: 0 <= j < i ==> keys[j] in m && slots[j] == Slot(keys[j], m[keys[j]])
      decreases |rest|
    {
      var k :| k in rest;
      slots[i] := Slot(k, m[k]);
      i, rest, keys := i + 1, rest - {k}, keys + [k];
    }
    out := slots[..];
  }

  lemma GroupByOfKeys(entries: seq<Entry>, out: seq<Entry>, keys: seq<Key>)
    requires Distinct(keys) && |out| == |keys|
    requires forall k :: k in keys <==> HasKey(entries, k)
    requires forall i :: 0 <= i < |out| ==> out[i] == Entry(keys[i], SumFor(entries, keys[i]))
    ensures IsGroupBy(entries, out)
  {
  }

  /** aggregateSameEntries: an exact group-by in some order.  No input amount changes (nothing older is
      modified), and no output amount is an older object or shared by two outputs. */
  method AggregateSameEntries(entries: seq<Slot>) returns (out: seq<Slot>)
    requires NoNull(entries)
    ensures NoNull(out) && IsGroupBy(ValueOf(entries), ValueOf(out))
    ensures forall i :: 0 <= i < |out| ==> fresh(out[i].amount)
    ensures forall i, j :: 0 <= i < j < |out| ==> out[i].amount != out[j].amount
  {
    var m := SumByKey(entries);
    ghost var keys: seq<Key>;
    out, keys := ListMap(m);
    GroupByOfKeys(ValueOf(entries), ValueOf(out), keys);
  }

  /** extractBalanceEntriesFromLog, with new big integers; None is the index panic. */
  method ExtractBalanceEntries(log: Log, unpack: Unpacker) returns (out: Option<seq<Slot>>)
    ensures out.Some? <==> Extract(log, unpack).Some?
    ensures out.Some? ==> NoNull(out.value) && ValueOf(out.value) == Extract(log, unpack).value
  {
    var topics, token := log.topics, log.emitter;
    match FindStandard(topics)
    case NoStandard =>
      out := Some([]);
    case ERC20 =>
      if |topics| < 3 { return None; }
      var moved := NewMove(topics[1], topics[2], token, "", FromBytes(FromHex(log.datas)));
      out := Some(moved);
    case ERC721 =>
      var moved := NewMove(topics[1], topics[2], token, topics[3], 1);
      out := Some(moved);
    case ERC1155Single =>
      if |topics| < 4 { return None; }
      var data := FromHex(log.datas);
      if |data| < 64 { return Some([]); }
      var moved := NewMove(topics[2], topics[3], token, HashHex(FromBytes(data[0..32])), FromBytes(data[32..64]));
      out := Some(moved);
    case ERC1155Batch =>
      if |topics| < 4 { return None; }
      var unpacked := unpack(FromHex(log.datas));
      if unpacked.None? { return Some([]); }
      var (ids, values) := unpacked.value;
      var entries := NewMoves(topics[2], topics[3], token, ids, values);
      out := Some(entries);
  }

  method NewMove(from: string, to: string, token: string, id: string, value: nat) returns (out: seq<Slot>)
    ensures NoNull(out) && ValueOf(out) == Move(from, to, token, id, value)
  {
    var negative := new BigInt(0 - value);
    var positive := new BigInt(value);
    out := [Slot(Key(from, token, id), negative), Slot(Key(to, token, id), positive)];
  }

  lemma MovesPush(from: string, to: string, token: string, ids: seq<nat>, values: seq<nat>, i: nat)
    requires i < |ids| && i < |values|
    ensures Moves(from, to, token, ids[..i + 1], values[..i + 1]) ==
            Moves(from, to, token, ids[..i], values[..i]) + Move(from, to, token, HashHex(ids[i]), values[i])
  {
    assert ids[..i + 1][..i] == ids[..i] && values[..i + 1][..i] == values[..i];
  }

  /** The batch loop, which stops at the shorter of the two lists. */
  method NewMoves(from: string, to: string, token: string, ids: seq<nat>, values: seq<nat>) returns (out: seq<Slot>)
    ensures NoNull(out)
    ensures ValueOf(out) == Moves(from, to, token, ids[..Min(|ids|, |values|)], values[..Min(|ids|, |values|)])
  {
    out := [];
    for i := 0 to |ids|
      invariant i <= |values| && NoNull(out)
      invariant ValueOf(out) == Moves(from, to, token, ids[..i], values[..i])
    {
      if i >= |values| { break; }
      var moved := NewMove(from, to, token, HashHex(ids[i]), values[i]);
      MovesPush(from, to, token, ids, values, i);
      assert ValueOf(out + moved) == ValueOf(out) + ValueOf(moved);
      out := out + moved;
    }
  }
}
