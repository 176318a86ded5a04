/** WebSocket registrations (internal/handlers/ws/client.go, utils.go): a client remembers the index of its
    channel in each filter's slice, and a removal shifts the slice under the indices of the others. */
module Registry {
  import opened Wrappers
  import opened Seqs

  datatype SubscribeMessage = SubscribeMessage(kind: string, topic: string, address: string, topic0: string)
  datatype Filter = Filter(address: string, topic0: string)
  datatype Position = Position(topic: string, filter: Filter, index: nat)

  predicate ValidateSubscription(sub: SubscribeMessage) {
    sub.kind == "subscribe" && (sub.topic == "events" || sub.topic == "transactions" || sub.topic == "blocks")
  }

  function ExtractFilter(sub: SubscribeMessage): Filter {
    Filter(sub.address, sub.topic0)
  }

  /** The channels of every topic's entity, by filter.  A channel is its client's number. */
  type Channels = map<string, map<Filter, seq<nat>>>

  /** A slice; a missing one is nil. */
  function At(reg: Channels, topic: string, filter: Filter): seq<nat> {
    if topic in reg && filter in reg[topic] then reg[topic][filter] else []
  }

  function Put(reg: Channels, topic: string, filter: Filter, c: seq<nat>): Channels
    requires topic in reg
  {
    reg[topic := reg[topic][filter := c]]
  }

  /** append(c[:index], c[index+1:]...); None is the slice bounds panic. */
  function RemoveOne(reg: Channels, p: Position): Option<Channels> {
    var c := At(reg, p.topic, p.filter);
    if p.index >= |c| then None else Some(Put(reg, p.topic, p.filter, Without(c, p.index)))
  }

  function RemoveAll(reg: Channels, pos: seq<Position>): Option<Channels> {
    if pos == [] then Some(reg)
    else
      match RemoveAll(reg, pos[..|pos| - 1])
      case None => None
      case Some(before) => RemoveOne(before, pos[|pos| - 1])
  }

  // ---------------------------------------------------------------- the objects

  class Entity {
    var clientsChan: map<Filter, seq<nat>>

    constructor ()
      ensures clientsChan == map[]
    {
      clientsChan := map[];
    }
  }

  function Snapshot(entities: map<string, Entity>): Channels
    reads entities.Values
  {
    map t | t in entities :: entities[t].clientsChan
  }

  class Client {
    const outgoing: nat
    const entities: map<string, Entity>
    var pos: seq<Position>
    var once: bool
    var closed: bool

    /** The entity of each topic is its own object, and every topic a subscription may name has one. */
    ghost predicate Valid() {
      && (forall t, t' :: t in entities && t' in entities && t != t' ==> entities[t] != entities[t'])
      && (forall sub :: ValidateSubscription(sub) ==> sub.topic in entities)
    }

    constructor (outgoing: nat, entities: map<string, Entity>)
      ensures this.outgoing == outgoing && this.entities == entities && pos == [] && !once && !closed
    {
      this.outgoing, this.entities := outgoing, entities;
      pos, once, closed := [], false, false;
    }

    /** subscribe; None is a message that is not JSON. */
    method Subscribe(message: Option<SubscribeMessage>) returns (err: bool)
      requires Valid()
      modifies this`pos, entities.Values
      ensures err <==> message.None? || !ValidateSubscription(message.value)
      ensures !err <==>
        && message.Some? && message.value.kind == "subscribe"
        && message.value.topic in ["events", "transactions", "blocks"]
      ensures err ==> pos == old(pos) && Snapshot(entities) == old(Snapshot(entities))
      ensures !err ==>
        var sub, reg := message.value, old(Snapshot(entities));
        var filter := ExtractFilter(sub);
        var c := At(reg, sub.topic, filter);
        && Snapshot(entities) == Put(reg, sub.topic, filter, c + [outgoing])
        && pos == old(pos) + [Position(sub.topic, filter, |c|)]
    {
      if message.None? || !ValidateSubscription(message.value) { return true; }
      var sub := message.value;
      var entity := entities[sub.topic];
      var filter := ExtractFilter(sub);
      var chans := if filter in entity.clientsChan then entity.clientsChan[filter] else [];
      var index := |chans|;
      entity.clientsChan := entity.clientsChan[filter := chans + [outgoing]];
      pos := pos + [Position(sub.topic, filter, index)];
      err := false;
    }

    /** One removal: the slice loses the recorded index, or the slice expression panics. */
    method RemoveAt(p: Position) returns (panicked: bool)
      requires Valid() && p.topic in entities
      modifies entities[p.topic]
      ensures panicked <==> old(RemoveOne(Snapshot(entities), p)).None?
      ensures panicked ==> Snapshot(entities) == old(Snapshot(entities))
      ensures !panicked ==> Some(Snapshot(entities)) == old(RemoveOne(Snapshot(entities), p))
    {
      var entity := entities[p.topic];
      var c := if p.filter in entity.clientsChan then entity.clientsChan[p.filter] else [];
      if p.index >= |c| { return true; }
      entity.clientsChan := entity.clientsChan[p.filter := c[..p.index] + c[p.index + 1..]];
      assert Snapshot(entities) == old(Put(Snapshot(entities), p.topic, p.filter, Without(c, p.index)));
      panicked := false;
    }

    /** delete: runs once, removing the recorded indices in order; a recorded index that is out of range panics. */
    method Delete() returns (panicked: bool)
      requires Valid()
      requires forall i :: 0 <= i < |pos| ==> pos[i].topic in entities
      modifies this`once, this`closed, entities.Values
      ensures once
      ensures old(once) ==> !panicked && closed == old(closed) && Snapshot(entities) == old(Snapshot(entities))
      ensures !old(once) ==> (panicked <==> old(RemoveAll(Snapshot(entities), pos)).None?)
      ensures !old(once) && !panicked ==> closed && Snapshot(entities) == old(RemoveAll(Snapshot(entities), pos)).value
    {
      if once { return false; }
      once := true;
      ghost var before := Snapshot(entities);
      for i := 0 to |pos|
        invariant once && RemoveAll(before, pos[..i]) == Some(Snapshot(entities))
      {
        RemoveAllNext(before, pos, i);
        panicked := RemoveAt(pos[i]);
        if panicked {
          RemoveAllStops(before, pos, i + 1);
          return;
        }
      }
      assert pos[..|pos|] == pos;
      closed := true;
      panicked := false;
    }
  }

  lemma RemoveAllNext(reg: Channels, pos: seq<Position>, i: nat)
    requires i < |pos| && RemoveAll(reg, pos[..i]).Some?
    ensures RemoveAll(reg, pos[..i + 1]) == RemoveOne(RemoveAll(reg, pos[..i]).value, pos[i])
  {
    assert pos[..i + 1][..i] == pos[..i];
  }

  lemma {:induction false} RemoveAllStops(reg: Channels, pos: seq<Position>, n: nat)
    requires n <= |pos| && RemoveAll(reg, pos[..n]).None?
    ensures RemoveAll(reg, pos).None?
    decreases |pos|
  {
    if n < |pos| {
      assert pos[..|pos| - 1][..n] == pos[..n];
      RemoveAllStops(reg, pos[..|pos| - 1], n);
    } else {
      assert pos[..n] == pos;
    }
  }
}
