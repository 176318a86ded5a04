/** Fan-out of one payload over the filter-keyed channels (internal/handlers/ws/entity.go:47-68,
    internal/handlers/ws/utils.go:42-54). */
module Broadcast {
  import opened Seqs
  import opened Registry

  datatype Payload = Payload(from: string, to: string, emitter: string, topics: seq<string>)

  predicate MatchesFilter(filter: Filter, payload: Payload) {
    if filter.address != "" && payload.to != filter.address && payload.from != filter.address &&
       payload.emitter != filter.address
    then false
    else if filter.topic0 != "" && (|payload.topics| == 0 || payload.topics[0] != filter.topic0) then false
    else true
  }

  /** A part of a filter that is empty lets everything through; an address has to be the sender, the receiver or the
      emitter, and a topic the first one. */
  lemma MatchesIff(filter: Filter, payload: Payload)
    ensures MatchesFilter(filter, payload) <==>
      && filter.address in {"", payload.from, payload.to, payload.emitter}
      && (filter.topic0 == "" || (payload.topics != [] && filter.topic0 == payload.topics[0]))
  {
  }

  /** Whatever the payloads are, one subscription receives all that another does if and only if each part of
      it is empty or the other's part: an empty part is a wildcard, and nothing else widens a filter. */
  lemma FilterCoversIff(wide: Filter, narrow: Filter)
    ensures (forall payload :: MatchesFilter(narrow, payload) ==> MatchesFilter(wide, payload)) <==>
            wide.address in {"", narrow.address} && wide.topic0 in {"", narrow.topic0}
  {
    if forall payload :: MatchesFilter(narrow, payload) ==> MatchesFilter(wide, payload) {
      var only := Payload(narrow.address, narrow.address, narrow.address, [narrow.topic0]);
      assert MatchesFilter(narrow, only);
      assert MatchesFilter(wide, only);
    }
  }

  /** One registration: slot `index` of a filter's slice. */
  datatype Slot = Slot(filter: Filter, index: nat)

  type Slices = map<Filter, seq<nat>>

  predicate IsSlot(chans: Slices, s: Slot) {
    s.filter in chans && s.index < |chans[s.filter]|
  }

  /** The registrations a scan of all of them would send to. */
  predicate Due(chans: Slices, payload: Payload, ready: Slot -> bool, s: Slot) {
    IsSlot(chans, s) && MatchesFilter(s.filter, payload) && ready(s)
  }

  /** The loop over the map, in any order, with non-blocking sends: once per registration whose filter matches
      and whose receiver is ready, and nothing else. */
  method BroadcastOne(chans: Slices, payload: Payload, ready: Slot -> bool) returns (sent: seq<Slot>)
    ensures Distinct(sent)
    ensures forall s :: s in sent <==> Due(chans, payload, ready, s)
  {
    sent := [];
    var rest := chans.Keys;
    while rest != {}
      invariant rest <= chans.Keys && Distinct(sent)
      invariant forall s :: s in sent <==> Due(chans, payload, ready, s) && s.filter !in rest
      decreases |rest|
    {
      var filter :| filter in rest;
      if MatchesFilter(filter, payload) {
        sent := SendAll(chans, payload, ready, filter, rest, sent);
      }
      rest := rest - {filter};
    }
  }

  /** A new registration, the last of its slice, receives a payload of its topic if and only if its channel is ready and
      the payload has the subscription's address, if it names one, and its first topic, if it names one. */
  lemma NewSubscriptionReceives(reg: Channels, sub: SubscribeMessage, c: nat, payload: Payload, ready: Slot -> bool,
                                sent: seq<Slot>)
    requires sub.topic in reg
    requires
      var filter := ExtractFilter(sub);
      var chans := Put(reg, sub.topic, filter, At(reg, sub.topic, filter) + [c])[sub.topic];
      forall s :: s in sent <==> Due(chans, payload, ready, s)
    ensures
      var filter := ExtractFilter(sub);
      var slot := Slot(filter, |At(reg, sub.topic, filter)|);
      && Put(reg, sub.topic, filter, At(reg, sub.topic, filter) + [c])[sub.topic][filter][slot.index] == c
      && (slot in sent <==>
            && ready(slot)
            && (sub.address != "" ==> sub.address in [payload.from, payload.to, payload.emitter])
            && (sub.topic0 != "" ==> |payload.topics| > 0 && payload.topics[0] == sub.topic0))
  {
    MatchesIff(ExtractFilter(sub), payload);
  }

  method SendAll(chans: Slices, payload: Payload, ready: Slot -> bool, filter: Filter, ghost rest: set<Filter>,
                 before: seq<Slot>)
    returns (sent: seq<Slot>)
    requires filter in rest && rest <= chans.Keys && MatchesFilter(filter, payload) && Distinct(before)
    requires forall s :: s in before <==> Due(chans, payload, ready, s) && s.filter !in rest
    ensures Distinct(sent)
    ensures forall s :: s in sent <==> Due(chans, payload, ready, s) && s.filter !in rest - {filter}
  {
    sent := before;
    for i := 0 to |chans[filter]|
      invariant Distinct(sent)
      invariant forall s :: s in sent <==>
        Due(chans, payload, ready, s) && (s.filter !in rest || (s.filter == filter && s.index < i))
    {
      if ready(Slot(filter, i)) { sent := sent + [Slot(filter, i)]; }
    }
  }

  /** What one channel receives. */
  function ToChannel(chans: Slices, sent: seq<Slot>, c: nat): seq<Slot>
    requires forall i :: 0 <= i < |sent| ==> IsSlot(chans, sent[i])
  {
    if sent == [] then []
    else
      var last := sent[|sent| - 1];
      assert IsSlot(chans, last);
      ToChannel(chans, sent[..|sent| - 1], c) + if chans[last.filter][last.index] == c then [last] else []
  }

  lemma {:induction false} ToChannelMembers(chans: Slices, sent: seq<Slot>, c: nat)
    requires Distinct(sent) && forall i :: 0 <= i < |sent| ==> IsSlot(chans, sent[i])
    ensures Distinct(ToChannel(chans, sent, c))
    ensures forall s :: s in ToChannel(chans, sent, c) <==> s in sent && chans[s.filter][s.index] == c
  {
    if sent == [] {
    } else {
      var front, last := sent[..|sent| - 1], sent[|sent| - 1];
      ToChannelMembers(chans, front, c);
      assert sent == front + [last] && last !in front;
    }
  }

  /** Whether other channels are ready never changes what a channel receives. */
  lemma OthersDoNotMatter(chans: Slices, payload: Payload, ready: Slot -> bool, ready': Slot -> bool, c: nat,
                          sent: seq<Slot>, sent': seq<Slot>)
    requires Distinct(sent) && forall s :: s in sent <==> Due(chans, payload, ready, s)
    requires Distinct(sent') && forall s :: s in sent' <==> Due(chans, payload, ready', s)
    requires forall s :: IsSlot(chans, s) && chans[s.filter][s.index] == c ==> ready(s) == ready'(s)
    ensures forall i :: 0 <= i < |sent| ==> IsSlot(chans, sent[i])
    ensures forall i :: 0 <= i < |sent'| ==> IsSlot(chans, sent'[i])
    ensures multiset(ToChannel(chans, sent, c)) == multiset(ToChannel(chans, sent', c))
  {
    assert forall i :: 0 <= i < |sent| ==> sent[i] in sent;
    assert forall i :: 0 <= i < |sent'| ==> sent'[i] in sent';
    ToChannelMembers(chans, sent, c);
    ToChannelMembers(chans, sent', c);
    SameElementsPermuted(ToChannel(chans, sent, c), ToChannel(chans, sent', c));
  }
}
