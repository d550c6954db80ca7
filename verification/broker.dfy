/** The topic-keyed publish/subscribe registry (04-fprocessor/main.go, type `Pipe`),
    as a sequential state machine. Locks disappear: each call is one atomic step.
    A subscriber channel is named by the order in which it was created, and
    `pending[c]` holds what channel `c` still has to receive. The goroutine that
    `Publish` starts for every send is a pending delivery; each channel's pending
    deliveries form a bag because nothing orders the goroutines of different
    publishes. `Receive` is the subscriber taking one of them. */
module Broker {
  import opened Messages

  type Topic = string
  type Chan = nat

  datatype Pipe = Pipe(
    subs: map<Topic, seq<Chan>>,
    closed: bool,
    pending: seq<multiset<Message>>)

  /** The channels registered for `t`, in registration order (`p.subs[topic]`,
      which is empty for an unknown topic). */
  function SubsOf(p: Pipe, t: Topic): seq<Chan>
  {
    if t in p.subs then p.subs[t] else []
  }

  /** What every reachable registry satisfies: every registered channel has
      been made (has a bag), and no topic lists a channel twice. */
  ghost predicate Valid(p: Pipe)
  {
    && (forall t, i :: t in p.subs && 0 <= i < |p.subs[t]| ==> p.subs[t][i] < |p.pending|)
    && (forall t, i, j :: t in p.subs && 0 <= i < j < |p.subs[t]| ==> p.subs[t][i] != p.subs[t][j])
  }

  function NewPipe(): (p: Pipe)
    ensures Valid(p)
    ensures !p.closed
    ensures forall t :: SubsOf(p, t) == []
    ensures |p.pending| == 0
  {
    Pipe(map[], false, [])
  }

  /** `Subscribe(topic)`: a fresh channel is appended to `topic`'s list. */
  function Subscribe(p: Pipe, t: Topic): (r: (Pipe, Chan))
    requires Valid(p)
    ensures Valid(r.0)
    ensures r.1 == |p.pending| && |r.0.pending| == |p.pending| + 1
    ensures forall u, i :: u in p.subs && 0 <= i < |p.subs[u]| ==> p.subs[u][i] != r.1
    ensures SubsOf(r.0, t) == SubsOf(p, t) + [r.1]
    ensures forall u :: u != t ==> (u in r.0.subs <==> u in p.subs) && SubsOf(r.0, u) == SubsOf(p, u)
    ensures r.0.pending[r.1] == multiset{}
    ensures r.0.pending[..|p.pending|] == p.pending
    ensures r.0.closed == p.closed
  {
    var ch := |p.pending|;
    var p' := Pipe(p.subs[t := SubsOf(p, t) + [ch]], p.closed, p.pending + [multiset{}]);
    assert forall u, i :: u in p'.subs && 0 <= i < |p'.subs[u]| ==>
      if u == t && i == |SubsOf(p, t)| then p'.subs[u][i] == ch else p'.subs[u][i] < ch;
    (p', ch)
  }

  /** Adds one pending copy of `m` for every occurrence of a channel in `chans`
      (the `for _, ch := range p.subs[topic] { go ... }` loop). */
  function Deliver(pending: seq<multiset<Message>>, chans: seq<Chan>, m: Message)
    : (r: seq<multiset<Message>>)
    requires forall i :: 0 <= i < |chans| ==> chans[i] < |pending|
    ensures |r| == |pending|
    ensures forall c :: 0 <= c < |r| ==> r[c] == pending[c] + multiset{}[m := multiset(chans)[c]]
    decreases |chans|
  {
    if |chans| == 0 then pending
    else
      var c0, rest := chans[0], chans[1..];
      var pend := pending[c0 := pending[c0] + multiset{m}];
      var r := Deliver(pend, rest, m);
      assert chans == [c0] + rest;
      forall c | 0 <= c < |r| ensures r[c] == pending[c] + multiset{}[m := multiset(chans)[c]] {
        DeliverAt(pending[c], c == c0, m, multiset(rest)[c], multiset(chans)[c], r[c]);
      }
      r
  }

  /** One channel's bag across one step of `Deliver`. */
  lemma DeliverAt(before: multiset<Message>, hit: bool, m: Message, n: nat, total: nat, after: multiset<Message>)
    requires total == if hit then n + 1 else n
    requires after == (if hit then before + multiset{m} else before) + multiset{}[m := n]
    ensures after == before + multiset{}[m := total]
  {
  }

  /** In a list without repeats a channel occurs once or not at all. */
  lemma {:induction false} OccursOnce(chans: seq<Chan>, c: Chan)
    requires forall i, j :: 0 <= i < j < |chans| ==> chans[i] != chans[j]
    ensures multiset(chans)[c] == if c in chans then 1 else 0
  {
    if |chans| > 0 {
      assert chans == [chans[0]] + chans[1..];
      assert chans[0] !in chans[1..];
      OccursOnce(chans[1..], c);
    }
  }

  /** `Publish(topic, msg)`: a closed broker drops the message; otherwise every
      channel registered for `topic` at this moment gets exactly one pending copy. */
  function Publish(p: Pipe, t: Topic, m: Message): (r: Pipe)
    requires Valid(p)
    ensures Valid(r)
    ensures r.subs == p.subs && r.closed == p.closed && |r.pending| == |p.pending|
    ensures p.closed ==> r == p
    ensures SubsOf(p, t) == [] ==> r == p
    ensures !p.closed ==> forall c :: 0 <= c < |p.pending| ==>
      r.pending[c] == if c in SubsOf(p, t) then p.pending[c] + multiset{m} else p.pending[c]
  {
    if p.closed then p
    else
      var chans := SubsOf(p, t);
      var pending := Deliver(p.pending, chans, m);
      forall c | 0 <= c < |p.pending|
        ensures pending[c] == if c in chans then p.pending[c] + multiset{m} else p.pending[c]
      {
        OccursOnce(chans, c);
      }
      if chans == [] then
        assert pending == p.pending;
        p
      else
        p.(pending := pending)
  }

  /** A subscriber takes one pending delivery of `m` from channel `ch`;
      `None` when no such delivery is pending (the receive would block). */
  function Receive(p: Pipe, ch: Chan, m: Message): (r: Option<Pipe>)
    requires Valid(p)
    ensures r.Some? <==> ch < |p.pending| && m in p.pending[ch]
    ensures r.Some? ==> Valid(r.value) && r.value.subs == p.subs && r.value.closed == p.closed
    ensures r.Some? ==> |r.value.pending| == |p.pending|
    ensures r.Some? ==> r.value.pending[ch] + multiset{m} == p.pending[ch]
    ensures r.Some? ==> forall c :: 0 <= c < |p.pending| && c != ch ==> r.value.pending[c] == p.pending[c]
  {
    if ch < |p.pending| && m in p.pending[ch]
    then Some(p.(pending := p.pending[ch := p.pending[ch] - multiset{m}]))
    else None
  }

  /** Publishing `ms` to `t`, one call after the other. */
  function PublishAll(p: Pipe, t: Topic, ms: seq<Message>): (r: Pipe)
    requires Valid(p)
    ensures Valid(r)
    ensures r.closed == p.closed && r.subs == p.subs && |r.pending| == |p.pending|
    decreases |ms|
  {
    if |ms| == 0 then p else PublishAll(Publish(p, t, ms[0]), t, ms[1..])
  }

  /** Fan-out: after a run of publishes every subscriber of `t` holds every
      message once, whatever the order of the calls; nobody else gets anything,
      and a closed broker delivers nothing. */
  lemma PublishAllDelivers(p: Pipe, t: Topic, ms: seq<Message>)
    requires Valid(p)
    ensures forall c :: 0 <= c < |p.pending| ==>
      PublishAll(p, t, ms).pending[c] ==
        if c in SubsOf(p, t) && !p.closed then p.pending[c] + multiset(ms) else p.pending[c]
  {
    forall c | 0 <= c < |p.pending|
      ensures PublishAll(p, t, ms).pending[c] ==
        if c in SubsOf(p, t) && !p.closed then p.pending[c] + multiset(ms) else p.pending[c]
    {
      PublishAllDeliversTo(p, t, ms, c);
    }
  }

  lemma {:induction false} PublishAllDeliversTo(p: Pipe, t: Topic, ms: seq<Message>, c: Chan)
    requires Valid(p) && c < |p.pending|
    ensures PublishAll(p, t, ms).pending[c] ==
      if c in SubsOf(p, t) && !p.closed then p.pending[c] + multiset(ms) else p.pending[c]
    decreases |ms|
  {
    if |ms| == 0 {
      assert multiset(ms) == multiset{};
    } else {
      var m, rest := ms[0], ms[1..];
      var q := Publish(p, t, m);
      assert PublishAll(p, t, ms) == PublishAll(q, t, rest);
      PublishAllDeliversTo(q, t, rest, c);
      PublishOne(p, t, m, c);
      AddFirst(p.pending[c], ms);
    }
  }

  lemma AddFirst(before: multiset<Message>, ms: seq<Message>)
    requires |ms| > 0
    ensures (before + multiset{ms[0]}) + multiset(ms[1..]) == before + multiset(ms)
  {
    assert ms == [ms[0]] + ms[1..];
  }

  /** One publish seen from a single channel. */
  lemma PublishOne(p: Pipe, t: Topic, m: Message, c: Chan)
    requires Valid(p) && c < |p.pending|
    ensures var q := Publish(p, t, m);
            && SubsOf(q, t) == SubsOf(p, t) && q.closed == p.closed
            && q.pending[c] == if c in SubsOf(p, t) && !p.closed then p.pending[c] + multiset{m} else p.pending[c]
  {
  }

  /** No replay: a channel subscribed after some publishes holds exactly the
      messages published to its topic after it subscribed. */
  lemma SubscriberSeesOnlyLaterPublishes(p: Pipe, t: Topic, before: seq<Message>, after: seq<Message>)
    requires Valid(p) && !p.closed
    ensures var q := PublishAll(p, t, before);
            var (q', ch) := Subscribe(q, t);
            PublishAll(q', t, after).pending[ch] == multiset(after)
  {
    var q := PublishAll(p, t, before);
    var (q', ch) := Subscribe(q, t);
    assert ch in SubsOf(q', t);
    PublishAllDeliversTo(q', t, after, ch);
  }

  /** Two subscribers of one topic each hold every published message: on a
      fresh broker, each of two subscribers holds exactly the published
      messages. */
  lemma EachSubscriberGetsEveryPublish(t: Topic, ms: seq<Message>)
    ensures var (p1, c1) := Subscribe(NewPipe(), t);
            var (p2, c2) := Subscribe(p1, t);
            var r := PublishAll(p2, t, ms);
            c1 != c2 && r.pending[c1] == multiset(ms) && r.pending[c2] == multiset(ms)
  {
    var (p1, c1) := Subscribe(NewPipe(), t);
    var (p2, c2) := Subscribe(p1, t);
    assert c1 in SubsOf(p2, t) && c2 in SubsOf(p2, t);
    assert p2.pending[c1] == multiset{} && p2.pending[c2] == multiset{};
    PublishAllDeliversTo(p2, t, ms, c1);
    PublishAllDeliversTo(p2, t, ms, c2);
  }
}
