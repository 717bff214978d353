/**
 * The page's publish/subscribe table: a frozen map of topic names to themselves, a
 * table from each topic to its subscribers, `subscribe`, which appends to a topic's
 * list, and `publish`, which hands every subscriber of a topic its own copy of the
 * payload, in subscription order.
 *
 * A topic outside the table has no list: `subscribe` and `publish` then fail on
 * `undefined`, which the model reports as `None` with nothing changed.
 */
module PubSub {
  import opened Wrappers
  import opened OrderedMaps

  const UrlSearchParamsUpdated := "URL_SEARCH_PARAMS_UPDATED"

  /** The topic names `TOPICS` is built from. */
  const TopicNames: seq<string> := [UrlSearchParamsUpdated]

  /** `TOPICS`: every name mapped to itself. */
  function Topics(): (t: OMap<string, string>)
    ensures Keys(t) == TopicNames
    ensures forall i :: 0 <= i < |t| ==> t[i].1 == t[i].0
  {
    seq(|TopicNames|, i requires 0 <= i < |TopicNames| => (TopicNames[i], TopicNames[i]))
  }

  /** The one topic is there under its own name, and nothing else is. */
  lemma TopicsSpec(name: string)
    ensures Get(Topics(), name) == if name == UrlSearchParamsUpdated then Some(name) else None
  {
    assert Topics() == [(UrlSearchParamsUpdated, UrlSearchParamsUpdated)];
  }

  /** A JSON value: what survives the `JSON.stringify`/`JSON.parse` copy unchanged. */
  datatype Json =
    | Null
    | Bool(b: bool)
    | Num(n: int)
    | Str(s: string)
    | Arr(items: seq<Json>)
    | Obj(fields: seq<(string, Json)>)

  /** The payload when none is given: `{}`. */
  const DefaultPayload := Obj([])

  type SubscriberId = nat

  /** One subscriber call made by `publish`. */
  datatype Delivery = Delivery(subscriber: SubscriberId, payload: Json)

  /** `TOPIC_SUBSCRIBERS_MAP` as first built: an empty list per key of `TOPICS`. */
  function InitialSubscribers(): (m: OMap<string, seq<SubscriberId>>)
    ensures Keys(m) == Keys(Topics())
    ensures forall i :: 0 <= i < |m| ==> m[i].1 == []
  {
    var ks := Keys(Topics());
    seq(|ks|, i requires 0 <= i < |ks| => (ks[i], []))
  }

  /** The deliveries of one `publish`: each subscriber once, in order, with the payload or `{}`. */
  function Deliveries(subs: seq<SubscriberId>, payload: Option<Json>): (ds: seq<Delivery>)
    ensures |ds| == |subs|
    ensures forall i :: 0 <= i < |subs| ==> ds[i].subscriber == subs[i]
    ensures forall i :: 0 <= i < |subs| ==> ds[i].payload == if payload.Some? then payload.value else Obj([])
  {
    var copy := payload.GetOr(DefaultPayload);
    assert copy == if payload.Some? then payload.value else Obj([]);
    seq(|subs|, i requires 0 <= i < |subs| => Delivery(subs[i], copy))
  }

  class Broker {
    var subscribers: OMap<string, seq<SubscriberId>>

    /** Every topic starts with no subscribers. */
    constructor ()
      ensures subscribers == InitialSubscribers()
      ensures forall t :: Get(subscribers, t) == if t == UrlSearchParamsUpdated then Some([]) else None
    {
      subscribers := InitialSubscribers();
      assert InitialSubscribers() == [(UrlSearchParamsUpdated, [])];
    }

    /**
     * `subscribe(topic, s)`: appends `s` to the topic's list and returns the new length
     * (what `push` returns); other topics are unchanged. `None` for an unknown topic.
     */
    method Subscribe(topic: string, s: SubscriberId) returns (r: Option<nat>)
      modifies this
      ensures Get(old(subscribers), topic).None? ==> r == None && subscribers == old(subscribers)
      ensures Get(old(subscribers), topic).Some? ==>
        && Get(subscribers, topic) == Some(Get(old(subscribers), topic).value + [s])
        && r == Some(|Get(old(subscribers), topic).value| + 1)
      ensures forall t :: t != topic ==> Get(subscribers, t) == Get(old(subscribers), t)
      ensures Keys(subscribers) == Keys(old(subscribers))
    {
      var list := Get(subscribers, topic);
      if list.None? {
        return None;
      }
      var updated := list.value + [s];
      ghost var before := subscribers;
      subscribers := Put(subscribers, topic, updated);
      forall t ensures Get(subscribers, t) == if t == topic then Some(updated) else Get(before, t) {
        PutGet(before, topic, updated, t);
      }
      r := Some(|updated|);
    }

    /**
     * `publish(topic, payload)`: calls every subscriber of the topic once, in
     * subscription order, each with its own equal copy of the payload (`{}` when none
     * is given). `None` for an unknown topic. The table is not changed.
     */
    method Publish(topic: string, payload: Option<Json>) returns (r: Option<seq<Delivery>>)
      ensures r.None? <==> Get(subscribers, topic).None?
      ensures r.Some? ==> r.value == Deliveries(Get(subscribers, topic).value, payload)
    {
      var list := Get(subscribers, topic);
      if list.None? {
        return None;
      }
      var subs := list.value;
      var copy := payload.GetOr(DefaultPayload);
      var ds: seq<Delivery> := [];
      var i := 0;
      while i < |subs|
        invariant 0 <= i <= |subs|
        invariant ds == Deliveries(subs[..i], payload)
      {
        ds := ds + [Delivery(subs[i], copy)];
        i := i + 1;
      }
      assert subs[..i] == subs;
      r := Some(ds);
    }
  }

  /** Subscribing then publishing on the one topic reaches the new subscriber, last. */
  method SubscribeThenPublish(b: Broker, s: SubscriberId) returns (ds: Option<seq<Delivery>>)
    requires Get(b.subscribers, UrlSearchParamsUpdated).Some?
    modifies b
    ensures ds.Some? && |ds.value| > 0 && ds.value[|ds.value| - 1] == Delivery(s, DefaultPayload)
  {
    var _ := b.Subscribe(UrlSearchParamsUpdated, s);
    ds := b.Publish(UrlSearchParamsUpdated, None);
  }
}
