/** Remote consumers: created and expired by events, handed to fibers through accepter queues. */
module RemoteConsumers {
  import AccepterSpec
  import AccepterProofs
  import opened AccepterModel

  datatype Event = Supply(id: nat) | Expire(id: nat)

  /** A consumer object is known by the position of the event that created it. */
  datatype Consumer = Consumer(id: nat, expired: bool)

  datatype Registry = Registry(consumers: map<nat, Consumer>, index: map<nat, nat>)

  function Supplied(r: Registry, at: nat, id: nat): Registry {
    Registry(r.consumers[at := Consumer(id, false)], r.index[id := at])
  }

  function Expired(r: Registry, id: nat): Registry
    requires forall i | i in r.index :: r.index[i] in r.consumers
  {
    if id !in r.index then r  // "trying to expire unknown remote consumer id"
    else
      var at := r.index[id];
      Registry(r.consumers[at := r.consumers[at].(expired := true)], r.index - {id})
  }

  function After(es: seq<Event>): (r: Registry)
    ensures forall t | t in r.consumers :: 0 <= t < |es|
    ensures forall i | i in r.index :: r.index[i] in r.consumers && r.consumers[r.index[i]].id == i
  {
    if es == [] then Registry(map[], map[])
    else
      var r, n := After(es[..|es| - 1]), |es| - 1;
      match es[n]
      case Supply(id) => Supplied(r, n, id)
      case Expire(id) => Expired(r, id)
  }

  // ---------- against the history ----------

  /** No event between `t` and `n` is about the consumer id that event `t` supplies. */
  ghost predicate Untouched(es: seq<Event>, t: nat, n: nat)
    requires t < n <= |es|
  {
    forall j | t < j < n :: es[j].id != es[t].id
  }

  /** The first event after `t` about that id is an expiry, and it has happened before `n`. */
  ghost predicate ExpiredBy(es: seq<Event>, t: nat, n: nat)
    requires t < n <= |es|
  {
    exists j :: t < j < n && Untouched(es, t, j) && es[j] == Expire(es[t].id)
  }

  /** What the registry knows after `n` events of the consumer that event `t` supplies. */
  ghost predicate Reflects(r: Registry, es: seq<Event>, t: nat, n: nat)
    requires t < n <= |es|
  {
    && (t in r.consumers <==> es[t].Supply?)
    && (es[t].Supply? ==>
          && r.consumers[t] == Consumer(es[t].id, ExpiredBy(es, t, n))
          && (es[t].id in r.index && r.index[es[t].id] == t <==> Untouched(es, t, n)))
  }

  lemma OneMore(es: seq<Event>, t: nat, n: nat)
    requires t < n < |es|
    ensures Untouched(es, t, n + 1) <==> Untouched(es, t, n) && es[n].id != es[t].id
    ensures ExpiredBy(es, t, n + 1) <==>
              ExpiredBy(es, t, n) || (Untouched(es, t, n) && es[n] == Expire(es[t].id))
  {
    if Untouched(es, t, n) && es[n] == Expire(es[t].id) {
      assert t < n < n + 1 && Untouched(es, t, n);
    }
  }

  /**
   After any history, a consumer object is expired exactly if the first later event about its id is an
   expiry, whether the object is still queued or with a fiber; and the index holds it exactly if no
   later event was about its id.
   */
  lemma {:induction false} RegistryIsHistory(es: seq<Event>, t: nat, n: nat)
    requires t < n <= |es|
    ensures Reflects(After(es[..n]), es, t, n)
  {
    var r := After(es[..n - 1]);
    assert es[..n][..n - 1] == es[..n - 1];
    if t == n - 1 {
      assert Untouched(es, t, n) && !ExpiredBy(es, t, n);
    } else {
      RegistryIsHistory(es, t, n - 1);
      OneMore(es, t, n - 1);
      assert es[..n][n - 1] == es[n - 1];
    }
  }

  /** No id is supplied while a consumer with that id is live. */
  ghost predicate NoReuse(es: seq<Event>) {
    forall t | 0 <= t < |es| && es[t].Supply? :: es[t].id !in After(es[..t]).index
  }

  /** The first event after `t` about the id of event `t`, if event `j` is one. */
  lemma {:induction false} FirstTouch(es: seq<Event>, t: nat, j: nat) returns (k: nat)
    requires t < j < |es| && es[j].id == es[t].id
    ensures t < k <= j && Untouched(es, t, k) && es[k].id == es[t].id
  {
    if Untouched(es, t, j) {
      k := j;
    } else {
      var i :| t < i < j && es[i].id == es[t].id;
      k := FirstTouch(es, t, i);
    }
  }

  /** Without reuse, the first later event about an id is its expiry. */
  lemma FirstIsExpiry(es: seq<Event>, t: nat, j: nat)
    requires NoReuse(es) && t < j < |es| && es[t].Supply? && es[j].id == es[t].id
    ensures ExpiredBy(es, t, |es|)
  {
    var k := FirstTouch(es, t, j);
    RegistryIsHistory(es, t, k);
    assert es[k] == Expire(es[t].id);
  }

  lemma EventIffExpiredBy(es: seq<Event>, t: nat)
    requires NoReuse(es) && t < |es| && es[t].Supply?
    ensures ExpiredBy(es, t, |es|) <==> Expire(es[t].id) in es[t..]
  {
    if Expire(es[t].id) in es[t..] {
      var i :| 0 <= i < |es[t..]| && es[t..][i] == Expire(es[t].id);
      assert es[t..][i] == es[t + i];
      FirstIsExpiry(es, t, t + i);
    }
    if ExpiredBy(es, t, |es|) {
      var j :| t < j < |es| && Untouched(es, t, j) && es[j] == Expire(es[t].id);
      assert es[t..][j - t] == es[j];
    }
  }

  /** Without reuse, a consumer is expired if and only if the expiry event of its id has occurred since. */
  lemma ExpiredIffEvent(es: seq<Event>, t: nat)
    requires NoReuse(es) && t < |es| && es[t].Supply?
    ensures t in After(es).consumers
    ensures After(es).consumers[t].expired <==> Expire(es[t].id) in es[t..]
  {
    assert es[..|es|] == es;
    RegistryIsHistory(es, t, |es|);
    EventIffExpiredBy(es, t);
  }

  /** And the index holds exactly the supplied consumers that are not expired. */
  lemma IndexIsUnexpired(es: seq<Event>, t: nat)
    requires NoReuse(es) && t < |es| && es[t].Supply?
    ensures var r, id := After(es), es[t].id;
            t in r.consumers && (id in r.index && r.index[id] == t <==> !r.consumers[t].expired)
  {
    assert es[..|es|] == es;
    RegistryIsHistory(es, t, |es|);
    if !Untouched(es, t, |es|) {
      var j :| t < j < |es| && es[j].id == es[t].id;
      FirstIsExpiry(es, t, j);
    }
  }

  /** With reuse it is not: the first of two consumers with the same id outlives the expiry of that id. */
  lemma ReuseHidesExpiry()
    ensures var es := [Supply(1), Supply(1), Expire(1)];
            0 in After(es).consumers && !After(es).consumers[0].expired && Expire(1) in es[0..]
  {
    var es := [Supply(1), Supply(1), Expire(1)];
    assert es[..3] == es;
    RegistryIsHistory(es, 0, 3);
    assert es[2] == Expire(1) && es[1].id == es[0].id;
    assert !ExpiredBy(es, 0, 3);
    assert es[0..][2] == Expire(1);
  }

  // ---------- the objects ----------

  class RemoteConsumer {
    const id: nat
    var expired: bool

    constructor (id: nat)
      ensures this.id == id && !expired
    {
      this.id, expired := id, false;
    }
  }

  class RemoteConsumerQueues {
    const queues: AccepterQueues<RemoteConsumer>
    var index: map<nat, RemoteConsumer>
    ghost var events: seq<Event>
    ghost var objects: map<nat, RemoteConsumer>  // by the position of the event that created them

    ghost predicate Valid()
      reads this, objects.Values, queues
    {
      Registered() && AccepterProofs.Inv(queues.View())
    }

    ghost predicate Registered()
      reads this, objects.Values
    {
      var r := After(events);
      && objects.Keys == r.consumers.Keys
      && (forall t | t in objects :: objects[t].id == r.consumers[t].id && objects[t].expired == r.consumers[t].expired)
      && (forall s, t | s in objects && t in objects && s != t :: objects[s] != objects[t])
      && index.Keys == r.index.Keys
      && (forall i | i in index :: index[i] == objects[r.index[i]])
    }

    constructor ()
      ensures Valid() && events == [] && fresh(queues)
    {
      queues := new AccepterQueues<RemoteConsumer>();
      index, events, objects := map[], [], map[];
    }

    method Remember(id: nat) returns (payload: RemoteConsumer)
      requires Registered()
      modifies this
      ensures Registered() && events == old(events) + [Supply(id)]
      ensures fresh(payload) && objects == old(objects)[|old(events)| := payload]
    {
      ghost var r, n := After(events), |events|;
      assert forall t | t in objects :: t < n;
      payload := new RemoteConsumer(id);
      index := index[id := payload];
      objects := objects[n := payload];
      events := events + [Supply(id)];
      assert events[..n] == old(events);
      assert After(events) == Supplied(r, n, id);
    }

    method Forward(payload: RemoteConsumer)
      requires AccepterProofs.Inv(queues.View())
      modifies queues
      ensures AccepterProofs.Inv(queues.View())
      ensures queues.View() == AccepterSpec.SupplyStep(old(queues.View()), payload)
    {
      AccepterProofs.SupplyStepKeeps(queues.View(), payload);
      queues.Supply(payload);
    }

    /** The object goes into the index before it reaches a fiber, which may run at once. */
    method SupplyConsumer(id: nat)
      requires Valid()
      modifies this, queues
      ensures Valid() && events == old(events) + [Supply(id)]
      ensures |events| - 1 in objects
      ensures queues.View() == AccepterSpec.SupplyStep(old(queues.View()), objects[|events| - 1])
      ensures fresh(objects[|events| - 1]) && objects == old(objects)[|old(events)| := objects[|events| - 1]]
    {
      var payload := Remember(id);
      Forward(payload);
    }

    method ExpireConsumer(id: nat)
      requires Valid()
      modifies this, objects.Values
      ensures Valid() && events == old(events) + [Expire(id)] && objects == old(objects)
      ensures queues.View() == old(queues.View())
      ensures forall t | t in objects ::
                objects[t].expired == (old(objects[t].expired) || (id in old(index) && old(index)[id] == objects[t]))
    {
      ghost var r, n := After(events), |events|;
      if id in index {
        index[id].expired := true;
        index := index - {id};
      }
      events := events + [Expire(id)];
      assert events[..n] == old(events);
      assert After(events) == Expired(r, id);
    }
  }
}
