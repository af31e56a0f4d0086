/** The expiring cache of `shield/pkg/util/cache/cache.go`, and the log it refines. */
module Cache {
  import opened Text

  /** `time.Now()`: every reading is at least as late as the one before. */
  class Clock {
    var last: int

    constructor (start: int)
      ensures last == start
    {
      last := start;
    }

    method Now() returns (t: int)
      modifies this
      ensures t == last && old(last) <= last
    {
      t :| t >= last;
      last := t;
    }
  }

  datatype CachedObject<V> = CachedObject(raw: V, created: int, expired: int)

  /** What callers did, in order; nothing is ever dropped from it. */
  datatype Event<V> = SetEvent(name: string, obj: CachedObject<V>) | UnsetEvent(name: string)

  const DEFAULT_DURATION := 5

  /** The latest object set under a name and not unset since. */
  function LogEntry<V>(log: seq<Event<V>>, name: string): Option<CachedObject<V>> {
    if log == [] then None
    else
      var e := log[|log| - 1];
      if e.name != name then LogEntry(log[..|log| - 1], name)
      else if e.SetEvent? then Some(e.obj)
      else None
  }

  function LogGet<V>(log: seq<Event<V>>, name: string, now: int): Option<V> {
    var o := LogEntry(log, name);
    if o.Some? && now <= o.value.expired then Some(o.value.raw) else None
  }

  type Table<V> = map<string, CachedObject<V>>

  function TableGet<V>(data: Table<V>, name: string, now: int): Option<V> {
    if name in data && now <= data[name].expired then Some(data[name].raw) else None
  }

  /** The table holds what the log holds, except for entries that had expired by `now`. */
  ghost predicate Agrees<V>(data: Table<V>, log: seq<Event<V>>, now: int) {
    && (forall name :: name in data ==> LogEntry(log, name) == Some(data[name]))
    && (forall name :: name !in data && LogEntry(log, name).Some? ==> LogEntry(log, name).value.expired < now)
  }

  /** From then on a lookup cannot tell the table from the log: eviction is unobservable. */
  lemma LookupsAgree<V>(data: Table<V>, log: seq<Event<V>>, now: int, name: string, later: int)
    requires Agrees(data, log, now) && now <= later
    ensures TableGet(data, name, later) == LogGet(log, name, later)
  {
    hide LogEntry;
  }

  lemma EvictKeepsAgreement<V>(data: Table<V>, log: seq<Event<V>>, now: int, evicted: set<string>, later: int)
    requires Agrees(data, log, now) && now <= later
    requires forall name :: name in evicted && name in data ==> data[name].expired < later
    ensures Agrees(data - evicted, log, later)
  {
    hide LogEntry;
  }

  lemma LogEntryAfter<V>(log: seq<Event<V>>, e: Event<V>, name: string)
    ensures LogEntry(log + [e], name) ==
            if e.name != name then LogEntry(log, name) else if e.SetEvent? then Some(e.obj) else None
  {
    assert (log + [e])[..|log|] == log;
  }

  lemma SetKeepsAgreement<V>(data: Table<V>, log: seq<Event<V>>, now: int, name: string, obj: CachedObject<V>)
    requires Agrees(data, log, now)
    ensures Agrees(data[name := obj], log + [SetEvent(name, obj)], now)
  {
    hide LogEntry;
    forall n ensures LogEntry(log + [SetEvent(name, obj)], n) == if n == name then Some(obj) else LogEntry(log, n) {
      LogEntryAfter(log, SetEvent(name, obj), n);
    }
  }

  lemma UnsetKeepsAgreement<V>(data: Table<V>, log: seq<Event<V>>, now: int, name: string)
    requires Agrees(data, log, now)
    ensures Agrees(data - {name}, log + [UnsetEvent(name)], now)
  {
    hide LogEntry;
    forall n ensures LogEntry(log + [UnsetEvent(name)], n) == if n == name then None else LogEntry(log, n) {
      LogEntryAfter(log, UnsetEvent(name), n);
    }
  }

  /** A name that reads as absent stays absent as long as nobody sets it. */
  lemma {:induction false} AbsentUntilSet<V>(log: seq<Event<V>>, more: seq<Event<V>>, name: string, now: int,
                                             later: int)
    requires LogGet(log, name, now) == None && now <= later
    requires forall i :: 0 <= i < |more| ==> more[i].name != name || more[i].UnsetEvent?
    ensures LogGet(log + more, name, later) == None
  {
    if more == [] {
      assert log + more == log;
    } else {
      var front, e := more[..|more| - 1], more[|more| - 1];
      AbsentUntilSet(log, front, name, now, later);
      assert log + more == (log + front) + [e];
      LogEntryAfter(log + front, e, name);
    }
  }

  class Cache<V> {
    var data: Table<V>
    const clock: Clock
    ghost var log: seq<Event<V>>

    ghost predicate Valid()
      reads this, clock
    {
      Agrees(data, log, clock.last)
    }

    constructor (clock: Clock)
      ensures Valid() && this.clock == clock && log == [] && data == map[]
    {
      this.clock := clock;
      data, log := map[], [];
    }

    /** `deleteKey` builds a new map without the listed keys. */
    method DeleteKey(m: Table<V>, delKeys: seq<string>) returns (n: Table<V>)
      ensures n == m - set k | k in delKeys
    {
      n := map[];
      var todo := m.Keys;
      while todo != {}
        invariant todo <= m.Keys
        invariant forall k :: k in n <==> k in m && k !in todo && k !in delKeys
        invariant forall k :: k in n ==> n[k] == m[k]
        decreases todo
      {
        var key :| key in todo;
        if key !in delKeys { n := n[key := m[key]]; }
        todo := todo - {key};
      }
      assert n.Keys == (m - set k | k in delKeys).Keys;
    }

    /** `clearExpiredItem` reads the clock anew for every entry. */
    method ClearExpiredItem()
      requires Valid()
      modifies this`data, clock
      ensures Valid() && old(clock.last) <= clock.last
      ensures forall k :: k in data ==> k in old(data) && data[k] == old(data)[k] && old(clock.last) <= data[k].expired
      ensures forall k :: k in old(data) && k !in data ==> old(data)[k].expired < clock.last
    {
      hide Agrees;
      var delKeys := [];
      var todo := data.Keys;
      while todo != {}
        invariant todo <= data.Keys && data == old(data) && log == old(log) && old(clock.last) <= clock.last
        invariant forall k :: k in delKeys ==> k in data && data[k].expired < clock.last
        invariant forall k :: k in data && k !in todo && k !in delKeys ==> old(clock.last) <= data[k].expired
        decreases todo
      {
        var key :| key in todo;
        var now := clock.Now();
        if now > data[key].expired { delKeys := delKeys + [key]; }
        todo := todo - {key};
      }
      EvictKeepsAgreement(data, log, old(clock.last), (set k | k in delKeys), clock.last);
      data := DeleteKey(data, delKeys);
    }

    method Set(name: string, obj: V, ttl: Option<int>)
      requires Valid()
      modifies this, clock
      ensures Valid() && old(clock.last) <= clock.last
      ensures var duration := if ttl.Some? then ttl.value else DEFAULT_DURATION;
              log == old(log) + [SetEvent(name, CachedObject(obj, clock.last, clock.last + duration))]
    {
      hide Agrees;
      ClearExpiredItem();
      ghost var t := clock.last;
      var now := clock.Now();
      EvictKeepsAgreement(data, log, t, {}, now);
      assert data - {} == data;
      var o := CachedObject(obj, now, now + if ttl.Some? then ttl.value else DEFAULT_DURATION);
      SetKeepsAgreement(data, log, now, name, o);
      data := data[name := o];
      log := log + [SetEvent(name, o)];
    }

    method Unset(name: string)
      requires Valid()
      modifies this
      ensures Valid() && log == old(log) + [UnsetEvent(name)]
    {
      hide Agrees;
      UnsetKeepsAgreement(data, log, clock.last, name);
      assert {name} == set k | k in [name];
      data := DeleteKey(data, [name]);
      log := log + [UnsetEvent(name)];
    }

    /** Every lookup answers what the never-evicting log would. */
    method Get(name: string) returns (r: Option<V>)
      requires Valid()
      modifies clock
      ensures Valid() && old(clock.last) <= clock.last
      ensures r == LogGet(log, name, clock.last)
    {
      hide Agrees;
      var now := clock.Now();
      EvictKeepsAgreement(data, log, old(clock.last), {}, now);
      assert data - {} == data;
      LookupsAgree(data, log, now, name, now);
      if name !in data { return None; }
      if now > data[name].expired { return None; }
      return Some(data[name].raw);
    }
  }
}
