/**
 * The subscription table the three consul clients share in shape
 * (pkg/naming/consul/consul.go, naming/consul/discovery.go and
 * pkg/config/consul/consul.go): a table from key (a service, or a
 * configuration path) to an entry; an entry holds the last stored value,
 * the set of its watchers and the context of its polling goroutine; a
 * watcher's one-slot channel is a flag that is set or not.
 *
 * Goroutines and locks are left out: each method is one critical section
 * run to completion.  A `select` over several ready cases picks one of
 * them at random, so it takes the index of the case to pick.
 */
module ConsulWatch {
  import opened Wrappers

  /** What a watcher's select yields: the caller's deadline, its own close, a delivered value, or nothing ready yet. */
  datatype Received<T> = DeadlineExceeded | ClientClosed | Delivered(value: Option<T>) | Blocked

  /**
   * The select of Watch/Next: the ready cases in source order (the
   * caller's context, the watcher's own context, the event slot), the
   * `pick`-th of them (modulo their number) or Blocked when none is ready.
   */
  function Select<T>(deadline: bool, closed: bool, event: bool, value: Option<T>, pick: nat): (r: Received<T>)
    ensures r.Blocked? <==> !deadline && !closed && !event
    ensures r.DeadlineExceeded? ==> deadline
    ensures r.ClientClosed? ==> closed
    ensures r.Delivered? ==> event && r.value == value
    ensures (deadline && !closed && !event ==> r.DeadlineExceeded?)
         && (!deadline && closed && !event ==> r.ClientClosed?)
         && (!deadline && !closed && event ==> r.Delivered?)
  {
    var ready := (if deadline then [DeadlineExceeded] else [])
               + (if closed then [ClientClosed] else [])
               + (if event then [Delivered(value)] else []);
    if |ready| == 0 then Blocked else ready[pick % |ready|]
  }

  /** Every ready case is chosen for some pick. */
  lemma EveryReadyCaseChosen<T>(deadline: bool, closed: bool, event: bool, value: Option<T>)
    ensures deadline ==> Select(deadline, closed, event, value, 0).DeadlineExceeded?
    ensures closed ==> exists pick: nat :: Select(deadline, closed, event, value, pick).ClientClosed?
    ensures event ==> exists pick: nat :: Select(deadline, closed, event, value, pick).Delivered?
  {
    var d := if deadline then 1 else 0;
    var c := if closed then 1 else 0;
    if closed {
      assert Select(deadline, closed, event, value, d).ClientClosed?;
    }
    if event {
      assert Select(deadline, closed, event, value, d + c).Delivered?;
    }
  }

  /** The naming clients' prefill test: something was stored and it holds at least one instance. */
  predicate NonEmpty<T>(v: Option<seq<T>>)
  {
    v.Some? && |v.value| > 0
  }

  /** The table: consul's `discovery` map of svcInfo, or the config client's `topic` map. */
  class Hub<K(==), T> {
    var entries: map<K, Entry<K, T>>

    constructor ()
      ensures entries == map[] && Valid()
    {
      entries := map[];
    }

    /** Every entry is filed under its own key and belongs to this table. */
    predicate Valid()
      reads this, entries.Values
    {
      forall k :: k in entries ==> entries[k].key == k && entries[k].hub == this
    }

    /**
     * Subscribe: a fresh watcher joins the key's entry, which is created
     * (and starts polling) when there is none.  A watcher joining an
     * existing entry has its slot filled at once iff `prefill` holds of
     * the entry's stored value; a watcher creating the entry starts empty.
     */
    method Join(key: K, prefill: Option<T> -> bool) returns (w: Watcher<K, T>)
      requires Valid()
      modifies this, entries.Values
      ensures Valid()
      ensures fresh(w) && !w.closed && key in entries && w.entry == entries[key] && w.entry.key == key
      ensures old(key in entries) ==>
        && entries == old(entries) && w.entry == old(entries[key])
        && w.entry.watchers == old(entries[key].watchers) + {w}
        && w.event == prefill(old(entries[key].value))
        && w.entry.value == old(entries[key].value) && w.entry.polling == old(entries[key].polling)
      ensures !old(key in entries) ==>
        && fresh(w.entry) && entries == old(entries)[key := w.entry]
        && w.entry.watchers == {w} && !w.event && w.entry.value == None && w.entry.polling
      ensures forall k :: k in old(entries) && k != key ==> unchanged(old(entries[k]))
    {
      var e: Entry<K, T>;
      var joined := key in entries;
      if joined {
        e := entries[key];
      } else {
        e := new Entry(key, this);
        entries := entries[key := e];
      }
      w := new Watcher(e);
      if joined && prefill(e.value) {
        w.event := true;
      }
      e.watchers := e.watchers + {w};
    }

    /**
     * Fetch/GetService: whether the key has an entry and, if so, its stored
     * value; an unknown key gets an entry (which starts polling).
     */
    method Lookup(key: K) returns (known: bool, value: Option<T>)
      requires Valid()
      modifies this
      ensures Valid()
      ensures known == old(key in entries)
      ensures known ==> key in entries && value == entries[key].value && entries == old(entries)
      ensures !known ==>
        && value == None && key in entries && fresh(entries[key])
        && entries == old(entries)[key := entries[key]]
        && entries[key].watchers == {} && entries[key].value == None && entries[key].polling
    {
      known := key in entries;
      if known {
        value := entries[key].value;
      } else {
        var e := new Entry(key, this);
        entries := entries[key := e];
        value := None;
      }
    }
  }

  /** One key's entry: svcInfo or Topic. */
  class Entry<K(==), T> {
    const key: K
    const hub: Hub<K, T>
    /** The atomic.Value: None until the first Store. */
    var value: Option<T>
    var watchers: set<Watcher<K, T>>
    /** The polling goroutine's context has not been cancelled. */
    var polling: bool

    constructor (key: K, hub: Hub<K, T>)
      ensures this.key == key && this.hub == hub && value == None && watchers == {} && polling
    {
      this.key := key;
      this.hub := hub;
      value := None;
      watchers := {};
      polling := true;
    }

    /**
     * broadcast: store the value, then fill the slot of every watcher of
     * the entry (a slot that is already full stays full).
     */
    method Broadcast(v: T)
      modifies this, watchers
      ensures value == Some(v) && watchers == old(watchers) && polling == old(polling)
      ensures forall w :: w in watchers ==> w.event && w.closed == old(w.closed)
    {
      value := Some(v);
      var rest := watchers;
      while rest != {}
        invariant rest <= watchers
        invariant value == Some(v) && watchers == old(watchers) && polling == old(polling)
        invariant forall w :: w in watchers ==> w.closed == old(w.closed)
        invariant forall w :: w in watchers - rest ==> w.event
        decreases rest
      {
        var w :| w in rest;
        w.event := true;
        rest := rest - {w};
      }
    }
  }

  /** A subscriber: its entry, its one-slot channel and its own context. */
  class Watcher<K(==), T> {
    const entry: Entry<K, T>
    /** The one-slot event channel holds a token. */
    var event: bool
    /** The watcher's own context has been cancelled (by Close/Stop). */
    var closed: bool

    constructor (entry: Entry<K, T>)
      ensures this.entry == entry && !event && !closed
    {
      this.entry := entry;
      event := false;
      closed := false;
    }

    /**
     * The select of Watch (and of Next, with no caller deadline): one ready
     * case, chosen by `pick`.  Receiving the event takes the token out of
     * the slot and yields the entry's stored value.
     */
    method Receive(deadline: bool, pick: nat) returns (r: Received<T>)
      modifies this
      ensures r == Select(deadline, old(closed), old(event), entry.value, pick)
      ensures closed == old(closed)
      ensures event == (old(event) && !r.Delivered?)
    {
      r := Select(deadline, closed, event, entry.value, pick);
      if r.Delivered? {
        event := false;
      }
    }

    /**
     * Close/Stop: nothing when already closed; otherwise cancel the
     * watcher's context and leave the entry, and when it was the last
     * watcher remove the entry from the table and cancel its polling.
     */
    method Close()
      requires entry.hub.Valid()
      modifies this, entry, entry.hub
      ensures entry.hub.Valid()
      ensures closed && event == old(event)
      ensures entry.value == old(entry.value)
      ensures old(closed) ==>
        && entry.watchers == old(entry.watchers) && entry.polling == old(entry.polling)
        && entry.hub.entries == old(entry.hub.entries)
      ensures !old(closed) ==> entry.watchers == old(entry.watchers) - {this}
      ensures !old(closed) && entry.watchers == {} ==>
        entry.hub.entries == old(entry.hub.entries) - {entry.key} && !entry.polling
      ensures !old(closed) && entry.watchers != {} ==>
        entry.hub.entries == old(entry.hub.entries) && entry.polling == old(entry.polling)
    {
      if closed {
        return;
      }
      closed := true;
      entry.watchers := entry.watchers - {this};
      if entry.watchers == {} {
        entry.hub.entries := entry.hub.entries - {entry.key};
        entry.polling := false;
      }
    }
  }
}
