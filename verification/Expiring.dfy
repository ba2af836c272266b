/** Stores whose entries run out: the idempotency and nonce stores of the gateway, in memory and on
    file. Times are nanoseconds of a clock that never goes back. */
module Expiring {
  import opened Common

  datatype Slot<+V> = Slot(value: V, deadline: int)

  /** Whether an entry still counts at the very instant of its deadline: a receipt does, a nonce
      does not. */
  datatype Rule = Inclusive | Exclusive

  predicate Live(rule: Rule, deadline: int, now: int) {
    if rule == Inclusive then now <= deadline else now < deadline
  }

  function Lookup<V>(m: map<string, Slot<V>>, rule: Rule, key: string, now: int): Option<V> {
    if key in m && Live(rule, m[key].deadline, now) then Some(m[key].value) else None
  }

  /** Background cleanup drops what is strictly past its deadline, under either rule. */
  function Swept<V>(m: map<string, Slot<V>>, now: int): map<string, Slot<V>> {
    map k | k in m && now <= m[k].deadline :: m[k]
  }

  /** A restart reads back what was on file and still counts. */
  function Reloaded<V>(m: map<string, Slot<V>>, rule: Rule, now: int): map<string, Slot<V>> {
    map k | k in m && Live(rule, m[k].deadline, now) :: m[k]
  }

  datatype Event<+V> =
    | Put(key: string, slot: Slot<V>, now: int)
    | Sweep(now: int)
    | Reload(now: int)

  function After<V>(m: map<string, Slot<V>>, rule: Rule, e: Event<V>): map<string, Slot<V>> {
    match e
    case Put(key, slot, _) => m[key := slot]
    case Sweep(now) => Swept(m, now)
    case Reload(now) => Reloaded(m, rule, now)
  }

  function Run<V>(rule: Rule, es: seq<Event<V>>): map<string, Slot<V>> {
    if es == [] then map[] else After(Run(rule, es[..|es| - 1]), rule, es[|es| - 1])
  }

  /** The reference: a history of writes that nothing ever cleans. */
  function Latest<V>(es: seq<Event<V>>, key: string): Option<Slot<V>> {
    if es == [] then None
    else
      var last := es[|es| - 1];
      if last.Put? && last.key == key then Some(last.slot) else Latest(es[..|es| - 1], key)
  }

  function Answer<V>(es: seq<Event<V>>, rule: Rule, key: string, now: int): Option<V> {
    match Latest(es, key)
    case None => None
    case Some(slot) => if Live(rule, slot.deadline, now) then Some(slot.value) else None
  }

  ghost predicate InOrder<V>(es: seq<Event<V>>) {
    forall i, j :: 0 <= i < j < |es| ==> es[i].now <= es[j].now
  }

  /** A key the store lost had run out by the time of the last event. */
  lemma {:induction false} StoreOrDead<V>(rule: Rule, es: seq<Event<V>>, key: string)
    requires InOrder(es)
    ensures var m := Run(rule, es);
            if key in m then Latest(es, key) == Some(m[key])
            else Latest(es, key) == None
                 || (es != [] && !Live(rule, Latest(es, key).value.deadline, es[|es| - 1].now))
  {
    if es != [] {
      var init := es[..|es| - 1];
      StoreOrDead(rule, init, key);
      assert init != [] ==> init[|init| - 1].now <= es[|es| - 1].now;
    }
  }

  /** Cleanup and restarts are invisible: any interleaving of them with writes answers every query
      as the untouched history of writes would. */
  lemma CleanupIsInvisible<V>(rule: Rule, es: seq<Event<V>>, key: string, now: int)
    requires InOrder(es) && forall e :: e in es ==> e.now <= now
    ensures Lookup(Run(rule, es), rule, key, now) == Answer(es, rule, key, now)
  {
    StoreOrDead(rule, es, key);
    if es != [] { assert es[|es| - 1] in es; }
  }

  function Puts<V>(es: seq<Event<V>>): seq<Event<V>> {
    if es == [] then []
    else Puts(es[..|es| - 1]) + if es[|es| - 1].Put? then [es[|es| - 1]] else []
  }

  lemma {:induction false} LatestOfPuts<V>(es: seq<Event<V>>, key: string)
    ensures Latest(es, key) == Latest(Puts(es), key)
  {
    if es != [] {
      var init, last := es[..|es| - 1], es[|es| - 1];
      LatestOfPuts(init, key);
      if last.Put? {
        assert Puts(es)[..|Puts(es)| - 1] == Puts(init);
      } else {
        assert Puts(es) == Puts(init);
      }
    }
  }

  /** Two stores given the same writes are observationally equal, whatever was cleaned or reloaded
      when: the in-memory store and the file-backed one, for instance. */
  lemma SameWritesSameAnswers<V>(rule: Rule, es: seq<Event<V>>, fs: seq<Event<V>>, key: string, now: int)
    requires InOrder(es) && InOrder(fs)
    requires (forall e :: e in es ==> e.now <= now) && (forall e :: e in fs ==> e.now <= now)
    requires Puts(es) == Puts(fs)
    ensures Lookup(Run(rule, es), rule, key, now) == Lookup(Run(rule, fs), rule, key, now)
  {
    CleanupIsInvisible(rule, es, key, now);
    CleanupIsInvisible(rule, fs, key, now);
    LatestOfPuts(es, key);
    LatestOfPuts(fs, key);
  }

  /******* The stores *******/

  class IdempotencyStore<R> {
    var entries: map<string, Slot<R>>
    const ttl: int

    constructor (ttl: int)
      ensures this.ttl == ttl && entries == map[]
    {
      this.ttl := ttl;
      entries := map[];
    }

    method Store(key: string, receipt: R, now: int)
      modifies this`entries
      ensures entries == After(old(entries), Inclusive, Put(key, Slot(receipt, now + ttl), now))
    {
      entries := entries[key := Slot(receipt, now + ttl)];
    }

    method Get(key: string, now: int) returns (r: Option<R>)
      ensures r == Lookup(entries, Inclusive, key, now)
    {
      if key !in entries {
        return None;
      }
      var entry := entries[key];
      if now > entry.deadline {
        return None;
      }
      return Some(entry.value);
    }

    method Cleanup(now: int)
      modifies this`entries
      ensures entries == After(old(entries), Inclusive, Sweep(now))
    {
      var unseen := entries.Keys;
      while unseen != {}
        invariant unseen <= old(entries).Keys
        invariant entries == map k | k in old(entries) && (k in unseen || now <= old(entries)[k].deadline)
                               :: old(entries)[k]
        decreases unseen
      {
        var key :| key in unseen;
        unseen := unseen - {key};
        if now > entries[key].deadline {
          entries := entries - {key};
        }
      }
    }
  }

  /** The file-backed store: `disk` is what is on file once pending writes are done. */
  class FileIdempotencyStore<R> {
    var entries: map<string, Slot<R>>
    var disk: map<string, Slot<R>>
    const ttl: int

    ghost predicate Written()
      reads this
    {
      disk == entries
    }

    constructor (ttl: int)
      ensures this.ttl == ttl && entries == map[] && Written()
    {
      this.ttl := ttl;
      entries, disk := map[], map[];
    }

    method Store(key: string, receipt: R, now: int)
      requires Written()
      modifies this
      ensures Written() && entries == After(old(entries), Inclusive, Put(key, Slot(receipt, now + ttl), now))
    {
      entries := entries[key := Slot(receipt, now + ttl)];
      disk := disk[key := Slot(receipt, now + ttl)];
    }

    method Get(key: string, now: int) returns (r: Option<R>)
      ensures r == Lookup(entries, Inclusive, key, now)
    {
      if key !in entries {
        return None;
      }
      var entry := entries[key];
      if now > entry.deadline {
        return None;
      }
      return Some(entry.value);
    }

    method Cleanup(now: int)
      requires Written()
      modifies this
      ensures Written() && entries == After(old(entries), Inclusive, Sweep(now))
    {
      var unseen := entries.Keys;
      while unseen != {}
        invariant unseen <= old(entries).Keys && Written()
        invariant entries == map k | k in old(entries) && (k in unseen || now <= old(entries)[k].deadline)
                               :: old(entries)[k]
        decreases unseen
      {
        var key :| key in unseen;
        unseen := unseen - {key};
        if now > entries[key].deadline {
          entries := entries - {key};
          disk := disk - {key};
        }
      }
    }

    /** A new process reads the files, deleting the expired ones. */
    method LoadAll(now: int)
      requires Written()
      modifies this
      ensures Written() && entries == After(old(entries), Inclusive, Reload(now))
    {
      entries := map[];
      var unread := disk.Keys;
      while unread != {}
        invariant unread <= old(disk).Keys
        invariant entries == map k | k in old(disk) && k !in unread && now <= old(disk)[k].deadline :: old(disk)[k]
        invariant disk == map k | k in old(disk) && (k in unread || now <= old(disk)[k].deadline) :: old(disk)[k]
        decreases unread
      {
        var key :| key in unread;
        unread := unread - {key};
        var e := disk[key];
        if now > e.deadline {
          disk := disk - {key};
          continue;
        }
        entries := entries[key := e];
      }
    }
  }

  /** The nonce store keeps the time a nonce was added; its slots are those times plus the window. */
  function SlotsOf(nonces: map<string, int>, window: int): map<string, Slot<()>> {
    map k | k in nonces :: Slot((), nonces[k] + window)
  }

  /** Nonces that cleanup keeps, and that a restart reads back from a file. */
  function NoncesKept(nonces: map<string, int>, window: int, at: int): map<string, int> {
    map k | k in nonces && at - nonces[k] <= window :: nonces[k]
  }

  function NoncesRead(nonces: map<string, int>, window: int, at: int): map<string, int> {
    map k | k in nonces && at - nonces[k] < window :: nonces[k]
  }

  /** For the slots this is cleanup and reload. */
  lemma NonceMapsAreSlots(nonces: map<string, int>, window: int, at: int)
    ensures SlotsOf(NoncesKept(nonces, window, at), window) == Swept(SlotsOf(nonces, window), at)
    ensures SlotsOf(NoncesRead(nonces, window, at), window) == Reloaded(SlotsOf(nonces, window), Exclusive, at)
  {
  }

  class NonceStore {
    var nonces: map<string, int>
    const window: int

    ghost function Slots(): map<string, Slot<()>>
      reads this
    {
      SlotsOf(nonces, window)
    }

    constructor (window: int)
      ensures this.window == window && nonces == map[]
    {
      this.window := window;
      nonces := map[];
    }

    method Add(nonce: string, timestamp: int, ghost now: int)
      modifies this`nonces
      ensures nonces == old(nonces)[nonce := timestamp]
      ensures Slots() == After(old(Slots()), Exclusive, Put(nonce, Slot((), timestamp + window), now))
    {
      nonces := nonces[nonce := timestamp];
    }

    method Exists(nonce: string, now: int) returns (found: bool)
      ensures found <==> Lookup(Slots(), Exclusive, nonce, now).Some?
    {
      if nonce !in nonces {
        return false;
      }
      return now - nonces[nonce] < window;
    }

    method Cleanup(now: int)
      modifies this`nonces
      ensures nonces == NoncesKept(old(nonces), window, now)
      ensures Slots() == After(old(Slots()), Exclusive, Sweep(now))
    {
      var unseen := nonces.Keys;
      while unseen != {}
        invariant unseen <= old(nonces).Keys
        invariant nonces == map k | k in old(nonces) && (k in unseen || now - old(nonces)[k] <= window)
                              :: old(nonces)[k]
        decreases unseen
      {
        var nonce :| nonce in unseen;
        unseen := unseen - {nonce};
        if now - nonces[nonce] > window {
          nonces := nonces - {nonce};
        }
      }
      assert nonces == NoncesKept(old(nonces), window, now);
      NonceMapsAreSlots(old(nonces), window, now);
    }

    /** A new process reads what was last written, which may lack nonces of the old one. */
    method LoadAll(snapshot: map<string, int>, now: int)
      modifies this`nonces
      ensures nonces == NoncesRead(snapshot, window, now)
      ensures Slots() == After(SlotsOf(snapshot, window), Exclusive, Reload(now))
    {
      nonces := map[];
      var unread := snapshot.Keys;
      while unread != {}
        invariant unread <= snapshot.Keys
        invariant nonces == map k | k in snapshot && k !in unread && now - snapshot[k] < window :: snapshot[k]
        decreases unread
      {
        var nonce :| nonce in unread;
        unread := unread - {nonce};
        if now - snapshot[nonce] < window {
          nonces := nonces[nonce := snapshot[nonce]];
        }
      }
      assert nonces == NoncesRead(snapshot, window, now);
      NonceMapsAreSlots(snapshot, window, now);
    }
  }
}
