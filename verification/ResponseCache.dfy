/** The bounded in-memory response cache with expiry (caching_middleware.go), against a log of every Set. */
module ResponseCache {
  import opened Options

  /** Instants in nanoseconds; None is the zero time of an entry that never expires. */
  datatype Entry<V> = Entry(resp: V, expires: Option<int>)

  datatype Write<V> = Write(key: string, resp: V, at: int)

  // ---- The write log ----

  /** The position of the latest write to `key`. */
  ghost function Last<V>(log: seq<Write<V>>, key: string): (p: Option<nat>)
    ensures p.Some? ==> p.value < |log| && log[p.value].key == key
    ensures forall i | 0 <= i < |log| && log[i].key == key :: p.Some? && i <= p.value
  {
    if log == [] then None
    else if log[|log| - 1].key == key then Some(|log| - 1)
    else Last(log[..|log| - 1], key)
  }

  /** The keys that can have pushed out write `p`: the other keys written at its instant or later, or, as nothing
      expires without a lifetime, all other keys. */
  ghost function Rivals<V>(log: seq<Write<V>>, p: nat, ttl: int): set<string>
    requires p < |log|
  {
    set i | 0 <= i < |log| && log[i].key != log[p].key && (ttl > 0 ==> log[i].at >= log[p].at) :: log[i].key
  }

  /** The clock has reached every write. */
  ghost predicate UpTo<V>(log: seq<Write<V>>, clock: int) {
    forall i | 0 <= i < |log| :: log[i].at <= clock
  }

  lemma LastAppend<V>(log: seq<Write<V>>, w: Write<V>, key: string)
    ensures Last(log + [w], key) == if key == w.key then Some(|log|) else Last(log, key)
  {
    assert (log + [w])[..|log|] == log;
  }

  lemma RivalsAppend<V>(log: seq<Write<V>>, w: Write<V>, p: nat, ttl: int)
    requires p < |log|
    ensures Rivals(log, p, ttl) <= Rivals(log + [w], p, ttl)
    ensures w.key != log[p].key && (ttl > 0 ==> w.at >= log[p].at) ==> w.key in Rivals(log + [w], p, ttl)
  {
    var more := log + [w];
    assert more[|log|] == w;
    forall k | k in Rivals(log, p, ttl) ensures k in Rivals(more, p, ttl) {
      var i :| 0 <= i < |log| && log[i].key == k && log[i].key != log[p].key && (ttl > 0 ==> log[i].at >= log[p].at);
      assert more[i] == log[i];
    }
  }

  // ---- Rivals when write times increase ----

  /** The distinct keys written after position `p`. */
  ghost function KeysAfter<V>(log: seq<Write<V>>, p: nat): set<string> {
    set i | p < i < |log| :: log[i].key
  }

  ghost predicate Increasing<V>(log: seq<Write<V>>) {
    forall i, j | 0 <= i < j < |log| :: log[i].at < log[j].at
  }

  /** With strictly increasing write times only keys written later are rivals. */
  lemma IncreasingRivals<V>(log: seq<Write<V>>, p: nat, ttl: int)
    requires p < |log| && ttl > 0 && Increasing(log)
    ensures Rivals(log, p, ttl) == KeysAfter(log, p) - {log[p].key}
  {
    forall k | k in KeysAfter(log, p) && k != log[p].key ensures k in Rivals(log, p, ttl) {
      var i :| p < i < |log| && log[i].key == k;
      assert log[i].at >= log[p].at;
    }
  }

  lemma {:induction false} CardinalityMonotone(a: set<string>, b: set<string>)
    requires a <= b
    ensures |a| <= |b|
  {
    if a != {} {
      var x :| x in a;
      CardinalityMonotone(a - {x}, b - {x});
    }
  }

  /** The victim of an eviction comes no later than `other`; an entry that never expires comes last. */
  predicate NoLater(victim: Option<int>, other: Option<int>) {
    other.None? || (victim.Some? && victim.value <= other.value)
  }

  function Expiry(ttl: int, at: int): Option<int> {
    if ttl > 0 then Some(at + ttl) else None
  }

  // ---- What the log says about the entries ----

  /** An entry present is the latest write to its key. */
  ghost predicate Latest<V>(entries: map<string, Entry<V>>, log: seq<Write<V>>, ttl: int) {
    forall k | k in entries ::
      Last(log, k).Some? && var w := log[Last(log, k).value]; entries[k] == Entry(w.resp, Expiry(ttl, w.at))
  }

  /** Why a written key may be missing: its lifetime is over, or it has as many rivals as the cache has room. */
  ghost predicate Excused<V>(log: seq<Write<V>>, p: nat, clock: int, ttl: int, maxEntries: int)
    requires p < |log|
  {
    || (ttl > 0 && clock >= log[p].at + ttl)
    || (maxEntries > 0 && |Rivals(log, p, ttl)| >= maxEntries)
  }

  /** With a lifetime and strictly increasing write times: an unexpired key is not excused while fewer than maxEntries
      other keys were set since. */
  lemma FewSetSince<V>(log: seq<Write<V>>, p: nat, clock: int, ttl: int, maxEntries: int)
    requires p < |log| && ttl > 0 && Increasing(log)
    ensures Excused(log, p, clock, ttl, maxEntries) <==>
      clock >= log[p].at + ttl || (maxEntries > 0 && |KeysAfter(log, p) - {log[p].key}| >= maxEntries)
  {
    IncreasingRivals(log, p, ttl);
  }

  ghost predicate Retained<V>(entries: map<string, Entry<V>>, log: seq<Write<V>>, clock: int, ttl: int,
                              maxEntries: int) {
    forall k | Last(log, k).Some? && k !in entries :: Excused(log, Last(log, k).value, clock, ttl, maxEntries)
  }

  /** How an eviction shrinks the map: every expired entry goes, and one entry that expires no later than all others
      if that makes no room. */
  ghost predicate Evicted<V>(before: map<string, Entry<V>>, after: map<string, Entry<V>>, now: int, maxEntries: int) {
    && (forall k | k in after :: k in before && after[k] == before[k])
    && (forall k | k in after :: !Stale(after[k], now))
    && |after| < maxEntries
    && ((forall k | k in before && k !in after :: Stale(before[k], now))
        || exists v :: Victim(before, after, v, now, maxEntries))
  }

  predicate Stale<V>(e: Entry<V>, now: int) {
    e.expires.Some? && now > e.expires.value
  }

  ghost predicate Victim<V>(before: map<string, Entry<V>>, after: map<string, Entry<V>>, v: string, now: int,
                            maxEntries: int) {
    && v in before && v !in after && |after| == maxEntries - 1
    && (forall k | k in after && k in before :: NoLater(before[v].expires, before[k].expires))
    && (forall k | k in before && k !in after && k != v :: Stale(before[k], now))
  }

  /** An entry that expires no earlier than another is a rival of it. */
  lemma LaterIsRival<V>(entries: map<string, Entry<V>>, log: seq<Write<V>>, ttl: int, v: string, k: string)
    requires Latest(entries, log, ttl) && v in entries && k in entries && k != v
    requires NoLater(entries[v].expires, entries[k].expires)
    ensures Last(log, v).Some? && k in Rivals(log, Last(log, v).value, ttl)
  {
    var p, q := Last(log, v).value, Last(log, k).value;
    assert ttl > 0 ==> log[p].at <= log[q].at;
    assert log[q].key == k;
  }

  /** An evicted victim is excused: every entry that stays, and the key being set, is a rival of it. */
  lemma VictimExcused<V>(before: map<string, Entry<V>>, after: map<string, Entry<V>>, v: string, now: int,
                         log: seq<Write<V>>, w: Write<V>, ttl: int, maxEntries: int)
    requires maxEntries > 0 && Latest(before, log, ttl) && Victim(before, after, v, now, maxEntries)
    requires (forall k | k in after :: k in before) && w.key !in before && UpTo(log, w.at)
    ensures Last(log, v).Some? && Excused(log + [w], Last(log, v).value, now, ttl, maxEntries)
  {
    hide Latest, Rivals;
    assert Last(log, v).Some? by { LatestHas(before, log, ttl, v); }
    var p := Last(log, v).value;
    forall k | k in after ensures k in Rivals(log, p, ttl) { LaterIsRival(before, log, ttl, v, k); }
    RivalsAppend(log, w, p, ttl);
    assert |after.Keys + {w.key}| == maxEntries;
    CardinalityMonotone(after.Keys + {w.key}, Rivals(log + [w], p, ttl));
  }

  lemma LatestHas<V>(entries: map<string, Entry<V>>, log: seq<Write<V>>, ttl: int, k: string)
    requires Latest(entries, log, ttl) && k in entries
    ensures Last(log, k).Some?
  {
  }

  /** A key that was excused stays so as the clock goes on and another write is logged. */
  lemma ExcusedLater<V>(log: seq<Write<V>>, p: nat, clock: int, later: int, w: Write<V>, ttl: int, maxEntries: int)
    requires p < |log| && clock <= later && Excused(log, p, clock, ttl, maxEntries)
    ensures Excused(log + [w], p, later, ttl, maxEntries)
  {
    hide Rivals;
    RivalsAppend(log, w, p, ttl);
    CardinalityMonotone(Rivals(log, p, ttl), Rivals(log + [w], p, ttl));
  }

  /** Logging a write after an eviction, or none, keeps Retained. */
  lemma SetRetains<V>(before: map<string, Entry<V>>, after: map<string, Entry<V>>, log: seq<Write<V>>, w: Write<V>,
                      clock: int, now: int, ttl: int, maxEntries: int)
    requires Latest(before, log, ttl) && Retained(before, log, clock, ttl, maxEntries) && clock <= now
    requires UpTo(log, w.at)
    requires before == after || (maxEntries > 0 && w.key !in before && Evicted(before, after, now, maxEntries))
    ensures Retained(after[w.key := Entry(w.resp, Expiry(ttl, w.at))], log + [w], now, ttl, maxEntries)
  {
    hide Rivals;
    var longer := log + [w];
    forall k | Last(longer, k).Some? && k !in after && k != w.key
      ensures Excused(longer, Last(longer, k).value, now, ttl, maxEntries)
    {
      LastAppend(log, w, k);
      var p := Last(log, k).value;
      if k !in before {
        ExcusedLater(log, p, clock, now, w, ttl, maxEntries);
      } else if !Stale(before[k], now) {
        var v :| Victim(before, after, v, now, maxEntries);
        VictimExcused(before, after, v, now, log, w, ttl, maxEntries);
      }
    }
  }

  lemma EvictedKeeps<V>(before: map<string, Entry<V>>, after: map<string, Entry<V>>, log: seq<Write<V>>, ttl: int,
                        now: int, maxEntries: int)
    requires Latest(before, log, ttl) && Evicted(before, after, now, maxEntries)
    ensures Latest(after, log, ttl) && |after| < maxEntries
    ensures forall k | k in after :: k in before && after[k] == before[k]
  {
  }

  lemma SetIsLatest<V>(entries: map<string, Entry<V>>, log: seq<Write<V>>, w: Write<V>, ttl: int)
    requires Latest(entries, log, ttl)
    ensures Latest(entries[w.key := Entry(w.resp, Expiry(ttl, w.at))], log + [w], ttl)
  {
    forall k { LastAppend(log, w, k); }
  }

  class MemoryResponseCache<V> {
    const ttl: int
    const maxEntries: int          // not positive: unbounded
    var entries: map<string, Entry<V>>
    ghost var log: seq<Write<V>>   // every Set so far
    ghost var clock: int           // the latest instant read

    ghost predicate Valid()
      reads this
    {
      && Latest(entries, log, ttl) && Retained(entries, log, clock, ttl, maxEntries)
      && (maxEntries > 0 ==> |entries| <= maxEntries) && UpTo(log, clock)
    }

    constructor (ttl: int, maxEntries: int, now: int)
      ensures Valid() && log == [] && clock == now && this.ttl == ttl && this.maxEntries == maxEntries
    {
      this.ttl, this.maxEntries := ttl, maxEntries;
      entries, log, clock := map[], [], now;
    }

    /** Get at instant `now`. A hit is the latest value set for the key, strictly inside its lifetime; and the key does
        hit while it is unexpired and has fewer rivals than the cache has room. */
    method Get(key: string, now: int) returns (r: Option<V>)
      requires Valid() && clock <= now
      modifies this`entries, this`clock
      ensures Valid() && clock == now
      ensures r.Some? ==> Last(log, key).Some? && var w := log[Last(log, key).value];
        r.value == w.resp && (ttl > 0 ==> now < w.at + ttl)
      ensures Last(log, key).Some? && !Excused(log, Last(log, key).value, now, ttl, maxEntries) ==> r.Some?
      ensures forall k | k != key ::
        (k in entries <==> k in old(entries)) && (k in entries ==> entries[k] == old(entries)[k])
    {
      hide Rivals;
      clock := now;
      if key !in entries { return None; }
      var entry := entries[key];
      if entry.expires.Some? && now >= entry.expires.value {
        entries := entries - {key};
        CardinalityMonotone(entries.Keys, old(entries).Keys);
        return None;
      }
      return Some(entry.resp);
    }

    /** Set at instant `now`; a needed eviction reads the clock again, at `later`. */
    method Set(key: string, resp: V, now: int, later: int)
      requires Valid() && clock <= now <= later
      modifies this
      ensures Valid() && log == old(log) + [Write(key, resp, now)] && clock == later
      ensures key in entries && entries[key] == Entry(resp, Expiry(ttl, now))
      ensures forall k | k in entries && k != key :: k in old(entries) && entries[k] == old(entries)[k]
    {
      hide Latest, Retained, Evicted;
      var expires := None;
      if ttl > 0 { expires := Some(now + ttl); }
      if maxEntries > 0 {
        if key !in entries && |entries| >= maxEntries {
          EvictLocked(later);
          EvictedKeeps(old(entries), entries, log, ttl, later, maxEntries);
        }
      }
      ghost var w := Write(key, resp, now);
      SetRetains(old(entries), entries, log, w, clock, later, ttl, maxEntries);
      SetIsLatest(entries, log, w, ttl);
      entries := entries[key := Entry(resp, expires)];
      log := log + [w];
      clock := later;
    }

    /** evictLocked: drop what has expired; if that frees no room, drop the earliest-expiring entry. */
    method EvictLocked(now: int)
      requires 0 < maxEntries && |entries| <= maxEntries
      modifies this`entries
      ensures Evicted(old(entries), entries, now, maxEntries)
    {
      ghost var before := entries;
      var todo := entries.Keys;
      while todo != {}
        invariant todo <= before.Keys && entries.Keys <= before.Keys && |entries| <= maxEntries
        invariant forall k | k in entries :: entries[k] == before[k]
        invariant forall k | k in before && k !in entries :: Stale(before[k], now) && k !in todo
        invariant forall k | k in entries && k !in todo :: !Stale(entries[k], now)
        decreases |todo|
      {
        var k :| k in todo;
        if Stale(entries[k], now) {
          ghost var prior := entries.Keys;
          entries := entries - {k};
          CardinalityMonotone(entries.Keys, prior);
        }
        todo := todo - {k};
      }
      ghost var kept := entries;
      while |entries| >= maxEntries
        invariant |entries| <= maxEntries
        invariant entries == kept || (|entries| == maxEntries - 1 && Evicted(before, entries, now, maxEntries))
        decreases |entries|
      {
        var evictKey := Earliest(entries);
        ghost var all := entries;
        entries := entries - {evictKey};
        assert all.Keys == entries.Keys + {evictKey};
        assert Victim(before, entries, evictKey, now, maxEntries);
      }
    }
  }

  /** The selection loop of evictLocked, over the map in any order. */
  method Earliest<V>(entries: map<string, Entry<V>>) returns (evictKey: string)
    requires |entries| > 0
    ensures evictKey in entries
    ensures forall k | k in entries :: NoLater(entries[evictKey].expires, entries[k].expires)
  {
    var todo := entries.Keys;
    var evictExp: Option<int> := None;
    var found := false;
    evictKey := "";
    while todo != {}
      invariant todo <= entries.Keys && (!found ==> todo == entries.Keys)
      invariant found ==> evictKey in entries && evictExp == entries[evictKey].expires
      invariant found ==> forall k | k in entries && k !in todo :: NoLater(evictExp, entries[k].expires)
      decreases |todo|
    {
      var k :| k in todo;
      var e := entries[k];
      if !found {
        evictKey, evictExp, found := k, e.expires, true;
      } else if e.expires.None? {
        // never expires: not preferred to an expiring candidate
      } else if evictExp.None? || e.expires.value < evictExp.value {
        evictKey, evictExp := k, e.expires;
      }
      todo := todo - {k};
    }
  }
}
