/** The advisory cache: what it forgets when it is full, and how long a failed read waits. */
module AdvisoryCaches {
  import opened Prelude

  type Key = string

  // Seconds.
  const RETRY := 300
  const RETRY_MAX := 1800
  const DEFAULT_MAX := 5000

  function Pow2(n: nat): nat {
    if n == 0 then 1 else 2 * Pow2(n - 1)
  }

  /** Retry << min(max(failures-1, 0), 6), capped: the shift stays small however many reads failed. */
  function Backoff(failures: int): int {
    Min(RETRY * Pow2(Min(Max(failures - 1, 0), 6)), RETRY_MAX)
  }

  lemma {:induction false} Pow2Grows(m: nat, n: nat)
    requires m <= n
    ensures Pow2(m) <= Pow2(n)
    decreases n - m
  {
    if m < n {
      Pow2Grows(m + 1, n);
    }
  }

  /** The clamp changes nothing: the wait doubles with every failure until it reaches the cap. */
  lemma BackoffDoubles(failures: nat)
    requires failures >= 1
    ensures Backoff(failures) == Min(RETRY * Pow2(failures - 1), RETRY_MAX)
  {
    assert Pow2(3) == 8 && Pow2(6) == 64;
    if failures > 7 {
      Pow2Grows(6, failures - 1);
    }
  }

  /** An answer, and until when it is fresh. `E` is whatever shape the source needs. */
  datatype Slot<E> = Slot(value: E, expires: int)

  /** A time until which the source still has a use for an entry. */
  type Hold<!E> = E -> int

  /** An entry eviction keeps while it can: fresh still, or held. */
  predicate Live<E>(s: Slot<E>, hold: Hold<E>, now: int) {
    now < s.expires || now < hold(s.value)
  }

  /** What a write must leave: `before` with `key` set to `slot`, and no more than `limit` entries. */
  ghost predicate Evicted<E>(full: map<Key, Slot<E>>, after: map<Key, Slot<E>>, key: Key, hold: Hold<E>, now: int, limit: nat) {
    && key in after && (forall k | k in after :: k in full && after[k] == full[k])
    && |after| <= limit
    // What is spent goes, and a live entry only as far as the limit asks.
    && (forall k | k in after :: k == key || Live(full[k], hold, now))
    && ((exists k | k in full && k !in after :: Live(full[k], hold, now)) ==> |after| == limit)
  }

  /**
   * As long as what is still fresh or held fits, with the entry just written, exactly that is kept;
   * otherwise the table is left full.
   */
  lemma KeptIff<E>(full: map<Key, Slot<E>>, after: map<Key, Slot<E>>, key: Key, hold: Hold<E>, now: int, limit: nat)
    requires Evicted(full, after, key, hold, now, limit) && key in full
    ensures var wanted := set k | k in full && (k == key || now < full[k].expires || now < hold(full[k].value));
      if |wanted| <= limit then after.Keys == wanted else |after| == limit && after.Keys <= wanted
  {
    var wanted := set k | k in full && (k == key || now < full[k].expires || now < hold(full[k].value));
    assert |after| == |after.Keys|;
    if after.Keys != wanted {
      var k :| k in wanted && k !in after;
      Smaller(after.Keys, wanted, k);
    }
  }

  lemma Smaller(a: set<Key>, b: set<Key>, k: Key)
    requires a <= b && k in b && k !in a
    ensures |a| < |b|
  {
    assert |b| == |a| + |b - a|;
    assert k in b - a;
  }

  lemma Fewer<E>(m: map<Key, E>, k: Key)
    requires k in m
    ensures |m - {k}| == |m| - 1
  {
    assert (m - {k}).Keys == m.Keys - {k};
    assert |m| == |m.Keys| && |m - {k}| == |(m - {k}).Keys|;
  }

  lemma OnlyKey<E>(m: map<Key, E>, key: Key)
    requires key in m && forall k | k in m :: k == key
    ensures |m| == 1
  {
    assert m.Keys == {key};
    assert |m| == |m.Keys|;
  }

  class Cache<E> {
    const limit: nat
    const hold: Hold<E>
    var entries: map<Key, Slot<E>>
    /** What was last stored under each key. */
    ghost var stored: map<Key, E>

    /** Every entry is the last thing stored under its key, and there are no more than the limit. */
    ghost predicate Valid()
      reads this
    {
      && 0 < limit && |entries| <= limit
      && forall k | k in entries :: k in stored && entries[k].value == stored[k]
    }

    constructor (max: nat, hold: Hold<E>)
      ensures Valid() && entries == map[] && stored == map[]
      ensures limit == (if max == 0 then DEFAULT_MAX else max) && this.hold == hold
    {
      limit := if max == 0 then DEFAULT_MAX else max;
      this.hold := hold;
      entries, stored := map[], map[];
    }

    /** An expired entry is returned too, to fall back on; never anything but what was last stored. */
    method Get(key: Key, now: int) returns (e: Option<E>, live: bool)
      requires Valid()
      ensures e.Some? <==> key in entries
      ensures e.Some? ==> key in stored && e.value == stored[key]
      ensures live <==> key in entries && now < entries[key].expires
    {
      if key in entries {
        e, live := Some(entries[key].value), now < entries[key].expires;
      } else {
        e, live := None, false;
      }
    }

    method Put(key: Key, e: E, ttl: int, now: int)
      requires Valid()
      modifies this
      ensures Valid() && stored == old(stored)[key := e]
      ensures key in entries && entries[key] == Slot(e, now + ttl)
      ensures var full := old(entries)[key := Slot(e, now + ttl)];
              if |full| <= limit then entries == full else Evicted(full, entries, key, hold, now, limit)
    {
      entries := entries[key := Slot(e, now + ttl)];
      stored := stored[key := e];
      if |entries| > limit {
        Evict(key, now);
      }
    }

    /** Update: replaces the entry with what `make` makes of the old one. */
    method Update(key: Key, make: Option<E> -> (E, int), now: int)
      requires Valid()
      modifies this
      ensures Valid()
      ensures var (e, ttl) := make(if key in old(entries) then Some(old(entries)[key].value) else None);
              && stored == old(stored)[key := e] && key in entries && entries[key] == Slot(e, now + ttl)
              && var full := old(entries)[key := Slot(e, now + ttl)];
              if |full| <= limit then entries == full else Evicted(full, entries, key, hold, now, limit)
    {
      var (e, ttl) := make(if key in entries then Some(entries[key].value) else None);
      Put(key, e, ttl, now);
    }

    /** evict: the spent entries go, then others if need be. */
    method Evict(keep: Key, now: int)
      requires 0 < limit && keep in entries
      modifies this`entries
      ensures Evicted(old(entries), entries, keep, hold, now, limit)
    {
      DropSpent(keep, now);
      ghost var spent := entries;
      var all := entries.Keys;
      while all != {} && |entries| > limit
        invariant keep in entries && all <= spent.Keys
        invariant forall k | k in entries :: k in spent && entries[k] == spent[k]
        invariant forall k | k in entries :: k in all || k == keep
        invariant spent != entries ==> |entries| >= limit
        decreases |all|
      {
        var k :| k in all;
        if k != keep {
          if k in entries {
            Fewer(entries, k);
          }
          entries := entries - {k};
        }
        all := all - {k};
      }
      if all == {} {
        OnlyKey(entries, keep);
      }
    }

    /** The first sweep: every entry that has expired and is not held, but for the one just written. */
    method DropSpent(keep: Key, now: int)
      requires keep in entries
      modifies this`entries
      ensures forall k :: k in entries <==> k in old(entries) && (k == keep || Live(old(entries)[k], hold, now))
      ensures forall k | k in entries :: entries[k] == old(entries)[k]
    {
      ghost var was := entries;
      var all := entries.Keys;
      while all != {}
        invariant all <= was.Keys
        invariant forall k :: k in entries <==> k in was && (k in all || k == keep || Live(was[k], hold, now))
        invariant forall k | k in entries :: entries[k] == was[k]
        decreases |all|
      {
        var k :| k in all;
        var s := entries[k];
        if k != keep && !(now < s.expires) && !(now < hold(s.value)) {
          entries := entries - {k};
        }
        all := all - {k};
      }
    }
  }
}
