/**
  The string store of package datastructures (datastructure/string.go):
  a map from keys to entries carrying a value, a creation instant and an
  expiry instant, with Set, Get, Delete, Increment, Keys and one pass of
  the background sweeper.

  Instants are integers (nanoseconds on one clock) and the clock reading
  of each call is its parameter `now`. ZeroTime stands for Go's zero
  time.Time (January 1 of year 1), which Increment stores as "no
  expiration". Every clock reading, and every reading plus a Duration,
  lies after it: a Duration spans at most about 292 years. The
  operations require this of their instants (ClockReading).
 */
module Datastructures {
  import opened DecimalText

  /** Go's zero time.Time; IsZero tests for it. */
  const ZeroTime: int := 0

  predicate IsZero(t: int) {
    t == ZeroTime
  }

  /** time.Time.After: t lies strictly later than u. */
  predicate After(t: int, u: int) {
    t > u
  }

  /** An instant time.Now() can return, or time.Now().Add(d) for a Duration d. */
  predicate ClockReading(t: int) {
    After(t, ZeroTime)
  }

  /** stringEntry */
  datatype Entry = Entry(value: string, createdAt: int, expiresAt: int)

  /** What Get returns: the value and whether it was found. */
  datatype Reply = Reply(value: string, found: bool)

  /** What Increment returns: the new number, or the non-numeric error. */
  datatype IncrementOutcome = Incremented(value: int) | NonNumericValue

  /** The store's new contents after an Increment, and the outcome. */
  datatype IncrementStep = IncrementStep(outcome: IncrementOutcome, data: map<string, Entry>)

  // ---------------------------------------------------------------------
  // The operations as functions of the map, the specification of the class
  // below.
  // ---------------------------------------------------------------------

  /** Get's lazy expiry test: the entry's expiry instant has passed. */
  predicate Expired(e: Entry, now: int) {
    After(now, e.expiresAt)
  }

  /** The sweeper's test: a non-zero expiry instant that has passed. */
  predicate Sweepable(e: Entry, now: int) {
    !IsZero(e.expiresAt) && After(now, e.expiresAt)
  }

  /** Get at instant `now`. */
  function LookupAt(data: map<string, Entry>, key: string, now: int): (r: Reply)
    requires ClockReading(now)
    ensures r.found <==> key in data && now <= data[key].expiresAt
    ensures r.found ==> r.value == data[key].value
    ensures !r.found ==> r.value == ""
  {
    if key !in data then Reply("", false)
    else if Expired(data[key], now) then Reply("", false)
    else Reply(data[key].value, true)
  }

  /** The map after Set(key, value, expiration) at instant `now`. */
  function AfterSet(data: map<string, Entry>, key: string, value: string, expiration: int, now: int): (r: map<string, Entry>)
    requires ClockReading(now) && ClockReading(now + expiration)
    // the key holds a fresh entry: the new value, stamped now, with a real expiry instant
    ensures key in r && r[key].value == value && r[key].createdAt == now
    ensures r[key].expiresAt - r[key].createdAt == expiration && !IsZero(r[key].expiresAt)
    // no other key changes
    ensures r.Keys == data.Keys + {key}
    ensures r - {key} == data - {key}
  {
    data[key := Entry(value, now, now + expiration)]
  }

  /** The map after Delete(key). */
  function AfterDelete(data: map<string, Entry>, key: string): (r: map<string, Entry>)
    ensures r.Keys == data.Keys - {key}
    ensures forall k :: k in r ==> r[k] == data[k]
  {
    data - {key}
  }

  /** Increment(key, delta) at instant `now`. */
  function AfterIncrement(data: map<string, Entry>, key: string, delta: int, now: int): (r: IncrementStep)
    requires ClockReading(now)
    // the error case: a stored value that is not integer text, and nothing changes
    ensures r.outcome == NonNumericValue <==> key in data && !IsIntText(data[key].value)
    ensures r.outcome == NonNumericValue ==> r.data == data
    // a missing key counts from zero
    ensures r.outcome.Incremented? ==>
      r.outcome.value == (if key in data then ParseInt(data[key].value).value else 0) + delta
    // the stored text is what Sprintf("%d") writes for the number returned,
    // so it reads back as that number
    ensures r.outcome.Incremented? ==>
      key in r.data && r.data[key].value == FormatInt(r.outcome.value)
    ensures r.outcome.Incremented? ==>
      key in r.data && ParseInt(r.data[key].value) == Some(r.outcome.value)
    // a new entry is stamped now and never gets an expiry instant
    ensures key !in data ==> r.data[key].createdAt == now && IsZero(r.data[key].expiresAt)
    // an existing entry keeps its stamps
    ensures key in data && r.outcome.Incremented? ==>
      r.data[key].createdAt == data[key].createdAt && r.data[key].expiresAt == data[key].expiresAt
    // no other key changes
    ensures r.data.Keys == data.Keys + {key} || r.data == data
    ensures r.data - {key} == data - {key}
  {
    if key !in data then
      ParseFormatInt(delta);
      IncrementStep(Incremented(delta), data[key := Entry(FormatInt(delta), now, ZeroTime)])
    else
      var entry := data[key];
      match ParseInt(entry.value)
      case None => IncrementStep(NonNumericValue, data)
      case Some(current) =>
        ParseFormatInt(current + delta);
        IncrementStep(Incremented(current + delta),
                      data[key := Entry(FormatInt(current + delta), entry.createdAt, entry.expiresAt)])
  }

  /** One pass of the background sweeper at instant `now`. */
  function AfterSweep(data: map<string, Entry>, now: int): (r: map<string, Entry>)
    requires ClockReading(now)
    ensures forall k :: k in r ==> k in data && r[k] == data[k]
    ensures forall k :: k in data ==> (k in r <==> !Sweepable(data[k], now))
  {
    map k | k in data && !Sweepable(data[k], now) :: data[k]
  }

  /** `keys` lists every key of `data`, each exactly once. */
  ghost predicate ListsEachKeyOnce(keys: seq<string>, data: map<string, Entry>) {
    && (forall i, j :: 0 <= i < j < |keys| ==> keys[i] != keys[j])
    && (forall k :: k in keys <==> k in data)
  }

  // ---------------------------------------------------------------------
  // The store itself.
  // ---------------------------------------------------------------------

  /**
    StringStore. The read/write lock is not modelled: each method runs as
    one atomic step, as it does under the lock.
   */
  class StringStore {
    var data: map<string, Entry>

    /** NewStringStore, without starting the sweeper goroutine. */
    constructor ()
      ensures data == map[]
    {
      data := map[];
    }

    method Set(key: string, value: string, expiration: int, now: int)
      requires ClockReading(now) && ClockReading(now + expiration)
      modifies this
      ensures data == AfterSet(old(data), key, value, expiration, now)
    {
      var entry := Entry(value, now, now + expiration);
      data := data[key := entry];
    }

    method Get(key: string, now: int) returns (value: string, found: bool)
      requires ClockReading(now)
      ensures Reply(value, found) == LookupAt(data, key, now)
    {
      if key !in data {
        return "", false;
      }
      var entry := data[key];
      if After(now, entry.expiresAt) {
        return "", false;
      }
      return entry.value, true;
    }

    method Delete(key: string) returns (removed: bool)
      modifies this
      ensures removed <==> key in old(data)
      ensures data == AfterDelete(old(data), key)
    {
      if key in data {
        data := data - {key};
        return true;
      }
      return false;
    }

    method Increment(key: string, delta: int, now: int) returns (outcome: IncrementOutcome)
      requires ClockReading(now)
      modifies this
      ensures IncrementStep(outcome, data) == AfterIncrement(old(data), key, delta, now)
    {
      if key !in data {
        var newValue := delta;
        data := data[key := Entry(FormatInt(newValue), now, ZeroTime)];
        return Incremented(newValue);
      }
      var entry := data[key];
      var current := ParseInt(entry.value);
      if current.None? {
        return NonNumericValue;
      }
      var newValue := current.value + delta;
      data := data[key := Entry(FormatInt(newValue), entry.createdAt, entry.expiresAt)];
      return Incremented(newValue);
    }

    /** One wake-up of backgroundCleanup, with `now` its clock reading. */
    method Sweep(now: int)
      requires ClockReading(now)
      modifies this
      ensures data == AfterSweep(old(data), now)
    {
      var pending := data.Keys;
      while pending != {}
        invariant pending <= old(data).Keys
        invariant forall k :: k in data ==> k in old(data) && data[k] == old(data)[k]
        invariant forall k :: k in old(data) ==>
          (k in data <==> k in pending || !Sweepable(old(data)[k], now))
        decreases pending
      {
        var key :| key in pending;
        var entry := data[key];
        if !IsZero(entry.expiresAt) && After(now, entry.expiresAt) {
          data := data - {key};
        }
        pending := pending - {key};
      }
    }

    method Keys() returns (keys: seq<string>)
      ensures ListsEachKeyOnce(keys, data)
      ensures |keys| == |data|
    {
      keys := [];
      var pending := data.Keys;
      while pending != {}
        invariant pending <= data.Keys
        invariant forall i, j :: 0 <= i < j < |keys| ==> keys[i] != keys[j]
        invariant forall k :: k in keys <==> k in data && k !in pending
        invariant |keys| + |pending| == |data|
        decreases pending
      {
        var key :| key in pending;
        keys := keys + [key];
        pending := pending - {key};
      }
    }
  }

  // ---------------------------------------------------------------------
  // Properties of the operations.
  // ---------------------------------------------------------------------

  /**
    Set then Get: the key reads back the value until its expiry instant
    now + expiration has passed, and every other key reads as before.
   */
  lemma GetAfterSet(data: map<string, Entry>, key: string, value: string, expiration: int, now: int,
                    k: string, t: int)
    requires ClockReading(now) && ClockReading(now + expiration) && ClockReading(t)
    ensures LookupAt(AfterSet(data, key, value, expiration, now), k, t) ==
      if k != key then LookupAt(data, k, t)
      else if t <= now + expiration then Reply(value, true)
      else Reply("", false)
  {
  }

  /**
    Set and the sweeper agree: an entry Set stores never has the zero
    expiry instant, so a sweep removes it exactly when Get would report
    it missing.
   */
  lemma SweepAfterSet(data: map<string, Entry>, key: string, value: string, expiration: int, now: int,
                      t: int)
    requires ClockReading(now) && ClockReading(now + expiration) && ClockReading(t)
    ensures key in AfterSweep(AfterSet(data, key, value, expiration, now), t) <==>
      LookupAt(AfterSet(data, key, value, expiration, now), key, t).found
  {
  }

  /** After Delete the key reads as missing, and a second Delete finds nothing. */
  lemma GetAfterDelete(data: map<string, Entry>, key: string, k: string, t: int)
    requires ClockReading(t)
    ensures key !in AfterDelete(data, key) && AfterDelete(AfterDelete(data, key), key) == AfterDelete(data, key)
    ensures LookupAt(AfterDelete(data, key), k, t) ==
      if k == key then Reply("", false) else LookupAt(data, k, t)
  {
  }

  /**
    Two Increments in a row add both deltas to the starting number (zero
    for a missing key).
   */
  lemma IncrementTwice(data: map<string, Entry>, key: string, a: int, b: int, now1: int, now2: int)
    requires ClockReading(now1) && ClockReading(now2)
    requires key in data ==> IsIntText(data[key].value)
    ensures var first := AfterIncrement(data, key, a, now1);
            var second := AfterIncrement(first.data, key, b, now2);
            var start := if key in data then ParseInt(data[key].value).value else 0;
            first.outcome == Incremented(start + a) && second.outcome == Incremented(start + a + b)
  {
  }

  function Sum(deltas: seq<int>): int {
    if deltas == [] then 0 else Sum(deltas[..|deltas| - 1]) + deltas[|deltas| - 1]
  }

  /** The store after one Increment(key, d) per element of `deltas`, in order. */
  function IncrementEach(data: map<string, Entry>, key: string, deltas: seq<int>, now: int): IncrementStep
    requires |deltas| > 0 && ClockReading(now)
  {
    if |deltas| == 1 then AfterIncrement(data, key, deltas[0], now)
    else AfterIncrement(IncrementEach(data, key, deltas[..|deltas| - 1], now).data, key, deltas[|deltas| - 1], now)
  }

  /**
    Increments applied one after another lose no update: the last one
    returns the starting number plus the sum of all deltas.
   */
  lemma {:induction false} IncrementEachSums(data: map<string, Entry>, key: string, deltas: seq<int>, now: int)
    requires |deltas| > 0 && ClockReading(now)
    requires key in data ==> IsIntText(data[key].value)
    ensures IncrementEach(data, key, deltas, now).outcome ==
      Incremented((if key in data then ParseInt(data[key].value).value else 0) + Sum(deltas))
  {
    if |deltas| > 1 {
      var front := deltas[..|deltas| - 1];
      assert front[..|front| - 1] == deltas[..|deltas| - 2];
      IncrementEachSums(data, key, front, now);
      assert Sum(deltas) == Sum(front) + deltas[|deltas| - 1];
    } else {
      assert deltas[..0] == [];
    }
  }

  /**
    The lazy and the active expiry disagree on what Increment creates: the
    new entry has the zero expiry instant, so Get reports it as missing at
    every clock reading, while the sweeper skips it and Keys lists it.
   */
  lemma IncrementedKeyHiddenButKept(data: map<string, Entry>, key: string, delta: int, now: int,
                                    t: int, keys: seq<string>)
    requires key !in data
    requires ClockReading(now) && ClockReading(t)
    ensures var created := AfterIncrement(data, key, delta, now).data;
            && LookupAt(created, key, t) == Reply("", false)
            && key in AfterSweep(created, t)
            && (ListsEachKeyOnce(keys, AfterSweep(created, t)) ==> key in keys)
  {
  }

  /**
    A sweep at `now` changes nothing Get can see from `now` on: it removes
    only entries Get already reports as missing.
   */
  lemma GetAfterSweep(data: map<string, Entry>, now: int, k: string, t: int)
    requires ClockReading(now) && now <= t
    ensures LookupAt(AfterSweep(data, now), k, t) == LookupAt(data, k, t)
  {
  }

  /**
    Sweeping at `now` and again later is the same as sweeping once at the
    later instant; in particular a second sweep at the same instant does
    nothing.
   */
  lemma SweepTwice(data: map<string, Entry>, now: int, later: int)
    requires ClockReading(now) && now <= later
    ensures AfterSweep(AfterSweep(data, now), later) == AfterSweep(data, later)
  {
  }

  /**
    Keys reflects the map, not what Get sees: before a sweep it lists a key
    whose entry has expired, and after a sweep at that instant it does not.
   */
  lemma KeysListUnsweptExpired(data: map<string, Entry>, key: string, now: int,
                               before: seq<string>, after: seq<string>)
    requires ClockReading(now)
    requires key in data && Sweepable(data[key], now)
    requires ListsEachKeyOnce(before, data)
    requires ListsEachKeyOnce(after, AfterSweep(data, now))
    ensures key in before && !LookupAt(data, key, now).found
    ensures key !in after
  {
  }
}
