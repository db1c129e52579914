/** The idempotency keys the scheduler and the rebalancing endpoint keep in Redis: one key
    per event and Korean date, with a time to live that runs to the next Korean midnight.

    Instants are microseconds of Korean local time, so that the date of an instant is its
    quotient by the length of a day. Redis is a map from keys to expiry instants.
  */
module SchedulerIdempotency {

  const SECOND := 1_000_000
  const DAY := 86_400_000_000

  datatype Key = Key(event: string, date: int)

  type Store = map<Key, int>

  function DateOf(now: int): int {
    now / DAY
  }

  function NextMidnight(now: int): int {
    (DateOf(now) + 1) * DAY
  }

  /** Whole seconds left until midnight, but at least a minute. */
  function Ttl(now: int): int {
    var seconds := (NextMidnight(now) - now) / SECOND;
    if seconds < 60 then 60 else seconds
  }

  function Expiry(now: int): int {
    now + Ttl(now) * SECOND
  }

  predicate Live(store: Store, key: Key, now: int) {
    key in store && now < store[key]
  }

  function MarkExecuted(store: Store, key: Key, now: int): Store {
    store[key := Expiry(now)]
  }

  /** The events with a live key for `date`. */
  function LoadExecuted(store: Store, date: int, now: int): set<string> {
    set key | key in store && key.date == date && now < store[key] :: key.event
  }

  /** The events loaded are exactly those whose key is found. */
  lemma LoadFindsLiveKeys(store: Store, date: int, now: int, event: string)
    ensures event in LoadExecuted(store, date, now) <==> Live(store, Key(event, date), now)
  {
    if event in LoadExecuted(store, date, now) {
      var key :| key in store && key.date == date && now < store[key] && key.event == event;
      assert key == Key(event, date);
    }
  }

  /** A key lasts until less than a second before midnight, and beyond midnight only when
      it is written in the last minute. */
  lemma KeyLifetime(written: int)
    ensures written < NextMidnight(written) <= written + DAY
    ensures NextMidnight(written) - SECOND < Expiry(written)
    ensures Expiry(written) > NextMidnight(written) ==> NextMidnight(written) - written < 60 * SECOND
    ensures Expiry(written) <= written + DAY
  {
  }

  /** A key written at `written` is still there at `t`. */
  predicate Covers(written: int, t: int) {
    t < Expiry(written)
  }

  /** The exact condition under which a key covers the rest of its day: the whole-second
      truncation must lose nothing, or the one-minute floor must apply. */
  lemma KeyCoversRestOfDay(written: int)
    ensures var left := NextMidnight(written) - written;
            (forall t :: written <= t < NextMidnight(written) ==> Covers(written, t))
            <==> left % SECOND == 0 || left < 60 * SECOND
  {
    var left := NextMidnight(written) - written;
    var last := NextMidnight(written) - 1;
    assert written <= last;
    assert left == (left / SECOND) * SECOND + left % SECOND;
    if left % SECOND == 0 || left < 60 * SECOND {
      assert NextMidnight(written) <= Expiry(written);
    } else {
      assert Expiry(written) == written + (left / SECOND) * SECOND < NextMidnight(written);
      assert !Covers(written, last);
    }
  }

  /** A key written on a date is still there at every instant of that date up to its last second. */
  lemma LiveUntilLastSecond(written: int, now: int)
    requires written <= now && DateOf(written) == DateOf(now) && now <= NextMidnight(now) - SECOND
    ensures now < Expiry(written)
  {
    KeyLifetime(written);
  }
}
