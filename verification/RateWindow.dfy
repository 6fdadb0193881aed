/** The sliding window of requests. The class keeps only stamps that still matter and sweeps
    idle keys away; it is proved to answer like a log that forgets nothing. */
module RateWindow {
  type Key = int

  datatype Options = Options(limit: int, ttl: int)

  datatype Answer = Answer(allowed: bool, retryAfterMs: int)

  datatype Window = Window(stamps: seq<int>, expiresAt: int)

  const SWEEP_INTERVAL_MS := 60_000

  /** The stamps after `windowStart`, in order. */
  function Recent(stamps: seq<int>, windowStart: int): seq<int> {
    if stamps == [] then []
    else
      var n := |stamps| - 1;
      var rest := Recent(stamps[..n], windowStart);
      if stamps[n] > windowStart then rest + [stamps[n]] else rest
  }

  /** How many hits lie in `[from, to)`. */
  function CountIn(log: seq<int>, from: int, to: int): nat {
    if log == [] then 0
    else
      var n := |log| - 1;
      CountIn(log[..n], from, to) + (if from <= log[n] < to then 1 else 0)
  }

  /** Decide over all allowed hits of a key, from the oldest on. */
  function Decide(log: seq<int>, options: Options, now: int): Answer {
    var recent := Recent(log, now - options.ttl);
    if |recent| >= options.limit && recent != [] then Answer(false, recent[0] + options.ttl - now)
    else Answer(|recent| < options.limit, 0)
  }

  /** A refused hit is not recorded. */
  function Logged(log: seq<int>, options: Options, now: int): seq<int> {
    if Decide(log, options, now).allowed then log + [now] else log
  }

  ghost predicate Ordered(log: seq<int>, now: int) {
    Sorted(log) && (log != [] ==> log[|log| - 1] <= now)
  }

  ghost predicate Sorted(log: seq<int>) {
    |log| <= 1 || (Sorted(log[..|log| - 1]) && log[|log| - 2] <= log[|log| - 1])
  }

  /** Each hit comes at least `ttl` after the one `limit` places before it. */
  ghost predicate Spaced(log: seq<int>, options: Options) {
    options.limit >= 1 &&
    (log == [] ||
     (Spaced(log[..|log| - 1], options) && LastSpaced(log, options)))
  }

  predicate LastSpaced(log: seq<int>, options: Options) {
    var n := |log| - 1;
    0 < options.limit <= n ==> log[n] - log[n - options.limit] >= options.ttl
  }

  lemma {:induction false} SortedAt(log: seq<int>, i: nat, j: nat)
    requires Sorted(log) && i <= j < |log|
    ensures log[i] <= log[j]
  {
    var n := |log| - 1;
    if j < n {
      SortedAt(log[..n], i, j);
    } else if i < n {
      SortedAt(log[..n], i, n - 1);
    }
  }

  /** Hits `limit` or more apart are at least `ttl` apart: no window of that length holds more. */
  lemma {:induction false} SpacedAt(log: seq<int>, options: Options, i: nat, j: nat)
    requires Sorted(log) && Spaced(log, options) && i < j < |log| && j - i >= options.limit
    ensures log[j] - log[i] >= options.ttl
  {
    var n := |log| - 1;
    if j < n {
      SpacedAt(log[..n], options, i, j);
    } else {
      SortedAt(log, i, n - options.limit);
    }
  }

  /** Where the recent part of a log begins. */
  ghost predicate RecentFrom(log: seq<int>, start: int, d: nat) {
    d <= |log| && |Recent(log, start)| == |log| - d &&
    (d > 0 ==> log[d - 1] <= start) &&
    (d < |log| ==> log[d] > start && Recent(log, start)[0] == log[d])
  }

  /** A log whose last hit has expired has no recent hit. */
  lemma {:induction false} AllExpired(log: seq<int>, start: int)
    requires Ordered(log, start)
    ensures Recent(log, start) == []
  {
    if log != [] {
      AllExpired(log[..|log| - 1], start);
    }
  }

  /** In an ordered log the recent hits are those from one place on. */
  lemma {:induction false} RecentBegins(log: seq<int>, start: int) returns (d: nat)
    requires Sorted(log)
    ensures RecentFrom(log, start, d)
  {
    if log != [] && log[|log| - 1] > start {
      var n := |log| - 1;
      d := RecentBegins(log[..n], start);
      OneMoreRecent(log, start, d);
    } else {
      d := |log|;
      AllExpired(log, start);
    }
  }

  lemma OneMoreRecent(log: seq<int>, start: int, d: nat)
    requires log != [] && log[|log| - 1] > start && RecentFrom(log[..|log| - 1], start, d)
    ensures RecentFrom(log, start, d)
  {
    var n := |log| - 1;
    assert d < n ==> Recent(log, start)[0] == Recent(log[..n], start)[0];
  }

  /** The recent part begins beyond place `i` exactly when the hit there has expired. */
  lemma ExpiredIff(log: seq<int>, start: int, d: nat, i: nat)
    requires Sorted(log) && RecentFrom(log, start, d) && i < |log|
    ensures i < d <==> log[i] <= start
  {
    if i < d {
      SortedAt(log, i, d - 1);
    } else {
      SortedAt(log, d, i);
    }
  }

  lemma AppendedSorted(log: seq<int>, after: seq<int>, now: int)
    requires Ordered(log, now) && after == log + [now]
    ensures Ordered(after, now)
  {
    var n := |log|;
    assert after[..n] == log && after[n] == now;
    if n > 0 {
      assert after[n - 1] == log[n - 1];
    }
  }

  lemma AppendedSpaced(log: seq<int>, options: Options, now: int)
    requires Spaced(log, options)
    requires |log| >= options.limit ==> now - log[|log| - options.limit] >= options.ttl
    ensures Spaced(log + [now], options)
  {
    assert (log + [now])[..|log + [now]| - 1] == log;
    LastPlace(log, now, |log| - options.limit);
  }

  lemma LastPlace(log: seq<int>, now: int, i: int)
    ensures (log + [now])[|log|] == now
    ensures 0 <= i < |log| ==> (log + [now])[i] == log[i]
  {
  }

  /** Recording keeps the log ordered and spaced. */
  lemma HitKeepsSpacing(log: seq<int>, options: Options, now: int)
    requires options.limit >= 1 && Ordered(log, now) && Spaced(log, options)
    ensures Ordered(Logged(log, options, now), now) && Spaced(Logged(log, options, now), options)
  {
    if Decide(log, options, now).allowed {
      var d := RecentBegins(log, now - options.ttl);
      if |log| >= options.limit {
        ExpiredIff(log, now - options.ttl, d, |log| - options.limit);
      }
      AppendedSorted(log, log + [now], now);
      AppendedSpaced(log, options, now);
    }
  }

  lemma {:induction false} CountIsDifference(log: seq<int>, from: int, to: int)
    requires from <= to
    ensures CountIn(log, from, to) == |Recent(log, from - 1)| - |Recent(log, to - 1)|
  {
    if log != [] {
      CountIsDifference(log[..|log| - 1], from, to);
    }
  }

  /** Any window of length `ttl` holds at most `limit` recorded hits. */
  lemma WindowIsBounded(log: seq<int>, options: Options, start: int)
    requires options.limit >= 1 && options.ttl >= 0 && Sorted(log) && Spaced(log, options)
    ensures CountIn(log, start, start + options.ttl) <= options.limit
  {
    CountIsDifference(log, start, start + options.ttl);
    var d := RecentBegins(log, start - 1);
    var e := RecentBegins(log, start + options.ttl - 1);
    if e - d > options.limit {
      SpacedAt(log, options, d, e - 1);
    }
  }

  lemma DecideBy(log: seq<int>, options: Options, now: int, d: nat)
    requires options.limit >= 1 && RecentFrom(log, now - options.ttl, d)
    ensures Decide(log, options, now) ==
      if |log| - d >= options.limit then Answer(false, log[d] + options.ttl - now) else Answer(true, 0)
  {
  }

  /** At a refusal the window holds exactly `limit` hits. */
  lemma RefusedWhenFull(log: seq<int>, options: Options, now: int, d: nat)
    requires options.limit >= 1 && Ordered(log, now) && Spaced(log, options)
    requires RecentFrom(log, now - options.ttl, d) && |log| - d >= options.limit
    ensures |log| - d == options.limit
  {
    if |log| - d > options.limit {
      SpacedAt(log, options, d, |log| - 1);
    }
  }

  /** A refusal names the exact least wait: until then every hit is refused, from then on a
      hit passes, if nothing else is recorded. */
  lemma RetryAfterIsExact(log: seq<int>, options: Options, now: int, later: int)
    requires options.limit >= 1 && Ordered(log, now) && Spaced(log, options)
    requires !Decide(log, options, now).allowed && later >= now
    ensures Decide(log, options, now).retryAfterMs > 0
    ensures Decide(log, options, later).allowed <==> later >= now + Decide(log, options, now).retryAfterMs
  {
    var d := RecentBegins(log, now - options.ttl);
    DecideBy(log, options, now, d);
    RefusedWhenFull(log, options, now, d);
    var e := RecentBegins(log, later - options.ttl);
    DecideBy(log, options, later, e);
    ExpiredIff(log, later - options.ttl, e, d);
  }

  // ---------------------------------------------------------------- class

  /** All recorded hits of a key, and the options it is always asked with. */
  datatype History = History(log: seq<int>, options: Options)

  /** What is kept of a key's window. */
  function Kept(windows: map<Key, Window>, key: Key): seq<int> {
    if key in windows then windows[key].stamps else []
  }

  ghost function HistoryOf(histories: map<Key, History>, key: Key, given: Options): History {
    if key in histories then histories[key] else History([], given)
  }

  /** The stamps kept for a key give the same recent hits as its whole log, now and later. */
  ghost predicate SameRecent(kept: seq<int>, log: seq<int>, from: int) {
    forall start :: start >= from ==> Recent(kept, start) == Recent(log, start)
  }

  /** The kept window of a key stands for its whole log. */
  ghost predicate Stands(windows: map<Key, Window>, key: Key, h: History, now: int) {
    SameRecent(Kept(windows, key), h.log, now - h.options.ttl) &&
    (key in windows ==> h.log != [] && windows[key].expiresAt == h.log[|h.log| - 1] + h.options.ttl)
  }

  /** Everything known about one key. */
  ghost predicate KeyOk(windows: map<Key, Window>, key: Key, h: History, now: int) {
    h.options.limit >= 1 && h.options.ttl >= 0 && Ordered(h.log, now) && Spaced(h.log, h.options) &&
    Stands(windows, key, h, now)
  }

  ghost predicate AllKeysOk(windows: map<Key, Window>, histories: map<Key, History>, now: int) {
    windows.Keys <= histories.Keys &&
    forall key {:trigger KeyOk(windows, key, histories[key], now)} ::
      key in histories ==> KeyOk(windows, key, histories[key], now)
  }

  lemma KeyOkLater(windows: map<Key, Window>, key: Key, h: History, now: int, later: int)
    requires KeyOk(windows, key, h, now) && now <= later
    ensures KeyOk(windows, key, h, later)
  {
  }

  lemma AllLater(windows: map<Key, Window>, histories: map<Key, History>, now: int, later: int)
    requires AllKeysOk(windows, histories, now) && now <= later
    ensures AllKeysOk(windows, histories, later)
  {
    forall key | key in histories ensures KeyOk(windows, key, histories[key], later) {
      KeyOkLater(windows, key, histories[key], now, later);
    }
  }

  // ------------------------------------------------- forgetting a window

  lemma ExpiredLog(log: seq<int>, from: int)
    requires Ordered(log, from)
    ensures SameRecent([], log, from)
  {
    forall start | start >= from ensures Recent([], start) == Recent(log, start) {
      AllExpired(log, start);
    }
  }

  /** An expired window may be forgotten, and forgetting one key concerns no other. */
  lemma Forgotten(windows: map<Key, Window>, gone: Key, key: Key, h: History, now: int)
    requires KeyOk(windows, key, h, now)
    requires gone == key && key in windows ==> windows[key].expiresAt <= now
    ensures KeyOk(windows - {gone}, key, h, now)
  {
    if gone == key && key in windows {
      ExpiredLog(h.log, now - h.options.ttl);
    } else {
      assert Kept(windows - {gone}, key) == Kept(windows, key);
    }
  }

  lemma OneForgotten(windows: map<Key, Window>, histories: map<Key, History>, now: int, gone: Key)
    requires AllKeysOk(windows, histories, now) && gone in windows && windows[gone].expiresAt <= now
    ensures AllKeysOk(windows - {gone}, histories, now)
  {
    forall key | key in histories ensures KeyOk(windows - {gone}, key, histories[key], now) {
      Forgotten(windows, gone, key, histories[key], now);
    }
  }

  /** Forgetting one entry leaves the others where they are. */
  lemma OthersPending(windows: map<Key, Window>, pending: set<(Key, Window)>, item: (Key, Window))
    requires pending <= windows.Items && item in windows.Items && item !in pending
    ensures pending <= (windows - {item.0}).Items
  {
    forall other | other in pending ensures other in (windows - {item.0}).Items {
      assert other in windows.Items && windows[other.0] == other.1;
    }
  }

  // ------------------------------------------------------ recording a hit

  /** Filtering with a later start forgets what was filtered before. */
  lemma {:induction false} RecentOfRecent(log: seq<int>, earlier: int, later: int)
    requires earlier <= later
    ensures Recent(Recent(log, earlier), later) == Recent(log, later)
  {
    if log != [] {
      var n := |log| - 1;
      RecentOfRecent(log[..n], earlier, later);
      if log[n] > earlier {
        RecentSnoc(Recent(log[..n], earlier), log[n], later);
      }
    }
  }

  lemma RecentSnoc(log: seq<int>, hit: int, start: int)
    ensures Recent(log + [hit], start) == if hit > start then Recent(log, start) + [hit] else Recent(log, start)
  {
    assert (log + [hit])[..|log + [hit]| - 1] == log;
  }

  /** Dropping what is not recent and adding the hit keeps the recent hits those of the log. */
  lemma KeptAnswers(log: seq<int>, from: int, hit: int)
    ensures SameRecent(Recent(log, from) + [hit], log + [hit], from)
  {
    forall start | start >= from ensures Recent(Recent(log, from) + [hit], start) == Recent(log + [hit], start) {
      RecentOfRecent(log, from, start);
      RecentSnoc(Recent(log, from), hit, start);
      RecentSnoc(log, hit, start);
    }
  }

  /** The kept stamps filter as the whole log would. */
  lemma KeptStands(windows: map<Key, Window>, histories: map<Key, History>, now: int, key: Key, given: Options)
    requires AllKeysOk(windows, histories, now) && given.limit >= 1 && given.ttl >= 0
    requires key in histories ==> histories[key].options == given
    ensures var h := HistoryOf(histories, key, given);
      KeyOk(windows, key, h, now) && Recent(Kept(windows, key), now - given.ttl) == Recent(h.log, now - given.ttl)
  {
    if key in histories {
      assert KeyOk(windows, key, histories[key], now);
    }
  }

  /** The history after one hit: it is recorded if it is allowed. */
  ghost function AfterHit(h: History, now: int): History {
    h.(log := Logged(h.log, h.options, now))
  }

  /** The kept stamps decide as the whole log would. */
  lemma KeptDecides(h: History, now: int, stamps: seq<int>)
    requires h.options.limit >= 1 && stamps == Recent(h.log, now - h.options.ttl)
    ensures Decide(h.log, h.options, now) ==
      if |stamps| >= h.options.limit then Answer(false, stamps[0] + h.options.ttl - now) else Answer(true, 0)
    ensures AfterHit(h, now) == if |stamps| >= h.options.limit then h else h.(log := h.log + [now])
  {
  }

  function WindowsAfter(windows: map<Key, Window>, key: Key, stamps: seq<int>, options: Options, now: int)
    : map<Key, Window>
  {
    if |stamps| >= options.limit then windows
    else windows[key := Window(stamps + [now], now + options.ttl)]
  }

  /** The window that a recorded hit leaves. */
  lemma WindowStands(windows: map<Key, Window>, key: Key, h: History, now: int, stamps: seq<int>)
    requires stamps == Recent(h.log, now - h.options.ttl)
    ensures Stands(windows[key := Window(stamps + [now], now + h.options.ttl)], key, h.(log := h.log + [now]), now)
  {
    KeptAnswers(h.log, now - h.options.ttl, now);
  }

  /** A hit refused or recorded leaves the key's window as good as before. */
  lemma Recorded(windows: map<Key, Window>, key: Key, h: History, now: int, stamps: seq<int>)
    requires KeyOk(windows, key, h, now) && stamps == Recent(h.log, now - h.options.ttl)
    ensures KeyOk(WindowsAfter(windows, key, stamps, h.options, now), key, AfterHit(h, now), now)
  {
    KeptDecides(h, now, stamps);
    if |stamps| < h.options.limit {
      HitKeepsSpacing(h.log, h.options, now);
      WindowStands(windows, key, h, now, stamps);
    }
  }

  /** One key's entry replaced by a good one. */
  lemma OneReplaced(windows: map<Key, Window>, histories: map<Key, History>, now: int,
                    key: Key, after: map<Key, Window>, h: History)
    requires AllKeysOk(windows, histories, now) && KeyOk(after, key, h, now)
    requires after == windows || (key in after && after == windows[key := after[key]])
    ensures AllKeysOk(after, histories[key := h], now)
  {
    var all := histories[key := h];
    forall k | k in all ensures KeyOk(after, k, all[k], now) {
      if k != key {
        OtherKeyKept(windows, after, key, k, histories[k], now);
      }
    }
  }

  lemma OtherKeyKept(windows: map<Key, Window>, after: map<Key, Window>, key: Key, k: Key, h: History, now: int)
    requires KeyOk(windows, k, h, now) && k != key
    requires after == windows || (key in after && after == windows[key := after[key]])
    ensures KeyOk(after, k, h, now)
  {
    assert Kept(after, k) == Kept(windows, k);
  }

  /** The whole hit: the answer is the full log's, and every key's window stays good. */
  lemma HitAnswers(windows: map<Key, Window>, histories: map<Key, History>, now: int, key: Key, given: Options,
                   stamps: seq<int>)
    requires AllKeysOk(windows, histories, now) && given.limit >= 1 && given.ttl >= 0
    requires key in histories ==> histories[key].options == given
    requires stamps == Recent(Kept(windows, key), now - given.ttl)
    ensures var h := HistoryOf(histories, key, given);
      AllKeysOk(WindowsAfter(windows, key, stamps, given, now), histories[key := AfterHit(h, now)], now) &&
      Decide(h.log, given, now) ==
        if |stamps| >= given.limit then Answer(false, stamps[0] + given.ttl - now) else Answer(true, 0)
  {
    var h := HistoryOf(histories, key, given);
    KeptStands(windows, histories, now, key, given);
    KeptDecides(h, now, stamps);
    Recorded(windows, key, h, now, stamps);
    OneReplaced(windows, histories, now, key, WindowsAfter(windows, key, stamps, given, now), AfterHit(h, now));
  }

  /** Exactly the windows that still matter are left. */
  ghost predicate OnlyLive(before: map<Key, Window>, after: map<Key, Window>, now: int) {
    (forall key :: key in after <==> key in before && before[key].expiresAt > now) &&
    forall key :: key in after ==> after[key] == before[key]
  }

  ghost predicate LiveOrPending(before: map<Key, Window>, after: map<Key, Window>, pending: set<(Key, Window)>, now: int) {
    (forall key :: key in after <==> key in before && (before[key].expiresAt > now || (key, before[key]) in pending)) &&
    forall key :: key in after ==> after[key] == before[key]
  }

  class RateWindows {
    var windows: map<Key, Window>
    var nextSweepAt: int
    ghost var histories: map<Key, History>
    ghost var clock: int

    constructor (now: int)
      ensures Valid() && histories == map[] && clock == now
    {
      windows, nextSweepAt, histories, clock := map[], 0, map[], now;
    }

    ghost predicate Valid()
      reads this
    {
      AllKeysOk(windows, histories, clock)
    }

    /** Answers exactly as the full log does; a key keeps its options, the clock does not go back. */
    method Hit(key: Key, given: Options, now: int) returns (answer: Answer)
      requires Valid() && given.limit >= 1 && given.ttl >= 0 && clock <= now
      requires key in histories ==> histories[key].options == given
      modifies this
      ensures Valid() && clock == now
      ensures answer == Decide(HistoryOf(old(histories), key, given).log, given, now)
      ensures histories == old(histories)[key := AfterHit(HistoryOf(old(histories), key, given), now)]
    {
      Sweep(now);
      var stamps := Recent(Kept(windows, key), now - given.ttl);
      HitAnswers(windows, histories, now, key, given, stamps);
      histories := histories[key := AfterHit(HistoryOf(histories, key, given), now)];
      if |stamps| >= given.limit {
        return Answer(false, stamps[0] + given.ttl - now);
      }
      windows := windows[key := Window(stamps + [now], now + given.ttl)];
      return Answer(true, 0);
    }

    /** Drops the windows that no longer matter, at most once an interval. */
    method Sweep(now: int)
      requires Valid() && clock <= now
      modifies this`windows, this`nextSweepAt, this`clock
      ensures Valid() && clock == now
      ensures now < old(nextSweepAt) ==> windows == old(windows) && nextSweepAt == old(nextSweepAt)
      ensures now >= old(nextSweepAt) ==>
        nextSweepAt == now + SWEEP_INTERVAL_MS && OnlyLive(old(windows), windows, now)
    {
      AllLater(windows, histories, clock, now);
      clock := now;
      if now < nextSweepAt {
        return;
      }
      nextSweepAt := now + SWEEP_INTERVAL_MS;
      var pending := windows.Items;
      ghost var was := windows;
      while pending != {}
        invariant Valid() && clock == now && pending <= windows.Items && nextSweepAt == now + SWEEP_INTERVAL_MS
        invariant LiveOrPending(was, windows, pending, now)
        decreases |pending|
      {
        var item :| item in pending;
        pending := pending - {item};
        if item.1.expiresAt <= now {
          OneForgotten(windows, histories, now, item.0);
          OthersPending(windows, pending, item);
          assert item.0 in was && was[item.0] == item.1;
          windows := windows - {item.0};
        }
      }
    }
  }
}
