/** Counting failed pairing attempts over sliding windows, and locking pairing when there are too many. */
module Pairing {
  /** Times in nanoseconds. */
  const SECOND: int := 1_000_000_000
  const SOURCE_WINDOW: int := 30 * SECOND
  const GLOBAL_WINDOW: int := 600 * SECOND
  const SOURCE_LIMIT: nat := 5
  const GLOBAL_LIMIT: nat := 20

  datatype Failure = Failure(source: string, at: int)

  datatype Reply = TooMany | Refused | Paired

  predicate Sorted(ts: seq<int>) {
    forall i, j :: 0 <= i < j < |ts| ==> ts[i] <= ts[j]
  }

  lemma SortedMore(ts: seq<int>, t: int)
    requires Sorted(ts) && forall u :: u in ts ==> u <= t
    ensures Sorted(ts + [t])
  {
    forall i, j | 0 <= i < j < |ts + [t]|
      ensures (ts + [t])[i] <= (ts + [t])[j]
    {
      assert ts[i] in ts;
    }
  }

  /** The times at or after a threshold, in order. */
  function Since(ts: seq<int>, threshold: int): seq<int> {
    if ts == [] then []
    else Since(ts[..|ts| - 1], threshold) + (if ts[|ts| - 1] >= threshold then [ts[|ts| - 1]] else [])
  }

  function AllTimes(h: seq<Failure>): seq<int> {
    if h == [] then [] else AllTimes(h[..|h| - 1]) + [h[|h| - 1].at]
  }

  function TimesOf(h: seq<Failure>, source: string): seq<int> {
    if h == [] then []
    else TimesOf(h[..|h| - 1], source) + (if h[|h| - 1].source == source then [h[|h| - 1].at] else [])
  }

  /** How many of the times lie in the window from lo to hi, both included. */
  function CountIn(ts: seq<int>, lo: int, hi: int): nat {
    if ts == [] then 0
    else CountIn(ts[..|ts| - 1], lo, hi) + (if lo <= ts[|ts| - 1] <= hi then 1 else 0)
  }

  /** Each window that ends with one of the times holds at most n of them. */
  ghost predicate Spread(ts: seq<int>, n: nat, window: int) {
    forall i :: 0 <= i < |ts| ==> CountIn(ts[..i + 1], ts[i] - window, ts[i]) <= n
  }

  // ------------------------------------------------------------- trimming a prefix

  /** For times in order, dropping a prefix keeps exactly the times at or after the threshold. */
  lemma {:induction false} DropIsSince(ts: seq<int>, threshold: int, index: nat)
    requires Sorted(ts) && index <= |ts|
    requires forall i :: 0 <= i < index ==> ts[i] < threshold
    requires index < |ts| ==> ts[index] >= threshold
    ensures Since(ts, threshold) == ts[index..]
  {
    if ts != [] {
      var front, last := ts[..|ts| - 1], ts[|ts| - 1];
      assert ts == front + [last];
      if index < |ts| {
        if index < |front| {
          assert ts[index] <= last;
        }
        DropIsSince(front, threshold, index);
        assert ts[index..] == front[index..] + [last];
      } else {
        DropIsSince(front, threshold, index - 1);
        assert front[index - 1..] == [] && ts[index..] == [];
      }
    }
  }

  method Recent(values: seq<int>, threshold: int) returns (r: seq<int>)
    requires Sorted(values)
    ensures r == Since(values, threshold)
  {
    var index := 0;
    while index < |values| && values[index] < threshold
      invariant index <= |values| && forall i :: 0 <= i < index ==> values[i] < threshold
    {
      index := index + 1;
    }
    DropIsSince(values, threshold, index);
    r := values[index..];
  }

  lemma {:induction false} SinceFacts(ts: seq<int>, threshold: int)
    ensures Sorted(ts) ==> Sorted(Since(ts, threshold))
    ensures forall t :: t in Since(ts, threshold) ==> t >= threshold && t in ts
    ensures |Since(ts, threshold)| <= |ts|
  {
    if ts != [] {
      var front := ts[..|ts| - 1];
      SinceFacts(front, threshold);
      if Sorted(ts) {
        forall t | t in Since(front, threshold)
          ensures t <= ts[|ts| - 1]
        {
          var i :| 0 <= i < |front| && front[i] == t;
          assert ts[i] == t;
        }
        SortedMore(Since(front, threshold), ts[|ts| - 1]);
      }
    }
  }

  /** Trimming again with a later threshold is trimming the whole history with it. */
  lemma {:induction false} SinceTwice(ts: seq<int>, a: int, b: int)
    requires a <= b
    ensures Since(Since(ts, a), b) == Since(ts, b)
  {
    if ts != [] {
      var front, last := ts[..|ts| - 1], ts[|ts| - 1];
      SinceTwice(front, a, b);
      if last >= a {
        var s := Since(front, a) + [last];
        assert s[..|s| - 1] == Since(front, a) && s[|s| - 1] == last;
      } else {
        assert Since(ts, a) == Since(front, a) && Since(ts, b) == Since(front, b);
      }
    }
  }

  lemma SinceAppend(ts: seq<int>, t: int, threshold: int)
    ensures Since(ts + [t], threshold) == Since(ts, threshold) + (if t >= threshold then [t] else [])
  {
    assert (ts + [t])[..|ts|] == ts;
  }

  lemma {:induction false} SinceCounts(ts: seq<int>, lo: int, hi: int)
    requires forall i :: 0 <= i < |ts| ==> ts[i] <= hi
    ensures CountIn(ts, lo, hi) == |Since(ts, lo)|
  {
    if ts != [] {
      SinceCounts(ts[..|ts| - 1], lo, hi);
    }
  }

  // ------------------------------------------------------------ any window at all

  lemma {:induction false} CountBelow(ts: seq<int>, lo: int, hi: int, lo': int, hi': int)
    requires lo' <= lo && hi <= hi'
    ensures CountIn(ts, lo, hi) <= CountIn(ts, lo', hi')
  {
    if ts != [] {
      CountBelow(ts[..|ts| - 1], lo, hi, lo', hi');
    }
  }

  lemma {:induction false} CountUpTo(ts: seq<int>, lo: int, hi: int, m: int)
    requires m <= hi && forall i :: 0 <= i < |ts| ==> ts[i] <= m
    ensures CountIn(ts, lo, hi) == CountIn(ts, lo, m)
  {
    if ts != [] {
      CountUpTo(ts[..|ts| - 1], lo, hi, m);
    }
  }

  lemma SpreadFront(ts: seq<int>, n: nat, window: int)
    requires Spread(ts, n, window) && ts != []
    ensures Spread(ts[..|ts| - 1], n, window)
    ensures CountIn(ts, ts[|ts| - 1] - window, ts[|ts| - 1]) <= n
  {
    hide CountIn;
    var front := ts[..|ts| - 1];
    assert ts[..|ts| - 1 + 1] == ts;
    forall i | 0 <= i < |front|
      ensures CountIn(front[..i + 1], front[i] - window, front[i]) <= n
    {
      assert front[..i + 1] == ts[..i + 1];
    }
  }

  lemma CountFront(ts: seq<int>, lo: int, hi: int)
    requires ts != [] && !(lo <= ts[|ts| - 1] <= hi)
    ensures CountIn(ts, lo, hi) == CountIn(ts[..|ts| - 1], lo, hi)
  {
  }

  /** If no window ending at one of the times holds more than n, no window of that length does. */
  lemma {:induction false} EveryWindow(ts: seq<int>, n: nat, window: int, lo: int, hi: int)
    requires Sorted(ts) && Spread(ts, n, window) && hi - lo <= window
    ensures CountIn(ts, lo, hi) <= n
  {
    if ts != [] {
      hide CountIn, Spread;
      var last := ts[|ts| - 1];
      SpreadFront(ts, n, window);
      if lo <= last <= hi {
        CountUpTo(ts, lo, hi, last);
        CountBelow(ts, lo, last, last - window, last);
      } else {
        CountFront(ts, lo, hi);
        EveryWindow(ts[..|ts| - 1], n, window, lo, hi);
      }
    }
  }

  /** One more time keeps the windows small if the window it ends does not exceed the limit. */
  lemma SpreadMore(ts: seq<int>, t: int, n: nat, window: int)
    requires Sorted(ts) && Spread(ts, n, window) && (forall u :: u in ts ==> u <= t)
    requires |Since(ts, t - window)| < n && window >= 0
    ensures Sorted(ts + [t]) && Spread(ts + [t], n, window)
  {
    hide CountIn, Since;
    var more := ts + [t];
    SortedMore(ts, t);
    assert forall i :: 0 <= i < |ts| ==> ts[i] in ts;
    CountLast(ts, t, window);
    assert more[..|ts| + 1] == more;
    forall i | 0 <= i < |more|
      ensures CountIn(more[..i + 1], more[i] - window, more[i]) <= n
    {
      if i < |ts| {
        assert more[..i + 1] == ts[..i + 1] && more[i] == ts[i];
      }
    }
  }

  lemma CountLast(ts: seq<int>, t: int, window: int)
    requires window >= 0 && forall i :: 0 <= i < |ts| ==> ts[i] <= t
    ensures CountIn(ts + [t], t - window, t) == |Since(ts, t - window)| + 1
  {
    SinceCounts(ts, t - window, t);
    assert (ts + [t])[..|ts|] == ts;
  }

  // ------------------------------------------------------------------- the history

  lemma {:induction false} TimesFacts(h: seq<Failure>, source: string, clock: int)
    requires Ordered(h, clock)
    ensures Sorted(AllTimes(h)) && Sorted(TimesOf(h, source))
    ensures forall t :: t in AllTimes(h) || t in TimesOf(h, source) ==> t <= clock
  {
    if h != [] {
      var last := h[|h| - 1];
      assert Ordered(h[..|h| - 1], last.at);
      TimesFacts(h[..|h| - 1], source, last.at);
      SortedMore(AllTimes(h[..|h| - 1]), last.at);
      SortedMore(TimesOf(h[..|h| - 1], source), last.at);
    }
  }

  /** Failures in the order they happened, none after the clock. */
  ghost predicate Ordered(h: seq<Failure>, clock: int) {
    && (forall i, j :: 0 <= i < j < |h| ==> h[i].at <= h[j].at)
    && (forall i :: 0 <= i < |h| ==> h[i].at <= clock)
  }

  lemma TimesAppend(h: seq<Failure>, f: Failure, source: string)
    ensures AllTimes(h + [f]) == AllTimes(h) + [f.at]
    ensures TimesOf(h + [f], source) == TimesOf(h, source) + (if f.source == source then [f.at] else [])
  {
    assert (h + [f])[..|h|] == h;
  }

  // -------------------------------------------------------------------- the limiter

  /** The lists kept are the recent part of the whole history. */
  ghost predicate Kept(h: seq<Failure>, clock: int, bySource: map<string, seq<int>>, global: seq<int>) {
    && global == Since(AllTimes(h), clock - GLOBAL_WINDOW)
    && (forall s :: s in bySource ==> bySource[s] == Since(TimesOf(h, s), clock - SOURCE_WINDOW) && bySource[s] != [])
    && (forall s :: s !in bySource ==> Since(TimesOf(h, s), clock - SOURCE_WINDOW) == [])
  }

  ghost predicate Bounded(h: seq<Failure>) {
    && Spread(AllTimes(h), GLOBAL_LIMIT, GLOBAL_WINDOW)
    && forall s :: Spread(TimesOf(h, s), SOURCE_LIMIT, SOURCE_WINDOW)
  }

  class Limiter {
    var bySource: map<string, seq<int>>
    var global: seq<int>
    var locked: bool
    var offered: bool
    /** Every counted failure since pairing was opened. */
    ghost var history: seq<Failure>
    ghost var clock: int

    constructor (now: int)
      ensures Valid() && !locked && offered && history == [] && clock == now
    {
      bySource, global, locked, offered, history, clock := map[], [], false, true, [], now;
    }

    ghost predicate Valid()
      reads this
    {
      && Ordered(history, clock) && Kept(history, clock, bySource, global) && Bounded(history)
      && (!locked ==> |global| < GLOBAL_LIMIT)
    }

    /** Opening again forgets every failure and the lock. */
    method Open(now: int)
      modifies this
      ensures Valid() && !locked && offered && history == [] && clock == now
    {
      bySource, global, locked, offered := map[], [], false, true;
      history, clock := [], now;
    }

    /** Drops what has left its window. */
    method PruneFailures(now: int)
      requires Valid() && clock <= now
      modifies this`bySource, this`global, this`clock
      ensures Valid() && clock == now
      ensures |global| <= |old(global)|
    {
      hide Bounded, Since, Spread;
      TimesFacts(history, "", clock);
      SinceFacts(AllTimes(history), clock - GLOBAL_WINDOW);
      SinceTwice(AllTimes(history), clock - GLOBAL_WINDOW, now - GLOBAL_WINDOW);
      SinceFacts(global, now - GLOBAL_WINDOW);
      global := Recent(global, now - GLOBAL_WINDOW);
      bySource := PruneSources(now);
      clock := now;
    }

    method PruneSources(now: int) returns (kept: map<string, seq<int>>)
      requires Ordered(history, clock) && clock <= now
      requires forall s :: s in bySource ==> bySource[s] == Since(TimesOf(history, s), clock - SOURCE_WINDOW)
      requires forall s :: s !in bySource ==> Since(TimesOf(history, s), clock - SOURCE_WINDOW) == []
      ensures forall s :: s in kept ==> kept[s] == Since(TimesOf(history, s), now - SOURCE_WINDOW) && kept[s] != []
      ensures forall s :: s !in kept ==> Since(TimesOf(history, s), now - SOURCE_WINDOW) == []
    {
      hide Since;
      kept := map[];
      var sources := bySource.Keys;
      while sources != {}
        invariant sources <= bySource.Keys
        invariant forall s :: s in kept ==>
                    s in bySource && s !in sources && kept[s] == Since(TimesOf(history, s), now - SOURCE_WINDOW) && kept[s] != []
        invariant forall s :: s in bySource && s !in sources && s !in kept ==> Since(TimesOf(history, s), now - SOURCE_WINDOW) == []
        decreases |sources|
      {
        var source :| source in sources;
        sources := sources - {source};
        TimesFacts(history, source, clock);
        SinceFacts(TimesOf(history, source), clock - SOURCE_WINDOW);
        SinceTwice(TimesOf(history, source), clock - SOURCE_WINDOW, now - SOURCE_WINDOW);
        var failures := Recent(bySource[source], now - SOURCE_WINDOW);
        if failures != [] {
          kept := kept[source := failures];
        }
      }
      forall s | s !in bySource
        ensures Since(TimesOf(history, s), now - SOURCE_WINDOW) == []
      {
        SinceTwice(TimesOf(history, s), clock - SOURCE_WINDOW, now - SOURCE_WINDOW);
        NothingSince(now - SOURCE_WINDOW);
      }
    }

    /**
     * One attempt. It is turned away without being counted while pairing is locked
     * or the source has used up its window; a wrong one is counted, and the one
     * that fills the global window locks pairing until it is opened again.
     */
    method Submit(source: string, now: int, matches: bool) returns (reply: Reply)
      requires Valid() && clock <= now
      modifies this
      ensures Valid() && clock == now
      ensures reply.TooMany? <==>
                old(locked) || |Since(TimesOf(old(history), source), now - 30_000_000_000)| >= 5
      ensures reply.Paired? <==> !reply.TooMany? && old(offered) && matches
      ensures history == if reply.Refused? then old(history) + [Failure(source, now)] else old(history)
      ensures offered == (old(offered) && !reply.Paired? && (locked ==> old(locked)))
      ensures locked <==>
                old(locked) || (reply.Refused? && |Since(AllTimes(history), now - 600_000_000_000)| >= 20)
    {
      hide Since, Spread, Ordered, Kept, Bounded;
      PruneFailures(now);
      ListsAre(history, now, bySource, global, source);
      if locked || (source in bySource && |bySource[source]| >= SOURCE_LIMIT) {
        return TooMany;
      }
      var valid := offered && matches;
      if !valid {
        ghost var f := Failure(source, now);
        Counted(history, now, bySource, global, f);
        bySource := bySource[source := (if source in bySource then bySource[source] else []) + [now]];
        global := global + [now];
        history := history + [f];
        ListsAre(history, now, bySource, global, source);
        if |global| >= GLOBAL_LIMIT {
          locked, offered := true, false;
        }
        return Refused;
      }
      offered := false;
      reply := Paired;
    }

    /** Over any run no 30-second window holds more than five counted failures of a source, and no ten minutes more than twenty. */
    lemma WindowsHold(source: string, lo: int, hi: int)
      requires Valid()
      ensures hi - lo <= 30_000_000_000 ==> CountIn(TimesOf(history, source), lo, hi) <= 5
      ensures hi - lo <= 600_000_000_000 ==> CountIn(AllTimes(history), lo, hi) <= 20
    {
      hide Spread;
      TimesFacts(history, source, clock);
      if hi - lo <= SOURCE_WINDOW {
        EveryWindow(TimesOf(history, source), SOURCE_LIMIT, SOURCE_WINDOW, lo, hi);
      }
      if hi - lo <= GLOBAL_WINDOW {
        EveryWindow(AllTimes(history), GLOBAL_LIMIT, GLOBAL_WINDOW, lo, hi);
      }
    }
  }

  lemma NothingSince(threshold: int)
    ensures Since([], threshold) == []
  {
  }

  lemma ListsAre(h: seq<Failure>, clock: int, bySource: map<string, seq<int>>, global: seq<int>, source: string)
    requires Kept(h, clock, bySource, global)
    ensures (if source in bySource then bySource[source] else []) == Since(TimesOf(h, source), clock - SOURCE_WINDOW)
    ensures global == Since(AllTimes(h), clock - GLOBAL_WINDOW)
  {
    hide Since;
  }

  /** A counted failure keeps the lists, the order and the windows. */
  lemma Counted(h: seq<Failure>, now: int, bySource: map<string, seq<int>>, global: seq<int>, f: Failure)
    requires Ordered(h, now) && Kept(h, now, bySource, global) && Bounded(h) && f.at == now
    requires |global| < GLOBAL_LIMIT && |Since(TimesOf(h, f.source), now - SOURCE_WINDOW)| < SOURCE_LIMIT
    ensures Ordered(h + [f], now) && Bounded(h + [f])
    ensures Kept(h + [f], now,
              bySource[f.source := (if f.source in bySource then bySource[f.source] else []) + [now]], global + [now])
  {
    hide Since, Spread, TimesOf, AllTimes, Kept, Ordered, Bounded;
    ListsAre(h, now, bySource, global, f.source);
    OrderedMore(h, now, f);
    BoundedMore(h, now, f);
    KeptMore(h, now, bySource, global, f);
  }

  lemma OrderedMore(h: seq<Failure>, now: int, f: Failure)
    requires Ordered(h, now) && f.at == now
    ensures Ordered(h + [f], now)
  {
  }

  lemma SameTimes(h: seq<Failure>, f: Failure, s: string)
    ensures s != f.source ==> TimesOf(h + [f], s) == TimesOf(h, s)
    ensures TimesOf(h + [f], f.source) == TimesOf(h, f.source) + [f.at] && AllTimes(h + [f]) == AllTimes(h) + [f.at]
  {
    TimesAppend(h, f, s);
    TimesAppend(h, f, f.source);
    assert TimesOf(h, s) + [] == TimesOf(h, s);
  }

  lemma BoundedMore(h: seq<Failure>, now: int, f: Failure)
    requires Ordered(h, now) && Bounded(h) && f.at == now
    requires |Since(AllTimes(h), now - GLOBAL_WINDOW)| < GLOBAL_LIMIT
    requires |Since(TimesOf(h, f.source), now - SOURCE_WINDOW)| < SOURCE_LIMIT
    ensures Bounded(h + [f])
  {
    hide Since, Spread, TimesOf, AllTimes, Ordered, Sorted;
    TimesFacts(h, f.source, now);
    SpreadMore(AllTimes(h), now, GLOBAL_LIMIT, GLOBAL_WINDOW);
    SpreadMore(TimesOf(h, f.source), now, SOURCE_LIMIT, SOURCE_WINDOW);
    SameTimes(h, f, f.source);
    forall s
      ensures Spread(TimesOf(h + [f], s), SOURCE_LIMIT, SOURCE_WINDOW)
    {
      SameTimes(h, f, s);
    }
  }

  lemma KeptMore(h: seq<Failure>, now: int, bySource: map<string, seq<int>>, global: seq<int>, f: Failure)
    requires Kept(h, now, bySource, global) && f.at == now
    ensures Kept(h + [f], now,
              bySource[f.source := (if f.source in bySource then bySource[f.source] else []) + [now]], global + [now])
  {
    hide Since, TimesOf, AllTimes;
    ListsAre(h, now, bySource, global, f.source);
    SinceAppend(TimesOf(h, f.source), now, now - SOURCE_WINDOW);
    SinceAppend(AllTimes(h), now, now - GLOBAL_WINDOW);
    var after := bySource[f.source := (if f.source in bySource then bySource[f.source] else []) + [now]];
    SameTimes(h, f, f.source);
    forall s
      ensures s in after ==> after[s] == Since(TimesOf(h + [f], s), now - SOURCE_WINDOW) && after[s] != []
      ensures s !in after ==> Since(TimesOf(h + [f], s), now - SOURCE_WINDOW) == []
    {
      SameTimes(h, f, s);
    }
  }
}
