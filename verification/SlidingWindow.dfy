/** The sliding-window limiter of middleware/ratelimit.go as a step machine, and
    theorems about every run of it. */
module SlidingWindow {
  import opened Prelude
  import opened PeerRuns

  /** NewSingleBucket takes any window and any maximum as they are. */
  datatype Limit = Limit(window: int, max: int)

  /** The timestamps after the cutoff, in order. */
  function Keep(h: seq<int>, cutoff: int): seq<int> {
    if h == [] then []
    else
      var t := h[|h| - 1];
      Keep(h[..|h| - 1], cutoff) + if t > cutoff then [t] else []
  }

  type Shard = map<Peer, seq<int>>

  function History(s: Shard, p: Peer): seq<int> {
    if p in s then s[p] else []
  }

  /** AllowN for n > 0 on one peer's history: the decision and the new history. */
  function Serve(w: Limit, h: seq<int>, n: Pos, now: int): (bool, seq<int>) {
    var kept := Keep(h, now - w.window);
    if |kept| + n > w.max then (false, kept) else (true, kept + Repeat(now, n))
  }

  /** AllowN on the shard that holds p: the decision and the new shard. */
  function Admit(w: Limit, s: Shard, p: Peer, n: int, now: int): (bool, Shard) {
    if n <= 0 then
      (true, s)
    else
      var (ok, h) := Serve(w, History(s, p), n, now);
      (ok, s[p := h])
  }

  /** cleanup's pass over one shard. */
  function Prune(s: Shard, cutoff: int): Shard {
    map p | p in s && Keep(s[p], cutoff) != [] :: Keep(s[p], cutoff)
  }

  type Shards = s: seq<Shard> | |s| == SHARDS witness EMPTY

  const EMPTY: seq<Shard> := Repeat(map[], SHARDS)

  /** With `prune` false, sweeps do nothing. */
  function Step(w: Limit, hash: Peer -> nat, prune: bool, shards: Shards, e: Event): Shards {
    match e
    case Request(p, n, now) =>
      var i := Home(hash, p);
      shards[i := Admit(w, shards[i], p, n, now).1]
    case Sweep(i, now) =>
      if prune && i < SHARDS then shards[i := Prune(shards[i], now - w.window)] else shards
  }

  function After(w: Limit, hash: Peer -> nat, prune: bool, run: seq<Event>): Shards {
    if run == [] then EMPTY
    else Step(w, hash, prune, After(w, hash, prune, run[..|run| - 1]), run[|run| - 1])
  }

  function AllowedAt(w: Limit, hash: Peer -> nat, prune: bool, run: seq<Event>, i: nat): bool
    requires i < |run| && run[i].Request?
  {
    var p := run[i].peer;
    Admit(w, After(w, hash, prune, run[..i])[Home(hash, p)], p, run[i].n, run[i].now).0
  }

  /** What the machine allows p in a run, in order. */
  function Granted(w: Limit, hash: Peer -> nat, prune: bool, p: Peer, run: seq<Event>): seq<Admission> {
    if run == [] then []
    else
      var last := |run| - 1;
      var e := run[last];
      Granted(w, hash, prune, p, run[..last]) +
      if e.Request? && e.peer == p && 0 < e.n && AllowedAt(w, hash, prune, run, last)
      then [Admission(e.n, e.now)] else []
  }

  // ---------------------------------------------------------------------------
  // The specification: a full admission log, never pruned

  /** The units logged after now - window, plus n, are at most max. */
  predicate Fits(w: Limit, log: seq<Admission>, n: int, now: int) {
    Since(log, now - w.window + 1) + n <= w.max
  }

  function Window(w: Limit): Gate {
    (log: seq<Admission>, n: int, now: int) => Fits(w, log, n, now)
  }

  // ---------------------------------------------------------------------------
  // Filtering

  lemma {:induction false} KeepAppend(a: seq<int>, b: seq<int>, cutoff: int)
    ensures Keep(a + b, cutoff) == Keep(a, cutoff) + Keep(b, cutoff)
  {
    if b == [] {
      assert a + b == a;
    } else {
      KeepAppend(a, b[..|b| - 1], cutoff);
      assert (a + b)[..|a + b| - 1] == a + b[..|b| - 1];
    }
  }

  lemma {:induction false} KeepTwice(h: seq<int>, c: int, d: int)
    requires c <= d
    ensures Keep(Keep(h, c), d) == Keep(h, d)
  {
    if h == [] {
    } else {
      var t := h[|h| - 1];
      KeepTwice(h[..|h| - 1], c, d);
      KeepAppend(Keep(h[..|h| - 1], c), if t > c then [t] else [], d);
      assert [t][..0] == [];
    }
  }

  lemma {:induction false} KeepRepeat(t: int, n: nat, c: int)
    ensures Keep(Repeat(t, n), c) == if t > c then Repeat(t, n) else []
  {
    if n == 0 {
    } else {
      KeepRepeat(t, n - 1, c);
      assert Repeat(t, n)[..n - 1] == Repeat(t, n - 1);
    }
  }

  /** The log written out as one timestamp per unit. */
  ghost function Units(log: seq<Admission>): seq<int> {
    if log == [] then []
    else Units(log[..|log| - 1]) + Repeat(log[|log| - 1].at, log[|log| - 1].n)
  }

  lemma {:induction false} UnitsCount(log: seq<Admission>, c: int)
    ensures |Keep(Units(log), c)| == Since(log, c + 1)
  {
    if log == [] {
    } else {
      var a := log[|log| - 1];
      UnitsCount(log[..|log| - 1], c);
      KeepAppend(Units(log[..|log| - 1]), Repeat(a.at, a.n), c);
      KeepRepeat(a.at, a.n, c);
    }
  }

  // ---------------------------------------------------------------------------
  // The pruned, sharded history agrees with the full log

  ghost function HistoryOf(w: Limit, hash: Peer -> nat, prune: bool, run: seq<Event>, p: Peer): seq<int> {
    History(After(w, hash, prune, run)[Home(hash, p)], p)
  }

  function NextHistory(w: Limit, hash: Peer -> nat, prune: bool, h: seq<int>, p: Peer, e: Event): seq<int> {
    match e
    case Request(q, n, now) => if q == p && 0 < n then Serve(w, h, n, now).1 else h
    case Sweep(i, now) => if prune && i == Home(hash, p) then Keep(h, now - w.window) else h
  }

  /** A step changes p's history only if it is p's request or a sweep of p's shard. */
  lemma {:induction false} HistoryStep(w: Limit, hash: Peer -> nat, prune: bool, run: seq<Event>, p: Peer)
    requires run != []
    ensures HistoryOf(w, hash, prune, run, p) ==
            NextHistory(w, hash, prune, HistoryOf(w, hash, prune, run[..|run| - 1], p), p, run[|run| - 1])
  {
    var before, e := After(w, hash, prune, run[..|run| - 1]), run[|run| - 1];
    match e
    case Request(q, n, now) => AdmitHistory(w, before[Home(hash, q)], q, n, now, p);
    case Sweep(i, now) => if i < SHARDS { PruneHistory(before[i], now - w.window, p); }
  }

  lemma {:induction false} AdmitHistory(w: Limit, s: Shard, q: Peer, n: int, now: int, p: Peer)
    ensures History(Admit(w, s, q, n, now).1, p) ==
            if q == p && 0 < n then Serve(w, History(s, p), n, now).1 else History(s, p)
  {}

  lemma {:induction false} PruneHistory(s: Shard, cutoff: int, p: Peer)
    ensures History(Prune(s, cutoff), p) == Keep(History(s, p), cutoff)
  {}

  /** The history and the log agree on what the window ending at t still holds. */
  ghost predicate Agree(w: Limit, h: seq<int>, log: seq<Admission>, t: int) {
    Keep(h, t - w.window) == Keep(Units(log), t - w.window)
  }

  lemma {:induction false} ServeDecides(w: Limit, h: seq<int>, log: seq<Admission>, n: Pos, now: int)
    requires Agree(w, h, log, now)
    ensures Serve(w, h, n, now).0 == Fits(w, log, n, now)
  {
    UnitsCount(log, now - w.window);
  }

  /** Serving n from a history that matches the log leaves one that matches it. */
  lemma {:induction false} ServeKeepsMatch(w: Limit, h: seq<int>, log: seq<Admission>, n: Pos, now: int, t: int)
    requires Agree(w, h, log, now) && now <= t
    ensures Agree(w, Serve(w, h, n, now).1, if Fits(w, log, n, now) then log + [Admission(n, now)] else log, t)
  {
    ServeDecides(w, h, log, n, now);
    KeptAgrees(w, h, log, now, t);
    if Fits(w, log, n, now) {
      AdmittedAgrees(w, Keep(h, now - w.window), log, n, now, t);
    }
  }

  lemma {:induction false} KeptAgrees(w: Limit, h: seq<int>, log: seq<Admission>, now: int, t: int)
    requires Agree(w, h, log, now) && now <= t
    ensures Agree(w, Keep(h, now - w.window), log, t)
  {
    KeepTwice(Units(log), now - w.window, t - w.window);
  }

  lemma {:induction false} AdmittedAgrees(w: Limit, kept: seq<int>, log: seq<Admission>, n: Pos, now: int, t: int)
    requires Agree(w, kept, log, t)
    ensures Agree(w, kept + Repeat(now, n), log + [Admission(n, now)], t)
  {
    UnitsGrow(log, n, now);
    KeepGrow(kept, Units(log), Repeat(now, n), t - w.window);
  }

  lemma {:induction false} KeepGrow(a: seq<int>, b: seq<int>, x: seq<int>, c: int)
    requires Keep(a, c) == Keep(b, c)
    ensures Keep(a + x, c) == Keep(b + x, c)
  {
    KeepAppend(a, x, c);
    KeepAppend(b, x, c);
  }

  lemma {:induction false} UnitsGrow(log: seq<Admission>, n: Pos, now: int)
    ensures Units(log + [Admission(n, now)]) == Units(log) + Repeat(now, n)
  {}

  lemma {:induction false} NextKeepsMatch(w: Limit, hash: Peer -> nat, prune: bool, h: seq<int>, log: seq<Admission>,
                                          p: Peer, e: Event, t: int)
    requires Agree(w, h, log, t)
    requires e.Request? && e.peer == p ==> e.now <= t && Agree(w, h, log, e.now)
    requires e.Sweep? && e.shard == Home(hash, p) ==> e.now <= t
    ensures Agree(w, NextHistory(w, hash, prune, h, p, e), NextLog(Window(w), log, p, e), t)
  {
    if e.Request? && e.peer == p && 0 < e.n {
      ServeKeepsMatch(w, h, log, e.n, e.now, t);
    } else if e.Sweep? && e.shard == Home(hash, p) {
      PruneKeepsMatch(w, h, log, e.now, t);
    }
  }

  lemma {:induction false} PruneKeepsMatch(w: Limit, h: seq<int>, log: seq<Admission>, now: int, t: int)
    requires Agree(w, h, log, t) && now <= t
    ensures Agree(w, Keep(h, now - w.window), log, t)
  {
    KeepTwice(h, now - w.window, t - w.window);
  }

  /** For every instant a later request can see, the stored history and the full log
      agree on what the window still holds. */
  lemma {:induction false} HistoryMatchesLog(w: Limit, hash: Peer -> nat, prune: bool, run: seq<Event>, p: Peer, t: int)
    requires WellTimed(hash, run) && Beyond(hash, run, p, t)
    ensures Agree(w, HistoryOf(w, hash, prune, run, p), LogOf(Window(w), p, run), t)
  {
    if run == [] {
    } else {
      var before, e := run[..|run| - 1], run[|run| - 1];
      assert Beyond(hash, before, p, t);
      HistoryMatchesLog(w, hash, prune, before, p, t);
      if e.Request? && e.peer == p {
        assert Beyond(hash, before, p, e.now);
        HistoryMatchesLog(w, hash, prune, before, p, e.now);
      }
      NextKeepsMatch(w, hash, prune, HistoryOf(w, hash, prune, before, p), LogOf(Window(w), p, before), p, e, t);
      HistoryStep(w, hash, prune, run, p);
    }
  }

  // ---------------------------------------------------------------------------
  // Main results

  /** The machine decides as the gate's own, never pruned log does. */
  lemma {:induction false} GateExact(w: Limit, hash: Peer -> nat, prune: bool, run: seq<Event>, i: nat)
    requires WellTimed(hash, run) && i < |run| && run[i].Request?
    ensures AllowedAt(w, hash, prune, run, i) <==>
            run[i].n <= 0 || Fits(w, LogOf(Window(w), run[i].peer, run[..i]), run[i].n, run[i].now)
  {
    var before, p := run[..i], run[i].peer;
    assert WellTimed(hash, before) && Beyond(hash, before, p, run[i].now);
    if 0 < run[i].n {
      HistoryMatchesLog(w, hash, prune, before, p, run[i].now);
      ServeDecides(w, HistoryOf(w, hash, prune, before, p), LogOf(Window(w), p, before), run[i].n, run[i].now);
    }
  }

  /** The gate's log is what the machine allows. */
  lemma {:induction false} GrantedIsLog(w: Limit, hash: Peer -> nat, prune: bool, p: Peer, run: seq<Event>)
    requires WellTimed(hash, run)
    ensures Granted(w, hash, prune, p, run) == LogOf(Window(w), p, run)
  {
    if run == [] {
    } else {
      var last := |run| - 1;
      GrantedIsLog(w, hash, prune, p, run[..last]);
      if run[last].Request? { GateExact(w, hash, prune, run, last); }
    }
  }

  /** In every run, whatever the hash and however stale the prunings, n units are allowed
      if and only if n is zero or less or at most max - n of the units the machine has
      allowed that peer so far are younger than the window. */
  lemma {:induction false} WindowExact(w: Limit, hash: Peer -> nat, prune: bool, run: seq<Event>, i: nat)
    requires WellTimed(hash, run) && i < |run| && run[i].Request?
    ensures AllowedAt(w, hash, prune, run, i) <==>
            run[i].n <= 0 || Fits(w, Granted(w, hash, prune, run[i].peer, run[..i]), run[i].n, run[i].now)
  {
    GateExact(w, hash, prune, run, i);
    GrantedIsLog(w, hash, prune, run[i].peer, run[..i]);
  }

  /** Non-interference: the decision is that of a private limiter, under any hash, fed
      only this peer's requests and never pruned. */
  lemma {:induction false} NonInterference(w: Limit, hash: Peer -> nat, hash': Peer -> nat, run: seq<Event>, i: nat)
    requires WellTimed(hash, run) && i < |run| && run[i].Request?
    ensures var mine := Only(run[i].peer, run[..i]) + [run[i]];
            AllowedAt(w, hash, true, run, i) == AllowedAt(w, hash', false, mine, |mine| - 1)
  {
    var mine := Only(run[i].peer, run[..i]) + [run[i]];
    OwnRun(hash, hash', run, i);
    OnlyKeepsLog(Window(w), run[i].peer, run[..i]);
    GateExact(w, hash, true, run, i);
    GateExact(w, hash', false, mine, |mine| - 1);
  }

  /** Right after a request of p is decided, its history holds exactly what the window that
      ends then still held of everything the machine has allowed it, and what it was just
      allowed: nothing older survives, allowed or not. */
  lemma {:induction false} HistoryTrimmed(w: Limit, hash: Peer -> nat, prune: bool, run: seq<Event>, i: nat)
    requires WellTimed(hash, run) && i < |run| && run[i].Request? && 0 < run[i].n
    ensures var p, now := run[i].peer, run[i].now;
            HistoryOf(w, hash, prune, run[..i + 1], p) ==
            Keep(Units(Granted(w, hash, prune, p, run[..i])), now - w.window) +
            if AllowedAt(w, hash, prune, run, i) then Repeat(now, run[i].n) else []
  {
    TrimmedLog(w, hash, prune, run, i);
    GrantedIsLog(w, hash, prune, run[i].peer, run[..i]);
  }

  lemma {:induction false} TrimmedLog(w: Limit, hash: Peer -> nat, prune: bool, run: seq<Event>, i: nat)
    requires WellTimed(hash, run) && i < |run| && run[i].Request? && 0 < run[i].n
    ensures var p, now := run[i].peer, run[i].now;
            HistoryOf(w, hash, prune, run[..i + 1], p) ==
            Keep(Units(LogOf(Window(w), p, run[..i])), now - w.window) +
            if AllowedAt(w, hash, prune, run, i) then Repeat(now, run[i].n) else []
  {
    var before, p, now := run[..i], run[i].peer, run[i].now;
    assert WellTimed(hash, before) && Beyond(hash, before, p, now);
    AfterRequest(w, hash, prune, run, i);
    HistoryMatchesLog(w, hash, prune, before, p, now);
    ServeTrims(w, HistoryOf(w, hash, prune, before, p), LogOf(Window(w), p, before), run[i].n, now);
  }

  lemma {:induction false} AfterRequest(w: Limit, hash: Peer -> nat, prune: bool, run: seq<Event>, i: nat)
    requires i < |run| && run[i].Request? && 0 < run[i].n
    ensures var h := HistoryOf(w, hash, prune, run[..i], run[i].peer);
            && AllowedAt(w, hash, prune, run, i) == Serve(w, h, run[i].n, run[i].now).0
            && HistoryOf(w, hash, prune, run[..i + 1], run[i].peer) == Serve(w, h, run[i].n, run[i].now).1
  {
    assert run[..i + 1][..i] == run[..i];
    HistoryStep(w, hash, prune, run[..i + 1], run[i].peer);
  }

  lemma {:induction false} ServeTrims(w: Limit, h: seq<int>, log: seq<Admission>, n: Pos, now: int)
    requires Agree(w, h, log, now)
    ensures var (ok, h') := Serve(w, h, n, now);
            h' == Keep(Units(log), now - w.window) + if ok then Repeat(now, n) else []
  {}

  lemma {:induction false} KeepShrinks(h: seq<int>, cutoff: int)
    ensures |Keep(h, cutoff)| <= |h|
  {
    if h == [] {
    } else {
      KeepShrinks(h[..|h| - 1], cutoff);
    }
  }

  lemma {:induction false} NextHistoryBound(w: Limit, hash: Peer -> nat, prune: bool, h: seq<int>, p: Peer, e: Event)
    requires |h| <= Max(0, w.max)
    ensures |NextHistory(w, hash, prune, h, p, e)| <= Max(0, w.max)
  {
    KeepShrinks(h, e.now - w.window);
  }

  /** No peer's history ever holds more than max timestamps, however the clock runs. */
  lemma {:induction false} HistoryBound(w: Limit, hash: Peer -> nat, prune: bool, run: seq<Event>, p: Peer)
    ensures |HistoryOf(w, hash, prune, run, p)| <= Max(0, w.max)
  {
    if run == [] {
    } else {
      var before, e := run[..|run| - 1], run[|run| - 1];
      HistoryBound(w, hash, prune, before, p);
      HistoryStep(w, hash, prune, run, p);
      NextHistoryBound(w, hash, prune, HistoryOf(w, hash, prune, before, p), p, e);
    }
  }

  lemma {:induction false} PrunedKeys(s: Shard, cutoff: int, p: Peer)
    ensures p in Prune(s, cutoff) <==> Keep(History(s, p), cutoff) != []
  {}

  /** A cleanup pass keeps a peer of its shard if and only if the machine has allowed it
      something within the window that ends at the pass's clock. */
  lemma {:induction false} KeptIffRecent(w: Limit, hash: Peer -> nat, run: seq<Event>, p: Peer, now: int)
    requires WellTimed(hash, run) && Beyond(hash, run, p, now)
    ensures p in After(w, hash, true, run + [Sweep(Home(hash, p), now)])[Home(hash, p)] <==>
            0 < Since(Granted(w, hash, true, p, run), now - w.window + 1)
  {
    AfterSweep(w, hash, run, Home(hash, p), now);
    PrunedKeys(After(w, hash, true, run)[Home(hash, p)], now - w.window, p);
    HistoryMatchesLog(w, hash, true, run, p, now);
    GrantedIsLog(w, hash, true, p, run);
    RecentIffSince(w, HistoryOf(w, hash, true, run, p), LogOf(Window(w), p, run), now);
  }

  lemma {:induction false} AfterSweep(w: Limit, hash: Peer -> nat, run: seq<Event>, i: nat, now: int)
    requires i < SHARDS
    ensures After(w, hash, true, run + [Sweep(i, now)])[i] == Prune(After(w, hash, true, run)[i], now - w.window)
  {
    var run', e := run + [Sweep(i, now)], Sweep(i, now);
    assert run'[..|run'| - 1] == run && run'[|run'| - 1] == e;
    assert After(w, hash, true, run') == Step(w, hash, true, After(w, hash, true, run), e);
  }

  lemma {:induction false} RecentIffSince(w: Limit, h: seq<int>, log: seq<Admission>, now: int)
    requires Agree(w, h, log, now)
    ensures Keep(h, now - w.window) != [] <==> 0 < Since(log, now - w.window + 1)
  {
    UnitsCount(log, now - w.window);
  }

  /** What the entry at k found in its window covers everything from i on. */
  lemma {:induction false} WindowCovers(w: Limit, log: seq<Admission>, i: nat, k: nat)
    requires Sorted(log) && i <= k < |log| && Fits(w, log[..k], log[k].n, log[k].at)
    requires log[k].at - w.window < log[i].at
    ensures Sum(log[i..k + 1]) <= w.max
  {
    var rest, s := log[..k], log[k].at - w.window + 1;
    var f := FirstAt(rest, s);
    SinceSplit(rest, s, f);
    assert f <= i;
    SumDrop(rest, f, i);
    assert log[i..k + 1][..k - i] == rest[i..];
  }

  /** Entry k of the log was allowed on the entries before it. */
  ghost predicate Passed(w: Limit, log: seq<Admission>, k: int)
    requires 0 <= k < |log|
  {
    Fits(w, log[..k], log[k].n, log[k].at)
  }

  lemma EmptySlice(log: seq<Admission>, i: nat)
    requires i <= |log|
    ensures Sum(log[i..i]) == 0
  {}

  lemma {:induction false} BoundOnLog(w: Limit, log: seq<Admission>, a: int)
    requires Sorted(log) && forall k | 0 <= k < |log| :: Passed(w, log, k)
    ensures Between(log, a + 1, a + w.window) <= Max(0, w.max)
  {
    if w.window <= 0 {
      NoneBetween(log, a + 1, a + w.window);
    } else {
      var i, j := IntervalSplit(log, a + 1, a + w.window);
      if i < j {
        assert Passed(w, log, j - 1);
        WindowCovers(w, log, i, j - 1);
      } else {
        EmptySlice(log, i);
      }
    }
  }

  /** In every half-open interval one window long the machine allows at most max units. */
  lemma {:induction false} WindowBound(w: Limit, hash: Peer -> nat, prune: bool, p: Peer, run: seq<Event>, a: int)
    requires WellTimed(hash, run)
    ensures Between(Granted(w, hash, prune, p, run), a + 1, a + w.window) <= Max(0, w.max)
  {
    GrantedIsLog(w, hash, prune, p, run);
    var log := LogOf(Window(w), p, run);
    LogSorted(Window(w), hash, p, run);
    forall k | 0 <= k < |log| ensures Passed(w, log, k) {
      LogFits(Window(w), p, run, k);
    }
    BoundOnLog(w, log, a);
  }
}
