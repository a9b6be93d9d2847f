/** Theorems about every run of the token bucket. */
module TokenBucketProofs {
  import opened Prelude
  import opened PeerRuns
  import opened TokenBucket

  // ---------------------------------------------------------------------------
  // Levels

  /** The level a bucket holds at t once the requests of `log` have been paid. */
  ghost function Level(l: Limits, log: seq<Admission>, t: int): int {
    if log == [] then Cap(l)
    else
      var a := log[|log| - 1];
      Refill(l, Level(l, log[..|log| - 1], a.at) - a.n * l.window, t - a.at)
  }

  function Available(l: Limits, e: Option<Entry>, t: int): int { Touch(l, e, t).level }

  /** Lazy refill composes: refilling for a and then b is refilling for a + b. */
  lemma RefillComposes(l: Limits, level: int, a: int, b: int)
    requires 0 <= b
    ensures Refill(l, Refill(l, level, a), b) == Refill(l, level, a + b)
  {
    MulOrder(0, b, l.rate);
    assert (a + b) * l.rate == a * l.rate + b * l.rate;
  }

  lemma {:induction false} LevelComposes(l: Limits, log: seq<Admission>, s: int, t: int)
    requires s <= t
    ensures Level(l, log, t) == Refill(l, Level(l, log, s), t - s)
  {
    if log == [] {
      MulOrder(0, t - s, l.rate);
    } else {
      var a := log[|log| - 1];
      RefillComposes(l, Level(l, log[..|log| - 1], a.at) - a.n * l.window, s - a.at, t - s);
    }
  }

  ghost predicate Headroom(l: Limits, log: seq<Admission>, x: int, t: int, i: int)
    requires 0 <= i < |log|
  {
    x + l.window * Sum(log[i..]) <= Cap(l) + l.rate * (t - log[i].at)
  }

  /** What the level before the last admission must be for the level at t to reach x. */
  ghost function Needed(l: Limits, a: Admission, x: int, t: int): int {
    x + a.n * l.window - (t - a.at) * l.rate
  }

  lemma {:induction false} LevelStep(l: Limits, log: seq<Admission>, x: int, t: int)
    requires log != []
    ensures var last := |log| - 1;
            x <= Level(l, log, t) <==>
            x <= Cap(l) && Needed(l, log[last], x, t) <= Level(l, log[..last], log[last].at)
  {}

  lemma {:induction false} HeadroomLast(l: Limits, log: seq<Admission>, x: int, t: int)
    requires log != []
    ensures var last := |log| - 1;
            Headroom(l, log, x, t, last) <==> Needed(l, log[last], x, t) <= Cap(l)
  {
    var a := log[|log| - 1];
    assert log[|log| - 1..] == [a];
    assert Sum([a]) == a.n by { assert [a][..0] == []; }
  }

  ghost predicate Enveloped(l: Limits, log: seq<Admission>, x: int, t: int) {
    x <= Cap(l) && forall i | 0 <= i < |log| :: Headroom(l, log, x, t, i)
  }

  lemma {:induction false} EnvelopeStep(l: Limits, log: seq<Admission>, x: int, t: int)
    requires log != []
    ensures var last := |log| - 1;
            Enveloped(l, log, x, t) <==>
            x <= Cap(l) && Enveloped(l, log[..last], Needed(l, log[last], x, t), log[last].at)
  {
    var last := |log| - 1;
    var rest, y, s := log[..last], Needed(l, log[last], x, t), log[last].at;
    HeadroomLast(l, log, x, t);
    forall i | 0 <= i < last ensures Headroom(l, log, x, t, i) <==> Headroom(l, rest, y, s, i) {
      HeadroomStep(l, log, x, t, i);
    }
  }

  /** The level is the minimum of the envelope over all suffixes of the log. */
  lemma {:induction false} LevelIsEnvelope(l: Limits, log: seq<Admission>, x: int, t: int)
    ensures x <= Level(l, log, t) <==> Enveloped(l, log, x, t)
  {
    if log == [] {
    } else {
      var last := |log| - 1;
      LevelStep(l, log, x, t);
      EnvelopeStep(l, log, x, t);
      LevelIsEnvelope(l, log[..last], Needed(l, log[last], x, t), log[last].at);
    }
  }

  lemma {:induction false} HeadroomStep(l: Limits, log: seq<Admission>, x: int, t: int, i: int)
    requires 0 <= i < |log| - 1
    ensures var last := |log| - 1; var a := log[last];
            Headroom(l, log, x, t, i) <==>
            Headroom(l, log[..last], Needed(l, a, x, t), a.at, i)
  {
    var last := |log| - 1;
    var rest, a := log[..last], log[last];
    assert log[i..][..last - i] == rest[i..];
    assert l.window * (Sum(rest[i..]) + a.n) == l.window * Sum(rest[i..]) + l.window * a.n;
    assert l.rate * (t - log[i].at) == l.rate * (t - a.at) + l.rate * (a.at - log[i].at);
  }

  lemma {:induction false} WithinImpliesHeadroom(l: Limits, log: seq<Admission>, n: int, t: int, i: nat)
    requires Sorted(log) && i < |log| && Within(l, log, n, t, i)
    ensures Headroom(l, log, n * l.window, t, i)
  {
    var f := FirstAt(log, log[i].at);
    SinceSplit(log, log[i].at, f);
    SumDrop(log, f, i);
    MulOrder(Sum(log[i..]), Sum(log[f..]), l.window);
    assert l.window * (Sum(log[f..]) + n) == l.window * Sum(log[f..]) + n * l.window;
  }

  lemma {:induction false} HeadroomImpliesWithin(l: Limits, log: seq<Admission>, n: int, t: int, i: nat)
    requires Sorted(log) && i < |log|
    requires Headroom(l, log, n * l.window, t, FirstAt(log, log[i].at))
    ensures Within(l, log, n, t, i)
  {
    var f := FirstAt(log, log[i].at);
    assert f <= i && log[f].at == log[i].at;
    SinceSplit(log, log[i].at, f);
    MulSum(l.window, Sum(log[f..]), n);
  }

  lemma MulSum(w: int, a: int, b: int)
    ensures w * (a + b) == w * a + b * w
  {}

  /** A request fits the envelope exactly when the level covers its cost. */
  lemma {:induction false} FitsIsLevel(l: Limits, log: seq<Admission>, n: int, t: int)
    requires Sorted(log)
    ensures Fits(l, log, n, t) <==> n * l.window <= Level(l, log, t)
  {
    LevelIsEnvelope(l, log, n * l.window, t);
    MulOrder(n, l.burst, l.window);
    if Fits(l, log, n, t) {
      forall i | 0 <= i < |log| ensures Headroom(l, log, n * l.window, t, i) {
        WithinImpliesHeadroom(l, log, n, t, i);
      }
    }
    if n * l.window <= Level(l, log, t) {
      forall i | 0 <= i < |log| ensures Within(l, log, n, t, i) {
        HeadroomImpliesWithin(l, log, n, t, i);
      }
    }
  }

  lemma MulOrder(a: int, b: int, w: Pos)
    ensures a <= b <==> a * w <= b * w
  {}

  // ---------------------------------------------------------------------------
  // The sharded, evicting machine agrees with the log

  ghost function EntryOf(l: Limits, hash: Peer -> nat, evict: bool, run: seq<Event>, p: Peer): Option<Entry> {
    Lookup(After(l, hash, evict, run)[Home(hash, p)], p)
  }

  /** A step changes p's entry only if it is p's request or a sweep of p's shard. */
  lemma {:induction false} EntryStep(l: Limits, hash: Peer -> nat, evict: bool, run: seq<Event>, p: Peer)
    requires run != []
    ensures var e := run[|run| - 1];
            var entry := EntryOf(l, hash, evict, run[..|run| - 1], p);
            EntryOf(l, hash, evict, run, p) ==
            match e
            case Request(q, n, now) => if q == p then
                                         var c := Charge(l, entry, n, now).1;
                                         if c.None? then entry else c
                                       else entry
            case Sweep(i, now) => if evict && i == Home(hash, p) && entry.Some? && Evictable(l, entry.value, now)
                                  then None else entry
  {}

  /** A request served from an entry that stands for the log leaves an entry that
      stands for the log afterwards. */
  lemma {:induction false} ChargeKeepsLevel(l: Limits, e: Option<Entry>, log: seq<Admission>, n: Pos, now: int, t: int)
    requires Sorted(log) && now <= t
    requires Available(l, e, now) == Level(l, log, now)
    requires Available(l, e, t) == Level(l, log, t)
    ensures var c := Charge(l, e, n, now);
            && c.0.ok == Fits(l, log, n, now)
            && Available(l, if c.1.None? then e else c.1, t) ==
               Level(l, if Fits(l, log, n, now) then log + [Admission(n, now)] else log, t)
  {
    FitsIsLevel(l, log, n, now);
    MulOrder(n, l.burst, l.window);
    if Level(l, log, now) < n * l.window {
      LevelComposes(l, log, now, t);
    } else {
      LevelAppend(l, log, Admission(n, now), t);
    }
  }

  lemma {:induction false} LevelAppend(l: Limits, log: seq<Admission>, a: Admission, t: int)
    ensures Level(l, log + [a], t) == Refill(l, Level(l, log, a.at) - a.n * l.window, t - a.at)
  {
    assert (log + [a])[..|log|] == log;
  }

  /** Sweeping an entry that passes the eviction test changes nothing that any
      request at or after the sweep's clock can see. */
  lemma SweepKeepsAvailable(l: Limits, st: Entry, now: int, t: int)
    requires Evictable(l, st, now) && now <= t
    ensures Available(l, Some(st), t) == Available(l, None, t)
  {}

  /** At every instant a later request can see, the two numbers kept for p, or
      their absence, stand for exactly the level its whole log implies. */
  lemma {:induction false} AvailableIsLevel(l: Limits, hash: Peer -> nat, evict: bool, run: seq<Event>, p: Peer, t: int)
    requires WellTimed(hash, run) && Beyond(hash, run, p, t)
    ensures Available(l, EntryOf(l, hash, evict, run, p), t) == Level(l, LogOf(Envelope(l), p, run), t)
  {
    if run == [] {
    } else {
      var last := |run| - 1;
      var before, e := run[..last], run[last];
      assert Beyond(hash, before, p, t);
      AvailableIsLevel(l, hash, evict, before, p, t);
      EntryStep(l, hash, evict, run, p);
      if e.Request? && e.peer == p {
        assert Beyond(hash, before, p, e.now) && e.now <= t;
        AvailableIsLevel(l, hash, evict, before, p, e.now);
        LogSorted(Envelope(l), hash, p, before);
        RequestKeepsLevel(l, EntryOf(l, hash, evict, before, p), LogOf(Envelope(l), p, before), p, e, t);
      } else if e.Sweep? && e.shard == Home(hash, p) {
        SweepKeepsLevel(l, EntryOf(l, hash, evict, before, p), e.now, t);
      }
    }
  }

  lemma {:induction false} RequestKeepsLevel(l: Limits, entry: Option<Entry>, log: seq<Admission>, p: Peer, e: Event,
                                             t: int)
    requires e.Request? && e.peer == p && Sorted(log) && e.now <= t
    requires Available(l, entry, e.now) == Level(l, log, e.now)
    requires Available(l, entry, t) == Level(l, log, t)
    ensures var c := Charge(l, entry, e.n, e.now).1;
            Available(l, if c.None? then entry else c, t) == Level(l, NextLog(Envelope(l), log, p, e), t)
  {
    if 0 < e.n { ChargeKeepsLevel(l, entry, log, e.n, e.now, t); }
  }

  lemma SweepKeepsLevel(l: Limits, entry: Option<Entry>, now: int, t: int)
    requires now <= t
    ensures Available(l, if entry.Some? && Evictable(l, entry.value, now) then None else entry, t) ==
            Available(l, entry, t)
  {
    if entry.Some? && Evictable(l, entry.value, now) { SweepKeepsAvailable(l, entry.value, now, t); }
  }

  // ---------------------------------------------------------------------------
  // Main results

  /** The machine decides as the envelope of the gate's own log does. */
  lemma {:induction false} GateExact(l: Limits, hash: Peer -> nat, evict: bool, run: seq<Event>, i: nat)
    requires WellTimed(hash, run) && i < |run| && run[i].Request?
    ensures VerdictAt(l, hash, evict, run, i).ok <==>
            run[i].n <= 0 || Fits(l, LogOf(Envelope(l), run[i].peer, run[..i]), run[i].n, run[i].now)
  {
    RequestSeesLevel(l, hash, evict, run, i);
    FitsIsLevel(l, LogOf(Envelope(l), run[i].peer, run[..i]), run[i].n, run[i].now);
    MulOrder(run[i].n, l.burst, l.window);
  }

  /** The gate's log is what the machine grants. */
  lemma {:induction false} GrantedIsLog(l: Limits, hash: Peer -> nat, evict: bool, p: Peer, run: seq<Event>)
    requires WellTimed(hash, run)
    ensures Granted(l, hash, evict, p, run) == LogOf(Envelope(l), p, run)
  {
    if run == [] {
    } else {
      var last := |run| - 1;
      GrantedIsLog(l, hash, evict, p, run[..last]);
      if run[last].Request? { GateExact(l, hash, evict, run, last); }
    }
  }

  /** Exact envelope: in every run, whatever the hash and however sweeps interleave,
      a request is admitted if and only if it costs nothing or fits the envelope of
      everything the machine has granted that peer before. */
  lemma {:induction false} EnvelopeExact(l: Limits, hash: Peer -> nat, evict: bool, run: seq<Event>, i: nat)
    requires WellTimed(hash, run) && i < |run| && run[i].Request?
    ensures VerdictAt(l, hash, evict, run, i).ok <==>
            run[i].n <= 0 || Fits(l, Granted(l, hash, evict, run[i].peer, run[..i]), run[i].n, run[i].now)
  {
    GateExact(l, hash, evict, run, i);
    GrantedIsLog(l, hash, evict, run[i].peer, run[..i]);
  }

  /** What the request at position i finds, before it is charged. */
  lemma {:induction false} RequestSeesLevel(l: Limits, hash: Peer -> nat, evict: bool, run: seq<Event>, i: nat)
    requires WellTimed(hash, run) && i < |run| && run[i].Request?
    ensures var p := run[i].peer; var log := LogOf(Envelope(l), p, run[..i]);
            && Sorted(log)
            && Available(l, EntryOf(l, hash, evict, run[..i], p), run[i].now) == Level(l, log, run[i].now)
            && Level(l, log, run[i].now) <= Cap(l)
  {
    var before, p := run[..i], run[i].peer;
    assert WellTimed(hash, before);
    assert Beyond(hash, before, p, run[i].now);
    LogSorted(Envelope(l), hash, p, before);
    AvailableIsLevel(l, hash, evict, before, p, run[i].now);
  }

  /** The verdict as a function of the peer's admission log alone. */
  ghost function Told(l: Limits, log: seq<Admission>, n: int, now: int): Verdict {
    Charge(l, Some(Entry(Level(l, log, now), now)), n, now).0
  }

  lemma {:induction false} VerdictFromLog(l: Limits, hash: Peer -> nat, evict: bool, run: seq<Event>, i: nat)
    requires WellTimed(hash, run) && i < |run| && run[i].Request?
    ensures VerdictAt(l, hash, evict, run, i) ==
            Told(l, LogOf(Envelope(l), run[i].peer, run[..i]), run[i].n, run[i].now)
  {
    RequestSeesLevel(l, hash, evict, run, i);
  }

  /** Eviction is invisible: every decision and every reported wait equals that of a
      bucket that never evicts. */
  lemma {:induction false} EvictionInvisible(l: Limits, hash: Peer -> nat, run: seq<Event>, i: nat)
    requires WellTimed(hash, run) && i < |run| && run[i].Request?
    ensures VerdictAt(l, hash, true, run, i) == VerdictAt(l, hash, false, run, i)
  {
    VerdictFromLog(l, hash, true, run, i);
    VerdictFromLog(l, hash, false, run, i);
  }

  /** Non-interference: a peer is told exactly what a private bucket, under any other
      hash, tells it when fed only that peer's own requests. */
  lemma {:induction false} NonInterference(l: Limits, hash: Peer -> nat, hash': Peer -> nat, run: seq<Event>, i: nat)
    requires WellTimed(hash, run) && i < |run| && run[i].Request?
    ensures var mine := Only(run[i].peer, run[..i]) + [run[i]];
            VerdictAt(l, hash, true, run, i) == VerdictAt(l, hash', true, mine, |mine| - 1)
  {
    var mine := Only(run[i].peer, run[..i]) + [run[i]];
    OwnRun(hash, hash', run, i);
    OnlyKeepsLog(Envelope(l), run[i].peer, run[..i]);
    VerdictFromLog(l, hash, true, run, i);
    VerdictFromLog(l, hash', true, mine, |mine| - 1);
  }

  lemma {:induction false} RejectedKeepsLog(l: Limits, hash: Peer -> nat, run: seq<Event>, i: nat, p: Peer)
    requires WellTimed(hash, run) && i < |run| && run[i].Request?
    requires !VerdictAt(l, hash, true, run, i).ok
    ensures LogOf(Envelope(l), p, run[..i + 1]) == LogOf(Envelope(l), p, run[..i])
  {
    GateExact(l, hash, true, run, i);
    assert run[..i + 1][..i] == run[..i];
  }

  lemma {:induction false} RemovalKeepsLog(l: Limits, hash: Peer -> nat, run: seq<Event>, i: nat, j: nat, p: Peer)
    requires WellTimed(hash, run) && i < j <= |run| && run[i].Request?
    requires !VerdictAt(l, hash, true, run, i).ok
    ensures LogOf(Envelope(l), p, Without(run, i)[..j - 1]) == LogOf(Envelope(l), p, run[..j])
  {
    RejectedKeepsLog(l, hash, run, i, p);
    assert run[..j][..i + 1] == run[..i + 1] && run[..j][..i] == run[..i];
    WithoutKeepsLog(Envelope(l), p, run[..j], i);
    WithoutPrefix(run, i, j);
  }

  /** Rejections are stutters: deleting a rejected request from a run changes no
      other decision and no other wait. */
  lemma {:induction false} RejectionsStutter(l: Limits, hash: Peer -> nat, run: seq<Event>, i: nat, j: nat)
    requires WellTimed(hash, run) && i < j < |run| && run[i].Request? && run[j].Request?
    requires !VerdictAt(l, hash, true, run, i).ok
    ensures Without(run, i)[j - 1] == run[j]
    ensures VerdictAt(l, hash, true, run, j) == VerdictAt(l, hash, true, Without(run, i), j - 1)
  {
    var run' := Without(run, i);
    WithoutLater(run, i, j);
    RemovalKeepsLog(l, hash, run, i, j, run[j].peer);
    WithoutWellTimed(hash, run, i);
    VerdictFromLog(l, hash, true, run, j);
    VerdictFromLog(l, hash, true, run', j - 1);
  }

  // ---------------------------------------------------------------------------
  // Throughput

  /** Entry k of the log was admitted on the entries before it. */
  ghost predicate Passed(l: Limits, log: seq<Admission>, k: int)
    requires 0 <= k < |log|
  {
    Fits(l, log[..k], log[k].n, log[k].at)
  }

  lemma {:induction false} BoundOnLog(l: Limits, log: seq<Admission>, s: int, e: int)
    requires Sorted(log) && s <= e && forall k | 0 <= k < |log| :: Passed(l, log, k)
    ensures l.window * Between(log, s, e) <= l.burst * l.window + l.rate * (e - s)
  {
    var i, j := IntervalSplit(log, s, e);
    if i < j {
      assert Passed(l, log, j - 1);
      SuffixBound(l, log, i, j - 1);
      Widen(l, Sum(log[i..j]), log[j - 1].at - log[i].at, e - s);
    } else {
      assert Sum(log[i..j]) == 0;
      Widen(l, 0, 0, e - s);
    }
  }

  /** Over any interval the machine grants a peer at most burst plus the interval's refill. */
  lemma {:induction false} IntervalBound(l: Limits, hash: Peer -> nat, evict: bool, p: Peer, run: seq<Event>,
                                         s: int, e: int)
    requires WellTimed(hash, run) && s <= e
    ensures l.window * Between(Granted(l, hash, evict, p, run), s, e) <= l.burst * l.window + l.rate * (e - s)
  {
    var log := LogOf(Envelope(l), p, run);
    GrantedIsLog(l, hash, evict, p, run);
    LogSorted(Envelope(l), hash, p, run);
    forall k | 0 <= k < |log| ensures Passed(l, log, k) {
      LogFits(Envelope(l), p, run, k);
    }
    BoundOnLog(l, log, s, e);
  }

  lemma Widen(l: Limits, total: int, a: int, b: int)
    requires a <= b && l.window * total <= l.burst * l.window + l.rate * a
    ensures l.window * total <= l.burst * l.window + l.rate * b
  {}

  lemma {:induction false} SuffixBound(l: Limits, log: seq<Admission>, i: nat, k: nat)
    requires Sorted(log) && i <= k < |log| && Fits(l, log[..k], log[k].n, log[k].at)
    ensures l.window * Sum(log[i..k + 1]) <= l.burst * l.window + l.rate * (log[k].at - log[i].at)
  {
    var rest := log[..k];
    assert log[i..k + 1][..k - i] == rest[i..];
    if i == k {
      assert rest[i..] == [];
      MulOrder(log[k].n, l.burst, l.window);
    } else {
      WithinImpliesHeadroom(l, rest, log[k].n, log[k].at, i);
      MulSum(l.window, Sum(rest[i..]), log[k].n);
    }
  }

  // ---------------------------------------------------------------------------
  // Retry advice

  /** The wait covers the exact refill time shortfall / rate with more than half a
      millisecond to spare, and by at most a millisecond and a half. */
  lemma RefillWaitBounds(shortfall: Pos, rate: Pos)
    ensures var w := RefillWait(shortfall, rate);
            shortfall + 500_000 * rate < w * rate <= shortfall + 1_500_000 * rate
    ensures RefillWait(shortfall, rate) % MILLISECOND == 0
  {
    var d, w := shortfall / rate, RefillWait(shortfall, rate);
    Quotient(shortfall, rate);
    if 0 < d { RoundWithin(d); }
    WaitMargins(shortfall, d, w, rate);
    WaitWhole(shortfall, rate);
  }

  lemma WaitWhole(shortfall: Pos, rate: Pos)
    ensures RefillWait(shortfall, rate) % MILLISECOND == 0
  {
    if 0 < shortfall / rate {
      RoundWhole(shortfall / rate);
      NextMultiple(RoundToMillisecond(shortfall / rate));
    }
  }

  lemma RoundWhole(d: nat)
    ensures RoundToMillisecond(d) % MILLISECOND == 0
  {}

  lemma NextMultiple(a: int)
    requires a % MILLISECOND == 0
    ensures (a + MILLISECOND) % MILLISECOND == 0
  {}

  /** The wait is the only whole number of milliseconds within those margins. */
  lemma {:induction false} RefillWaitUnique(shortfall: Pos, rate: Pos, w: int)
    requires w % MILLISECOND == 0
    requires shortfall + 500_000 * rate < w * rate <= shortfall + 1_500_000 * rate
    ensures w == RefillWait(shortfall, rate)
  {
    var v := RefillWait(shortfall, rate);
    RefillWaitBounds(shortfall, rate);
    Apart(shortfall, rate, v, w);
    Apart(shortfall, rate, w, v);
    OneMultiple(v, w);
  }

  lemma Apart(shortfall: Pos, rate: Pos, v: int, w: int)
    requires shortfall + 500_000 * rate < w * rate && v * rate <= shortfall + 1_500_000 * rate
    ensures v - w < MILLISECOND
  {
    assert (v - w) * rate == v * rate - w * rate;
    MulOrder(MILLISECOND, v - w, rate);
  }

  lemma OneMultiple(v: int, w: int)
    requires v % MILLISECOND == 0 && w % MILLISECOND == 0
    requires v - w < MILLISECOND && w - v < MILLISECOND
    ensures v == w
  {}

  /** No wait is reported exactly when nothing is missing or nothing is ever refilled. */
  lemma RefillWaitZero(shortfall: int, rate: int)
    ensures RefillWait(shortfall, rate) == 0 <==> shortfall <= 0 || rate <= 0
  {}

  lemma Quotient(a: int, r: Pos)
    ensures a / r * r <= a < (a / r + 1) * r
  {}

  lemma RoundWithin(d: nat)
    ensures d - 499_999 <= RoundToMillisecond(d) <= d + 500_000
  {}

  lemma WaitMargins(shortfall: Pos, d: nat, w: int, rate: Pos)
    requires d * rate <= shortfall < (d + 1) * rate && d + 500_001 <= w <= d + 1_500_000
    ensures shortfall + 500_000 * rate < w * rate <= shortfall + 1_500_000 * rate
  {
    MulOrder(d + 500_001, w, rate);
    MulOrder(w, d + 1_500_000, rate);
    assert (d + 500_001) * rate == (d + 1) * rate + 500_000 * rate;
    assert (d + 1_500_000) * rate == d * rate + 1_500_000 * rate;
  }

  lemma RoundMonotone(d: nat, e: nat)
    requires d <= e
    ensures RoundToMillisecond(d) <= RoundToMillisecond(e)
  {}

  /** A larger shortfall is never told a shorter wait. */
  lemma RefillWaitMonotone(a: int, b: int, rate: Pos)
    requires a <= b
    ensures RefillWait(a, rate) <= RefillWait(b, rate)
  {
    if 0 < a {
      DivOrder(a, b, rate);
      if 0 < a / rate { RoundMonotone(a / rate, b / rate); }
    }
  }

  lemma DivOrder(a: int, b: int, r: Pos)
    requires a <= b
    ensures a / r <= b / r
  {
    Quotient(a, r);
    Quotient(b, r);
    MulOrder(b / r + 1, a / r, r);
  }

  lemma SpareAndExcess(l: Limits, level: int, cost: int, dt: nat, w: int)
    requires cost <= Cap(l)
    requires cost - level + 500_000 * l.rate < w * l.rate <= cost - level + 1_500_000 * l.rate
    ensures w - 500_000 <= dt ==> cost <= Refill(l, level, dt)
    ensures dt < w - 1_500_000 ==> Refill(l, level, dt) < cost
  {
    assert (w - 500_000) * l.rate == w * l.rate - 500_000 * l.rate;
    assert (w - 1_500_000) * l.rate == w * l.rate - 1_500_000 * l.rate;
    MulOrder(w - 500_000, dt, l.rate);
    MulOrder(w - 1_500_000, dt, l.rate);
  }

  lemma AdviceArithmetic(l: Limits, level: int, cost: int, dt: nat)
    requires level < cost <= Cap(l)
    ensures var w := RefillWait(cost - level, l.rate);
            && 0 < w
            && (w - 500_000 <= dt ==> cost <= Refill(l, level, dt))
            && (dt < w - 1_500_000 ==> Refill(l, level, dt) < cost)
  {
    RefillWaitBounds(cost - level, l.rate);
    SpareAndExcess(l, level, cost, dt, RefillWait(cost - level, l.rate));
  }

  /** What a rejected request that could ever succeed is told, in terms of the log:
      it fits at the advised instant and at every later one, it would already fit half
      a millisecond before, and it fits at no instant more than 1.5 ms before. */
  lemma {:induction false} AdviceOnLog(l: Limits, log: seq<Admission>, n: int, now: int, t: int)
    requires Sorted(log) && 0 < n <= l.burst && now <= t
    requires !Told(l, log, n, now).ok
    ensures var w := Told(l, log, n, now).wait;
            && 0 < w
            && (now + w - 500_000 <= t ==> Fits(l, log, n, t))
            && (t < now + w - 1_500_000 ==> !Fits(l, log, n, t))
  {
    FitsIsLevel(l, log, n, t);
    MulOrder(n, l.burst, l.window);
    LevelComposes(l, log, now, t);
    AdviceArithmetic(l, Level(l, log, now), n * l.window, t - now);
  }

  /** The advice given to the rejected request at position i, tight on both sides. */
  lemma {:induction false} RetryAdviceTight(l: Limits, hash: Peer -> nat, run: seq<Event>, i: nat, t: int)
    requires WellTimed(hash, run) && i < |run| && run[i].Request? && run[i].now <= t
    requires var v := VerdictAt(l, hash, true, run, i); !v.ok && 0 < v.wait
    ensures var w := VerdictAt(l, hash, true, run, i).wait;
            var log := Granted(l, hash, true, run[i].peer, run[..i]);
            && (run[i].now + w - 500_000 <= t ==> Fits(l, log, run[i].n, t))
            && (t < run[i].now + w - 1_500_000 ==> !Fits(l, log, run[i].n, t))
  {
    VerdictFromLog(l, hash, true, run, i);
    RequestSeesLevel(l, hash, true, run, i);
    GrantedIsLog(l, hash, true, run[i].peer, run[..i]);
    AdviceOnLog(l, LogOf(Envelope(l), run[i].peer, run[..i]), run[i].n, run[i].now, t);
  }

  /** A rejection reports no wait exactly when no later instant could admit the
      request, which is exactly when it costs more than the whole bucket. */
  lemma {:induction false} ZeroWaitIffHopeless(l: Limits, hash: Peer -> nat, run: seq<Event>, i: nat)
    requires WellTimed(hash, run) && i < |run| && run[i].Request?
    requires !VerdictAt(l, hash, true, run, i).ok
    ensures var w := VerdictAt(l, hash, true, run, i).wait;
            var log := Granted(l, hash, true, run[i].peer, run[..i]);
            && (w == 0 <==> forall t | run[i].now <= t :: !Fits(l, log, run[i].n, t))
            && (w == 0 <==> l.burst < run[i].n)
  {
    VerdictFromLog(l, hash, true, run, i);
    RequestSeesLevel(l, hash, true, run, i);
    GrantedIsLog(l, hash, true, run[i].peer, run[..i]);
    var log, n, now := LogOf(Envelope(l), run[i].peer, run[..i]), run[i].n, run[i].now;
    if n <= l.burst {
      var w := Told(l, log, n, now).wait;
      AdviceOnLog(l, log, n, now, now + w);
      assert Fits(l, log, n, now + w);
    }
  }

  /** No request of p with a positive cost is admitted strictly between i and j. */
  ghost predicate NoneAdmitted(l: Limits, hash: Peer -> nat, run: seq<Event>, p: Peer, i: nat, j: nat)
    requires i < j <= |run|
  {
    forall k | i < k < j && run[k].Request? && run[k].peer == p && 0 < run[k].n ::
      !VerdictAt(l, hash, true, run, k).ok
  }

  lemma {:induction false} QuietKeepsLog(l: Limits, hash: Peer -> nat, run: seq<Event>, p: Peer, i: nat, j: nat)
    requires WellTimed(hash, run) && i < j <= |run|
    requires run[i].Request? && run[i].peer == p && !VerdictAt(l, hash, true, run, i).ok
    requires NoneAdmitted(l, hash, run, p, i, j)
    ensures LogOf(Envelope(l), p, run[..j]) == LogOf(Envelope(l), p, run[..i])
    decreases j
  {
    var k := j - 1;
    assert run[..j][..k] == run[..k];
    if k == i {
      RejectedKeepsLog(l, hash, run, i, p);
    } else {
      assert NoneAdmitted(l, hash, run, p, i, k);
      QuietKeepsLog(l, hash, run, p, i, k);
      if run[k].Request? && run[k].peer == p && 0 < run[k].n {
        RejectedKeepsLog(l, hash, run, k, p);
      }
    }
  }

  /** Retry advice is sound: a rejected request that names a wait is admitted when it
      is repeated after that wait, whatever sweeps, other peers' requests and rejected
      requests of the same peer come in between. */
  lemma {:induction false} RetryAdviceSound(l: Limits, hash: Peer -> nat, run: seq<Event>, i: nat, j: nat)
    requires WellTimed(hash, run) && i < j < |run| && run[i].Request? && run[j].Request?
    requires run[j].peer == run[i].peer && run[j].n == run[i].n
    requires var v := VerdictAt(l, hash, true, run, i);
             !v.ok && 0 < v.wait && run[i].now + v.wait <= run[j].now
    requires NoneAdmitted(l, hash, run, run[i].peer, i, j)
    ensures VerdictAt(l, hash, true, run, j).ok
  {
    QuietKeepsLog(l, hash, run, run[i].peer, i, j);
    RetryAdviceTight(l, hash, run, i, run[j].now);
    GrantedIsLog(l, hash, true, run[i].peer, run[..i]);
    GateExact(l, hash, true, run, j);
  }

  /** Asking for more never shortens the advice. */
  lemma WaitMonotoneInCost(l: Limits, e: Option<Entry>, n: int, m: int, now: int)
    requires n <= m <= l.burst
    requires !Charge(l, e, n, now).0.ok
    ensures !Charge(l, e, m, now).0.ok
    ensures Charge(l, e, n, now).0.wait <= Charge(l, e, m, now).0.wait
  {
    MulOrder(n, m, l.window);
    var level := Touch(l, e, now).level;
    RefillWaitMonotone(n * l.window - level, m * l.window - level, l.rate);
  }

  // ---------------------------------------------------------------------------
  // Idle peers cost nothing

  ghost predicate Requested(run: seq<Event>, p: Peer, t: int) {
    exists i | 0 <= i < |run| :: run[i].Request? && run[i].peer == p && run[i].now == t
  }

  lemma RequestedGrows(run: seq<Event>, p: Peer, t: int)
    requires run != []
    ensures Requested(run[..|run| - 1], p, t) ==> Requested(run, p, t)
    ensures var e := run[|run| - 1]; e.Request? && e.peer == p ==> Requested(run, p, e.now)
  {}

  lemma ChargeLeaves(l: Limits, e: Option<Entry>, n: int, now: int)
    requires e.Some? ==> 0 <= e.value.level && e.value.last <= now
    ensures var c := Charge(l, e, n, now).1;
            c == e || (c.Some? && 0 <= c.value.level && c.value.last == now)
  {
    TouchLevel(l, e, now);
  }

  lemma TouchLevel(l: Limits, e: Option<Entry>, now: int)
    requires e.Some? ==> 0 <= e.value.level && e.value.last <= now
    ensures 0 <= Touch(l, e, now).level && Touch(l, e, now).last == now
  {
    MulOrder(0, l.burst, l.window);
    if e.Some? { MulOrder(0, now - e.value.last, l.rate); }
  }

  /** The state kept for p is the state some request of p left behind. */
  lemma {:induction false} EntryOrigin(l: Limits, hash: Peer -> nat, evict: bool, run: seq<Event>, p: Peer)
    requires WellTimed(hash, run) && EntryOf(l, hash, evict, run, p).Some?
    ensures var st := EntryOf(l, hash, evict, run, p).value;
            0 <= st.level && Requested(run, p, st.last)
  {
    var before, e := run[..|run| - 1], run[|run| - 1];
    EntryStep(l, hash, evict, run, p);
    var was := EntryOf(l, hash, evict, before, p);
    if was.Some? {
      EntryOrigin(l, hash, evict, before, p);
      RequestedGrows(run, p, was.value.last);
    } else {
      RequestedGrows(run, p, 0);
    }
    if e.Request? && e.peer == p {
      assert Beyond(hash, before, p, e.now);
      ChargeLeaves(l, was, e.n, e.now);
    }
  }

  /** A request of p is so long past, seen from `now`, that the idle time and a full
      refill have both gone by since. */
  predicate LongPast(l: Limits, p: Peer, e: Event, now: int) {
    e.Request? && e.peer == p ==> now - e.now >= 2 * l.window && (now - e.now) * l.rate >= Cap(l)
  }

  /** A sweep forgets every peer of its shard whose requests are all long past. */
  lemma {:induction false} IdlePeersForgotten(l: Limits, hash: Peer -> nat, run: seq<Event>, p: Peer, now: int)
    requires WellTimed(hash, run)
    requires forall i | 0 <= i < |run| :: LongPast(l, p, run[i], now)
    ensures EntryOf(l, hash, true, run + [Sweep(Home(hash, p), now)], p) == None
  {
    var run' := run + [Sweep(Home(hash, p), now)];
    assert run'[..|run|] == run;
    EntryStep(l, hash, true, run', p);
    if EntryOf(l, hash, true, run, p).Some? {
      EntryOrigin(l, hash, true, run, p);
      var st := EntryOf(l, hash, true, run, p).value;
      assert Requested(run, p, st.last);
      var i :| 0 <= i < |run| && run[i].Request? && run[i].peer == p && run[i].now == st.last;
      assert LongPast(l, p, run[i], now);
    }
  }

  /** A request that reads and writes the bucket's state: it costs something and is not
      beyond the bucket altogether. */
  predicate Touches(l: Limits, p: Peer, e: Event) {
    e.Request? && e.peer == p && 0 < e.n <= l.burst
  }

  lemma ChargeTouches(l: Limits, entry: Option<Entry>, n: int, now: int)
    ensures var c := Charge(l, entry, n, now).1;
            if 0 < n <= l.burst then c.Some? && c.value.last == now else c == entry
  {}

  /** The state kept for p is as recent as any request of p. */
  lemma {:induction false} EntryNewest(l: Limits, hash: Peer -> nat, evict: bool, run: seq<Event>, p: Peer, k: nat)
    requires WellTimed(hash, run) && EntryOf(l, hash, evict, run, p).Some?
    requires k < |run| && Touches(l, p, run[k])
    ensures run[k].now <= EntryOf(l, hash, evict, run, p).value.last
  {
    var last := |run| - 1;
    var before, e := run[..last], run[last];
    EntryStep(l, hash, evict, run, p);
    if e.Request? && e.peer == p { ChargeTouches(l, EntryOf(l, hash, evict, before, p), e.n, e.now); }
    if Touches(l, p, e) {
      assert EventShard(hash, run[k]) == EventShard(hash, run[last]);
    } else {
      EntryNewest(l, hash, evict, before, p, k);
    }
  }

  /** A sweep forgets a peer only if every request that touched its bucket is two windows
      past, and the bucket is full again. */
  lemma {:induction false} OnlyIdleForgotten(l: Limits, hash: Peer -> nat, run: seq<Event>, p: Peer, i: nat, now: int)
    requires WellTimed(hash, run) && EntryOf(l, hash, true, run, p).Some?
    requires EntryOf(l, hash, true, run + [Sweep(i, now)], p).None?
    ensures forall k | 0 <= k < |run| && Touches(l, p, run[k]) :: now - run[k].now >= 2 * l.window
    ensures Available(l, EntryOf(l, hash, true, run, p), now) == Cap(l)
  {
    var run' := run + [Sweep(i, now)];
    assert run'[..|run|] == run;
    EntryStep(l, hash, true, run', p);
    forall k | 0 <= k < |run| && Touches(l, p, run[k]) ensures now - run[k].now >= 2 * l.window {
      EntryNewest(l, hash, true, run, p, k);
    }
  }

  // ---------------------------------------------------------------------------
  // The dual limiter and the error a rejection becomes

  /** A step of a DualTokenBucket: a request names the side it charges; each side's
      evictor sweeps that side's shards. */
  datatype DualEvent = DualEvent(isWrite: bool, event: Event)

  function DualAfter(rd: Limits, wr: Limits, hash: Peer -> nat, run: seq<DualEvent>): (Shards, Shards) {
    if run == [] then (EMPTY_SHARDS, EMPTY_SHARDS)
    else
      var (r, w) := DualAfter(rd, wr, hash, run[..|run| - 1]);
      var e := run[|run| - 1];
      if e.isWrite then (r, Step(wr, hash, true, w, e.event)) else (Step(rd, hash, true, r, e.event), w)
  }

  function Side(isWrite: bool, run: seq<DualEvent>): seq<Event> {
    if run == [] then []
    else
      var e := run[|run| - 1];
      Side(isWrite, run[..|run| - 1]) + if e.isWrite == isWrite then [e.event] else []
  }

  /** Each side of a dual limiter is in the state of a single bucket that saw only
      that side's events. */
  lemma {:induction false} DualSidesIndependent(rd: Limits, wr: Limits, hash: Peer -> nat, run: seq<DualEvent>)
    ensures DualAfter(rd, wr, hash, run).0 == After(rd, hash, true, Side(false, run))
    ensures DualAfter(rd, wr, hash, run).1 == After(wr, hash, true, Side(true, run))
  {
    if run == [] {
    } else {
      var before, e := run[..|run| - 1], run[|run| - 1];
      DualSidesIndependent(rd, wr, hash, before);
      var charged, other := Side(e.isWrite, run), Side(!e.isWrite, run);
      assert charged[..|charged| - 1] == Side(e.isWrite, before);
      assert other == Side(!e.isWrite, before);
    }
  }

  /** rateLimited: the plain sentinel, or an error that carries the wait. */
  datatype RateError = ErrRateLimited | RateLimitedError(retryAfter: int)

  function RateLimited(retryAfter: int): RateError {
    if retryAfter <= 0 then ErrRateLimited else RateLimitedError(retryAfter)
  }

  /** The error a client sees names a wait exactly when waiting can help, and the wait
      it names then suffices. */
  lemma {:induction false} ErrorIsHonest(l: Limits, hash: Peer -> nat, run: seq<Event>, i: nat)
    requires WellTimed(hash, run) && i < |run| && run[i].Request?
    requires !VerdictAt(l, hash, true, run, i).ok
    ensures var log := Granted(l, hash, true, run[i].peer, run[..i]);
            match RateLimited(VerdictAt(l, hash, true, run, i).wait)
            case ErrRateLimited => forall t | run[i].now <= t :: !Fits(l, log, run[i].n, t)
            case RateLimitedError(w) =>
              && 0 < w == VerdictAt(l, hash, true, run, i).wait
              && forall t | run[i].now + w <= t :: Fits(l, log, run[i].n, t)
  {
    ZeroWaitIffHopeless(l, hash, run, i);
    var w := VerdictAt(l, hash, true, run, i).wait;
    if w > 0 {
      forall t | run[i].now + w <= t ensures Fits(l, Granted(l, hash, true, run[i].peer, run[..i]), run[i].n, t) {
        RetryAdviceTight(l, hash, run, i, t);
      }
    }
  }
}
