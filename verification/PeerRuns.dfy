/** What both per-peer limiters share: sharding by hash, runs of atomic steps, and
    admission logs. */
module PeerRuns {
  import opened Prelude

  const SHARDS := 64

  // ---------------------------------------------------------------------------
  // Runs

  function Home(hash: Peer -> nat, p: Peer): nat { hash(p) % SHARDS }

  /** One atomic step: a request holding its shard's lock, with the clock read
      under that lock, or evictIdle's pass over one shard, with the clock it read
      before taking any lock. */
  datatype Event =
    | Request(peer: Peer, n: int, now: int)
    | Sweep(shard: nat, now: int)

  function EventShard(hash: Peer -> nat, e: Event): nat {
    match e
    case Request(p, _, _) => Home(hash, p)
    case Sweep(i, _) => i
  }

  /** What a monotonic clock guarantees: a request reads its clock under the
      shard's lock, so it sees at least every clock value that an earlier step on
      that shard used. Sweeps may use arbitrarily old values, and nothing relates
      different shards. */
  ghost predicate WellTimed(hash: Peer -> nat, run: seq<Event>) {
    forall i, j | 0 <= i < j < |run| && run[j].Request? && EventShard(hash, run[i]) == EventShard(hash, run[j]) ::
      run[i].now <= run[j].now
  }

  /** Instant t is not before any clock value used on p's shard. */
  ghost predicate Beyond(hash: Peer -> nat, run: seq<Event>, p: Peer, t: int) {
    forall i | 0 <= i < |run| && EventShard(hash, run[i]) == Home(hash, p) :: run[i].now <= t
  }

  /** The requests of one peer, in order. */
  function Only(p: Peer, run: seq<Event>): seq<Event> {
    if run == [] then []
    else
      var e := run[|run| - 1];
      Only(p, run[..|run| - 1]) + if e.Request? && e.peer == p then [e] else []
  }

  lemma {:induction false} OnlyWellTimed(hash: Peer -> nat, p: Peer, run: seq<Event>)
    requires WellTimed(hash, run)
    ensures forall e | e in Only(p, run) :: e.Request? && e.peer == p
    ensures forall t | Beyond(hash, run, p, t) :: forall e | e in Only(p, run) :: e.now <= t
    ensures forall i, j | 0 <= i < j < |Only(p, run)| :: Only(p, run)[i].now <= Only(p, run)[j].now
  {
    if run == [] {
    } else {
      var before, e := run[..|run| - 1], run[|run| - 1];
      OnlyWellTimed(hash, p, before);
      forall t | Beyond(hash, run, p, t) ensures Beyond(hash, before, p, t) {}
      if e.Request? && e.peer == p { assert Beyond(hash, before, p, e.now); }
    }
  }

  /** A peer's own requests up to position i are well timed under any hash. */
  lemma {:induction false} OwnRun(hash: Peer -> nat, hash': Peer -> nat, run: seq<Event>, i: nat)
    requires WellTimed(hash, run) && i < |run| && run[i].Request?
    ensures var own := Only(run[i].peer, run[..i]);
            var mine := own + [run[i]];
            WellTimed(hash', mine) && mine[..|mine| - 1] == own
  {
    var p := run[i].peer;
    var mine := Only(p, run[..i]) + [run[i]];
    assert WellTimed(hash, run[..i + 1]) && run[..i + 1][..i] == run[..i];
    OnlyWellTimed(hash, p, run[..i + 1]);
    assert mine == Only(p, run[..i + 1]);
  }

  function Without(run: seq<Event>, i: nat): seq<Event>
    requires i < |run|
  {
    run[..i] + run[i + 1..]
  }

  lemma {:induction false} WithoutLater(run: seq<Event>, i: nat, j: nat)
    requires i < j < |run|
    ensures Without(run, i)[j - 1] == run[j]
  {}

  lemma {:induction false} WithoutPrefix(run: seq<Event>, i: nat, j: nat)
    requires i < j <= |run|
    ensures Without(run, i)[..j - 1] == Without(run[..j], i)
  {}

  lemma {:induction false} WithoutWellTimed(hash: Peer -> nat, run: seq<Event>, i: nat)
    requires WellTimed(hash, run) && i < |run|
    ensures WellTimed(hash, Without(run, i))
  {}

  // ---------------------------------------------------------------------------
  // Admission logs

  datatype Admission = Admission(n: Pos, at: int)

  /** Units admitted at or after instant s. */
  function Since(log: seq<Admission>, s: int): int {
    if log == [] then 0
    else
      var a := log[|log| - 1];
      Since(log[..|log| - 1], s) + if a.at >= s then a.n else 0
  }

  /** Units admitted to a log in the closed interval from s to e. */
  function Between(log: seq<Admission>, s: int, e: int): int {
    if log == [] then 0
    else
      var a := log[|log| - 1];
      Between(log[..|log| - 1], s, e) + if s <= a.at <= e then a.n else 0
  }

  function Sum(log: seq<Admission>): int {
    if log == [] then 0 else Sum(log[..|log| - 1]) + log[|log| - 1].n
  }

  ghost predicate Sorted(log: seq<Admission>) {
    forall i, j | 0 <= i <= j < |log| :: log[i].at <= log[j].at
  }

  lemma {:induction false} SumNonnegative(log: seq<Admission>)
    ensures 0 <= Sum(log)
  {
    if log == [] {
    } else {
      SumNonnegative(log[..|log| - 1]);
    }
  }

  lemma {:induction false} SinceSplit(log: seq<Admission>, s: int, i: nat)
    requires i <= |log|
    requires forall j | 0 <= j < i :: log[j].at < s
    requires forall j | i <= j < |log| :: s <= log[j].at
    ensures Since(log, s) == Sum(log[i..])
  {
    if i == |log| {
      SinceNone(log, s);
    } else {
      var last := |log| - 1;
      SinceSplit(log[..last], s, i);
      assert log[i..][..last - i] == log[..last][i..];
    }
  }

  lemma {:induction false} SinceNone(log: seq<Admission>, s: int)
    requires forall j | 0 <= j < |log| :: log[j].at < s
    ensures Since(log, s) == 0
  {
    if log == [] {
    } else {
      SinceNone(log[..|log| - 1], s);
    }
  }

  /** The first position holding an admission at or after s. */
  ghost function FirstAt(log: seq<Admission>, s: int): (i: nat)
    requires Sorted(log)
    ensures i <= |log|
    ensures forall j | 0 <= j < i :: log[j].at < s
    ensures forall j | i <= j < |log| :: s <= log[j].at
  {
    if log == [] || log[|log| - 1].at < s then |log| else FirstAt(log[..|log| - 1], s)
  }

  lemma {:induction false} SumDrop(log: seq<Admission>, i: nat, j: nat)
    requires i <= j <= |log|
    ensures Sum(log[j..]) <= Sum(log[i..])
  {
    if j < |log| {
      var last := |log| - 1;
      SumDrop(log[..last], i, j);
      assert log[i..][..last - i] == log[..last][i..];
      assert log[j..][..last - j] == log[..last][j..];
    } else {
      SumNonnegative(log[i..]);
    }
  }

  lemma {:induction false} NoneBetween(log: seq<Admission>, s: int, e: int)
    requires e < s
    ensures Between(log, s, e) == 0
  {
    if log == [] {
    } else {
      NoneBetween(log[..|log| - 1], s, e);
    }
  }

  lemma {:induction false} BetweenSplit(log: seq<Admission>, s: int, e: int, i: nat, j: nat)
    requires i <= j <= |log|
    requires forall k | 0 <= k < i :: log[k].at < s
    requires forall k | i <= k < j :: s <= log[k].at <= e
    requires forall k | j <= k < |log| :: e < log[k].at
    ensures Between(log, s, e) == Sum(log[i..j])
  {
    if log == [] {
    } else {
      var last := |log| - 1;
      if j == |log| && i < j {
        BetweenSplit(log[..last], s, e, i, last);
        SumSnoc(log, i);
      } else {
        var i', j' := Min(i, last), Min(j, last);
        BetweenSplit(log[..last], s, e, i', j');
        SameSlice(log, i, j, i', j');
      }
    }
  }

  lemma {:induction false} SumSnoc(log: seq<Admission>, i: nat)
    requires i < |log|
    ensures var last := |log| - 1; Sum(log[i..|log|]) == Sum(log[..last][i..last]) + log[last].n
  {
    var last := |log| - 1;
    assert log[i..|log|][..last - i] == log[..last][i..last];
  }

  lemma SameSlice(log: seq<Admission>, i: nat, j: nat, i': nat, j': nat)
    requires i <= j <= |log| && i' <= j' < |log| && ((i == i' && j == j') || (i == j && i' == j'))
    ensures log[i..j] == log[..|log| - 1][i'..j']
  {}

  lemma {:induction false} IntervalSplit(log: seq<Admission>, s: int, e: int) returns (i: nat, j: nat)
    requires Sorted(log) && s <= e
    ensures i <= j <= |log|
    ensures i < j ==> s <= log[i].at && log[j - 1].at <= e
    ensures Between(log, s, e) == Sum(log[i..j])
  {
    i, j := FirstAt(log, s), FirstAt(log, e + 1);
    assert i <= j by { assert j < |log| ==> e < log[j].at; }
    BetweenSplit(log, s, e, i, j);
  }

  // ---------------------------------------------------------------------------
  // The log a gate produces

  /** Whether n more units may be admitted at an instant, given everything admitted so far. */
  type Gate = (seq<Admission>, int, int) -> bool

  function NextLog(gate: Gate, log: seq<Admission>, p: Peer, e: Event): seq<Admission> {
    if e.Request? && e.peer == p && 0 < e.n && gate(log, e.n, e.now) then log + [Admission(e.n, e.now)] else log
  }

  /** What peer p is admitted in a run if the gate alone decides. */
  function LogOf(gate: Gate, p: Peer, run: seq<Event>): seq<Admission> {
    if run == [] then [] else NextLog(gate, LogOf(gate, p, run[..|run| - 1]), p, run[|run| - 1])
  }

  lemma {:induction false} LogSorted(gate: Gate, hash: Peer -> nat, p: Peer, run: seq<Event>)
    requires WellTimed(hash, run)
    ensures Sorted(LogOf(gate, p, run))
    ensures forall t | Beyond(hash, run, p, t) :: forall a | a in LogOf(gate, p, run) :: a.at <= t
  {
    if run == [] {
    } else {
      var before, e := run[..|run| - 1], run[|run| - 1];
      LogSorted(gate, hash, p, before);
      if e.Request? && e.peer == p { assert Beyond(hash, before, p, e.now); }
      forall t | Beyond(hash, run, p, t) ensures forall a | a in LogOf(gate, p, run) :: a.at <= t {
        assert Beyond(hash, before, p, t);
      }
    }
  }

  /** Every entry of the log passed the gate on the entries before it. */
  lemma {:induction false} LogFits(gate: Gate, p: Peer, run: seq<Event>, k: nat)
    requires k < |LogOf(gate, p, run)|
    ensures var log := LogOf(gate, p, run); gate(log[..k], log[k].n, log[k].at)
  {
    var before := run[..|run| - 1];
    var log, log' := LogOf(gate, p, before), LogOf(gate, p, run);
    if k < |log| {
      LogFits(gate, p, before, k);
      assert log'[..k] == log[..k];
    } else {
      assert log'[..k] == log;
    }
  }

  lemma {:induction false} OnlyKeepsLog(gate: Gate, p: Peer, run: seq<Event>)
    ensures LogOf(gate, p, Only(p, run)) == LogOf(gate, p, run)
  {
    if run == [] {
    } else {
      var before, e := run[..|run| - 1], run[|run| - 1];
      OnlyKeepsLog(gate, p, before);
      if e.Request? && e.peer == p {
        assert Only(p, run)[..|Only(p, run)| - 1] == Only(p, before);
      } else {
        assert Only(p, run) == Only(p, before);
      }
    }
  }

  lemma {:induction false} WithoutKeepsLog(gate: Gate, p: Peer, run: seq<Event>, i: nat)
    requires i < |run|
    requires LogOf(gate, p, run[..i + 1]) == LogOf(gate, p, run[..i])
    ensures LogOf(gate, p, Without(run, i)) == LogOf(gate, p, run)
  {
    var last := |run| - 1;
    if i == last {
      assert Without(run, i) == run[..i] && run[..i + 1] == run;
    } else {
      var before := run[..last];
      assert before[..i + 1] == run[..i + 1] && before[..i] == run[..i];
      WithoutKeepsLog(gate, p, before, i);
      WithoutPrefix(run, i, last);
    }
  }
}
