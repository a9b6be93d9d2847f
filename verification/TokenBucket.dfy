/** The per-peer token bucket of middleware/tokenbucket.go, as a step machine.

    Time is in nanoseconds. A level counts tokens in units of 1/window, so that
    refilling for dt nanoseconds adds exactly dt * rate units and a request for
    n tokens costs exactly n * window units. */
module TokenBucket {
  import opened Prelude
  import opened PeerRuns

  const MILLISECOND := 1_000_000
  const MINUTE := 60_000_000_000

  datatype Limits = Limits(window: Pos, rate: Pos, burst: Pos)

  datatype Config = Unlimited | Limited(limits: Limits)

  /** NewTokenBucket: the defaults for a missing window and a missing burst. */
  function NewConfig(window: int, rate: int, burst: int): Config {
    if rate <= 0 then
      Unlimited
    else
      Limited(Limits(if window <= 0 then MINUTE else window, rate, if burst <= 0 then rate else burst))
  }

  /** tokenState: the level and the instant at which it was exact. */
  datatype Entry = Entry(level: int, last: int)

  datatype Verdict = Verdict(ok: bool, wait: nat)

  function Cap(l: Limits): int { l.burst * l.window }

  function Refill(l: Limits, level: int, dt: int): int {
    Min(Cap(l), level + dt * l.rate)
  }

  /** The bucket brought up to date at `now`; an unknown peer starts full. */
  function Touch(l: Limits, e: Option<Entry>, now: int): Entry {
    match e
    case None => Entry(Cap(l), now)
    case Some(st) => Entry(Refill(l, st.level, now - st.last), now)
  }

  /** Duration.Round to the millisecond: nearest, halves away from zero. */
  function RoundToMillisecond(d: nat): nat {
    var r := d % MILLISECOND;
    if r + r < MILLISECOND then d - r else d + (MILLISECOND - r)
  }

  function RefillWait(shortfall: int, rate: int): nat {
    if shortfall <= 0 || rate <= 0 then
      0
    else
      var d := shortfall / rate;
      if d <= 0 then MILLISECOND else RoundToMillisecond(d) + MILLISECOND
  }

  /** AllowNWithRetry of a limited bucket, on the state of the one peer it concerns. */
  function Charge(l: Limits, e: Option<Entry>, n: int, now: int): (Verdict, Option<Entry>) {
    if n <= 0 then
      (Verdict(true, 0), e)
    else if n > l.burst then
      (Verdict(false, 0), e)
    else
      var st := Touch(l, e, now);
      if st.level < n * l.window then
        (Verdict(false, RefillWait(n * l.window - st.level, l.rate)), Some(st))
      else
        (Verdict(true, 0), Some(Entry(st.level - n * l.window, now)))
  }

  /** The test evictIdle applies to one entry; `now` may be older than the entry. */
  predicate Evictable(l: Limits, st: Entry, now: int) {
    && now - st.last >= 2 * l.window
    && st.level + (now - st.last) * l.rate >= Cap(l)
  }

  type Shard = map<Peer, Entry>

  function Lookup(s: Shard, p: Peer): Option<Entry> {
    if p in s then Some(s[p]) else None
  }

  function Update(s: Shard, p: Peer, e: Option<Entry>): Shard {
    match e
    case None => s
    case Some(st) => s[p := st]
  }

  function SweepShard(l: Limits, s: Shard, now: int): Shard {
    map p | p in s && !Evictable(l, s[p], now) :: s[p]
  }

  /** The shards as one function of their index. */
  type Shards = s: seq<Shard> | |s| == SHARDS witness EMPTY_SHARDS

  const EMPTY_SHARDS: seq<Shard> := Repeat(map[], SHARDS)

  function Step(l: Limits, hash: Peer -> nat, evict: bool, shards: Shards, e: Event): Shards {
    match e
    case Request(p, n, now) =>
      var i := Home(hash, p);
      shards[i := Update(shards[i], p, Charge(l, Lookup(shards[i], p), n, now).1)]
    case Sweep(i, now) =>
      if evict && i < SHARDS then shards[i := SweepShard(l, shards[i], now)] else shards
  }

  /** The shards after a run; with `evict` false, sweeps do nothing. */
  function After(l: Limits, hash: Peer -> nat, evict: bool, run: seq<Event>): Shards {
    if run == [] then EMPTY_SHARDS
    else Step(l, hash, evict, After(l, hash, evict, run[..|run| - 1]), run[|run| - 1])
  }

  /** What the request at position i of a run is told. */
  function VerdictAt(l: Limits, hash: Peer -> nat, evict: bool, run: seq<Event>, i: nat): Verdict
    requires i < |run| && run[i].Request?
  {
    var p := run[i].peer;
    Charge(l, Lookup(After(l, hash, evict, run[..i])[Home(hash, p)], p), run[i].n, run[i].now).0
  }

  /** What the machine grants p in a run: the requests of p with a positive cost that were
      told yes, in order. */
  function Granted(l: Limits, hash: Peer -> nat, evict: bool, p: Peer, run: seq<Event>): seq<Admission> {
    if run == [] then []
    else
      var last := |run| - 1;
      var e := run[last];
      Granted(l, hash, evict, p, run[..last]) +
      if e.Request? && e.peer == p && 0 < e.n && VerdictAt(l, hash, evict, run, last).ok
      then [Admission(e.n, e.now)] else []
  }

  // ---------------------------------------------------------------------------
  // The specification: an admission log, and nothing else.

  /** Measured from the i-th admission: everything admitted at or after its instant,
      plus n, is at most burst + rate * elapsed / window. */
  predicate Within(l: Limits, log: seq<Admission>, n: int, now: int, i: nat)
    requires i < |log|
  {
    l.window * (Since(log, log[i].at) + n) <= l.burst * l.window + l.rate * (now - log[i].at)
  }

  /** The rate envelope: n more at `now` stay within it from every earlier admission. */
  predicate Fits(l: Limits, log: seq<Admission>, n: int, now: int) {
    && n <= l.burst
    && forall i | 0 <= i < |log| :: Within(l, log, n, now, i)
  }

  /** The gate the envelope is: with LogOf it says what a peer is admitted, without any
      part in it for the hash, the shards, other peers, sweeps or rejected requests. */
  function Envelope(l: Limits): Gate {
    (log: seq<Admission>, n: int, now: int) => Fits(l, log, n, now)
  }
}
