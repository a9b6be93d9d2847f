/** The token bucket as an object whose shards are updated in place, each method
    proved to perform the corresponding step of the machine in TokenBucket. */
module TokenBucketImpl {
  import opened Prelude
  import opened PeerRuns
  import opened TokenBucket

  class Bucket {
    const config: Config
    const hash: Peer -> nat
    var shards: seq<Shard>

    /** Every peer lives in the shard its hash selects; an unlimited bucket tracks none. */
    ghost predicate Valid()
      reads this
    {
      && |shards| == SHARDS
      && (forall i, p | 0 <= i < SHARDS && p in shards[i] :: Home(hash, p) == i)
      && (config.Unlimited? ==> forall i | 0 <= i < SHARDS :: shards[i] == map[])
    }

    constructor (window: int, rate: int, burst: int, hash: Peer -> nat)
      ensures Valid() && shards == EMPTY_SHARDS && this.hash == hash
      ensures config.Unlimited? <==> rate <= 0
      ensures config.Limited? ==> config.limits.rate == rate
      ensures config.Limited? ==> config.limits.burst == if burst <= 0 then rate else burst
      ensures config.Limited? ==> config.limits.window == if window <= 0 then 60_000_000_000 else window
    {
      this.config := NewConfig(window, rate, burst);
      this.hash := hash;
      this.shards := EMPTY_SHARDS;
    }

    /** AllowNWithRetry; `now` is the clock read under the shard's lock. */
    method AllowNWithRetry(p: Peer, n: int, now: int) returns (ok: bool, wait: nat)
      requires Valid()
      modifies this
      ensures Valid()
      ensures config.Unlimited? ==> ok && wait == 0 && shards == old(shards)
      ensures config.Limited? ==>
                shards == Step(config.limits, hash, true, old(shards), Request(p, n, now))
      ensures config.Limited? ==>
                Verdict(ok, wait) == Charge(config.limits, Lookup(old(shards)[Home(hash, p)], p), n, now).0
    {
      if config.Unlimited? || n <= 0 {
        assert config.Limited? ==> shards[Home(hash, p) := shards[Home(hash, p)]] == shards;
        if config.Limited? { UpdateSame(shards[Home(hash, p)], p); }
        return true, 0;
      }
      var l := config.limits;
      if n > l.burst {
        UpdateSame(shards[Home(hash, p)], p);
        assert shards[Home(hash, p) := shards[Home(hash, p)]] == shards;
        return false, 0;
      }
      var i := Home(hash, p);
      var st: Entry;
      if p !in shards[i] {
        st := Entry(l.burst * l.window, now);
      } else {
        st := shards[i][p];
        var level := st.level + (now - st.last) * l.rate;
        if level > l.burst * l.window {
          level := l.burst * l.window;
        }
        st := Entry(level, now);
      }
      assert st == Touch(l, Lookup(shards[i], p), now);
      var cost := n * l.window;
      if st.level < cost {
        shards := shards[i := shards[i][p := st]];
        return false, RefillWait(cost - st.level, l.rate);
      }
      shards := shards[i := shards[i][p := Entry(st.level - cost, now)]];
      return true, 0;
    }

    lemma UpdateSame(s: Shard, p: Peer)
      ensures Update(s, p, Lookup(s, p)) == s
    {}

    /** evictIdle's pass over one shard, under its lock; `now` was read before the lock. */
    method EvictShard(i: nat, now: int)
      requires Valid() && config.Limited? && i < SHARDS
      modifies this
      ensures Valid()
      ensures shards == Step(config.limits, hash, true, old(shards), Sweep(i, now))
    {
      var l := config.limits;
      var todo := shards[i].Keys;
      while todo != {}
        invariant Valid()
        invariant todo <= shards[i].Keys
        invariant forall p :: p in shards[i] <==>
                    p in old(shards)[i] && (p in todo || !Evictable(l, old(shards)[i][p], now))
        invariant forall p | p in shards[i] :: shards[i][p] == old(shards)[i][p]
        invariant forall k | 0 <= k < SHARDS && k != i :: shards[k] == old(shards)[k]
        decreases todo
      {
        var p :| p in todo;
        todo := todo - {p};
        var st := shards[i][p];
        if now - st.last >= 2 * l.window && st.level + (now - st.last) * l.rate >= l.burst * l.window {
          shards := shards[i := shards[i] - {p}];
        }
      }
      assert shards[i] == SweepShard(l, old(shards)[i], now);
      assert shards == old(shards)[i := SweepShard(l, old(shards)[i], now)];
    }

    /** evictIdle without interference: one clock reading, then every shard in turn. */
    method EvictIdle(now: int)
      requires Valid() && config.Limited?
      modifies this
      ensures Valid()
      ensures forall i | 0 <= i < SHARDS :: shards[i] == SweepShard(config.limits, old(shards)[i], now)
    {
      for i := 0 to SHARDS
        invariant Valid()
        invariant forall k | 0 <= k < i :: shards[k] == SweepShard(config.limits, old(shards)[k], now)
        invariant forall k | i <= k < SHARDS :: shards[k] == old(shards)[k]
      {
        EvictShard(i, now);
      }
    }

    /** TrackedPeers: the sum of the shard sizes is the size of the flat map. */
    method TrackedPeers() returns (total: nat)
      requires Valid()
      ensures total == |Tracked(shards)|
      ensures forall p :: p in Tracked(shards) <==> p in shards[Home(hash, p)]
      ensures config.Unlimited? ==> total == 0
    {
      TrackedMembers(hash, shards);
      if config.Unlimited? {
        assert Tracked(shards) == {};
        return 0;
      }
      total := 0;
      for i := 0 to SHARDS
        invariant total == |Tracked(shards[..i])|
      {
        TrackedGrows(hash, shards, i);
        total := total + |shards[i]|;
      }
      assert shards[..SHARDS] == shards;
    }
  }

  /** The peers of a sequence of shards, as if the shards were one flat map. */
  ghost function Tracked(shards: seq<Shard>): set<Peer> {
    set i, p | 0 <= i < |shards| && p in shards[i] :: p
  }

  lemma TrackedMembers(hash: Peer -> nat, shards: seq<Shard>)
    requires |shards| == SHARDS
    requires forall i, p | 0 <= i < SHARDS && p in shards[i] :: Home(hash, p) == i
    ensures forall p :: p in Tracked(shards) <==> p in shards[Home(hash, p)]
  {}

  lemma TrackedGrows(hash: Peer -> nat, shards: seq<Shard>, i: nat)
    requires i < |shards|
    requires forall k, p | 0 <= k < |shards| && p in shards[k] :: Home(hash, p) == k
    ensures |Tracked(shards[..i + 1])| == |Tracked(shards[..i])| + |shards[i]|
  {
    var a, b := Tracked(shards[..i]), shards[i].Keys;
    forall p | p in a ensures p !in b {
      var k :| 0 <= k < i && p in shards[..i][k];
      assert p in shards[k] && Home(hash, p) == k;
      assert p in shards[i] ==> Home(hash, p) == i;
    }
    assert Tracked(shards[..i + 1]) == a + b;
  }

  /** DualTokenBucket: independent read and write buckets. */
  class DualBucket {
    const read: Bucket
    const write: Bucket

    ghost predicate Valid()
      reads this, read, write
    {
      read != write && read.Valid() && write.Valid()
    }

    constructor (window: int, readRate: int, readBurst: int, writeRate: int, writeBurst: int, hash: Peer -> nat)
      ensures Valid() && fresh(read) && fresh(write)
      ensures read.config == NewConfig(window, readRate, readBurst)
      ensures write.config == NewConfig(window, writeRate, writeBurst)
      ensures read.hash == hash && read.shards == EMPTY_SHARDS
      ensures write.hash == hash && write.shards == EMPTY_SHARDS
    {
      var r := new Bucket(window, readRate, readBurst, hash);
      var w := new Bucket(window, writeRate, writeBurst, hash);
      read, write := r, w;
    }

    /** The charged side takes the step and reports its own wait; the other is untouched. */
    method AllowNWithRetry(p: Peer, n: int, isWrite: bool, now: int) returns (ok: bool, wait: nat)
      requires Valid()
      modifies if isWrite then write else read
      ensures Valid()
      ensures var b := if isWrite then write else read;
              b.config.Limited? ==>
                && b.shards == Step(b.config.limits, b.hash, true, old(b.shards), Request(p, n, now))
                && Verdict(ok, wait) ==
                   Charge(b.config.limits, Lookup(old(b.shards)[Home(b.hash, p)], p), n, now).0
      ensures var b := if isWrite then write else read;
              b.config.Unlimited? ==> ok && wait == 0 && b.shards == old(b.shards)
    {
      if isWrite {
        ok, wait := write.AllowNWithRetry(p, n, now);
      } else {
        ok, wait := read.AllowNWithRetry(p, n, now);
      }
    }
  }
}
