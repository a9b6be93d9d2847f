/** The tiered buffer pool of codec/pool.go on real arrays. */
module BufferPool {
  import opened Prelude
  import opened Frames

  const TIER_SMALL := 4 * 1024
  const TIER_MEDIUM := 64 * 1024
  const TIER_LARGE := 1024 * 1024

  /** The tier that serves a size: 0, 1 and 2 are pooled, -1 is not. */
  function TierFor(size: nat): (t: int)
    ensures -1 <= t <= 2
    ensures t >= 0 ==> size <= TierSize(t) && (t > 0 ==> TierSize(t - 1) < size)
    ensures t == -1 <==> size > TIER_LARGE
    ensures t == 0 <==> size <= 4_096
    ensures t == 1 <==> 4_096 < size <= 65_536
    ensures t == 2 <==> 65_536 < size <= 1_048_576
  {
    if size <= TIER_SMALL then 0
    else if size <= TIER_MEDIUM then 1
    else if size <= TIER_LARGE then 2
    else -1
  }

  function TierSize(t: int): nat
    requires 0 <= t <= 2
  {
    if t == 0 then TIER_SMALL else if t == 1 then TIER_MEDIUM else TIER_LARGE
  }

  class PoolBuffer {
    const buf: array<Byte>
    const len: nat
    const tier: int
    var released: bool

    constructor (buf: array<Byte>, len: nat, tier: int)
      ensures this.buf == buf && this.len == len && this.tier == tier && !released
    {
      this.buf, this.len, this.tier, this.released := buf, len, tier, false;
    }
  }

  /** One bag of arrays per tier. A sync.Pool may lose an array at any time (Lose) and
      may hand out any array it has or make a new one (the `pick` of Get). */
  class Pool {
    var bags: seq<seq<array<Byte>>>
    var hits: nat
    var misses: nat
    ghost var held: set<PoolBuffer>

    /** The arrays waiting in some bag. */
    ghost function Arrays(): set<array<Byte>>
      reads this
    {
      ArraysIn(bags)
    }

    /** Every pooled array has its tier's size and is pooled once; the buffers handed out
        and not released have an array each, of their tier's size, that is not pooled. */
    ghost predicate Valid()
      reads this, held
    {
      && |bags| == 3
      && (forall t, i | 0 <= t < 3 && 0 <= i < |bags[t]| :: bags[t][i].Length == TierSize(t))
      && (forall t, i, j | 0 <= t < 3 && 0 <= i < j < |bags[t]| :: bags[t][i] != bags[t][j])
      && (forall b | b in held ::
            && !b.released && b.len <= b.buf.Length && -1 <= b.tier <= 2
            && (b.tier >= 0 ==> b.buf.Length == TierSize(b.tier))
            && b.buf !in Arrays())
      && (forall b, c | b in held && c in held && b != c :: b.buf != c.buf)
    }

    constructor ()
      ensures Valid() && fresh(this) && held == {} && bags == [[], [], []] && hits == misses == 0
    {
      bags, hits, misses, held := [[], [], []], 0, 0, {};
    }

    /** sync.Pool.Get of tier t: some pooled array, or a new one. */
    method Take(t: nat, pick: nat) returns (a: array<Byte>)
      requires Valid() && t < 3
      modifies this`bags
      ensures Valid() && a.Length == TierSize(t)
      ensures Arrays() == old(Arrays()) - {a} && forall b | b in held :: b.buf != a
      ensures fresh(a) || a in old(Arrays())
      ensures pick < |old(bags)[t]| ==> a == old(bags)[t][pick]
    {
      if pick < |bags[t]| {
        a := bags[t][pick];
        bags := bags[t := bags[t][..pick] + bags[t][pick + 1..]];
        Removed(old(bags), bags, t, pick);
        RemovedArrays(old(bags), bags, t, pick);
      } else {
        a := new Byte[TierSize(t)];
      }
    }

    /** BufferPool.Get: a buffer of exactly `size` bytes that nobody else holds. */
    method Get(size: nat, pick: nat) returns (b: PoolBuffer)
      requires Valid()
      modifies this
      ensures Valid() && fresh(b) && held == old(held) + {b}
      ensures b.len == size && b.tier == TierFor(size)
      ensures Arrays() == old(Arrays()) - {b.buf} && (fresh(b.buf) || b.buf in old(Arrays()))
      ensures size <= TIER_LARGE && pick < |old(bags)[TierFor(size)]| ==> b.buf == old(bags)[TierFor(size)][pick]
      ensures hits + misses == old(hits) + old(misses) + 1
      ensures hits == old(hits) + 1 <==> size <= TIER_LARGE
    {
      var t := TierFor(size);
      var a: array<Byte>;
      if t >= 0 {
        a := Take(t, pick);
        hits := hits + 1;
      } else {
        a := new Byte[size];
        misses := misses + 1;
      }
      b := new PoolBuffer(a, size, t);
      held := held + {b};
    }

    /** PoolBuffer.Release: the first call returns the array, later calls do nothing. */
    method Release(b: PoolBuffer)
      requires Valid() && (b in held || b.released)
      modifies this, b
      ensures Valid() && b.released && held == old(held) - {b}
      ensures old(b.released) || b.tier < 0 ==> bags == old(bags)
      ensures !old(b.released) && b.tier >= 0 ==> bags == old(bags)[b.tier := old(bags)[b.tier] + [b.buf]]
      ensures Arrays() == if old(b.released) || b.tier < 0 then old(Arrays()) else old(Arrays()) + {b.buf}
      ensures hits == old(hits) && misses == old(misses)
    {
      if b.released { return; }
      b.released := true;
      held := held - {b};
      if b.tier >= 0 {
        AddedArrays(bags, b.tier, b.buf);
        bags := bags[b.tier := bags[b.tier] + [b.buf]];
      }
    }

    /** The garbage collector empties part of a sync.Pool. */
    method Lose(t: nat, i: nat)
      requires Valid() && t < 3 && i < |bags[t]|
      modifies this`bags
      ensures Valid() && bags == old(bags)[t := old(bags)[t][..i] + old(bags)[t][i + 1..]]
    {
      bags := bags[t := bags[t][..i] + bags[t][i + 1..]];
      Removed(old(bags), bags, t, i);
    }
  }

  ghost function ArraysIn(bags: seq<seq<array<Byte>>>): set<array<Byte>> {
    set t, i | 0 <= t < |bags| && 0 <= i < |bags[t]| :: bags[t][i]
  }

  lemma AddedArrays(bags: seq<seq<array<Byte>>>, t: nat, a: array<Byte>)
    requires t < |bags|
    ensures ArraysIn(bags[t := bags[t] + [a]]) == ArraysIn(bags) + {a}
  {
    var after := bags[t := bags[t] + [a]];
    assert after[t][|bags[t]|] == a;
    forall x | x in ArraysIn(bags) ensures x in ArraysIn(after) {
      var u, i :| 0 <= u < |bags| && 0 <= i < |bags[u]| && bags[u][i] == x;
      assert after[u][i] == x;
    }
  }

  lemma RemovedArrays(before: seq<seq<array<Byte>>>, after: seq<seq<array<Byte>>>, t: nat, i: nat)
    requires t < |before| && i < |before[t]|
    requires after == before[t := before[t][..i] + before[t][i + 1..]]
    requires forall u, k | 0 <= u < |before| && 0 <= k < |before[u]| && before[u][k] == before[t][i] :: u == t && k == i
    ensures ArraysIn(after) == ArraysIn(before) - {before[t][i]}
  {
    Removed(before, after, t, i);
    forall x | x in ArraysIn(before) && x != before[t][i] ensures x in ArraysIn(after) {
      var u, k :| 0 <= u < |before| && 0 <= k < |before[u]| && before[u][k] == x;
      var k' := if u == t && i < k then k - 1 else k;
      assert after[u][k'] == x;
    }
    forall x | x in ArraysIn(after) ensures x in ArraysIn(before) && x != before[t][i] {
      var u, k :| 0 <= u < |after| && 0 <= k < |after[u]| && after[u][k] == x;
      var k' := if u == t && i <= k then k + 1 else k;
      assert before[u][k'] == x;
    }
  }

  /** Removing position i of bag t leaves every other array where Valid expects it. */
  lemma Removed(before: seq<seq<array<Byte>>>, after: seq<seq<array<Byte>>>, t: nat, i: nat)
    requires t < |before| && i < |before[t]|
    requires after == before[t := before[t][..i] + before[t][i + 1..]]
    ensures forall k | 0 <= k < |after[t]| :: after[t][k] == before[t][if k < i then k else k + 1]
  {}
}
