/** The frame readers of codec/frame.go as loops over a connection and a buffer. Each is
    proved to do what TimedRead says, so the pooled reader and the plain one agree. */
module FrameReader {
  import opened Prelude
  import opened Frames
  import opened TimedRead
  import opened BufferPool

  /** The stream a reader consumes. */
  class Conn {
    const wire: Wire
    var cur: Cursor

    ghost predicate Valid()
      reads this
    {
      cur.pos <= |wire.bytes|
    }

    constructor (wire: Wire, now: int)
      ensures Valid() && this.wire == wire && cur == Cursor(0, now, None)
    {
      this.wire, this.cur := wire, Cursor(0, now, None);
    }

    /** armRead */
    method ArmRead(idle: int)
      requires Valid()
      modifies this
      ensures Valid() && cur == Arm(wire, old(cur), idle)
    {
      if idle <= 0 { return; }
      if wire.deadlines {
        cur := cur.(deadline := Some(cur.now + idle));
      }
    }

    /** io.ReadFull(r, dst[off..end]): the bytes received so far land in dst even when
        the read fails. */
    method Fill(dst: array<Byte>, off: nat, end: nat) returns (ok: bool)
      requires Valid() && off <= end <= dst.Length
      modifies this, dst
      ensures Valid() && (ok, cur) == ReadFull(wire, old(cur), end - off)
      ensures ok ==> dst[off..end] == wire.bytes[old(cur).pos..cur.pos]
      ensures forall i | 0 <= i < dst.Length && !(off <= i < end) :: dst[i] == old(dst[i])
    {
      var from := cur.pos;
      var (done, next) := ReadFull(wire, cur, end - off);
      ok, cur := done, next;
      forall i | off <= i < off + (cur.pos - from) {
        dst[i] := wire.bytes[from + (i - off)];
      }
    }

    /** One round of the chunk loop, with `left` bytes of the body still to come: arm the
        deadline, then fill the next chunk of dst behind what was read since `start`. */
    method FillChunk(dst: array<Byte>, off: nat, left: Pos, idle: int, ghost start: nat) returns (ok: bool)
      requires Valid() && off + Min(CHUNK, left) <= dst.Length
      requires start <= cur.pos && dst[..off] == wire.bytes[start..cur.pos]
      modifies this, dst
      ensures Valid()
      ensures ok ==> cur.pos == old(cur).pos + Min(CHUNK, left)
      ensures ok ==> dst[..off + Min(CHUNK, left)] == wire.bytes[start..cur.pos]
      ensures ReadBody(wire, old(cur), left, idle) ==
              if ok then ReadBody(wire, cur, left - Min(CHUNK, left), idle) else (false, cur)
    {
      var end := off + Min(CHUNK, left);
      ArmRead(idle);
      ok := Fill(dst, off, end);
      if ok {
        assert dst[..end] == dst[..off] + dst[off..end];
        assert wire.bytes[start..cur.pos] == wire.bytes[start..old(cur).pos] + wire.bytes[old(cur).pos..cur.pos];
      }
    }

    /** readFrameLength */
    method ReadFrameLength(idle: int) returns (r: Length)
      requires Valid()
      modifies this
      ensures Valid() && r == ReadLength(wire, old(cur), idle) && cur == r.at
    {
      var lenBuf := new Byte[PREFIX];
      ArmRead(idle);
      var ok := Fill(lenBuf, 0, PREFIX);
      if !ok { return NoLength(ShortPrefix, cur); }
      assert lenBuf[..] == lenBuf[0..PREFIX];
      var n := Uint32(lenBuf[..]);
      if n == 0 { return NoLength(EmptyFrame, cur); }
      if n > MAX_FRAME { return NoLength(FrameTooLarge, cur); }
      return Length(n, cur);
    }

    /** readBodyInto: fill the first len bytes of dst a chunk at a time. */
    method ReadBodyInto(dst: array<Byte>, len: nat, idle: int) returns (ok: bool)
      requires Valid() && len <= dst.Length
      modifies this, dst
      ensures Valid() && (ok, cur) == ReadBody(wire, old(cur), len, idle)
      ensures ok ==> dst[..len] == wire.bytes[old(cur).pos..old(cur).pos + len]
    {
      ghost var start, result := cur.pos, ReadBody(wire, cur, len, idle);
      var off := 0;
      ghost var done := 0;
      while off < len
        invariant done == Min(off, len) && Valid() && cur.pos == start + done
        invariant ReadBody(wire, cur, len - done, idle) == result
        invariant dst[..done] == wire.bytes[start..cur.pos]
        decreases len - off
      {
        var got := FillChunk(dst, off, len - off, idle, start);
        if !got { return false; }
        off, done := off + CHUNK, Min(off + CHUNK, len);
      }
      return true;
    }

    /** readLargeBody: a result that grows with what has arrived. */
    method ReadLargeBody(length: nat, idle: int) returns (ok: bool, data: seq<Byte>)
      requires Valid()
      modifies this
      ensures Valid() && (ok, cur) == ReadBody(wire, old(cur), length, idle)
      ensures ok ==> data == wire.bytes[old(cur).pos..old(cur).pos + length]
    {
      ghost var start, result := cur.pos, ReadBody(wire, cur, length, idle);
      data := [];
      var chunk := new Byte[CHUNK];
      while |data| < length
        invariant Valid() && |data| <= length && cur.pos == start + |data|
        invariant ReadBody(wire, cur, length - |data|, idle) == result
        invariant data == wire.bytes[start..cur.pos]
        decreases length - |data|
      {
        var want := Min(CHUNK, length - |data|);
        ghost var had := cur.pos;
        var got := FillChunk(chunk, 0, length - |data|, idle, had);
        if !got { return false, []; }
        SliceJoin(wire.bytes, start, had, cur.pos);
        data := data + chunk[..want];
      }
      return true, data;
    }

    /** ReadFrameWithTimeout */
    method ReadFrameWithTimeout(idle: int) returns (r: Outcome)
      requires Valid()
      modifies this
      ensures Valid() && r == ReadFrame(wire, old(cur), idle) && cur == r.at
    {
      var len := ReadFrameLength(idle);
      if len.NoLength? { return Lost(len.error, cur); }
      var ok, data := ReadLargeBody(len.n, idle);
      if !ok { return Lost(ShortBody, cur); }
      return Got(data, cur);
    }
  }

  lemma SliceJoin<T>(s: seq<T>, a: nat, b: nat, c: nat)
    requires a <= b <= c <= |s|
    ensures s[a..b] + s[b..c] == s[a..c]
  {}

  /** ReadFramePooledWithTimeout refines ReadFrameWithTimeout: for every stream, timing and
      prior contents of the recycled arrays it succeeds on the same streams, returns the
      same payload and leaves the stream at the same place. On success the caller holds the
      buffer, whose array nobody else has, and owes its release. On failure no buffer stays
      out, and an array taken for the frame is back in its tier. */
  method ReadFramePooled(r: Conn, pool: Pool, idle: int, pick: nat) returns (b: Option<PoolBuffer>)
    requires r.Valid() && pool.Valid()
    modifies r, pool, pool.Arrays()
    ensures r.Valid() && pool.Valid()
    ensures r.cur == ReadFrame(r.wire, old(r.cur), idle).at
    ensures b.Some? <==> ReadFrame(r.wire, old(r.cur), idle).Got?
    ensures b.Some? ==>
              && fresh(b.value) && pool.held == old(pool.held) + {b.value}
              && b.value.len <= b.value.buf.Length && !b.value.released && b.value.tier == TierFor(b.value.len)
              && b.value.buf[..b.value.len] == ReadFrame(r.wire, old(r.cur), idle).payload
    ensures b.None? ==> pool.held == old(pool.held) && old(pool.Arrays()) <= pool.Arrays()
    ensures var len := ReadLength(r.wire, old(r.cur), idle);
            pool.hits == old(pool.hits) + if len.Length? && len.n <= TIER_LARGE then 1 else 0
    ensures pool.misses == old(pool.misses)
  {
    var len := r.ReadFrameLength(idle);
    if len.NoLength? { return None; }
    if len.n > TIER_LARGE {
      b := ReadUnpooledBody(r, pool, len.n, idle);
    } else {
      b := ReadPooledBody(r, pool, len.n, idle, pick);
    }
  }

  /** The part of ReadFramePooledWithTimeout behind the prefix, for a frame that fits no
      tier: a plain read into a buffer of its own. */
  method ReadUnpooledBody(r: Conn, pool: Pool, n: nat, idle: int) returns (b: Option<PoolBuffer>)
    requires r.Valid() && pool.Valid()
    modifies r, pool
    ensures r.Valid() && pool.Valid() && pool.bags == old(pool.bags)
    ensures pool.hits == old(pool.hits) && pool.misses == old(pool.misses)
    ensures (b.Some?, r.cur) == ReadBody(r.wire, old(r.cur), n, idle)
    ensures b.Some? ==>
              && fresh(b.value) && pool.held == old(pool.held) + {b.value}
              && b.value.len == n <= b.value.buf.Length && !b.value.released && b.value.tier == -1
              && b.value.buf[..n] == r.wire.bytes[old(r.cur).pos..old(r.cur).pos + n]
    ensures b.None? ==> pool.held == old(pool.held)
  {
    var ok, data := r.ReadLargeBody(n, idle);
    if !ok { return None; }
    var buf := new Byte[|data|](i requires 0 <= i < |data| => data[i]);
    assert buf[..] == data;
    var out := new PoolBuffer(buf, |data|, -1);
    pool.held := pool.held + {out};
    return Some(out);
  }

  /** The part of ReadFramePooledWithTimeout behind the prefix, for a frame that fits a tier. */
  method ReadPooledBody(r: Conn, pool: Pool, n: nat, idle: int, pick: nat) returns (b: Option<PoolBuffer>)
    requires r.Valid() && pool.Valid() && n <= TIER_LARGE
    modifies r, pool, pool.Arrays()
    ensures r.Valid() && pool.Valid()
    ensures (b.Some?, r.cur) == ReadBody(r.wire, old(r.cur), n, idle)
    ensures b.Some? ==>
              && fresh(b.value) && pool.held == old(pool.held) + {b.value}
              && b.value.len == n <= b.value.buf.Length && !b.value.released && b.value.tier == TierFor(n)
              && b.value.buf[..n] == r.wire.bytes[old(r.cur).pos..old(r.cur).pos + n]
    ensures b.None? ==> pool.held == old(pool.held) && old(pool.Arrays()) <= pool.Arrays()
    ensures pool.hits == old(pool.hits) + 1 && pool.misses == old(pool.misses)
  {
    var buf := pool.Get(n, pick);
    var ok := r.ReadBodyInto(buf.buf, buf.len, idle);
    if !ok {
      pool.Release(buf);
      return None;
    }
    return Some(buf);
  }
}
