/** The sliding-window limiter on mutable slices: histories are compacted in the
    arrays they are read from, grow by appending, and are dropped when empty. */
module SlidingWindowImpl {
  import opened Prelude
  import opened PeerRuns
  import opened SlidingWindow

  /** A Go slice: the first `len` elements of a backing array. */
  datatype Slice = Slice(buf: array<int>, len: nat)

  /** filtered := history[:0], then append every timestamp after the cutoff. The writes
      land in the array being read, at or before the element just read. */
  method Compact(s: Slice, cutoff: int) returns (r: Slice)
    requires s.len <= s.buf.Length
    modifies s.buf
    ensures r.buf == s.buf && r.len <= s.len
    ensures r.buf[..r.len] == Keep(old(s.buf[..s.len]), cutoff)
  {
    var a := s.buf;
    var k := 0;
    for i := 0 to s.len
      invariant k <= i
      invariant a[..k] == Keep(old(a[..i]), cutoff)
      invariant a[i..] == old(a[i..])
    {
      assert old(a[..i + 1])[..i] == old(a[..i]);
      assert a[i] == a[i..][0] == old(a[i..])[0];
      var t := a[i];
      if t > cutoff {
        a[k] := t;
        k := k + 1;
        assert a[..k] == a[..k - 1] + [t];
      }
      assert a[i + 1..] == old(a[i..])[1..];
    }
    r := Slice(a, k);
  }

  /** append: in place while there is capacity, otherwise into a new array. */
  method Append(s: Slice, t: int, grow: nat) returns (r: Slice)
    requires s.len <= s.buf.Length
    modifies s.buf
    ensures r.len == s.len + 1 <= r.buf.Length
    ensures r.buf == s.buf || fresh(r.buf)
    ensures r.buf[..r.len] == old(s.buf[..s.len]) + [t]
  {
    var a := s.buf;
    if s.len == a.Length {
      a := new int[s.len + 1 + grow];
      forall i | 0 <= i < s.len { a[i] := s.buf[i]; }
    }
    a[s.len] := t;
    r := Slice(a, s.len + 1);
  }

  method AppendCopies(s: Slice, t: int, n: nat, grow: nat) returns (r: Slice)
    requires s.len <= s.buf.Length
    modifies s.buf
    ensures r.len <= r.buf.Length && (r.buf == s.buf || fresh(r.buf))
    ensures r.buf[..r.len] == old(s.buf[..s.len]) + Repeat(t, n)
  {
    r := s;
    for i := 0 to n
      invariant r.len <= r.buf.Length && (r.buf == s.buf || fresh(r.buf))
      invariant r.buf[..r.len] == old(s.buf[..s.len]) + Repeat(t, i)
    {
      r := Append(r, t, grow);
    }
  }

  /** AllowN's work on one slice: compact, decide, and append all n timestamps or none. */
  method ServeSlice(w: Limit, s: Slice, n: Pos, now: int, grow: nat) returns (ok: bool, r: Slice)
    requires s.len <= s.buf.Length
    modifies s.buf
    ensures r.len <= r.buf.Length && (r.buf == s.buf || fresh(r.buf))
    ensures (ok, r.buf[..r.len]) == Serve(w, old(s.buf[..s.len]), n, now)
  {
    r := Compact(s, now - w.window);
    ok := r.len + n <= w.max;
    if ok {
      r := AppendCopies(r, now, n, grow);
    }
  }

  /** One shard, guarded by its mutex; each method runs under that mutex. */
  class WindowShard {
    const limit: Limit
    var history: map<Peer, Slice>
    ghost var arrays: set<array<int>>
    ghost var view: Shard  // the timestamps every peer holds

    /** q's slice is within its array, which is known, and holds what the view says. */
    ghost predicate Holds(q: Peer)
      requires q in history && q in view
      reads this, arrays
    {
      && history[q].buf in arrays && history[q].len <= history[q].buf.Length
      && view[q] == history[q].buf[..history[q].len]
    }

    /** No two peers share an array. */
    ghost predicate Apart()
      reads this
    {
      forall p, q | p in history && q in history && p != q :: history[p].buf != history[q].buf
    }

    ghost predicate Valid()
      reads this, arrays
    {
      view.Keys == history.Keys && Apart() && forall p | p in history :: Holds(p)
    }

    /** Valid, except that p's own array may have been written to. */
    ghost predicate ValidBut(p: Peer)
      reads this, arrays
    {
      view.Keys == history.Keys && Apart() && forall q | q in history && q != p :: Holds(q)
    }

    constructor (limit: Limit)
      ensures Valid() && view == map[] && this.limit == limit && arrays == {}
    {
      this.limit := limit;
      this.history, this.view, this.arrays := map[], map[], {};
    }

    /** s.history[p] = s, for a slice whose array is p's own or new. */
    method Store(p: Peer, s: Slice)
      requires ValidBut(p) && s.len <= s.buf.Length
      requires forall q | q in history && q != p :: history[q].buf != s.buf
      modifies this
      ensures Valid() && arrays == old(arrays) + {s.buf}
      ensures view == old(view)[p := s.buf[..s.len]]
    {
      history := history[p := s];
      arrays := arrays + {s.buf};
      view := view[p := s.buf[..s.len]];
      forall q | q in history ensures Holds(q) {
        if q != p { assert old(Holds(q)); }
      }
    }

    /** s.history[p], which is the nil slice for a new peer. */
    method Load(p: Peer) returns (s: Slice)
      requires Valid()
      ensures s.len <= s.buf.Length && s.buf[..s.len] == History(view, p)
      ensures s.buf in arrays || fresh(s.buf)
      ensures forall q | q in history && q != p :: history[q].buf != s.buf
    {
      if p in history {
        assert Holds(p);
        s := history[p];
      } else {
        var empty := new int[0];
        s := Slice(empty, 0);
        assert forall q | q in history :: Holds(q);
      }
    }

    /** AllowN under the shard's lock; `grow` is whatever spare capacity append chooses. */
    method AllowN(p: Peer, n: int, now: int, grow: nat) returns (ok: bool)
      requires Valid()
      modifies this, arrays
      ensures Valid() && old(arrays) <= arrays && fresh(arrays - old(arrays))
      ensures (ok, view) == Admit(limit, old(view), p, n, now)
    {
      if n <= 0 { return true; }
      var s := Load(p);
      assert forall q | q in history && q != p :: Holds(q);
      var r: Slice;
      ok, r := ServeSlice(limit, s, n, now, grow);
      assert forall q | q in history && q != p :: old(Holds(q));
      Store(p, r);
    }

    /** cleanup's pass over this shard, with a cutoff computed before the lock. */
    method Cleanup(cutoff: int)
      requires Valid()
      modifies this, arrays
      ensures Valid() && arrays == old(arrays)
      ensures view == Prune(old(view), cutoff)
    {
      ghost var before := view;
      var todo := history.Keys;
      HalfPrunedEnds(before, cutoff);
      while todo != {}
        invariant Valid() && arrays == old(arrays)
        invariant todo <= before.Keys && todo <= history.Keys
        invariant view == HalfPruned(before, todo, cutoff)
        decreases todo
      {
        var p :| p in todo;
        HalfPrunedStep(before, todo, p, cutoff);
        Filter(p, cutoff);
        Drop(p);
        todo := todo - {p};
      }
    }

    /** The filter of cleanup's inner loop, in p's own array. */
    method Filter(p: Peer, cutoff: int)
      requires Valid() && p in history
      modifies this, history[p].buf
      ensures Valid() && arrays == old(arrays)
      ensures view == old(view)[p := Keep(old(view)[p], cutoff)]
    {
      assert Holds(p);
      var s := Compact(history[p], cutoff);
      assert forall q | q in history && q != p :: old(Holds(q));
      Store(p, s);
    }

    /** The end of cleanup's inner loop: delete the key if nothing is left. */
    method Drop(p: Peer)
      requires Valid() && p in history
      modifies this
      ensures Valid() && arrays == old(arrays)
      ensures view == if old(view)[p] == [] then old(view) - {p} else old(view)
    {
      assert Holds(p);
      if history[p].len == 0 {
        history := history - {p};
        view := view - {p};
        forall q | q in history ensures Holds(q) { assert old(Holds(q)); }
      }
    }
  }

  /** A shard with the peers of `todo` still as they were and the others pruned. */
  ghost function HalfPruned(s: Shard, todo: set<Peer>, cutoff: int): Shard {
    map p | p in s && (p in todo || Keep(s[p], cutoff) != []) :: if p in todo then s[p] else Keep(s[p], cutoff)
  }

  lemma HalfPrunedEnds(s: Shard, cutoff: int)
    ensures HalfPruned(s, s.Keys, cutoff) == s && HalfPruned(s, {}, cutoff) == Prune(s, cutoff)
  {}

  lemma HalfPrunedStep(s: Shard, todo: set<Peer>, p: Peer, cutoff: int)
    requires p in todo && p in s
    ensures var was, kept := HalfPruned(s, todo, cutoff), Keep(s[p], cutoff);
            && p in was && was[p] == s[p]
            && HalfPruned(s, todo - {p}, cutoff) == if kept == [] then was[p := kept] - {p} else was[p := kept]
  {}
}
