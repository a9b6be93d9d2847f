/** Concurrent use of the buffer pool: any number of goroutines get and release buffers,
    possibly releasing one buffer several times at once. One step is one atomic action:
    a sync.Pool operation or the compare-and-swap on a buffer's released flag. */
module PoolProtocol {
  import opened BufferPool

  type ArrayId = nat
  type BufferId = nat

  /** `putting` holds between winning the compare-and-swap and the Put that follows;
      `puts` counts how often this buffer has returned its array. */
  datatype Buffer = Buffer(arr: ArrayId, size: nat, tier: int, released: bool, putting: bool, puts: nat)

  datatype State = State(caps: map<ArrayId, nat>, bags: seq<multiset<ArrayId>>, buffers: map<BufferId, Buffer>)

  datatype Step =
    | GetPooled(b: BufferId, size: nat, a: ArrayId)
    | GetNew(b: BufferId, size: nat, a: ArrayId)
    | ReleaseSwap(b: BufferId)
    | ReleasePut(b: BufferId)
    | Lose(t: nat, a: ArrayId)

  predicate Init(s: State) {
    s == State(map[], [multiset{}, multiset{}, multiset{}], map[])
  }

  predicate Enabled(s: State, step: Step)
    requires |s.bags| == 3
  {
    match step
    case GetPooled(b, size, a) => b !in s.buffers && TierFor(size) >= 0 && a in s.bags[TierFor(size)]
    case GetNew(b, size, a) => b !in s.buffers && a !in s.caps
    case ReleaseSwap(b) => b in s.buffers
    case ReleasePut(b) => b in s.buffers && s.buffers[b].putting && 0 <= s.buffers[b].tier <= 2
    case Lose(t, a) => t < 3 && a in s.bags[t]
  }

  /** A compare-and-swap that finds the flag already set changes nothing. */
  function Next(s: State, step: Step): (s': State)
    requires |s.bags| == 3 && Enabled(s, step)
    ensures |s'.bags| == 3
  {
    match step
    case GetPooled(b, size, a) =>
      var t := TierFor(size);
      s.(bags := s.bags[t := s.bags[t] - multiset{a}],
         buffers := s.buffers[b := Buffer(a, size, t, false, false, 0)])
    case GetNew(b, size, a) =>
      var t := TierFor(size);
      s.(caps := s.caps[a := if t >= 0 then TierSize(t) else size],
         buffers := s.buffers[b := Buffer(a, size, t, false, false, 0)])
    case ReleaseSwap(b) =>
      var buf := s.buffers[b];
      if buf.released then s
      else s.(buffers := s.buffers[b := buf.(released := true, putting := buf.tier >= 0)])
    case ReleasePut(b) =>
      var buf := s.buffers[b];
      s.(bags := s.bags[buf.tier := s.bags[buf.tier] + multiset{buf.arr}],
         buffers := s.buffers[b := buf.(putting := false, puts := buf.puts + 1)])
    case Lose(t, a) =>
      s.(bags := s.bags[t := s.bags[t] - multiset{a}])
  }

  /** A buffer still answers for its array until the Put has happened. */
  predicate Owns(buf: Buffer) { !buf.released || buf.putting }

  /** Array a is in bag t once, and has that bag's size. */
  predicate PooledRight(s: State, t: nat, a: ArrayId)
    requires t < 3 && |s.bags| == 3
  {
    s.bags[t][a] == 1 && a in s.caps && s.caps[a] == TierSize(t)
  }

  /** The array is waiting in a bag. */
  predicate Pooled(s: State, a: ArrayId)
    requires |s.bags| == 3
  {
    a in s.bags[0] || a in s.bags[1] || a in s.bags[2]
  }

  ghost predicate Inv(s: State) {
    && |s.bags| == 3
    && (forall t, a | 0 <= t < 3 && a in s.bags[t] :: PooledRight(s, t, a))
    && (forall b | b in s.buffers :: BufferInv(s, s.buffers[b]))
    && (forall b, c | b in s.buffers && c in s.buffers && b != c && Owns(s.buffers[b]) && Owns(s.buffers[c]) ::
          s.buffers[b].arr != s.buffers[c].arr)
  }

  ghost predicate BufferInv(s: State, buf: Buffer)
    requires |s.bags| == 3
  {
    && -1 <= buf.tier <= 2 && buf.arr in s.caps && buf.size <= s.caps[buf.arr]
    && (buf.tier >= 0 ==> s.caps[buf.arr] == TierSize(buf.tier))
    && (buf.tier < 0 ==> s.caps[buf.arr] > TIER_LARGE)
    && (buf.putting ==> buf.released && buf.tier >= 0)
    && buf.puts == (if buf.released && !buf.putting && buf.tier >= 0 then 1 else 0)
    && (Owns(buf) ==> forall t | 0 <= t < 3 :: buf.arr !in s.bags[t])
  }

  lemma GetPooledKeepsInv(s: State, b: BufferId, size: nat, a: ArrayId)
    requires Inv(s) && Enabled(s, GetPooled(b, size, a))
    ensures Inv(Next(s, GetPooled(b, size, a)))
  {
    var s' := Next(s, GetPooled(b, size, a));
    assert PooledRight(s, TierFor(size), a);
    TakenOut(s, s', TierFor(size), a);
    OwnersStay(s, s', a);
    NewOwner(s, s', b, a);
  }

  /** From s to s' array a has been taken out of every bag, and nothing else. */
  ghost predicate Taken(s: State, s': State, a: ArrayId) {
    && |s.bags| == |s'.bags| == 3 && s'.caps == s.caps
    && forall u, x | 0 <= u < 3 :: s'.bags[u][x] == if x == a then 0 else s.bags[u][x]
  }

  /** Taking an array out of its bag leaves it in none and every other where it was. */
  lemma TakenOut(s: State, s': State, t: nat, a: ArrayId)
    requires Inv(s) && t < 3 && a in s.bags[t]
    requires s'.bags == s.bags[t := s.bags[t] - multiset{a}] && s'.caps == s.caps
    ensures Taken(s, s', a)
  {
    assert PooledRight(s, t, a);
  }

  lemma OwnersStay(s: State, s': State, a: ArrayId)
    requires Inv(s) && Taken(s, s', a)
    ensures forall t, x | 0 <= t < 3 && x in s'.bags[t] :: PooledRight(s', t, x)
    ensures forall c | c in s.buffers :: BufferInv(s', s.buffers[c])
  {
    forall t, x | 0 <= t < 3 && x in s'.bags[t] ensures PooledRight(s', t, x) {
      assert x in s.bags[t] && PooledRight(s, t, x);
    }
    forall c | c in s.buffers ensures BufferInv(s', s.buffers[c]) {
      assert BufferInv(s, s.buffers[c]);
    }
  }

  /** A new buffer on an array that was pooled shares it with no owner. */
  lemma NewOwner(s: State, s': State, b: BufferId, a: ArrayId)
    requires Inv(s) && b !in s.buffers && Pooled(s, a)
    requires b in s'.buffers && s'.buffers == s.buffers[b := s'.buffers[b]] && s'.buffers[b].arr == a
    ensures forall x, y | x in s'.buffers && y in s'.buffers && x != y && Owns(s'.buffers[x]) && Owns(s'.buffers[y]) ::
              s'.buffers[x].arr != s'.buffers[y].arr
  {
    forall c | c in s.buffers && Owns(s.buffers[c]) ensures s.buffers[c].arr != a {
      assert BufferInv(s, s.buffers[c]);
    }
  }

  lemma PutKeepsInv(s: State, b: BufferId)
    requires Inv(s) && Enabled(s, ReleasePut(b))
    ensures Inv(Next(s, ReleasePut(b)))
  {}

  lemma GetNewKeepsInv(s: State, b: BufferId, size: nat, a: ArrayId)
    requires Inv(s) && Enabled(s, GetNew(b, size, a))
    ensures Inv(Next(s, GetNew(b, size, a)))
  {}

  lemma SwapKeepsInv(s: State, b: BufferId)
    requires Inv(s) && Enabled(s, ReleaseSwap(b))
    ensures Inv(Next(s, ReleaseSwap(b)))
  {}

  lemma LoseKeepsInv(s: State, t: nat, a: ArrayId)
    requires Inv(s) && Enabled(s, Lose(t, a))
    ensures Inv(Next(s, Lose(t, a)))
  {
    TakenOut(s, Next(s, Lose(t, a)), t, a);
    OwnersStay(s, Next(s, Lose(t, a)), a);
  }

  lemma NextKeepsInv(s: State, step: Step)
    requires Inv(s) && Enabled(s, step)
    ensures Inv(Next(s, step))
  {
    match step
    case GetPooled(b, size, a) => GetPooledKeepsInv(s, b, size, a);
    case GetNew(b, size, a) => GetNewKeepsInv(s, b, size, a);
    case ReleaseSwap(b) => SwapKeepsInv(s, b);
    case ReleasePut(b) => PutKeepsInv(s, b);
    case Lose(t, a) => LoseKeepsInv(s, t, a);
  }

  /** The states some interleaving passes through. */
  ghost predicate Behaviour(states: seq<State>, steps: seq<Step>) {
    && |states| == |steps| + 1 && Init(states[0])
    && forall i | 0 <= i < |steps| ::
         |states[i].bags| == 3 && Enabled(states[i], steps[i]) && states[i + 1] == Next(states[i], steps[i])
  }

  lemma {:induction false} BehaviourInv(states: seq<State>, steps: seq<Step>, i: nat)
    requires Behaviour(states, steps) && i < |states|
    ensures Inv(states[i])
  {
    if i == 0 {
    } else {
      BehaviourInv(states, steps, i - 1);
      NextKeepsInv(states[i - 1], steps[i - 1]);
    }
  }

  /** In every interleaving: two unreleased buffers never share an array, an unreleased
      buffer's array is in no bag, an array is in a bag at most once and only in the bag
      of its size, and no buffer returns its array more than once. */
  lemma OwnershipSafe(states: seq<State>, steps: seq<Step>, i: nat)
    requires Behaviour(states, steps) && i < |states|
    ensures var s := states[i];
            && |s.bags| == 3
            && (forall b, c | b in s.buffers && c in s.buffers && b != c &&
                              !s.buffers[b].released && !s.buffers[c].released ::
                  s.buffers[b].arr != s.buffers[c].arr)
            && (forall b, t | b in s.buffers && !s.buffers[b].released && 0 <= t < 3 ::
                  s.buffers[b].arr !in s.bags[t])
            && (forall t, a | 0 <= t < 3 && a in s.bags[t] :: PooledRight(s, t, a))
            && (forall b | b in s.buffers :: s.buffers[b].puts <= 1)
  {
    BehaviourInv(states, steps, i);
  }

  // ---------------------------------------------------------------------------
  // Nothing that belongs in a tier goes missing

  ghost predicate Owned(s: State, a: ArrayId) {
    exists b | b in s.buffers :: s.buffers[b].arr == a && Owns(s.buffers[b])
  }

  /** An array of a tier's size is in a bag or some buffer answers for it. */
  ghost predicate Accounted(s: State, a: ArrayId)
    requires |s.bags| == 3
  {
    a in s.caps && s.caps[a] <= TIER_LARGE ==> Pooled(s, a) || Owned(s, a)
  }

  lemma OwnedByOther(s: State, s': State, a: ArrayId, b: BufferId)
    requires Owned(s, a) && s'.buffers.Keys == s.buffers.Keys + {b}
    requires forall c | c in s.buffers && c != b :: s'.buffers[c] == s.buffers[c]
    requires b in s.buffers && s.buffers[b].arr == a && Owns(s.buffers[b]) ==>
               s'.buffers[b].arr == a && Owns(s'.buffers[b])
    ensures Owned(s', a)
  {
    var c :| c in s.buffers && s.buffers[c].arr == a && Owns(s.buffers[c]);
    assert c in s'.buffers && s'.buffers[c].arr == a && Owns(s'.buffers[c]);
  }

  lemma GetKeepsAccount(s: State, step: Step, a: ArrayId)
    requires Inv(s) && Enabled(s, step) && (step.GetPooled? || step.GetNew?) && Accounted(s, a)
    ensures Accounted(Next(s, step), a)
  {
    var s' := Next(s, step);
    assert s'.buffers[step.b].arr == step.a && Owns(s'.buffers[step.b]);
    if Owned(s, a) { OwnedByOther(s, s', a, step.b); }
    if step.GetPooled? { TakenOut(s, s', TierFor(step.size), step.a); }
  }

  lemma SwapKeepsAccount(s: State, b: BufferId, a: ArrayId)
    requires Inv(s) && Enabled(s, ReleaseSwap(b)) && Accounted(s, a)
    ensures Accounted(Next(s, ReleaseSwap(b)), a)
  {
    var s' := Next(s, ReleaseSwap(b));
    assert BufferInv(s, s.buffers[b]);
    if Owned(s, a) && !s.buffers[b].released {
      if s.buffers[b].arr == a && s.buffers[b].tier < 0 {
        assert s.caps[a] > TIER_LARGE;
      } else {
        OwnedByOther(s, s', a, b);
      }
    }
  }

  lemma PutKeepsAccount(s: State, b: BufferId, a: ArrayId)
    requires Inv(s) && Enabled(s, ReleasePut(b)) && Accounted(s, a)
    ensures Accounted(Next(s, ReleasePut(b)), a)
  {
    if Owned(s, a) && s.buffers[b].arr != a { OwnedByOther(s, Next(s, ReleasePut(b)), a, b); }
  }

  lemma LoseKeepsAccount(s: State, t: nat, x: ArrayId, a: ArrayId)
    requires Inv(s) && Enabled(s, Lose(t, x)) && x != a && Accounted(s, a)
    ensures Accounted(Next(s, Lose(t, x)), a)
  {
    TakenOut(s, Next(s, Lose(t, x)), t, x);
    if Owned(s, a) {
      var c :| c in s.buffers && s.buffers[c].arr == a && Owns(s.buffers[c]);
      assert c in Next(s, Lose(t, x)).buffers;
    }
  }

  /** Conservation: in every interleaving an array of a tier's size that the runtime has not
      dropped from a bag is in a bag or owned by a buffer, never both and never by two; and
      a buffer whose release is under way can always finish it. */
  lemma {:induction false} ArraysConserved(states: seq<State>, steps: seq<Step>, i: nat, a: ArrayId)
    requires Behaviour(states, steps) && i < |states|
    requires forall k | 0 <= k < i && steps[k].Lose? :: steps[k].a != a
    ensures |states[i].bags| == 3 && Accounted(states[i], a)
    ensures Pooled(states[i], a) ==> !Owned(states[i], a)
    ensures var bs := states[i].buffers;
            forall b, c | b in bs && c in bs && bs[b].arr == a == bs[c].arr && Owns(bs[b]) && Owns(bs[c]) :: b == c
    ensures forall b | b in states[i].buffers && states[i].buffers[b].putting :: Enabled(states[i], ReleasePut(b))
  {
    BehaviourInv(states, steps, i);
    if i == 0 {
    } else {
      var s, step := states[i - 1], steps[i - 1];
      ArraysConserved(states, steps, i - 1, a);
      BehaviourInv(states, steps, i - 1);
      match step
      case GetPooled(_, _, _) => GetKeepsAccount(s, step, a);
      case GetNew(_, _, _) => GetKeepsAccount(s, step, a);
      case ReleaseSwap(b) => SwapKeepsAccount(s, b, a);
      case ReleasePut(b) => PutKeepsAccount(s, b, a);
      case Lose(t, x) => LoseKeepsAccount(s, t, x, a);
    }
  }

  /** The behaviour continued by one enabled step. */
  lemma Extend(states: seq<State>, steps: seq<Step>, step: Step) returns (states': seq<State>, steps': seq<Step>)
    requires Behaviour(states, steps) && |states[|steps|].bags| == 3 && Enabled(states[|steps|], step)
    ensures Behaviour(states', steps')
    ensures |steps'| == |steps| + 1 && states'[|steps'|] == Next(states[|steps|], step)
  {
    states', steps' := states + [Next(states[|steps|], step)], steps + [step];
  }

  /** Arrays are recycled: one made for a first buffer serves a second once it is released. */
  lemma ArrayRecycled() returns (states: seq<State>, steps: seq<Step>)
    ensures Behaviour(states, steps)
    ensures var s := states[|steps|];
            && 0 in s.buffers && 1 in s.buffers && s.buffers[0].arr == s.buffers[1].arr
            && s.buffers[0].released && !s.buffers[1].released && s.buffers[1].size == 4_096
  {
    states, steps := [State(map[], [multiset{}, multiset{}, multiset{}], map[])], [];
    states, steps := Extend(states, steps, GetNew(0, 10, 0));
    states, steps := Extend(states, steps, ReleaseSwap(0));
    states, steps := Extend(states, steps, ReleasePut(0));
    states, steps := Extend(states, steps, GetPooled(1, 4_096, 0));
  }
}
