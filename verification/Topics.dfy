/** JoinTopic, LeaveTopic, Publish and Subscribe of node/node.go as interleaved atomic
    steps of any number of threads: one step per operation on a sync.Map, a mutex or
    pubsub, with every outcome pubsub may choose. */
module Topics {
  import opened Prelude

  datatype Name = Name(text: string)
  type Thread = nat
  type Lock = nat

  datatype Call = Join(n: Name) | Leave(n: Name) | Publish(n: Name) | Subscription(n: Name)

  /** Where a thread is. A `lock` is the mutex LoadOrStore returned to this thread. */
  datatype Pc =
    | Idle
    | JFast(n: Name)
    | JLookup(n: Name)
    | JAcquire(n: Name, lock: Lock)
    | JCheck(n: Name, lock: Lock)
    | JJoin(n: Name, lock: Lock)
    | JSubscribe(n: Name, lock: Lock)
    | JStoreTopic(n: Name, lock: Lock)
    | JStoreSub(n: Name, lock: Lock)
    | JUnlock(n: Name, lock: Lock, ok: bool)
    | JReturned(n: Name, ok: bool)
    | LLookup(n: Name)
    | LAcquire(n: Name, lock: Lock)
    | LDropSub(n: Name, lock: Lock)
    | LDropTopic(n: Name, lock: Lock)
    | LClose(n: Name, lock: Lock)
    | LUnlock(n: Name, lock: Lock, ok: bool)
    | LReturned(n: Name, ok: bool)
    | PLoad(n: Name)
    | PReturned(n: Name, found: bool)
    | SLoad(n: Name)
    | SReturned(n: Name, found: bool)

  /** `topics`, `subs` and `joinLocks` are the node's maps; `holder` says who holds which
      mutex and `made` which mutexes exist; `open` is the set of topics pubsub considers
      joined. `leaked` is an observer that no step consults: the topics for which a
      Subscribe or Close failed and no Join has succeeded since. */
  datatype State = State(
    topics: set<Name>, subs: set<Name>, joinLocks: map<Name, Lock>,
    holder: map<Lock, Thread>, made: set<Lock>,
    open: set<Name>, leaked: set<Name>,
    threads: map<Thread, Pc>)

  const INITIAL := State({}, {}, map[], map[], {}, {}, {}, map[])

  /** Begin a call, or take the current call one step further. `ok` is the outcome of the
      pubsub operation the step performs; `mutex` is the new mutex a LoadOrStore offers. */
  datatype Action = Begin(call: Call) | Proceed(ok: bool, mutex: Lock)

  datatype Step = Step(t: Thread, action: Action)

  function PcOf(s: State, t: Thread): Pc { if t in s.threads then s.threads[t] else Idle }

  predicate Between(pc: Pc) { pc.Idle? || pc.JReturned? || pc.LReturned? || pc.PReturned? || pc.SReturned? }

  predicate InJoin(pc: Pc) {
    pc.JFast? || pc.JLookup? || pc.JAcquire? || pc.JCheck? || pc.JJoin? || pc.JSubscribe? || pc.JStoreTopic? ||
    pc.JStoreSub? || pc.JUnlock?
  }

  predicate InLeave(pc: Pc) {
    pc.LLookup? || pc.LAcquire? || pc.LDropSub? || pc.LDropTopic? || pc.LClose? || pc.LUnlock?
  }

  /** A LoadOrStore offers a new mutex; a Lock waits until the mutex is free. */
  predicate MutexReady(s: State, pc: Pc, mutex: Lock) {
    && (pc.JLookup? || pc.LLookup? ==> mutex !in s.made)
    && (pc.JAcquire? || pc.LAcquire? ==> pc.lock !in s.holder)
  }

  predicate Enabled(s: State, step: Step) {
    var pc := PcOf(s, step.t);
    match step.action
    case Begin(_) => Between(pc)
    case Proceed(_, mutex) =>
      && !Between(pc)
      && MutexReady(s, pc, mutex)
  }

  function At(s: State, t: Thread, pc: Pc): State { s.(threads := s.threads[t := pc]) }

  /** LoadOrStore: the mutex already stored for n, or the one offered, which is then stored. */
  function LockFor(s: State, n: Name, mutex: Lock): Lock { if n in s.joinLocks then s.joinLocks[n] else mutex }

  function WithLock(s: State, n: Name, mutex: Lock): State {
    s.(joinLocks := s.joinLocks[n := LockFor(s, n, mutex)], made := s.made + {mutex})
  }

  function Entry(call: Call): Pc {
    match call
    case Join(n) => JFast(n)
    case Leave(n) => LLookup(n)
    case Publish(n) => PLoad(n)
    case Subscription(n) => SLoad(n)
  }

  /** One step of JoinTopic by thread t at pc. */
  function JoinStep(s: State, t: Thread, pc: Pc, ok: bool, mutex: Lock): State
    requires InJoin(pc)
  {
    match pc
    case JFast(n) => At(s, t, if n in s.topics then JReturned(n, true) else JLookup(n))
    case JLookup(n) => At(WithLock(s, n, mutex), t, JAcquire(n, LockFor(s, n, mutex)))
    case JAcquire(n, l) => At(s.(holder := s.holder[l := t]), t, JCheck(n, l))
    case JCheck(n, l) => At(s, t, if n in s.topics then JUnlock(n, l, true) else JJoin(n, l))
    case JJoin(n, l) =>
      if ok then At(s.(open := s.open + {n}, leaked := s.leaked - {n}), t, JSubscribe(n, l))
      else At(s, t, JUnlock(n, l, false))
    case JSubscribe(n, l) =>
      if ok then At(s, t, JStoreTopic(n, l))
      else At(s.(leaked := s.leaked + {n}), t, JUnlock(n, l, false))
    case JStoreTopic(n, l) => At(s.(topics := s.topics + {n}), t, JStoreSub(n, l))
    case JStoreSub(n, l) => At(s.(subs := s.subs + {n}), t, JUnlock(n, l, true))
    case JUnlock(n, l, r) => At(s.(holder := s.holder - {l}), t, JReturned(n, r))
  }

  /** One step of LeaveTopic by thread t at pc. */
  function LeaveStep(s: State, t: Thread, pc: Pc, ok: bool, mutex: Lock): State
    requires InLeave(pc)
  {
    match pc
    case LLookup(n) => At(WithLock(s, n, mutex), t, LAcquire(n, LockFor(s, n, mutex)))
    case LAcquire(n, l) => At(s.(holder := s.holder[l := t]), t, LDropSub(n, l))
    case LDropSub(n, l) => At(s.(subs := s.subs - {n}), t, LDropTopic(n, l))
    case LDropTopic(n, l) =>
      At(s.(topics := s.topics - {n}), t, if n in s.topics then LClose(n, l) else LUnlock(n, l, true))
    case LClose(n, l) =>
      At(if ok then s.(open := s.open - {n}) else s.(leaked := s.leaked + {n}), t, LUnlock(n, l, ok))
    case LUnlock(n, l, r) => At(s.(holder := s.holder - {l}), t, LReturned(n, r))
  }

  function Next(s: State, step: Step): State
    requires Enabled(s, step)
  {
    var t := step.t;
    match step.action
    case Begin(call) => At(s, t, Entry(call))
    case Proceed(ok, mutex) =>
      var pc := PcOf(s, t);
      if InJoin(pc) then JoinStep(s, t, pc, ok, mutex)
      else if InLeave(pc) then LeaveStep(s, t, pc, ok, mutex)
      else if pc.PLoad? then At(s, t, PReturned(pc.n, pc.n in s.topics))
      else At(s, t, SReturned(pc.n, pc.n in s.subs))
  }

  // ---------------------------------------------------------------------------
  // Invariant

  /** The thread holds its topic's mutex. */
  predicate Critical(pc: Pc) {
    pc.JCheck? || pc.JJoin? || pc.JSubscribe? || pc.JStoreTopic? || pc.JStoreSub? || pc.JUnlock? ||
    pc.LDropSub? || pc.LDropTopic? || pc.LClose? || pc.LUnlock?
  }

  predicate HasLock(pc: Pc) { Critical(pc) || pc.JAcquire? || pc.LAcquire? }

  ghost predicate LockInv(s: State) {
    && (forall n | n in s.joinLocks :: s.joinLocks[n] in s.made)
    && (forall n, m | n in s.joinLocks && m in s.joinLocks && n != m :: s.joinLocks[n] != s.joinLocks[m])
    && (forall t | t in s.threads && HasLock(s.threads[t]) ::
          s.threads[t].n in s.joinLocks && s.joinLocks[s.threads[t].n] == s.threads[t].lock)
    && (forall t | t in s.threads && Critical(s.threads[t]) ::
          s.threads[t].lock in s.holder && s.holder[s.threads[t].lock] == t)
    && (forall l | l in s.holder ::
          s.holder[l] in s.threads && Critical(s.threads[s.holder[l]]) && s.threads[s.holder[l]].lock == l)
  }

  /** What is true of one topic when the thread holding its mutex is at pc (Idle when the
      mutex is free): T, S, O and L say whether it is in topics, subs, open and leaked. */
  predicate Rule(pc: Pc, T: bool, S: bool, O: bool, L: bool) {
    && !(T && L)
    && (O <==> T || L || pc.JSubscribe? || pc.JStoreTopic? || pc.LClose?)
    && match pc
       case JJoin(_, _) => !T && !S
       case JSubscribe(_, _) => !T && !S && !L
       case JStoreTopic(_, _) => !T && !S && !L
       case JStoreSub(_, _) => T && !S
       case LDropTopic(_, _) => !S
       case LClose(_, _) => !T && !S && !L
       case LUnlock(_, _, _) => !T && !S
       case _ => T == S
  }

  /** The position of the thread that holds n's mutex, if any. */
  function Inside(s: State, n: Name): Pc {
    if n in s.joinLocks && s.joinLocks[n] in s.holder then PcOf(s, s.holder[s.joinLocks[n]]) else Idle
  }

  predicate TopicInv(s: State, n: Name) {
    Rule(Inside(s, n), n in s.topics, n in s.subs, n in s.open, n in s.leaked)
  }

  ghost predicate Inv(s: State) {
    LockInv(s) && forall n: Name :: TopicInv(s, n)
  }

  /** From s to s' only thread t moves, keeping its mutex and whether it holds it. */
  ghost predicate Moves(s: State, s': State, t: Thread) {
    var pc, pc' := PcOf(s, t), PcOf(s', t);
    && s'.joinLocks == s.joinLocks && s'.holder == s.holder && s'.made == s.made
    && s'.threads == s.threads[t := pc']
    && Critical(pc') == Critical(pc) && HasLock(pc') == HasLock(pc)
    && (HasLock(pc) ==> pc'.n == pc.n && pc'.lock == pc.lock)
  }

  lemma MoveKeepsLocks(s: State, s': State, t: Thread)
    requires LockInv(s) && Moves(s, s', t)
    ensures LockInv(s')
  {}

  lemma LookupKeepsLocks(s: State, t: Thread, n: Name, mutex: Lock, pc: Pc)
    requires LockInv(s) && mutex !in s.made && !HasLock(PcOf(s, t))
    requires pc == JAcquire(n, LockFor(s, n, mutex)) || pc == LAcquire(n, LockFor(s, n, mutex))
    ensures LockInv(At(WithLock(s, n, mutex), t, pc))
  {}

  lemma AcquireKeepsLocks(s: State, t: Thread, l: Lock, pc: Pc)
    requires LockInv(s) && l !in s.holder && HasLock(PcOf(s, t)) && !Critical(PcOf(s, t)) && PcOf(s, t).lock == l
    requires Critical(pc) && pc.lock == l && pc.n == PcOf(s, t).n
    ensures LockInv(At(s.(holder := s.holder[l := t]), t, pc))
  {}

  lemma UnlockKeepsLocks(s: State, t: Thread, l: Lock, pc: Pc)
    requires LockInv(s) && Critical(PcOf(s, t)) && PcOf(s, t).lock == l && !HasLock(pc)
    ensures LockInv(At(s.(holder := s.holder - {l}), t, pc))
  {}

  /** The step is a LoadOrStore, a Lock or an Unlock; every other step is a mere move. */
  predicate OnMutex(pc: Pc) {
    pc.JLookup? || pc.LLookup? || pc.JAcquire? || pc.LAcquire? || pc.JUnlock? || pc.LUnlock?
  }

  lemma JoinMoves(s: State, t: Thread, ok: bool, mutex: Lock)
    requires InJoin(PcOf(s, t)) && !OnMutex(PcOf(s, t))
    ensures Moves(s, JoinStep(s, t, PcOf(s, t), ok, mutex), t)
  {}

  lemma LeaveMoves(s: State, t: Thread, ok: bool, mutex: Lock)
    requires InLeave(PcOf(s, t)) && !OnMutex(PcOf(s, t))
    ensures Moves(s, LeaveStep(s, t, PcOf(s, t), ok, mutex), t)
  {}

  lemma PlainMoves(s: State, step: Step)
    requires Enabled(s, step) && (step.action.Proceed? ==> !OnMutex(PcOf(s, step.t)))
    ensures Moves(s, Next(s, step), step.t)
  {
    if step.action.Proceed? {
      var pc := PcOf(s, step.t);
      if InJoin(pc) {
        JoinMoves(s, step.t, step.action.ok, step.action.mutex);
      } else if InLeave(pc) {
        LeaveMoves(s, step.t, step.action.ok, step.action.mutex);
      }
    }
  }

  lemma PlainStepKeepsLocks(s: State, step: Step)
    requires LockInv(s) && Enabled(s, step) && (step.action.Proceed? ==> !OnMutex(PcOf(s, step.t)))
    ensures LockInv(Next(s, step))
  {
    PlainMoves(s, step);
    MoveKeepsLocks(s, Next(s, step), step.t);
  }

  lemma JoinKeepsLocks(s: State, t: Thread, ok: bool, mutex: Lock)
    requires LockInv(s) && InJoin(PcOf(s, t)) && OnMutex(PcOf(s, t)) && MutexReady(s, PcOf(s, t), mutex)
    ensures LockInv(JoinStep(s, t, PcOf(s, t), ok, mutex))
  {
    match PcOf(s, t)
    case JLookup(n) => LookupKeepsLocks(s, t, n, mutex, JAcquire(n, LockFor(s, n, mutex)));
    case JAcquire(n, l) => AcquireKeepsLocks(s, t, l, JCheck(n, l));
    case JUnlock(n, l, r) => UnlockKeepsLocks(s, t, l, JReturned(n, r));
  }

  lemma LeaveKeepsLocks(s: State, t: Thread, ok: bool, mutex: Lock)
    requires LockInv(s) && InLeave(PcOf(s, t)) && OnMutex(PcOf(s, t)) && MutexReady(s, PcOf(s, t), mutex)
    ensures LockInv(LeaveStep(s, t, PcOf(s, t), ok, mutex))
  {
    match PcOf(s, t)
    case LLookup(n) => LookupKeepsLocks(s, t, n, mutex, LAcquire(n, LockFor(s, n, mutex)));
    case LAcquire(n, l) => AcquireKeepsLocks(s, t, l, LDropSub(n, l));
    case LUnlock(n, l, r) => UnlockKeepsLocks(s, t, l, LReturned(n, r));
  }

  lemma StepKeepsLocks(s: State, step: Step)
    requires LockInv(s) && Enabled(s, step)
    ensures LockInv(Next(s, step))
  {
    if step.action.Proceed? && OnMutex(PcOf(s, step.t)) {
      if InJoin(PcOf(s, step.t)) {
        JoinKeepsLocks(s, step.t, step.action.ok, step.action.mutex);
      } else {
        LeaveKeepsLocks(s, step.t, step.action.ok, step.action.mutex);
      }
    } else {
      PlainStepKeepsLocks(s, step);
    }
  }

  /** What a step of t at pc leaves alone: other threads, mutexes already stored, and who
      holds any mutex but t's own. */
  ghost predicate Framed(s: State, s': State, t: Thread, pc: Pc) {
    && (forall u: Thread | u != t :: PcOf(s', u) == PcOf(s, u))
    && (forall n | n in s.joinLocks :: n in s'.joinLocks && s'.joinLocks[n] == s.joinLocks[n])
    && (forall n | n in s'.joinLocks && n !in s.joinLocks :: s'.joinLocks[n] !in s.made && s'.holder == s.holder)
    && (forall l: Lock | !HasLock(pc) || l != pc.lock ::
          (l in s'.holder <==> l in s.holder) && (l in s.holder ==> s'.holder[l] == s.holder[l]))
  }

  lemma JoinFrame(s: State, t: Thread, ok: bool, mutex: Lock)
    requires InJoin(PcOf(s, t)) && (PcOf(s, t).JLookup? ==> mutex !in s.made)
    ensures Framed(s, JoinStep(s, t, PcOf(s, t), ok, mutex), t, PcOf(s, t))
  {}

  lemma LeaveFrame(s: State, t: Thread, ok: bool, mutex: Lock)
    requires InLeave(PcOf(s, t)) && (PcOf(s, t).LLookup? ==> mutex !in s.made)
    ensures Framed(s, LeaveStep(s, t, PcOf(s, t), ok, mutex), t, PcOf(s, t))
  {}

  lemma NextFrame(s: State, step: Step)
    requires Enabled(s, step)
    ensures Framed(s, Next(s, step), step.t, PcOf(s, step.t))
  {
    var pc := PcOf(s, step.t);
    if step.action.Proceed? && InJoin(pc) {
      JoinFrame(s, step.t, step.action.ok, step.action.mutex);
    } else if step.action.Proceed? && InLeave(pc) {
      LeaveFrame(s, step.t, step.action.ok, step.action.mutex);
    }
  }

  /** A thread outside n's critical section does not change who is inside. */
  lemma InsideOther(s: State, step: Step, n: Name)
    requires LockInv(s) && Enabled(s, step)
    requires HasLock(PcOf(s, step.t)) ==> PcOf(s, step.t).n != n
    ensures Inside(Next(s, step), n) == Inside(s, n)
  {
    NextFrame(s, step);
    if n in s.joinLocks {
      var l := s.joinLocks[n];
      assert HasLock(PcOf(s, step.t)) ==> PcOf(s, step.t).lock != l;
      if l in s.holder { assert Critical(s.threads[s.holder[l]]) && s.holder[l] != step.t; }
    } else if n in Next(s, step).joinLocks {
      var l := Next(s, step).joinLocks[n];
      if l in s.holder { HeldIsMade(s, l); }
    }
  }

  lemma HeldIsMade(s: State, l: Lock)
    requires LockInv(s) && l in s.holder
    ensures l in s.made
  {}

  /** The moving thread's own topic. */
  lemma OwnTopic(s: State, step: Step)
    requires Inv(s) && Enabled(s, step) && step.action.Proceed?
    requires Critical(PcOf(s, step.t)) || HasLock(PcOf(s, step.t))
    ensures TopicInv(Next(s, step), PcOf(s, step.t).n)
  {
    StepKeepsLocks(s, step);
    assert TopicInv(s, PcOf(s, step.t).n);
  }

  /** The node and pubsub have the same to say of n in s and s'. */
  predicate Unchanged(s: State, s': State, n: Name) {
    && (n in s'.topics <==> n in s.topics) && (n in s'.subs <==> n in s.subs)
    && (n in s'.open <==> n in s.open) && (n in s'.leaked <==> n in s.leaked)
  }

  lemma JoinOther(s: State, t: Thread, pc: Pc, ok: bool, mutex: Lock, n: Name)
    requires InJoin(pc) && (HasLock(pc) ==> pc.n != n)
    ensures Unchanged(s, JoinStep(s, t, pc, ok, mutex), n)
  {}

  lemma LeaveOther(s: State, t: Thread, pc: Pc, ok: bool, mutex: Lock, n: Name)
    requires InLeave(pc) && (HasLock(pc) ==> pc.n != n)
    ensures Unchanged(s, LeaveStep(s, t, pc, ok, mutex), n)
  {}

  /** Every other topic is untouched. */
  lemma SetsOther(s: State, step: Step, n: Name)
    requires Enabled(s, step) && (HasLock(PcOf(s, step.t)) ==> PcOf(s, step.t).n != n)
    ensures Unchanged(s, Next(s, step), n)
  {
    var pc := PcOf(s, step.t);
    if step.action.Proceed? && InJoin(pc) {
      JoinOther(s, step.t, pc, step.action.ok, step.action.mutex, n);
    } else if step.action.Proceed? && InLeave(pc) {
      LeaveOther(s, step.t, pc, step.action.ok, step.action.mutex, n);
    }
  }

  lemma OtherTopic(s: State, step: Step, n: Name)
    requires Inv(s) && Enabled(s, step)
    requires HasLock(PcOf(s, step.t)) ==> PcOf(s, step.t).n != n
    ensures TopicInv(Next(s, step), n)
  {
    InsideOther(s, step, n);
    SetsOther(s, step, n);
    assert TopicInv(s, n);
  }

  lemma StepKeepsInv(s: State, step: Step)
    requires Inv(s) && Enabled(s, step)
    ensures Inv(Next(s, step))
  {
    StepKeepsLocks(s, step);
    forall n: Name ensures TopicInv(Next(s, step), n) {
      if HasLock(PcOf(s, step.t)) && PcOf(s, step.t).n == n {
        OwnTopic(s, step);
      } else {
        OtherTopic(s, step, n);
      }
    }
  }

  // ---------------------------------------------------------------------------
  // Main results, over every behaviour

  ghost predicate Behaviour(states: seq<State>, steps: seq<Step>) {
    && |states| == |steps| + 1 && states[0] == INITIAL
    && forall i | 0 <= i < |steps| :: Enabled(states[i], steps[i]) && states[i + 1] == Next(states[i], steps[i])
  }

  lemma {:induction false} BehaviourInv(states: seq<State>, steps: seq<Step>, i: nat)
    requires Behaviour(states, steps) && i < |states|
    ensures Inv(states[i])
  {
    if i == 0 {
    } else {
      BehaviourInv(states, steps, i - 1);
      StepKeepsInv(states[i - 1], steps[i - 1]);
    }
  }

  /** At most one thread is in a topic's critical section. */
  lemma MutualExclusion(states: seq<State>, steps: seq<Step>, i: nat, t: Thread, u: Thread)
    requires Behaviour(states, steps) && i < |states|
    requires Critical(PcOf(states[i], t)) && Critical(PcOf(states[i], u))
    requires PcOf(states[i], t).n == PcOf(states[i], u).n
    ensures t == u
  {
    BehaviourInv(states, steps, i);
  }

  /** Whenever no thread is in a topic's critical section, the topic is in `topics` if and
      only if it is in `subs`, whatever Join, Subscribe and Close have answered. */
  lemma MapsAgree(states: seq<State>, steps: seq<Step>, i: nat, n: Name)
    requires Behaviour(states, steps) && i < |states|
    requires forall t | t in states[i].threads && Critical(states[i].threads[t]) :: states[i].threads[t].n != n
    ensures n in states[i].topics <==> n in states[i].subs
    ensures n in states[i].open <==> n in states[i].topics || LeftOpen(states, steps, n, i)
  {
    BehaviourInv(states, steps, i);
    LeakedIsHistory(states, steps, n, i);
    var s := states[i];
    assert TopicInv(s, n);
    if n in s.joinLocks && s.joinLocks[n] in s.holder {
      var t := s.holder[s.joinLocks[n]];
      assert Critical(s.threads[t]) && s.threads[t].n != n;
    }
  }

  /** The step is a Subscribe or a Close of n that fails. */
  predicate Fails(s: State, step: Step, n: Name) {
    var pc := PcOf(s, step.t);
    (pc.JSubscribe? || pc.LClose?) && pc.n == n && step.action.Proceed? && !step.action.ok
  }

  /** The step is a Join of n that succeeds. */
  predicate Joins(s: State, step: Step, n: Name) {
    var pc := PcOf(s, step.t);
    pc.JJoin? && pc.n == n && step.action.Proceed? && step.action.ok
  }

  /** Before i a step was `on`, and no step has been `off` since. */
  ghost predicate Standing(on: (State, Step) -> bool, off: (State, Step) -> bool,
                           states: seq<State>, steps: seq<Step>, i: nat)
    requires i <= |steps| && |states| == |steps| + 1
  {
    exists j | 0 <= j < i :: on(states[j], steps[j]) && forall k | j < k < i :: !off(states[k], steps[k])
  }

  lemma StandingStep(on: (State, Step) -> bool, off: (State, Step) -> bool,
                     states: seq<State>, steps: seq<Step>, i: nat)
    requires i < |steps| && |states| == |steps| + 1
    ensures Standing(on, off, states, steps, i + 1) <==>
            on(states[i], steps[i]) || (Standing(on, off, states, steps, i) && !off(states[i], steps[i]))
  {
    if Standing(on, off, states, steps, i) && !off(states[i], steps[i]) {
      var j :| 0 <= j < i && on(states[j], steps[j]) && forall k | j < k < i :: !off(states[k], steps[k]);
      assert forall k | j < k < i + 1 :: !off(states[k], steps[k]);
    }
  }

  /** Before i a Subscribe or Close of n failed, and no Join of n has succeeded since. */
  ghost predicate LeftOpen(states: seq<State>, steps: seq<Step>, n: Name, i: nat)
    requires i <= |steps| && |states| == |steps| + 1
  {
    Standing((s, step) => Fails(s, step, n), (s, step) => Joins(s, step, n), states, steps, i)
  }

  lemma JoinLeak(s: State, t: Thread, ok: bool, mutex: Lock, n: Name)
    requires InJoin(PcOf(s, t))
    ensures var step := Step(t, Proceed(ok, mutex));
            n in JoinStep(s, t, PcOf(s, t), ok, mutex).leaked <==>
            Fails(s, step, n) || (n in s.leaked && !Joins(s, step, n))
  {}

  lemma LeaveLeak(s: State, t: Thread, ok: bool, mutex: Lock, n: Name)
    requires InLeave(PcOf(s, t))
    ensures n in LeaveStep(s, t, PcOf(s, t), ok, mutex).leaked <==>
            Fails(s, Step(t, Proceed(ok, mutex)), n) || n in s.leaked
  {}

  lemma LeakStep(s: State, step: Step, n: Name)
    requires Enabled(s, step)
    ensures n in Next(s, step).leaked <==> Fails(s, step, n) || (n in s.leaked && !Joins(s, step, n))
  {
    var pc := PcOf(s, step.t);
    if step.action.Proceed? && InJoin(pc) {
      JoinLeak(s, step.t, step.action.ok, step.action.mutex, n);
    } else if step.action.Proceed? && InLeave(pc) {
      LeaveLeak(s, step.t, step.action.ok, step.action.mutex, n);
    }
  }

  /** The observer says what the history says. */
  lemma {:induction false} LeakedIsHistory(states: seq<State>, steps: seq<Step>, n: Name, i: nat)
    requires Behaviour(states, steps) && i < |states|
    ensures n in states[i].leaked <==> LeftOpen(states, steps, n, i)
  {
    if i == 0 {
    } else {
      LeakedIsHistory(states, steps, n, i - 1);
      HistoryStep(states, steps, n, i - 1);
    }
  }

  lemma {:induction false} HistoryStep(states: seq<State>, steps: seq<Step>, n: Name, i: nat)
    requires i < |steps| && |states| == |steps| + 1
    requires Enabled(states[i], steps[i]) && states[i + 1] == Next(states[i], steps[i])
    requires n in states[i].leaked <==> LeftOpen(states, steps, n, i)
    ensures n in states[i + 1].leaked <==> LeftOpen(states, steps, n, i + 1)
  {
    LeakStep(states[i], steps[i], n);
    StandingStep((s, step) => Fails(s, step, n), (s, step) => Joins(s, step, n), states, steps, i);
  }

  /** pubsub.Join is called for a topic that pubsub still has open if and only if an
      earlier Subscribe or Close of that topic failed and no Join of it has succeeded since. */
  lemma {:induction false} DoubleJoinIffLeftOpen(states: seq<State>, steps: seq<Step>, i: nat, t: Thread)
    requires Behaviour(states, steps) && i < |states| && PcOf(states[i], t).JJoin?
    ensures var n := PcOf(states[i], t).n; n in states[i].open <==> LeftOpen(states, steps, n, i)
  {
    BehaviourInv(states, steps, i);
    LeakedIsHistory(states, steps, PcOf(states[i], t).n, i);
    assert TopicInv(states[i], PcOf(states[i], t).n);
  }

  /** No double join: while Subscribe and Close of it succeed, Join is never called for a
      topic that is open in pubsub. */
  lemma {:induction false} NoDoubleJoin(states: seq<State>, steps: seq<Step>, i: nat, t: Thread)
    requires Behaviour(states, steps) && i < |states| && PcOf(states[i], t).JJoin?
    requires forall j | 0 <= j < i :: !Fails(states[j], steps[j], PcOf(states[i], t).n)
    ensures PcOf(states[i], t).n !in states[i].open
  {
    DoubleJoinIffLeftOpen(states, steps, i, t);
  }

  ghost predicate NoLeave(s: State, n: Name) {
    forall t | t in s.threads && InLeave(s.threads[t]) :: s.threads[t].n != n
  }

  lemma TopicStays(s: State, step: Step, n: Name)
    requires Enabled(s, step) && NoLeave(s, n) && n in s.topics
    ensures n in Next(s, step).topics
  {
    var pc := PcOf(s, step.t);
    if step.action.Proceed? && InLeave(pc) { LeaveOther(s, step.t, pc, step.action.ok, step.action.mutex, n); }
  }

  /** The thread is about to return nil from JoinTopic, or has returned it. */
  predicate Joined(pc: Pc, n: Name) {
    !pc.Idle? && pc.n == n && (pc.JStoreSub? || ((pc.JUnlock? || pc.JReturned?) && pc.ok))
  }

  lemma JoinedStep(s: State, step: Step, t: Thread, n: Name)
    requires Enabled(s, step) && NoLeave(s, n)
    requires Joined(PcOf(s, t), n) ==> n in s.topics
    ensures Joined(PcOf(Next(s, step), t), n) ==> n in Next(s, step).topics
  {
    if n in s.topics {
      TopicStays(s, step, n);
    } else if step.t != t {
      NextFrame(s, step);
    } else if step.action.Proceed? && InJoin(PcOf(s, t)) {
      OwnJoin(s, t, step.action.ok, step.action.mutex, n);
    }
  }

  lemma OwnJoin(s: State, t: Thread, ok: bool, mutex: Lock, n: Name)
    requires InJoin(PcOf(s, t)) && !Joined(PcOf(s, t), n) && n !in s.topics
    ensures var s' := JoinStep(s, t, PcOf(s, t), ok, mutex); Joined(PcOf(s', t), n) ==> n in s'.topics
  {}

  lemma {:induction false} JoinedMeansStored(states: seq<State>, steps: seq<Step>, t: Thread, n: Name, i: nat, j: nat)
    requires Behaviour(states, steps) && i <= j < |states| && PcOf(states[i], t) == JFast(n)
    requires forall m | i <= m <= j :: NoLeave(states[m], n)
    ensures Joined(PcOf(states[j], t), n) ==> n in states[j].topics
    decreases j
  {
    if i == j {
    } else {
      JoinedMeansStored(states, steps, t, n, i, j - 1);
      JoinedStep(states[j - 1], steps[j - 1], t, n);
    }
  }

  lemma {:induction false} TopicPersists(states: seq<State>, steps: seq<Step>, n: Name, j: nat, k: nat)
    requires Behaviour(states, steps) && j <= k < |states| && n in states[j].topics
    requires forall m | j <= m <= k :: NoLeave(states[m], n)
    ensures n in states[k].topics
    decreases k
  {
    if j == k {
    } else {
      TopicPersists(states, steps, n, j, k - 1);
      TopicStays(states[k - 1], steps[k - 1], n);
    }
  }

  /** A JoinTopic begun at i has returned nil by j; with no LeaveTopic of the name running
      from i to k, a Publish that looks the topic up at k finds it. */
  lemma PublishFindsJoined(states: seq<State>, steps: seq<Step>, n: Name, i: nat, t: Thread, j: nat, u: Thread, k: nat)
    requires Behaviour(states, steps) && i <= j <= k < |steps|
    requires PcOf(states[i], t) == JFast(n) && PcOf(states[j], t) == JReturned(n, true)
    requires forall m | i <= m <= k :: NoLeave(states[m], n)
    requires steps[k].t == u && steps[k].action.Proceed? && PcOf(states[k], u) == PLoad(n)
    ensures PcOf(states[k + 1], u) == PReturned(n, true)
  {
    JoinedMeansStored(states, steps, t, n, i, j);
    TopicPersists(states, steps, n, j, k);
  }

  /** Under the same conditions a Subscribe that looks the topic up at k finds its
      subscription unless, at that moment, the thread that joined the topic has stored the
      topic and not yet the subscription. */
  lemma {:induction false} SubscribeFindsUnlessStoring(states: seq<State>, steps: seq<Step>, n: Name, i: nat, t: Thread,
                                                       j: nat, u: Thread, k: nat)
    requires Behaviour(states, steps) && i <= j <= k < |steps|
    requires PcOf(states[i], t) == JFast(n) && PcOf(states[j], t) == JReturned(n, true)
    requires forall m | i <= m <= k :: NoLeave(states[m], n)
    requires steps[k].t == u && steps[k].action.Proceed? && PcOf(states[k], u) == SLoad(n)
    ensures PcOf(states[k + 1], u) == SReturned(n, !Inside(states[k], n).JStoreSub?)
  {
    JoinedMeansStored(states, steps, t, n, i, j);
    TopicPersists(states, steps, n, j, k);
    BehaviourInv(states, steps, k);
    StoredBoth(states[k], n);
  }

  lemma StoredBoth(s: State, n: Name)
    requires Inv(s) && NoLeave(s, n) && n in s.topics
    ensures n in s.subs <==> !Inside(s, n).JStoreSub?
  {
    assert TopicInv(s, n);
  }

  // ---------------------------------------------------------------------------
  // Joined but not yet subscribed

  /** Thread 0 is about to store the subscription; thread 1 joins by the fast path, is told
      that all is well, and Subscribe then finds nothing. Nobody ever leaves. */
  lemma SubscribeCanMiss(n: Name) returns (states: seq<State>, steps: seq<Step>)
    ensures Behaviour(states, steps) && 2 <= |steps|
    ensures forall m | 0 <= m < |states| :: NoLeave(states[m], n)
    ensures PcOf(states[|steps| - 2], 1) == JReturned(n, true)
    ensures PcOf(states[|steps|], 1) == SReturned(n, false)
  {
    states, steps := FastJoin(n);
    states, steps := Extend(states, steps, Step(1, Begin(Subscription(n))));
    states, steps := Extend(states, steps, Step(1, Proceed(true, 0)));
    forall m | 0 <= m < |states| ensures NoLeave(states[m], n) { NobodyLeaves(states, steps, m); }
  }

  lemma FastJoin(n: Name) returns (states: seq<State>, steps: seq<Step>)
    ensures Behaviour(states, steps) && forall k | 0 <= k < |steps| :: !BeginsLeave(steps[k])
    ensures var s := states[|states| - 1]; s.subs == {} && PcOf(s, 1) == JReturned(n, true)
  {
    states, steps := TopicStored(n);
    states, steps := Extend(states, steps, Step(1, Begin(Join(n))));
    states, steps := Extend(states, steps, Step(1, Proceed(true, 0)));
  }

  lemma TopicStored(n: Name) returns (states: seq<State>, steps: seq<Step>)
    ensures Behaviour(states, steps) && forall k | 0 <= k < |steps| :: !BeginsLeave(steps[k])
    ensures var s := states[|states| - 1];
            && s.topics == {n} && s.subs == {} && s.open == {n} && s.joinLocks == map[n := 0] && s.made == {0}
            && s.holder == map[0 := 0] && PcOf(s, 0) == JStoreSub(n, 0) && PcOf(s, 1) == Idle
  {
    states, steps := LockTaken(n);
    states, steps := Extend(states, steps, Step(0, Proceed(true, 0)));
    states, steps := Extend(states, steps, Step(0, Proceed(true, 0)));
    states, steps := Extend(states, steps, Step(0, Proceed(true, 0)));
    states, steps := Extend(states, steps, Step(0, Proceed(true, 0)));
  }

  predicate BeginsLeave(step: Step) { step.action.Begin? && step.action.call.Leave? }

  /** A thread is inside LeaveTopic only if some step began it. */
  lemma {:induction false} NobodyLeaves(states: seq<State>, steps: seq<Step>, i: nat)
    requires Behaviour(states, steps) && i < |states| && forall k | 0 <= k < |steps| :: !BeginsLeave(steps[k])
    ensures forall t | t in states[i].threads :: !InLeave(states[i].threads[t])
  {
    if i == 0 {
    } else {
      NobodyLeaves(states, steps, i - 1);
      StaysOut(states[i - 1], steps[i - 1]);
    }
  }

  lemma StaysOut(s: State, step: Step)
    requires Enabled(s, step) && !BeginsLeave(step)
    requires forall t | t in s.threads :: !InLeave(s.threads[t])
    ensures forall t | t in Next(s, step).threads :: !InLeave(Next(s, step).threads[t])
  {
    NextFrame(s, step);
    forall t | t in Next(s, step).threads && t != step.t ensures !InLeave(Next(s, step).threads[t]) {
      assert PcOf(Next(s, step), t) == PcOf(s, t);
    }
  }

  // ---------------------------------------------------------------------------
  // A failed Subscribe

  /** Thread 0 joins, Subscribe fails, thread 0 tries again: Join is called a second time
      although pubsub still has the topic open. */
  lemma RetryAfterFailedSubscribe(n: Name) returns (states: seq<State>, steps: seq<Step>)
    ensures Behaviour(states, steps)
    ensures var s := states[|states| - 1]; PcOf(s, 0) == JJoin(n, 0) && n in s.open && n !in s.topics
  {
    states, steps := SecondTry(n);
    states, steps := Extend(states, steps, Step(0, Proceed(true, 1)));
    states, steps := Extend(states, steps, Step(0, Proceed(true, 1)));
  }

  lemma SecondTry(n: Name) returns (states: seq<State>, steps: seq<Step>)
    ensures Behaviour(states, steps)
    ensures var s := states[|states| - 1];
            s.topics == {} && s.holder == map[] && s.open == {n} && PcOf(s, 0) == JAcquire(n, 0)
  {
    states, steps := FailedJoin(n);
    states, steps := Extend(states, steps, Step(0, Begin(Join(n))));
    states, steps := Extend(states, steps, Step(0, Proceed(true, 1)));
    states, steps := Extend(states, steps, Step(0, Proceed(true, 1)));
  }

  /** The behaviour continued by one enabled step. */
  lemma Extend(states: seq<State>, steps: seq<Step>, step: Step) returns (states': seq<State>, steps': seq<Step>)
    requires Behaviour(states, steps) && Enabled(states[|states| - 1], step)
    ensures Behaviour(states', steps')
    ensures states' == states + [Next(states[|states| - 1], step)] && steps' == steps + [step]
  {
    states', steps' := states + [Next(states[|states| - 1], step)], steps + [step];
  }

  lemma FailedJoin(n: Name) returns (states: seq<State>, steps: seq<Step>)
    ensures Behaviour(states, steps)
    ensures var s := states[|states| - 1];
            && s.topics == {} && s.joinLocks == map[n := 0] && s.holder == map[] && s.made == {0}
            && s.open == {n} && PcOf(s, 0) == JReturned(n, false)
  {
    states, steps := LockTaken(n);
    states, steps := Extend(states, steps, Step(0, Proceed(true, 0)));
    states, steps := Extend(states, steps, Step(0, Proceed(true, 0)));
    states, steps := Extend(states, steps, Step(0, Proceed(false, 0)));
    states, steps := Extend(states, steps, Step(0, Proceed(true, 0)));
  }

  lemma LockTaken(n: Name) returns (states: seq<State>, steps: seq<Step>)
    ensures Behaviour(states, steps)
    ensures forall k | 0 <= k < |steps| :: !BeginsLeave(steps[k])
    ensures states[|states| - 1] ==
            INITIAL.(joinLocks := map[n := 0], holder := map[0 := 0], made := {0}, threads := map[0 := JCheck(n, 0)])
  {
    states, steps := [INITIAL], [];
    states, steps := Extend(states, steps, Step(0, Begin(Join(n))));
    states, steps := Extend(states, steps, Step(0, Proceed(true, 0)));
    states, steps := Extend(states, steps, Step(0, Proceed(true, 0)));
    states, steps := Extend(states, steps, Step(0, Proceed(true, 0)));
  }
}
