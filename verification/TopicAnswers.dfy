/** What JoinTopic, LeaveTopic, Publish and Subscribe answer, and that leaving leaves. */
module TopicAnswers {
  import opened Prelude
  import opened Topics

  // ---------------------------------------------------------------------------
  // Publish and Subscribe answer by history

  predicate StoresTopic(s: State, step: Step, n: Name) {
    step.action.Proceed? && PcOf(s, step.t).JStoreTopic? && PcOf(s, step.t).n == n
  }

  predicate DropsTopic(s: State, step: Step, n: Name) {
    step.action.Proceed? && PcOf(s, step.t).LDropTopic? && PcOf(s, step.t).n == n
  }

  predicate StoresSub(s: State, step: Step, n: Name) {
    step.action.Proceed? && PcOf(s, step.t).JStoreSub? && PcOf(s, step.t).n == n
  }

  predicate DropsSub(s: State, step: Step, n: Name) {
    step.action.Proceed? && PcOf(s, step.t).LDropSub? && PcOf(s, step.t).n == n
  }

  /** A JoinTopic has stored topic n, and no LeaveTopic has removed it since. */
  ghost predicate TopicStands(states: seq<State>, steps: seq<Step>, n: Name, i: nat)
    requires i <= |steps| && |states| == |steps| + 1
  {
    Standing((s, step) => StoresTopic(s, step, n), (s, step) => DropsTopic(s, step, n), states, steps, i)
  }

  /** A JoinTopic has stored n's subscription, and no LeaveTopic has removed it since. */
  ghost predicate SubStands(states: seq<State>, steps: seq<Step>, n: Name, i: nat)
    requires i <= |steps| && |states| == |steps| + 1
  {
    Standing((s, step) => StoresSub(s, step, n), (s, step) => DropsSub(s, step, n), states, steps, i)
  }

  lemma TopicStep(s: State, step: Step, n: Name)
    requires Enabled(s, step)
    ensures n in Next(s, step).topics <==> StoresTopic(s, step, n) || (n in s.topics && !DropsTopic(s, step, n))
  {
    if step.action.Proceed? {
      var pc := PcOf(s, step.t);
      if InJoin(pc) {
        JoinTopicStep(s, step.t, pc, step.action.ok, step.action.mutex, n);
      } else if InLeave(pc) {
        LeaveTopicStep(s, step.t, pc, step.action.ok, step.action.mutex, n);
      }
    }
  }

  lemma JoinTopicStep(s: State, t: Thread, pc: Pc, ok: bool, mutex: Lock, n: Name)
    requires InJoin(pc)
    ensures n in JoinStep(s, t, pc, ok, mutex).topics <==> (pc.JStoreTopic? && pc.n == n) || n in s.topics
    ensures n in JoinStep(s, t, pc, ok, mutex).subs <==> (pc.JStoreSub? && pc.n == n) || n in s.subs
  {}

  lemma LeaveTopicStep(s: State, t: Thread, pc: Pc, ok: bool, mutex: Lock, n: Name)
    requires InLeave(pc)
    ensures n in LeaveStep(s, t, pc, ok, mutex).topics <==> n in s.topics && !(pc.LDropTopic? && pc.n == n)
    ensures n in LeaveStep(s, t, pc, ok, mutex).subs <==> n in s.subs && !(pc.LDropSub? && pc.n == n)
  {}

  lemma SubStep(s: State, step: Step, n: Name)
    requires Enabled(s, step)
    ensures n in Next(s, step).subs <==> StoresSub(s, step, n) || (n in s.subs && !DropsSub(s, step, n))
  {
    if step.action.Proceed? {
      var pc := PcOf(s, step.t);
      if InJoin(pc) {
        JoinTopicStep(s, step.t, pc, step.action.ok, step.action.mutex, n);
      } else if InLeave(pc) {
        LeaveTopicStep(s, step.t, pc, step.action.ok, step.action.mutex, n);
      }
    }
  }

  /** The node's maps say what the history of joins and leaves says. */
  lemma {:induction false} MapsAreHistory(states: seq<State>, steps: seq<Step>, n: Name, i: nat)
    requires Behaviour(states, steps) && i < |states|
    ensures n in states[i].topics <==> TopicStands(states, steps, n, i)
    ensures n in states[i].subs <==> SubStands(states, steps, n, i)
  {
    if i == 0 {
    } else {
      var k := i - 1;
      MapsAreHistory(states, steps, n, k);
      TopicStep(states[k], steps[k], n);
      SubStep(states[k], steps[k], n);
      StandingStep((s, step) => StoresTopic(s, step, n), (s, step) => DropsTopic(s, step, n), states, steps, k);
      StandingStep((s, step) => StoresSub(s, step, n), (s, step) => DropsSub(s, step, n), states, steps, k);
    }
  }

  /** Publish finds a topic if and only if some JoinTopic has stored it and no LeaveTopic
      has removed it since; otherwise it reports a topic that is not joined. */
  lemma {:induction false} PublishIffStands(states: seq<State>, steps: seq<Step>, n: Name, k: nat)
    requires Behaviour(states, steps) && k < |steps|
    requires steps[k].action.Proceed? && PcOf(states[k], steps[k].t) == PLoad(n)
    ensures PcOf(states[k + 1], steps[k].t) == PReturned(n, TopicStands(states, steps, n, k))
  {
    MapsAreHistory(states, steps, n, k);
  }

  /** Subscribe returns a subscription if and only if some JoinTopic has stored it and no
      LeaveTopic has removed it since. */
  lemma {:induction false} SubscribeIffStands(states: seq<State>, steps: seq<Step>, n: Name, k: nat)
    requires Behaviour(states, steps) && k < |steps|
    requires steps[k].action.Proceed? && PcOf(states[k], steps[k].t) == SLoad(n)
    ensures PcOf(states[k + 1], steps[k].t) == SReturned(n, SubStands(states, steps, n, k))
  {
    MapsAreHistory(states, steps, n, k);
  }

  // ---------------------------------------------------------------------------
  // JoinTopic and LeaveTopic report exactly pubsub's failures

  /** Thread t's step is a Join, Subscribe or Close that fails. */
  predicate PubsubFails(s: State, step: Step, t: Thread) {
    var pc := PcOf(s, t);
    step.t == t && (pc.JJoin? || pc.JSubscribe? || pc.LClose?) && step.action.Proceed? && !step.action.ok
  }

  ghost predicate FailedIn(states: seq<State>, steps: seq<Step>, t: Thread, i: nat, j: nat)
    requires i <= j <= |steps| && |states| == |steps| + 1
  {
    exists m | i <= m < j :: PubsubFails(states[m], steps[m], t)
  }

  /** From i up to j thread t is inside one call, begun at i. */
  ghost predicate OneCall(states: seq<State>, t: Thread, i: nat, j: nat)
    requires i <= j <= |states|
  {
    forall m | i <= m < j :: !Between(PcOf(states[m], t))
  }

  /** Where a JoinTopic of n is, or what it returned, given whether pubsub failed it. */
  predicate Joining(pc: Pc, n: Name, failed: bool) {
    if pc.JUnlock? || pc.JReturned? then pc.n == n && pc.ok == !failed else InJoin(pc) && pc.n == n && !failed
  }

  predicate LeavingCall(pc: Pc, n: Name, failed: bool) {
    if pc.LUnlock? || pc.LReturned? then pc.n == n && pc.ok == !failed else InLeave(pc) && pc.n == n && !failed
  }

  lemma JoiningStep(s: State, t: Thread, ok: bool, mutex: Lock, n: Name, failed: bool)
    requires InJoin(PcOf(s, t)) && Joining(PcOf(s, t), n, failed)
    ensures Joining(PcOf(JoinStep(s, t, PcOf(s, t), ok, mutex), t), n,
                    failed || PubsubFails(s, Step(t, Proceed(ok, mutex)), t))
  {}

  lemma LeavingStep(s: State, t: Thread, ok: bool, mutex: Lock, n: Name, failed: bool)
    requires InLeave(PcOf(s, t)) && LeavingCall(PcOf(s, t), n, failed)
    ensures LeavingCall(PcOf(LeaveStep(s, t, PcOf(s, t), ok, mutex), t), n,
                        failed || PubsubFails(s, Step(t, Proceed(ok, mutex)), t))
  {}

  lemma FailedStep(states: seq<State>, steps: seq<Step>, t: Thread, i: nat, j: nat)
    requires i <= j < |steps| && |states| == |steps| + 1
    ensures FailedIn(states, steps, t, i, j + 1) <==>
            FailedIn(states, steps, t, i, j) || PubsubFails(states[j], steps[j], t)
  {}

  lemma {:induction false} JoinProgress(states: seq<State>, steps: seq<Step>, t: Thread, n: Name, i: nat, j: nat)
    requires Behaviour(states, steps) && i <= j < |states|
    requires PcOf(states[i], t) == JFast(n) && OneCall(states, t, i, j)
    ensures Joining(PcOf(states[j], t), n, FailedIn(states, steps, t, i, j))
    decreases j
  {
    if i == j {
    } else {
      var k := j - 1;
      JoinProgress(states, steps, t, n, i, k);
      FailedStep(states, steps, t, i, k);
      NextFrame(states[k], steps[k]);
      if steps[k].t == t {
        JoiningStep(states[k], t, steps[k].action.ok, steps[k].action.mutex, n, FailedIn(states, steps, t, i, k));
      }
    }
  }

  lemma {:induction false} LeaveProgress(states: seq<State>, steps: seq<Step>, t: Thread, n: Name, i: nat, j: nat)
    requires Behaviour(states, steps) && i <= j < |states|
    requires PcOf(states[i], t) == LLookup(n) && OneCall(states, t, i, j)
    ensures LeavingCall(PcOf(states[j], t), n, FailedIn(states, steps, t, i, j))
    decreases j
  {
    if i == j {
    } else {
      var k := j - 1;
      LeaveProgress(states, steps, t, n, i, k);
      FailedStep(states, steps, t, i, k);
      NextFrame(states[k], steps[k]);
      if steps[k].t == t {
        LeavingStep(states[k], t, steps[k].action.ok, steps[k].action.mutex, n, FailedIn(states, steps, t, i, k));
      }
    }
  }

  /** JoinTopic returns an error if and only if the Join or the Subscribe it made failed. */
  lemma {:induction false} JoinAnswers(states: seq<State>, steps: seq<Step>, t: Thread, n: Name, i: nat, j: nat)
    requires Behaviour(states, steps) && i <= j < |states|
    requires PcOf(states[i], t) == JFast(n) && OneCall(states, t, i, j) && Between(PcOf(states[j], t))
    ensures PcOf(states[j], t) == JReturned(n, !FailedIn(states, steps, t, i, j))
  {
    JoinProgress(states, steps, t, n, i, j);
  }

  /** LeaveTopic returns an error if and only if the Close it made failed. */
  lemma {:induction false} LeaveAnswers(states: seq<State>, steps: seq<Step>, t: Thread, n: Name, i: nat, j: nat)
    requires Behaviour(states, steps) && i <= j < |states|
    requires PcOf(states[i], t) == LLookup(n) && OneCall(states, t, i, j) && Between(PcOf(states[j], t))
    ensures PcOf(states[j], t) == LReturned(n, !FailedIn(states, steps, t, i, j))
  {
    LeaveProgress(states, steps, t, n, i, j);
  }

  // ---------------------------------------------------------------------------
  // Leaving leaves

  /** Whenever a LeaveTopic is about to give the mutex back, the topic is gone from both
      maps, and pubsub has it open if and only if a failed Subscribe or Close left it so. */
  lemma {:induction false} LeaveClears(states: seq<State>, steps: seq<Step>, i: nat, t: Thread)
    requires Behaviour(states, steps) && i < |states| && PcOf(states[i], t).LUnlock?
    ensures var n := PcOf(states[i], t).n;
            && n !in states[i].topics && n !in states[i].subs
            && (n in states[i].open <==> LeftOpen(states, steps, n, i))
  {
    var n := PcOf(states[i], t).n;
    BehaviourInv(states, steps, i);
    LeakedIsHistory(states, steps, n, i);
    assert TopicInv(states[i], n);
  }

  ghost predicate NoJoin(s: State, n: Name) {
    forall t | t in s.threads && InJoin(s.threads[t]) :: s.threads[t].n != n
  }

  /** The topic is gone, apart from what a failed call of pubsub left open. */
  predicate Gone(s: State, n: Name) {
    n !in s.topics && n !in s.subs && (n in s.open <==> n in s.leaked)
  }

  /** A LeaveTopic of n that is at pc has not yet removed the topic, or it is gone. */
  predicate Going(s: State, pc: Pc, n: Name) {
    || Gone(s, n)
    || (InLeave(pc) && pc.n == n && !pc.LUnlock?)
  }

  lemma GoneStays(s: State, step: Step, n: Name)
    requires Inv(s) && Enabled(s, step) && NoJoin(s, n) && Gone(s, n)
    ensures Gone(Next(s, step), n)
  {
    var pc := PcOf(s, step.t);
    assert TopicInv(s, n);
    if !(HasLock(pc) && pc.n == n) {
      SetsOther(s, step, n);
    } else if step.action.Proceed? {
      LeaverKeepsGone(s, step.t, step.action.ok, step.action.mutex, n);
    }
  }

  lemma LeaverKeepsGone(s: State, t: Thread, ok: bool, mutex: Lock, n: Name)
    requires Inv(s) && Gone(s, n) && InLeave(PcOf(s, t)) && PcOf(s, t).n == n
    ensures Gone(LeaveStep(s, t, PcOf(s, t), ok, mutex), n)
  {
    assert TopicInv(s, n);
  }

  /** The last act of a LeaveTopic on the maps and pubsub makes the topic gone. */
  lemma LeaverGoes(s: State, t: Thread, ok: bool, mutex: Lock, n: Name)
    requires Inv(s) && InLeave(PcOf(s, t)) && PcOf(s, t).n == n && !PcOf(s, t).LUnlock?
    ensures var s' := LeaveStep(s, t, PcOf(s, t), ok, mutex); Going(s', PcOf(s', t), n)
  {
    assert TopicInv(s, n);
  }

  lemma GoingStep(s: State, step: Step, t: Thread, n: Name)
    requires Inv(s) && Enabled(s, step) && NoJoin(s, n) && Going(s, PcOf(s, t), n)
    ensures Going(Next(s, step), PcOf(Next(s, step), t), n)
  {
    if Gone(s, n) {
      GoneStays(s, step, n);
    } else if step.t == t {
      LeaverGoes(s, t, step.action.ok, step.action.mutex, n);
    } else {
      NextFrame(s, step);
    }
  }

  lemma {:induction false} GoingOn(states: seq<State>, steps: seq<Step>, t: Thread, n: Name, i: nat, j: nat)
    requires Behaviour(states, steps) && i <= j < |states| && PcOf(states[i], t) == LLookup(n)
    requires forall m | i <= m < j :: NoJoin(states[m], n)
    ensures Going(states[j], PcOf(states[j], t), n)
    decreases j
  {
    if i == j {
    } else {
      GoingOn(states, steps, t, n, i, j - 1);
      BehaviourInv(states, steps, j - 1);
      GoingStep(states[j - 1], steps[j - 1], t, n);
    }
  }

  lemma {:induction false} StaysGone(states: seq<State>, steps: seq<Step>, n: Name, i: nat, j: nat)
    requires Behaviour(states, steps) && i <= j < |states| && Gone(states[i], n)
    requires forall m | i <= m < j :: NoJoin(states[m], n)
    ensures Gone(states[j], n)
    decreases j
  {
    if i == j {
    } else {
      StaysGone(states, steps, n, i, j - 1);
      BehaviourInv(states, steps, j - 1);
      GoneStays(states[j - 1], steps[j - 1], n);
    }
  }

  /** A LeaveTopic begun at i has returned at r. As long as no JoinTopic of the name runs,
      the topic is then in neither map, and pubsub has it open if and only if a failed
      Subscribe or Close left it so. */
  lemma {:induction false} LeavingLeaves(states: seq<State>, steps: seq<Step>, t: Thread, n: Name,
                                         i: nat, r: nat, j: nat)
    requires Behaviour(states, steps) && i <= r <= j < |states|
    requires PcOf(states[i], t) == LLookup(n) && Between(PcOf(states[r], t))
    requires forall m | i <= m < j :: NoJoin(states[m], n)
    ensures n !in states[j].topics && n !in states[j].subs
    ensures n in states[j].open <==> LeftOpen(states, steps, n, j)
  {
    GoingOn(states, steps, t, n, i, r);
    StaysGone(states, steps, n, r, j);
    LeakedIsHistory(states, steps, n, j);
  }

  /** In particular Publish then reports a topic that is not joined. */
  lemma {:induction false} PublishAfterLeave(states: seq<State>, steps: seq<Step>, t: Thread, n: Name,
                                             i: nat, r: nat, j: nat)
    requires Behaviour(states, steps) && i <= r <= j < |steps|
    requires PcOf(states[i], t) == LLookup(n) && Between(PcOf(states[r], t))
    requires forall m | i <= m < j :: NoJoin(states[m], n)
    requires steps[j].action.Proceed? && PcOf(states[j], steps[j].t) == PLoad(n)
    ensures PcOf(states[j + 1], steps[j].t) == PReturned(n, false)
  {
    LeavingLeaves(states, steps, t, n, i, r, j);
  }

  // ---------------------------------------------------------------------------
  // No deadlock

  lemma {:induction false} UnusedLock(ls: set<Lock>) returns (m: Lock)
    ensures forall l | l in ls :: l < m
  {
    if ls == {} {
      m := 0;
    } else {
      var l :| l in ls;
      var r := UnusedLock(ls - {l});
      m := Max(r, l + 1);
      forall x | x in ls ensures x < m { assert x != l ==> x in ls - {l}; }
    }
  }

  /** In every state a thread inside a call can take its next step, whatever pubsub answers,
      or waits for a mutex whose holder can. */
  lemma {:induction false} NoDeadlock(states: seq<State>, steps: seq<Step>, i: nat, t: Thread, ok: bool)
    returns (step: Step)
    requires Behaviour(states, steps) && i < |states| && !Between(PcOf(states[i], t))
    ensures Enabled(states[i], step) && step.action.Proceed? && step.action.ok == ok
    ensures step.t == t ||
            var pc := PcOf(states[i], t);
            (pc.JAcquire? || pc.LAcquire?) && pc.lock in states[i].holder && step.t == states[i].holder[pc.lock]
  {
    BehaviourInv(states, steps, i);
    var s, pc := states[i], PcOf(states[i], t);
    var mutex := UnusedLock(s.made);
    if (pc.JAcquire? || pc.LAcquire?) && pc.lock in s.holder {
      step := Step(s.holder[pc.lock], Proceed(ok, mutex));
      assert Critical(s.threads[s.holder[pc.lock]]);
    } else {
      step := Step(t, Proceed(ok, mutex));
    }
  }

  // ---------------------------------------------------------------------------
  // LeaveTopic undoes JoinTopic

  /** A thread joins a topic and leaves it again, and the node and pubsub are as before. */
  lemma JoinThenLeave(n: Name) returns (states: seq<State>, steps: seq<Step>)
    ensures Behaviour(states, steps)
    ensures var s := states[|steps|];
            s.topics == {} && s.subs == {} && s.open == {} && s.holder == map[] && PcOf(s, 0) == LReturned(n, true)
  {
    states, steps := TopicDropped(n);
    states, steps := Extend(states, steps, Step(0, Proceed(true, 1)));
    states, steps := Extend(states, steps, Step(0, Proceed(true, 1)));
  }

  lemma TopicDropped(n: Name) returns (states: seq<State>, steps: seq<Step>)
    ensures Behaviour(states, steps)
    ensures var s := states[|steps|];
            && s.topics == {} && s.subs == {} && s.open == {n} && s.holder == map[0 := 0]
            && PcOf(s, 0) == LClose(n, 0)
  {
    states, steps := LeaveBegun(n);
    states, steps := Extend(states, steps, Step(0, Proceed(true, 1)));
    states, steps := Extend(states, steps, Step(0, Proceed(true, 1)));
  }

  lemma LeaveBegun(n: Name) returns (states: seq<State>, steps: seq<Step>)
    ensures Behaviour(states, steps)
    ensures var s := states[|steps|];
            && s.topics == {n} && s.subs == {n} && s.open == {n} && s.holder == map[0 := 0]
            && PcOf(s, 0) == LDropSub(n, 0)
  {
    states, steps := JoinDone(n);
    states, steps := Extend(states, steps, Step(0, Begin(Leave(n))));
    states, steps := Extend(states, steps, Step(0, Proceed(true, 1)));
    states, steps := Extend(states, steps, Step(0, Proceed(true, 1)));
  }

  lemma JoinDone(n: Name) returns (states: seq<State>, steps: seq<Step>)
    ensures Behaviour(states, steps)
    ensures var s := states[|steps|];
            && s.topics == {n} && s.subs == {n} && s.open == {n} && s.holder == map[]
            && s.joinLocks == map[n := 0] && s.made == {0} && PcOf(s, 0) == JReturned(n, true)
  {
    states, steps := TopicStored(n);
    states, steps := Extend(states, steps, Step(0, Proceed(true, 0)));
    states, steps := Extend(states, steps, Step(0, Proceed(true, 0)));
  }
}
