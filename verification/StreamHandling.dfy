/** Pipeline.HandleStream: its deferred calls, the request deadline and the reset hook, for
    any number of streams handled at once. One step is one action of a stream's own
    goroutine, the passing of its deadline, or its hook's Reset. */
module StreamHandling {
  import opened Prelude
  import M = Middleware

  /** Whether the pipeline has a WaitGroup and a request timeout, and what running its
      middleware on a context does. */
  datatype Config = Config(tracked: bool, timeout: bool, run: M.Ctx -> M.Out)

  /** The pipeline with the given middleware. */
  function Pipeline(tracked: bool, timeout: bool, ms: seq<M.Mw>): Config {
    Config(tracked, timeout, ctx => M.Run(ms, 0, M.World(ctx, [])))
  }

  /** What the environment decides about a stream: what the middleware will read from it,
      whether asking it for its peer panics, and whether closing it does. */
  datatype Input = Input(request: map<string, string>, connPanics: bool, closePanics: bool)

  /** What a stream's log records, in order. */
  datatype Effect = Add | Release(buf: nat) | StopHook | Close | Cancel | WgDone | Deadline | Reset

  // ---------------------------------------------------------------------------
  // The body of HandleStream and its deferred calls

  datatype Call = DoneCall | CancelCall | CleanupCall

  datatype Instr = AddWg | Defer(call: Call) | Derive | ArmHook | MakeContext | RunPipeline

  function Program(c: Config): seq<Instr> {
    (if c.tracked then [AddWg, Defer(DoneCall)] else []) +
    [Derive, Defer(CancelCall), ArmHook, MakeContext, Defer(CleanupCall), RunPipeline]
  }

  /** What a deferred call does when it runs, given the context it then finds. */
  function Effects(call: Call, ctx: M.Ctx): seq<Effect> {
    match call
    case DoneCall => [WgDone]
    case CancelCall => [Cancel]
    case CleanupCall => (if ctx.poolBuf.Some? then [Release(ctx.poolBuf.value)] else []) + [StopHook, Close]
  }

  predicate Panics(input: Input, e: Effect) { e.Close? && input.closePanics }

  const NIL_CONTEXT := M.Ctx(None, "", None, map[])

  function NewContext(input: Input): M.Ctx { NIL_CONTEXT.(rest := input.request) }

  /** The goroutine is in the body; or it is leaving, by return or by panic, with `left`
      still to do of the deferred call it is in; or it is gone. */
  datatype Status =
    | InBody(pc: nat)
    | Leaving(left: seq<Effect>, panicking: bool)
    | Finished(panicking: bool)

  datatype Hook = Unset | Armed | Stopped | Started | Issued

  /** `defers` is the stack of deferred calls, innermost last; `live` says that the
      request context exists and has not been cancelled. */
  datatype Stream = Stream(
    input: Input, status: Status, defers: seq<Call>, ctx: M.Ctx,
    live: bool, expired: bool, hook: Hook, log: seq<Effect>)

  datatype Action = Proceed | Expire | RunHook

  function Start(input: Input): Stream { Stream(input, InBody(0), [], NIL_CONTEXT, false, false, Unset, []) }

  /** The context is done: its deadline passed or it was cancelled. A registered hook that
      has not been stopped starts then. */
  function Fire(h: Hook): Hook { if h.Armed? then Started else h }

  predicate Enabled(c: Config, s: Stream, a: Action) {
    match a
    case Proceed => !s.status.Finished? && (s.status.InBody? ==> s.status.pc < |Program(c)|)
    case Expire => c.timeout && s.live && !s.expired
    case RunHook => s.hook.Started?
  }

  /** One instruction of the body. */
  function Execute(c: Config, s: Stream): Stream
    requires s.status.InBody? && s.status.pc < |Program(c)|
  {
    var next := InBody(s.status.pc + 1);
    match Program(c)[s.status.pc]
    case AddWg => s.(status := next)
    case Defer(call) => s.(status := next, defers := s.defers + [call])
    case Derive => s.(status := next, live := true)
    case ArmHook => s.(status := next, hook := if s.expired then Started else Armed)
    case MakeContext =>
      if s.input.connPanics then s.(status := Leaving([], true)) else s.(status := next, ctx := NewContext(s.input))
    case RunPipeline =>
      var out := c.run(s.ctx);
      s.(status := Leaving([], out.Panicked?), ctx := out.world.ctx)
  }

  /** One effect of the deferred call in progress; a panic abandons the rest of that call. */
  function Perform(s: Stream): Stream
    requires s.status.Leaving? && s.status.left != []
  {
    var e := s.status.left[0];
    var p := Panics(s.input, e);
    s.(status := Leaving(if p then [] else s.status.left[1..], s.status.panicking || p),
       live := s.live && !e.Cancel?,
       hook := if e.StopHook? && s.hook.Armed? then Stopped else if e.Cancel? then Fire(s.hook) else s.hook)
  }

  /** Leaving: finish the call in progress, then take the innermost call off the stack. */
  function Unwind(s: Stream): Stream
    requires s.status.Leaving?
  {
    if s.status.left != [] then Perform(s)
    else if s.defers != [] then
      var top := |s.defers| - 1;
      s.(status := s.status.(left := Effects(s.defers[top], s.ctx)), defers := s.defers[..top])
    else s.(status := Finished(s.status.panicking))
  }

  /** What a step adds to the log. */
  function Emitted(c: Config, s: Stream, a: Action): seq<Effect>
    requires Enabled(c, s, a)
  {
    match a
    case Expire => [Deadline]
    case RunHook => [Reset]
    case Proceed =>
      if s.status.InBody? then if Program(c)[s.status.pc].AddWg? then [Add] else []
      else if s.status.left != [] then [s.status.left[0]] else []
  }

  function Act(c: Config, s: Stream, a: Action): Stream
    requires Enabled(c, s, a)
  {
    var s' := match a
              case Expire => s.(expired := true, hook := Fire(s.hook))
              case RunHook => s.(hook := Issued)
              case Proceed => if s.status.InBody? then Execute(c, s) else Unwind(s);
    s'.(log := s.log + Emitted(c, s, a))
  }

  // ---------------------------------------------------------------------------
  // What HandleStream promises

  /** How the middleware ends on this stream. */
  function Outcome(c: Config, input: Input): M.Out { c.run(NewContext(input)) }

  /** What a goroutine whose middleware ended with `out` must have done: counted itself,
      released the buffer left in the context, stopped the hook, closed the stream,
      cancelled the context, reported itself done, once each and in that order; but a
      stream that panicked when asked for its peer only cancelled and reported. */
  function CleanedUp(tracked: bool, input: Input, out: M.Out): seq<Effect> {
    (if tracked then [Add] else []) +
    (if input.connPanics then []
     else (if out.world.ctx.poolBuf.Some? then [Release(out.world.ctx.poolBuf.value)] else []) + [StopHook, Close]) +
    ([Cancel] + if tracked then [WgDone] else [])
  }

  function Promised(c: Config, input: Input): seq<Effect> { CleanedUp(c.tracked, input, Outcome(c, input)) }

  /** Whether a panic leaves HandleStream. */
  predicate Escapes(c: Config, input: Input) {
    input.connPanics || Outcome(c, input).Panicked? || input.closePanics
  }

  // ---------------------------------------------------------------------------
  // The stack of deferred calls

  function Performed(input: Input, es: seq<Effect>): seq<Effect> {
    if es == [] then [] else [es[0]] + if Panics(input, es[0]) then [] else Performed(input, es[1..])
  }

  /** What a stack of deferred calls does when it is unwound. */
  function Unwound(input: Input, ctx: M.Ctx, defers: seq<Call>): seq<Effect> {
    if defers == [] then []
    else
      var top := |defers| - 1;
      Performed(input, Effects(defers[top], ctx)) + Unwound(input, ctx, defers[..top])
  }

  /** What the goroutine does from an instruction of the body on. */
  function FromBody(c: Config, input: Input, ctx: M.Ctx, pc: nat, defers: seq<Call>): seq<Effect>
    decreases |Program(c)| - pc
  {
    if pc >= |Program(c)| then []
    else
      match Program(c)[pc]
      case AddWg => [Add] + FromBody(c, input, ctx, pc + 1, defers)
      case Defer(call) => FromBody(c, input, ctx, pc + 1, defers + [call])
      case MakeContext =>
        if input.connPanics then Unwound(input, ctx, defers) else FromBody(c, input, NewContext(input), pc + 1, defers)
      case RunPipeline => Unwound(input, c.run(ctx).world.ctx, defers)
      case _ => FromBody(c, input, ctx, pc + 1, defers)
  }

  function Todo(c: Config, s: Stream): seq<Effect> {
    match s.status
    case InBody(pc) => FromBody(c, s.input, s.ctx, pc, s.defers)
    case Leaving(left, _) => Performed(s.input, left) + Unwound(s.input, s.ctx, s.defers)
    case Finished(_) => []
  }

  lemma {:induction false} PerformedAll(input: Input, ctx: M.Ctx, call: Call)
    ensures Performed(input, Effects(call, ctx)) == Effects(call, ctx)
  {
    if call.CleanupCall? {
      assert [StopHook, Close][1..] == [Close] && [Close][1..] == [];
      assert Performed(input, [Close]) == [Close];
      assert Performed(input, [StopHook, Close]) == [StopHook, Close];
      if ctx.poolBuf.Some? {
        var release := Release(ctx.poolBuf.value);
        assert Effects(call, ctx) == [release] + [StopHook, Close];
        assert Effects(call, ctx)[1..] == [StopHook, Close];
      } else {
        assert Effects(call, ctx) == [StopHook, Close];
      }
    }
  }

  /** Deferred calls run innermost first. */
  lemma {:induction false} UnwoundPush(input: Input, ctx: M.Ctx, defers: seq<Call>, call: Call)
    ensures Unwound(input, ctx, defers + [call]) == Effects(call, ctx) + Unwound(input, ctx, defers)
  {
    PerformedAll(input, ctx, call);
    assert (defers + [call])[..|defers|] == defers;
  }

  /** The two outer calls, registered before anything can panic. */
  lemma {:induction false} UnwoundOuter(c: Config, input: Input, ctx: M.Ctx)
    ensures var outer := if c.tracked then [DoneCall] else [];
            Unwound(input, ctx, outer + [CancelCall]) == [Cancel] + if c.tracked then [WgDone] else []
  {
    var outer := if c.tracked then [DoneCall] else [];
    UnwoundPush(input, ctx, outer, CancelCall);
    if c.tracked {
      UnwoundPush(input, ctx, [], DoneCall);
      assert [] + [DoneCall] == outer;
    }
  }

  /** The body from the instruction that makes the stream context. */
  lemma {:induction false} FromMakeContext(c: Config, input: Input, ctx: M.Ctx, defers: seq<Call>)
    ensures FromBody(c, input, ctx, |Program(c)| - 3, defers) ==
            if input.connPanics then Unwound(input, ctx, defers)
            else Effects(CleanupCall, Outcome(c, input).world.ctx) +
                 Unwound(input, Outcome(c, input).world.ctx, defers)
  {
    var n, made := |Program(c)|, NewContext(input);
    if !input.connPanics {
      assert FromBody(c, input, made, n - 2, defers) == FromBody(c, input, made, n - 1, defers + [CleanupCall]);
      assert FromBody(c, input, made, n - 1, defers + [CleanupCall]) ==
             Unwound(input, Outcome(c, input).world.ctx, defers + [CleanupCall]);
      UnwoundPush(input, Outcome(c, input).world.ctx, defers, CleanupCall);
    }
  }

  lemma {:induction false} FromDerive(c: Config, input: Input, defers: seq<Call>)
    ensures var n := |Program(c)|;
            FromBody(c, input, NIL_CONTEXT, n - 6, defers) ==
            FromBody(c, input, NIL_CONTEXT, n - 3, defers + [CancelCall])
  {
    var n := |Program(c)|;
    assert FromBody(c, input, NIL_CONTEXT, n - 6, defers) == FromBody(c, input, NIL_CONTEXT, n - 5, defers);
    assert FromBody(c, input, NIL_CONTEXT, n - 5, defers) ==
           FromBody(c, input, NIL_CONTEXT, n - 4, defers + [CancelCall]);
  }

  lemma {:induction false} FromStart(c: Config, input: Input)
    ensures var outer := if c.tracked then [DoneCall] else [];
            FromBody(c, input, NIL_CONTEXT, 0, []) ==
            (if c.tracked then [Add] else []) + FromBody(c, input, NIL_CONTEXT, |Program(c)| - 6, outer)
  {
    if c.tracked {
      assert Program(c)[0] == AddWg && Program(c)[1] == Defer(DoneCall) && |Program(c)| - 6 == 2;
      assert [] + [DoneCall] == [DoneCall];
      assert FromBody(c, input, NIL_CONTEXT, 1, []) == FromBody(c, input, NIL_CONTEXT, 2, [DoneCall]);
    } else {
      assert |Program(c)| - 6 == 0;
    }
  }

  /** A goroutine that starts does, in the order the stack yields, what is promised. */
  lemma {:induction false} StartPromises(c: Config, input: Input)
    ensures Todo(c, Start(input)) == Promised(c, input)
  {
    var outer := if c.tracked then [DoneCall] else [];
    FromStart(c, input);
    FromDerive(c, input, outer);
    FromMakeContext(c, input, NIL_CONTEXT, outer + [CancelCall]);
    UnwoundOuter(c, input, NIL_CONTEXT);
    UnwoundOuter(c, input, Outcome(c, input).world.ctx);
    var tail := [Cancel] + if c.tracked then [WgDone] else [];
    var cleanup := if input.connPanics then [] else Effects(CleanupCall, Outcome(c, input).world.ctx);
    Join(if c.tracked then [Add] else [], cleanup, tail);
  }

  lemma Join(a: seq<Effect>, b: seq<Effect>, d: seq<Effect>)
    ensures a + (b + d) == a + b + d
  {}

  lemma {:induction false} ExecuteTodo(c: Config, s: Stream)
    requires s.status.InBody? && s.status.pc < |Program(c)|
    ensures Todo(c, s) == Emitted(c, s, Proceed) + Todo(c, Execute(c, s))
  {}

  lemma {:induction false} PerformTodo(c: Config, s: Stream)
    requires s.status.Leaving? && s.status.left != []
    ensures Todo(c, s) == [s.status.left[0]] + Todo(c, Perform(s))
  {
    PerformedStep(s.input, s.status.left);
    Join([s.status.left[0]], Performed(s.input, Perform(s).status.left), Unwound(s.input, s.ctx, s.defers));
  }

  lemma {:induction false} PerformedStep(input: Input, es: seq<Effect>)
    requires es != []
    ensures Performed(input, es) == [es[0]] + Performed(input, if Panics(input, es[0]) then [] else es[1..])
  {}

  lemma {:induction false} PopTodo(c: Config, s: Stream)
    requires s.status.Leaving? && s.status.left == []
    ensures Todo(c, s) == Todo(c, Unwind(s))
  {}

  lemma TodoIgnoresLog(c: Config, s: Stream, s': Stream)
    requires s'.input == s.input && s'.status == s.status && s'.defers == s.defers && s'.ctx == s.ctx
    ensures Todo(c, s') == Todo(c, s)
  {}

  /** A step does the first of what was left to do, or nothing of it. */
  lemma {:induction false} TodoStep(c: Config, s: Stream, a: Action)
    requires Enabled(c, s, a)
    ensures Todo(c, s) == (if a.Proceed? then Emitted(c, s, a) else []) + Todo(c, Act(c, s, a))
  {
    var s' := Act(c, s, a);
    if !a.Proceed? {
      TodoIgnoresLog(c, s, s');
    } else if s.status.InBody? {
      ExecuteTodo(c, s);
      TodoIgnoresLog(c, Execute(c, s), s');
    } else {
      TodoIgnoresLog(c, Unwind(s), s');
      if s.status.left != [] { PerformTodo(c, s); } else { PopTodo(c, s); }
    }
  }

  // ---------------------------------------------------------------------------
  // The goroutine's own effects

  predicate IsOwn(e: Effect) { !e.Deadline? && !e.Reset? }

  function Own(log: seq<Effect>): seq<Effect> {
    if log == [] then []
    else
      var e := log[|log| - 1];
      Own(log[..|log| - 1]) + if IsOwn(e) then [e] else []
  }

  lemma {:induction false} OwnMember(log: seq<Effect>, e: Effect)
    requires IsOwn(e)
    ensures e in log <==> e in Own(log)
  {
    if log == [] {
    } else {
      OwnMember(log[..|log| - 1], e);
      assert log == log[..|log| - 1] + [log[|log| - 1]];
    }
  }

  lemma OwnStep(log: seq<Effect>, e: Effect)
    ensures Own(log + [e]) == Own(log) + if IsOwn(e) then [e] else []
  {
    assert (log + [e])[..|log|] == log;
  }

  lemma OwnEmitted(c: Config, s: Stream, a: Action)
    requires Enabled(c, s, a) && OnlyOwn(s)
    ensures Own(Act(c, s, a).log) == Own(s.log) + if a.Proceed? then Emitted(c, s, a) else []
  {
    var out := Emitted(c, s, a);
    if out == [] {
      assert s.log + out == s.log;
    } else {
      OwnStep(s.log, out[0]);
    }
  }

  /** What the goroutine has done, and what it has still to do, is what was promised. */
  ghost predicate OwnInv(c: Config, s: Stream) { Own(s.log) + Todo(c, s) == Promised(c, s.input) }

  lemma {:induction false} OwnInvStep(c: Config, s: Stream, a: Action)
    requires Enabled(c, s, a) && OwnInv(c, s) && OnlyOwn(s)
    ensures OwnInv(c, Act(c, s, a))
  {
    var s', out := Act(c, s, a), if a.Proceed? then Emitted(c, s, a) else [];
    TodoStep(c, s, a);
    OwnEmitted(c, s, a);
    InputStays(c, s, a);
    Carry(Own(s.log), Todo(c, s), out, Own(s'.log), Todo(c, s'), Promised(c, s.input));
  }

  lemma InputStays(c: Config, s: Stream, a: Action)
    requires Enabled(c, s, a)
    ensures Act(c, s, a).input == s.input
  {}

  lemma Carry(done: seq<Effect>, todo: seq<Effect>, out: seq<Effect>,
              done': seq<Effect>, todo': seq<Effect>, all: seq<Effect>)
    requires done + todo == all && todo == out + todo' && done' == done + out
    ensures done' + todo' == all
  {}

  lemma OnlyOwnStep(c: Config, s: Stream, a: Action)
    requires Enabled(c, s, a) && OnlyOwn(s)
    ensures OnlyOwn(Act(c, s, a))
  {
    if a.Proceed? && s.status.Leaving? {
      if s.status.left != [] {
        AllOwnTail(s.status.left);
      } else if s.defers != [] {
        EffectsOwn(s.defers[|s.defers| - 1], s.ctx);
      }
    }
  }

  ghost predicate AllOwn(es: seq<Effect>) { forall i | 0 <= i < |es| :: IsOwn(es[i]) }

  lemma AllOwnTail(es: seq<Effect>)
    requires AllOwn(es) && es != []
    ensures AllOwn(es[1..])
  {}

  lemma EffectsOwn(call: Call, ctx: M.Ctx)
    ensures AllOwn(Effects(call, ctx))
  {}

  /** Deferred calls never stand for the timer's or the hook's own effects. */
  ghost predicate OnlyOwn(s: Stream) { s.status.Leaving? ==> AllOwn(s.status.left) }

  // ---------------------------------------------------------------------------
  // The order of what is promised

  /** The goroutine has done k of the things promised, in their order. */
  ghost predicate Reached(c: Config, s: Stream, k: nat) {
    k <= |Promised(c, s.input)| && Own(s.log) == Promised(c, s.input)[..k]
  }

  lemma {:induction false} HasReached(c: Config, s: Stream)
    requires OwnInv(c, s)
    ensures Reached(c, s, |Own(s.log)|)
    ensures s.status.Finished? ==> |Own(s.log)| == |Promised(c, s.input)|
  {
    var p := Promised(c, s.input);
    assert p[..|Own(s.log)|] == Own(s.log);
  }

  /** The effect a step of the goroutine has is the next one promised. */
  lemma {:induction false} NextPromised(c: Config, s: Stream)
    requires OwnInv(c, s) && OnlyOwn(s) && Enabled(c, s, Proceed) && Emitted(c, s, Proceed) != []
    ensures var k := |Own(s.log)|;
            && Reached(c, s, k) && k < |Promised(c, s.input)|
            && Promised(c, s.input)[k] == Emitted(c, s, Proceed)[0]
  {
    HasReached(c, s);
    TodoStep(c, s, Proceed);
  }

  lemma AddIsFirst(c: Config, input: Input, k: nat)
    requires k < |Promised(c, input)|
    ensures Promised(c, input)[k] == Add <==> c.tracked && k == 0
  {}

  lemma DoneIsLast(c: Config, input: Input, k: nat)
    requires k < |Promised(c, input)|
    ensures Promised(c, input)[k] == WgDone <==> c.tracked && k == |Promised(c, input)| - 1
  {}

  lemma StopOnlyWithCleanup(c: Config, input: Input, k: nat)
    requires k < |Promised(c, input)|
    ensures input.connPanics ==> !Promised(c, input)[k].StopHook? && !Promised(c, input)[k].Close?
    ensures Promised(c, input)[k] == Cancel && !input.connPanics ==> StopHook in Promised(c, input)[..k]
  {
    var p := Promised(c, input);
    if p[k] == Cancel && !input.connPanics {
      assert p[..k][k - 2] == StopHook;
    }
  }

  /** The hook is stopped before the context is cancelled, unless the stream had no peer. */
  lemma {:induction false} StoppedBeforeCancel(c: Config, s: Stream)
    requires OwnInv(c, s) && OnlyOwn(s) && Enabled(c, s, Proceed) && Emitted(c, s, Proceed) == [Cancel]
    ensures s.input.connPanics || StopHook in s.log
  {
    NextPromised(c, s);
    StopOnlyWithCleanup(c, s.input, |Own(s.log)|);
    OwnMember(s.log, StopHook);
  }

  lemma {:induction false} NoCleanupWithoutPeer(c: Config, s: Stream)
    requires OwnInv(c, s) && s.input.connPanics
    ensures StopHook !in s.log && Close !in s.log
  {
    HasReached(c, s);
    OwnMember(s.log, StopHook);
    OwnMember(s.log, Close);
    forall k | 0 <= k < |Own(s.log)| ensures !Own(s.log)[k].StopHook? && !Own(s.log)[k].Close? {
      StopOnlyWithCleanup(c, s.input, k);
    }
  }

  // ---------------------------------------------------------------------------
  // Position, panics and the hook

  /** What a stream's position in the body says of it. */
  ghost predicate PlaceInv(c: Config, s: Stream) {
    var n := |Program(c)|;
    && (s.expired ==> c.timeout)
    && (!s.status.InBody? ==> (s.live <==> Cancel !in s.log))
    && (s.hook.Unset? <==> s.status.InBody? && s.status.pc <= n - 4)
    && (s.status.InBody? ==>
          && s.status.pc < n
          && (s.live <==> n - 6 < s.status.pc)
          && (n - 2 <= s.status.pc ==> !s.input.connPanics && s.ctx == NewContext(s.input))
          && StopHook !in s.log && Close !in s.log && Cancel !in s.log)
  }

  lemma PlaceStep(c: Config, s: Stream, a: Action)
    requires PlaceInv(c, s) && Enabled(c, s, a)
    ensures PlaceInv(c, Act(c, s, a))
  {}

  /** Whether a panic is under way, or Close will still raise one. */
  ghost predicate PanicInv(c: Config, s: Stream) {
    s.status.InBody? ||
    (Escapes(c, s.input) <==>
       s.status.panicking || (s.input.closePanics && !s.input.connPanics && Close !in s.log))
  }

  lemma {:induction false} PanicStep(c: Config, s: Stream, a: Action)
    requires PlaceInv(c, s) && PanicInv(c, s) && OwnInv(c, s) && OnlyOwn(s) && Enabled(c, s, a)
    ensures PanicInv(c, Act(c, s, a))
  {
    if !a.Proceed? {
      assert Act(c, s, a).status == s.status && Act(c, s, a).input == s.input;
    } else if s.status.InBody? {
      PanicInBody(c, s);
    } else if s.status.left != [] {
      if s.status.left[0] == Close {
        NextPromised(c, s);
        StopOnlyWithCleanup(c, s.input, |Own(s.log)|);
      }
      PanicPerform(c, s);
    } else {
      assert s.log + [] == s.log;
    }
  }

  lemma PanicInBody(c: Config, s: Stream)
    requires PlaceInv(c, s) && s.status.InBody? && Enabled(c, s, Proceed)
    ensures PanicInv(c, Act(c, s, Proceed))
  {
    assert s.log + [] == s.log;
  }

  lemma PanicPerform(c: Config, s: Stream)
    requires PanicInv(c, s) && s.status.Leaving? && s.status.left != []
    requires s.status.left[0] == Close ==> !s.input.connPanics
    ensures PanicInv(c, Perform(s).(log := s.log + [s.status.left[0]]))
  {}

  /** A deadline event comes before any stop event of the log. */
  ghost predicate ExpiredInTime(log: seq<Effect>) {
    exists i | 0 <= i < |log| :: log[i].Deadline? && StopHook !in log[..i]
  }

  lemma TimelyAppend(log: seq<Effect>, e: Effect)
    ensures ExpiredInTime(log + [e]) <==> ExpiredInTime(log) || (e.Deadline? && StopHook !in log)
  {
    var log' := log + [e];
    if ExpiredInTime(log) {
      var i :| 0 <= i < |log| && log[i].Deadline? && StopHook !in log[..i];
      assert log'[i].Deadline? && log'[..i] == log[..i];
    }
    if e.Deadline? && StopHook !in log { assert log'[|log|].Deadline? && log'[..|log|] == log; }
    if ExpiredInTime(log') {
      var i :| 0 <= i < |log'| && log'[i].Deadline? && StopHook !in log'[..i];
      if i < |log| { assert log'[..i] == log[..i]; } else { assert log'[..i] == log; }
    }
  }

  /** What a hook's state says of the context and the log. */
  ghost predicate HookOk(input: Input, hook: Hook, live: bool, expired: bool, log: seq<Effect>) {
    && (hook.Armed? ==> !expired && live && StopHook !in log)
    && (hook.Stopped? ==> StopHook in log)
    && (hook.Started? || hook.Issued? ==> ExpiredInTime(log) || input.connPanics)
    && (expired && StopHook !in log ==> ExpiredInTime(log))
    && (ExpiredInTime(log) ==> expired && !hook.Armed? && !hook.Stopped?)
    && (Reset in log <==> hook.Issued?)
    && (Deadline in log <==> expired)
    && (Cancel in log ==> !live)
  }

  ghost predicate HookInv(s: Stream) { HookOk(s.input, s.hook, s.live, s.expired, s.log) }

  lemma HookDeadline(input: Input, hook: Hook, log: seq<Effect>)
    requires HookOk(input, hook, true, false, log)
    ensures HookOk(input, Fire(hook), true, true, log + [Deadline])
  {
    TimelyAppend(log, Deadline);
  }

  lemma HookReset(input: Input, live: bool, expired: bool, log: seq<Effect>)
    requires HookOk(input, Started, live, expired, log)
    ensures HookOk(input, Issued, live, expired, log + [Reset])
  {
    TimelyAppend(log, Reset);
  }

  lemma HookStop(input: Input, hook: Hook, live: bool, expired: bool, log: seq<Effect>)
    requires HookOk(input, hook, live, expired, log)
    ensures HookOk(input, if hook.Armed? then Stopped else hook, live, expired, log + [StopHook])
  {
    TimelyAppend(log, StopHook);
  }

  lemma HookCancel(input: Input, hook: Hook, live: bool, expired: bool, log: seq<Effect>)
    requires HookOk(input, hook, live, expired, log) && (input.connPanics || StopHook in log)
    ensures HookOk(input, Fire(hook), false, expired, log + [Cancel])
  {
    TimelyAppend(log, Cancel);
  }

  lemma HookOther(input: Input, hook: Hook, live: bool, expired: bool, log: seq<Effect>, e: Effect)
    requires HookOk(input, hook, live, expired, log) && IsOwn(e) && !e.StopHook? && !e.Cancel?
    ensures HookOk(input, hook, live, expired, log + [e])
  {
    TimelyAppend(log, e);
  }

  lemma HookExternal(c: Config, s: Stream, a: Action)
    requires HookInv(s) && Enabled(c, s, a) && !a.Proceed?
    ensures HookInv(Act(c, s, a))
  {
    if a.Expire? {
      HookDeadline(s.input, s.hook, s.log);
    } else {
      HookReset(s.input, s.live, s.expired, s.log);
    }
  }

  lemma HookInBody(c: Config, s: Stream)
    requires PlaceInv(c, s) && HookInv(s) && Enabled(c, s, Proceed) && s.status.InBody?
    ensures HookInv(Act(c, s, Proceed))
  {
    if Emitted(c, s, Proceed) == [] {
      assert s.log + [] == s.log;
    } else {
      HookOther(s.input, s.hook, s.live, s.expired, s.log, Add);
    }
  }

  lemma {:induction false} HookUnwinding(c: Config, s: Stream)
    requires HookInv(s) && OwnInv(c, s) && OnlyOwn(s) && Enabled(c, s, Proceed) && s.status.Leaving?
    ensures HookInv(Act(c, s, Proceed))
  {
    if s.status.left == [] {
      assert s.log + [] == s.log;
    } else {
      if s.status.left[0] == Cancel { StoppedBeforeCancel(c, s); }
      HookPerform(s);
    }
  }

  lemma HookPerform(s: Stream)
    requires HookInv(s) && s.status.Leaving? && s.status.left != [] && IsOwn(s.status.left[0])
    requires s.status.left[0] == Cancel ==> s.input.connPanics || StopHook in s.log
    ensures HookInv(Perform(s).(log := s.log + [s.status.left[0]]))
  {
    var e := s.status.left[0];
    if e == StopHook {
      HookStop(s.input, s.hook, s.live, s.expired, s.log);
    } else if e == Cancel {
      HookCancel(s.input, s.hook, s.live, s.expired, s.log);
    } else {
      HookOther(s.input, s.hook, s.live, s.expired, s.log, e);
    }
  }

  ghost predicate Inv(c: Config, s: Stream) {
    OwnInv(c, s) && OnlyOwn(s) && PlaceInv(c, s) && PanicInv(c, s) && HookInv(s)
  }

  lemma {:induction false} ActKeepsInv(c: Config, s: Stream, a: Action)
    requires Inv(c, s) && Enabled(c, s, a)
    ensures Inv(c, Act(c, s, a))
  {
    OwnInvStep(c, s, a);
    OnlyOwnStep(c, s, a);
    PlaceStep(c, s, a);
    PanicStep(c, s, a);
    if !a.Proceed? {
      HookExternal(c, s, a);
    } else if s.status.InBody? {
      HookInBody(c, s);
    } else {
      HookUnwinding(c, s);
    }
  }

  lemma {:induction false} StartInv(c: Config, input: Input)
    ensures Inv(c, Start(input))
  {
    StartPromises(c, input);
  }

  // ---------------------------------------------------------------------------
  // Any number of streams, one WaitGroup

  datatype State = State(streams: map<nat, Stream>, wg: int)

  datatype Step = Accept(id: nat, input: Input) | Move(id: nat, action: Action)

  function WgChange(out: seq<Effect>): int {
    if out == [Add] then 1 else if out == [WgDone] then -1 else 0
  }

  predicate CanStep(c: Config, s: State, step: Step) {
    match step
    case Accept(id, _) => id !in s.streams
    case Move(id, a) => id in s.streams && Enabled(c, s.streams[id], a)
  }

  function Next(c: Config, s: State, step: Step): State
    requires CanStep(c, s, step)
  {
    match step
    case Accept(id, input) => s.(streams := s.streams[id := Start(input)])
    case Move(id, a) =>
      var st := s.streams[id];
      State(s.streams[id := Act(c, st, a)], s.wg + WgChange(Emitted(c, st, a)))
  }

  /** The stream has added itself to the WaitGroup and has not reported itself done. */
  predicate InFlight(s: Stream) { Count(s.log) == 1 }

  ghost function Active(s: State): set<nat> { set id | id in s.streams && InFlight(s.streams[id]) }

  ghost predicate GlobalInv(c: Config, s: State) {
    && (forall id | id in s.streams :: Inv(c, s.streams[id]))
    && s.wg == |Active(s)|
  }

  lemma {:induction false} FlightStep(c: Config, s: Stream, a: Action)
    requires Inv(c, s) && Enabled(c, s, a)
    ensures Count(Act(c, s, a).log) == Count(s.log) + WgChange(Emitted(c, s, a))
  {
    var out := Emitted(c, s, a);
    if out == [] {
      assert s.log + [] == s.log;
    } else {
      if out == [Add] || out == [WgDone] {
        NextPromised(c, s);
        NotYet(c, s);
        EndsPromised(c, s.input, |Own(s.log)|);
        if out == [WgDone] { AddDone(c, s); }
      }
      CountStep(s.log, out[0]);
    }
  }

  function Count(log: seq<Effect>): int { if Add in log && WgDone !in log then 1 else 0 }

  lemma CountStep(log: seq<Effect>, e: Effect)
    requires e == Add ==> Add !in log && WgDone !in log
    requires e == WgDone ==> Add in log && WgDone !in log
    ensures Count(log + [e]) == Count(log) + WgChange([e])
  {}

  lemma EndsPromised(c: Config, input: Input, k: nat)
    requires k < |Promised(c, input)|
    ensures Promised(c, input)[k] == Add ==> k == 0
    ensures Promised(c, input)[k] == WgDone ==> c.tracked && 0 < k
  {
    AddIsFirst(c, input, k);
    DoneIsLast(c, input, k);
  }

  /** What is promised only at the ends has not been done before. */
  lemma {:induction false} NotYet(c: Config, s: Stream)
    requires Reached(c, s, |Own(s.log)|)
    ensures |Own(s.log)| < |Promised(c, s.input)| ==> WgDone !in s.log
    ensures |Own(s.log)| == 0 ==> Add !in s.log
  {
    OwnMember(s.log, Add);
    OwnMember(s.log, WgDone);
    forall k | 0 <= k < |Own(s.log)| && Own(s.log)[k] == WgDone ensures |Own(s.log)| == |Promised(c, s.input)| {
      DoneIsLast(c, s.input, k);
    }
  }

  lemma {:induction false} AddDone(c: Config, s: Stream)
    requires Reached(c, s, |Own(s.log)|) && c.tracked && 0 < |Own(s.log)|
    ensures Add in s.log
  {
    AddIsFirst(c, s.input, 0);
    assert Own(s.log)[0] == Add;
    OwnMember(s.log, Add);
  }

  /** Replacing one stream's entry changes the count by that stream's own change. */
  lemma CountOne(s: State, s': State, id: nat, st: Stream)
    requires s'.streams == s.streams[id := st]
    requires id !in s.streams ==> !InFlight(st)
    ensures |Active(s')| == |Active(s)| + Count(st.log) - if id in s.streams then Count(s.streams[id].log) else 0
  {
    OthersStay(s, s', id, st);
    SizeWithout(Active(s), id);
    SizeWithout(Active(s'), id);
  }

  lemma OthersStay(s: State, s': State, id: nat, st: Stream)
    requires s'.streams == s.streams[id := st]
    ensures Active(s') - {id} == Active(s) - {id}
  {}

  lemma SizeWithout(ids: set<nat>, id: nat)
    ensures |ids| == |ids - {id}| + if id in ids then 1 else 0
  {}

  lemma {:induction false} NextKeepsInv(c: Config, s: State, step: Step)
    requires GlobalInv(c, s) && CanStep(c, s, step)
    ensures GlobalInv(c, Next(c, s, step))
  {
    match step
    case Accept(id, input) =>
      StartInv(c, input);
      ReplaceKeepsInv(c, s, id, Start(input), 0);
    case Move(id, a) =>
      var st := s.streams[id];
      ActKeepsInv(c, st, a);
      FlightStep(c, st, a);
      ReplaceKeepsInv(c, s, id, Act(c, st, a), WgChange(Emitted(c, st, a)));
  }

  lemma {:induction false} ReplaceKeepsInv(c: Config, s: State, id: nat, st: Stream, change: int)
    requires GlobalInv(c, s) && Inv(c, st)
    requires Count(st.log) == change + if id in s.streams then Count(s.streams[id].log) else 0
    requires id !in s.streams ==> change == 0
    ensures GlobalInv(c, State(s.streams[id := st], s.wg + change))
  {
    CountOne(s, State(s.streams[id := st], s.wg + change), id, st);
  }

  ghost predicate Behaviour(c: Config, states: seq<State>, steps: seq<Step>) {
    && |states| == |steps| + 1 && states[0] == State(map[], 0)
    && forall i | 0 <= i < |steps| :: CanStep(c, states[i], steps[i]) && states[i + 1] == Next(c, states[i], steps[i])
  }

  lemma {:induction false} BehaviourInv(c: Config, states: seq<State>, steps: seq<Step>, i: nat)
    requires Behaviour(c, states, steps) && i < |states|
    ensures GlobalInv(c, states[i])
  {
    if i == 0 {
      assert Active(states[0]) == {};
    } else {
      BehaviourInv(c, states, steps, i - 1);
      NextKeepsInv(c, states[i - 1], steps[i - 1]);
    }
  }

  // ---------------------------------------------------------------------------
  // Main results, over every behaviour

  /** However the middleware ended and however streams, deadlines and hooks interleave, the
      deferred calls of a finished stream have cleaned up after it, and a panic left
      HandleStream exactly when the middleware, RemotePeer or Close raised one. */
  lemma {:induction false} CleanupComplete(tracked: bool, timeout: bool, ms: seq<M.Mw>,
                                           states: seq<State>, steps: seq<Step>, i: nat, id: nat)
    requires Behaviour(Pipeline(tracked, timeout, ms), states, steps) && i < |states|
    requires id in states[i].streams && states[i].streams[id].status.Finished?
    ensures var s := states[i].streams[id];
            var out := M.Run(ms, 0, M.World(M.Ctx(None, "", None, s.input.request), []));
            && Own(s.log) == CleanedUp(tracked, s.input, out)
            && (s.status.panicking <==> s.input.connPanics || s.input.closePanics || out.Panicked?)
  {
    var c, s := Pipeline(tracked, timeout, ms), states[i].streams[id];
    BehaviourInv(c, states, steps, i);
    assert Inv(c, s);
    FinishedDid(c, s);
    CloseIff(c, s);
  }

  lemma {:induction false} FinishedDid(c: Config, s: Stream)
    requires OwnInv(c, s) && s.status.Finished?
    ensures Own(s.log) == Promised(c, s.input)
  {}

  /** Close was called exactly if the stream had a peer. */
  lemma {:induction false} CloseIff(c: Config, s: Stream)
    requires OwnInv(c, s) && s.status.Finished?
    ensures Close in s.log <==> !s.input.connPanics
    ensures StopHook in s.log <==> !s.input.connPanics
    ensures Cancel in s.log
  {
    FinishedDid(c, s);
    OwnMember(s.log, Close);
    OwnMember(s.log, StopHook);
    OwnMember(s.log, Cancel);
    if s.input.connPanics {
      NoCleanupWithoutPeer(c, s);
    } else {
      var e := Effects(CleanupCall, Outcome(c, s.input).world.ctx);
      assert e[|e| - 1] == Close && e[|e| - 2] == StopHook;
    }
  }

  /** A Reset is issued only if the deadline passed before the hook was stopped, or the
      stream panicked when asked for its peer, in which case cancelling the context sets
      the hook off without any deadline. In a finished stream the hook has been set off
      exactly in those cases, and otherwise never will be. */
  lemma {:induction false} ResetExactly(c: Config, states: seq<State>, steps: seq<Step>, i: nat, id: nat)
    requires Behaviour(c, states, steps) && i < |states| && id in states[i].streams
    ensures var s := states[i].streams[id];
            && (Reset in s.log ==> ExpiredInTime(s.log) || s.input.connPanics)
            && (s.status.Finished? ==>
                  && !s.hook.Armed? && !s.hook.Unset?
                  && (s.hook.Started? || s.hook.Issued? <==> ExpiredInTime(s.log) || s.input.connPanics))
  {
    var s := states[i].streams[id];
    BehaviourInv(c, states, steps, i);
    assert Inv(c, s);
    if s.status.Finished? { CloseIff(c, s); }
  }

  /** Without a request timeout no deadline ever passes, so that a stream is reset only if
      it panicked when asked for its peer. */
  lemma {:induction false} NoTimeoutNoDeadline(c: Config, states: seq<State>, steps: seq<Step>, i: nat, id: nat)
    requires Behaviour(c, states, steps) && i < |states| && id in states[i].streams && !c.timeout
    ensures var s := states[i].streams[id];
            && Deadline !in s.log
            && (Reset in s.log ==> s.input.connPanics)
  {
    BehaviourInv(c, states, steps, i);
    assert Inv(c, states[i].streams[id]);
    ResetExactly(c, states, steps, i, id);
  }

  /** The middleware of a stream is running. */
  predicate InPipeline(c: Config, s: Stream) { s.status == InBody(|Program(c)| - 1) }

  /** With a request timeout, a stream whose middleware is running, blocked on its peer or
      not, can always be reset: whatever has happened so far, the behaviour goes on to the
      Reset without a step of the stream's own goroutine. */
  lemma {:induction false} BlockedStreamIsReset(c: Config, states: seq<State>, steps: seq<Step>, id: nat)
    returns (states': seq<State>, steps': seq<Step>)
    requires Behaviour(c, states, steps) && c.timeout
    requires var s := states[|steps|]; id in s.streams && InPipeline(c, s.streams[id])
    ensures Behaviour(c, states', steps') && steps <= steps'
    ensures forall k | |steps| <= k < |steps'| :: steps'[k] == Move(id, Expire) || steps'[k] == Move(id, RunHook)
    ensures var s := states'[|steps'|];
            && id in s.streams && InPipeline(c, s.streams[id])
            && Deadline in s.streams[id].log && Reset in s.streams[id].log
  {
    BehaviourInv(c, states, steps, |steps|);
    var s := states[|steps|].streams[id];
    assert Inv(c, s);
    if s.expired {
      states', steps' := IssueReset(c, states, steps, id);
    } else {
      states', steps' := MoveOne(c, states, steps, id, Expire);
      states', steps' := IssueReset(c, states', steps', id);
    }
  }

  /** The stream's next action, as the behaviour's next step. */
  lemma {:induction false} MoveOne(c: Config, states: seq<State>, steps: seq<Step>, id: nat, a: Action)
    returns (states': seq<State>, steps': seq<Step>)
    requires Behaviour(c, states, steps)
    requires id in states[|steps|].streams && Enabled(c, states[|steps|].streams[id], a)
    ensures Behaviour(c, states', steps') && steps' == steps + [Move(id, a)]
    ensures var s := states'[|steps'|]; id in s.streams && s.streams[id] == Act(c, states[|steps|].streams[id], a)
  {
    states', steps' := Extend(c, states, steps, Move(id, a));
  }

  lemma {:induction false} IssueReset(c: Config, states: seq<State>, steps: seq<Step>, id: nat)
    returns (states': seq<State>, steps': seq<Step>)
    requires Behaviour(c, states, steps)
    requires var s := states[|steps|]; id in s.streams && InPipeline(c, s.streams[id]) && s.streams[id].expired
    ensures Behaviour(c, states', steps') && (steps' == steps || steps' == steps + [Move(id, RunHook)])
    ensures var s := states'[|steps'|];
            && id in s.streams && InPipeline(c, s.streams[id])
            && Deadline in s.streams[id].log && Reset in s.streams[id].log
  {
    BehaviourInv(c, states, steps, |steps|);
    var s := states[|steps|].streams[id];
    HookHasFired(c, s);
    if s.hook.Started? {
      states', steps' := MoveOne(c, states, steps, id, RunHook);
    } else {
      states', steps' := states, steps;
    }
  }

  lemma HookHasFired(c: Config, s: Stream)
    requires Inv(c, s) && InPipeline(c, s) && s.expired
    ensures Deadline in s.log && (s.hook.Started? || (s.hook.Issued? && Reset in s.log))
  {
    assert ExpiredInTime(s.log);
  }

  /** A deadline passes exactly for a stream whose request context exists, has not been
      cancelled and has not passed its deadline, and only with a request timeout. */
  lemma {:induction false} CanExpireIff(c: Config, states: seq<State>, steps: seq<Step>, i: nat, id: nat)
    requires Behaviour(c, states, steps) && i < |states| && id in states[i].streams
    ensures var s := states[i].streams[id];
            CanStep(c, states[i], Move(id, Expire)) <==>
            && c.timeout && Deadline !in s.log && Cancel !in s.log
            && (s.status.InBody? ==> s.status.pc <= |Program(c)| && Derive in Program(c)[..s.status.pc])
  {
    BehaviourInv(c, states, steps, i);
    assert Inv(c, states[i].streams[id]);
    DerivedAt(c, states[i].streams[id]);
  }

  lemma DerivedAt(c: Config, s: Stream)
    requires Inv(c, s)
    ensures s.status.InBody? ==> (Derive in Program(c)[..s.status.pc] <==> |Program(c)| - 6 < s.status.pc)
  {
    var n := |Program(c)|;
    if s.status.InBody? && n - 6 < s.status.pc { assert Program(c)[..s.status.pc][n - 6] == Derive; }
  }

  /** With Recovery outermost and a sound stream, no middleware makes HandleStream panic. */
  lemma {:induction false} RecoveredStreamReturns(tracked: bool, timeout: bool, rid: nat, ms: seq<M.Mw>,
                                                  states: seq<State>, steps: seq<Step>, i: nat, id: nat)
    requires Behaviour(Pipeline(tracked, timeout, [M.Code(rid, M.RECOVERY_BODY)] + ms), states, steps)
    requires i < |states| && id in states[i].streams
    requires var s := states[i].streams[id]; s.status.Finished? && !s.input.connPanics && !s.input.closePanics
    ensures !states[i].streams[id].status.panicking
  {
    var s := states[i].streams[id];
    CleanupComplete(tracked, timeout, [M.Code(rid, M.RECOVERY_BODY)] + ms, states, steps, i, id);
    M.RecoveryContains(rid, ms, M.World(NewContext(s.input), []));
  }

  /** The WaitGroup counts the streams in flight, so it is never negative; a drain that
      sees zero sees only streams that have done nothing yet or everything they will do. */
  lemma {:induction false} WaitGroupCounts(c: Config, states: seq<State>, steps: seq<Step>, i: nat)
    requires Behaviour(c, states, steps) && i < |states|
    ensures states[i].wg == |Active(states[i])|
    ensures states[i].wg == 0 && c.tracked ==>
              forall id | id in states[i].streams ::
                var s := states[i].streams[id]; Own(s.log) == [] || Own(s.log) == Promised(c, s.input)
  {
    BehaviourInv(c, states, steps, i);
    if states[i].wg == 0 && c.tracked {
      forall id | id in states[i].streams
        ensures var s := states[i].streams[id]; Own(s.log) == [] || Own(s.log) == Promised(c, s.input)
      {
        var s := states[i].streams[id];
        assert id !in Active(states[i]) && Inv(c, s);
        NothingOrAll(c, s);
      }
    }
  }

  lemma {:induction false} NothingOrAll(c: Config, s: Stream)
    requires OwnInv(c, s) && c.tracked && !InFlight(s)
    ensures Own(s.log) == [] || Own(s.log) == Promised(c, s.input)
  {
    HasReached(c, s);
    NotYet(c, s);
    if Own(s.log) != [] {
      AddDone(c, s);
      assert |Own(s.log)| == |Promised(c, s.input)|;
    }
  }

  // ---------------------------------------------------------------------------
  // Every stream can finish

  /** A bound on the steps the goroutine has left. */
  function Rank(c: Config, s: Stream): nat {
    match s.status
    case InBody(pc) => 1 + 5 * (if pc < |Program(c)| then |Program(c)| - pc else 0) + 4 * |s.defers|
    case Leaving(left, _) => 1 + |left| + 4 * |s.defers|
    case Finished(_) => 0
  }

  lemma RankStep(c: Config, s: Stream)
    requires Enabled(c, s, Proceed)
    ensures Rank(c, Act(c, s, Proceed)) < Rank(c, s)
  {
    if s.status.InBody? {
      RankExecute(c, s);
    } else {
      RankUnwind(c, s);
    }
  }

  lemma RankExecute(c: Config, s: Stream)
    requires s.status.InBody? && s.status.pc < |Program(c)|
    ensures Rank(c, Execute(c, s)) < Rank(c, s)
  {}

  lemma RankUnwind(c: Config, s: Stream)
    requires s.status.Leaving?
    ensures Rank(c, Unwind(s)) < Rank(c, s)
  {}

  /** Whatever has happened so far, a stream can go on, by steps of its own goroutine alone,
      until it is finished; from its start that takes at most 41 steps. */
  lemma {:induction false} StreamFinishes(c: Config, states: seq<State>, steps: seq<Step>, id: nat)
    returns (states': seq<State>, steps': seq<Step>)
    requires Behaviour(c, states, steps) && id in states[|steps|].streams
    ensures Behaviour(c, states', steps') && steps <= steps'
    ensures |steps'| <= |steps| + Rank(c, states[|steps|].streams[id])
    ensures forall k | |steps| <= k < |steps'| :: steps'[k] == Move(id, Proceed)
    ensures id in states'[|steps'|].streams && states'[|steps'|].streams[id].status.Finished?
    decreases Rank(c, states[|steps|].streams[id])
  {
    BehaviourInv(c, states, steps, |steps|);
    var s := states[|steps|].streams[id];
    assert Inv(c, s);
    if s.status.Finished? {
      states', steps' := states, steps;
    } else {
      RankStep(c, s);
      states', steps' := MoveOne(c, states, steps, id, Proceed);
      states', steps' := StreamFinishes(c, states', steps', id);
    }
  }

  lemma RankAtStart(c: Config, input: Input)
    ensures Rank(c, Start(input)) <= 41
  {}

  // ---------------------------------------------------------------------------
  // A panic before the cleanup is deferred

  /** The behaviour continued by one enabled step. */
  lemma Extend(c: Config, states: seq<State>, steps: seq<Step>, step: Step)
    returns (states': seq<State>, steps': seq<Step>)
    requires Behaviour(c, states, steps) && CanStep(c, states[|states| - 1], step)
    ensures Behaviour(c, states', steps') && steps' == steps + [step]
    ensures |states'| == |states| + 1 && states'[|states|] == Next(c, states[|states| - 1], step)
  {
    states', steps' := states + [Next(c, states[|states| - 1], step)], steps + [step];
  }

  /** A stream without deadline whose peer cannot be read is reset all the same. */
  lemma ResetWithoutDeadline(run: M.Ctx -> M.Out) returns (states: seq<State>, steps: seq<Step>)
    ensures Behaviour(Config(false, false, run), states, steps)
    ensures var s := states[|states| - 1];
            0 in s.streams && s.streams[0].log == [Cancel, Reset]
  {
    var c := Config(false, false, run);
    states, steps := Panicked(c);
    states, steps := Extend(c, states, steps, Move(0, Proceed));
    states, steps := Extend(c, states, steps, Move(0, Proceed));
    states, steps := Extend(c, states, steps, Move(0, RunHook));
  }

  lemma Panicked(c: Config) returns (states: seq<State>, steps: seq<Step>)
    requires !c.tracked
    ensures Behaviour(c, states, steps)
    ensures var input := Input(map[], true, false);
            var s := Stream(input, Leaving([], true), [CancelCall], NIL_CONTEXT, true, false, Armed, []);
            var last := states[|states| - 1]; 0 in last.streams && last.streams[0] == s
  {
    states, steps := [State(map[], 0)], [];
    states, steps := Extend(c, states, steps, Accept(0, Input(map[], true, false)));
    states, steps := Extend(c, states, steps, Move(0, Proceed));
    states, steps := Extend(c, states, steps, Move(0, Proceed));
    states, steps := Extend(c, states, steps, Move(0, Proceed));
    states, steps := Extend(c, states, steps, Move(0, Proceed));
  }
}
