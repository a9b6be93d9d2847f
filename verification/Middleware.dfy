/** A language of middleware and its meaning: Pipeline.run, Chain, OperationRouter and
    Recovery. A middleware body is a command that may transform the context, call next any
    number of times, branch, loop, panic and recover from panics. */
module Middleware {
  import opened Prelude

  datatype Fault =
    | ErrPanic | ErrMissingOperation | ErrUnknownOperation | ErrEnvelope | ErrOperationValue
    | Other(what: string)

  /** The part of StreamContext that middleware share: the error that short-circuits the
      pipeline, the routed operation, the pooled buffer to release, and everything else. */
  datatype Ctx = Ctx(err: Option<Fault>, operation: string, poolBuf: Option<nat>, rest: map<string, string>)

  /** Observations: a body is entered, with or without Err set, and is left again by
      returning or by panicking. */
  datatype Event = Enter(id: nat, errSet: bool) | Leave(id: nat)

  datatype World = World(ctx: Ctx, trace: seq<Event>)

  datatype Out = Done(world: World) | Panicked(world: World)

  /** The `next` a middleware is given. */
  type Cont = World -> Out

  datatype Cmd =
    | Skip
    | Do(effect: Ctx -> Ctx)
    | Next
    | Panic
    | Seq(first: Cmd, second: Cmd)
    | If(cond: Ctx -> bool, thn: Cmd, els: Cmd)
    | Repeat(count: Ctx -> nat, body: Cmd)
    | Recover(body: Cmd, handler: Ctx -> Ctx)

  function Exec(c: Cmd, k: Cont, w: World): Out
    decreases c, 0
  {
    match c
    case Skip => Done(w)
    case Do(f) => Done(w.(ctx := f(w.ctx)))
    case Next => k(w)
    case Panic => Panicked(w)
    case Seq(a, b) =>
      var r := Exec(a, k, w);
      if r.Done? then Exec(b, k, r.world) else r
    case If(p, a, b) => if p(w.ctx) then Exec(a, k, w) else Exec(b, k, w)
    case Repeat(n, body) => Loop(body, n(w.ctx), k, w)
    case Recover(body, h) =>
      var r := Exec(body, k, w);
      if r.Done? then r else Done(r.world.(ctx := h(r.world.ctx)))
  }

  function Loop(body: Cmd, n: nat, k: Cont, w: World): Out
    decreases body, n + 1
  {
    if n == 0 then Done(w)
    else
      var r := Exec(body, k, w);
      if r.Done? then Loop(body, n - 1, k, r.world) else r
  }

  /** What parsing the request for its operation field can yield. */
  datatype Parsed = BadEnvelope | MissingField | BadValue | Operation(name: string)

  datatype Route = Route(name: string, handler: Mw)

  datatype Mw =
    | Code(id: nat, body: Cmd)
    | Chain(ms: seq<Mw>)
    | Router(id: nat, parse: Ctx -> Parsed, routes: seq<Route>)

  const RECOVERY_BODY: Cmd := Recover(Next, (c: Ctx) => c.(err := Some(ErrPanic)))

  function Entered(id: nat, w: World): World {
    w.(trace := w.trace + [Enter(id, w.ctx.err.Some?)])
  }

  function Left(id: nat, r: Out): Out {
    r.(world := r.world.(trace := r.world.trace + [Leave(id)]))
  }

  function Fail(w: World, e: Fault): Out { Done(w.(ctx := w.ctx.(err := Some(e)))) }

  /** Calling a middleware. */
  function Apply(m: Mw, k: Cont, w: World): Out
    decreases m
  {
    match m
    case Code(id, body) => Left(id, Exec(body, k, Entered(id, w)))
    case Chain(ms) => ChainRun(ms, k, w)
    case Router(id, parse, routes) =>
      var w' := Entered(id, w);
      var r := match parse(w'.ctx)
               case BadEnvelope => Fail(w', ErrEnvelope)
               case MissingField => Fail(w', ErrMissingOperation)
               case BadValue => Fail(w', ErrOperationValue)
               case Operation(op) => Dispatch(routes, op, k, w');
      Left(id, r)
  }

  /** The route table lookup, then SetOperation and the handler with the router's next. */
  function Dispatch(routes: seq<Route>, op: string, k: Cont, w: World): Out
    decreases routes
  {
    if routes == [] then Fail(w, ErrUnknownOperation)
    else if routes[0].name == op then Apply(routes[0].handler, k, w.(ctx := w.ctx.(operation := op)))
    else Dispatch(routes[1..], op, k, w)
  }

  /** What the closure built by Chain does: each link checks Err, the last calls next. */
  function ChainRun(ms: seq<Mw>, k: Cont, w: World): Out
    decreases ms
  {
    if ms == [] then k(w)
    else if w.ctx.err.Some? then Done(w)
    else Apply(ms[0], w' => ChainRun(ms[1..], k, w'), w)
  }

  /** Pipeline.run: recursion forward by index. */
  function Run(ms: seq<Mw>, idx: nat, w: World): Out
    decreases |ms| - idx
  {
    if w.ctx.err.Some? || idx >= |ms| then Done(w)
    else Apply(ms[idx], w' => Run(ms, idx + 1, w'), w)
  }

  const STOP: Cont := (w: World) => Done(w)

  // ---------------------------------------------------------------------------
  // A middleware depends on next only through what next does

  ghost predicate Same(k: Cont, k': Cont) { forall w :: k(w) == k'(w) }

  lemma {:induction false} ExecCong(c: Cmd, k: Cont, k': Cont, w: World)
    requires Same(k, k')
    ensures Exec(c, k, w) == Exec(c, k', w)
    decreases c, 0
  {
    match c
    case Skip =>
    case Do(_) =>
    case Next =>
    case Panic =>
    case Seq(a, b) =>
      ExecCong(a, k, k', w);
      ExecCong(b, k, k', Exec(a, k, w).world);
    case If(p, a, b) =>
      ExecCong(a, k, k', w);
      ExecCong(b, k, k', w);
    case Repeat(n, body) =>
      LoopCong(body, n(w.ctx), k, k', w);
    case Recover(body, _) =>
      ExecCong(body, k, k', w);
  }

  lemma {:induction false} LoopCong(body: Cmd, n: nat, k: Cont, k': Cont, w: World)
    requires Same(k, k')
    ensures Loop(body, n, k, w) == Loop(body, n, k', w)
    decreases body, n + 1
  {
    if n == 0 {
    } else {
      ExecCong(body, k, k', w);
      LoopCong(body, n - 1, k, k', Exec(body, k, w).world);
    }
  }

  lemma {:induction false} ApplyCong(m: Mw, k: Cont, k': Cont, w: World)
    requires Same(k, k')
    ensures Apply(m, k, w) == Apply(m, k', w)
    decreases m
  {
    match m
    case Code(id, body) => ExecCong(body, k, k', Entered(id, w));
    case Chain(ms) => ChainCong(ms, k, k', w);
    case Router(id, parse, routes) =>
      var w' := Entered(id, w);
      if parse(w'.ctx).Operation? { DispatchCong(routes, parse(w'.ctx).name, k, k', w'); }
  }

  lemma {:induction false} DispatchCong(routes: seq<Route>, op: string, k: Cont, k': Cont, w: World)
    requires Same(k, k')
    ensures Dispatch(routes, op, k, w) == Dispatch(routes, op, k', w)
    decreases routes
  {
    if routes == [] {
    } else {
      if routes[0].name == op {
        ApplyCong(routes[0].handler, k, k', w.(ctx := w.ctx.(operation := op)));
      } else {
        DispatchCong(routes[1..], op, k, k', w);
      }
    }
  }

  lemma {:induction false} ChainCong(ms: seq<Mw>, k: Cont, k': Cont, w: World)
    requires Same(k, k')
    ensures ChainRun(ms, k, w) == ChainRun(ms, k', w)
    decreases ms
  {
    if ms != [] && w.ctx.err.None? {
      var n := (v: World) => ChainRun(ms[1..], k, v);
      var n' := (v: World) => ChainRun(ms[1..], k', v);
      forall v ensures n(v) == n'(v) { ChainCong(ms[1..], k, k', v); }
      ApplyCong(ms[0], n, n', w);
    }
  }

  // ---------------------------------------------------------------------------
  // Chain builds its closure backwards; run recurses forwards; they mean the same

  /** Chain: wrap next once per middleware, last to first. */
  method BuildChain(ms: seq<Mw>, next: Cont) returns (chained: Cont)
    ensures forall w :: chained(w) == ChainRun(ms, next, w)
  {
    chained := next;
    var i := |ms|;
    assert ms[i..] == [];
    while i > 0
      invariant 0 <= i <= |ms|
      invariant forall w :: chained(w) == ChainRun(ms[i..], next, w)
    {
      i := i - 1;
      var mw, prevNext := ms[i], chained;
      assert ms[i..][1..] == ms[i + 1..] && ms[i..][0] == mw;
      ghost var tail := (v: World) => ChainRun(ms[i..][1..], next, v);
      chained := (w: World) => if w.ctx.err.Some? then Done(w) else Apply(mw, prevNext, w);
      forall w ensures chained(w) == ChainRun(ms[i..], next, w) {
        ApplyCong(mw, prevNext, tail, w);
      }
    }
    assert ms[0..] == ms;
  }

  /** The pipeline is the chain of its middleware with an empty next. */
  lemma {:induction false} RunIsChain(ms: seq<Mw>, idx: nat, w: World)
    requires idx <= |ms|
    ensures Run(ms, idx, w) == ChainRun(ms[idx..], STOP, w)
    decreases |ms| - idx
  {
    if idx < |ms| && w.ctx.err.None? {
      var n := (v: World) => Run(ms, idx + 1, v);
      var n' := (v: World) => ChainRun(ms[idx..][1..], STOP, v);
      assert ms[idx..][1..] == ms[idx + 1..];
      forall v ensures n(v) == n'(v) { RunIsChain(ms, idx + 1, v); }
      ApplyCong(ms[idx], n, n', w);
    }
  }

  lemma {:induction false} ChainAppend(a: seq<Mw>, b: seq<Mw>, k: Cont, w: World)
    ensures ChainRun(a + b, k, w) == ChainRun(a, v => ChainRun(b, k, v), w)
    decreases a
  {
    if a == [] {
      assert a + b == b;
    } else if w.ctx.err.None? {
      assert (a + b)[1..] == a[1..] + b && (a + b)[0] == a[0];
      var kb: Cont := v => ChainRun(b, k, v);
      var n: Cont := v => ChainRun((a + b)[1..], k, v);
      var n': Cont := v => ChainRun(a[1..], kb, v);
      forall v ensures n(v) == n'(v) { ChainAppend(a[1..], b, k, v); }
      ApplyCong(a[0], n, n', w);
    }
  }

  /** A continuation that does nothing once Err is set, as every pipeline tail is. */
  ghost predicate Guarded(k: Cont) {
    forall w: World | w.ctx.err.Some? :: k(w) == Done(w)
  }

  /** A nested chain is its middleware, run behind one more check of Err. */
  lemma {:induction false} NestedChain(ms: seq<Mw>, post: seq<Mw>, k: Cont, w: World)
    ensures ChainRun([Chain(ms)] + post, k, w) ==
            if w.ctx.err.Some? then Done(w) else ChainRun(ms + post, k, w)
  {
    var all := [Chain(ms)] + post;
    assert all[1..] == post && all[0] == Chain(ms);
    if w.ctx.err.None? {
      var kp: Cont := v => ChainRun(post, k, v);
      var kp': Cont := v => ChainRun(all[1..], k, v);
      ChainCong(ms, kp', kp, w);
      ChainAppend(ms, post, k, w);
    }
  }

  /** Replacing a nested Chain by its middleware makes no difference to w. */
  ghost predicate Flattens(pre: seq<Mw>, ms: seq<Mw>, post: seq<Mw>, k: Cont, w: World) {
    ChainRun(pre + [Chain(ms)] + post, k, w) == ChainRun(pre + ms + post, k, w)
  }

  lemma {:induction false} ChainFlattens(pre: seq<Mw>, ms: seq<Mw>, post: seq<Mw>, k: Cont, w: World)
    requires ms + post != [] || Guarded(k)
    ensures Flattens(pre, ms, post, k, w)
  {
    var nested: Cont := v => ChainRun([Chain(ms)] + post, k, v);
    var flat: Cont := v => ChainRun(ms + post, k, v);
    forall v ensures nested(v) == flat(v) { NestedChain(ms, post, k, v); }
    assert pre + [Chain(ms)] + post == pre + ([Chain(ms)] + post);
    assert pre + ms + post == pre + (ms + post);
    ChainAppend(pre, [Chain(ms)] + post, k, w);
    ChainAppend(pre, ms + post, k, w);
    ChainCong(pre, nested, flat, w);
  }

  /** A nested Chain flattens, for all middleware before it and all contexts, if and only
      if it or what follows it in the enclosing Chain is not empty, or the enclosing
      Chain's own continuation is guarded. */
  lemma {:induction false} FlattensIff(ms: seq<Mw>, post: seq<Mw>, k: Cont)
    ensures (forall pre, w :: Flattens(pre, ms, post, k, w)) <==> ms + post != [] || Guarded(k)
  {
    if ms + post != [] || Guarded(k) {
      forall pre, w ensures Flattens(pre, ms, post, k, w) { ChainFlattens(pre, ms, post, k, w); }
    }
    if ms + post == [] && forall pre, w :: Flattens(pre, ms, post, k, w) {
      forall w: World | w.ctx.err.Some? ensures k(w) == Done(w) {
        assert Flattens([], ms, post, k, w);
        NestedChain(ms, post, k, w);
        assert [] + [Chain(ms)] + post == [Chain(ms)] + post && [] + ms + post == [];
      }
    }
  }

  /** A handler that uses Chain with a next of its own can see the difference: an empty
      nested Chain swallows a call that the flat one passes on. */
  lemma {:induction false} FlatteningCanFail()
    ensures var k: Cont := v => Panicked(v);
            var w := World(Ctx(Some(ErrPanic), "", None, map[]), []);
            !Flattens([], [], [], k, w)
  {}

  /** Flattening in a pipeline, unconditionally. */
  lemma {:induction false} PipelineFlattens(pre: seq<Mw>, ms: seq<Mw>, post: seq<Mw>, w: World)
    ensures Run(pre + [Chain(ms)] + post, 0, w) == Run(pre + ms + post, 0, w)
  {
    RunIsChain(pre + [Chain(ms)] + post, 0, w);
    RunIsChain(pre + ms + post, 0, w);
    var nested, flat := pre + [Chain(ms)] + post, pre + ms + post;
    assert nested[0..] == nested && flat[0..] == flat;
    ChainFlattens(pre, ms, post, STOP, w);
  }

  // ---------------------------------------------------------------------------
  // Err guards every body, and bodies nest

  /** Follow a trace with the bodies currently open; None if a body is entered with Err
      set or a body is left that is not the innermost open one. */
  function Follow(trace: seq<Event>, open: seq<nat>): Option<seq<nat>> {
    if trace == [] then Some(open)
    else
      match trace[0]
      case Enter(id, errSet) => if errSet then None else Follow(trace[1..], open + [id])
      case Leave(id) =>
        if open != [] && open[|open| - 1] == id then Follow(trace[1..], open[..|open| - 1]) else None
  }

  /** Every body in the trace was entered with Err unset, was left, and was left after
      everything entered inside it. */
  ghost predicate WellNested(trace: seq<Event>) {
    forall open :: Follow(trace, open) == Some(open)
  }

  lemma {:induction false} FollowAppend(a: seq<Event>, b: seq<Event>, open: seq<nat>)
    ensures Follow(a + b, open) ==
            match Follow(a, open)
            case None => None
            case Some(o) => Follow(b, o)
    decreases a
  {
    if a == [] {
      assert a + b == b;
    } else {
      assert (a + b)[1..] == a[1..] + b;
      match a[0]
      case Enter(id, _) => FollowAppend(a[1..], b, open + [id]);
      case Leave(id) => if open != [] { FollowAppend(a[1..], b, open[..|open| - 1]); }
    }
  }

  lemma {:induction false} NestedAppend(a: seq<Event>, b: seq<Event>)
    requires WellNested(a) && WellNested(b)
    ensures WellNested(a + b)
  {
    forall open ensures Follow(a + b, open) == Some(open) { FollowAppend(a, b, open); }
  }

  lemma {:induction false} NestedBracket(id: nat, a: seq<Event>)
    requires WellNested(a)
    ensures WellNested([Enter(id, false)] + a + [Leave(id)])
  {
    var e, l := [Enter(id, false)], [Leave(id)];
    forall open ensures Follow(e + a + l, open) == Some(open) {
      FollowAppend(e + a, l, open);
      FollowAppend(e, a, open);
      assert e[1..] == [] && l[1..] == [];
      assert Follow(e, open) == Some(open + [id]);
      assert (open + [id])[..|open|] == open;
    }
  }

  /** What happened between w and r is well nested. */
  ghost predicate Nests(w: World, r: Out) {
    w.trace <= r.world.trace && WellNested(r.world.trace[|w.trace|..])
  }

  ghost predicate AllNest(k: Cont) { forall w :: Nests(w, k(w)) }

  lemma NestsRefl(w: World, r: Out)
    requires r.world.trace == w.trace
    ensures Nests(w, r)
  {}

  lemma NestsTrans(w: World, r: Out, r': Out)
    requires Nests(w, r) && Nests(r.world, r')
    ensures Nests(w, r')
  {
    var a, b := r.world.trace[|w.trace|..], r'.world.trace[|r.world.trace|..];
    assert r'.world.trace[|w.trace|..] == a + b;
    NestedAppend(a, b);
  }

  lemma NestsBracket(id: nat, w: World, r: Out)
    requires w.ctx.err.None? && Nests(Entered(id, w), r)
    ensures Nests(w, Left(id, r))
  {
    var a := r.world.trace[|w.trace| + 1..];
    NestedBracket(id, a);
    assert Left(id, r).world.trace[|w.trace|..] == [Enter(id, false)] + a + [Leave(id)];
  }

  lemma {:induction false} ExecNests(c: Cmd, k: Cont, w: World)
    requires AllNest(k)
    ensures Nests(w, Exec(c, k, w))
    decreases c, 0
  {
    match c
    case Skip => NestsRefl(w, Exec(c, k, w));
    case Do(_) => NestsRefl(w, Exec(c, k, w));
    case Next =>
    case Panic => NestsRefl(w, Exec(c, k, w));
    case Seq(a, b) =>
      var r := Exec(a, k, w);
      ExecNests(a, k, w);
      if r.Done? {
        ExecNests(b, k, r.world);
        NestsTrans(w, r, Exec(b, k, r.world));
      }
    case If(p, a, b) =>
      ExecNests(a, k, w);
      ExecNests(b, k, w);
    case Repeat(n, body) =>
      LoopNests(body, n(w.ctx), k, w);
    case Recover(body, _) =>
      ExecNests(body, k, w);
  }

  lemma {:induction false} LoopNests(body: Cmd, n: nat, k: Cont, w: World)
    requires AllNest(k)
    ensures Nests(w, Loop(body, n, k, w))
    decreases body, n + 1
  {
    if n == 0 {
      NestsRefl(w, Loop(body, n, k, w));
    } else {
      var r := Exec(body, k, w);
      ExecNests(body, k, w);
      if r.Done? {
        LoopNests(body, n - 1, k, r.world);
        NestsTrans(w, r, Loop(body, n - 1, k, r.world));
      }
    }
  }

  lemma {:induction false} ApplyNests(m: Mw, k: Cont, w: World)
    requires AllNest(k) && w.ctx.err.None?
    ensures Nests(w, Apply(m, k, w))
    decreases m
  {
    match m
    case Code(id, body) =>
      var w' := Entered(id, w);
      ExecNests(body, k, w');
      NestsBracket(id, w, Exec(body, k, w'));
    case Chain(ms) =>
      ChainNests(ms, k, w);
    case Router(id, parse, routes) =>
      var w' := Entered(id, w);
      match parse(w'.ctx)
      case Operation(op) =>
        DispatchNests(routes, op, k, w');
        NestsBracket(id, w, Dispatch(routes, op, k, w'));
      case BadEnvelope =>
        NestsRefl(w', Fail(w', ErrEnvelope));
        NestsBracket(id, w, Fail(w', ErrEnvelope));
      case MissingField =>
        NestsRefl(w', Fail(w', ErrMissingOperation));
        NestsBracket(id, w, Fail(w', ErrMissingOperation));
      case BadValue =>
        NestsRefl(w', Fail(w', ErrOperationValue));
        NestsBracket(id, w, Fail(w', ErrOperationValue));
  }

  lemma {:induction false} DispatchNests(routes: seq<Route>, op: string, k: Cont, w: World)
    requires AllNest(k) && w.ctx.err.None?
    ensures Nests(w, Dispatch(routes, op, k, w))
    decreases routes
  {
    if routes == [] {
      NestsRefl(w, Fail(w, ErrUnknownOperation));
    } else if routes[0].name == op {
      ApplyNests(routes[0].handler, k, w.(ctx := w.ctx.(operation := op)));
    } else {
      DispatchNests(routes[1..], op, k, w);
    }
  }

  lemma {:induction false} ChainNests(ms: seq<Mw>, k: Cont, w: World)
    requires AllNest(k)
    ensures Nests(w, ChainRun(ms, k, w))
    decreases ms
  {
    if ms == [] {
    } else {
      if w.ctx.err.Some? {
        NestsRefl(w, Done(w));
      } else {
        var n: Cont := v => ChainRun(ms[1..], k, v);
        forall v ensures Nests(v, n(v)) { ChainNests(ms[1..], k, v); }
        ApplyNests(ms[0], n, w);
      }
    }
  }

  /** In every run of every pipeline, from any context and however it ends, no body is
      entered while Err is set, chained and routed ones included, and the bodies entered
      inside a body are left before it is. */
  lemma {:induction false} ErrGuardsEveryBody(ms: seq<Mw>, w: World)
    ensures Nests(w, Run(ms, 0, w))
  {
    forall v ensures Nests(v, STOP(v)) { NestsRefl(v, STOP(v)); }
    ChainNests(ms, STOP, w);
    RunIsChain(ms, 0, w);
    assert ms[0..] == ms;
  }

  // ---------------------------------------------------------------------------
  // One body in front of a pipeline

  /** One middleware at the head of a pipeline, with the pipeline behind it as its next. */
  lemma {:induction false} RunHead(m: Mw, post: seq<Mw>, k: Cont, w: World)
    requires w.ctx.err.None?
    requires forall v :: k(v) == ChainRun(post, STOP, v)
    ensures Run([m] + post, 0, w) == Apply(m, k, w)
  {
    var all := [m] + post;
    RunIsChain(all, 0, w);
    assert all[0..] == all && all[1..] == post && all[0] == m;
    var tail: Cont := v => ChainRun(all[1..], STOP, v);
    ApplyCong(m, k, tail, w);
  }

  /** What the next of the first of several middleware does: it runs the rest. */
  lemma {:induction false} NextRunsRest(post: seq<Mw>, k: Cont, w: World)
    requires forall v :: k(v) == ChainRun(post, STOP, v)
    ensures k(w) == Run(post, 0, w)
  {
    RunIsChain(post, 0, w);
    assert post[0..] == post;
  }

  /** A body that works before and after next: f, then the rest of the pipeline, then g,
      unless the rest panics, in which case g is skipped and the panic goes on. */
  lemma {:induction false} WrapperRuns(id: nat, f: Ctx -> Ctx, g: Ctx -> Ctx, post: seq<Mw>, w: World)
    requires w.ctx.err.None?
    ensures var w' := Entered(id, w);
            var rest := Run(post, 0, w'.(ctx := f(w'.ctx)));
            Run([Code(id, Seq(Do(f), Seq(Next, Do(g))))] + post, 0, w) ==
            Left(id, if rest.Done? then Done(rest.world.(ctx := g(rest.world.ctx))) else rest)
  {
    var k: Cont := v => ChainRun(post, STOP, v);
    var body, w' := Seq(Do(f), Seq(Next, Do(g))), Entered(id, w);
    RunHead(Code(id, body), post, k, w);
    NextRunsRest(post, k, w'.(ctx := f(w'.ctx)));
    assert Exec(Do(f), k, w') == Done(w'.(ctx := f(w'.ctx)));
    assert Exec(body, k, w') == Exec(Seq(Next, Do(g)), k, w'.(ctx := f(w'.ctx)));
  }

  /** A body that branches runs as the body of the branch the context selects. */
  lemma {:induction false} BranchRuns(id: nat, p: Ctx -> bool, a: Cmd, b: Cmd, post: seq<Mw>, w: World)
    requires w.ctx.err.None?
    ensures Run([Code(id, If(p, a, b))] + post, 0, w) == Run([Code(id, if p(w.ctx) then a else b)] + post, 0, w)
  {
    var k: Cont := v => ChainRun(post, STOP, v);
    RunHead(Code(id, If(p, a, b)), post, k, w);
    RunHead(Code(id, if p(w.ctx) then a else b), post, k, w);
  }

  /** A body that panics, whatever comes after, ends the pipeline there. */
  lemma {:induction false} PanicRuns(id: nat, c: Cmd, post: seq<Mw>, w: World)
    requires w.ctx.err.None?
    ensures Run([Code(id, Seq(Panic, c))] + post, 0, w) == Left(id, Panicked(Entered(id, w)))
  {
    var k: Cont := v => ChainRun(post, STOP, v);
    RunHead(Code(id, Seq(Panic, c)), post, k, w);
    assert Exec(Panic, k, Entered(id, w)) == Panicked(Entered(id, w));
  }

  /** The pipeline run n times over, until one of the runs panics. */
  ghost function Times(post: seq<Mw>, n: nat, w: World): Out {
    if n == 0 then Done(w)
    else
      var r := Run(post, 0, w);
      if r.Done? then Times(post, n - 1, r.world) else r
  }

  lemma {:induction false} LoopIsTimes(post: seq<Mw>, n: nat, k: Cont, w: World)
    requires forall v :: k(v) == ChainRun(post, STOP, v)
    ensures Loop(Next, n, k, w) == Times(post, n, w)
  {
    if n == 0 {
    } else {
      NextRunsRest(post, k, w);
      if k(w).Done? { LoopIsTimes(post, n - 1, k, k(w).world); }
    }
  }

  /** A body that calls next in a loop runs the rest of the pipeline that often. */
  lemma {:induction false} RepeatRuns(id: nat, count: Ctx -> nat, post: seq<Mw>, w: World)
    requires w.ctx.err.None?
    ensures Run([Code(id, Repeat(count, Next))] + post, 0, w) == Left(id, Times(post, count(w.ctx), Entered(id, w)))
  {
    var k: Cont := v => ChainRun(post, STOP, v);
    RunHead(Code(id, Repeat(count, Next)), post, k, w);
    LoopIsTimes(post, count(w.ctx), k, Entered(id, w));
  }

  // ---------------------------------------------------------------------------
  // Recovery

  /** With Recovery outermost no panic escapes. The pipeline ends as it would have ended
      without Recovery, except that a panic becomes ErrPanic in Err. */
  lemma {:induction false} RecoveryContains(id: nat, ms: seq<Mw>, w: World)
    requires w.ctx.err.None?
    ensures var r, bare := Run([Code(id, RECOVERY_BODY)] + ms, 0, w), Run(ms, 0, Entered(id, w));
            && r.Done?
            && r.world.trace == bare.world.trace + [Leave(id)]
            && r.world.ctx == if bare.Done? then bare.world.ctx else bare.world.ctx.(err := Some(ErrPanic))
  {
    var all, first := [Code(id, RECOVERY_BODY)] + ms, Code(id, RECOVERY_BODY);
    var n: Cont := v => Run(all, 1, v);
    RunIsChain(all, 1, Entered(id, w));
    RunIsChain(ms, 0, Entered(id, w));
    assert all[1..] == ms && ms[0..] == ms && all[0] == first;
    assert Run(all, 0, w) == Apply(first, n, w);
  }

  // ---------------------------------------------------------------------------
  // Routing

  /** The route an operation selects: the first of that name, or none. */
  function IndexOf(routes: seq<Route>, op: string): (i: nat)
    ensures i <= |routes| && (i < |routes| ==> routes[i].name == op)
    ensures forall j | 0 <= j < i :: routes[j].name != op
  {
    if routes == [] || routes[0].name == op then 0 else 1 + IndexOf(routes[1..], op)
  }

  /** What a pipeline that starts with a router should do: the pipeline that has the routed
      handler in the router's place, run inside the router's own Enter and Leave with the
      operation recorded; or an error, with nothing recorded and nothing after it run. */
  ghost function Routed(id: nat, parse: Ctx -> Parsed, routes: seq<Route>, post: seq<Mw>, w: World): Out {
    if w.ctx.err.Some? then Done(w)
    else
      var w' := Entered(id, w);
      Left(id, match parse(w.ctx)
               case BadEnvelope => Done(w'.(ctx := w.ctx.(err := Some(ErrEnvelope))))
               case MissingField => Done(w'.(ctx := w.ctx.(err := Some(ErrMissingOperation))))
               case BadValue => Done(w'.(ctx := w.ctx.(err := Some(ErrOperationValue))))
               case Operation(op) =>
                 var i := IndexOf(routes, op);
                 if i == |routes| then Done(w'.(ctx := w.ctx.(err := Some(ErrUnknownOperation))))
                 else Run([routes[i].handler] + post, 0, w'.(ctx := w'.ctx.(operation := op))))
  }

  lemma {:induction false} DispatchSelects(routes: seq<Route>, op: string, k: Cont, w: World)
    ensures var i := IndexOf(routes, op);
            Dispatch(routes, op, k, w) ==
            if i == |routes| then Fail(w, ErrUnknownOperation)
            else Apply(routes[i].handler, k, w.(ctx := w.ctx.(operation := op)))
  {
    if routes == [] || routes[0].name == op {
    } else {
      DispatchSelects(routes[1..], op, k, w);
    }
  }

  lemma {:induction false} RouterAtHead(id: nat, parse: Ctx -> Parsed, routes: seq<Route>, post: seq<Mw>, w: World)
    ensures Run([Router(id, parse, routes)] + post, 0, w) == Routed(id, parse, routes, post, w)
  {
    if w.ctx.err.None? {
      var k: Cont, w' := v => ChainRun(post, STOP, v), Entered(id, w);
      RunHead(Router(id, parse, routes), post, k, w);
      if parse(w.ctx).Operation? {
        var op := parse(w.ctx).name;
        var i := IndexOf(routes, op);
        DispatchSelects(routes, op, k, w');
        if i < |routes| { RunHead(routes[i].handler, post, k, w'.(ctx := w'.ctx.(operation := op))); }
      }
    }
  }

  /** Routing is substitution: a router anywhere in a pipeline, reached in any context, is
      the pipeline with the routed handler in its place. */
  lemma {:induction false} RouterIsSubstitution(pre: seq<Mw>, id: nat, parse: Ctx -> Parsed, routes: seq<Route>,
                                                post: seq<Mw>, w: World)
    ensures Run(pre + [Router(id, parse, routes)] + post, 0, w) ==
            ChainRun(pre, v => Routed(id, parse, routes, post, v), w)
  {
    var tail := [Router(id, parse, routes)] + post;
    var all := pre + [Router(id, parse, routes)] + post;
    assert all == pre + tail && all[0..] == all && tail[0..] == tail;
    RunIsChain(all, 0, w);
    ChainAppend(pre, tail, STOP, w);
    var k: Cont, k': Cont := v => ChainRun(tail, STOP, v), v => Routed(id, parse, routes, post, v);
    forall v ensures k(v) == k'(v) {
      RunIsChain(tail, 0, v);
      RouterAtHead(id, parse, routes, post, v);
    }
    ChainCong(pre, k, k', w);
  }

  /** The effects a command can have on the context leave the operation alone. */
  ghost predicate Honest(c: Cmd) {
    match c
    case Do(f) => forall x :: f(x).operation == x.operation
    case Seq(a, b) => Honest(a) && Honest(b)
    case If(_, a, b) => Honest(a) && Honest(b)
    case Repeat(_, body) => Honest(body)
    case Recover(body, h) => Honest(body) && forall x :: h(x).operation == x.operation
    case _ => true
  }

  /** Every body is honest and every route anywhere in m has its name in ns. */
  ghost predicate Routes(m: Mw, ns: set<string>) {
    match m
    case Code(_, body) => Honest(body)
    case Chain(ms) => forall i | 0 <= i < |ms| :: Routes(ms[i], ns)
    case Router(_, _, routes) =>
      forall i | 0 <= i < |routes| :: routes[i].name in ns && Routes(routes[i].handler, ns)
  }

  predicate Kept(ns: set<string>, w: World, r: Out) {
    r.world.ctx.operation == w.ctx.operation || r.world.ctx.operation in ns
  }

  ghost predicate AllKeep(ns: set<string>, k: Cont) { forall w :: Kept(ns, w, k(w)) }

  lemma {:induction false} ExecKeeps(ns: set<string>, c: Cmd, k: Cont, w: World)
    requires Honest(c) && AllKeep(ns, k)
    ensures Kept(ns, w, Exec(c, k, w))
    decreases c, 0
  {
    match c
    case Skip =>
    case Do(_) =>
    case Next =>
    case Panic =>
    case Seq(a, b) =>
      ExecKeeps(ns, a, k, w);
      if Exec(a, k, w).Done? { ExecKeeps(ns, b, k, Exec(a, k, w).world); }
    case If(p, a, b) =>
      ExecKeeps(ns, a, k, w);
      ExecKeeps(ns, b, k, w);
    case Repeat(n, body) =>
      LoopKeeps(ns, body, n(w.ctx), k, w);
    case Recover(body, _) =>
      ExecKeeps(ns, body, k, w);
  }

  lemma {:induction false} LoopKeeps(ns: set<string>, body: Cmd, n: nat, k: Cont, w: World)
    requires Honest(body) && AllKeep(ns, k)
    ensures Kept(ns, w, Loop(body, n, k, w))
    decreases body, n + 1
  {
    if n == 0 {
    } else {
      ExecKeeps(ns, body, k, w);
      if Exec(body, k, w).Done? { LoopKeeps(ns, body, n - 1, k, Exec(body, k, w).world); }
    }
  }

  lemma {:induction false} ApplyKeeps(ns: set<string>, m: Mw, k: Cont, w: World)
    requires Routes(m, ns) && AllKeep(ns, k)
    ensures Kept(ns, w, Apply(m, k, w))
    decreases m
  {
    match m
    case Code(id, body) => ExecKeeps(ns, body, k, Entered(id, w));
    case Chain(ms) => ChainKeeps(ns, ms, k, w);
    case Router(id, parse, routes) =>
      var w' := Entered(id, w);
      if parse(w'.ctx).Operation? { DispatchKeeps(ns, routes, parse(w'.ctx).name, k, w'); }
  }

  lemma {:induction false} DispatchKeeps(ns: set<string>, routes: seq<Route>, op: string, k: Cont, w: World)
    requires forall i | 0 <= i < |routes| :: routes[i].name in ns && Routes(routes[i].handler, ns)
    requires AllKeep(ns, k)
    ensures Kept(ns, w, Dispatch(routes, op, k, w))
    decreases routes
  {
    if routes == [] {
    } else {
      if routes[0].name == op {
        ApplyKeeps(ns, routes[0].handler, k, w.(ctx := w.ctx.(operation := op)));
      } else {
        DispatchKeeps(ns, routes[1..], op, k, w);
      }
    }
  }

  lemma {:induction false} ChainKeeps(ns: set<string>, ms: seq<Mw>, k: Cont, w: World)
    requires (forall i | 0 <= i < |ms| :: Routes(ms[i], ns)) && AllKeep(ns, k)
    ensures Kept(ns, w, ChainRun(ms, k, w))
    decreases ms
  {
    if ms != [] && w.ctx.err.None? {
      var n: Cont := v => ChainRun(ms[1..], k, v);
      forall v ensures Kept(ns, v, n(v)) { ChainKeeps(ns, ms[1..], k, v); }
      ApplyKeeps(ns, ms[0], n, w);
    }
  }

  /** The operation a pipeline records is bounded by its routing tables, however deep the
      routers are nested, however often next is called and whatever the request says. */
  lemma {:induction false} OperationBounded(ns: set<string>, ms: seq<Mw>, w: World)
    requires forall i | 0 <= i < |ms| :: Routes(ms[i], ns)
    requires w.ctx.operation == ""
    ensures Run(ms, 0, w).world.ctx.operation in ns + {""}
  {
    ChainKeeps(ns, ms, STOP, w);
    RunIsChain(ms, 0, w);
    assert ms[0..] == ms;
  }
}
