/**
 * The request middleware chain: each middleware receives the request context
 * and a continuation, and the chain is built by wrapping the handler in the
 * middlewares from the last to the first, so the first one is outermost.
 *
 * A middleware's code is modelled by what it does with its continuation, and
 * what the middlewares and the handler do to the shared context is recorded
 * as a trace of events, so ordering and nesting can be stated.
 */
module Middleware {
  import opened Wrappers

  /** The request context every middleware and the handler receive (its id). */
  type Ctx = string

  /** What a middleware does when it is called. */
  datatype Behaviour =
    | Base            // awaits its continuation once and does nothing else
    | Around          // records before, awaits its continuation, records after
    | ShortCircuit    // answers on its own and never calls its continuation
    | Raise(err: string)  // raises before calling its continuation

  datatype Mw = Mw(name: string, behaviour: Behaviour)

  /** The handler at the end of the chain, and the error it raises, if any. */
  datatype Handler = Handler(failure: Option<string>)

  /** Control reaching a middleware (with the context it was given), and the
    * effects middlewares and the handler have on the context. */
  datatype Event =
    | Invoked(name: string, ctx: Ctx)
    | Before(name: string)
    | After(name: string)
    | Responded(name: string)
    | HandlerRan(ctx: Ctx)

  datatype Outcome = Completed | Raised(err: string)

  /** The events a run records, in order, and how it ends. */
  datatype Run = Run(trace: seq<Event>, outcome: Outcome)

  /** The continuation a chain stands for: the handler, or a middleware around
    * the rest of the chain. */
  datatype Chain = Terminal | Wrapped(mw: Mw, next: Chain)

  predicate Passes(b: Behaviour) {
    b.Base? || b.Around?
  }

  // --------------------------------------------------------------- building

  /** The chain for `mws`: the handler wrapped by the last middleware, then by
    * the one before it, up to the first. */
  function Fold(mws: seq<Mw>): (c: Chain)
    ensures mws == [] <==> c == Terminal
    ensures mws != [] ==> c.mw == mws[0]
  {
    if mws == [] then Terminal else Wrapped(mws[0], Fold(mws[1..]))
  }

  /** The loop over the reversed list that wraps the chain built so far. */
  method BuildChain(mws: seq<Mw>) returns (chain: Chain)
    ensures chain == Fold(mws)
  {
    chain := Terminal;
    var i := |mws|;
    while i > 0
      invariant 0 <= i <= |mws|
      invariant chain == Fold(mws[i..])
    {
      i := i - 1;
      assert mws[i..][1..] == mws[i + 1..];
      chain := Wrapped(mws[i], chain);
    }
  }

  // ---------------------------------------------------------------- running

  /** Calling the chain: a middleware is invoked with the context and its
    * continuation; an exception is never caught, so it ends every frame
    * already entered without running the code after their continuations. */
  function RunChain(c: Chain, ctx: Ctx, h: Handler): Run
    decreases c
  {
    match c
    case Terminal =>
      Run([HandlerRan(ctx)], if h.failure.Some? then Raised(h.failure.value) else Completed)
    case Wrapped(m, next) =>
      var enter := [Invoked(m.name, ctx)];
      match m.behaviour
      case Base =>
        var r := RunChain(next, ctx, h);
        Run(enter + r.trace, r.outcome)
      case Around =>
        var r := RunChain(next, ctx, h);
        if r.outcome.Completed? then Run(enter + [Before(m.name)] + r.trace + [After(m.name)], Completed)
        else Run(enter + [Before(m.name)] + r.trace, r.outcome)
      case ShortCircuit => Run(enter + [Responded(m.name)], Completed)
      case Raise(e) => Run(enter, Raised(e))
  }

  /** `run_middleware_chain`: with no middleware the handler is awaited
    * directly; otherwise the chain is built and called. */
  method RunMiddlewareChain(mws: seq<Mw>, ctx: Ctx, h: Handler) returns (r: Run)
    ensures r == RunChain(Fold(mws), ctx, h)
  {
    if mws == [] {
      r := RunChain(Terminal, ctx, h);
      return;
    }
    var chain := BuildChain(mws);
    r := RunChain(chain, ctx, h);
  }

  // ---------------------------------------------------------- observations

  /** The names of the middlewares control reached, in order. */
  function Invocations(trace: seq<Event>): seq<string> {
    if trace == [] then []
    else (if trace[0].Invoked? then [trace[0].name] else []) + Invocations(trace[1..])
  }

  /** How many times the handler ran. */
  function HandlerRuns(trace: seq<Event>): nat {
    if trace == [] then 0
    else (if trace[0].HandlerRan? then 1 else 0) + HandlerRuns(trace[1..])
  }

  function Names(mws: seq<Mw>): (ns: seq<string>)
    ensures |ns| == |mws| && forall i :: 0 <= i < |mws| ==> ns[i] == mws[i].name
  {
    seq(|mws|, i requires 0 <= i < |mws| => mws[i].name)
  }

  lemma {:induction false} InvocationsAppend(a: seq<Event>, b: seq<Event>)
    ensures Invocations(a + b) == Invocations(a) + Invocations(b)
    ensures HandlerRuns(a + b) == HandlerRuns(a) + HandlerRuns(b)
    decreases |a|
  {
    if a == [] {
      assert a + b == b;
    } else {
      assert (a + b)[1..] == a[1..] + b;
      InvocationsAppend(a[1..], b);
    }
  }

  /** What the passing middlewares `ms` record on the way in ... */
  function Enter(ms: seq<Mw>, ctx: Ctx): seq<Event> {
    if ms == [] then []
    else [Invoked(ms[0].name, ctx)] + (if ms[0].behaviour.Around? then [Before(ms[0].name)] else [])
         + Enter(ms[1..], ctx)
  }

  /** ... and on the way out, innermost first. */
  function Exit(ms: seq<Mw>): seq<Event> {
    if ms == [] then []
    else Exit(ms[1..]) + (if ms[0].behaviour.Around? then [After(ms[0].name)] else [])
  }

  /** One passing middleware around a chain: its entry, the chain's run, and
    * its exit only when that run completed. */
  lemma PassStep(m: Mw, rest: seq<Mw>, ctx: Ctx, h: Handler)
    requires Passes(m.behaviour)
    ensures var mid := RunChain(Fold(rest), ctx, h);
      RunChain(Fold([m] + rest), ctx, h) == Run(Enter([m], ctx) + mid.trace
                                                + (if mid.outcome.Completed? then Exit([m]) else []),
                                                mid.outcome)
  {
    assert Fold([m] + rest) == Wrapped(m, Fold(rest)) by {
      assert ([m] + rest)[1..] == rest;
    }
    assert Enter([m], ctx) == [Invoked(m.name, ctx)] + (if m.behaviour.Around? then [Before(m.name)] else []) by {
      assert [m][1..] == [];
    }
    assert Exit([m]) == (if m.behaviour.Around? then [After(m.name)] else []) by {
      assert [m][1..] == [];
    }
    var mid := RunChain(Fold(rest), ctx, h);
    if m.behaviour.Around? {
      assert [Invoked(m.name, ctx)] + [Before(m.name)] + mid.trace == [Invoked(m.name, ctx)] + [Before(m.name)] + mid.trace + [];
    } else {
      assert [Invoked(m.name, ctx)] + mid.trace == [Invoked(m.name, ctx)] + [] + mid.trace + [];
    }
  }

  lemma EnterExitCons(ms: seq<Mw>, ctx: Ctx)
    requires ms != []
    ensures Enter(ms, ctx) == Enter([ms[0]], ctx) + Enter(ms[1..], ctx)
    ensures Exit(ms) == Exit(ms[1..]) + Exit([ms[0]])
  {
    assert [ms[0]][1..] == [];
  }

  /** Behind a prefix of passing middlewares the run is their entries, the run
    * of the rest of the chain, and, only if that completed, their exits in
    * reverse order: the wrapping is truly nested, and a failure propagates out
    * through every frame already entered. */
  lemma {:induction false} Decompose(mws: seq<Mw>, k: nat, ctx: Ctx, h: Handler)
    requires k <= |mws| && forall i :: 0 <= i < k ==> Passes(mws[i].behaviour)
    ensures var inner := RunChain(Fold(mws[k..]), ctx, h);
      RunChain(Fold(mws), ctx, h) == Run(Enter(mws[..k], ctx) + inner.trace
                                         + (if inner.outcome.Completed? then Exit(mws[..k]) else []),
                                         inner.outcome)
    decreases k
  {
    if k == 0 {
      assert mws[..0] == [] && mws[0..] == mws;
    } else {
      var m, rest := mws[0], mws[1..];
      var inner := RunChain(Fold(mws[k..]), ctx, h);
      var mid := RunChain(Fold(rest), ctx, h);
      var whole := RunChain(Fold(mws), ctx, h);
      var e1, e2 := Enter([m], ctx), Enter(rest[..k - 1], ctx);
      var x1, x2 := Exit([m]), Exit(rest[..k - 1]);
      assert mid == Run(e2 + inner.trace + (if inner.outcome.Completed? then x2 else []), inner.outcome) by {
        Decompose(rest, k - 1, ctx, h);
        assert rest[k - 1..] == mws[k..];
      }
      assert whole == Run(e1 + mid.trace + (if mid.outcome.Completed? then x1 else []), mid.outcome) by {
        assert mws == [m] + rest;
        PassStep(m, rest, ctx, h);
      }
      assert Enter(mws[..k], ctx) == e1 + e2 && Exit(mws[..k]) == x2 + x1 by {
        assert rest[..k - 1] == mws[..k][1..];
        EnterExitCons(mws[..k], ctx);
      }
      Combine(whole, mid, inner, e1, e2, x1, x2);
    }
  }

  /** Nesting one entry/exit pair around an already nested run. */
  lemma Combine(whole: Run, mid: Run, inner: Run, e1: seq<Event>, e2: seq<Event>, x1: seq<Event>, x2: seq<Event>)
    requires mid == Run(e2 + inner.trace + (if inner.outcome.Completed? then x2 else []), inner.outcome)
    requires whole == Run(e1 + mid.trace + (if mid.outcome.Completed? then x1 else []), mid.outcome)
    ensures whole == Run((e1 + e2) + inner.trace + (if inner.outcome.Completed? then x2 + x1 else []), inner.outcome)
  {
    if inner.outcome.Completed? {
      assert whole.trace == e1 + (e2 + inner.trace + x2) + x1;
    } else {
      assert whole.trace == e1 + (e2 + inner.trace + []) + [];
    }
  }

  lemma {:induction false} EnterObservations(ms: seq<Mw>, ctx: Ctx)
    ensures Invocations(Enter(ms, ctx)) == Names(ms) && HandlerRuns(Enter(ms, ctx)) == 0
    decreases |ms|
  {
    if ms != [] {
      var head := [Invoked(ms[0].name, ctx)] + (if ms[0].behaviour.Around? then [Before(ms[0].name)] else []);
      EnterObservations(ms[1..], ctx);
      InvocationsAppend(head, Enter(ms[1..], ctx));
      assert Invocations(head) == [ms[0].name] by {
        if ms[0].behaviour.Around? {
          assert head[1..] == [Before(ms[0].name)];
        }
      }
      assert Names(ms) == [ms[0].name] + Names(ms[1..]);
    }
  }

  lemma {:induction false} ExitObservations(ms: seq<Mw>)
    ensures Invocations(Exit(ms)) == [] && HandlerRuns(Exit(ms)) == 0
    decreases |ms|
  {
    if ms != [] {
      ExitObservations(ms[1..]);
      InvocationsAppend(Exit(ms[1..]), if ms[0].behaviour.Around? then [After(ms[0].name)] else []);
    }
  }

  // -------------------------------------------------------------- properties

  /** With no middleware the handler runs exactly once and nothing else runs. */
  lemma EmptyChainRunsHandler(ctx: Ctx, h: Handler)
    ensures RunChain(Fold([]), ctx, h).trace == [HandlerRan(ctx)]
  { }

  /** When every middleware passes control on, they are entered in declared
    * order, the first outermost, and the handler runs exactly once; the run
    * ends as the handler did. */
  lemma PassingChainRunsAll(mws: seq<Mw>, ctx: Ctx, h: Handler)
    requires forall i :: 0 <= i < |mws| ==> Passes(mws[i].behaviour)
    ensures var r := RunChain(Fold(mws), ctx, h);
      Invocations(r.trace) == Names(mws) && HandlerRuns(r.trace) == 1
      && r.outcome == (if h.failure.Some? then Raised(h.failure.value) else Completed)
  {
    Decompose(mws, |mws|, ctx, h);
    assert mws[..|mws|] == mws;
    assert mws[|mws|..] == [];
    EnterObservations(mws, ctx);
    ExitObservations(mws);
    var inner := RunChain(Terminal, ctx, h);
    var tail := if inner.outcome.Completed? then Exit(mws) else [];
    InvocationsAppend(Enter(mws, ctx), inner.trace);
    InvocationsAppend(Enter(mws, ctx) + inner.trace, tail);
  }

  /** A chain of base middlewares only records one invocation per middleware,
    * in order, then the handler: nothing else happens. */
  lemma {:induction false} BaseChainCallsHandlerOnce(mws: seq<Mw>, ctx: Ctx, h: Handler)
    requires forall i :: 0 <= i < |mws| ==> mws[i].behaviour.Base?
    ensures RunChain(Fold(mws), ctx, h).trace
         == seq(|mws|, i requires 0 <= i < |mws| => Invoked(mws[i].name, ctx)) + [HandlerRan(ctx)]
    decreases |mws|
  {
    if mws != [] {
      BaseChainCallsHandlerOnce(mws[1..], ctx, h);
    }
  }

  /** A middleware that never calls its continuation stops the handler and every
    * later middleware: control reaches exactly the middlewares up to it. */
  lemma ShortCircuitStops(mws: seq<Mw>, k: nat, ctx: Ctx, h: Handler)
    requires k < |mws| && mws[k].behaviour.ShortCircuit?
    requires forall i :: 0 <= i < k ==> Passes(mws[i].behaviour)
    ensures var r := RunChain(Fold(mws), ctx, h);
      Invocations(r.trace) == Names(mws[..k + 1]) && HandlerRuns(r.trace) == 0 && r.outcome == Completed
  {
    var m := mws[k];
    var e, x := Enter(mws[..k], ctx), Exit(mws[..k]);
    var t := [Invoked(m.name, ctx), Responded(m.name)];
    assert RunChain(Fold(mws), ctx, h) == Run(e + t + x, Completed) by {
      Decompose(mws, k, ctx, h);
      assert mws[k..][0] == m;
      assert RunChain(Fold(mws[k..]), ctx, h) == Run([Invoked(m.name, ctx)] + [Responded(m.name)], Completed);
      assert [Invoked(m.name, ctx)] + [Responded(m.name)] == t;
    }
    assert Invocations(t) == [m.name] && HandlerRuns(t) == 0 by {
      assert t[1..] == [Responded(m.name)];
      assert t[1..][1..] == [];
      assert Invocations(t[1..]) == [] && HandlerRuns(t[1..]) == 0;
    }
    EnterObservations(mws[..k], ctx);
    ExitObservations(mws[..k]);
    InvocationsAppend(e, t);
    InvocationsAppend(e + t, x);
    assert Names(mws[..k + 1]) == Names(mws[..k]) + [m.name];
  }

  /** A middleware that raises before calling its continuation ends the whole
    * run with its error: the handler does not run and no middleware entered
    * before it runs its after-code. */
  lemma RaisePropagates(mws: seq<Mw>, k: nat, ctx: Ctx, h: Handler)
    requires k < |mws| && mws[k].behaviour.Raise?
    requires forall i :: 0 <= i < k ==> Passes(mws[i].behaviour)
    ensures var r := RunChain(Fold(mws), ctx, h);
      r.outcome == Raised(mws[k].behaviour.err)
      && r.trace == Enter(mws[..k], ctx) + [Invoked(mws[k].name, ctx)]
  {
    Decompose(mws, k, ctx, h);
    assert mws[k..][0] == mws[k];
  }

  /** A failing handler's error reaches the caller through every middleware and
    * no after-code runs. */
  lemma HandlerFailurePropagates(mws: seq<Mw>, ctx: Ctx, h: Handler)
    requires h.failure.Some?
    requires forall i :: 0 <= i < |mws| ==> Passes(mws[i].behaviour)
    ensures var r := RunChain(Fold(mws), ctx, h);
      r.outcome == Raised(h.failure.value) && r.trace == Enter(mws, ctx) + [HandlerRan(ctx)]
  {
    Decompose(mws, |mws|, ctx, h);
    assert mws[..|mws|] == mws;
    assert mws[|mws|..] == [];
  }

  /** The code an `Around` middleware runs after its continuation returns comes
    * after everything the inner middlewares and the handler did: between its
    * before and after events lies exactly the run of the rest of the chain. */
  lemma AfterCodeSeesInner(mws: seq<Mw>, k: nat, ctx: Ctx, h: Handler)
    requires k < |mws| && mws[k].behaviour.Around?
    requires forall i :: 0 <= i < k ==> Passes(mws[i].behaviour)
    requires RunChain(Fold(mws[k + 1..]), ctx, h).outcome.Completed?
    ensures var r := RunChain(Fold(mws), ctx, h);
      var inner := RunChain(Fold(mws[k + 1..]), ctx, h).trace;
      var b := |Enter(mws[..k], ctx)| + 1;
      b + 1 + |inner| < |r.trace|
      && r.trace[b] == Before(mws[k].name)
      && r.trace[b + 1..b + 1 + |inner|] == inner
      && r.trace[b + 1 + |inner|] == After(mws[k].name)
  {
    var m := mws[k];
    var inner := RunChain(Fold(mws[k + 1..]), ctx, h);
    var e := Enter(mws[..k], ctx);
    var x := Exit(mws[..k]);
    var t := RunChain(Fold(mws), ctx, h).trace;
    AroundTrace(mws, k, ctx, h);
    AroundIndices(t, e, m.name, ctx, inner.trace, x);
  }

  /** The trace of a chain whose `k`th middleware is an `Around` whose
    * continuation completes, after passing ones. */
  lemma AroundTrace(mws: seq<Mw>, k: nat, ctx: Ctx, h: Handler)
    requires k < |mws| && mws[k].behaviour.Around?
    requires forall i :: 0 <= i < k ==> Passes(mws[i].behaviour)
    requires RunChain(Fold(mws[k + 1..]), ctx, h).outcome.Completed?
    ensures RunChain(Fold(mws), ctx, h).trace
         == Enter(mws[..k], ctx)
            + ([Invoked(mws[k].name, ctx), Before(mws[k].name)] + RunChain(Fold(mws[k + 1..]), ctx, h).trace
               + [After(mws[k].name)])
            + Exit(mws[..k])
  {
    Decompose(mws, k, ctx, h);
    assert mws[k..] == [mws[k]] + mws[k + 1..];
    AroundRun(mws[k], mws[k + 1..], ctx, h);
  }

  /** An `Around` middleware whose continuation completes: its entry, its
    * before event, the inner run, its after event. */
  lemma AroundRun(m: Mw, rest: seq<Mw>, ctx: Ctx, h: Handler)
    requires m.behaviour.Around?
    requires RunChain(Fold(rest), ctx, h).outcome.Completed?
    ensures RunChain(Fold([m] + rest), ctx, h)
         == Run([Invoked(m.name, ctx), Before(m.name)] + RunChain(Fold(rest), ctx, h).trace + [After(m.name)],
                RunChain(Fold(rest), ctx, h).outcome)
  {
    assert ([m] + rest)[1..] == rest;
    assert Fold([m] + rest) == Wrapped(m, Fold(rest));
    assert [Invoked(m.name, ctx)] + [Before(m.name)] == [Invoked(m.name, ctx), Before(m.name)];
  }

  lemma AroundIndices(t: seq<Event>, e: seq<Event>, name: string, ctx: Ctx, inner: seq<Event>, x: seq<Event>)
    requires t == e + ([Invoked(name, ctx), Before(name)] + inner + [After(name)]) + x
    ensures |e| + 2 + |inner| < |t|
    ensures t[|e| + 1] == Before(name)
    ensures t[|e| + 2..|e| + 2 + |inner|] == inner
    ensures t[|e| + 2 + |inner|] == After(name)
  {
    var b := |e| + 1;
    assert t[b + 1..b + 1 + |inner|] == inner by {
      forall j | 0 <= j < |inner|
        ensures t[b + 1 + j] == inner[j]
      { }
    }
  }

  /** Every middleware control reaches is handed the same context. */
  lemma {:induction false} SameContext(c: Chain, ctx: Ctx, h: Handler)
    ensures forall i :: 0 <= i < |RunChain(c, ctx, h).trace| && RunChain(c, ctx, h).trace[i].Invoked? ==>
      RunChain(c, ctx, h).trace[i].ctx == ctx
    decreases c
  {
    if c.Wrapped? {
      SameContext(c.next, ctx, h);
    }
  }
}
