/** A model of `registerLifeCycleHooks`: a watch over a target element reference
    that, on every change (and once right away), applies the `initial` state
    synchronously and schedules the `enter` state after the next render flush,
    provided the variants define `enter` or `leave`. Unmounting the owning
    component stops the watch. */
module LifeCycleHooks {

  /** The state names the binding may pass to `set`. */
  datatype Name = Initial | Enter | Leave

  /** The variants value as the watch callback sees it: `null`/`undefined`, or an
      object of which only the truthiness of `initial`, `enter` and `leave` matters. */
  datatype Variants = Null | Defined(hasInitial: bool, hasEnter: bool, hasLeave: bool)

  /** The value held by the target reference: a nullable element handle that the
      model never looks into. */
  datatype Target<H> = NullTarget | UndefinedTarget | Element(handle: H)

  /** The `set` calls one evaluation makes: `now` during the evaluation itself,
      `later` queued on the next-tick queue. */
  datatype Calls = Calls(now: seq<Name>, later: seq<Name>)

  /** The guard of the watch callback: the variants are present and define
      `enter` or `leave`. */
  predicate Binds(v: Variants)
  {
    v.Defined? && (v.hasEnter || v.hasLeave)
  }

  /** What one run of the watch callback does, as a function of the variants it
      reads at that moment. */
  function Decide(v: Variants): (c: Calls)
    ensures !Binds(v) ==> c.now == [] && c.later == []
    ensures Initial in c.now <==> Binds(v) && v.hasInitial
    ensures Enter in c.later <==> Binds(v) && v.hasEnter
    ensures Enter !in c.now && Initial !in c.later
    ensures Leave !in c.now && Leave !in c.later
    ensures |c.now| <= 1 && |c.later| <= 1
  {
    if Binds(v) then
      Calls(if v.hasInitial then [Initial] else [], if v.hasEnter then [Enter] else [])
    else
      Calls([], [])
  }

  /** Number of occurrences of `n` in `s`. */
  function Count(n: Name, s: seq<Name>): (k: nat)
    ensures k <= |s|
    ensures k == 0 <==> n !in s
  {
    if s == [] then 0 else (if s[0] == n then 1 else 0) + Count(n, s[1..])
  }

  lemma {:induction false} CountAppend(n: Name, a: seq<Name>, b: seq<Name>)
    ensures Count(n, a + b) == Count(n, a) + Count(n, b)
  {
    if a == [] {
      assert a + b == b;
    } else {
      assert (a + b)[1..] == a[1..] + b;
      CountAppend(n, a[1..], b);
    }
  }

  // ---------------------------------------------------------------------------
  // The binding as a state machine over values
  // ---------------------------------------------------------------------------

  /** Everything the binding's behaviour depends on: whether the watch is live,
      the current target and variants, the queued `enter` callbacks and the
      `set` calls made so far, in order. */
  datatype BinderState<H> = BinderState(
    active: bool,
    target: Target<H>,
    variants: Variants,
    pending: seq<Name>,
    log: seq<Name>)

  /** What can happen to a registered binding. */
  datatype Event<H> =
    | TargetSet(t: Target<H>)     // the target reference is assigned
    | VariantsSet(v: Variants)    // the variants reference is assigned
    | Tick                        // the next-tick queue is drained after a render flush
    | Unmount                     // the owning component is destroyed

  /** One run of the watch callback on state `s`. */
  function Evaluated<H>(s: BinderState<H>): BinderState<H>
  {
    var c := Decide(s.variants);
    s.(log := s.log + c.now, pending := s.pending + c.later)
  }

  /** The state right after registration: a live watch, already evaluated once
      (`immediate: true`) with whatever the target holds. */
  function Registered<H>(t: Target<H>, v: Variants): BinderState<H>
  {
    Evaluated(BinderState(true, t, v, [], []))
  }

  /** The effect of one event. Only a target assignment that changes the value
      runs the callback, and only while the watch is live; draining the queue
      runs every queued `set('enter')` in order, whether or not the watch was
      stopped in the meantime. */
  function Step<H(==)>(s: BinderState<H>, e: Event<H>): BinderState<H>
  {
    match e
    case TargetSet(t) =>
      if t == s.target then s
      else if s.active then Evaluated(s.(target := t))
      else s.(target := t)
    case VariantsSet(v) => s.(variants := v)
    case Tick => s.(log := s.log + s.pending, pending := [])
    case Unmount => s.(active := false)
  }

  function Run<H(==)>(s: BinderState<H>, es: seq<Event<H>>): BinderState<H>
    decreases |es|
  {
    if es == [] then s else Run(Step(s, es[0]), es[1..])
  }

  // ---------------------------------------------------------------------------
  // Properties of the state machine
  // ---------------------------------------------------------------------------

  /** Registration evaluates once, straight away, whatever the target holds
      (null included): `set('initial')` is already in the log and `enter` is
      queued, and neither depends on the target. */
  lemma RegisterEvaluatesOnce<H>(t: Target<H>, u: Target<H>, v: Variants)
    ensures Registered(t, v).active && Registered(t, v).target == t && Registered(t, v).variants == v
    ensures Registered(t, v).log == Decide(v).now && Registered(t, v).pending == Decide(v).later
    ensures Registered(t, v).log == Registered(u, v).log
    ensures Registered(t, v).pending == Registered(u, v).pending
  {
  }

  /** With the target still null and variants defining `initial` and `enter`,
      registration calls `set('initial')` at once and `set('enter')` after the
      next flush: the target's nullness is never checked. */
  lemma NullTargetStillSets<H>(v: Variants)
    requires v.Defined? && v.hasInitial && v.hasEnter
    ensures Registered<H>(NullTarget, v).log == [Initial]
    ensures Run(Registered<H>(NullTarget, v), [Tick]).log == [Initial, Enter]
  {
  }

  /** One evaluation triggered by a target change: `initial` is logged during the
      evaluation, `enter` only after the following flush, and after any `enter`
      queued by earlier evaluations. */
  lemma OneEvaluationOrder<H>(s: BinderState<H>, t: Target<H>)
    requires s.active && t != s.target
    requires s.variants.Defined? && s.variants.hasInitial && s.variants.hasEnter
    ensures Step(s, TargetSet(t)).log == s.log + [Initial]
    ensures Step(s, TargetSet(t)).pending == s.pending + [Enter]
    ensures Run(s, [TargetSet(t), Tick]).log == s.log + [Initial] + s.pending + [Enter]
    ensures Run(s, [TargetSet(t), Tick]).pending == []
  {
    var s1 := Step(s, TargetSet(t));
    assert Run(s, [TargetSet(t), Tick]) == Run(s1, [Tick]);
    assert Run(s1, [Tick]) == Run(Step(s1, Tick), []);
  }

  /** The target's value is never consulted: any two assignments that change it
      lead to the same calls. */
  lemma TargetValueIgnored<H>(s: BinderState<H>, t: Target<H>, u: Target<H>)
    requires t != s.target && u != s.target
    ensures Step(s, TargetSet(t)).log == Step(s, TargetSet(u)).log
    ensures Step(s, TargetSet(t)).pending == Step(s, TargetSet(u)).pending
  {
  }

  /** Assigning the variants alone calls nothing and queues nothing; the next
      evaluation reads the new value. */
  lemma VariantsChangeAloneIsSilent<H>(s: BinderState<H>, v: Variants, t: Target<H>)
    requires s.active && t != s.target
    ensures Step(s, VariantsSet(v)).log == s.log
    ensures Step(s, VariantsSet(v)).pending == s.pending
    ensures Run(s, [VariantsSet(v), TargetSet(t)]).log == s.log + Decide(v).now
    ensures Run(s, [VariantsSet(v), TargetSet(t)]).pending == s.pending + Decide(v).later
  {
    var s1 := Step(s, VariantsSet(v));
    assert Run(s, [VariantsSet(v), TargetSet(t)]) == Run(s1, [TargetSet(t)]);
    assert Run(s1, [TargetSet(t)]) == Run(Step(s1, TargetSet(t)), []);
  }

  /** Unmounting stops the watch, and doing it twice is the same as once. */
  lemma UnmountTwiceIsOnce<H>(s: BinderState<H>)
    ensures !Step(s, Unmount).active
    ensures Step(s, Unmount).log == s.log && Step(s, Unmount).pending == s.pending
    ensures Step(Step(s, Unmount), Unmount) == Step(s, Unmount)
  {
  }

  /** No call made or queued ever names `leave`. */
  ghost predicate LeaveFree<H>(s: BinderState<H>)
  {
    Leave !in s.log && Leave !in s.pending
  }

  lemma {:induction false} LeaveNeverSet<H>(s: BinderState<H>, es: seq<Event<H>>)
    requires LeaveFree(s)
    ensures LeaveFree(Run(s, es))
    decreases |es|
  {
    if es != [] {
      var s1 := Step(s, es[0]);
      assert LeaveFree(s1);
      LeaveNeverSet(s1, es[1..]);
    }
  }

  /** `s'` issued and queued no `set` call beyond those `s` had already issued or
      queued: at most the queued ones have moved from the queue to the log. */
  ghost predicate NoNewCalls<H>(s: BinderState<H>, s': BinderState<H>)
  {
    s'.log + s'.pending == s.log + s.pending
  }

  /** After unmount no event leads to an evaluation: the log only ever gains the
      `enter` calls that were already queued, which are not cancelled. */
  lemma {:induction false} UnmountedIsQuiet<H>(s: BinderState<H>, es: seq<Event<H>>)
    requires !s.active
    ensures !Run(s, es).active
    ensures NoNewCalls(s, Run(s, es))
    decreases |es|
  {
    if es != [] {
      var s1 := Step(s, es[0]);
      assert NoNewCalls(s, s1) by {
        if es[0].Tick? { assert s1.log + s1.pending == s.log + s.pending + []; }
      }
      UnmountedIsQuiet(s1, es[1..]);
    }
  }

  /** Variants under which an evaluation calls nothing: they fail the guard, or
      they pass it (through `leave`) but define neither `initial` nor `enter`. */
  predicate Inert(v: Variants)
  {
    !Binds(v) || (!v.hasInitial && !v.hasEnter)
  }

  /** Every variants value the trace assigns is inert. */
  ghost predicate OnlyInert<H>(es: seq<Event<H>>)
  {
    forall i :: 0 <= i < |es| && es[i].VariantsSet? ==> Inert(es[i].v)
  }

  /** While the variants are null, define neither `enter` nor `leave`, or define
      only `leave` of the three, no evaluation calls or queues anything,
      whatever happens to the target. */
  lemma {:induction false} SilentWithoutBinding<H>(s: BinderState<H>, es: seq<Event<H>>)
    requires Inert(s.variants) && OnlyInert(es)
    ensures NoNewCalls(s, Run(s, es))
    decreases |es|
  {
    if es != [] {
      var s1 := Step(s, es[0]);
      assert NoNewCalls(s, s1) by {
        if es[0].Tick? { assert s1.log + s1.pending == s.log + s.pending + []; }
      }
      assert Inert(s1.variants) by { assert es[0].VariantsSet? ==> Inert(es[0].v); }
      assert OnlyInert(es[1..]) by {
        forall i | 0 <= i < |es[1..]| && es[1..][i].VariantsSet? ensures Inert(es[1..][i].v) {
          assert es[1..][i] == es[i + 1];
        }
      }
      SilentWithoutBinding(s1, es[1..]);
    }
  }

  /** Registration with inert variants (for example `leave` only) never calls `set`. */
  lemma {:induction false} NeverSetWithoutBinding<H>(t: Target<H>, v: Variants, es: seq<Event<H>>)
    requires Inert(v) && OnlyInert(es)
    ensures Run(Registered(t, v), es).log == [] && Run(Registered(t, v), es).pending == []
  {
    SilentWithoutBinding(Registered(t, v), es);
  }

  /** Variants whose `enter` comes with an `initial`. */
  predicate EnterHasInitial(v: Variants)
  {
    v.Defined? && v.hasEnter ==> v.hasInitial
  }

  ghost predicate OnlyEnterHasInitial<H>(es: seq<Event<H>>)
  {
    forall i :: 0 <= i < |es| && es[i].VariantsSet? ==> EnterHasInitial(es[i].v)
  }

  /** In `log`, the n-th `enter` comes after the n-th `initial`. */
  ghost predicate InitialsLead(log: seq<Name>)
  {
    forall k :: 0 <= k <= |log| ==> Count(Enter, log[..k]) <= Count(Initial, log[..k])
  }

  /** The invariant behind the ordering: every queued `enter` is matched by an
      `initial` already logged and not yet matched. */
  ghost predicate OrderInv<H>(s: BinderState<H>)
  {
    EnterHasInitial(s.variants)
    && Count(Enter, s.log) + |s.pending| <= Count(Initial, s.log)
    && InitialsLead(s.log)
  }

  /** Appending `tail` keeps `InitialsLead` when `tail`'s own prefixes never
      bring the `enter` count above the `initial` count. */
  lemma AppendKeepsLead(log: seq<Name>, tail: seq<Name>)
    requires InitialsLead(log)
    requires forall j :: 0 <= j <= |tail| ==>
      Count(Enter, log + tail[..j]) <= Count(Initial, log + tail[..j])
    ensures InitialsLead(log + tail)
  {
    var full := log + tail;
    forall k | 0 <= k <= |full|
      ensures Count(Enter, full[..k]) <= Count(Initial, full[..k])
    {
      if k <= |log| {
        assert full[..k] == log[..k];
      } else {
        assert full[..k] == log + tail[..k - |log|];
      }
    }
  }

  lemma StepKeepsOrderInv<H>(s: BinderState<H>, e: Event<H>)
    requires OrderInv(s)
    requires e.VariantsSet? ==> EnterHasInitial(e.v)
    ensures OrderInv(Step(s, e))
  {
    match e
    case TargetSet(t) =>
      if t != s.target && s.active {
        var c := Decide(s.variants);
        CountAppend(Enter, s.log, c.now);
        CountAppend(Initial, s.log, c.now);
        forall j | 0 <= j <= |c.now|
          ensures Count(Enter, s.log + c.now[..j]) <= Count(Initial, s.log + c.now[..j])
        {
          CountAppend(Enter, s.log, c.now[..j]);
          CountAppend(Initial, s.log, c.now[..j]);
        }
        AppendKeepsLead(s.log, c.now);
      }
    case VariantsSet(v) =>
    case Tick =>
      CountAppend(Enter, s.log, s.pending);
      CountAppend(Initial, s.log, s.pending);
      forall j | 0 <= j <= |s.pending|
        ensures Count(Enter, s.log + s.pending[..j]) <= Count(Initial, s.log + s.pending[..j])
      {
        CountAppend(Enter, s.log, s.pending[..j]);
        CountAppend(Initial, s.log, s.pending[..j]);
      }
      AppendKeepsLead(s.log, s.pending);
    case Unmount =>
  }

  /** Whenever every variants value in play pairs `enter` with `initial`, the
      calls stay ordered `initial` before `enter` over any sequence of events,
      across evaluations and flushes. */
  lemma {:induction false} InitialPrecedesEnter<H>(s: BinderState<H>, es: seq<Event<H>>)
    requires OrderInv(s) && OnlyEnterHasInitial(es)
    ensures OrderInv(Run(s, es))
    ensures InitialsLead(Run(s, es).log)
    decreases |es|
  {
    if es != [] {
      StepKeepsOrderInv(s, es[0]);
      assert OnlyEnterHasInitial(es[1..]) by {
        forall i | 0 <= i < |es[1..]| && es[1..][i].VariantsSet?
          ensures EnterHasInitial(es[1..][i].v)
        {
          assert es[1..][i] == es[i + 1];
        }
      }
      InitialPrecedesEnter(Step(s, es[0]), es[1..]);
    }
  }

  /** Registration itself starts in the ordering invariant. */
  lemma RegisteredIsOrdered<H>(t: Target<H>, v: Variants)
    requires EnterHasInitial(v)
    ensures OrderInv(Registered(t, v))
  {
  }

  /** Each of the target values differs from the one before it (the first from
      the current target): every assignment is a change. */
  ghost predicate ChangesEachTime<H>(current: Target<H>, ts: seq<Target<H>>)
  {
    (|ts| > 0 ==> ts[0] != current)
    && forall i :: 0 < i < |ts| ==> ts[i] != ts[i - 1]
  }

  function TargetSets<H>(ts: seq<Target<H>>): (es: seq<Event<H>>)
    ensures |es| == |ts| && forall i :: 0 <= i < |ts| ==> es[i] == TargetSet(ts[i])
  {
    if ts == [] then [] else [TargetSet(ts[0])] + TargetSets(ts[1..])
  }

  /** While the watch is live there is no deduplication: n changes of the target
      make n evaluations, each calling `set('initial')` and queueing
      `set('enter')` again. */
  lemma {:induction false} EachChangeReevaluates<H>(s: BinderState<H>, ts: seq<Target<H>>)
    requires s.active && ChangesEachTime(s.target, ts)
    requires s.variants.Defined? && s.variants.hasInitial && s.variants.hasEnter
    ensures Count(Initial, Run(s, TargetSets(ts)).log) == Count(Initial, s.log) + |ts|
    ensures Run(s, TargetSets(ts)).pending == s.pending + seq(|ts|, _ => Enter)
    decreases |ts|
  {
    if ts != [] {
      var s1 := Step(s, TargetSet(ts[0]));
      CountAppend(Initial, s.log, [Initial]);
      assert TargetSets(ts)[1..] == TargetSets(ts[1..]);
      assert ChangesEachTime(s1.target, ts[1..]);
      EachChangeReevaluates(s1, ts[1..]);
      assert s.pending + [Enter] + seq(|ts| - 1, _ => Enter) == s.pending + seq(|ts|, _ => Enter);
    }
  }

  // ---------------------------------------------------------------------------
  // The binding as an object
  // ---------------------------------------------------------------------------

  /** One registration. `pending` stands for the `enter` callbacks sitting on the
      next-tick queue and `log` for the `set` calls made so far. */
  class Binder<H(==)> {
    var active: bool
    var target: Target<H>
    var variants: Variants
    var pending: seq<Name>
    var log: seq<Name>

    function State(): BinderState<H>
      reads this
    {
      BinderState(active, target, variants, pending, log)
    }

    /** Register the binding: start the watch and run it once right away. */
    constructor Register(target0: Target<H>, variants0: Variants)
      ensures State() == Registered(target0, variants0)
    {
      active := true;
      target := target0;
      variants := variants0;
      pending := [];
      log := [];
      new;
      Evaluate();
    }

    /** The watch callback: guard, then `set('initial')` now and `set('enter')`
        on the next tick. */
    method Evaluate()
      modifies this
      ensures State() == Evaluated(old(State()))
    {
      if variants.Defined? && (variants.hasEnter || variants.hasLeave) {
        if variants.hasInitial {
          log := log + [Initial];
        }
        if variants.hasEnter {
          pending := pending + [Enter];
        }
      }
    }

    /** Assign the target reference; a changed value re-runs the live watch. */
    method SetTarget(t: Target<H>)
      modifies this
      ensures State() == Step(old(State()), TargetSet(t))
    {
      if t != target {
        target := t;
        if active {
          Evaluate();
        }
      }
    }

    /** Assign the variants reference; the watch does not observe it. */
    method SetVariants(v: Variants)
      modifies this
      ensures State() == Step(old(State()), VariantsSet(v))
    {
      variants := v;
    }

    /** Drain the next-tick queue after a render flush: each queued callback
        calls `set`, in the order they were queued. */
    method Flush()
      modifies this
      ensures State() == Step(old(State()), Tick)
    {
      var i := 0;
      while i < |pending|
        invariant 0 <= i <= |pending|
        invariant pending == old(pending)
        invariant log == old(log) + pending[..i]
        invariant active == old(active) && target == old(target) && variants == old(variants)
      {
        log := log + [pending[i]];
        i := i + 1;
      }
      assert pending[..i] == pending;
      pending := [];
    }

    /** The unmount hook: stop the watch. Queued callbacks stay queued. */
    method Unmount()
      modifies this
      ensures State() == Step(old(State()), Event.Unmount)
    {
      active := false;
    }
  }

  /** A client run: a null target, variants with
      `initial` and `enter`, then a flush, an unmount and a later target change. */
  method NullTargetScenario<H(==)>(e: H)
  {
    var b := new Binder<H>.Register(NullTarget, Defined(true, true, false));
    assert b.log == [Initial] && b.pending == [Enter];
    b.Flush();
    assert b.log == [Initial, Enter];
    b.Unmount();
    b.SetTarget(Element(e));
    assert b.log == [Initial, Enter] && b.pending == [];
  }
}
