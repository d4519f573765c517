/** Automatic degradation of public serving: sustained overload lowers the limits, sustained calm
    restores them. Times are positive; 0 stands for "not set". */
module Autodegrade {
  import opened Text

  datatype Config = Config(enabled: bool, overloadWindow: int, recoveryWindow: int, lagThreshold: int,
                           pendingThreshold: int, ramThresholdMB: int,
                           factorPct: int, degradedConcurrent: int, degradedPerPeer: int)

  datatype Limits = Limits(softKBps: int, hardKBps: int, concurrent: int, perPeer: int)

  /** What is measured at a tick. */
  datatype Load = Load(servingAllowed: bool, ramMB: int, pendingCount: int, lag: int)

  datatype Reason = Ram(mb: int) | Backlog(count: int) | Lag(duration: int) | SoftCap

  datatype State = State(overloadSince: int, stableSince: int, softCapExceeded: bool, degraded: bool,
                         lastReason: Option<Reason>, appliedAt: int, base: Limits, live: Limits)

  // ---------------------------------------------------------------- limits

  function PositiveOrZero(v: int): int
  {
    if v < 0 then 0 else v
  }

  /** Go's integer division by 100. */
  function Percent(v: int): int
  {
    if v >= 0 then v / 100 else -((-v) / 100)
  }

  /** What the limiters hold after being set to `base`: a bandwidth limit below zero is no limit. */
  function InForce(base: Limits): Limits
  {
    Limits(PositiveOrZero(base.softKBps), PositiveOrZero(base.hardKBps), base.concurrent, base.perPeer)
  }

  function DegradedLimits(cfg: Config, base: Limits): Limits
  {
    var soft := Percent(base.softKBps * cfg.factorPct);
    var hard := Percent(base.hardKBps * cfg.factorPct);
    var soft' := if soft <= 0 then 1 else soft;
    Limits(soft', if hard < soft' then soft' else hard, cfg.degradedConcurrent, cfg.degradedPerPeer)
  }

  lemma PercentBounds(v: int, pct: int)
    requires 0 <= v && 0 <= pct <= 100
    ensures 0 <= Percent(v * pct) <= v
  {
    assert 0 <= v * pct;
    assert v * (100 - pct) >= 0;
  }

  /** Degraded bandwidth limits are real limits, in order, and never above limits that were set. */
  lemma DegradedLimitsAreLower(cfg: Config, base: Limits)
    requires 0 <= cfg.factorPct <= 100
    ensures var d := DegradedLimits(cfg, base);
            && 1 <= d.softKBps <= d.hardKBps
            && (1 <= base.softKBps ==> d.softKBps <= base.softKBps)
            && (1 <= base.softKBps <= base.hardKBps ==> d.hardKBps <= base.hardKBps)
  {
    if base.softKBps >= 0 {
      PercentBounds(base.softKBps, cfg.factorPct);
    }
    if base.hardKBps >= 0 {
      PercentBounds(base.hardKBps, cfg.factorPct);
    }
  }

  // ---------------------------------------------------------------- steps

  function Overload(cfg: Config, s: State, load: Load): Option<Reason>
  {
    if !load.servingAllowed then None
    else if cfg.ramThresholdMB > 0 && load.ramMB >= cfg.ramThresholdMB then Some(Ram(load.ramMB))
    else if cfg.pendingThreshold > 0 && load.pendingCount >= cfg.pendingThreshold then Some(Backlog(load.pendingCount))
    else if load.lag >= cfg.lagThreshold then Some(Lag(load.lag))
    else if s.softCapExceeded then Some(SoftCap)
    else None
  }

  datatype Step =
    | Tick(now: int, load: Load)
    | Configure(limits: Limits)
    | SoftCapHit

  function Apply(cfg: Config, s: State, now: int): State
  {
    s.(degraded := true, appliedAt := now, live := DegradedLimits(cfg, s.base))
  }

  function Restore(s: State): State
  {
    s.(degraded := false, appliedAt := 0, lastReason := None, live := InForce(s.base))
  }

  function Busy(cfg: Config, s: State, now: int, reason: Reason): State
  {
    var t := s.(overloadSince := if s.overloadSince == 0 then now else s.overloadSince, stableSince := 0,
                lastReason := Some(reason), softCapExceeded := false);
    if !t.degraded && now - t.overloadSince >= cfg.overloadWindow then Apply(cfg, t, now) else t
  }

  function Calm(cfg: Config, s: State, now: int): State
  {
    var t := s.(overloadSince := 0, stableSince := if s.stableSince == 0 then now else s.stableSince,
                softCapExceeded := false);
    if t.degraded && now - t.stableSince >= cfg.recoveryWindow then Restore(t) else t
  }

  function Configured(s: State, limits: Limits): State
  {
    var base := limits.(concurrent := PositiveOrZero(limits.concurrent), perPeer := PositiveOrZero(limits.perPeer));
    s.(base := base, live := InForce(base))
  }

  function Next(cfg: Config, s: State, step: Step): State
  {
    match step
    case Tick(now, load) =>
      if !cfg.enabled then s
      else
        var reason := Overload(cfg, s, load);
        if reason.Some? then Busy(cfg, s, now, reason.value) else Calm(cfg, s, now)
    case Configure(limits) => Configured(s, limits)
    case SoftCapHit => s.(softCapExceeded := true)
  }

  function Run(cfg: Config, s: State, steps: seq<Step>): State
  {
    if steps == [] then s else Next(cfg, Run(cfg, s, steps[..|steps| - 1]), steps[|steps| - 1])
  }

  /** A fresh service, configured with `limits`. */
  function Start(limits: Limits): State
  {
    Configured(State(0, 0, false, false, None, 0, limits, limits), limits)
  }

  // ---------------------------------------------------------------- stretches

  ghost predicate Clock(steps: seq<Step>)
  {
    && (forall k :: 0 <= k < |steps| && steps[k].Tick? ==> steps[k].now > 0)
    && (forall j, k :: 0 <= j < k < |steps| && steps[j].Tick? && steps[k].Tick? ==> steps[j].now <= steps[k].now)
  }

  ghost predicate OverloadedAt(cfg: Config, s: State, steps: seq<Step>, k: int)
    requires 0 <= k < |steps| && steps[k].Tick?
  {
    Overload(cfg, Run(cfg, s, steps[..k]), steps[k].load).Some?
  }

  /** From tick `j` to the end every tick was overloaded, or every tick was calm. */
  ghost predicate Stretch(cfg: Config, s: State, steps: seq<Step>, j: int, overloaded: bool)
  {
    && 0 <= j < |steps| && steps[j].Tick?
    && forall k :: j <= k < |steps| && steps[k].Tick? ==> OverloadedAt(cfg, s, steps, k) == overloaded
  }

  /** `since` is the time of the tick that opened the current stretch of one kind. */
  ghost predicate Since(cfg: Config, s: State, steps: seq<Step>, since: int, overloaded: bool)
  {
    exists j :: Stretch(cfg, s, steps, j, overloaded) && steps[j].now == since
  }

  lemma StretchExtends(cfg: Config, s: State, steps: seq<Step>, last: Step, j: int, overloaded: bool)
    requires Stretch(cfg, s, steps, j, overloaded)
    requires last.Tick? ==> (Overload(cfg, Run(cfg, s, steps), last.load).Some? == overloaded)
    ensures Stretch(cfg, s, steps + [last], j, overloaded)
  {
    var all := steps + [last];
    assert all[..|steps|] == steps;
    forall k | j <= k < |all| && all[k].Tick?
      ensures OverloadedAt(cfg, s, all, k) == overloaded
    {
      if k < |steps| {
        assert all[..k] == steps[..k];
        assert OverloadedAt(cfg, s, steps, k) == overloaded;
      }
    }
  }

  lemma SinceExtends(cfg: Config, s: State, steps: seq<Step>, last: Step, since: int, overloaded: bool)
    requires Since(cfg, s, steps, since, overloaded)
    requires last.Tick? ==> (Overload(cfg, Run(cfg, s, steps), last.load).Some? == overloaded)
    ensures Since(cfg, s, steps + [last], since, overloaded)
  {
    var j :| Stretch(cfg, s, steps, j, overloaded) && steps[j].now == since;
    StretchExtends(cfg, s, steps, last, j, overloaded);
    assert (steps + [last])[j].now == since;
  }

  lemma SinceStarts(cfg: Config, s: State, steps: seq<Step>, last: Step, overloaded: bool)
    requires last.Tick? && (Overload(cfg, Run(cfg, s, steps), last.load).Some? == overloaded)
    ensures Since(cfg, s, steps + [last], last.now, overloaded)
  {
    var all := steps + [last];
    assert all[..|steps|] == steps;
    assert Stretch(cfg, s, all, |steps|, overloaded);
  }

  // ---------------------------------------------------------------- every run

  ghost predicate Inv(cfg: Config, s: State, steps: seq<Step>, t: State)
  {
    && (t.overloadSince != 0 ==> Since(cfg, s, steps, t.overloadSince, true))
    && (t.stableSince != 0 ==> Since(cfg, s, steps, t.stableSince, false))
    && (!t.degraded ==> t.live == InForce(t.base))
  }

  lemma RunStep(cfg: Config, s: State, steps: seq<Step>, last: Step)
    ensures Run(cfg, s, steps + [last]) == Next(cfg, Run(cfg, s, steps), last)
  {
    assert (steps + [last])[..|steps|] == steps;
  }

  /** The times kept across a step still open their stretches. */
  lemma KeptTimes(cfg: Config, s: State, steps: seq<Step>, last: Step, t: State)
    requires t == Run(cfg, s, steps) && Inv(cfg, s, steps, t)
    ensures t.overloadSince != 0 && (last.Tick? ==> Overload(cfg, t, last.load).Some?) ==>
              Since(cfg, s, steps + [last], t.overloadSince, true)
    ensures t.stableSince != 0 && (last.Tick? ==> Overload(cfg, t, last.load).None?) ==>
              Since(cfg, s, steps + [last], t.stableSince, false)
  {
    if t.overloadSince != 0 && (last.Tick? ==> Overload(cfg, t, last.load).Some?) {
      SinceExtends(cfg, s, steps, last, t.overloadSince, true);
    }
    if t.stableSince != 0 && (last.Tick? ==> Overload(cfg, t, last.load).None?) {
      SinceExtends(cfg, s, steps, last, t.stableSince, false);
    }
  }

  lemma StepKeepsInv(cfg: Config, s: State, steps: seq<Step>, last: Step, t: State)
    requires cfg.enabled && t == Run(cfg, s, steps) && Inv(cfg, s, steps, t)
    ensures Inv(cfg, s, steps + [last], Next(cfg, t, last))
  {
    KeptTimes(cfg, s, steps, last, t);
    if last.Tick? {
      SinceStarts(cfg, s, steps, last, Overload(cfg, t, last.load).Some?);
    }
  }

  lemma {:induction false} EveryRun(cfg: Config, limits: Limits, steps: seq<Step>)
    requires cfg.enabled
    ensures Inv(cfg, Start(limits), steps, Run(cfg, Start(limits), steps))
  {
    if steps != [] {
      var before, last := steps[..|steps| - 1], steps[|steps| - 1];
      EveryRun(cfg, limits, before);
      StepKeepsInv(cfg, Start(limits), before, last, Run(cfg, Start(limits), before));
      assert before + [last] == steps;
    }
  }

  /** A service that is not degraded has its configured limits in force, however often it was
      degraded, restored or reconfigured before; one whose switch is off is never degraded. */
  lemma {:induction false} NormalLimitsWhenNotDegraded(cfg: Config, limits: Limits, steps: seq<Step>)
    ensures var t := Run(cfg, Start(limits), steps);
            && (!t.degraded ==> t.live == InForce(t.base))
            && (!cfg.enabled ==> !t.degraded)
  {
    if cfg.enabled {
      EveryRun(cfg, limits, steps);
    } else if steps != [] {
      NormalLimitsWhenNotDegraded(cfg, limits, steps[..|steps| - 1]);
    }
  }

  ghost predicate Enters(cfg: Config, s: State, steps: seq<Step>, last: Step)
  {
    !Run(cfg, s, steps).degraded && Next(cfg, Run(cfg, s, steps), last).degraded
  }

  ghost predicate Leaves(cfg: Config, s: State, steps: seq<Step>, last: Step)
  {
    Run(cfg, s, steps).degraded && !Next(cfg, Run(cfg, s, steps), last).degraded
  }

  /** The service is degraded only at the end of an unbroken overloaded stretch at least as long as
      the overload window, and gets the degraded limits of the configuration of that moment. */
  lemma EntersAfterOverload(cfg: Config, limits: Limits, steps: seq<Step>, last: Step)
    requires Enters(cfg, Start(limits), steps, last)
    ensures last.Tick? && exists j :: Stretch(cfg, Start(limits), steps + [last], j, true)
                                      && last.now - (steps + [last])[j].now >= cfg.overloadWindow
    ensures var t := Next(cfg, Run(cfg, Start(limits), steps), last);
            t.live == DegradedLimits(cfg, t.base)
  {
    var all := steps + [last];
    EveryRun(cfg, limits, all);
    RunStep(cfg, Start(limits), steps, last);
    var t := Run(cfg, Start(limits), all);
    SinceStarts(cfg, Start(limits), steps, last, true);
    if t.overloadSince != 0 {
      var j :| Stretch(cfg, Start(limits), all, j, true) && all[j].now == t.overloadSince;
    } else {
      assert t.overloadSince == last.now;
    }
  }

  /** It is restored only at the end of an unbroken calm stretch at least as long as the recovery
      window, to the limits configured last. */
  lemma LeavesAfterCalm(cfg: Config, limits: Limits, steps: seq<Step>, last: Step)
    requires Leaves(cfg, Start(limits), steps, last)
    ensures last.Tick? && exists j :: Stretch(cfg, Start(limits), steps + [last], j, false)
                                      && last.now - (steps + [last])[j].now >= cfg.recoveryWindow
    ensures var t := Next(cfg, Run(cfg, Start(limits), steps), last);
            t.live == InForce(t.base) && t.base == Run(cfg, Start(limits), steps).base
  {
    var all := steps + [last];
    EveryRun(cfg, limits, all);
    RunStep(cfg, Start(limits), steps, last);
    var t := Run(cfg, Start(limits), all);
    SinceStarts(cfg, Start(limits), steps, last, false);
    if t.stableSince != 0 {
      var j :| Stretch(cfg, Start(limits), all, j, false) && all[j].now == t.stableSince;
    } else {
      assert t.stableSince == last.now;
    }
  }

  // ---------------------------------------------------------------- and it does happen

  lemma SinceIsPast(cfg: Config, s: State, steps: seq<Step>, last: Step, since: int, overloaded: bool)
    requires Since(cfg, s, steps, since, overloaded) && Clock(steps + [last]) && last.Tick?
    ensures since <= last.now
  {
    var j :| Stretch(cfg, s, steps, j, overloaded) && steps[j].now == since;
    var all := steps + [last];
    assert all[j] == steps[j] && all[|steps|] == last;
  }

  lemma SinceIsPositive(cfg: Config, s: State, steps: seq<Step>, since: int, overloaded: bool)
    requires Since(cfg, s, steps, since, overloaded) && Clock(steps)
    ensures since > 0
  {
    var j :| Stretch(cfg, s, steps, j, overloaded) && steps[j].now == since;
  }

  /** The recorded start of the current overload, or of the current calm. */
  function Mark(t: State, overloaded: bool): int
  {
    if overloaded then t.overloadSince else t.stableSince
  }

  lemma MarkAfterTick(cfg: Config, t: State, last: Step, overloaded: bool)
    requires cfg.enabled && (last.Tick? ==> Overload(cfg, t, last.load).Some? == overloaded)
    ensures last.Tick? && Mark(t, overloaded) == 0 ==> Mark(Next(cfg, t, last), overloaded) == last.now
    ensures Mark(t, overloaded) != 0 ==> Mark(Next(cfg, t, last), overloaded) == Mark(t, overloaded)
  {
  }

  lemma ClockOfPrefix(steps: seq<Step>, last: Step)
    requires Clock(steps + [last])
    ensures Clock(steps) && (last.Tick? ==> last.now > 0)
  {
    var all := steps + [last];
    assert all[|steps|] == last && forall k :: 0 <= k < |steps| ==> steps[k] == all[k];
  }

  lemma StretchAtEnd(cfg: Config, s: State, steps: seq<Step>, last: Step, j: int, overloaded: bool)
    requires Stretch(cfg, s, steps + [last], j, overloaded)
    ensures last.Tick? ==> Overload(cfg, Run(cfg, s, steps), last.load).Some? == overloaded
    ensures j == |steps| ==> last.Tick?
    ensures Run(cfg, s, steps + [last]) == Next(cfg, Run(cfg, s, steps), last)
  {
    var all := steps + [last];
    assert all[..|steps|] == steps && all[|steps|] == last;
    assert last.Tick? ==> OverloadedAt(cfg, s, all, |steps|) == overloaded;
  }

  lemma StretchOpens(cfg: Config, limits: Limits, steps: seq<Step>, last: Step, overloaded: bool)
    requires cfg.enabled && Clock(steps + [last]) && Stretch(cfg, Start(limits), steps + [last], |steps|, overloaded)
    ensures 0 < Mark(Run(cfg, Start(limits), steps + [last]), overloaded) <= last.now
  {
    var t := Run(cfg, Start(limits), steps);
    StretchAtEnd(cfg, Start(limits), steps, last, |steps|, overloaded);
    ClockOfPrefix(steps, last);
    EveryRun(cfg, limits, steps);
    MarkAfterTick(cfg, t, last, overloaded);
    if Mark(t, overloaded) != 0 {
      SinceIsPast(cfg, Start(limits), steps, last, Mark(t, overloaded), overloaded);
      SinceIsPositive(cfg, Start(limits), steps, Mark(t, overloaded), overloaded);
    }
  }

  lemma StretchShrinks(cfg: Config, s: State, steps: seq<Step>, last: Step, j: int, overloaded: bool)
    requires Stretch(cfg, s, steps + [last], j, overloaded) && j < |steps|
    ensures Stretch(cfg, s, steps, j, overloaded)
  {
    var all := steps + [last];
    forall k | j <= k < |steps| && steps[k].Tick?
      ensures OverloadedAt(cfg, s, steps, k) == overloaded
    {
      assert all[..k] == steps[..k] && all[k] == steps[k];
      assert OverloadedAt(cfg, s, all, k) == overloaded;
    }
  }

  lemma StretchGoesOn(cfg: Config, limits: Limits, steps: seq<Step>, last: Step, j: int, overloaded: bool)
    requires cfg.enabled && Stretch(cfg, Start(limits), steps + [last], j, overloaded) && j < |steps|
    requires Mark(Run(cfg, Start(limits), steps), overloaded) != 0
    ensures Mark(Run(cfg, Start(limits), steps + [last]), overloaded)
            == Mark(Run(cfg, Start(limits), steps), overloaded)
  {
    StretchAtEnd(cfg, Start(limits), steps, last, j, overloaded);
    MarkAfterTick(cfg, Run(cfg, Start(limits), steps), last, overloaded);
  }

  /** During an overloaded stretch from tick `j` the recorded start of the overload is no later than
      that tick; and likewise for a calm stretch. */
  lemma {:induction false} StretchIsRecorded(cfg: Config, limits: Limits, steps: seq<Step>, j: int, overloaded: bool)
    requires cfg.enabled && Clock(steps) && Stretch(cfg, Start(limits), steps, j, overloaded)
    ensures 0 < Mark(Run(cfg, Start(limits), steps), overloaded) <= steps[j].now
  {
    var before, last := steps[..|steps| - 1], steps[|steps| - 1];
    assert steps == before + [last];
    if j == |before| {
      StretchOpens(cfg, limits, before, last, overloaded);
    } else {
      ClockOfPrefix(before, last);
      StretchShrinks(cfg, Start(limits), before, last, j, overloaded);
      StretchIsRecorded(cfg, limits, before, j, overloaded);
      StretchGoesOn(cfg, limits, before, last, j, overloaded);
    }
  }

  /** At the end of an overloaded stretch as long as the overload window the service is degraded; at
      the end of a calm stretch as long as the recovery window it is not. */
  lemma SustainedLoadDecides(cfg: Config, limits: Limits, steps: seq<Step>, j: int, overloaded: bool)
    requires cfg.enabled && Clock(steps) && Stretch(cfg, Start(limits), steps, j, overloaded)
    requires steps[|steps| - 1].Tick?
    requires steps[|steps| - 1].now - steps[j].now >= if overloaded then cfg.overloadWindow else cfg.recoveryWindow
    ensures Run(cfg, Start(limits), steps).degraded == overloaded
  {
    StretchIsRecorded(cfg, limits, steps, j, overloaded);
    assert OverloadedAt(cfg, Start(limits), steps, |steps| - 1) == overloaded;
    DecidedAtTick(cfg, Run(cfg, Start(limits), steps[..|steps| - 1]), steps[|steps| - 1]);
  }

  lemma DecidedAtTick(cfg: Config, s: State, step: Step)
    requires cfg.enabled && step.Tick?
    ensures var t := Next(cfg, s, step);
            && (Overload(cfg, s, step.load).Some? && step.now - t.overloadSince >= cfg.overloadWindow ==> t.degraded)
            && (Overload(cfg, s, step.load).None? && step.now - t.stableSince >= cfg.recoveryWindow ==> !t.degraded)
  {
  }

  // ---------------------------------------------------------------- no flapping

  /** Between being degraded at step `k` and being restored lies at least the recovery window; between
      being restored and being degraded again at least the overload window. */
  lemma NoFlapping(cfg: Config, limits: Limits, steps: seq<Step>, k: int, last: Step)
    requires 0 <= k < |steps| && Clock(steps + [last])
    ensures Enters(cfg, Start(limits), steps[..k], steps[k]) && Leaves(cfg, Start(limits), steps, last) ==>
              steps[k].Tick? && last.Tick? && last.now - steps[k].now >= cfg.recoveryWindow
    ensures Leaves(cfg, Start(limits), steps[..k], steps[k]) && Enters(cfg, Start(limits), steps, last) ==>
              steps[k].Tick? && last.Tick? && last.now - steps[k].now >= cfg.overloadWindow
  {
    var s, all := Start(limits), steps + [last];
    assert all[..k] == steps[..k] && all[k] == steps[k] && all[|steps|] == last;
    if Enters(cfg, s, steps[..k], steps[k]) && Leaves(cfg, s, steps, last) {
      LeavesAfterCalm(cfg, limits, steps, last);
      var j :| Stretch(cfg, s, all, j, false) && last.now - all[j].now >= cfg.recoveryWindow;
      assert OverloadedAt(cfg, s, all, k);
      assert j > k;
    }
    if Leaves(cfg, s, steps[..k], steps[k]) && Enters(cfg, s, steps, last) {
      EntersAfterOverload(cfg, limits, steps, last);
      var j :| Stretch(cfg, s, all, j, true) && last.now - all[j].now >= cfg.overloadWindow;
      assert !OverloadedAt(cfg, s, all, k);
      assert j > k;
    }
  }

  // ---------------------------------------------------------------- limits while degraded

  /** The service was reconfigured while degraded, and has been degraded ever since. */
  ghost predicate Lifted(cfg: Config, s: State, steps: seq<Step>)
  {
    && steps != []
    && Run(cfg, s, steps).degraded
    && var before := steps[..|steps| - 1];
       || Lifted(cfg, s, before)
       || (steps[|steps| - 1].Configure? && Run(cfg, s, before).degraded)
  }

  /** Which limits are in force after every run: the degraded ones exactly while the service is degraded
      and has not been reconfigured since it became so; otherwise the configured ones. */
  lemma {:induction false} LimitsInForce(cfg: Config, limits: Limits, steps: seq<Step>)
    ensures var t := Run(cfg, Start(limits), steps);
            t.live == if t.degraded && !Lifted(cfg, Start(limits), steps) then DegradedLimits(cfg, t.base)
                      else InForce(t.base)
  {
    if steps != [] {
      LimitsInForce(cfg, limits, steps[..|steps| - 1]);
    }
  }

  /** The exception does occur: reconfiguring a degraded service puts the full limits in force, and no
      tick takes them back before the service has been restored and degraded anew. */
  lemma {:induction false} ReconfigurationLiftsDegradation(cfg: Config, s: State, steps: seq<Step>, limits: Limits,
                                                           later: seq<Step>)
    requires Run(cfg, s, steps).degraded
    requires forall k :: 0 <= k <= |later| ==> Run(cfg, s, steps + [Configure(limits)] + later[..k]).degraded
    ensures Lifted(cfg, s, steps + [Configure(limits)] + later)
  {
    var all := steps + [Configure(limits)] + later;
    assert later[..|later|] == later;
    if later == [] {
      assert all[..|all| - 1] == steps;
    } else {
      var before := later[..|later| - 1];
      forall k | 0 <= k <= |before|
        ensures Run(cfg, s, steps + [Configure(limits)] + before[..k]).degraded
      {
        assert before[..k] == later[..k];
      }
      ReconfigurationLiftsDegradation(cfg, s, steps, limits, before);
      assert all[..|all| - 1] == steps + [Configure(limits)] + before;
    }
  }

  // ---------------------------------------------------------------- in terms of what was measured and configured

  /** The soft cap was hit after the last tick. */
  ghost predicate SoftCapSince(steps: seq<Step>)
  {
    exists j :: 0 <= j < |steps| && steps[j].SoftCapHit? && forall k :: j < k < |steps| ==> !steps[k].Tick?
  }

  lemma SoftCapSinceExtends(steps: seq<Step>)
    requires steps != []
    ensures var before, last := steps[..|steps| - 1], steps[|steps| - 1];
            SoftCapSince(steps) <==> last.SoftCapHit? || (!last.Tick? && SoftCapSince(before))
  {
    var before, last := steps[..|steps| - 1], steps[|steps| - 1];
    if !last.Tick? && SoftCapSince(before) {
      var j :| 0 <= j < |before| && before[j].SoftCapHit? && forall k :: j < k < |before| ==> !before[k].Tick?;
      assert steps[j].SoftCapHit? && forall k :: j < k < |before| ==> steps[k] == before[k];
    }
    if SoftCapSince(steps) && !last.SoftCapHit? {
      var j :| 0 <= j < |steps| && steps[j].SoftCapHit? && forall k :: j < k < |steps| ==> !steps[k].Tick?;
      assert before[j].SoftCapHit? && forall k :: j < k < |before| ==> before[k] == steps[k];
    }
  }

  lemma {:induction false} SoftCapFlag(cfg: Config, limits: Limits, steps: seq<Step>)
    requires cfg.enabled
    ensures Run(cfg, Start(limits), steps).softCapExceeded <==> SoftCapSince(steps)
  {
    if steps != [] {
      SoftCapFlag(cfg, limits, steps[..|steps| - 1]);
      SoftCapSinceExtends(steps);
    }
  }

  /** A measure has come to a threshold that is set; the one for lag always is. */
  predicate Reached(threshold: int, value: int)
  {
    0 < threshold <= value
  }

  /** A tick of an enabled service is overloaded if and only if serving is allowed and memory, backlog or lag
      have come to their thresholds, or the soft cap was hit since the tick before. The reason kept is
      the first of these. */
  lemma OverloadedIff(cfg: Config, limits: Limits, steps: seq<Step>, tick: Step)
    requires cfg.enabled && tick.Tick?
    ensures var load := tick.load;
            var ram, backlog, lag :=
              Reached(cfg.ramThresholdMB, load.ramMB), Reached(cfg.pendingThreshold, load.pendingCount),
              load.lag >= cfg.lagThreshold;
            var all := steps + [tick];
            && (OverloadedAt(cfg, Start(limits), all, |steps|) <==>
                  load.servingAllowed && (ram || backlog || lag || SoftCapSince(steps)))
            && (OverloadedAt(cfg, Start(limits), all, |steps|) ==>
                  Run(cfg, Start(limits), all).lastReason ==
                  Some(if ram then Ram(load.ramMB) else if backlog then Backlog(load.pendingCount)
                       else if lag then Lag(load.lag) else SoftCap))
  {
    SoftCapFlag(cfg, limits, steps);
    RunStep(cfg, Start(limits), steps, tick);
    assert (steps + [tick])[..|steps|] == steps;
  }

  /** The limits configured last, counts below zero taken as zero. */
  function LatestLimits(limits: Limits, steps: seq<Step>): Limits
    decreases |steps|
  {
    if steps == [] then Limits(limits.softKBps, limits.hardKBps,
                               if limits.concurrent > 0 then limits.concurrent else 0,
                               if limits.perPeer > 0 then limits.perPeer else 0)
    else if steps[|steps| - 1].Configure? then LatestLimits(steps[|steps| - 1].limits, [])
    else LatestLimits(limits, steps[..|steps| - 1])
  }

  lemma {:induction false} BaseIsLatest(cfg: Config, limits: Limits, steps: seq<Step>)
    ensures Run(cfg, Start(limits), steps).base == LatestLimits(limits, steps)
  {
    if steps != [] {
      BaseIsLatest(cfg, limits, steps[..|steps| - 1]);
    }
  }

  /** A bandwidth reduced to a percentage of it, and at least to `least`. */
  function Reduced(kbps: int, percent: int, least: int): int
  {
    if kbps * percent >= 100 * least && kbps * percent >= 0 then kbps * percent / 100 else least
  }

  lemma ReducedIs(kbps: int, percent: int, least: int)
    requires least >= 1
    ensures Reduced(kbps, percent, least) ==
            if Percent(kbps * percent) < least then least else Percent(kbps * percent)
  {
    PercentReaches(kbps * percent, least);
  }

  lemma PercentReaches(v: int, least: int)
    requires least >= 1
    ensures Percent(v) >= least <==> v >= 100 * least
    ensures v >= 0 ==> Percent(v) == v / 100
  {
  }

  /** Which limits are in force after every run, in terms of those configured last: while degraded and not
      reconfigured since, a percentage of the bandwidths, of which at least 1 KB/s is left and the hard
      one is not below the soft one, and the counts set for this; otherwise as they were configured. */
  lemma LimitsAfterEveryRun(cfg: Config, limits: Limits, steps: seq<Step>)
    ensures var t, latest := Run(cfg, Start(limits), steps), LatestLimits(limits, steps);
            t.live ==
            if t.degraded && !Lifted(cfg, Start(limits), steps)
            then var soft := Reduced(latest.softKBps, cfg.factorPct, 1);
                 Limits(soft, Reduced(latest.hardKBps, cfg.factorPct, soft),
                        cfg.degradedConcurrent, cfg.degradedPerPeer)
            else Limits(if latest.softKBps > 0 then latest.softKBps else 0,
                        if latest.hardKBps > 0 then latest.hardKBps else 0, latest.concurrent, latest.perPeer)
  {
    LimitsInForce(cfg, limits, steps);
    BaseIsLatest(cfg, limits, steps);
    var latest := LatestLimits(limits, steps);
    ReducedIs(latest.softKBps, cfg.factorPct, 1);
    ReducedIs(latest.hardKBps, cfg.factorPct, Reduced(latest.softKBps, cfg.factorPct, 1));
  }

  /** The service has been degraded since tick `k`. */
  ghost predicate DegradedSince(cfg: Config, s: State, steps: seq<Step>, k: int)
  {
    && 0 <= k < |steps| && steps[k].Tick? && !Run(cfg, s, steps[..k]).degraded
    && forall j :: k < j <= |steps| ==> Run(cfg, s, steps[..j]).degraded
  }

  /** After every run the time kept is that of the tick since which the service has been degraded, and 0
      when it is not. */
  lemma {:induction false} DegradedSinceWhen(cfg: Config, limits: Limits, steps: seq<Step>)
    ensures var t := Run(cfg, Start(limits), steps);
            if t.degraded then exists k :: DegradedSince(cfg, Start(limits), steps, k) && steps[k].now == t.appliedAt
            else t.appliedAt == 0
  {
    if steps != [] {
      var s, before, last := Start(limits), steps[..|steps| - 1], steps[|steps| - 1];
      DegradedSinceWhen(cfg, limits, before);
      assert forall j :: 0 <= j <= |before| ==> before[..j] == steps[..j];
      assert steps[..|steps|] == steps;
      if Run(cfg, s, steps).degraded {
        if Run(cfg, s, before).degraded {
          var k :| DegradedSince(cfg, s, before, k) && before[k].now == Run(cfg, s, before).appliedAt;
          assert DegradedSince(cfg, s, steps, k);
        } else {
          assert DegradedSince(cfg, s, steps, |before|);
        }
      }
    }
  }

  /** With recovery the reason is cleared as well. */
  lemma RecoveryClearsReason(cfg: Config, s: State, steps: seq<Step>, last: Step)
    requires Run(cfg, s, steps).degraded && !Run(cfg, s, steps + [last]).degraded
    ensures Run(cfg, s, steps + [last]).lastReason == None
  {
    RunStep(cfg, s, steps, last);
  }

  // ---------------------------------------------------------------- the service

  class PublicServing {
    const cfg: Config
    var state: State

    constructor (cfg: Config, limits: Limits)
      ensures this.cfg == cfg && state == Start(limits)
    {
      this.cfg := cfg;
      state := Start(limits);
    }

    method ApplyDegradedLimits(now: int)
      modifies this
      ensures state == if old(state).degraded then old(state) else Apply(cfg, old(state), now)
    {
      if state.degraded {
        return;
      }
      var soft := Percent(state.base.softKBps * cfg.factorPct);
      var hard := Percent(state.base.hardKBps * cfg.factorPct);
      if soft <= 0 {
        soft := 1;
      }
      if hard < soft {
        hard := soft;
      }
      var live := Limits(PositiveOrZero(soft), PositiveOrZero(hard), cfg.degradedConcurrent, cfg.degradedPerPeer);
      state := state.(live := live, degraded := true, appliedAt := now);
    }

    method Evaluate(now: int, load: Load)
      modifies this
      ensures state == Next(cfg, old(state), Tick(now, load))
    {
      if !cfg.enabled {
        return;
      }
      var reason := Overload(cfg, state, load);
      if reason.Some? {
        if state.overloadSince == 0 {
          state := state.(overloadSince := now);
        }
        state := state.(stableSince := 0, lastReason := reason);
        if !state.degraded && now - state.overloadSince >= cfg.overloadWindow {
          ApplyDegradedLimits(now);
        }
      } else {
        state := state.(overloadSince := 0);
        if state.stableSince == 0 {
          state := state.(stableSince := now);
        }
        if state.degraded && now - state.stableSince >= cfg.recoveryWindow {
          state := Restore(state);
        }
      }
      state := state.(softCapExceeded := false);
    }

    method ConfigureLimits(limits: Limits)
      modifies this
      ensures state == Next(cfg, old(state), Configure(limits))
    {
      var base := limits.(concurrent := PositiveOrZero(limits.concurrent), perPeer := PositiveOrZero(limits.perPeer));
      state := state.(live := InForce(base));
      state := state.(base := base);
    }

    method MarkSoftCapExceeded()
      modifies this
      ensures state == Next(cfg, old(state), SoftCapHit)
    {
      state := state.(softCapExceeded := true);
    }
  }
}
