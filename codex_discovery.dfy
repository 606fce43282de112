/**
 * The discovery scheduler of the Codex import engine (src/codex_import.rs):
 * whether a directory walk is due this cycle, and the additive back-off of
 * the walk interval. Times are whole seconds.
 */
module CodexDiscovery {
  import opened Wrappers

  const MinDiscoveryInterval: nat := 10
  const MaxDiscoveryInterval: nat := 120
  const DiscoveryBackoffStep: nat := 10
  /** Idle discovery cycles after which the interval grows by one step. */
  const IdleCyclesPerStep: nat := 3

  /**
   * Due when discovery never ran, when at least `interval` has elapsed, or
   * when the clock reads earlier than the last discovery.
   */
  function ShouldRefreshFileDiscovery(lastDiscoveryAt: Option<nat>, interval: nat, now: nat): (due: bool)
    ensures lastDiscoveryAt.None? ==> due
    ensures lastDiscoveryAt.Some? && now < lastDiscoveryAt.value ==> due
    ensures lastDiscoveryAt.Some? && lastDiscoveryAt.value <= now ==>
      (due <==> now - lastDiscoveryAt.value >= interval)
  {
    match lastDiscoveryAt
    case None => true
    case Some(last) => if now >= last then now - last >= interval else true
  }

  /** Once due, discovery stays due as the clock moves on. */
  lemma DiscoveryStaysDue(lastDiscoveryAt: Option<nat>, interval: nat, now: nat, later: nat)
    requires ShouldRefreshFileDiscovery(lastDiscoveryAt, interval, now)
    requires lastDiscoveryAt.Some? ==> lastDiscoveryAt.value <= now
    requires now <= later
    ensures ShouldRefreshFileDiscovery(lastDiscoveryAt, interval, later)
  {
  }

  /** The scheduler's back-off state: the interval and the run of idle discovery cycles. */
  datatype Backoff = Backoff(interval: nat, idleCycles: nat)

  const InitialBackoff := Backoff(MinDiscoveryInterval, 0)

  predicate ValidBackoff(b: Backoff) {
    MinDiscoveryInterval <= b.interval <= MaxDiscoveryInterval && b.idleCycles < IdleCyclesPerStep
  }

  function Min(a: nat, b: nat): nat { if a < b then a else b }

  /**
   * Interval tuning after a cycle in which discovery ran: a change resets the
   * interval to the minimum; the third idle cycle in a row adds one step, up
   * to the maximum, and restarts the idle count.
   */
  function TunedBackoff(b: Backoff, changesDetected: bool): (r: Backoff)
    ensures changesDetected ==> r == InitialBackoff
    ensures !changesDetected && b.idleCycles + 1 < IdleCyclesPerStep ==> r == Backoff(b.interval, b.idleCycles + 1)
    ensures !changesDetected && b.idleCycles + 1 >= IdleCyclesPerStep ==>
      r == Backoff(Min(b.interval + DiscoveryBackoffStep, MaxDiscoveryInterval), 0)
  {
    if changesDetected then Backoff(MinDiscoveryInterval, 0)
    else
      var idle := b.idleCycles + 1;
      if idle < 3 then Backoff(b.interval, idle)
      else
        var next := b.interval + DiscoveryBackoffStep;
        Backoff(if next < MaxDiscoveryInterval then next else MaxDiscoveryInterval, 0)
  }

  /** The interval stays within [10s, 120s] and the idle count below 3. */
  lemma TuningKeepsBounds(b: Backoff, changesDetected: bool)
    requires ValidBackoff(b)
    ensures ValidBackoff(TunedBackoff(b, changesDetected))
  {
  }

  /** The interval grows only on the third consecutive idle cycle, and by one step at most. */
  lemma GrowthNeedsThreeIdleCycles(b: Backoff, changesDetected: bool)
    requires ValidBackoff(b)
    requires TunedBackoff(b, changesDetected).interval > b.interval
    ensures !changesDetected && b.idleCycles == IdleCyclesPerStep - 1
    ensures TunedBackoff(b, changesDetected).interval <= b.interval + DiscoveryBackoffStep
  {
  }

  /** `n` consecutive idle discovery cycles. */
  function IdleRun(b: Backoff, n: nat): Backoff {
    if n == 0 then b else TunedBackoff(IdleRun(b, n - 1), false)
  }

  /**
   * Closed form of a run of idle cycles: one step per three idle cycles,
   * clamped at the maximum; the idle count is the remainder.
   */
  lemma {:induction false} IdleRunClosedForm(b: Backoff, n: nat)
    requires ValidBackoff(b)
    ensures IdleRun(b, n) ==
      Backoff(Min(b.interval + DiscoveryBackoffStep * ((b.idleCycles + n) / IdleCyclesPerStep), MaxDiscoveryInterval),
              (b.idleCycles + n) % IdleCyclesPerStep)
    ensures ValidBackoff(IdleRun(b, n))
  {
    if n > 0 {
      IdleRunClosedForm(b, n - 1);
      var c := b.idleCycles + n - 1;
      assert (c + 1) / 3 == if c % 3 == 2 then c / 3 + 1 else c / 3;
      assert (c + 1) % 3 == if c % 3 == 2 then 0 else c % 3 + 1;
    }
  }

  /** From the minimum, three idle discovery cycles give 20s. */
  lemma ThreeIdleCyclesFromStart()
    ensures IdleRun(InitialBackoff, 3) == Backoff(20, 0)
  {
    IdleRunClosedForm(InitialBackoff, 3);
  }

  /** However long the tree stays idle, the interval never exceeds 120s. */
  lemma IdleGrowthIsCapped(b: Backoff, n: nat)
    requires ValidBackoff(b)
    ensures IdleRun(b, n).interval <= MaxDiscoveryInterval
    ensures n >= 3 * 11 ==> IdleRun(b, n).interval == MaxDiscoveryInterval
  {
    IdleRunClosedForm(b, n);
    if n >= 33 {
      assert (b.idleCycles + n) / 3 >= 11;
    }
  }
}
