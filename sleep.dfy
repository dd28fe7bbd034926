/**
 * The system-sleep bookkeeping on one domain record: the prepare/complete
 * bracket around a sleep transition (prepared_count, with suspended_count
 * and suspend_power_off fixed when the bracket opens) and the test the
 * noirq callbacks make before touching the domain.
 */
module Sleep {
  import opened Types

  /** A domain record outside an unbalanced complete: the bracket is open exactly while prepared_count is positive. */
  predicate BracketOk(g: Domain) {
    g.preparedCount >= 0 && (g.preparedCount == 0 ==> !g.suspendPowerOff)
  }

  /**
   * pm_genpd_prepare on the record of the device's domain, whose power
   * state is `status`: the new record and the result. `wakeupPending` is
   * pm_wakeup_pending(), `genericPrepare` what pm_generic_prepare returns.
   */
  function PrepareF(g: Domain, status: Status, wakeupPending: bool, genericPrepare: int): (Domain, int) {
    if wakeupPending then (g, EBUSY)
    else
      var g1 := if g.preparedCount == 0
                then g.(preparedCount := 1, suspendedCount := 0, suspendPowerOff := status.PowerOff?)
                else g.(preparedCount := g.preparedCount + 1);
      if g1.suspendPowerOff || genericPrepare == 0 then (g1, 0)
      else
        var g2 := g1.(preparedCount := g1.preparedCount - 1);
        (if g2.preparedCount == 0 then g2.(suspendPowerOff := false) else g2, genericPrepare)
  }

  /** pm_genpd_complete on the record of the device's domain. */
  function CompleteF(g: Domain): Domain {
    var g1 := g.(preparedCount := g.preparedCount - 1);
    if g1.preparedCount == 0 then g1.(suspendPowerOff := false) else g1
  }

  /** Whether a noirq callback leaves the domain alone: it was off when sleep began, or the device must stay up to wake the system. */
  predicate NoirqSkip(g: Domain, wakeupPath: bool, activeWakeup: bool) {
    g.suspendPowerOff || (wakeupPath && activeWakeup)
  }

  /**
   * What pm_genpd_prepare does to the record: a pending wakeup refuses with
   * -EBUSY and changes nothing; the first prepare of a cycle clears
   * suspended_count and records whether the domain was off; a domain off at
   * that point skips the device's prepare callback; a failing callback
   * takes the count back (closing the bracket if it was the only one) and
   * its code is returned. Devices, counts of devices and callbacks are
   * never touched.
   */
  lemma PrepareOutcome(g: Domain, status: Status, wakeupPending: bool, genericPrepare: int)
    ensures var (r, ret) := PrepareF(g, status, wakeupPending, genericPrepare);
            && (wakeupPending ==> r == g && ret == EBUSY)
            && (!wakeupPending ==>
                  && (g.preparedCount == 0 ==> r.suspendedCount == 0)
                  && (g.preparedCount != 0 ==> r.suspendedCount == g.suspendedCount)
                  && (ret == 0 <==> r.preparedCount == g.preparedCount + 1)
                  && (ret == 0 ==> r.suspendPowerOff == (if g.preparedCount == 0 then status.PowerOff? else g.suspendPowerOff))
                  && (ret != 0 ==> ret == genericPrepare && !r.suspendPowerOff)
                  && (ret != 0 <==> genericPrepare != 0 && !(if g.preparedCount == 0 then status.PowerOff? else g.suspendPowerOff)))
            && r.deviceCount == g.deviceCount && r.devList == g.devList && r.maxOffTimeNs == g.maxOffTimeNs
            && r.hasPowerOn == g.hasPowerOn && r.hasPowerOff == g.hasPowerOff && r.hasGovernor == g.hasGovernor
  {
  }

  /**
   * The bracket closes as it opened: a successful prepare followed by
   * complete gives prepared_count back, and closing the outermost bracket
   * clears suspend_power_off.
   */
  lemma PrepareThenComplete(g: Domain, status: Status, genericPrepare: int)
    requires BracketOk(g)
    ensures var (r, ret) := PrepareF(g, status, false, genericPrepare);
            ret == 0 ==>
              && CompleteF(r).preparedCount == g.preparedCount
              && (g.preparedCount == 0 ==> !CompleteF(r).suspendPowerOff)
              && (g.preparedCount > 0 ==> CompleteF(r).suspendPowerOff == g.suspendPowerOff)
  {
  }

  /** Prepare, and a complete that matches an earlier prepare, keep the bracket consistent. */
  lemma BracketKept(g: Domain, status: Status, wakeupPending: bool, genericPrepare: int)
    requires BracketOk(g)
    ensures BracketOk(PrepareF(g, status, wakeupPending, genericPrepare).0)
    ensures g.preparedCount > 0 ==> BracketOk(CompleteF(g))
  {
  }
}
